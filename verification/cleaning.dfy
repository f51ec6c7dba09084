/**
  The row cleaner of `insertDeals`: each raw deal returned by the CRM API is
  flattened into one warehouse row, with JavaScript `||` defaults for the
  scalar fields, parsed timestamps, a one-level unwrap of the user reference,
  pass-through organisation and stage references, and the whole raw deal
  serialised into a debug column.
 */
module Cleaning {
  import opened Wrappers
  import opened JsValues

  /** What `new Date(x)` produces: a time value in milliseconds, or Invalid Date. */
  datatype Date = Date(epochMillis: int) | InvalidDate

  /**
    The library calls whose internals are not modelled: `new Date(x)` and
    `JSON.stringify(x)`. Each is a fixed but otherwise unknown function.
   */
  datatype Builtins = Builtins(newDate: JsValue -> Date, stringify: JsValue -> string)

  /** One cleaned row as handed to the warehouse's bulk insert. */
  datatype Row = Row(
    id: JsValue,
    title: JsValue,
    status: JsValue,
    value: JsValue,
    currency: JsValue,
    addTime: Option<Date>,
    updateTime: Option<Date>,
    userId: JsValue,
    orgId: JsValue,
    stageId: JsValue,
    customFields: string)

  /**
    A field cleaned with `src || dflt` for a falsy `dflt`: the output is the
    default exactly when the source is falsy, and the untouched source otherwise.
   */
  ghost predicate KeptOrDefaulted(out: JsValue, src: JsValue, dflt: JsValue) {
    && (out == dflt <==> !Truthy(src))
    && (Truthy(src) ==> out == src)
  }

  /** A timestamp cleaned with `src ? new Date(src) : null`. */
  ghost predicate ParsedOrNull(lib: Builtins, out: Option<Date>, src: JsValue) {
    && (out.None? <==> !Truthy(src))
    && (out.Some? ==> out.value == lib.newDate(src))
  }

  /**
    Cleans one raw deal. Reading `deal.id` from `null` or `undefined` throws a
    TypeError, which is `None` here; any other value yields a row.
   */
  function CleanDeal(lib: Builtins, deal: JsValue): (r: Option<Row>)
    ensures r.None? <==> Nullish(deal)
    ensures r.Some? ==> r.value.id == Member(deal, "id")
    ensures r.Some? ==> KeptOrDefaulted(r.value.title, Member(deal, "title"), Str(""))
    ensures r.Some? ==> KeptOrDefaulted(r.value.status, Member(deal, "status"), Str(""))
    ensures r.Some? ==> KeptOrDefaulted(r.value.value, Member(deal, "value"), Num(0.0))
    ensures r.Some? ==> KeptOrDefaulted(r.value.currency, Member(deal, "currency"), Str(""))
    ensures r.Some? ==> ParsedOrNull(lib, r.value.addTime, Member(deal, "add_time"))
    ensures r.Some? ==> ParsedOrNull(lib, r.value.updateTime, Member(deal, "update_time"))
    // the user reference is unwrapped one level ...
    ensures r.Some? ==>
              var user := Member(deal, "user_id");
              if user.Obj? && Truthy(Member(user, "id"))
              then r.value.userId == Member(user, "id")
              else r.value.userId == Null
    // ... while the organisation and stage references are passed through whole
    ensures r.Some? ==> KeptOrDefaulted(r.value.orgId, Member(deal, "org_id"), Null)
    ensures r.Some? ==> KeptOrDefaulted(r.value.stageId, Member(deal, "stage_id"), Null)
    ensures r.Some? ==> r.value.customFields == lib.stringify(deal)
  {
    if Nullish(deal) then None
    else
      var addTime := Member(deal, "add_time");
      var updateTime := Member(deal, "update_time");
      Some(Row(
        id := Member(deal, "id"),
        title := Or(Member(deal, "title"), Str("")),
        status := Or(Member(deal, "status"), Str("")),
        value := Or(Member(deal, "value"), Num(0.0)),
        currency := Or(Member(deal, "currency"), Str("")),
        addTime := if Truthy(addTime) then Some(lib.newDate(addTime)) else None,
        updateTime := if Truthy(updateTime) then Some(lib.newDate(updateTime)) else None,
        userId := Or(Member(Member(deal, "user_id"), "id"), Null),
        orgId := Or(Member(deal, "org_id"), Null),
        stageId := Or(Member(deal, "stage_id"), Null),
        customFields := lib.stringify(deal)))
  }

  /** Every deal of the page can be cleaned: none of them is `null` or `undefined`. */
  predicate Cleanable(page: seq<JsValue>) {
    forall i :: 0 <= i < |page| ==> !Nullish(page[i])
  }

  /**
    `rows.map(clean)`: the page cleaned deal by deal, in order. The first
    nullish deal throws, and then no rows are produced at all.
   */
  function CleanPage(lib: Builtins, page: seq<JsValue>): (r: Option<seq<Row>>)
    ensures r.Some? <==> Cleanable(page)
    ensures r.Some? ==> |r.value| == |page|
    ensures r.Some? ==> forall i {:trigger CleanDeal(lib, page[i])} ::
              0 <= i < |page| ==> CleanDeal(lib, page[i]) == Some(r.value[i])
  {
    if Cleanable(page)
    then Some(seq(|page|, i requires 0 <= i < |page| => CleanDeal(lib, page[i]).value))
    else None
  }

  /** Concatenating two cleanable pages gives a cleanable page. */
  lemma CleanableAppend(a: seq<JsValue>, b: seq<JsValue>)
    requires Cleanable(a) && Cleanable(b)
    ensures Cleanable(a + b)
  {
    forall i | 0 <= i < |a + b|
      ensures !Nullish((a + b)[i])
    {
      if i >= |a| {
        assert (a + b)[i] == b[i - |a|];
      }
    }
  }

  /**
    Cleaning distributes over concatenation: cleaning two consecutive pages
    one after the other gives the rows of cleaning them as one page.
   */
  lemma CleanPageAppend(lib: Builtins, a: seq<JsValue>, b: seq<JsValue>)
    requires Cleanable(a) && Cleanable(b)
    ensures CleanPage(lib, a + b).Some?
    ensures CleanPage(lib, a + b).value == CleanPage(lib, a).value + CleanPage(lib, b).value
  {
    CleanableAppend(a, b);
    var ra, rb := CleanPage(lib, a).value, CleanPage(lib, b).value;
    var r := CleanPage(lib, a + b).value;
    forall i | 0 <= i < |r|
      ensures r[i] == (ra + rb)[i]
    {
      if i < |a| {
        assert (a + b)[i] == a[i];
      } else {
        assert (a + b)[i] == b[i - |a|];
      }
    }
  }
}
