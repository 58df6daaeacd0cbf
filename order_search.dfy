/**
 * The data shaping of `/api/brightpearl/proof-required`: choosing the
 * regional host, decoding order IDs from the three encodings the search
 * endpoint may return, capping them at ten for the details URL, and mapping
 * each order record to the summary the front end reads. The two `fetch`
 * calls are left out; their JSON results are the inputs.
 */
module OrderSearch {
  import opened Wrappers
  import opened Js
  import Text
  import Decimal

  const EuHost := "https://euw1.brightpearlconnect.com"
  const UsHost := "https://use1.brightpearlconnect.com"
  const MaxDetailIds := 10
  const FallbackStride := 20

  /** `process.env.BRIGHTPEARL_DATACENTER || 'use1'`. */
  function Datacenter(env: Option<string>): (dc: string)
    ensures dc != ""
    ensures env.Some? && env.value != "" ==> dc == env.value
    ensures env.None? || env.value == "" ==> dc == "use1"
  {
    if env.Some? && env.value != "" then env.value else "use1"
  }

  /** The `baseUrl` of every Brightpearl route: the EU host for "euw1", the US host for anything else. */
  function BaseUrl(datacenter: string): (url: string)
    ensures url == EuHost <==> datacenter == "euw1"
    ensures url == UsHost <==> datacenter != "euw1"
  {
    if datacenter == "euw1" then EuHost else UsHost
  }

  /** The fallback decoder keeps a trimmed part at a multiple of 20 that is all digits. */
  predicate KeepPart(index: nat, trimmed: string)
  {
    index % FallbackStride == 0 && Text.AllDigits(trimmed)
  }

  /** The indices below `n` of the parts the fallback keeps, in increasing order. */
  function KeptIndices(trimmed: seq<string>, n: nat): (r: seq<nat>)
    requires n <= |trimmed|
    ensures forall k :: 0 <= k < |r| ==> r[k] < n
    ensures forall k :: 0 <= k < |r| ==> KeepPart(r[k], trimmed[r[k]])
    ensures forall k, l :: 0 <= k < l < |r| ==> r[k] < r[l]
  {
    if n == 0 then []
    else
      var earlier := KeptIndices(trimmed, n - 1);
      if KeepPart(n - 1, trimmed[n - 1]) then earlier + [n - 1] else earlier
  }

  /** No part that qualifies is skipped. */
  lemma {:induction false} KeptIndicesComplete(trimmed: seq<string>, n: nat, i: nat)
    requires n <= |trimmed| && i < n
    requires KeepPart(i, trimmed[i])
    ensures i in KeptIndices(trimmed, n)
  {
    if i < n - 1 {
      KeptIndicesComplete(trimmed, n - 1, i);
    }
  }

  /** The comma-separated parts of `results.toString()`, each trimmed. */
  function TrimmedParts(results: seq<Value>): (r: seq<string>)
    ensures var parts := Text.Split(ToString(Arr(results)), ',');
            |r| == |parts| && forall i :: 0 <= i < |r| ==> r[i] == Text.Trim(parts[i])
  {
    var parts := Text.Split(ToString(Arr(results)), ',');
    seq(|parts|, i requires 0 <= i < |parts| => Text.Trim(parts[i]))
  }

  /** The trimmed parts `KeepPart` admits, in order, as strings. */
  function KeptParts(trimmed: seq<string>): (r: seq<Value>)
    ensures |r| == |KeptIndices(trimmed, |trimmed|)|
    ensures forall k :: 0 <= k < |r| ==> r[k] == Str(trimmed[KeptIndices(trimmed, |trimmed|)[k]])
  {
    var kept := KeptIndices(trimmed, |trimmed|);
    seq(|kept|, k requires 0 <= k < |kept| => Str(trimmed[kept[k]]))
  }

  /** `results.toString().split(',')`, filtered by `KeepPart` and trimmed. */
  function FallbackIds(results: seq<Value>): seq<Value>
  {
    KeptParts(TrimmedParts(results))
  }

  /** `v` is the trimmed part at some multiple of 20. */
  predicate AtStride(trimmed: seq<string>, v: Value)
  {
    exists i :: 0 <= i < |trimmed| && i % 20 == 0 && v == Str(trimmed[i])
  }

  /**
   * The fallback keeps exactly the trimmed parts at multiples of 20 that are
   * all digits, in their order in the rendered results.
   */
  lemma KeptPartsExactly(trimmed: seq<string>)
    ensures forall k :: 0 <= k < |KeptParts(trimmed)| ==>
              KeptParts(trimmed)[k].Str? && Text.AllDigits(KeptParts(trimmed)[k].s)
    ensures forall k :: 0 <= k < |KeptParts(trimmed)| ==> AtStride(trimmed, KeptParts(trimmed)[k])
    ensures forall i :: 0 <= i < |trimmed| && i % 20 == 0 && Text.AllDigits(trimmed[i]) ==>
              Str(trimmed[i]) in KeptParts(trimmed)
  {
    var kept := KeptIndices(trimmed, |trimmed|);
    forall k | 0 <= k < |KeptParts(trimmed)|
      ensures KeptParts(trimmed)[k].Str? && Text.AllDigits(KeptParts(trimmed)[k].s)
    {
      assert KeepPart(kept[k], trimmed[kept[k]]);
    }
    forall k | 0 <= k < |KeptParts(trimmed)|
      ensures AtStride(trimmed, KeptParts(trimmed)[k])
    {
      var i := kept[k];
      assert KeepPart(i, trimmed[i]);
      assert 0 <= i < |trimmed| && i % 20 == 0 && KeptParts(trimmed)[k] == Str(trimmed[i]);
    }
    forall i | 0 <= i < |trimmed| && i % 20 == 0 && Text.AllDigits(trimmed[i])
      ensures Str(trimmed[i]) in KeptParts(trimmed)
    {
      assert KeepPart(i, trimmed[i]);
      KeptIndicesComplete(trimmed, |trimmed|, i);
      var k :| 0 <= k < |kept| && kept[k] == i;
      assert KeptParts(trimmed)[k] == Str(trimmed[i]);
    }
  }

  /**
   * The order IDs of a search response, keyed on the shape of `results[0]`:
   * the first cell of every row, the list itself, or the comma-split fallback.
   * `None` is a response without (truthy) `response.results`. Reading `row[0]`
   * of a null row throws.
   */
  function DecodeOrderIds(results: Option<seq<Value>>): (r: Result<seq<Value>, Exception>)
    ensures results.None? || results.value == [] ==> r == Success([])
    ensures results.Some? && results.value != [] && results.value[0].Arr? ==>
      && (r.Success? <==> forall i :: 0 <= i < |results.value| ==> !Nullish(results.value[i]))
      && (r.Failure? ==> r.error == TypeError)
      && (r.Success? ==>
            |r.value| == |results.value| &&
            forall i :: 0 <= i < |results.value| ==> r.value[i] == Index0(results.value[i]))
    ensures results.Some? && results.value != [] && (results.value[0].Num? || results.value[0].Str?) ==>
      r == Success(results.value)
    ensures results.Some? && results.value != [] && !results.value[0].Arr? && !results.value[0].Num? && !results.value[0].Str? ==>
      r == Success(FallbackIds(results.value))
  {
    if results.None? || results.value == [] then Success([])
    else
      var rows := results.value;
      if rows[0].Arr? then
        if forall i :: 0 <= i < |rows| ==> !Nullish(rows[i])
        then Success(seq(|rows|, i requires 0 <= i < |rows| => Index0(rows[i])))
        else Failure(TypeError)
      else if rows[0].Num? || rows[0].Str? then Success(rows)
      else Success(FallbackIds(rows))
  }

  /** Array rows decode to their first cells, in order. */
  lemma ArrayRowsGiveFirstCells(rows: seq<seq<Value>>)
    requires |rows| > 0
    requires forall i :: 0 <= i < |rows| ==> |rows[i]| > 0
    ensures var r := DecodeOrderIds(Some(seq(|rows|, i requires 0 <= i < |rows| => Arr(rows[i]))));
            r.Success? && |r.value| == |rows| && forall i :: 0 <= i < |rows| ==> r.value[i] == rows[i][0]
  {
  }

  /** `orderIds.slice(0, 10)`. */
  function DetailIds(ids: seq<Value>): (r: seq<Value>)
    ensures |r| <= MaxDetailIds
    ensures |r| == Min(|ids|, MaxDetailIds)
    ensures r == ids[..|r|]
  {
    ids[..Min(|ids|, MaxDetailIds)]
  }

  function IdStrings(ids: seq<Value>): (r: seq<string>)
    ensures |r| == |ids|
  {
    seq(|ids|, i requires 0 <= i < |ids| => ElementString(ids[i]))
  }

  /** `orderIds.slice(0, 10).join(',')`. */
  function OrderRange(ids: seq<Value>): string
  {
    Text.Join(IdStrings(DetailIds(ids)), ",")
  }

  /** An ID renders without a comma when it is a number or a comma-free string. */
  predicate PlainId(v: Value)
  {
    v.Num? || (v.Str? && ',' !in v.s)
  }

  /**
   * When every ID renders without a comma, splitting the range on commas
   * gives back the first ten IDs' renderings, in order.
   */
  lemma OrderRangeSplitsIntoIds(ids: seq<Value>)
    requires ids != []
    requires forall i :: 0 <= i < |ids| ==> PlainId(ids[i])
    ensures Text.Split(OrderRange(ids), ',') == IdStrings(DetailIds(ids))
    ensures |Text.Split(OrderRange(ids), ',')| <= 10
  {
    var shown := IdStrings(DetailIds(ids));
    forall i | 0 <= i < |shown|
      ensures ',' !in shown[i]
    {
      var v := DetailIds(ids)[i];
      if v.Num? {
        Decimal.IntToStringCharacters(v.n);
        assert shown[i] == Decimal.IntToString(v.n);
      }
    }
    Text.SplitJoin(shown, ',');
  }

  /** The next step of the handler once the search response is in. */
  datatype SearchStep =
    | NoOrders               // `res.json([])`
    | FetchDetails(url: string)

  /**
   * Lines 305-344: no IDs answers with an empty list; otherwise the details URL
   * names at most ten of them.
   */
  function DetailsStep(baseUrl: string, accountId: string, results: Option<seq<Value>>): (r: Result<SearchStep, Exception>)
    ensures DecodeOrderIds(results).Failure? <==> r.Failure?
    ensures r.Success? && r.value.NoOrders? <==> DecodeOrderIds(results) == Success([])
    ensures r.Success? && r.value.FetchDetails? ==>
      r.value.url == baseUrl + "/public-api/" + accountId + "/order-service/order/" + OrderRange(DecodeOrderIds(results).value)
  {
    match DecodeOrderIds(results)
    case Failure(e) => Failure(e)
    case Success(ids) =>
      if ids == [] then Success(NoOrders)
      else Success(FetchDetails(baseUrl + "/public-api/" + accountId + "/order-service/order/" + OrderRange(ids)))
  }

  /** What the front end receives per order. */
  datatype OrderSummary = OrderSummary(orderId: Value, orderReference: Value, customerName: Value,
                                       placedOn: Value, deliveryDate: Value)

  /** The first truthy candidate, or `fallback` when there is none: a chain of `||`. */
  function FirstTruthy(candidates: seq<Value>, fallback: Value): (r: Value)
    ensures (forall k :: 0 <= k < |candidates| ==> !Truthy(candidates[k])) ==> r == fallback
    ensures forall k ::
              (0 <= k < |candidates| && Truthy(candidates[k]) && forall j :: 0 <= j < k ==> !Truthy(candidates[j]))
              ==> r == candidates[k]
  {
    if candidates == [] then fallback
    else if Truthy(candidates[0]) then candidates[0]
    else FirstTruthy(candidates[1..], fallback)
  }

  /** `a || b || c || fallback` picks the first truthy of `a`, `b`, `c`. */
  lemma OrChainIsFirstTruthy(candidates: seq<Value>, fallback: Value)
    requires |candidates| == 3
    ensures Or(candidates[0], Or(candidates[1], Or(candidates[2], fallback))) == FirstTruthy(candidates, fallback)
  {
    assert candidates[1..][1..] == [candidates[2]];
    assert candidates[1..][1..][1..] == [];
  }

  /** The customer-name candidates, in the order the handler tries them. */
  function NameCandidates(order: Value): seq<Value>
    requires !Nullish(order)
  {
    var parties := Prop(order, "parties");
    [ OptionalProp(OptionalProp(parties, "customer"), "contactName"),
      OptionalProp(OptionalProp(parties, "delivery"), "addressFullName"),
      OptionalProp(OptionalProp(parties, "customer"), "addressFullName") ]
  }

  /**
   * One element of `detailsData.response.map(...)` (lines 366-375). The
   * customer name is the first truthy candidate, else 'Unknown'; a falsy
   * delivery date becomes null.
   */
  function SummarizeOrder(order: Value): (r: OrderSummary)
    requires !Nullish(order)
    ensures r.orderId == Prop(order, "id")
    ensures r.orderReference == Prop(order, "reference")
    ensures r.placedOn == Prop(order, "placedOn")
    ensures r.customerName == FirstTruthy(NameCandidates(order), Str("Unknown"))
    ensures Truthy(r.customerName)
    ensures var date := OptionalProp(Prop(order, "delivery"), "deliveryDate");
            (Truthy(date) ==> r.deliveryDate == date) && (!Truthy(date) ==> r.deliveryDate == Null)
  {
    var parties := Prop(order, "parties");
    var name := Or(OptionalProp(OptionalProp(parties, "customer"), "contactName"),
                Or(OptionalProp(OptionalProp(parties, "delivery"), "addressFullName"),
                Or(OptionalProp(OptionalProp(parties, "customer"), "addressFullName"),
                   Str("Unknown"))));
    OrChainIsFirstTruthy(NameCandidates(order), Str("Unknown"));
    OrderSummary(Prop(order, "id"), Prop(order, "reference"), name, Prop(order, "placedOn"),
                 Or(OptionalProp(Prop(order, "delivery"), "deliveryDate"), Null))
  }

  /** `detailsData.response.map(...)`: one summary per order, in order; a null order throws. */
  function SummarizeOrders(orders: seq<Value>): (r: Result<seq<OrderSummary>, Exception>)
    ensures r.Success? <==> forall i :: 0 <= i < |orders| ==> !Nullish(orders[i])
    ensures r.Failure? ==> r.error == TypeError
    ensures r.Success? ==>
      |r.value| == |orders| &&
      forall i :: 0 <= i < |orders| ==> r.value[i] == SummarizeOrder(orders[i])
  {
    if forall i :: 0 <= i < |orders| ==> !Nullish(orders[i])
    then Success(seq(|orders|, i requires 0 <= i < |orders| => SummarizeOrder(orders[i])))
    else Failure(TypeError)
  }

  /** An order with a contact name is listed under it; with no name at all, as 'Unknown'. */
  lemma CustomerNameFallbacks(contact: string)
    requires contact != ""
    ensures var order := Obj(map["parties" := Obj(map["customer" := Obj(map["contactName" := Str(contact)])])]);
            SummarizeOrder(order).customerName == Str(contact)
    ensures var order := Obj(map["parties" := Obj(map["customer" := Obj(map["contactName" := Str("")])])]);
            SummarizeOrder(order).customerName == Str("Unknown")
  {
    var named := Obj(map["parties" := Obj(map["customer" := Obj(map["contactName" := Str(contact)])])]);
    assert NameCandidates(named)[0] == Str(contact);
    var unnamed := Obj(map["parties" := Obj(map["customer" := Obj(map["contactName" := Str("")])])]);
    assert NameCandidates(unnamed) == [Str(""), Undefined, Undefined];
  }

}
