/**
 * The "Parse PKL Response" code node: the replies of the language model on the
 * packing-list branch are read with `extractJson`; their `items` arrays are
 * concatenated, the last non-null `doc_total_qty_from_sheet` is kept, `qty_sum` is
 * recomputed from the items with non-numeric quantities counted as 0, and
 * `checksum_ok` compares the two. The model's own `qty_sum` and `checksum_ok` are
 * only recorded, as `llm_reported_sum` and `llm_checksum_ok`.
 */
module ParsePkl {
  import opened Wrappers
  import opened JsValue
  import opened JsNumber
  import opened ExtractJson
  import opened Seqs

  /** The node's output item; `None` is `null`. */
  datatype PklSummary = PklSummary(
    pklItems: seq<Json>,
    qtySum: int,
    docTotalQty: Option<JsNum>,
    checksumOk: Option<bool>,
    llmReportedSum: Option<JsNum>,
    llmChecksumOk: Option<bool>)

  /** The items a parsed reply adds: its `items` when the reply is truthy and `items` is an array. */
  function ItemsOf(p: Json): (es: seq<Json>)
    ensures es != [] ==> Truthy(p) && Get(p, "items") == Some(JArray(es))
    ensures Truthy(p) && Get(p, "items").Some? && Get(p, "items").value.JArray? ==> es == Get(p, "items").value.elems
  {
    if !Truthy(p) then []
    else
      match Get(p, "items")
      case Some(JArray(es)) => es
      case _ => []
  }

  /** `if (parsed.key != null) x = Number(parsed.key)`: `None` leaves `x` as it was. */
  function NumberField(p: Json, key: string): (r: Option<JsNum>)
    ensures r.Some? <==> Truthy(p) && Get(p, key).Some? && Get(p, key).value != JNull
    ensures r.Some? ==> r.value == ValueToNumber(Get(p, key).value)
  {
    if !Truthy(p) then None
    else
      match Get(p, key)
      case Some(v) => if v == JNull then None else Some(ValueToNumber(v))
      case None => None
  }

  /** `if (typeof parsed.checksum_ok === 'boolean') llmChecksumOk = parsed.checksum_ok` */
  function BoolField(p: Json, key: string): (r: Option<bool>)
    ensures r.Some? <==> Truthy(p) && Get(p, key).Some? && Get(p, key).value.JBool?
    ensures r.Some? ==> Get(p, key) == Some(JBool(r.value))
  {
    if !Truthy(p) then None
    else
      match Get(p, key)
      case Some(JBool(b)) => Some(b)
      case _ => None
  }

  /** `allItems` after the parsed replies `ps`. */
  function Items(ps: seq<Json>): seq<Json> {
    FlatMap(ItemsOf, ps)
  }

  /** What the parsed replies `ps` write to the accumulator of a number field, one entry per reply. */
  function NumberFields(ps: seq<Json>, key: string): (r: seq<Option<JsNum>>)
    ensures |r| == |ps| && forall k :: 0 <= k < |ps| ==> r[k] == NumberField(ps[k], key)
    decreases |ps|
  {
    if ps == [] then []
    else NumberFields(ps[..|ps| - 1], key) + [NumberField(ps[|ps| - 1], key)]
  }

  /** The same for the boolean field `checksum_ok`. */
  function BoolFields(ps: seq<Json>, key: string): (r: seq<Option<bool>>)
    ensures |r| == |ps| && forall k :: 0 <= k < |ps| ==> r[k] == BoolField(ps[k], key)
    decreases |ps|
  {
    if ps == [] then []
    else BoolFields(ps[..|ps| - 1], key) + [BoolField(ps[|ps| - 1], key)]
  }

  /** `(Number(it.qty_expected) || 0)`: `NaN`, a missing quantity and 0 all contribute 0. */
  function QtyOf(it: Json): int {
    match ToNumber(Get(it, "qty_expected"))
    case Num(n) => n
    case NaN => 0
  }

  /** The recomputed sum: `allItems.reduce((acc, it) => acc + (Number(it.qty_expected) || 0), 0)`. */
  function QtySum(items: seq<Json>): int
    decreases |items|
  {
    if items == [] then 0
    else QtySum(items[..|items| - 1]) + QtyOf(items[|items| - 1])
  }

  /** `Number.isFinite(docTotalFromSheet) ? recomputedSum === docTotalFromSheet : null` */
  function Checksum(sum: int, total: Option<JsNum>): Option<bool> {
    match total
    case Some(Num(t)) => Some(sum == t)
    case _ => None
  }

  /** The node's output for the parsed replies `ps`. */
  function Summary(ps: seq<Json>): PklSummary {
    var items := Items(ps);
    var total := LastSome(NumberFields(ps, "doc_total_qty_from_sheet"));
    PklSummary(items, QtySum(items), total, Checksum(QtySum(items), total),
               LastSome(NumberFields(ps, "qty_sum")),
               LastSome(BoolFields(ps, "checksum_ok")))
  }

  /** `if (parsed.key != null) acc = Number(parsed.key)`, for a truthy `parsed`. */
  method AssignNumber(parsed: Json, key: string, acc: Option<JsNum>) returns (acc': Option<JsNum>)
    requires Truthy(parsed)
    ensures acc' == Latest(acc, NumberField(parsed, key))
  {
    acc' := acc;
    var v := Get(parsed, key);
    if v.Some? && v.value != JNull {
      acc' := Some(ValueToNumber(v.value));
    }
  }

  /** The body of the node's `for` loop for one parsed reply: each accumulator takes what the reply writes to it. */
  method AbsorbReply(parsed: Json, allItems: seq<Json>, docTotalFromSheet: Option<JsNum>,
                     llmReportedSum: Option<JsNum>, llmChecksumOk: Option<bool>)
    returns (allItems': seq<Json>, docTotalFromSheet': Option<JsNum>,
             llmReportedSum': Option<JsNum>, llmChecksumOk': Option<bool>)
    ensures allItems' == allItems + ItemsOf(parsed)
    ensures docTotalFromSheet' == Latest(docTotalFromSheet, NumberField(parsed, "doc_total_qty_from_sheet"))
    ensures llmReportedSum' == Latest(llmReportedSum, NumberField(parsed, "qty_sum"))
    ensures llmChecksumOk' == Latest(llmChecksumOk, BoolField(parsed, "checksum_ok"))
  {
    allItems', docTotalFromSheet', llmReportedSum', llmChecksumOk' :=
      allItems, docTotalFromSheet, llmReportedSum, llmChecksumOk;
    if !Truthy(parsed) {
      return;
    }
    allItems' := AppendItems(parsed, allItems');
    docTotalFromSheet' := AssignNumber(parsed, "doc_total_qty_from_sheet", docTotalFromSheet');
    llmReportedSum' := AssignNumber(parsed, "qty_sum", llmReportedSum');
    llmChecksumOk' := AssignBool(parsed, "checksum_ok", llmChecksumOk');
  }

  /** `if (Array.isArray(parsed.items)) allItems.push(...parsed.items)`, for a truthy `parsed`. */
  method AppendItems(parsed: Json, allItems: seq<Json>) returns (allItems': seq<Json>)
    requires Truthy(parsed)
    ensures allItems' == allItems + ItemsOf(parsed)
  {
    allItems' := allItems;
    match Get(parsed, "items") {
      case Some(JArray(es)) => allItems' := allItems' + es;
      case _ =>
    }
  }

  /** `if (typeof parsed.key === 'boolean') acc = parsed.key`, for a truthy `parsed`. */
  method AssignBool(parsed: Json, key: string, acc: Option<bool>) returns (acc': Option<bool>)
    requires Truthy(parsed)
    ensures acc' == Latest(acc, BoolField(parsed, key))
  {
    acc' := acc;
    match Get(parsed, key) {
      case Some(JBool(b)) => acc' := Some(b);
      case _ =>
    }
  }

  /** One more parsed reply appends its items. */
  lemma ItemsStep(ps: seq<Json>, p: Json)
    ensures Items(ps + [p]) == Items(ps) + ItemsOf(p)
  {
    ItemsAppend(ps, [p]);
    ItemsOfOneReply(p);
  }

  /** One more parsed reply updates a number field's accumulator with what it writes. */
  lemma NumberFieldsStep(ps: seq<Json>, p: Json, key: string)
    ensures LastSome(NumberFields(ps + [p], key)) == Latest(LastSome(NumberFields(ps, key)), NumberField(p, key))
  {
    var xs := NumberFields(ps + [p], key);
    assert (ps + [p])[..|ps|] == ps;
    assert xs[..|ps|] == NumberFields(ps, key);
    LastSomeStep(xs);
  }

  /** The same for the boolean field. */
  lemma BoolFieldsStep(ps: seq<Json>, p: Json, key: string)
    ensures LastSome(BoolFields(ps + [p], key)) == Latest(LastSome(BoolFields(ps, key)), BoolField(p, key))
  {
    var xs := BoolFields(ps + [p], key);
    assert (ps + [p])[..|ps|] == ps;
    assert xs[..|ps|] == BoolFields(ps, key);
    LastSomeStep(xs);
  }

  /** The node's code: the `for` loop over the replies, the `reduce`, then the checksum. */
  method ParsePklResponse(replies: seq<Reply>, parse: string -> Option<Json>) returns (out: PklSummary)
    ensures out == Summary(ParsedReplies(DropMarkers, replies, parse))
    ensures JNull !in out.pklItems ==> QtySumAsWritten(out.pklItems) == Some(out.qtySum)
  {
    var allItems: seq<Json> := [];
    var docTotalFromSheet: Option<JsNum> := None;
    var llmReportedSum: Option<JsNum> := None;
    var llmChecksumOk: Option<bool> := None;
    var i := 0;
    ghost var ps: seq<Json> := [];
    while i < |replies|
      invariant 0 <= i <= |replies|
      invariant ps == ParsedReplies(DropMarkers, replies[..i], parse)
      invariant allItems == Items(ps)
      invariant docTotalFromSheet == LastSome(NumberFields(ps, "doc_total_qty_from_sheet"))
      invariant llmReportedSum == LastSome(NumberFields(ps, "qty_sum"))
      invariant llmChecksumOk == LastSome(BoolFields(ps, "checksum_ok"))
    {
      var text := ReplyText(replies[i]);
      var parsed := ExtractJson.ExtractJson(DropMarkers, text, parse);
      allItems, docTotalFromSheet, llmReportedSum, llmChecksumOk :=
        AbsorbReply(parsed, allItems, docTotalFromSheet, llmReportedSum, llmChecksumOk);
      ParsedRepliesStep(DropMarkers, replies, i, parse);
      ItemsStep(ps, parsed);
      NumberFieldsStep(ps, parsed, "doc_total_qty_from_sheet");
      NumberFieldsStep(ps, parsed, "qty_sum");
      BoolFieldsStep(ps, parsed, "checksum_ok");
      ps := ps + [parsed];
      i := i + 1;
    }
    assert replies[..|replies|] == replies;
    var recomputedSum := QtySum(allItems);
    AsWrittenFailsOnNull(allItems);
    var checksumOk: Option<bool> := None;
    if docTotalFromSheet.Some? && docTotalFromSheet.value.Num? {
      checksumOk := Some(recomputedSum == docTotalFromSheet.value.n);
    }
    out := PklSummary(allItems, recomputedSum, docTotalFromSheet, checksumOk, llmReportedSum, llmChecksumOk);
  }

  /** `pkl_items` is the in-order concatenation of the replies' item arrays: nothing is merged or dropped. */
  lemma ItemsAppend(ps1: seq<Json>, ps2: seq<Json>)
    ensures Items(ps1 + ps2) == Items(ps1) + Items(ps2)
    ensures |Items(ps1 + ps2)| == |Items(ps1)| + |Items(ps2)|
  {
    FlatMapAppend(ItemsOf, ps1, ps2);
  }

  /** One reply's whole contribution to `pkl_items`. */
  lemma ItemsOfOneReply(p: Json)
    ensures Items([p]) == ItemsOf(p)
  {
    assert [p][..0] == [] && [p][0] == p;
    assert FlatMap(ItemsOf, [p]) == FlatMap(ItemsOf, [p][..0]) + ItemsOf([p][0]);
  }

  /** The recomputed sum adds up over any split of the items. */
  lemma {:induction false} QtySumAppend(a: seq<Json>, b: seq<Json>)
    ensures QtySum(a + b) == QtySum(a) + QtySum(b)
    decreases |b|
  {
    if b == [] {
      assert a + b == a;
    } else {
      var b' := b[..|b| - 1];
      QtySumAppend(a, b');
      assert (a + b)[..|a + b| - 1] == a + b';
    }
  }

  /** An item whose quantity is not a number stays in the list and adds 0 to the sum. */
  lemma NonNumericQuantityCountsZero(items: seq<Json>, it: Json)
    requires ToNumber(Get(it, "qty_expected")) == NaN
    ensures QtyOf(it) == 0
    ensures QtySum(items + [it]) == QtySum(items)
    ensures (items + [it])[|items|] == it
  {
    assert (items + [it])[..|items|] == items;
  }

  /** A reply that writes no total (none, or `null`) leaves `doc_total_qty` as it was. */
  lemma LaterNullKeepsTotal(ps: seq<Json>, p: Json)
    requires NumberField(p, "doc_total_qty_from_sheet").None?
    ensures Summary(ps + [p]).docTotalQty == Summary(ps).docTotalQty
  {
    var key := "doc_total_qty_from_sheet";
    assert (ps + [p])[..|ps|] == ps;
    LastSomeStep(NumberFields(ps + [p], key));
    assert NumberFields(ps + [p], key)[..|ps|] == NumberFields(ps, key);
  }

  /**
   * `doc_total_qty` is `null` exactly when no reply writes a total, and otherwise the
   * total written by the last reply that writes one.
   */
  lemma TotalIsLastWritten(ps: seq<Json>)
    ensures Summary(ps).docTotalQty.None? <==>
      forall k :: 0 <= k < |ps| ==> NumberField(ps[k], "doc_total_qty_from_sheet").None?
    ensures Summary(ps).docTotalQty.Some? ==>
      exists k :: 0 <= k < |ps|
        && NumberField(ps[k], "doc_total_qty_from_sheet") == Summary(ps).docTotalQty
        && forall m :: k < m < |ps| ==> NumberField(ps[m], "doc_total_qty_from_sheet").None?
  {
    assert Summary(ps).docTotalQty == LastSome(NumberFields(ps, "doc_total_qty_from_sheet"));
    LastNumberField(ps, "doc_total_qty_from_sheet");
  }

  /** The last value a numeric field is written with, over the parsed replies `ps`. */
  lemma LastNumberField(ps: seq<Json>, key: string)
    ensures LastSome(NumberFields(ps, key)).None? <==> forall k :: 0 <= k < |ps| ==> NumberField(ps[k], key).None?
    ensures LastSome(NumberFields(ps, key)).Some? ==>
      exists k :: 0 <= k < |ps|
        && NumberField(ps[k], key) == LastSome(NumberFields(ps, key))
        && forall m :: k < m < |ps| ==> NumberField(ps[m], key).None?
  {
    var xs := NumberFields(ps, key);
    var r := LastSome(xs);
    LastSomeIsLastWrite(xs);
    if r.Some? {
      var k :| 0 <= k < |xs| && xs[k] == r && forall m :: k < m < |xs| ==> xs[m].None?;
      assert NumberField(ps[k], key) == r;
    }
  }

  /** `checksum_ok` is `null` unless the total is a finite number, and otherwise says whether the sum equals it. */
  lemma ChecksumRule(sum: int, total: Option<JsNum>)
    ensures Checksum(sum, total).None? <==> !(total.Some? && total.value.Num?)
    ensures Checksum(sum, total) == Some(true) <==> total == Some(Num(sum))
    ensures Checksum(sum, total) == Some(false) <==> total.Some? && total.value.Num? && total.value.n != sum
  {
  }

  /**
   * The model's own `qty_sum` and `checksum_ok` never reach the recomputed fields:
   * replies that agree on `items` and `doc_total_qty_from_sheet`, whatever else they
   * say, give the same `pkl_items`, `qty_sum`, `doc_total_qty` and `checksum_ok`.
   */
  lemma LlmFieldsIgnored(ps: seq<Json>, ps': seq<Json>)
    requires |ps| == |ps'|
    requires forall k :: 0 <= k < |ps| ==> ItemsOf(ps[k]) == ItemsOf(ps'[k])
    requires forall k :: 0 <= k < |ps| ==>
      NumberField(ps[k], "doc_total_qty_from_sheet") == NumberField(ps'[k], "doc_total_qty_from_sheet")
    ensures Summary(ps).pklItems == Summary(ps').pklItems
    ensures Summary(ps).qtySum == Summary(ps').qtySum
    ensures Summary(ps).docTotalQty == Summary(ps').docTotalQty
    ensures Summary(ps).checksumOk == Summary(ps').checksumOk
  {
    FlatMapPointwise(ItemsOf, ps, ItemsOf, ps');
    var key := "doc_total_qty_from_sheet";
    assert NumberFields(ps, key) == NumberFields(ps', key);
  }

  /** Members other than `items` and `doc_total_qty_from_sheet`, such as the model's `qty_sum`, change neither. */
  lemma OtherMembersIgnored(fields: seq<(string, Json)>, extra: seq<(string, Json)>)
    requires forall k :: 0 <= k < |extra| ==> extra[k].0 != "items" && extra[k].0 != "doc_total_qty_from_sheet"
    ensures ItemsOf(JObject(fields + extra)) == ItemsOf(JObject(fields))
    ensures NumberField(JObject(fields + extra), "doc_total_qty_from_sheet") == NumberField(JObject(fields), "doc_total_qty_from_sheet")
  {
    LookupSkipsOtherKeys(fields, extra, "items");
    LookupSkipsOtherKeys(fields, extra, "doc_total_qty_from_sheet");
  }

  /** A packing-list line `{sku, qty_expected}` as the model returns it. */
  function Line(sku: string, qty: Json): Json {
    JObject([("sku", JString(sku)), ("qty_expected", qty)])
  }

  /** A single reply carrying `items` and `doc_total_qty_from_sheet`. */
  function PklReply(items: seq<Json>, total: Json): Json {
    JObject([("items", JArray(items)), ("doc_total_qty_from_sheet", total)])
  }

  lemma PklReplyMembers(items: seq<Json>, total: Json)
    ensures Get(PklReply(items, total), "items") == Some(JArray(items))
    ensures Get(PklReply(items, total), "doc_total_qty_from_sheet") == Some(total)
  {
    var f := [("items", JArray(items)), ("doc_total_qty_from_sheet", total)];
    var g := f[..1];
    assert g == [("items", JArray(items))];
    assert Lookup(g, "items") == Some(JArray(items));
    assert "doc_total_qty_from_sheet" != "items" by {
      assert "doc_total_qty_from_sheet"[0] != "items"[0];
    }
    assert Lookup(f, "items") == Lookup(g, "items");
  }

  /** The output for one parsed reply. */
  lemma OneReplySummary(items: seq<Json>, total: Json)
    ensures Summary([PklReply(items, total)]).pklItems == items
    ensures Summary([PklReply(items, total)]).qtySum == QtySum(items)
    ensures Summary([PklReply(items, total)]).docTotalQty == if total == JNull then None else Some(ValueToNumber(total))
  {
    var p := PklReply(items, total);
    PklReplyMembers(items, total);
    ItemsOfOneReply(p);
    OneReplyTotal(items, total);
  }

  /** The total of one reply is its `doc_total_qty_from_sheet`, unless that is null. */
  lemma OneReplyTotal(items: seq<Json>, total: Json)
    ensures LastSome(NumberFields([PklReply(items, total)], "doc_total_qty_from_sheet")) ==
            if total == JNull then None else Some(ValueToNumber(total))
  {
    var p := PklReply(items, total);
    PklReplyMembers(items, total);
    var xs := NumberFields([p], "doc_total_qty_from_sheet");
    assert xs == [NumberField(p, "doc_total_qty_from_sheet")];
    LastSomeStep(xs);
    assert xs[..0] == [];
  }

  lemma LineQuantity(sku: string, qty: Json)
    ensures Get(Line(sku, qty), "qty_expected") == Some(qty)
  {
    var f := [("sku", JString(sku)), ("qty_expected", qty)];
    assert f[|f| - 1].0 == "qty_expected";
  }

  lemma QtySumOfTwo(a: Json, b: Json)
    ensures QtySum([a, b]) == QtyOf(a) + QtyOf(b)
  {
    assert [a, b][..1] == [a] && [a][..0] == [];
    assert QtySum([a]) == QtySum([]) + QtyOf(a);
    assert QtySum([a, b]) == QtySum([a]) + QtyOf(b);
  }

  /** A reply with two lines: both lines are kept, in order, and their quantities are added. */
  lemma TwoLineSummary(skuA: string, skuB: string, qa: Json, qb: Json, total: Json)
    ensures var s := Summary([PklReply([Line(skuA, qa), Line(skuB, qb)], total)]);
      s.pklItems == [Line(skuA, qa), Line(skuB, qb)]
      && s.qtySum == QtyOf(Line(skuA, qa)) + QtyOf(Line(skuB, qb))
      && s.docTotalQty == (if total == JNull then None else Some(ValueToNumber(total)))
      && s.checksumOk == Checksum(s.qtySum, s.docTotalQty)
  {
    OneReplySummary([Line(skuA, qa), Line(skuB, qb)], total);
    QtySumOfTwo(Line(skuA, qa), Line(skuB, qb));
  }

  /** Two numeric lines and a stated total: `qty_sum` is their sum and `checksum_ok` compares it with the total. */
  lemma NumericLinesSummary(skuA: string, skuB: string, a: int, b: int, t: int)
    ensures var s := Summary([PklReply([Line(skuA, JNumber(a)), Line(skuB, JNumber(b))], JNumber(t))]);
      s.qtySum == a + b && s.checksumOk == Some(a + b == t)
  {
    TwoLineSummary(skuA, skuB, JNumber(a), JNumber(b), JNumber(t));
    LineQuantity(skuA, JNumber(a));
    LineQuantity(skuB, JNumber(b));
  }

  /** Numeric lines against a stated total equal to their sum (A:50, B:63 and 113, say): `checksum_ok` true. */
  lemma MatchingTotalChecksOut(skuA: string, skuB: string, a: int, b: int, t: int)
    requires t == a + b
    ensures var s := Summary([PklReply([Line(skuA, JNumber(a)), Line(skuB, JNumber(b))], JNumber(t))]);
      s.qtySum == t && s.checksumOk == Some(true)
  {
    NumericLinesSummary(skuA, skuB, a, b, t);
  }

  /** The same lines against any other total (113 against 100, say): `checksum_ok` false. */
  lemma MismatchedTotalFails(skuA: string, skuB: string, a: int, b: int, t: int)
    requires t != a + b
    ensures var s := Summary([PklReply([Line(skuA, JNumber(a)), Line(skuB, JNumber(b))], JNumber(t))]);
      s.qtySum == a + b && s.checksumOk == Some(false)
  {
    NumericLinesSummary(skuA, skuB, a, b, t);
  }

  /** No stated total: `checksum_ok` and `doc_total_qty` are `null`, and `qty_sum` is still computed. */
  lemma MissingTotalLeavesChecksumNull(skuA: string, skuB: string, a: int, b: int)
    ensures var s := Summary([PklReply([Line(skuA, JNumber(a)), Line(skuB, JNumber(b))], JNull)]);
      s.qtySum == a + b && s.checksumOk == None && s.docTotalQty == None
  {
    TwoLineSummary(skuA, skuB, JNumber(a), JNumber(b), JNull);
    LineQuantity(skuA, JNumber(a));
    LineQuantity(skuB, JNumber(b));
  }

  /** A quantity of "N/A" contributes 0 and its line stays in `pkl_items`. */
  lemma NotApplicableQuantity(skuA: string, skuC: string, a: int)
    ensures var s := Summary([PklReply([Line(skuA, JNumber(a)), Line(skuC, JString("N/A"))], JNull)]);
      s.qtySum == a && |s.pklItems| == 2 && s.pklItems[1] == Line(skuC, JString("N/A"))
  {
    NotApplicableIsNaN();
    NonNumericQuantity(skuA, skuC, a, "N/A");
  }

  /** A line whose quantity is a string that is not a numeric literal contributes 0 and stays in `pkl_items`. */
  lemma NonNumericQuantity(skuA: string, skuC: string, a: int, q: string)
    requires StringToNumber(q) == NaN
    ensures var s := Summary([PklReply([Line(skuA, JNumber(a)), Line(skuC, JString(q))], JNull)]);
      s.qtySum == a && |s.pklItems| == 2 && s.pklItems[1] == Line(skuC, JString(q))
  {
    TwoLineSummary(skuA, skuC, JNumber(a), JString(q), JNull);
    LineQuantity(skuA, JNumber(a));
    LineQuantity(skuC, JString(q));
  }

  /**
   * The `reduce` as written: `it.qty_expected` throws a TypeError when an item is
   * `null`, which aborts the node; `None` stands for that exception.
   */
  function QtySumAsWritten(items: seq<Json>): Option<int>
    decreases |items|
  {
    if items == [] then Some(0)
    else
      match QtySumAsWritten(items[..|items| - 1])
      case None => None
      case Some(acc) =>
        if items[|items| - 1] == JNull then None else Some(acc + QtyOf(items[|items| - 1]))
  }

  /** As written, the node fails exactly when some item is `null`, and otherwise agrees with `QtySum`. */
  lemma {:induction false} AsWrittenFailsOnNull(items: seq<Json>)
    ensures QtySumAsWritten(items).None? <==> JNull in items
    ensures JNull !in items ==> QtySumAsWritten(items) == Some(QtySum(items))
    decreases |items|
  {
    if items != [] {
      var init := items[..|items| - 1];
      AsWrittenFailsOnNull(init);
      assert items == init + [items[|items| - 1]];
    }
  }

  /**
   * The reply `{"items": [null], "doc_total_qty_from_sheet": null}` aborts the node as written;
   * the corrected node keeps the `null` item and counts it as 0.
   */
  lemma NullItemCounterexample()
    ensures Summary([PklReply([JNull], JNull)]).pklItems == [JNull]
    ensures QtySumAsWritten(Summary([PklReply([JNull], JNull)]).pklItems) == None
    ensures Summary([PklReply([JNull], JNull)]).qtySum == 0
  {
    OneReplySummary([JNull], JNull);
    assert [JNull][..0] == [];
  }
}
