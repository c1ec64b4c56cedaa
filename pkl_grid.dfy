/**
 * The "Normalize PKL Grid" code node: each spreadsheet row item contributes its
 * `row` (or `[]` when that is missing or falsy), and only rows that are non-empty
 * arrays are kept, in order. The kept rows also go to the language model as the
 * JSON text `chatInput`.
 */
module PklGrid {
  import opened Wrappers
  import opened JsValue

  /** `i.json.row || []` */
  function RowOf(item: Json): Json {
    match Get(item, "row")
    case Some(v) => if Truthy(v) then v else JArray([])
    case None => JArray([])
  }

  /** `Array.isArray(r) && r.length > 0` */
  predicate KeepRow(r: Json) {
    r.JArray? && |r.elems| > 0
  }

  /** `$input.all().map(i => i.json.row || []).filter(r => Array.isArray(r) && r.length > 0)` */
  function NormalizeGrid(items: seq<Json>): (rows: seq<Json>)
    ensures |rows| <= |items|
    ensures forall k :: 0 <= k < |rows| ==> KeepRow(rows[k])
    decreases |items|
  {
    if items == [] then []
    else
      var rest := NormalizeGrid(items[..|items| - 1]);
      var r := RowOf(items[|items| - 1]);
      if KeepRow(r) then rest + [r] else rest
  }

  /** The node's single output item; `JSON.stringify` is a parameter. */
  function GridOutput(items: seq<Json>, stringify: Json -> string): Json {
    var rows := NormalizeGrid(items);
    JObject([("rows", JArray(rows)), ("chatInput", JString(stringify(JArray(rows))))])
  }

  /** A value is a kept row exactly when some item's row is that value and is a non-empty array. */
  lemma {:induction false} GridMembers(items: seq<Json>, v: Json)
    ensures v in NormalizeGrid(items) <==> KeepRow(v) && exists k :: 0 <= k < |items| && RowOf(items[k]) == v
    decreases |items|
  {
    if items != [] {
      var init := items[..|items| - 1];
      GridMembers(init, v);
      if RowOf(items[|items| - 1]) == v {
        assert 0 <= |items| - 1 < |items|;
      }
      if exists k :: 0 <= k < |items| && RowOf(items[k]) == v {
        var k :| 0 <= k < |items| && RowOf(items[k]) == v;
        if k < |items| - 1 {
          assert items[k] == init[k];
        }
      }
    }
  }

  /** Rows keep their order: the grid of a concatenation is the concatenation of the grids. */
  lemma {:induction false} GridAppend(a: seq<Json>, b: seq<Json>)
    ensures NormalizeGrid(a + b) == NormalizeGrid(a) + NormalizeGrid(b)
    decreases |b|
  {
    if b == [] {
      assert a + b == a;
    } else {
      var b' := b[..|b| - 1];
      GridAppend(a, b');
      assert (a + b)[..|a + b| - 1] == a + b';
      assert (a + b)[|a + b| - 1] == b[|b| - 1];
    }
  }

  /** One item gives its row when that is a non-empty array, and nothing otherwise. */
  lemma GridOfOneItem(item: Json)
    ensures NormalizeGrid([item]) == if KeepRow(RowOf(item)) then [RowOf(item)] else []
  {
    assert [item][..0] == [];
  }

  /** Items with no `row`, a falsy one, an empty array or a non-array value contribute nothing. */
  lemma DroppedRows(items: seq<Json>, item: Json)
    requires !KeepRow(RowOf(item))
    ensures NormalizeGrid(items + [item]) == NormalizeGrid(items)
  {
    assert (items + [item])[..|items|] == items;
  }

  /** A grid whose items all carry non-empty row arrays keeps every row. */
  lemma {:induction false} FullGridKept(items: seq<Json>)
    requires forall k :: 0 <= k < |items| ==> KeepRow(RowOf(items[k]))
    ensures |NormalizeGrid(items)| == |items|
    ensures forall k :: 0 <= k < |items| ==> NormalizeGrid(items)[k] == RowOf(items[k])
    decreases |items|
  {
    if items != [] {
      var init := items[..|items| - 1];
      assert forall k :: 0 <= k < |init| ==> init[k] == items[k];
      FullGridKept(init);
    }
  }
}
