/**
 * The "Merge Results" code node and the "Format Output" set node. Merging keeps,
 * for each of `container_numbers` and `pkl_items`, the array of the last input
 * item that has one (an overwrite, not a union), `[]` when none has; formatting
 * renames `pkl_items` to `sku_items` and keeps only the two arrays.
 */
module MergeResults {
  import opened Wrappers
  import opened JsValue
  import opened Seqs

  /** `item.json || {}` */
  function JsonOrEmpty(j: Option<Json>): Json {
    if j.Some? && Truthy(j.value) then j.value else JObject([])
  }

  /**
   * `if (json.key && Array.isArray(json.key)) acc = json.key`: the array this input writes, if any.
   * Every array is truthy, even an empty one, so the `json.key &&` test adds nothing to `Array.isArray`.
   */
  function ArrayField(j: Option<Json>, key: string): (r: Option<seq<Json>>)
    ensures r.Some? <==> Get(JsonOrEmpty(j), key).Some? && Get(JsonOrEmpty(j), key).value.JArray?
    ensures r.Some? ==> Get(JsonOrEmpty(j), key) == Some(JArray(r.value))
  {
    var json := JsonOrEmpty(j);
    match Get(json, key)
    case Some(JArray(es)) => Some(es)
    case _ => None
  }

  /** The writes of the inputs to the accumulator of `key`, one entry per input. */
  function ArrayFields(inputs: seq<Option<Json>>, key: string): (r: seq<Option<seq<Json>>>)
    ensures |r| == |inputs| && forall k :: 0 <= k < |inputs| ==> r[k] == ArrayField(inputs[k], key)
    decreases |inputs|
  {
    if inputs == [] then []
    else ArrayFields(inputs[..|inputs| - 1], key) + [ArrayField(inputs[|inputs| - 1], key)]
  }

  /** The accumulator's final value: the last array written, `[]` (its initial value) when none was. */
  function Merged(inputs: seq<Option<Json>>, key: string): seq<Json> {
    match LastSome(ArrayFields(inputs, key))
    case Some(es) => es
    case None => []
  }

  /** The node's single output item. */
  function MergedRecord(inputs: seq<Option<Json>>): Json {
    JObject([("container_numbers", JArray(Merged(inputs, "container_numbers"))),
             ("pkl_items", JArray(Merged(inputs, "pkl_items")))])
  }

  /** Merging one more input: its array if it has one, the previous value otherwise. */
  lemma MergedStep(inputs: seq<Option<Json>>, key: string)
    requires inputs != []
    ensures Merged(inputs, key) ==
      match ArrayField(inputs[|inputs| - 1], key)
      case Some(es) => es
      case None => Merged(inputs[..|inputs| - 1], key)
  {
    LastSomeStep(ArrayFields(inputs, key));
  }

  /** The node's code: one `for` loop reassigning the two accumulators. */
  method MergeResults(inputs: seq<Option<Json>>) returns (out: Json)
    ensures out == MergedRecord(inputs)
  {
    var containerNumbers: seq<Json> := [];
    var pklItems: seq<Json> := [];
    var i := 0;
    while i < |inputs|
      invariant 0 <= i <= |inputs|
      invariant containerNumbers == Merged(inputs[..i], "container_numbers")
      invariant pklItems == Merged(inputs[..i], "pkl_items")
    {
      var seen := inputs[..i + 1];
      assert seen[..i] == inputs[..i] && seen[i] == inputs[i];
      MergedStep(seen, "container_numbers");
      MergedStep(seen, "pkl_items");
      var json := JsonOrEmpty(inputs[i]);
      match Get(json, "container_numbers") {
        case Some(JArray(es)) => containerNumbers := es;
        case _ =>
      }
      assert containerNumbers == Merged(seen, "container_numbers");
      match Get(json, "pkl_items") {
        case Some(JArray(es)) => pklItems := es;
        case _ =>
      }
      assert pklItems == Merged(seen, "pkl_items");
      i := i + 1;
    }
    assert inputs[..|inputs|] == inputs;
    out := JObject([("container_numbers", JArray(containerNumbers)), ("pkl_items", JArray(pklItems))]);
  }

  /**
   * The merged array is the one of the last input that has an array under `key`,
   * and `[]` when no input has one (an absent branch).
   */
  lemma MergedIsLastArray(inputs: seq<Option<Json>>, key: string)
    ensures (forall k :: 0 <= k < |inputs| ==> ArrayField(inputs[k], key).None?) ==> Merged(inputs, key) == []
    ensures (exists k :: 0 <= k < |inputs| && ArrayField(inputs[k], key).Some?) ==>
      exists k :: 0 <= k < |inputs| && ArrayField(inputs[k], key) == Some(Merged(inputs, key))
        && forall m :: k < m < |inputs| ==> ArrayField(inputs[m], key).None?
  {
    var xs := ArrayFields(inputs, key);
    assert forall k :: 0 <= k < |inputs| ==> xs[k] == ArrayField(inputs[k], key);
    LastSomeIsLastWrite(xs);
    if exists k :: 0 <= k < |inputs| && ArrayField(inputs[k], key).Some? {
      var k :| 0 <= k < |xs| && xs[k] == LastSome(xs) && forall m :: k < m < |xs| ==> xs[m].None?;
      assert ArrayField(inputs[k], key) == Some(Merged(inputs, key));
    }
  }

  /** A later array overwrites: it is the result whatever came before, and nothing is unioned. */
  lemma LaterArrayOverwrites(inputs: seq<Option<Json>>, j: Json, key: string, es: seq<Json>)
    requires Get(j, key) == Some(JArray(es)) && Truthy(j)
    ensures Merged(inputs + [Some(j)], key) == es
  {
    MergedStep(inputs + [Some(j)], key);
  }

  /** `{{ $json.key || [] }}` */
  function OrEmptyArray(v: Option<Json>): Json {
    if v.Some? && Truthy(v.value) then v.value else JArray([])
  }

  /** The "Format Output" node: only `container_numbers` and `sku_items`, the latter taken from `pkl_items`. */
  function FormatOutput(j: Json): Json {
    JObject([("container_numbers", OrEmptyArray(Get(j, "container_numbers"))),
             ("sku_items", OrEmptyArray(Get(j, "pkl_items")))])
  }

  /** The final record has exactly two members, so the checksum fields never reach it. */
  lemma FinalRecordMembers(j: Json, key: string)
    ensures Get(FormatOutput(j), key).Some? <==> key == "container_numbers" || key == "sku_items"
  {
    var o := FormatOutput(j).fields;
    assert |o| == 2 && o[0].0 == "container_numbers" && o[1].0 == "sku_items";
    assert (forall k :: 0 <= k < |o| ==> o[k].0 != key) <==> o[0].0 != key && o[1].0 != key;
  }

  /** Formatting the merged record: `container_numbers` as merged, and `sku_items` equal to the merged `pkl_items`. */
  lemma FormatMerged(inputs: seq<Option<Json>>)
    ensures Get(FormatOutput(MergedRecord(inputs)), "container_numbers") == Some(JArray(Merged(inputs, "container_numbers")))
    ensures Get(FormatOutput(MergedRecord(inputs)), "sku_items") == Some(JArray(Merged(inputs, "pkl_items")))
  {
    FormatOfMerged(Merged(inputs, "container_numbers"), Merged(inputs, "pkl_items"));
  }

  /** Formatting a merged record holding the arrays `cn` and `pk`. */
  lemma FormatOfMerged(cn: seq<Json>, pk: seq<Json>)
    ensures var m := JObject([("container_numbers", JArray(cn)), ("pkl_items", JArray(pk))]);
      Get(FormatOutput(m), "container_numbers") == Some(JArray(cn))
      && Get(FormatOutput(m), "sku_items") == Some(JArray(pk))
  {
    assert "pkl_items" != "container_numbers" by {
      assert "pkl_items"[0] != "container_numbers"[0];
    }
    assert "sku_items" != "container_numbers" by {
      assert "sku_items"[0] != "container_numbers"[0];
    }
    PairLookup("container_numbers", JArray(cn), "pkl_items", JArray(pk));
    PairLookup("container_numbers", JArray(cn), "sku_items", JArray(pk));
  }
}
