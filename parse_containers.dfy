/**
 * The "Parse Container Response" code node: every reply of the language model on
 * the bill-of-lading branch is read with `extractJson`, the array-typed
 * `container_numbers` of the parseable ones are concatenated, and the result is
 * deduplicated with `new Set`, which keeps the first occurrence of each value.
 */
module ParseContainers {
  import opened Wrappers
  import opened JsValue
  import opened ExtractJson
  import opened Seqs

  /**
   * What one parsed reply adds to `allContainers`: the elements of its
   * `container_numbers` when it is truthy and that member is an array; nothing otherwise.
   */
  function ContainersOf(parsed: Json): (c: seq<Json>)
    ensures c != [] ==> Truthy(parsed) && Get(parsed, "container_numbers") == Some(JArray(c))
    ensures Truthy(parsed) && Get(parsed, "container_numbers").Some? && Get(parsed, "container_numbers").value.JArray?
            ==> c == Get(parsed, "container_numbers").value.elems
  {
    if !Truthy(parsed) then []
    else
      match Get(parsed, "container_numbers")
      case Some(JArray(es)) => es
      case _ => []
  }

  /** `allContainers` after the parsed replies `ps`. */
  function Collected(ps: seq<Json>): seq<Json> {
    FlatMap(ContainersOf, ps)
  }

  /** Keeps element `k` of `xs` the first time a primitive value occurs, and every array or object. */
  predicate FirstOccurrence(xs: seq<Json>, k: nat)
    requires k < |xs|
  {
    !(IsPrimitive(xs[k]) && xs[k] in xs[..k])
  }

  /** `[...new Set(xs)]`: the elements of `xs` in order, each primitive value only at its first occurrence. */
  function Dedup(xs: seq<Json>): seq<Json>
    decreases |xs|
  {
    if xs == [] then []
    else
      var init := xs[..|xs| - 1];
      Dedup(init) + if FirstOccurrence(xs, |xs| - 1) then [xs[|xs| - 1]] else []
  }

  /** No two elements are the same value in the sense of a `Set`. */
  predicate Distinct(xs: seq<Json>) {
    forall i, j :: 0 <= i < j < |xs| ==> !SameValueZero(xs[i], xs[j])
  }

  /** The node's single output item. */
  function ContainerRecord(xs: seq<Json>): Json {
    JObject([("container_numbers", JArray(xs))])
  }

  /** The body of the node's `for` loop for one parsed reply. */
  method AbsorbReply(parsed: Json, allContainers: seq<Json>) returns (allContainers': seq<Json>)
    ensures allContainers' == allContainers + ContainersOf(parsed)
  {
    allContainers' := allContainers;
    if !Truthy(parsed) {
      return;
    }
    match Get(parsed, "container_numbers") {
      case Some(JArray(es)) => allContainers' := allContainers' + es;
      case _ =>
    }
  }

  /** The node's code: the `for` loop over the replies, then `[...new Set(allContainers)]`. */
  method ParseContainerResponse(replies: seq<Reply>, parse: string -> Option<Json>) returns (out: Json)
    ensures out == ContainerRecord(Dedup(Collected(ParsedReplies(KeepGroup, replies, parse))))
  {
    var allContainers: seq<Json> := [];
    var i := 0;
    ghost var ps: seq<Json> := [];
    while i < |replies|
      invariant 0 <= i <= |replies|
      invariant ps == ParsedReplies(KeepGroup, replies[..i], parse)
      invariant allContainers == Collected(ps)
    {
      var text := ReplyText(replies[i]);
      var parsed := ExtractJson.ExtractJson(KeepGroup, text, parse);
      allContainers := AbsorbReply(parsed, allContainers);
      ParsedRepliesStep(KeepGroup, replies, i, parse);
      ps := ps + [parsed];
      assert Collected(ps) == Collected(ps[..i]) + ContainersOf(ps[i]) by {
        assert ps[..i] == ps[..|ps| - 1];
      }
      i := i + 1;
    }
    assert replies[..|replies|] == replies;
    var unique := SetSpread(allContainers);
    out := JObject([("container_numbers", JArray(unique))]);
  }

  /** `[...new Set(xs)]` as the `Set` computes it: one pass, remembering the primitive values seen. */
  method SetSpread(xs: seq<Json>) returns (r: seq<Json>)
    ensures r == Dedup(xs)
  {
    var seen: set<Json> := {};
    r := [];
    var i := 0;
    while i < |xs|
      invariant 0 <= i <= |xs|
      invariant r == Dedup(xs[..i])
      invariant forall v :: v in seen <==> IsPrimitive(v) && v in xs[..i]
    {
      var x := xs[i];
      assert xs[..i + 1][..i] == xs[..i];
      assert xs[..i + 1] == xs[..i] + [x];
      if !(IsPrimitive(x) && x in seen) {
        r := r + [x];
      }
      if IsPrimitive(x) {
        seen := seen + {x};
      }
      i := i + 1;
    }
    assert xs[..|xs|] == xs;
  }

  /** The output holds exactly the values the input holds. */
  lemma {:induction false} DedupMembers(xs: seq<Json>)
    ensures forall v :: v in Dedup(xs) <==> v in xs
    decreases |xs|
  {
    if xs != [] {
      var init := xs[..|xs| - 1];
      assert xs == init + [xs[|xs| - 1]];
      DedupMembers(init);
    }
  }

  /** The output holds no value twice. */
  lemma {:induction false} DedupDistinct(xs: seq<Json>)
    ensures Distinct(Dedup(xs))
    decreases |xs|
  {
    if xs != [] {
      var init := xs[..|xs| - 1];
      DedupDistinct(init);
      DedupMembers(init);
    }
  }

  /** A list already free of duplicates passes unchanged. */
  lemma {:induction false} DedupOfDistinct(xs: seq<Json>)
    requires Distinct(xs)
    ensures Dedup(xs) == xs
    decreases |xs|
  {
    if xs != [] {
      var init := xs[..|xs| - 1];
      assert Distinct(init);
      DedupOfDistinct(init);
      assert xs == init + [xs[|xs| - 1]];
    }
  }

  /** Deduplicating twice is deduplicating once. */
  lemma DedupIdempotent(xs: seq<Json>)
    ensures Dedup(Dedup(xs)) == Dedup(xs)
  {
    DedupDistinct(xs);
    DedupOfDistinct(Dedup(xs));
  }

  /** First-occurrence order: what comes later never changes the deduplicated front. */
  lemma {:induction false} DedupPrefix(xs: seq<Json>, ys: seq<Json>)
    ensures |Dedup(xs)| <= |Dedup(xs + ys)| && Dedup(xs + ys)[..|Dedup(xs)|] == Dedup(xs)
    decreases |ys|
  {
    if ys == [] {
      assert xs + ys == xs;
    } else {
      var ys' := ys[..|ys| - 1];
      DedupPrefix(xs, ys');
      assert (xs + ys)[..|xs + ys| - 1] == xs + ys';
    }
  }

  /** Primitive values already present add nothing. */
  lemma {:induction false} DedupAbsorbs(xs: seq<Json>, ys: seq<Json>)
    requires forall k :: 0 <= k < |ys| ==> IsPrimitive(ys[k]) && ys[k] in xs
    ensures Dedup(xs + ys) == Dedup(xs)
    decreases |ys|
  {
    if ys == [] {
      assert xs + ys == xs;
    } else {
      var ys' := ys[..|ys| - 1];
      var s := xs + ys;
      assert s[..|s| - 1] == xs + ys';
      assert s[|s| - 1] == ys[|ys| - 1];
      assert ys[|ys| - 1] in xs + ys';
      assert !FirstOccurrence(s, |s| - 1);
      calc {
        Dedup(s);
        Dedup(xs + ys');
        { DedupAbsorbs(xs, ys'); }
        Dedup(xs);
      }
    }
  }

  /**
   * The node's output `container_numbers`: free of duplicates, holding exactly the
   * values the parseable replies' array-typed `container_numbers` hold.
   */
  lemma OutputIsTheSetOfContainers(ps: seq<Json>, v: Json)
    ensures Distinct(Dedup(Collected(ps)))
    ensures v in Dedup(Collected(ps)) <==> exists k :: 0 <= k < |ps| && v in ContainersOf(ps[k])
  {
    DedupDistinct(Collected(ps));
    DedupMembers(Collected(ps));
    FlatMapMembers(ContainersOf, ps, v);
  }

  /** The output lists containers in the order of the replies: a later reply never moves an earlier value. */
  lemma LaterRepliesOnlyAppend(ps: seq<Json>, more: seq<Json>)
    ensures |Dedup(Collected(ps))| <= |Dedup(Collected(ps + more))|
    ensures Dedup(Collected(ps + more))[..|Dedup(Collected(ps))|] == Dedup(Collected(ps))
  {
    FlatMapAppend(ContainersOf, ps, more);
    DedupPrefix(Collected(ps), Collected(more));
  }

  /** A reply that is `null`, unparseable, falsy or without an array `container_numbers` changes nothing. */
  lemma SilentReplyChangesNothing(ps: seq<Json>, p: Json)
    requires !Truthy(p) || !(Get(p, "container_numbers").Some? && Get(p, "container_numbers").value.JArray?)
    ensures Collected(ps + [p]) == Collected(ps)
  {
    assert (ps + [p])[..|ps|] == ps;
    assert Collected(ps + [p]) == Collected(ps) + ContainersOf(p);
  }

  /** Repeating a reply whose container numbers are all primitive values leaves the output unchanged. */
  lemma RepeatedReplyChangesNothing(rs: seq<Reply>, k: nat, parse: string -> Option<Json>)
    requires k < |rs|
    requires var c := ContainersOf(Extracted(KeepGroup, ReplyText(rs[k]), parse));
      forall m :: 0 <= m < |c| ==> IsPrimitive(c[m])
    ensures var ps := ParsedReplies(KeepGroup, rs, parse);
      ParsedReplies(KeepGroup, rs + [rs[k]], parse) == ps + [ps[k]]
    ensures Dedup(Collected(ParsedReplies(KeepGroup, rs + [rs[k]], parse)))
         == Dedup(Collected(ParsedReplies(KeepGroup, rs, parse)))
  {
    var ps := ParsedReplies(KeepGroup, rs, parse);
    var rs' := rs + [rs[k]];
    ParsedRepliesStep(KeepGroup, rs', |rs|, parse);
    assert rs'[..|rs|] == rs && rs'[..|rs| + 1] == rs';
    ParsedReplyAt(KeepGroup, rs, k, parse);
    var c := ContainersOf(ps[k]);
    FlatMapAppend(ContainersOf, ps, [ps[k]]);
    assert FlatMap(ContainersOf, [ps[k]]) == c by {
      assert [ps[k]][..0] == [];
    }
    forall m | 0 <= m < |c|
      ensures c[m] in Collected(ps)
    {
      FlatMapMembers(ContainersOf, ps, c[m]);
    }
    DedupAbsorbs(Collected(ps), c);
  }
}
