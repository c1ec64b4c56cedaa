/** List shapes the workflow's code shares: concatenating per-element arrays, last-write-wins accumulators and member lookup. */
module Seqs {
  import opened Wrappers

  /** `for (const x of xs) out.push(...f(x))`: the arrays `f` gives, concatenated in order. */
  function FlatMap<T, U>(f: T -> seq<U>, xs: seq<T>): seq<U>
    decreases |xs|
  {
    if xs == [] then []
    else FlatMap(f, xs[..|xs| - 1]) + f(xs[|xs| - 1])
  }

  /** Concatenation distributes over a split of the input. */
  lemma {:induction false} FlatMapAppend<T, U>(f: T -> seq<U>, xs: seq<T>, ys: seq<T>)
    ensures FlatMap(f, xs + ys) == FlatMap(f, xs) + FlatMap(f, ys)
    decreases |ys|
  {
    if ys == [] {
      assert xs + ys == xs;
    } else {
      var ys' := ys[..|ys| - 1];
      FlatMapAppend(f, xs, ys');
      assert (xs + ys)[..|xs + ys| - 1] == xs + ys';
    }
  }

  /** `xs.map(f)` */
  function MapSeq<T, U>(f: T -> U, xs: seq<T>): (r: seq<U>)
    ensures |r| == |xs| && forall k :: 0 <= k < |xs| ==> r[k] == f(xs[k])
  {
    seq(|xs|, k requires 0 <= k < |xs| => f(xs[k]))
  }

  /** Taking one more element appends its image. */
  lemma FlatMapStep<T, U>(f: T -> seq<U>, xs: seq<T>, n: nat)
    requires n < |xs|
    ensures FlatMap(f, xs[..n + 1]) == FlatMap(f, xs[..n]) + f(xs[n])
  {
    assert xs[..n + 1][..n] == xs[..n];
  }

  /** Mapping one more element appends its image. */
  lemma MapSeqStep<T, U>(f: T -> U, xs: seq<T>, n: nat)
    requires n < |xs|
    ensures MapSeq(f, xs[..n + 1]) == MapSeq(f, xs[..n]) + [f(xs[n])]
  {
  }

  /** When every element gives just itself, the concatenation is the input. */
  lemma {:induction false} FlatMapOfSingletons<T>(f: T -> seq<T>, xs: seq<T>)
    requires forall k :: 0 <= k < |xs| ==> f(xs[k]) == [xs[k]]
    ensures FlatMap(f, xs) == xs
    decreases |xs|
  {
    if xs != [] {
      var n := |xs| - 1;
      assert forall k :: 0 <= k < n ==> xs[..n][k] == xs[k];
      FlatMapOfSingletons(f, xs[..n]);
      assert xs == xs[..n] + [xs[n]];
    }
  }

  /** A value is in the concatenation exactly when it comes from one of the elements. */
  lemma {:induction false} FlatMapMembers<T, U>(f: T -> seq<U>, xs: seq<T>, v: U)
    ensures v in FlatMap(f, xs) <==> exists k :: 0 <= k < |xs| && v in f(xs[k])
    decreases |xs|
  {
    if xs != [] {
      var init := xs[..|xs| - 1];
      FlatMapMembers(f, init, v);
      if v in f(xs[|xs| - 1]) {
        assert 0 <= |xs| - 1 < |xs|;
      }
      if exists k :: 0 <= k < |xs| && v in f(xs[k]) {
        var k :| 0 <= k < |xs| && v in f(xs[k]);
        if k < |xs| - 1 {
          assert xs[k] == init[k];
        }
      }
    }
  }

  /** Inputs whose elements give the same arrays, position by position, give the same concatenation. */
  lemma {:induction false} FlatMapPointwise<T, U>(f: T -> seq<U>, xs: seq<T>, g: T -> seq<U>, ys: seq<T>)
    requires |xs| == |ys|
    requires forall k :: 0 <= k < |xs| ==> f(xs[k]) == g(ys[k])
    ensures FlatMap(f, xs) == FlatMap(g, ys)
    decreases |xs|
  {
    if xs != [] {
      var n := |xs| - 1;
      assert forall k :: 0 <= k < n ==> xs[..n][k] == xs[k] && ys[..n][k] == ys[k];
      FlatMapPointwise(f, xs[..n], g, ys[..n]);
    }
  }

  /** The value a last-write-wins accumulator ends with: the last write, or `null` when there was none. */
  function LastSome<T>(xs: seq<Option<T>>): (r: Option<T>)
    ensures r.None? <==> forall k :: 0 <= k < |xs| ==> xs[k].None?
    decreases |xs|
  {
    if xs == [] then None
    else if xs[|xs| - 1].Some? then xs[|xs| - 1]
    else LastSome(xs[..|xs| - 1])
  }

  /** A value the accumulator ends with is a write that no later write replaced. */
  lemma {:induction false} LastSomeIsLastWrite<T>(xs: seq<Option<T>>)
    ensures LastSome(xs).Some? ==>
      exists k :: 0 <= k < |xs| && xs[k] == LastSome(xs) && forall m :: k < m < |xs| ==> xs[m].None?
    decreases |xs|
  {
    if xs != [] && xs[|xs| - 1].None? {
      var front := xs[..|xs| - 1];
      LastSomeIsLastWrite(front);
      if LastSome(front).Some? {
        var k :| 0 <= k < |front| && front[k] == LastSome(front) && forall m :: k < m < |front| ==> front[m].None?;
        assert xs[k] == front[k];
      }
    }
  }

  /** A last-write-wins accumulator after one more optional write. */
  function Latest<T>(acc: Option<T>, write: Option<T>): Option<T> {
    if write.Some? then write else acc
  }

  /** One more write: the accumulator holds it if there is one, and keeps its value otherwise. */
  lemma LastSomeStep<T>(xs: seq<Option<T>>)
    requires xs != []
    ensures LastSome(xs) == Latest(LastSome(xs[..|xs| - 1]), xs[|xs| - 1])
  {
  }

  /**
   * The value bound to `key` in a list of members written in order: the last
   * binding wins, as when `JSON.parse` meets a duplicate key or a Python dict
   * display repeats one.
   */
  function Lookup<V>(fields: seq<(string, V)>, key: string): (r: Option<V>)
    ensures r.None? <==> forall k :: 0 <= k < |fields| ==> fields[k].0 != key
    ensures r.Some? ==> exists k :: 0 <= k < |fields| && fields[k] == (key, r.value)
                                   && forall m :: k < m < |fields| ==> fields[m].0 != key
    decreases |fields|
  {
    if fields == [] then None
    else if fields[|fields| - 1].0 == key then Some(fields[|fields| - 1].1)
    else Lookup(fields[..|fields| - 1], key)
  }

  /** In a record of two members, each name is bound to its own value when the names differ; the second wins otherwise. */
  lemma PairLookup<V>(k1: string, v1: V, k2: string, v2: V)
    ensures Lookup([(k1, v1), (k2, v2)], k2) == Some(v2)
    ensures k1 != k2 ==> Lookup([(k1, v1), (k2, v2)], k1) == Some(v1)
  {
    var f := [(k1, v1), (k2, v2)];
    assert f[..1] == [(k1, v1)] && f[..1][..0] == [];
  }

  /** Members appended under other names do not change what a name is bound to. */
  lemma {:induction false} LookupSkipsOtherKeys<V>(fields: seq<(string, V)>, extra: seq<(string, V)>, key: string)
    requires forall k :: 0 <= k < |extra| ==> extra[k].0 != key
    ensures Lookup(fields + extra, key) == Lookup(fields, key)
    decreases |extra|
  {
    if extra != [] {
      var extra' := extra[..|extra| - 1];
      assert (fields + extra)[..|fields + extra| - 1] == fields + extra';
      LookupSkipsOtherKeys(fields, extra', key);
    } else {
      assert fields + extra == fields;
    }
  }
}
