/**
 * The JavaScript string built-ins the workflow's code nodes rely on:
 * `trim`, `indexOf`, `lastIndexOf`, `startsWith`, `endsWith` and ASCII case mapping.
 * Strings are sequences of characters; JavaScript's UTF-16 code units are not modelled.
 */
module JsString {

  /** WhiteSpace and LineTerminator characters of ECMAScript: what `trim` removes. */
  predicate IsJsSpace(c: char) {
    var n := c as int;
    (9 <= n <= 13) || n == 32 || n == 0xA0 || n == 0x1680 || (0x2000 <= n <= 0x200A)
    || n == 0x2028 || n == 0x2029 || n == 0x202F || n == 0x205F || n == 0x3000 || n == 0xFEFF
  }

  /** Where the run of white space that starts at position `i` of `s` ends. */
  function SpaceRunEnd(s: string, i: nat): (n: nat)
    requires i <= |s|
    ensures i <= n <= |s|
    ensures forall k {:trigger IsJsSpace(s[k])} :: i <= k < n ==> IsJsSpace(s[k])
    ensures n < |s| ==> !IsJsSpace(s[n])
    decreases |s| - i
  {
    if i < |s| && IsJsSpace(s[i]) then SpaceRunEnd(s, i + 1) else i
  }

  /** How many leading white-space characters `trimStart` and `trim` drop. */
  function TrimOffset(s: string): (n: nat)
    ensures n <= |s|
    ensures forall k {:trigger IsJsSpace(s[k])} :: 0 <= k < n ==> IsJsSpace(s[k])
    ensures n < |s| ==> !IsJsSpace(s[n])
  {
    SpaceRunEnd(s, 0)
  }

  /** `s.trimStart()`: drops the leading white space, keeps the rest untouched. */
  function TrimStart(s: string): (r: string)
    ensures |r| <= |s| && r == s[|s| - |r|..]
    ensures forall k {:trigger IsJsSpace(s[k])} :: 0 <= k < |s| - |r| ==> IsJsSpace(s[k])
    ensures r == [] || !IsJsSpace(r[0])
    decreases |s|
  {
    if s != [] && IsJsSpace(s[0]) then TrimStart(s[1..]) else s
  }

  /** Where the text `trim` keeps ends: just after the last character in `s[lo..e]` that is not white space. */
  function TrimLimit(s: string, lo: nat, e: nat): (n: nat)
    requires lo <= e <= |s|
    ensures lo <= n <= e
    ensures forall k {:trigger IsJsSpace(s[k])} :: n <= k < e ==> IsJsSpace(s[k])
    ensures n > lo ==> !IsJsSpace(s[n - 1])
    decreases e
  {
    if e > lo && IsJsSpace(s[e - 1]) then TrimLimit(s, lo, e - 1) else e
  }

  /** `s.trim()`: what it keeps is the part of `s` between its leading and its trailing white space. */
  function Trim(s: string): (r: string)
    ensures TrimOffset(s) + |r| <= |s| && r == s[TrimOffset(s)..TrimOffset(s) + |r|]
    ensures forall k {:trigger IsJsSpace(s[k])} :: 0 <= k < TrimOffset(s) ==> IsJsSpace(s[k])
    ensures forall k {:trigger IsJsSpace(s[k])} :: TrimOffset(s) + |r| <= k < |s| ==> IsJsSpace(s[k])
    ensures r == [] || (!IsJsSpace(r[0]) && !IsJsSpace(r[|r| - 1]))
  {
    var lo := TrimOffset(s);
    var hi := TrimLimit(s, lo, |s|);
    assert hi > lo ==> s[lo..hi][0] == s[lo] && s[lo..hi][hi - lo - 1] == s[hi - 1];
    s[lo..hi]
  }

  /** Trimming twice is trimming once, so the workflow's `text.trim().startsWith('{')` on an already trimmed text sees that text. */
  lemma TrimIdempotent(s: string)
    ensures Trim(Trim(s)) == Trim(s)
  {
    var r := Trim(s);
    if r != [] {
      TrimOfUnspaced(r);
    }
  }

  /** A text that does not start with white space is its own `trimStart`. */
  lemma TrimStartOfUnspaced(s: string)
    requires s == [] || !IsJsSpace(s[0])
    ensures TrimStart(s) == s
  {
  }

  /** A text that does not start with white space keeps its first character under `trim`. */
  lemma TrimKeepsFirst(s: string)
    requires s != [] && !IsJsSpace(s[0])
    ensures Trim(s) != [] && Trim(s)[0] == s[0]
  {
    assert SpaceRunEnd(s, 0) == 0;
  }

  /** A text that neither starts nor ends with white space is its own trim. */
  lemma TrimOfUnspaced(s: string)
    requires s != [] && !IsJsSpace(s[0]) && !IsJsSpace(s[|s| - 1])
    ensures Trim(s) == s
  {
    assert SpaceRunEnd(s, 0) == 0;
    assert TrimLimit(s, 0, |s|) == |s|;
    assert s[0..|s|] == s;
  }

  /** Below a run of white space that ends at `e`, the kept text ends at `m`, just after the last other character. */
  lemma {:induction false} TrimLimitSkipsSpaces(s: string, lo: nat, m: nat, e: nat)
    requires lo < m <= e <= |s| && !IsJsSpace(s[m - 1])
    requires forall k :: m <= k < e ==> IsJsSpace(s[k])
    ensures TrimLimit(s, lo, e) == m
    decreases e
  {
    if e > m {
      TrimLimitSkipsSpaces(s, lo, m, e - 1);
    }
  }

  /** White space after a text that neither starts nor ends with white space is what `trim` removes. */
  lemma TrimDropsTrailingSpaces(s: string, b: string)
    requires s != [] && !IsJsSpace(s[0]) && !IsJsSpace(s[|s| - 1])
    requires forall k :: 0 <= k < |b| ==> IsJsSpace(b[k])
    ensures Trim(s + b) == s
  {
    var c := s + b;
    assert c[0] == s[0];
    assert SpaceRunEnd(c, 0) == 0;
    assert forall k :: |s| <= k < |c| ==> c[k] == b[k - |s|];
    TrimLimitSkipsSpaces(c, 0, |s|, |c|);
    assert c[0..|s|] == s;
  }

  /** `s.indexOf(c)`: the first position of `c`, or -1. */
  function IndexOf(s: string, c: char): (r: int)
    ensures -1 <= r < |s|
    ensures r == -1 <==> c !in s
    ensures r >= 0 ==> s[r] == c && c !in s[..r]
    decreases |s|
  {
    if s == [] then -1
    else if s[0] == c then 0
    else
      var k := IndexOf(s[1..], c);
      assert s == [s[0]] + s[1..];
      assert s[1..][..if k < 0 then 0 else k] == s[1..1 + if k < 0 then 0 else k];
      if k == -1 then -1 else k + 1
  }

  /** `s.lastIndexOf(c)`: the last position of `c`, or -1. */
  function LastIndexOf(s: string, c: char): (r: int)
    ensures -1 <= r < |s|
    ensures r == -1 <==> c !in s
    ensures r >= 0 ==> s[r] == c && c !in s[r + 1..]
    decreases |s|
  {
    if s == [] then -1
    else if s[|s| - 1] == c then |s| - 1
    else
      var front := s[..|s| - 1];
      var k := LastIndexOf(front, c);
      assert s == front + [s[|s| - 1]];
      assert k >= 0 ==> s[k + 1..] == front[k + 1..] + [s[|s| - 1]];
      k
  }

  /** The first `c` of a text is the one right after a prefix without `c`. */
  lemma {:induction false} IndexOfAfter(p: string, c: char, rest: string)
    requires c !in p
    ensures IndexOf(p + [c] + rest, c) == |p|
    decreases |p|
  {
    var s := p + [c] + rest;
    if p == [] {
      assert s[0] == c;
    } else {
      assert s[0] == p[0] && s[1..] == p[1..] + [c] + rest;
      IndexOfAfter(p[1..], c, rest);
    }
  }

  /** The last `c` of a text is the one right before a suffix without `c`. */
  lemma {:induction false} LastIndexOfBefore(front: string, c: char, q: string)
    requires c !in q
    ensures LastIndexOf(front + [c] + q, c) == |front|
    decreases |q|
  {
    var s := front + [c] + q;
    if q == [] {
      assert s[|s| - 1] == c;
    } else {
      var q' := q[..|q| - 1];
      assert s[|s| - 1] == q[|q| - 1];
      assert s[..|s| - 1] == front + [c] + q';
      LastIndexOfBefore(front, c, q');
    }
  }

  /** `w` occurs in `s` starting at position `j`. */
  predicate OccursAt(s: string, w: string, j: int) {
    0 <= j && j + |w| <= |s| && s[j..j + |w|] == w
  }

  /** `s.indexOf(w, from)` for a string `w`: the first position from `from` on where `w` occurs, or -1. */
  function IndexOfString(s: string, w: string, from: nat): (r: int)
    requires from <= |s|
    ensures r == -1 || (from <= r && OccursAt(s, w, r))
    ensures forall j :: from <= j && (r == -1 || j < r) ==> !OccursAt(s, w, j)
    decreases |s| - from
  {
    if from + |w| > |s| then -1
    else if s[from..from + |w|] == w then from
    else IndexOfString(s, w, from + 1)
  }

  /** `s.replace(w, q)` with a string pattern: only the first occurrence of `w` is replaced. */
  function ReplaceFirst(s: string, w: string, q: string): string {
    var i := IndexOfString(s, w, 0);
    if i < 0 then s else s[..i] + q + s[i + |w|..]
  }

  /** Replacing a prefix by nothing drops it, whatever else follows. */
  lemma ReplacePrefix(p: string, rest: string)
    ensures ReplaceFirst(p + rest, p, "") == rest
  {
    assert (p + rest)[..|p|] == p;
    assert (p + rest)[|p|..] == rest;
  }

  /** `s.startsWith(p)` */
  predicate StartsWith(s: string, p: string) {
    |p| <= |s| && s[..|p|] == p
  }

  /** `s.startsWith(p)` for a one-character `p`, stated on that character. */
  predicate StartsWithChar(s: string, c: char)
    ensures StartsWithChar(s, c) <==> StartsWith(s, [c])
  {
    |s| > 0 && s[0] == c
  }

  /** `s.endsWith(p)` */
  predicate EndsWith(s: string, p: string) {
    |p| <= |s| && s[|s| - |p|..] == p
  }

  /** `toLowerCase` on one character; only the ASCII letters A-Z are mapped. */
  function LowerChar(c: char): char {
    if 'A' <= c <= 'Z' then (c as int + 32) as char else c
  }

  function UpperChar(c: char): char {
    if 'a' <= c <= 'z' then (c as int - 32) as char else c
  }

  /** `s.toLowerCase()` restricted to ASCII case mapping. */
  function LowerAscii(s: string): (r: string)
    ensures |r| == |s| && forall k :: 0 <= k < |s| ==> r[k] == LowerChar(s[k])
  {
    seq(|s|, k requires 0 <= k < |s| => LowerChar(s[k]))
  }

  /** `s.toUpperCase()` restricted to ASCII case mapping. */
  function UpperAscii(s: string): (r: string)
    ensures |r| == |s| && forall k :: 0 <= k < |s| ==> r[k] == UpperChar(s[k])
  {
    seq(|s|, k requires 0 <= k < |s| => UpperChar(s[k]))
  }

  /** A string without upper-case ASCII letters is its own lower-case form. */
  lemma LowerOfLowercase(s: string)
    requires forall k :: 0 <= k < |s| ==> !('A' <= s[k] <= 'Z')
    ensures LowerAscii(s) == s
  {
  }

  /** Lower-casing forgets the case a string was written in. */
  lemma LowerOfUpper(s: string)
    ensures LowerAscii(UpperAscii(s)) == LowerAscii(s)
    ensures LowerAscii(LowerAscii(s)) == LowerAscii(s)
  {
  }

  predicate IsDigit(c: char) {
    '0' <= c <= '9'
  }

  predicate AllDigits(s: string) {
    forall k :: 0 <= k < |s| ==> IsDigit(s[k])
  }

  /** The value of a string of decimal digits, most significant first. */
  function DigitsValue(s: string): (n: nat)
    requires AllDigits(s)
    decreases |s|
  {
    if s == [] then 0 else DigitsValue(s[..|s| - 1]) * 10 + (s[|s| - 1] as int - '0' as int)
  }

  /** `String(n)` for a natural number: its decimal digits without leading zeros. */
  function NatToString(n: nat): (s: string)
    ensures |s| > 0 && AllDigits(s)
    ensures s[0] == '0' ==> n == 0
    decreases n
  {
    if n < 10 then ['0' + n as char]
    else NatToString(n / 10) + ['0' + (n % 10) as char]
  }

  /** Reading back the digits `String(n)` writes gives `n`. */
  lemma {:induction false} DigitsOfNatToString(n: nat)
    ensures DigitsValue(NatToString(n)) == n
    decreases n
  {
    var s := NatToString(n);
    if n >= 10 {
      DigitsOfNatToString(n / 10);
      assert s[..|s| - 1] == NatToString(n / 10);
    }
  }

  /** `String(n)` for an integer: a minus sign before the digits of a negative one. */
  function IntToString(n: int): string {
    if n < 0 then "-" + NatToString(-n) else NatToString(n)
  }
}
