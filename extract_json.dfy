/**
 * `extractJson`, the tolerant reader of a language model's reply that both parse
 * nodes define: strip ```json fences, trim, cut the text down to its outermost
 * braces when it does not already start with "{", and parse; any failure gives
 * `null`. `JSON.parse` itself is a parameter: `None` means it threw.
 */
module ExtractJson {
  import opened Wrappers
  import opened JsString
  import opened JsValue
  import opened Seqs

  /** The two forms of fence removal: "Parse Container Response" replaces each
      fenced block by its group `$1`; "Parse PKL Response" deletes the markers
      inside each fenced block. */
  datatype FenceRule = KeepGroup | DropMarkers

  /** The two fields of a language-model reply the parse nodes read their text from (`item.json.text`, `item.json.response`). */
  datatype Reply = Reply(text: Option<string>, response: Option<string>)

  /** `item.json.text || item.json.response || ''` */
  function ReplyText(r: Reply): string {
    OrElse(r.text, OrElse(r.response, ""))
  }

  /** Three backticks start at position `j`. */
  predicate TicksAt(t: string, j: int) {
    0 <= j && j + 3 <= |t| && t[j..j + 3] == "```"
  }

  /** "```json", the letters in any case (flag `i`), starts at position `i`. */
  predicate FenceOpenAt(t: string, i: int) {
    0 <= i && i + 7 <= |t| && t[i..i + 3] == "```" && LowerAscii(t[i + 3..i + 7]) == "json"
  }

  /** Where the lazy `[\s\S]*?` stops: the first three backticks at or after `from`. */
  function FirstTicks(t: string, from: nat): (r: Option<nat>)
    ensures r.None? ==> forall j :: from <= j ==> !TicksAt(t, j)
    ensures r.Some? ==> from <= r.value && TicksAt(t, r.value)
                        && forall j :: from <= j < r.value ==> !TicksAt(t, j)
    decreases |t| - from
  {
    if from + 3 > |t| then None
    else if TicksAt(t, from) then Some(from)
    else FirstTicks(t, from + 1)
  }

  /** `m.replace(/```json|```/gi, '')`: every marker deleted, scanning left to right. */
  function RemoveMarkers(m: string): string
    decreases |m|
  {
    if m == [] then []
    else if FenceOpenAt(m, 0) then RemoveMarkers(m[7..])
    else if TicksAt(m, 0) then RemoveMarkers(m[3..])
    else [m[0]] + RemoveMarkers(m[1..])
  }

  /**
   * `text.replace(/```json([\s\S]*?)```/gi, ...)`: at each position where "```json"
   * starts and three backticks follow later, the shortest such block is replaced
   * (by its group, or by itself without markers) and the scan resumes after it.
   */
  function StripFences(rule: FenceRule, t: string): string
    decreases |t|
  {
    if t == [] then []
    else if FenceOpenAt(t, 0) && FirstTicks(t, 7).Some? then
      var j := FirstTicks(t, 7).value;
      (if rule == KeepGroup then t[7..j] else RemoveMarkers(t[..j + 3])) + StripFences(rule, t[j + 3..])
    else [t[0]] + StripFences(rule, t[1..])
  }

  /** Deleting the markers of a block whose body holds no three backticks leaves the body. */
  lemma {:induction false} RemoveMarkersOfBody(c: string)
    requires forall k :: 0 <= k < |c| ==> !TicksAt(c + "```", k)
    ensures RemoveMarkers(c + "```") == c
    decreases |c|
  {
    var m := c + "```";
    if c == [] {
      assert m == "```" && TicksAt(m, 0) && m[3..] == [];
    } else {
      assert !TicksAt(m, 0);
      var m' := c[1..] + "```";
      assert m[1..] == m';
      forall k | 0 <= k < |c| - 1
        ensures !TicksAt(m', k)
      {
        assert m'[k..] == m[k + 1..];
        assert !TicksAt(m, k + 1);
      }
      RemoveMarkersOfBody(c[1..]);
    }
  }

  /** The body of the shortest fenced block, closed by its three backticks, holds no other three backticks. */
  lemma BodyHasNoTicks(t: string, j: nat)
    requires 7 <= j && FirstTicks(t, 7) == Some(j)
    ensures forall k :: 0 <= k < j - 7 ==> !TicksAt(t[7..j] + "```", k)
  {
    var m := t[7..j] + "```";
    assert m == t[7..j + 3];
    forall k | 0 <= k < j - 7
      ensures !TicksAt(m, k)
    {
      assert !TicksAt(t, 7 + k);
      if k + 3 <= |m| {
        assert m[k] == t[7 + k] && m[k + 1] == t[7 + k + 1] && m[k + 2] == t[7 + k + 2];
        assert m[k..k + 3] == t[7 + k..7 + k + 3];
      }
    }
  }

  /** The two nodes' fence removals always agree: the near-duplicate `extractJson` is the same function. */
  lemma {:induction false} FenceRulesAgree(t: string)
    ensures StripFences(DropMarkers, t) == StripFences(KeepGroup, t)
    decreases |t|
  {
    if t != [] {
      if FenceOpenAt(t, 0) && FirstTicks(t, 7).Some? {
        var j := FirstTicks(t, 7).value;
        var m := t[..j + 3];
        var body := t[7..j];
        assert FenceOpenAt(m, 0) && m[..7] == t[..7];
        assert m[7..] == body + "```";
        BodyHasNoTicks(t, j);
        RemoveMarkersOfBody(body);
        FenceRulesAgree(t[j + 3..]);
      } else {
        FenceRulesAgree(t[1..]);
      }
    }
  }

  predicate NoBackticks(s: string) {
    forall k :: 0 <= k < |s| ==> s[k] != '`'
  }

  /** Text without backticks passes the fence removal unchanged. */
  lemma {:induction false} UnfencedTextUnchanged(rule: FenceRule, s: string)
    requires NoBackticks(s)
    ensures StripFences(rule, s) == s
    decreases |s|
  {
    if s != [] {
      assert s[0] != '`';
      assert |s| >= 3 ==> s[..3][0] == s[0];
      assert !FenceOpenAt(s, 0);
      UnfencedTextUnchanged(rule, s[1..]);
    }
  }

  /** A text that opens with "```json", a body without backticks and three backticks: the fence ends right after the body. */
  lemma OpeningFence(body: string, s: string)
    requires NoBackticks(body)
    ensures var t := "```json" + body + "```" + s;
      FenceOpenAt(t, 0) && FirstTicks(t, 7) == Some(7 + |body|)
      && t[7..7 + |body|] == body && t[7 + |body| + 3..] == s
  {
    var t := "```json" + body + "```" + s;
    var j := 7 + |body|;
    assert t[..3] == "```" && t[3..7] == "json";
    LowerOfLowercase("json");
    assert t[j..j + 3] == "```";
    forall k | 7 <= k < j
      ensures !TicksAt(t, k)
    {
      assert t[k] == body[k - 7];
      if k + 3 <= |t| {
        assert t[k..k + 3][0] == t[k];
      }
    }
    assert t[7..j] == body;
    assert t[j + 3..] == s;
    assert TicksAt(t, j);
    var r := FirstTicks(t, 7);
    assert r.Some? && !(r.value < j) && !(j < r.value);
  }

  /** Such a fence, kept by its group, leaves the body and goes on after it. */
  lemma FenceAtStart(body: string, s: string)
    requires NoBackticks(body)
    ensures StripFences(KeepGroup, "```json" + body + "```" + s) == body + StripFences(KeepGroup, s)
  {
    OpeningFence(body, s);
  }

  /** A text that opens with such a fence and ends without backticks loses the fence under both rules. */
  lemma FenceFirst(rule: FenceRule, body: string, s: string)
    requires NoBackticks(body) && NoBackticks(s)
    ensures StripFences(rule, "```json" + body + "```" + s) == body + s
  {
    FenceRulesAgree("```json" + body + "```" + s);
    FenceAtStart(body, s);
    UnfencedTextUnchanged(KeepGroup, s);
  }

  /** A character that is not a backtick is copied and the scan moves on. */
  lemma NoFenceAtProse(rule: FenceRule, p: string, rest: string)
    requires p != [] && p[0] != '`'
    ensures StripFences(rule, p + rest) == [p[0]] + StripFences(rule, p[1..] + rest)
  {
    var t := p + rest;
    assert t[0] == p[0];
    assert |t| >= 3 ==> t[..3][0] == t[0];
    assert !FenceOpenAt(t, 0);
    assert t[1..] == p[1..] + rest;
  }

  /** Prose without backticks in front of any text is copied as it is. */
  lemma {:induction false} ProseCopied(rule: FenceRule, p: string, rest: string)
    requires NoBackticks(p)
    ensures StripFences(rule, p + rest) == p + StripFences(rule, rest)
    decreases |p|
  {
    if p != [] {
      var tail := StripFences(rule, rest);
      assert NoBackticks(p[1..]) by {
        forall k | 0 <= k < |p| - 1 ensures p[1..][k] != '`' { assert p[1..][k] == p[k + 1]; }
      }
      calc {
        StripFences(rule, p + rest);
        { NoFenceAtProse(rule, p, rest); }
        [p[0]] + StripFences(rule, p[1..] + rest);
        { ProseCopied(rule, p[1..], rest); }
        [p[0]] + (p[1..] + tail);
        { assert [p[0]] + p[1..] == p; }
        p + tail;
      }
    } else {
      assert p + rest == rest;
    }
  }

  /** A ```json block between prose without backticks is replaced by its body. */
  lemma FencedBlockUnwrapped(rule: FenceRule, p: string, body: string, s: string)
    requires NoBackticks(p) && NoBackticks(body) && NoBackticks(s)
    ensures StripFences(rule, p + "```json" + body + "```" + s) == p + body + s
  {
    var rest := "```json" + body + "```" + s;
    assert p + "```json" + body + "```" + s == p + rest;
    ProseCopied(rule, p, rest);
    FenceFirst(rule, body, s);
  }

  /** Fences removed and the result trimmed: `text.replace(...).trim()`. */
  function Cleaned(rule: FenceRule, text: string): string {
    Trim(StripFences(rule, text))
  }

  /**
   * The bracket slicing: a text whose trimmed form starts with "{" is kept as it
   * is (so an object followed by prose stays unparseable); otherwise, when there
   * is a "{" and a later "}", the text from the first "{" to the last "}"
   * inclusive; otherwise the text unchanged.
   */
  function SliceObject(c: string): (r: string)
    ensures r == c || (|r| >= 2 && r[0] == '{' && r[|r| - 1] == '}')
  {
    BraceSlice(c, StartsWithChar(Trim(c), '{'))
  }

  /** The slicing once it is known whether the trimmed text opens with "{". */
  function BraceSlice(c: string, opens: bool): (r: string)
    ensures r == c || (|r| >= 2 && r[0] == '{' && r[|r| - 1] == '}')
  {
    if opens then c
    else
      var start := IndexOf(c, '{');
      var end := LastIndexOf(c, '}');
      if start != -1 && end != -1 && end > start then c[start..end + 1] else c
  }

  /**
   * When the trimmed text does not start with "{" and its last "}" follows its
   * first "{", exactly the part from that "{" to that "}" is kept; with no such
   * pair, nothing is cut.
   */
  lemma SliceObjectCuts(c: string)
    ensures StartsWithChar(Trim(c), '{') ==> SliceObject(c) == c
    ensures !StartsWithChar(Trim(c), '{') && 0 <= IndexOf(c, '{') < LastIndexOf(c, '}') ==>
      SliceObject(c) == c[IndexOf(c, '{')..LastIndexOf(c, '}') + 1]
    ensures !(0 <= IndexOf(c, '{') < LastIndexOf(c, '}')) ==> SliceObject(c) == c
  {
    BraceSliceCuts(c, StartsWithChar(Trim(c), '{'));
  }

  /** `SliceObjectCuts` once it is known whether the trimmed text opens with "{". */
  lemma BraceSliceCuts(c: string, opens: bool)
    ensures opens ==> BraceSlice(c, opens) == c
    ensures !opens && 0 <= IndexOf(c, '{') < LastIndexOf(c, '}') ==>
      BraceSlice(c, opens) == c[IndexOf(c, '{')..LastIndexOf(c, '}') + 1]
    ensures !(0 <= IndexOf(c, '{') < LastIndexOf(c, '}')) ==> BraceSlice(c, opens) == c
  {
  }

  /** The `if` block of `extractJson` that narrows `text` to its outermost braces. */
  method SliceAtBraces(text: string) returns (r: string)
    ensures r == SliceObject(text)
  {
    r := text;
    if !StartsWithChar(Trim(r), '{') {
      var start := IndexOf(r, '{');
      var end := LastIndexOf(r, '}');
      if start != -1 && end != -1 && end > start {
        r := r[start..end + 1];
      }
    }
  }

  /** The string handed to `JSON.parse`. */
  function Candidate(rule: FenceRule, text: string): string {
    SliceObject(Cleaned(rule, text))
  }

  /** The value `extractJson(text)` returns: `null` for an empty text or a text the parser rejects. */
  function Extracted(rule: FenceRule, text: string, parse: string -> Option<Json>): Json {
    if text == [] then JNull
    else
      match parse(Candidate(rule, text))
      case Some(v) => v
      case None => JNull
  }

  /** `extractJson` applied to the text of a reply. */
  function ReplyExtractor(rule: FenceRule, parse: string -> Option<Json>): Reply -> Json {
    (r: Reply) => Extracted(rule, ReplyText(r), parse)
  }

  /** What `extractJson` makes of each reply, in order. */
  function ParsedReplies(rule: FenceRule, rs: seq<Reply>, parse: string -> Option<Json>): (ps: seq<Json>)
    ensures |ps| == |rs|
  {
    MapSeq(ReplyExtractor(rule, parse), rs)
  }

  /** Parsing one more reply appends its value. */
  lemma ParsedRepliesStep(rule: FenceRule, rs: seq<Reply>, i: nat, parse: string -> Option<Json>)
    requires i < |rs|
    ensures ParsedReplies(rule, rs[..i + 1], parse) == ParsedReplies(rule, rs[..i], parse) + [Extracted(rule, ReplyText(rs[i]), parse)]
  {
    MapSeqStep(ReplyExtractor(rule, parse), rs, i);
  }

  /** The value at each position is what `extractJson` makes of the reply at that position. */
  lemma ParsedReplyAt(rule: FenceRule, rs: seq<Reply>, k: nat, parse: string -> Option<Json>)
    requires k < |rs|
    ensures ParsedReplies(rule, rs, parse)[k] == Extracted(rule, ReplyText(rs[k]), parse)
  {
  }

  /**
   * `extractJson(text)`, reassigning `text` step by step as the code nodes do.
   * It never fails: an empty text or a rejected candidate gives `null`.
   */
  method ExtractJson(rule: FenceRule, text: string, parse: string -> Option<Json>) returns (r: Json)
    ensures r == Extracted(rule, text, parse)
  {
    if text == [] {
      return JNull;
    }
    var t := StripFences(rule, text);
    t := Trim(t);
    t := SliceAtBraces(t);
    match parse(t)
    case Some(v) => r := v;
    case None => r := JNull;
  }

  /** Prose before an object and prose after it are cut away. */
  lemma ProseAroundObject(p: string, obj: string, q: string)
    requires p != [] && !IsJsSpace(p[0]) && '{' !in p && '}' !in q
    requires |obj| >= 2 && obj[0] == '{' && obj[|obj| - 1] == '}'
    ensures SliceObject(p + obj + q) == obj
  {
    var c := p + obj + q;
    BracesAround(p, obj, q);
    assert c[0] == p[0];
    TrimKeepsFirst(c);
    assert SliceObject(c) == BraceSlice(c, false);
    assert c[|p|..|p| + |obj|] == obj;
  }

  /** Around an object with no brace in the prose before "{" or after "}", the first "{" and the last "}" are the object's. */
  lemma BracesAround(p: string, obj: string, q: string)
    requires '{' !in p && '}' !in q
    requires |obj| >= 2 && obj[0] == '{' && obj[|obj| - 1] == '}'
    ensures IndexOf(p + obj + q, '{') == |p| && LastIndexOf(p + obj + q, '}') == |p| + |obj| - 1
  {
    var c := p + obj + q;
    var tail := obj[1..] + q;
    assert c == p + ['{'] + tail by {
      assert obj == ['{'] + obj[1..];
    }
    IndexOfAfter(p, '{', tail);
    var front := p + obj[..|obj| - 1];
    assert c == front + ['}'] + q by {
      assert obj == obj[..|obj| - 1] + ['}'];
    }
    LastIndexOfBefore(front, '}', q);
  }

  /** A cleaned reply that already starts with "{" reaches the parser whole, trailing prose included. */
  lemma LeadingObjectNotSliced(rule: FenceRule, text: string)
    requires StartsWithChar(Cleaned(rule, text), '{')
    ensures Candidate(rule, text) == Cleaned(rule, text)
  {
    TrimIdempotent(StripFences(rule, text));
  }

  /** Two backtick-free texts join into one. */
  lemma NoBackticksJoin(x: string, y: string)
    requires NoBackticks(x) && NoBackticks(y)
    ensures NoBackticks(x + y)
  {
    forall k | 0 <= k < |x + y| ensures (x + y)[k] != '`' {
      if k >= |x| {
        assert (x + y)[k] == y[k - |x|];
      }
    }
  }

  /** A fenced block whose body is an object between brace-free text and white space is unwrapped. */
  lemma PaddedBlockUnwrapped(rule: FenceRule, p: string, a: string, obj: string, b: string)
    requires NoBackticks(p) && NoBackticks(a) && NoBackticks(obj)
    requires forall k :: 0 <= k < |b| ==> IsJsSpace(b[k])
    ensures StripFences(rule, p + "```json" + a + obj + b + "```") == p + a + obj + b
  {
    assert NoBackticks(b) by {
      forall k | 0 <= k < |b| ensures b[k] != '`' {
        assert IsJsSpace(b[k]);
      }
    }
    NoBackticksJoin(a, obj);
    NoBackticksJoin(a + obj, b);
    var body := a + obj + b;
    FencedBlockUnwrapped(rule, p, body, []);
    assert p + "```json" + body + "```" + [] == p + "```json" + a + obj + b + "```";
    assert p + body + [] == p + a + obj + b;
  }

  /**
   * A fenced object after a line of prose reaches the parser as exactly that object,
   * also when the fence holds brace-free text before the object and white space after
   * it, as in "Sure! ```json\n{...}\n```".
   */
  lemma FencedObjectAfterProse(rule: FenceRule, p: string, a: string, obj: string, b: string)
    requires NoBackticks(p) && NoBackticks(a) && NoBackticks(obj)
    requires p != [] && !IsJsSpace(p[0]) && '{' !in p && '{' !in a
    requires |obj| >= 2 && obj[0] == '{' && obj[|obj| - 1] == '}'
    requires forall k :: 0 <= k < |b| ==> IsJsSpace(b[k])
    ensures Candidate(rule, p + "```json" + a + obj + b + "```") == obj
  {
    PaddedObjectCleaned(rule, p, a, obj, b);
    ProseAroundObject(p + a, obj, []);
    assert p + a + obj + [] == p + a + obj;
  }

  /** Cleaning such a reply leaves the prose, the text before the object and the object. */
  lemma PaddedObjectCleaned(rule: FenceRule, p: string, a: string, obj: string, b: string)
    requires NoBackticks(p) && NoBackticks(a) && NoBackticks(obj)
    requires p != [] && !IsJsSpace(p[0])
    requires |obj| >= 2 && obj[|obj| - 1] == '}'
    requires forall k :: 0 <= k < |b| ==> IsJsSpace(b[k])
    ensures Cleaned(rule, p + "```json" + a + obj + b + "```") == p + a + obj
  {
    PaddedBlockUnwrapped(rule, p, a, obj, b);
    var c := p + a + obj;
    assert p + a + obj + b == c + b;
    assert c[0] == p[0] && c[|c| - 1] == obj[|obj| - 1];
    TrimDropsTrailingSpaces(c, b);
  }

  /**
   * `extractJson` never throws: an empty text gives `null`, and otherwise the result
   * is `null` or what the parser made of the candidate, `null` whenever the parser
   * rejects it.
   */
  lemma ExtractedNeverThrows(rule: FenceRule, text: string, parse: string -> Option<Json>)
    ensures text == [] ==> Extracted(rule, text, parse) == JNull
    ensures parse(Candidate(rule, text)) == None ==> Extracted(rule, text, parse) == JNull
    ensures Extracted(rule, text, parse) == JNull
            || (text != [] && parse(Candidate(rule, text)) == Some(Extracted(rule, text, parse)))
  {
  }

  /** The container node's and the packing-list node's `extractJson` return the same value on every reply. */
  lemma ExtractorsAgree(text: string, parse: string -> Option<Json>)
    ensures Extracted(DropMarkers, text, parse) == Extracted(KeepGroup, text, parse)
  {
    FenceRulesAgree(text);
  }
}
