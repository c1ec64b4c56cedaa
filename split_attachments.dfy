/**
 * The "Split Attachments" code node: every binary property `attachment_<n>` of an
 * incoming Gmail item becomes an item of its own, with the attachment moved to the
 * property `data` and its name, MIME type and extension copied into `json`.
 */
module SplitAttachments {
  import opened Wrappers
  import opened JsString
  import opened JsValue
  import opened JsNumber
  import opened Seqs

  /**
   * The metadata n8n keeps with a binary property (`None` is a missing member) and
   * its base64 payload, which the node moves without reading.
   */
  datatype BinaryData = BinaryData(
    fileName: Option<string>,
    filename: Option<string>,
    mimeType: Option<string>,
    mime: Option<string>,
    fileExtension: Option<string>,
    payload: string)

  /** The five members the node adds to `json` for one attachment. */
  datatype AttachmentInfo = AttachmentInfo(
    attachmentKey: string,
    attachmentIndex: JsNum,
    filename: string,
    mimeType: string,
    fileExtension: string)

  /**
   * An n8n item. Its `json` is the members in `json` followed by the five members of
   * `split` when a split node wrote them (written last, they override members of the
   * same name). `binary` lists the binary properties in key order, each key once, as
   * the keys of a JavaScript object are; a missing `json` or `binary` is empty, as
   * `|| {}` makes it.
   */
  datatype Item = Item(json: seq<(string, Json)>, split: Option<AttachmentInfo>, binary: seq<(string, BinaryData)>)

  const Prefix := "attachment_"

  predicate IsAttachmentKey(key: string) {
    StartsWith(key, Prefix)
  }

  function KeepAttachment(entry: (string, BinaryData)): seq<(string, BinaryData)> {
    if IsAttachmentKey(entry.0) then [entry] else []
  }

  /** `Object.keys(binary).filter(key => key.startsWith('attachment_'))`, each key with its value. */
  function Attachments(binary: seq<(string, BinaryData)>): (r: seq<(string, BinaryData)>)
    ensures forall e :: e in r <==> e in binary && IsAttachmentKey(e.0)
  {
    forall e ensures e in FlatMap(KeepAttachment, binary) <==> e in binary && IsAttachmentKey(e.0) {
      FlatMapMembers(KeepAttachment, binary, e);
    }
    FlatMap(KeepAttachment, binary)
  }

  /** `binary.data` is truthy: the property exists (its value is an object). */
  predicate HasData(binary: seq<(string, BinaryData)>) {
    exists k :: 0 <= k < |binary| && binary[k].0 == "data"
  }

  /** An item that has no `attachment_` property but a `data` one was split already and goes through as it is. */
  predicate PassesThrough(item: Item) {
    |Attachments(item.binary)| == 0 && HasData(item.binary)
  }

  /** `s.split('.').pop()`: the text after the last `.`, or all of `s` when it has none. */
  function LastSegment(s: string): (r: string)
    ensures '.' !in r
    ensures |r| <= |s| && r == s[|s| - |r|..]
    ensures |r| < |s| ==> s[|s| - |r| - 1] == '.'
    ensures '.' !in s ==> r == s
  {
    s[LastIndexOf(s, '.') + 1..]
  }

  /** The `fileExtension` member: the attachment's own, else the last segment of its non-empty `fileName`, else empty. */
  function Extension(a: BinaryData): string {
    OrElse(a.fileExtension, if a.fileName.Some? && a.fileName.value != [] then LastSegment(a.fileName.value) else "")
  }

  /** The item the node pushes for the attachment `a` under `key`. */
  function Expand(json: seq<(string, Json)>, key: string, a: BinaryData): Item {
    var attachmentNum := ReplaceFirst(key, Prefix, "");
    Item(json,
         Some(AttachmentInfo(key, ParseInt(attachmentNum),
                             OrElse(a.fileName, OrElse(a.filename, Prefix + attachmentNum)),
                             OrElse(a.mimeType, OrElse(a.mime, "application/octet-stream")),
                             Extension(a))),
         [("data", a)])
  }

  /** The items pushed for the attachments of an item whose members are `json`, one per attachment in key order. */
  function ExpandAll(json: seq<(string, Json)>, attachments: seq<(string, BinaryData)>): seq<Item> {
    MapSeq(Expander(json), attachments)
  }

  /** `Expand` for the item whose members are `json`, over (key, attachment) entries. */
  function Expander(json: seq<(string, Json)>): ((string, BinaryData)) -> Item {
    (e: (string, BinaryData)) => Expand(json, e.0, e.1)
  }

  /**
   * What one input item turns into: itself when it passes through, otherwise one
   * item per attachment that keeps the input's `json` and holds just that
   * attachment, as `data`. An item with neither attachments nor `data` yields nothing.
   */
  function SplitItem(item: Item): (r: seq<Item>)
    ensures PassesThrough(item) ==> r == [item]
    ensures !PassesThrough(item) ==>
      |r| == |Attachments(item.binary)| &&
      forall k :: 0 <= k < |r| ==>
        r[k].json == item.json && r[k].binary == [("data", Attachments(item.binary)[k].1)] &&
        r[k].split.Some? && r[k].split.value.attachmentKey == Attachments(item.binary)[k].0
  {
    if PassesThrough(item) then [item] else ExpandAll(item.json, Attachments(item.binary))
  }

  /** The node's output for all its input items. */
  function Split(input: seq<Item>): seq<Item> {
    FlatMap(SplitItem, input)
  }

  /** The node's outer loop over its input items. */
  method SplitAll(input: seq<Item>) returns (allItems: seq<Item>)
    ensures allItems == Split(input)
  {
    allItems := [];
    for i := 0 to |input|
      invariant allItems == FlatMap(SplitItem, input[..i])
    {
      var inputItem := input[i];
      var binary := inputItem.binary;
      var json := inputItem.json;
      var attachments := Attachments(binary);
      if |attachments| == 0 && HasData(binary) {
        assert Item(json, inputItem.split, binary) == inputItem;
        allItems := allItems + [Item(json, inputItem.split, binary)];
      } else {
        allItems := PushAttachments(allItems, json, attachments);
      }
      FlatMapStep(SplitItem, input, i);
    }
    assert input[..|input|] == input;
  }

  /** The node's inner loop: one item pushed per attachment, in key order. */
  method PushAttachments(allItems: seq<Item>, json: seq<(string, Json)>, attachments: seq<(string, BinaryData)>)
    returns (allItems': seq<Item>)
    ensures allItems' == allItems + ExpandAll(json, attachments)
  {
    allItems' := allItems;
    for k := 0 to |attachments|
      invariant allItems' == allItems + ExpandAll(json, attachments[..k])
    {
      var item := Expand(json, attachments[k].0, attachments[k].1);
      MapSeqStep(Expander(json), attachments, k);
      allItems' := allItems' + [item];
    }
    assert attachments[..|attachments|] == attachments;
  }

  /** The number in an attachment key is what follows the prefix; the template `attachment_${n}` rebuilds the key itself. */
  lemma FallbackFilenameIsKey(json: seq<(string, Json)>, key: string, a: BinaryData)
    requires IsAttachmentKey(key)
    ensures Expand(json, key, a).split.value.filename == OrElse(a.fileName, OrElse(a.filename, key))
  {
    assert key == Prefix + key[|Prefix|..];
    ReplacePrefix(Prefix, key[|Prefix|..]);
  }

  /** `attachment_<n>` for a natural number `n` written in decimal gets `attachmentIndex` `n`. */
  lemma IndexOfNumberedKey(json: seq<(string, Json)>, n: nat, a: BinaryData)
    ensures Expand(json, Prefix + NatToString(n), a).split.value.attachmentIndex == Num(n)
  {
    ReplacePrefix(Prefix, NatToString(n));
    ParseIntReadsDecimal(n, []);
    assert NatToString(n) + [] == NatToString(n);
  }

  /** Without its own `fileExtension`, an attachment named `x.y.pdf` gets the extension `pdf`; one without a name gets none. */
  lemma ExtensionRule(a: BinaryData, stem: string, ext: string)
    requires a.fileExtension.None? || a.fileExtension.value == []
    requires '.' !in ext
    ensures a.fileName == Some(stem + "." + ext) ==> Extension(a) == ext
    ensures a.fileName.None? ==> Extension(a) == ""
  {
    if a.fileName == Some(stem + "." + ext) {
      var s := stem + "." + ext;
      var i := LastIndexOf(s, '.');
      assert s[|stem|] == '.';
      assert s[i + 1..] == ext;
    }
  }

  /** Every attachment of an item comes out as an item of its own that keeps the item's `json` and holds just that attachment. */
  lemma EveryAttachmentSplitOut(item: Item, e: (string, BinaryData))
    requires e in item.binary && IsAttachmentKey(e.0)
    ensures exists out :: (out in SplitItem(item) && out.json == item.json &&
                           out.binary == [("data", e.1)] && out.split.Some? && out.split.value.attachmentKey == e.0)
  {
    var att := Attachments(item.binary);
    assert e in att;
    var k :| 0 <= k < |att| && att[k] == e;
    assert !PassesThrough(item);
    var out := SplitItem(item)[k];
    assert out in SplitItem(item);
  }

  /** The node's output is already split: running it again passes every item through unchanged. */
  lemma SplitIdempotent(input: seq<Item>)
    ensures Split(Split(input)) == Split(input)
  {
    var out := Split(input);
    forall k | 0 <= k < |out|
      ensures SplitItem(out[k]) == [out[k]]
    {
      FlatMapMembers(SplitItem, input, out[k]);
      var j :| 0 <= j < |input| && out[k] in SplitItem(input[j]);
      OutputPassesThrough(input[j], out[k]);
    }
    FlatMapOfSingletons(SplitItem, out);
  }

  /** An item whose only binary property is `data` passes through. */
  lemma DataOnlyPassesThrough(json: seq<(string, Json)>, split: Option<AttachmentInfo>, a: BinaryData)
    ensures PassesThrough(Item(json, split, [("data", a)]))
  {
    var b := [("data", a)];
    assert !IsAttachmentKey("data");
    assert FlatMap(KeepAttachment, b) == FlatMap(KeepAttachment, b[..0]) + KeepAttachment(b[0]);
    assert b[0].0 == "data";
  }

  /** Every item the node pushes passes through a second split. */
  lemma OutputPassesThrough(item: Item, out: Item)
    requires out in SplitItem(item)
    ensures PassesThrough(out)
  {
    if !PassesThrough(item) {
      var att := Attachments(item.binary);
      var k :| 0 <= k < |SplitItem(item)| && SplitItem(item)[k] == out;
      DataOnlyPassesThrough(out.json, out.split, att[k].1);
    }
  }
}
