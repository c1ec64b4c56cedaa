/**
 * The "Classify Attachment" code node: a filename is labelled by a first-match-wins
 * chain of whole-word keyword tests combined with an extension test, and the
 * "Route by Type" / "Filter PKL Only" nodes that route on that label.
 */
module Classify {
  import opened Wrappers
  import opened JsString
  import opened JsValue

  datatype AttachmentType = Bill | CommercialInvoice | PackagingList | Unknown

  /** The `attachmentType` strings the node writes. */
  function TypeName(t: AttachmentType): string {
    match t
    case Bill => "bill"
    case CommercialInvoice => "commercial_invoice"
    case PackagingList => "packaging_list"
    case Unknown => "unknown"
  }

  /** `\w` of a regular expression without the `u` flag. */
  predicate IsWordChar(c: char) {
    ('a' <= c <= 'z') || ('A' <= c <= 'Z') || ('0' <= c <= '9') || c == '_'
  }

  /** The keywords the node tests: lower-case runs of word characters. */
  predicate IsKeyword(w: string) {
    |w| > 0 && forall k :: 0 <= k < |w| ==> IsWordChar(w[k]) && LowerChar(w[k]) == w[k]
  }

  /** The regular expression `\bword\b` with flag `i` matches `name` at position `i`. */
  predicate WordAt(name: string, word: string, i: nat)
    requires i + |word| <= |name|
  {
    && LowerAscii(name[i..i + |word|]) == word
    && (i == 0 || !IsWordChar(name[i - 1]))
    && (i + |word| == |name| || !IsWordChar(name[i + |word|]))
  }

  /** The search `RegExp.prototype.test` makes, trying positions from `i` on. */
  predicate MatchFrom(name: string, word: string, i: nat)
    decreases |name| - i
  {
    i + |word| <= |name| && (WordAt(name, word, i) || MatchFrom(name, word, i + 1))
  }

  /** The six keywords of the rule chain. */
  lemma RuleKeywords()
    ensures IsKeyword("bill") && IsKeyword("bol") && IsKeyword("ci")
    ensures IsKeyword("pkl") && IsKeyword("pack") && IsKeyword("packing")
  {
  }

  /**
   * `containsWord(name, word)`: `new RegExp('\\b' + word + '\\b', 'i').test(name)`, for
   * words without regular-expression metacharacters, such as the node's keywords.
   */
  predicate ContainsWord(name: string, word: string) {
    MatchFrom(name, word, 0)
  }

  /** `hasExt(name, ext)` */
  predicate HasExt(name: string, ext: string) {
    EndsWith(LowerAscii(name), LowerAscii(ext))
  }

  /** The rule chain of the node, applied to the lower-cased filename. */
  function Classify(filenameRaw: string): AttachmentType {
    var filename := LowerAscii(filenameRaw);
    if (ContainsWord(filename, "bill") || ContainsWord(filename, "bol")) && HasExt(filename, ".pdf") then Bill
    else if ContainsWord(filename, "ci") && HasExt(filename, ".xlsx") then CommercialInvoice
    else if (ContainsWord(filename, "pkl") || ContainsWord(filename, "pack") || ContainsWord(filename, "packing"))
            && HasExt(filename, ".xlsx") then PackagingList
    else Unknown
  }

  /** The search from `i` on succeeds exactly when some position from `i` on matches. */
  lemma {:induction false} MatchFromIff(name: string, word: string, i: nat)
    ensures MatchFrom(name, word, i) <==> exists j :: i <= j && j + |word| <= |name| && WordAt(name, word, j)
    decreases |name| - i
  {
    if i + |word| <= |name| {
      MatchFromIff(name, word, i + 1);
    }
  }

  /** `containsWord` holds exactly when the keyword occurs, ignoring case, with a non-word character or the edge of the name on each side. */
  lemma ContainsWordIff(name: string, word: string)
    ensures ContainsWord(name, word) <==> exists j :: 0 <= j && j + |word| <= |name| && WordAt(name, word, j)
  {
    MatchFromIff(name, word, 0);
  }

  /** A keyword matched somewhere is a substring of the lower-cased name. */
  lemma WholeWordIsSubstring(name: string, word: string)
    requires ContainsWord(name, word)
    ensures exists j :: OccursAt(LowerAscii(name), word, j)
  {
    ContainsWordIff(name, word);
    var j :| 0 <= j && j + |word| <= |name| && WordAt(name, word, j);
    assert LowerAscii(name)[j..j + |word|] == LowerAscii(name[j..j + |word|]);
    assert OccursAt(LowerAscii(name), word, j);
  }

  lemma WordAtLeft(a: string, c: char, b: string, word: string, j: nat)
    requires !IsWordChar(c) && j + |word| <= |a|
    ensures WordAt(a + [c] + b, word, j) == WordAt(a, word, j)
  {
    var name := a + [c] + b;
    assert name[j..j + |word|] == a[j..j + |word|];
    assert j + |word| < |name| && name[j + |word|] == if j + |word| < |a| then a[j + |word|] else c;
  }

  lemma WordAtRight(a: string, c: char, b: string, word: string, j: nat)
    requires !IsWordChar(c) && j + |word| <= |b|
    ensures WordAt(a + [c] + b, word, j + |a| + 1) == WordAt(b, word, j)
  {
    var name := a + [c] + b;
    var m := j + |a| + 1;
    assert name[m..m + |word|] == b[j..j + |word|];
    assert name[m - 1] == if j == 0 then c else b[j - 1];
  }

  lemma NoWordAcross(a: string, c: char, b: string, word: string, j: nat)
    requires IsKeyword(word) && !IsWordChar(c) && j <= |a| < j + |word| <= |a| + 1 + |b|
    ensures !WordAt(a + [c] + b, word, j)
  {
    var name := a + [c] + b;
    var slice := name[j..j + |word|];
    assert slice[|a| - j] == c;
    assert LowerAscii(slice)[|a| - j] == LowerChar(c) == c;
    assert IsWordChar(word[|a| - j]);
  }

  /** A match in a name split at a non-word character lies in one of the two parts. */
  lemma MatchInOnePart(a: string, c: char, b: string, word: string)
    requires IsKeyword(word) && !IsWordChar(c) && ContainsWord(a + [c] + b, word)
    ensures ContainsWord(a, word) || ContainsWord(b, word)
  {
    var name := a + [c] + b;
    ContainsWordIff(name, word);
    var j :| 0 <= j && j + |word| <= |name| && WordAt(name, word, j);
    if j + |word| <= |a| {
      WordAtLeft(a, c, b, word, j);
      ContainsWordIff(a, word);
    } else if j > |a| {
      WordAtRight(a, c, b, word, j - |a| - 1);
      ContainsWordIff(b, word);
    } else {
      NoWordAcross(a, c, b, word, j);
    }
  }

  /** A match in the left part is a match in the whole name. */
  lemma MatchFromLeftPart(a: string, c: char, b: string, word: string)
    requires !IsWordChar(c) && ContainsWord(a, word)
    ensures ContainsWord(a + [c] + b, word)
  {
    ContainsWordIff(a, word);
    var j :| 0 <= j && j + |word| <= |a| && WordAt(a, word, j);
    WordAtLeft(a, c, b, word, j);
    ContainsWordIff(a + [c] + b, word);
  }

  /** A match in the right part is a match in the whole name. */
  lemma MatchFromRightPart(a: string, c: char, b: string, word: string)
    requires !IsWordChar(c) && ContainsWord(b, word)
    ensures ContainsWord(a + [c] + b, word)
  {
    ContainsWordIff(b, word);
    var j :| 0 <= j && j + |word| <= |b| && WordAt(b, word, j);
    WordAtRight(a, c, b, word, j);
    ContainsWordIff(a + [c] + b, word);
  }

  /** A keyword never matches across a non-word character: such a character splits the search in two. */
  lemma SplitAtNonWordChar(a: string, c: char, b: string, word: string)
    requires IsKeyword(word) && !IsWordChar(c)
    ensures ContainsWord(a + [c] + b, word) <==> ContainsWord(a, word) || ContainsWord(b, word)
  {
    if ContainsWord(a + [c] + b, word) {
      MatchInOnePart(a, c, b, word);
    }
    if ContainsWord(a, word) {
      MatchFromLeftPart(a, c, b, word);
    }
    if ContainsWord(b, word) {
      MatchFromRightPart(a, c, b, word);
    }
  }

  predicate AllWordChars(s: string) {
    forall k :: 0 <= k < |s| ==> IsWordChar(s[k])
  }

  /** Inside a run of word characters a keyword matches only the whole run: "mobile" never contains the word "bil", "responsible" never the word "ible". */
  lemma WordRunMatchesOnlyWhole(name: string, word: string)
    requires IsKeyword(word) && AllWordChars(name)
    ensures ContainsWord(name, word) <==> LowerAscii(name) == word
  {
    ContainsWordIff(name, word);
    if ContainsWord(name, word) {
      var j :| 0 <= j && j + |word| <= |name| && WordAt(name, word, j);
      assert j == 0 && j + |word| == |name|;
      assert name[j..j + |word|] == name;
    }
    if LowerAscii(name) == word {
      assert name[0..|word|] == name;
      assert WordAt(name, word, 0);
    }
  }

  lemma LowerAsciiConcat(a: string, b: string)
    ensures LowerAscii(a + b) == LowerAscii(a) + LowerAscii(b)
  {
  }

  lemma LowerKeepsWordChars(s: string)
    requires AllWordChars(s)
    ensures AllWordChars(LowerAscii(s))
  {
  }

  /** A keyword longer than a run of word characters cannot match inside it. */
  lemma ShortRunHasNoWord(s: string, word: string)
    requires IsKeyword(word) && AllWordChars(s) && |s| != |word|
    ensures !ContainsWord(s, word)
  {
    WordRunMatchesOnlyWhole(s, word);
  }

  /** In "stem.ext" with a one-word stem and extension, a keyword matches exactly when it is the whole stem. */
  lemma KeywordOfStem(l: string, ext: string, w: string)
    requires IsKeyword(w) && AllWordChars(l) && AllWordChars(ext) && LowerAscii(l) == l
    requires LowerAscii(ext) == ext && ext != w
    ensures ContainsWord(l + ['.'] + ext, w) <==> l == w
  {
    SplitAtNonWordChar(l, '.', ext, w);
    WordRunMatchesOnlyWhole(l, w);
    WordRunMatchesOnlyWhole(ext, w);
  }

  /**
   * A name that is one run of word characters followed by ".pdf" is a bill exactly
   * when that run is "bill" or "bol" in some case; otherwise it is unknown.
   * So "mobile.pdf", "responsible.pdf" and "bill_of_lading.pdf" are unknown.
   */
  lemma {:induction false} SingleWordPdf(stem: string)
    requires AllWordChars(stem)
    ensures Classify(stem + ".pdf") == if LowerAscii(stem) in {"bill", "bol"} then Bill else Unknown
  {
    var l := LowerAscii(stem);
    var f := LowerAscii(stem + ".pdf");
    LowerAsciiConcat(stem, ".pdf");
    LowerOfLowercase(".pdf");
    LowerOfLowercase(".xlsx");
    LowerKeepsWordChars(stem);
    LowerOfLowercase(l);
    assert f == l + ['.'] + "pdf";
    assert AllWordChars("pdf");
    LowerOfLowercase("pdf");
    RuleKeywords();
    KeywordOfStem(l, "pdf", "bill");
    KeywordOfStem(l, "pdf", "bol");
    assert LowerAscii(f) == f;
    assert HasExt(f, ".pdf");
    assert f[|f| - 1] == 'f';
    assert !HasExt(f, ".xlsx");
  }

  /** A run of more than four word characters followed by ".pdf" is too long for either bill keyword. */
  lemma LongWordPdf(stem: string)
    requires |stem| > 4 && AllWordChars(stem)
    ensures Classify(stem + ".pdf") == Unknown
  {
    SingleWordPdf(stem);
  }

  /**
   * A name that is one run of word characters followed by ".xlsx": "ci" gives a
   * commercial invoice, "pkl", "pack" and "packing" a packing list, anything else
   * (also "bill" and "packing_list") is unknown.
   */
  lemma {:induction false} SingleWordXlsx(stem: string)
    requires AllWordChars(stem)
    ensures Classify(stem + ".xlsx") ==
      if LowerAscii(stem) == "ci" then CommercialInvoice
      else if LowerAscii(stem) in {"pkl", "pack", "packing"} then PackagingList
      else Unknown
  {
    var l := LowerAscii(stem);
    var f := LowerAscii(stem + ".xlsx");
    LowerAsciiConcat(stem, ".xlsx");
    LowerOfLowercase(".pdf");
    LowerOfLowercase(".xlsx");
    LowerKeepsWordChars(stem);
    LowerOfLowercase(l);
    assert f == l + ['.'] + "xlsx";
    assert AllWordChars("xlsx");
    LowerOfLowercase("xlsx");
    RuleKeywords();
    KeywordOfStem(l, "xlsx", "bill");
    KeywordOfStem(l, "xlsx", "bol");
    KeywordOfStem(l, "xlsx", "ci");
    KeywordOfStem(l, "xlsx", "pkl");
    KeywordOfStem(l, "xlsx", "pack");
    KeywordOfStem(l, "xlsx", "packing");
    assert LowerAscii(f) == f;
    assert f[|f| - 1] == 'x';
    assert !HasExt(f, ".pdf");
    assert HasExt(f, ".xlsx");
  }

  /** Substrings of longer words are not keywords: neither of these names is a bill. */
  lemma LongerWordsAreNotBills(name: string)
    requires name == "mobile.pdf" || name == "responsible.pdf"
    ensures Classify(name) == Unknown
  {
    if name == "mobile.pdf" {
      assert name == "mobile" + ".pdf";
      assert AllWordChars("mobile");
      LongWordPdf("mobile");
    } else {
      assert name == "responsible" + ".pdf";
      assert AllWordChars("responsible");
      LongWordPdf("responsible");
    }
  }

  /**
   * Underscore is a word character, so it does not separate "bill" from the rest of the name,
   * in lower case or in mixed case, and it keeps "responsible_report" one word, which is
   * neither "bill" nor "bol".
   */
  lemma UnderscoreJoinsWords(name: string)
    requires name == "bill_of_lading.pdf" || name == "Bill_of_Lading.pdf" || name == "responsible_report.pdf"
    ensures Classify(name) == Unknown
  {
    if name == "responsible_report.pdf" {
      assert name == "responsible_report" + ".pdf";
      assert AllWordChars("responsible_report");
      LongWordPdf("responsible_report");
    } else if name == "bill_of_lading.pdf" {
      assert name == "bill_of_lading" + ".pdf";
      assert AllWordChars("bill_of_lading");
      LongWordPdf("bill_of_lading");
    } else {
      assert name == "Bill_of_Lading" + ".pdf";
      assert AllWordChars("Bill_of_Lading");
      LongWordPdf("Bill_of_Lading");
    }
  }

  /** "packing_list" is one word, so the packing-list rule does not fire. */
  lemma UnderscorePackingList()
    ensures Classify("packing_list.xlsx") == Unknown
  {
    assert "packing_list.xlsx" == "packing_list" + ".xlsx";
    assert AllWordChars("packing_list");
    assert |LowerAscii("packing_list")| == 12;
    SingleWordXlsx("packing_list");
  }

  /** Keywords and extensions are compared without case. */
  lemma UpperCaseNamesClassify()
    ensures Classify("PKL.XLSX") == PackagingList
  {
    var u := "PKL.XLSX";
    var l := LowerAscii(u);
    assert l[0] == 'p' && l[1] == 'k' && l[2] == 'l' && l[3] == '.';
    assert l[4] == 'x' && l[5] == 'l' && l[6] == 's' && l[7] == 'x';
    assert l == "pkl.xlsx";
    assert "pkl.xlsx" == "pkl" + ".xlsx";
    assert AllWordChars("pkl");
    LowerOfLowercase("pkl");
    LowerOfLowercase("pkl.xlsx");
    SingleWordXlsx("pkl");
  }

  /** The ".pdf" requirement of the bill rule is not waived for a spreadsheet named "bill". */
  lemma BillSpreadsheetIsUnknown()
    ensures Classify("bill.xlsx") == Unknown
  {
    assert "bill.xlsx" == "bill" + ".xlsx";
    assert AllWordChars("bill");
    LowerOfLowercase("bill");
    SingleWordXlsx("bill");
  }

  /** A hyphen separates words: "bill-of-lading.pdf", and every "bill-….pdf", is a bill. */
  lemma HyphenSeparatesWords(rest: string)
    ensures Classify("bill-" + rest + ".pdf") == Bill
  {
    var raw := "bill-" + rest + ".pdf";
    var f := LowerAscii(raw);
    LowerAsciiConcat("bill-" + rest, ".pdf");
    LowerAsciiConcat("bill-", rest);
    LowerOfLowercase("bill-");
    LowerOfLowercase(".pdf");
    assert f == "bill" + ['-'] + (LowerAscii(rest) + ".pdf");
    BillBeforeHyphen(LowerAscii(rest) + ".pdf");
    assert f == ("bill-" + LowerAscii(rest)) + ".pdf";
    ExtSuffix("bill-" + LowerAscii(rest), ".pdf");
  }

  /** "bill" followed by a hyphen is the whole word "bill". */
  lemma BillBeforeHyphen(rest: string)
    ensures ContainsWord("bill" + ['-'] + rest, "bill")
  {
    LeadingWord("bill", '-', rest);
  }

  /** A keyword followed by a non-word character is matched at the start of the name. */
  lemma LeadingWord(w: string, c: char, rest: string)
    requires IsKeyword(w) && !IsWordChar(c)
    ensures ContainsWord(w + [c] + rest, w)
  {
    assert AllWordChars(w);
    LowerOfLowercase(w);
    WordRunMatchesOnlyWhole(w, w);
    SplitAtNonWordChar(w, c, rest, w);
  }

  /** A name ending in a lower-case extension passes `hasExt` for it. */
  lemma ExtSuffix(stem: string, ext: string)
    requires LowerAscii(ext) == ext
    ensures HasExt(stem + ext, ext)
  {
    var f := stem + ext;
    LowerAsciiConcat(stem, ext);
    assert LowerAscii(f)[|f| - |ext|..] == LowerAscii(ext);
  }

  /** No name ends in both ".pdf" and ".xlsx". */
  lemma ExtensionsExclusive(f: string)
    ensures HasExt(f, ".pdf") ==> !HasExt(f, ".xlsx")
  {
    LowerOfLowercase(".pdf");
    LowerOfLowercase(".xlsx");
    if HasExt(f, ".pdf") {
      var l := LowerAscii(f);
      assert l[|l| - 1] == 'f';
    }
  }

  /**
   * The rule chain read as a table. Because the extension tests exclude each other,
   * the commercial-invoice rule wins whenever it applies, and the packing-list rule
   * only loses to it.
   */
  lemma RulePriority(raw: string)
    ensures var f := LowerAscii(raw);
      && (Classify(raw) == Bill <==> (ContainsWord(f, "bill") || ContainsWord(f, "bol")) && HasExt(f, ".pdf"))
      && (Classify(raw) == CommercialInvoice <==> ContainsWord(f, "ci") && HasExt(f, ".xlsx"))
      && (Classify(raw) == PackagingList <==>
            !ContainsWord(f, "ci") && HasExt(f, ".xlsx")
            && (ContainsWord(f, "pkl") || ContainsWord(f, "pack") || ContainsWord(f, "packing")))
  {
    ExtensionsExclusive(LowerAscii(raw));
  }

  /** Every label except `Unknown` fixes the extension the lower-cased name ends in. */
  lemma LabelFixesExtension(raw: string)
    ensures Classify(raw) == Bill ==> EndsWith(LowerAscii(raw), ".pdf")
    ensures Classify(raw) in {CommercialInvoice, PackagingList} ==> EndsWith(LowerAscii(raw), ".xlsx")
  {
    LowerOfLowercase(".pdf");
    LowerOfLowercase(".xlsx");
    LowerOfUpper(raw);
  }

  /**
   * "ci pkl.xlsx" matches both the invoice and the packing-list rule; the invoice
   * rule comes first. So does every "ci ….xlsx".
   */
  lemma InvoiceRuleComesFirst(rest: string)
    ensures Classify("ci " + rest + ".xlsx") == CommercialInvoice
  {
    var raw := "ci " + rest + ".xlsx";
    var f := LowerAscii(raw);
    LowerAsciiConcat("ci " + rest, ".xlsx");
    LowerAsciiConcat("ci ", rest);
    LowerOfLowercase("ci ");
    LowerOfLowercase(".xlsx");
    RuleKeywords();
    assert f == "ci" + [' '] + (LowerAscii(rest) + ".xlsx");
    LeadingWord("ci", ' ', LowerAscii(rest) + ".xlsx");
    assert f == ("ci " + LowerAscii(rest)) + ".xlsx";
    ExtSuffix("ci " + LowerAscii(rest), ".xlsx");
    ExtensionsExclusive(f);
  }

  /** Classification depends on the filename only up to ASCII case. */
  lemma ClassifyIgnoresCase(raw: string)
    ensures Classify(UpperAscii(raw)) == Classify(raw)
  {
    LowerOfUpper(raw);
  }

  /** Where the routing nodes send an item. */
  datatype Branch = BillPath | PklPath | Dropped

  /** "Route by Type": output 0 when `attachmentType` equals "bill" (case-sensitive), output 1 otherwise. */
  function RouteByType(attachmentType: string): nat {
    if attachmentType == "bill" then 0 else 1
  }

  /** "Filter PKL Only": keeps items whose `attachmentType` equals "packaging_list", ignoring case. */
  predicate FilterPklOnly(attachmentType: string) {
    LowerAscii(attachmentType) == LowerAscii("packaging_list")
  }

  /** Output 0 of "Route by Type" feeds the PDF path, output 1 feeds "Filter PKL Only". */
  function BranchOf(attachmentType: string): Branch {
    if RouteByType(attachmentType) == 0 then BillPath
    else if FilterPklOnly(attachmentType) then PklPath
    else Dropped
  }

  /** Only bills reach the PDF path and only packing lists pass the filter; invoices and unknown files are dropped. */
  lemma OnlyBillsAndPackingListsAreRouted(t: AttachmentType)
    ensures BranchOf(TypeName(t)) == BillPath <==> t == Bill
    ensures BranchOf(TypeName(t)) == PklPath <==> t == PackagingList
    ensures BranchOf(TypeName(t)) == Dropped <==> t in {CommercialInvoice, Unknown}
  {
    LowerOfLowercase("packaging_list");
    assert |LowerAscii(TypeName(t))| == |TypeName(t)|;
    if t == PackagingList {
      LowerOfLowercase(TypeName(t));
    }
  }

  /** The fields of the trigger's email that the node copies onto every item; `None` is a missing field. */
  datatype EmailMeta = EmailMeta(subject: Option<string>, date: Option<string>, from: Option<string>, sender: Option<string>)

  /** The two fields of an incoming item the node reads its filename from. */
  datatype AttachmentFields = AttachmentFields(filename: Option<string>, name: Option<string>)

  datatype ClassifiedItem = ClassifiedItem(
    attachmentType: AttachmentType,
    filename: string,
    emailSubject: string,
    emailDate: string,
    emailFrom: string)

  /** `filenameRaw = item.filename || item.name || ''` */
  function RawFilename(item: AttachmentFields): string {
    OrElse(item.filename, OrElse(item.name, ""))
  }

  /** The labelled item the node pushes for one input item. */
  function ClassifyOne(item: AttachmentFields, email: EmailMeta): ClassifiedItem {
    var raw := RawFilename(item);
    ClassifiedItem(Classify(raw), raw, OrElse(email.subject, ""), OrElse(email.date, ""),
                   OrElse(email.from, OrElse(email.sender, "")))
  }

  /** The `let attachmentType` statements for one filename: the rule chain tried in order. */
  method LabelFilename(filenameRaw: string) returns (attachmentType: AttachmentType)
    ensures attachmentType == Classify(filenameRaw)
  {
    var filename := LowerAscii(filenameRaw);
    attachmentType := Unknown;
    if (ContainsWord(filename, "bill") || ContainsWord(filename, "bol")) && HasExt(filename, ".pdf") {
      attachmentType := Bill;
    } else if ContainsWord(filename, "ci") && HasExt(filename, ".xlsx") {
      attachmentType := CommercialInvoice;
    } else if (ContainsWord(filename, "pkl") || ContainsWord(filename, "pack") || ContainsWord(filename, "packing"))
              && HasExt(filename, ".xlsx") {
      attachmentType := PackagingList;
    }
  }

  /**
   * The node's loop: one output per input item, in input order; each carries the
   * label of its raw filename and that filename unchanged (not lower-cased).
   */
  method ClassifyAttachments(items: seq<AttachmentFields>, email: EmailMeta) returns (allItems: seq<ClassifiedItem>)
    ensures |allItems| == |items|
    ensures forall i :: 0 <= i < |items| ==>
      allItems[i].filename == RawFilename(items[i]) && allItems[i].attachmentType == Classify(allItems[i].filename)
    ensures forall i :: 0 <= i < |items| ==> allItems[i] == ClassifyOne(items[i], email)
  {
    allItems := [];
    var k := 0;
    while k < |items|
      invariant 0 <= k <= |items|
      invariant |allItems| == k
      invariant forall i :: 0 <= i < k ==> allItems[i] == ClassifyOne(items[i], email)
    {
      var filenameRaw := OrElse(items[k].filename, OrElse(items[k].name, ""));
      var attachmentType := LabelFilename(filenameRaw);
      var item := ClassifiedItem(attachmentType, filenameRaw, OrElse(email.subject, ""),
                                 OrElse(email.date, ""), OrElse(email.from, OrElse(email.sender, "")));
      assert item == ClassifyOne(items[k], email);
      allItems := allItems + [item];
      k := k + 1;
    }
  }
}
