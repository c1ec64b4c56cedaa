# Container tracking workflow: a Dafny model of its decision logic

`generate_workflow.py` writes an n8n workflow. The workflow reads shipping emails from Gmail and does the following:

- it splits each email into one item per attachment;
- it labels each attachment from its filename as a bill of lading, a commercial invoice, a packing list or unknown;
- it sends bills down a PDF path and packing lists down a spreadsheet path;
- on each path it asks a language model for JSON and reduces the replies: container numbers on the bill path, SKU lines with an independently recomputed quantity checksum on the packing-list path;
- it merges the two results into one final record.

The decisions are made by JavaScript code nodes, embedded in the script as strings, plus one Python validator of the generated connection table. This project models that logic and proves what it promises.

| file | module | what it models |
|---|---|---|
| wrappers.dfy | `Wrappers` | `Option`, standing for `undefined`, `null` or a failed step |
| seqs.dfy | `Seqs` | `push(...)` loops as a flat map, `.map`, last-write-wins accumulators, and member lookup where the last binding wins |
| js_string.dfy | `JsString` | `trim`, `indexOf`, `lastIndexOf`, `replace` with a string pattern, `startsWith`, `endsWith`, ASCII `toLowerCase`, `String(n)` |
| js_value.dfy | `JsValue` | parsed JSON values, property access, truthiness, `a \|\| b`, and the equality `Set` uses |
| js_number.dfy | `JsNumber` | the `Number(v)` coercion and `parseInt` on integers, with `NaN` for non-finite results |
| split_attachments.dfy | `SplitAttachments` | the "Split Attachments" node |
| classify.dfy | `Classify` | the "Classify Attachment" node, and the labels the "Route by Type" and "Filter PKL Only" nodes test |
| extract_json.dfy | `ExtractJson` | `extractJson`, in both of its near-duplicate forms |
| parse_containers.dfy | `ParseContainers` | the "Parse Container Response" node |
| pkl_grid.dfy | `PklGrid` | the "Normalize PKL Grid" node |
| parse_pkl.dfy | `ParsePkl` | the "Parse PKL Response" node with its checksum |
| merge_results.dfy | `MergeResults` | the "Merge Results" and "Format Output" nodes |
| workflow.dfy | `Workflow` | `validate_workflow`, and the nodes and connections `create_workflow` builds |
| routing.dfy | `Routing` | how the routing labels meet the generated connection table |

## How the model is built

- **The code that changes state step by step is imperative Dafny.** Each such method is proved equal to a specification function, and the properties are proved about those functions:
  - the classifier loop;
  - the two nested loops of the splitter;
  - `extractJson`, which reassigns `text`;
  - the `for` loops of the two reducers and their `let` accumulators;
  - the `new Set` spread;
  - the merge loop;
  - the three nested loops of `validate_workflow`.
- **The `map`/`filter`/`reduce` chains, the predicates and the builders are functions.**
- **`JSON.parse` and `JSON.stringify` are parameters.**
  - `parse: string -> Option<Json>`, where `None` means the call threw.
  - `stringify: Json -> string`.
- **`Number(...)` returns `JsNum = Num(int) | NaN`.**
- **Python `assert` statements become a `Verdict`:** `Valid`, or the first failed assertion with the node it names.

Where the repository's description and its code disagree, the model follows the code. The description calls `Bill_of_Lading.pdf` a bill. The code labels it `unknown`: `\b` treats `_` as a word character, so "bill" is not a whole word there. `Classify.UnderscoreJoinsWords` proves the code's behaviour.

## Model

| member | source | states |
|---|---|---|
| Classify.ClassifyAttachments | generate_workflow.py:191-221 | one output item per input item, in input order; each keeps the raw (not lower-cased) filename `filename \|\| name \|\| ''`, carries the label of that filename, and takes the email fields with their `\|\|` fallbacks |
| Classify.LabelFilename | generate_workflow.py:195-208 | the chain of `let attachmentType` assignments computes the label `Classify` gives |
| Classify.Classify | generate_workflow.py:195-208 | definition: the first-match-wins rule chain on the lower-cased filename |
| Classify.HasExt | generate_workflow.py:183-185 | definition: `hasExt`, a case-insensitive suffix test |
| Classify.ContainsWord | generate_workflow.py:187-189 | definition: `containsWord`, the `\b`-bounded case-insensitive search |
| Classify.RawFilename | generate_workflow.py:194 | definition: `item.filename \|\| item.name \|\| ''` |
| Classify.ClassifyOne | generate_workflow.py:194-218 | definition: the labelled item pushed for one input item |
| Classify.WordAt | generate_workflow.py:188 | definition: `\bword\b` with flag `i` matching at one position |
| Classify.MatchFrom | generate_workflow.py:188 | definition: the scan `RegExp.prototype.test` makes over the start positions from i on |
| Classify.MatchFromIff | generate_workflow.py:187-189 | the regular-expression search from position i succeeds iff the keyword occurs as a whole word at some position from i on |
| Classify.ContainsWordIff | generate_workflow.py:187-189 | `containsWord` holds iff the keyword occurs, ignoring case, with the name's edge or a non-`[A-Za-z0-9_]` character on each side |
| Classify.WholeWordIsSubstring | generate_workflow.py:187-189 | a matched keyword is a substring of the lower-cased name |
| Classify.SplitAtNonWordChar | generate_workflow.py:187-189 | a keyword never matches across a non-word character: a name split at one contains the word iff one of the two parts does |
| Classify.WordRunMatchesOnlyWhole | generate_workflow.py:187-189 | inside a run of word characters a keyword matches only the whole run (so "mobile" never contains the word "bil") |
| Classify.ShortRunHasNoWord | generate_workflow.py:187-189 | a word run whose length differs from the keyword's never contains it |
| Classify.KeywordOfStem | generate_workflow.py:187-189 | in "stem.ext" with a one-word stem and extension, a keyword matches iff it is the whole stem |
| Classify.SingleWordPdf | generate_workflow.py:199-208 | a one-word stem plus ".pdf" is a bill iff the stem is "bill" or "bol" in some case, and is unknown otherwise |
| Classify.SingleWordXlsx | generate_workflow.py:199-208 | a one-word stem plus ".xlsx" is a commercial invoice for "ci", a packing list for "pkl", "pack" or "packing", and unknown otherwise, including "bill" and "packing_list" |
| Classify.LongWordPdf | generate_workflow.py:187-200 | a stem of more than four word characters plus ".pdf" is unknown: it is too long to be either bill keyword |
| Classify.LongerWordsAreNotBills | generate_workflow.py:199-200 | "mobile.pdf" and "responsible.pdf" are unknown |
| Classify.UnderscoreJoinsWords | generate_workflow.py:187-200 | "bill_of_lading.pdf", "Bill_of_Lading.pdf" and "responsible_report.pdf" are unknown, because underscore is a word character |
| Classify.UnderscorePackingList | generate_workflow.py:203-208 | "packing_list.xlsx" is unknown: "packing_list" is one word |
| Classify.UpperCaseNamesClassify | generate_workflow.py:195-208 | "PKL.XLSX" is a packing list: keywords and extensions are compared without case |
| Classify.BillSpreadsheetIsUnknown | generate_workflow.py:199-208 | "bill.xlsx" is unknown: the bill rule needs ".pdf" |
| Classify.HyphenSeparatesWords | generate_workflow.py:187-200 | "bill-of-lading.pdf" is a bill |
| Classify.ExtensionsExclusive | generate_workflow.py:183-185 | no name ends in both ".pdf" and ".xlsx" |
| Classify.RulePriority | generate_workflow.py:197-208 | the first-match-wins chain as an if-and-only-if per label: bill iff (bill or bol) and .pdf; invoice iff ci and .xlsx; packing list iff not ci, .xlsx, and one of pkl/pack/packing |
| Classify.LabelFixesExtension | generate_workflow.py:197-208 | a bill ends in ".pdf" and an invoice or packing list ends in ".xlsx", ignoring case |
| Classify.InvoiceRuleComesFirst | generate_workflow.py:199-208 | "ci pkl.xlsx" matches two rules and is a commercial invoice |
| Classify.ClassifyIgnoresCase | generate_workflow.py:195 | upper-casing a filename never changes its label |
| Classify.BranchOf | generate_workflow.py:257-320 | definition: where an item with a given label ends up, the IF node first and then the Filter node |
| Classify.OnlyBillsAndPackingListsAreRouted | generate_workflow.py:257-320 | the case-sensitive test for "bill" sends exactly bills to output 0; of the rest, the case-insensitive filter keeps exactly packing lists; invoices and unknown files are dropped |
| Classify.RouteByType | generate_workflow.py:257-288 | definition: the output of "Route by Type", 0 for the case-sensitive label "bill" and 1 otherwise |
| Classify.FilterPklOnly | generate_workflow.py:290-320 | definition: the case-insensitive test of "Filter PKL Only" for "packaging_list" |
| Routing.RouteEntry | generate_workflow.py:716-721 | in the generated table, output 0 of "Route by Type" leads to "PDF to Text" and output 1 to "Filter PKL Only" |
| Routing.FilterEntry | generate_workflow.py:744-746 | in the generated table, "Filter PKL Only" leads to "Read XLSX" |
| Routing.RouteByTypeConnections | generate_workflow.py:716-721 | the table's entry for "Route by Type" has one `main` list with two outputs: "PDF to Text", then "Filter PKL Only" |
| Routing.FilterConnections | generate_workflow.py:744-746 | the table's entry for "Filter PKL Only" has one `main` output, to "Read XLSX" |
| Routing.BranchesFollowTable | generate_workflow.py:257-320 | a labelled item leaves "Route by Type" towards "PDF to Text" iff it is a bill, and towards "Filter PKL Only" otherwise; the filter keeps exactly the packing lists and hands them to "Read XLSX" |
| JsString.LowerOfUpper | generate_workflow.py:195 | lower-casing forgets the case a string was written in, and is idempotent |
| JsString.Trim | generate_workflow.py:421 | `trim` keeps exactly the part of the text between its leading and trailing white space |
| JsString.TrimDropsTrailingSpaces | generate_workflow.py:421 | white space after a text that neither starts nor ends with white space is exactly what `trim` removes |
| JsString.LowerAscii | generate_workflow.py:184-195 | definition: `toLowerCase`, restricted to the ASCII letters |
| JsString.TrimIdempotent | generate_workflow.py:424 | trimming twice is trimming once, so `text.trim().startsWith('{')` sees the already trimmed text |
| JsString.IndexOf | generate_workflow.py:425 | `indexOf(c)` is -1 iff `c` is absent, and otherwise the first position of `c` |
| JsString.LastIndexOf | generate_workflow.py:426 | `lastIndexOf(c)` is -1 iff `c` is absent, and otherwise the last position of `c` |
| ExtractJson.FirstTicks | generate_workflow.py:421 | the lazy `[\s\S]*?` stops at the first three backticks after the opening fence |
| ExtractJson.StripFences | generate_workflow.py:421 | definition: the fence removal of both `extractJson` forms, one rule per form (see FenceRulesAgree for line 556) |
| ExtractJson.RemoveMarkers | generate_workflow.py:556 | definition: the inner `m.replace(/```json\|```/gi, '')`, deleting every marker from left to right |
| ExtractJson.RemoveMarkersOfBody | generate_workflow.py:556 | deleting the markers of a block whose body holds no three backticks leaves the body |
| ExtractJson.FenceRulesAgree | generate_workflow.py:556 | the packing-list node's fence removal (markers deleted inside each block) equals the container node's (each block replaced by `$1`) on every text |
| ExtractJson.UnfencedTextUnchanged | generate_workflow.py:421 | text without backticks passes the fence removal unchanged |
| ExtractJson.FencedBlockUnwrapped | generate_workflow.py:421 | a ```json block between backtick-free prose is replaced by its body |
| ExtractJson.ProseCopied | generate_workflow.py:421 | backtick-free prose in front of the text is copied through the fence removal unchanged |
| ExtractJson.Cleaned | generate_workflow.py:421 | definition: the fence removal followed by `trim`, as also at line 556 |
| ExtractJson.SliceObject | generate_workflow.py:424-430 | the text reaching the parser is the text itself, or a slice that starts with "{" and ends with "}" |
| ExtractJson.SliceObjectCuts | generate_workflow.py:424-430 | text that trims to a leading "{" is not cut; otherwise, when the last "}" follows the first "{", exactly the slice between them inclusive is kept; without such a pair nothing is cut |
| ExtractJson.SliceAtBraces | generate_workflow.py:424-430 | the `if` block that reassigns `text` computes that slice |
| ExtractJson.Candidate | generate_workflow.py:421-430 | definition: the text handed to `JSON.parse` |
| ExtractJson.Extracted | generate_workflow.py:417-437 | definition: the value `extractJson` returns |
| ExtractJson.ExtractJson | generate_workflow.py:417-437 | the step-by-step `extractJson` returns the extracted value: `null` for empty text, the parser's value for the cleaned candidate, `null` when the parser throws |
| ExtractJson.ExtractedNeverThrows | generate_workflow.py:417-437 | `extractJson` never fails: empty text and a rejected candidate give `null`, and otherwise the result is what the parser returned for the candidate |
| ExtractJson.ProseAroundObject | generate_workflow.py:424-430 | with no brace in the prose before an object or after it, the prose on both sides is cut away |
| ExtractJson.LeadingObjectNotSliced | generate_workflow.py:424 | a cleaned reply that starts with "{" reaches the parser whole, trailing prose included |
| ExtractJson.PaddedBlockUnwrapped | generate_workflow.py:421 | a ```json block holding brace-free text, an object and then white space is replaced by that body |
| ExtractJson.PaddedObjectCleaned | generate_workflow.py:421 | after the fence removal and `trim`, such a reply is the prose, the text before the object and the object: the trailing white space is gone |
| ExtractJson.FencedObjectAfterProse | generate_workflow.py:421-430 | a fenced object after a line of prose reaches the parser as exactly that object, also when brace-free text precedes it inside the fence and white space such as newlines follows it |
| ExtractJson.ExtractorsAgree | generate_workflow.py:554-569 | the two near-duplicate `extractJson` definitions return the same value on every reply |
| ExtractJson.ReplyText | generate_workflow.py:440 | definition: `item.json.text \|\| item.json.response \|\| ''`, also at line 572 |
| ExtractJson.ParsedReplies | generate_workflow.py:439-441 | one extracted value per reply, in order, from `text \|\| response \|\| ''` |
| ExtractJson.ParsedReplyAt | generate_workflow.py:439-441 | the value for reply k is `extractJson` of that reply's `text \|\| response \|\| ''` |
| ParseContainers.ContainersOf | generate_workflow.py:442-446 | a reply contributes elements only when it is truthy and its `container_numbers` is an array; and a truthy reply whose `container_numbers` is an array contributes exactly that array |
| ParseContainers.AbsorbReply | generate_workflow.py:442-446 | one loop pass appends what the reply contributes |
| ParseContainers.Collected | generate_workflow.py:439-447 | definition: `allContainers` after the loop |
| ParseContainers.Dedup | generate_workflow.py:452 | definition: `[...new Set(xs)]` |
| ParseContainers.ContainerRecord | generate_workflow.py:450-454 | definition: the node's single output item `{container_numbers}` |
| ParseContainers.ParseContainerResponse | generate_workflow.py:439-454 | the output record is `{container_numbers}` holding the deduplicated concatenation of the replies' contributions |
| ParseContainers.SetSpread | generate_workflow.py:452 | the one-pass `[...new Set(xs)]` keeps each primitive value at its first occurrence, and every array or object |
| ParseContainers.DedupMembers | generate_workflow.py:452 | deduplication keeps exactly the values of its input |
| ParseContainers.DedupDistinct | generate_workflow.py:452 | the deduplicated list holds no two `Set`-equal values |
| ParseContainers.DedupOfDistinct | generate_workflow.py:452 | a list already free of duplicates is unchanged |
| ParseContainers.DedupIdempotent | generate_workflow.py:452 | deduplicating twice is deduplicating once |
| ParseContainers.DedupPrefix | generate_workflow.py:452 | first-occurrence order: later elements never change the deduplicated front |
| ParseContainers.DedupAbsorbs | generate_workflow.py:452 | primitive values already present add nothing |
| ParseContainers.OutputIsTheSetOfContainers | generate_workflow.py:439-454 | the output has no duplicates and holds a value iff some parsed reply's array-typed `container_numbers` holds it |
| ParseContainers.LaterRepliesOnlyAppend | generate_workflow.py:439-454 | the output keeps reply order: later replies never move an earlier value |
| ParseContainers.SilentReplyChangesNothing | generate_workflow.py:442-446 | a null, unparseable, falsy or non-array reply contributes nothing |
| ParseContainers.RepeatedReplyChangesNothing | generate_workflow.py:439-454 | repeating a reply whose container numbers are primitive values leaves the output unchanged |
| PklGrid.NormalizeGrid | generate_workflow.py:492-494 | at most one row per item, and every kept row is a non-empty array |
| PklGrid.GridMembers | generate_workflow.py:492-494 | a value is kept iff it is a non-empty array and is some item's `row \|\| []` |
| PklGrid.GridAppend | generate_workflow.py:492-494 | rows keep their order: the grid of a concatenation is the concatenation of the grids |
| PklGrid.GridOfOneItem | generate_workflow.py:492-494 | one item gives its row when that row is a non-empty array, and nothing otherwise |
| PklGrid.DroppedRows | generate_workflow.py:492-494 | an item with a missing, falsy, empty or non-array row contributes nothing |
| PklGrid.FullGridKept | generate_workflow.py:492-494 | when every item carries a non-empty row array, every row is kept, position by position |
| PklGrid.GridOutput | generate_workflow.py:492-501 | definition: the node's one output item, `{rows, chatInput: JSON.stringify(rows)}` |
| ParsePkl.ItemsOf | generate_workflow.py:574-578 | a reply contributes items only when it is truthy and its `items` is an array; and a truthy reply whose `items` is an array contributes exactly that array |
| ParsePkl.NumberField | generate_workflow.py:579-584 | a reply writes a number field iff it is truthy and has that member with a non-null value, and what it writes is `Number` of that member |
| ParsePkl.BoolField | generate_workflow.py:585-587 | a reply writes `llmChecksumOk` iff it is truthy and its `checksum_ok` is a boolean, and what it writes is that boolean |
| ParsePkl.NumberFields | generate_workflow.py:579-584 | one write per reply, in order |
| ParsePkl.BoolFields | generate_workflow.py:585-587 | one write per reply, in order |
| ParsePkl.QtyOf | generate_workflow.py:592 | definition: `Number(it.qty_expected) \|\| 0` on one item |
| ParsePkl.QtySum | generate_workflow.py:591-594 | definition: the corrected recomputed sum (see Findings) |
| ParsePkl.Checksum | generate_workflow.py:596-599 | definition: `checksum_ok` from the sum and the total |
| ParsePkl.Summary | generate_workflow.py:571-609 | definition: the node's output record, computed from the parsed replies |
| ParsePkl.AbsorbReply | generate_workflow.py:571-588 | one loop pass appends the reply's items, and each accumulator takes what the reply writes to it, keeping its value when nothing is written |
| ParsePkl.AppendItems | generate_workflow.py:576-578 | for a truthy reply, `allItems` grows by exactly the reply's items |
| ParsePkl.AssignNumber | generate_workflow.py:579-584 | for a truthy reply, a number accumulator takes `Number` of the member when it is present and non-null, and keeps its value otherwise |
| ParsePkl.AssignBool | generate_workflow.py:585-587 | for a truthy reply, `llmChecksumOk` takes `checksum_ok` when it is a boolean, and keeps its value otherwise |
| ParsePkl.ParsePklResponse | generate_workflow.py:549-610 | the corrected node's output (see Findings): the summary of the parsed replies, that is items, recomputed sum, last total, checksum, and the model's own fields; when no item is null, its sum is also what the reduce as written computes |
| ParsePkl.Items | generate_workflow.py:576-578 | definition: `allItems` after the loop |
| ParsePkl.ItemsAppend | generate_workflow.py:576-578 | `pkl_items` is the in-order concatenation of the replies' item arrays, and its length is the sum of their lengths |
| ParsePkl.ItemsOfOneReply | generate_workflow.py:576-578 | one reply contributes exactly its item array |
| ParsePkl.QtySumAppend | generate_workflow.py:591-594 | the recomputed sum adds up over any split of the items |
| ParsePkl.NonNumericQuantityCountsZero | generate_workflow.py:591-594 | an item whose quantity is NaN stays in the list and adds 0 |
| ParsePkl.LaterNullKeepsTotal | generate_workflow.py:579-581 | a reply with no total, or a null one, leaves `doc_total_qty` as it was |
| ParsePkl.TotalIsLastWritten | generate_workflow.py:579-581 | `doc_total_qty` is null iff no reply writes a total, and otherwise is the total of the last reply that writes one |
| ParsePkl.LastNumberField | generate_workflow.py:579-584 | for any number field: the accumulator ends null iff no reply writes the field, and otherwise holds the write of the last reply that writes it |
| ParsePkl.ChecksumRule | generate_workflow.py:596-599 | `checksum_ok` is null unless the total is finite, true iff the total equals the sum, and false iff it is finite and differs |
| ParsePkl.LlmFieldsIgnored | generate_workflow.py:571-609 | replies that agree on `items` and the total give the same `pkl_items`, `qty_sum`, `doc_total_qty` and `checksum_ok`, whatever the model reports as its own sum or checksum |
| ParsePkl.OtherMembersIgnored | generate_workflow.py:576-581 | members other than `items` and `doc_total_qty_from_sheet` change neither what a reply contributes nor its total |
| ParsePkl.OneReplyTotal | generate_workflow.py:579-581 | one reply leaves `doc_total_qty` null when its total is null, and otherwise `Number` of that total |
| ParsePkl.OneReplySummary | generate_workflow.py:571-606 | for one reply: its items, their sum, and its total unless that is null |
| ParsePkl.TwoLineSummary | generate_workflow.py:571-606 | for one reply with two lines: both lines in order, the sum of their quantities, the total unless it is null, and the checksum of the two |
| ParsePkl.NumericLinesSummary | generate_workflow.py:591-599 | two numeric lines a and b and a numeric total t: `qty_sum` is a + b and `checksum_ok` says whether a + b equals t |
| ParsePkl.QtySumOfTwo | generate_workflow.py:591-594 | two items sum to the sum of their quantities |
| ParsePkl.MatchingTotalChecksOut | generate_workflow.py:596-599 | two numeric lines against a stated total equal to their sum (A:50, B:63 and 113, say): `qty_sum` is that total and `checksum_ok` is true |
| ParsePkl.MismatchedTotalFails | generate_workflow.py:596-599 | the same lines against any other total: `qty_sum` is still their sum and `checksum_ok` is false |
| ParsePkl.MissingTotalLeavesChecksumNull | generate_workflow.py:596-606 | without a total, `checksum_ok` and `doc_total_qty` are null and `qty_sum` is still computed |
| ParsePkl.NotApplicableQuantity | generate_workflow.py:591-594 | a quantity "N/A" adds 0 and its line stays in `pkl_items` |
| ParsePkl.NonNumericQuantity | generate_workflow.py:591-594 | any string quantity that `Number` reads as NaN adds 0, and its line stays in `pkl_items` |
| JsNumber.NotApplicableIsNaN | generate_workflow.py:592 | `Number("N/A")` is NaN |
| JsNumber.DigitsNumber | generate_workflow.py:580 | `Number` of a string of decimal digits is the value they denote |
| JsNumber.NegatedDigitsNumber | generate_workflow.py:580 | `Number` of a minus sign before decimal digits is the negated value |
| JsNumber.StringOfIntRoundTrip | generate_workflow.py:580 | `Number(String(n))` is n for every integer |
| JsNumber.SingletonArrayNumber | generate_workflow.py:580 | a one-element array converts like its element, for numbers and strings |
| JsNumber.StringToNumber | generate_workflow.py:580 | definition: `Number(s)` for a string, on trimmed optionally signed decimal integers |
| JsNumber.ValueToNumber | generate_workflow.py:580 | definition: `Number(v)` for a parsed JSON value |
| ParsePkl.AsWrittenFailsOnNull | generate_workflow.py:591-594 | the reduce as written throws iff some item is null, and otherwise agrees with the corrected sum |
| ParsePkl.QtySumAsWritten | generate_workflow.py:591-594 | definition: the reduce as written, `None` where it throws |
| ParsePkl.NullItemCounterexample | generate_workflow.py:576-594 | for the reply `{"items": [null], "doc_total_qty_from_sheet": null}` the items list is `[null]`, the reduce as written throws on it, and the corrected sum counts the null as 0 |
| MergeResults.JsonOrEmpty | generate_workflow.py:624 | definition: `item.json \|\| {}` |
| MergeResults.ArrayField | generate_workflow.py:624 | an input writes an accumulator iff its `json \|\| {}` has that member as an array, and what it writes is that array |
| MergeResults.ArrayFields | generate_workflow.py:624 | one write per input, in order |
| MergeResults.MergedStep | generate_workflow.py:624 | one more input: its array if it has one, else the previous value |
| MergeResults.Merged | generate_workflow.py:624 | definition: an accumulator's final value |
| MergeResults.MergedRecord | generate_workflow.py:624 | definition: the merge node's output record |
| MergeResults.MergeResults | generate_workflow.py:624 | the merge loop outputs `{container_numbers, pkl_items}`, each the accumulator's final value |
| MergeResults.MergedIsLastArray | generate_workflow.py:624 | each merged array is `[]` when no input has one, and otherwise the array of the last input that has one |
| MergeResults.LaterArrayOverwrites | generate_workflow.py:624 | a later array replaces what came before; nothing is unioned |
| MergeResults.FinalRecordMembers | generate_workflow.py:636-651 | the final record has a member iff it is `container_numbers` or `sku_items`, so the checksum fields never reach it |
| MergeResults.FormatMerged | generate_workflow.py:641-648 | the formatted merge result carries the merged `container_numbers`, and `sku_items` equal to the merged `pkl_items` |
| MergeResults.FormatOfMerged | generate_workflow.py:636-651 | from a record holding `container_numbers` and `pkl_items`, "Format Output" writes the same `container_numbers`, and `sku_items` equal to `pkl_items` |
| MergeResults.OrEmptyArray | generate_workflow.py:642-648 | definition: `value \|\| []` in the two assignments |
| MergeResults.FormatOutput | generate_workflow.py:636-651 | definition: the record "Format Output" writes |
| SplitAttachments.Attachments | generate_workflow.py:133 | the attachment properties are exactly the binary properties whose key starts with `attachment_` |
| SplitAttachments.LastSegment | generate_workflow.py:155 | `split('.').pop()` is the longest dot-free suffix: it is preceded by a dot when shorter than the name, and is the whole name when there is no dot |
| SplitAttachments.Extension | generate_workflow.py:155 | definition: the `fileExtension` member of a split item |
| SplitAttachments.Expand | generate_workflow.py:145-160 | definition: the item pushed for one attachment |
| SplitAttachments.Split | generate_workflow.py:128-165 | definition: the node's output for all input items |
| SplitAttachments.HasData | generate_workflow.py:136 | definition: `binary.data` is truthy |
| SplitAttachments.PassesThrough | generate_workflow.py:136 | definition: `attachmentKeys.length === 0 && binary.data` |
| SplitAttachments.ExpandAll | generate_workflow.py:143-161 | definition: the items the inner loop pushes, one `Expand` per attachment in key order |
| SplitAttachments.SplitItem | generate_workflow.py:135-161 | an item with no attachment but a `data` property passes through unchanged; otherwise there is one item per attachment, in key order, keeping the input's `json` and holding just that attachment as `data` under its key |
| SplitAttachments.SplitAll | generate_workflow.py:128-165 | the two nested loops output the concatenation of what each input item turns into |
| SplitAttachments.PushAttachments | generate_workflow.py:143-161 | the inner loop appends one item per attachment, in key order, each the item `Expand` builds for it |
| SplitAttachments.FallbackFilenameIsKey | generate_workflow.py:145-153 | with no `fileName` or `filename`, the fallback `attachment_${attachmentNum}` is the key itself |
| SplitAttachments.IndexOfNumberedKey | generate_workflow.py:145-152 | `attachment_<n>` with n in decimal gets `attachmentIndex` n |
| JsString.IndexOfString | generate_workflow.py:145 | `indexOf` for a string is -1 or the first position from `from` on where the pattern occurs |
| JsString.ReplaceFirst | generate_workflow.py:145 | definition: `replace` with a string pattern, which replaces only the first occurrence |
| JsString.ReplacePrefix | generate_workflow.py:145 | replacing a prefix by nothing leaves what follows it |
| JsNumber.ParseIntReadsDecimal | generate_workflow.py:152 | `parseInt` reads a natural number's decimal form back, also when a non-digit other than `x`/`X` follows |
| JsNumber.ParseIntOfDigits | generate_workflow.py:152 | `parseInt` of a digit run without a leading zero, then a non-digit, is the run's value |
| JsNumber.ParseIntOfHex | generate_workflow.py:152 | a `0x` or `0X` prefix switches to base 16 and the hexadecimal digits after it are read up to the first other character (so "0x1f" reads as 31) |
| JsNumber.ParseIntOfLetters | generate_workflow.py:152 | text that starts with something other than white space, a sign or a digit is NaN |
| JsNumber.ParseInt | generate_workflow.py:152 | definition: `parseInt` with a sign, a `0x` prefix and digits read up to the first other character |
| SplitAttachments.ExtensionRule | generate_workflow.py:155 | without its own extension, an attachment named `x.y.ext`, with no dot in ext, gets `ext`; one without a name gets "" |
| SplitAttachments.EveryAttachmentSplitOut | generate_workflow.py:143-161 | every `attachment_` property comes out as an item of its own, keeping the `json` and holding that attachment as `data` |
| SplitAttachments.DataOnlyPassesThrough | generate_workflow.py:136-141 | an item whose only binary property is `data` passes through |
| SplitAttachments.OutputPassesThrough | generate_workflow.py:136-160 | every item the node pushes passes through a second split unchanged |
| SplitAttachments.SplitIdempotent | generate_workflow.py:135-161 | splitting the output again changes nothing |
| Workflow.FirstUnknownDest | generate_workflow.py:668-669 | no result iff every target names a node, and otherwise an unknown target of the list |
| Workflow.FirstUnknownOutput | generate_workflow.py:667-669 | the same over every output's targets |
| Workflow.CheckFrom | generate_workflow.py:662-669 | the verdict is valid iff every source and every `main` target names a node; a failure names an unknown source or an unknown `main` target |
| Workflow.ValidateWorkflow | generate_workflow.py:662-669 | the three nested loops with early exits return that verdict |
| Workflow.OnlySourcesAndMainCount | generate_workflow.py:665-669 | tables that agree on their sources and `main` lists get the same verdict |
| Workflow.LanguageModelTargetsUnchecked | generate_workflow.py:667 | adding `ai_languageModel` targets, to any node whatever, never changes the verdict |
| Workflow.MainOutputs | generate_workflow.py:667 | definition: `conn.get("main", [])` |
| Workflow.CreatedWorkflow | generate_workflow.py:671-786 | definition: the nodes and connection table `create_workflow` builds |
| Workflow.CreatedSources | generate_workflow.py:703-786 | the generated table lists as sources every node but the last, in node-list order |
| Workflow.CreatedTargets | generate_workflow.py:703-786 | every `main` target in the generated table is a listed node |
| Workflow.CreatedTargetsFront | generate_workflow.py:704-721 | the entries from "Gmail Trigger" to "Route by Type" lead only to listed nodes |
| Workflow.CreatedTargetsModels | generate_workflow.py:722-731 | the two chat-model entries have no `main` list at all (their only list is `ai_languageModel`), so they have no `main` targets |
| Workflow.CreatedTargetsBill | generate_workflow.py:732-743 | the entries from "PDF to Text" to "Parse Container Response" lead only to listed nodes |
| Workflow.CreatedTargetsBack | generate_workflow.py:744-761 | the entries from "Filter PKL Only" to "Merge Results" lead only to listed nodes |
| Workflow.CreatedWorkflowIsValid | generate_workflow.py:703-786 | the workflow `create_workflow` builds passes `validate_workflow` |

## Left out

- The Gmail trigger, its OAuth credentials and polling are external I/O. The model starts from the items the trigger yields, with their binary properties named `attachment_<n>`.
- The OpenRouter chat-model and LLM-chain nodes and their prompt strings are left out. Their network call is foreign code, and the prompts are constants. The reducers take the model's replies as input.
- The "PDF to Text" and "Read XLSX" nodes are external decoders. In the table they appear only as node names.
- The "Prepare Bill Data" node sets the LLM chain's `chatInput`, and resets `text`, to the item's `text || ''`. That is prompt preparation for the left-out chain, so the node appears only as an entry in the table.
- The "Prepare Attachment" node passes items through unchanged, so it too appears only as an entry in the table.
- The internals of `JSON.parse` and `JSON.stringify` are left out: both are parameters. The model does not check that a parsed value matches its text.
- Floating point is left out.
  - Numbers are integers, and `NaN` stands for NaN and both infinities.
  - JsNumber.StringToNumber: reads only optionally signed decimal integers. It does not handle fractions, exponents, `0x`/`0b`/`0o` literals or the text "Infinity".
  - JsNumber.ParseInt: does not model the loss of precision above 2^53.
- JsString.LowerAscii: maps only the ASCII letters. `toLowerCase` also maps other letters, and strings are characters rather than UTF-16 code units.
- Classify.ClassifyAttachments: the output item's copy of the input's other members (`...item`) and its `binary` are not modelled. Only the five members the node writes are kept.
- ExtractJson.ReplyText: assumes a reply's `text` and `response` are strings, and `Classify.EmailMeta` types the email fields as strings. A truthy non-string `text` would make `text.replace` throw outside the `try`, aborting the node; the model has no such value.
- Classify.RawFilename: assumes `filename` and `name` are strings, as Gmail gives them. A non-string value would make `toLowerCase` or the regular expression behave differently.
- SplitAttachments.Attachments: `binary` is a list of (key, attachment) pairs and the model assumes each key occurs once, as in a JavaScript object; a list with a repeated key, which no n8n item can hold, would give one item per copy.
- SplitAttachments.Split: takes the binary properties in the order `Object.keys` lists them. The model does not reorder keys that look like integers (JavaScript lists those first), which never start with `attachment_`.
- The json spread `...json` is modelled as the input's members plus the five split members, written last.
- The IF and Filter nodes' strict type validation and their other options are left out. The model tests only the string equality they are configured with.
- How n8n schedules the two branches of "Merge Results" is orchestration and concurrency, and is left out. The merge node receives its inputs as one list in arrival order.
- UUIDs, `datetime.now()`, node positions and type versions, the settings block, and the file writing and printing in `main` are nondeterministic or I/O.
- `validate_workflow`'s asserts disappear under `python -O`. The model keeps them.
- The facts about routing hold for the table `create_workflow` builds, not for arbitrary tables.

## Findings

| source | as written | input that shows it | evidently intended | confidence | as-written member | corrected member |
|---|---|---|---|---|---|---|
| generate_workflow.py:591-594 | `allItems.reduce((acc, it) => acc + (Number(it.qty_expected) \|\| 0), 0)` reads `it.qty_expected` on every element, and that throws a TypeError when an element of a reply's `items` is `null`, aborting the node | a reply `{"items": [null]}` | a malformed line counts 0, like every other non-numeric quantity | not executed | ParsePkl.QtySumAsWritten | ParsePkl.QtySum |

`ParsePkl.AsWrittenFailsOnNull` and `ParsePkl.NullItemCounterexample` prove both halves of the finding:

- the reduce as written fails exactly on a `null` item, and otherwise agrees with the corrected sum;
- the corrected sum counts a `null` item as 0, with `QtySumAppend` and `NonNumericQuantityCountsZero` holding for it.

`ParsePkl.Summary` and the rest of the model use the corrected sum.
