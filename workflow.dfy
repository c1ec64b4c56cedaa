/**
 * The Python side of the generator: the connection table `create_workflow` builds
 * and `validate_workflow`, which checks that every connection it lists starts at
 * and, under `main`, leads to a node the workflow defines.
 */
module Workflow {
  import opened Wrappers
  import opened Seqs

  /** One connection target: `{"node": ..., "type": ..., "index": ...}`. */
  datatype Dest = Dest(node: string, kind: string, index: nat)

  /**
   * A node's entry in the connections table: for each connection type (`main`,
   * `ai_languageModel`), one list of targets per output of the node.
   */
  type Outputs = seq<(string, seq<seq<Dest>>)>

  /** The parts of a workflow the validator reads: the node names, and the connections table keyed by source node. */
  datatype Workflow = Workflow(nodeNames: seq<string>, connections: seq<(string, Outputs)>)

  /** What `validate_workflow` does: return, or fail the first assertion that does not hold, naming the node. */
  datatype Verdict = Valid | UnknownFromNode(from: string) | UnknownToNode(to: string)

  /** `conn.get("main", [])` */
  function MainOutputs(conn: Outputs): seq<seq<Dest>> {
    match Lookup(conn, "main")
    case None => []
    case Some(outputs) => outputs
  }

  /** The first target in `dests` that names no node. */
  function FirstUnknownDest(names: set<string>, dests: seq<Dest>): (r: Option<string>)
    ensures r.None? <==> forall j :: 0 <= j < |dests| ==> dests[j].node in names
    ensures r.Some? ==> r.value !in names && exists j :: 0 <= j < |dests| && dests[j].node == r.value
    decreases |dests|
  {
    if dests == [] then None
    else if dests[0].node !in names then Some(dests[0].node)
    else FirstUnknownDest(names, dests[1..])
  }

  /** The first target, output by output, that names no node. */
  function FirstUnknownOutput(names: set<string>, outputs: seq<seq<Dest>>): (r: Option<string>)
    ensures r.None? <==> forall o, j :: 0 <= o < |outputs| && 0 <= j < |outputs[o]| ==> outputs[o][j].node in names
    ensures r.Some? ==> (r.value !in names &&
                         exists o, j :: 0 <= o < |outputs| && 0 <= j < |outputs[o]| && outputs[o][j].node == r.value)
    decreases |outputs|
  {
    if outputs == [] then None
    else match FirstUnknownDest(names, outputs[0])
      case Some(d) => Some(d)
      case None =>
        var r := FirstUnknownOutput(names, outputs[1..]);
        assert forall o :: 1 <= o < |outputs| ==> outputs[1..][o - 1] == outputs[o];
        r
  }

  predicate SourcesKnown(names: set<string>, connections: seq<(string, Outputs)>) {
    forall k :: 0 <= k < |connections| ==> connections[k].0 in names
  }

  /** Every `main` target of the table names a node; targets of other connection types are not looked at. */
  predicate TargetsKnown(names: set<string>, connections: seq<(string, Outputs)>) {
    forall k, o, j :: (0 <= k < |connections| && 0 <= o < |MainOutputs(connections[k].1)| &&
                       0 <= j < |MainOutputs(connections[k].1)[o]|) ==> MainOutputs(connections[k].1)[o][j].node in names
  }

  /** A source of the table that names no node. */
  predicate UnknownSource(names: set<string>, connections: seq<(string, Outputs)>, n: string) {
    n !in names && exists k :: 0 <= k < |connections| && connections[k].0 == n
  }

  /** A `main` target of the table that names no node. */
  predicate UnknownTarget(names: set<string>, connections: seq<(string, Outputs)>, n: string) {
    n !in names &&
    exists k, o, j :: (0 <= k < |connections| && 0 <= o < |MainOutputs(connections[k].1)| &&
                       0 <= j < |MainOutputs(connections[k].1)[o]| && MainOutputs(connections[k].1)[o][j].node == n)
  }

  /**
   * The verdict on a connections table, entry by entry in table order: it holds
   * exactly when every source and every `main` target names a node, and a failure
   * names an unknown source or target of the table.
   */
  function CheckFrom(names: set<string>, connections: seq<(string, Outputs)>): (v: Verdict)
    ensures v == Valid <==> SourcesKnown(names, connections) && TargetsKnown(names, connections)
    ensures v.UnknownFromNode? ==> UnknownSource(names, connections, v.from)
    ensures v.UnknownToNode? ==> UnknownTarget(names, connections, v.to)
    decreases |connections|
  {
    if connections == [] then Valid
    else if connections[0].0 !in names then UnknownFromNode(connections[0].0)
    else match FirstUnknownOutput(names, MainOutputs(connections[0].1))
      case Some(d) => UnknownToNode(d)
      case None =>
        var v := CheckFrom(names, connections[1..]);
        assert forall k :: 1 <= k < |connections| ==> connections[1..][k - 1] == connections[k];
        v
  }

  function NodeNames(w: Workflow): set<string> {
    set k | 0 <= k < |w.nodeNames| :: w.nodeNames[k]
  }

  function Check(w: Workflow): Verdict {
    CheckFrom(NodeNames(w), w.connections)
  }

  /** `validate_workflow`: the three nested loops, stopping at the first failed assertion. */
  method ValidateWorkflow(w: Workflow) returns (v: Verdict)
    ensures v == Check(w)
  {
    var nodeNames := NodeNames(w);
    var i := 0;
    while i < |w.connections|
      invariant 0 <= i <= |w.connections|
      invariant CheckFrom(nodeNames, w.connections[i..]) == Check(w)
    {
      var (fromNode, conn) := w.connections[i];
      if fromNode !in nodeNames {
        return UnknownFromNode(fromNode);
      }
      var mainOutputs := MainOutputs(conn);
      var o := 0;
      while o < |mainOutputs|
        invariant 0 <= o <= |mainOutputs|
        invariant FirstUnknownOutput(nodeNames, mainOutputs[o..]) == FirstUnknownOutput(nodeNames, mainOutputs)
      {
        var outputs := mainOutputs[o];
        var j := 0;
        while j < |outputs|
          invariant 0 <= j <= |outputs|
          invariant FirstUnknownDest(nodeNames, outputs[j..]) == FirstUnknownDest(nodeNames, outputs)
        {
          var dest := outputs[j];
          if dest.node !in nodeNames {
            return UnknownToNode(dest.node);
          }
          assert outputs[j..][1..] == outputs[j + 1..];
          j := j + 1;
        }
        assert mainOutputs[o..][1..] == mainOutputs[o + 1..];
        o := o + 1;
      }
      assert w.connections[i..][1..] == w.connections[i + 1..];
      i := i + 1;
    }
    return Valid;
  }

  /** Tables that agree on every source and every `main` list get the same verdict, whatever their other connection types hold. */
  lemma {:induction false} OnlySourcesAndMainCount(names: set<string>, c: seq<(string, Outputs)>, c': seq<(string, Outputs)>)
    requires |c| == |c'|
    requires forall k :: 0 <= k < |c| ==> c[k].0 == c'[k].0 && MainOutputs(c[k].1) == MainOutputs(c'[k].1)
    ensures CheckFrom(names, c) == CheckFrom(names, c')
    decreases |c|
  {
    if c != [] {
      assert forall k :: 0 <= k < |c| - 1 ==> c[1..][k] == c[k + 1] && c'[1..][k] == c'[k + 1];
      OnlySourcesAndMainCount(names, c[1..], c'[1..]);
    }
  }

  /** Adding `ai_languageModel` targets to a node, whatever node they name, leaves the verdict as it was. */
  lemma LanguageModelTargetsUnchecked(w: Workflow, k: nat, targets: seq<seq<Dest>>)
    requires k < |w.connections|
    ensures Check(Workflow(w.nodeNames, w.connections[k := (w.connections[k].0, w.connections[k].1 + [("ai_languageModel", targets)])]))
         == Check(w)
  {
    var entry := w.connections[k];
    var c' := w.connections[k := (entry.0, entry.1 + [("ai_languageModel", targets)])];
    LookupSkipsOtherKeys(entry.1, [("ai_languageModel", targets)], "main");
    OnlySourcesAndMainCount(NodeNames(w), w.connections, c');
  }

  // The node names `create_workflow` uses, as its builders set them.
  const GmailTrigger := "Gmail Trigger"
  const SplitAttachmentsNode := "Split Attachments"
  const ClassifyAttachment := "Classify Attachment"
  const PrepareAttachment := "Prepare Attachment"
  const RouteByTypeNode := "Route by Type"
  const OpenRouterChatModel := "OpenRouter Chat Model"
  const OpenRouterChatModelPkl := "OpenRouter Chat Model1"
  const PdfToText := "PDF to Text"
  const PrepareBillData := "Prepare Bill Data"
  const ExtractContainerNumbers := "Extract Container Numbers"
  const ParseContainerResponse := "Parse Container Response"
  const FilterPklOnlyNode := "Filter PKL Only"
  const ReadXlsx := "Read XLSX"
  const NormalizePklGrid := "Normalize PKL Grid"
  const ExtractSkuQuantities := "Extract SKU & Quantities"
  const ParsePklResponse := "Parse PKL Response"
  const MergeResultsNode := "Merge Results"
  const FormatOutput := "Format Output"

  /** A node with one output that leads to input 0 of `node`. */
  function MainTo(node: string): Outputs {
    [("main", [[Dest(node, "main", 0)]])]
  }

  /** A chat model node whose one output feeds the language-model input of `chain`. */
  function ModelFor(chain: string): Outputs {
    [("ai_languageModel", [[Dest(chain, "ai_languageModel", 0)]])]
  }

  /** The nodes and the connections table `create_workflow` builds. */
  function CreatedWorkflow(): Workflow {
    Workflow(
      [GmailTrigger, SplitAttachmentsNode, ClassifyAttachment, PrepareAttachment, RouteByTypeNode,
       OpenRouterChatModel, OpenRouterChatModelPkl, PdfToText, PrepareBillData, ExtractContainerNumbers,
       ParseContainerResponse, FilterPklOnlyNode, ReadXlsx, NormalizePklGrid, ExtractSkuQuantities,
       ParsePklResponse, MergeResultsNode, FormatOutput],
      [(GmailTrigger, MainTo(SplitAttachmentsNode)),
       (SplitAttachmentsNode, MainTo(ClassifyAttachment)),
       (ClassifyAttachment, MainTo(PrepareAttachment)),
       (PrepareAttachment, MainTo(RouteByTypeNode)),
       (RouteByTypeNode, [("main", [[Dest(PdfToText, "main", 0)], [Dest(FilterPklOnlyNode, "main", 0)]])]),
       (OpenRouterChatModel, ModelFor(ExtractContainerNumbers)),
       (OpenRouterChatModelPkl, ModelFor(ExtractSkuQuantities)),
       (PdfToText, MainTo(PrepareBillData)),
       (PrepareBillData, MainTo(ExtractContainerNumbers)),
       (ExtractContainerNumbers, MainTo(ParseContainerResponse)),
       (ParseContainerResponse, MainTo(MergeResultsNode)),
       (FilterPklOnlyNode, MainTo(ReadXlsx)),
       (ReadXlsx, MainTo(NormalizePklGrid)),
       (NormalizePklGrid, MainTo(ExtractSkuQuantities)),
       (ExtractSkuQuantities, MainTo(ParsePklResponse)),
       (ParsePklResponse, MainTo(MergeResultsNode)),
       (MergeResultsNode, MainTo(FormatOutput))])
  }

  lemma MainOfBuilders(n: string)
    ensures MainOutputs(MainTo(n)) == [[Dest(n, "main", 0)]] && MainOutputs(ModelFor(n)) == []
  {
    assert "ai_languageModel" != "main";
  }

  /** The table lists the nodes as sources in the order of the node list, all but the last one (`Format Output`, which has no outgoing connection). */
  lemma CreatedSources()
    ensures |CreatedWorkflow().connections| == |CreatedWorkflow().nodeNames| - 1
    ensures forall k :: 0 <= k < |CreatedWorkflow().connections| ==>
      CreatedWorkflow().connections[k].0 == CreatedWorkflow().nodeNames[k]
  {
  }

  /** Every `main` target of entry `k` of the table `c` is one of `names`. */
  predicate EntryTargetsIn(c: seq<(string, Outputs)>, k: int, names: seq<string>)
    requires 0 <= k < |c|
  {
    forall o, j :: 0 <= o < |MainOutputs(c[k].1)| && 0 <= j < |MainOutputs(c[k].1)[o]| ==>
      MainOutputs(c[k].1)[o][j].node in names
  }

  /** The entries from "Gmail Trigger" to "Route by Type" lead to listed nodes. */
  lemma CreatedTargetsFront()
    ensures forall k :: 0 <= k < 5 ==> EntryTargetsIn(CreatedWorkflow().connections, k, CreatedWorkflow().nodeNames)
  {
    forall n: string ensures MainOutputs(MainTo(n)) == [[Dest(n, "main", 0)]] {
      MainOfBuilders(n);
    }
  }

  /** The two chat models have no `main` output. */
  lemma CreatedTargetsModels()
    ensures forall k :: 5 <= k < 7 ==> MainOutputs(CreatedWorkflow().connections[k].1) == []
    ensures forall k :: 5 <= k < 7 ==> EntryTargetsIn(CreatedWorkflow().connections, k, CreatedWorkflow().nodeNames)
  {
    forall n: string ensures MainOutputs(ModelFor(n)) == [] {
      MainOfBuilders(n);
    }
  }

  /** The bill path from "PDF to Text" to "Parse Container Response" leads to listed nodes. */
  lemma CreatedTargetsBill()
    ensures forall k :: 7 <= k < 11 ==> EntryTargetsIn(CreatedWorkflow().connections, k, CreatedWorkflow().nodeNames)
  {
    forall n: string ensures MainOutputs(MainTo(n)) == [[Dest(n, "main", 0)]] {
      MainOfBuilders(n);
    }
  }

  /** The packing-list path and "Merge Results" lead to listed nodes. */
  lemma CreatedTargetsBack()
    ensures forall k :: 11 <= k < |CreatedWorkflow().connections| ==>
      EntryTargetsIn(CreatedWorkflow().connections, k, CreatedWorkflow().nodeNames)
  {
    forall n: string ensures MainOutputs(MainTo(n)) == [[Dest(n, "main", 0)]] {
      MainOfBuilders(n);
    }
  }

  /** Every `main` target of the table is one of the listed nodes. */
  lemma CreatedTargets()
    ensures var c := CreatedWorkflow().connections;
            forall k, o, j :: (0 <= k < |c| && 0 <= o < |MainOutputs(c[k].1)| && 0 <= j < |MainOutputs(c[k].1)[o]|) ==>
                                MainOutputs(c[k].1)[o][j].node in CreatedWorkflow().nodeNames
  {
    CreatedTargetsFront();
    CreatedTargetsModels();
    CreatedTargetsBill();
    CreatedTargetsBack();
    var c := CreatedWorkflow().connections;
    assert forall k :: 0 <= k < |c| ==> EntryTargetsIn(c, k, CreatedWorkflow().nodeNames);
  }

  /** The workflow the generator writes passes its own validation. */
  lemma CreatedWorkflowIsValid()
    ensures Check(CreatedWorkflow()) == Valid
  {
    var w := CreatedWorkflow();
    CreatedSources();
    CreatedTargets();
    assert forall k :: 0 <= k < |w.nodeNames| ==> w.nodeNames[k] in NodeNames(w);
    assert SourcesKnown(NodeNames(w), w.connections);
    assert TargetsKnown(NodeNames(w), w.connections);
  }
}
