/**
 * How the routing labels meet the connection table: the output of "Route by Type"
 * an item leaves by, and where "Filter PKL Only" sends what it keeps, are the
 * nodes that begin the bill and packing-list paths.
 */
module Routing {
  import opened Wrappers
  import opened Seqs
  import opened Classify
  import opened Workflow

  /** The entry of a node in the table the generator builds. */
  function ConnectionsOf(node: string): Option<Outputs> {
    Lookup(CreatedWorkflow().connections, node)
  }

  /** The nodes the `main` output `output` of `node` leads to, in the built table. */
  function NextNodes(node: string, output: nat): seq<string> {
    match ConnectionsOf(node)
    case None => []
    case Some(conn) =>
      var outs := MainOutputs(conn);
      if output < |outs| then MapSeq((d: Dest) => d.node, outs[output]) else []
  }

  /** The table's entry for "Route by Type": two `main` outputs. */
  lemma RouteByTypeConnections()
    ensures ConnectionsOf(RouteByTypeNode) == Some([("main", [[Dest(PdfToText, "main", 0)], [Dest(FilterPklOnlyNode, "main", 0)]])])
  {
    var c := CreatedWorkflow().connections;
    assert forall k :: 4 < k < |c| ==> c[k].0 != RouteByTypeNode;
    LookupSkipsOtherKeys(c[..5], c[5..], RouteByTypeNode);
    assert c[..5] + c[5..] == c;
  }

  /** The entry of "Route by Type": output 0 to "PDF to Text", output 1 to "Filter PKL Only". */
  lemma RouteEntry()
    ensures NextNodes(RouteByTypeNode, 0) == [PdfToText]
    ensures NextNodes(RouteByTypeNode, 1) == [FilterPklOnlyNode]
  {
    RouteByTypeConnections();
  }

  /** The table's entry for "Filter PKL Only": one `main` output. */
  lemma FilterConnections()
    ensures ConnectionsOf(FilterPklOnlyNode) == Some(MainTo(ReadXlsx))
  {
    var c := CreatedWorkflow().connections;
    assert forall k :: 11 < k < |c| ==> c[k].0 != FilterPklOnlyNode;
    LookupSkipsOtherKeys(c[..12], c[12..], FilterPklOnlyNode);
    assert c[..12] + c[12..] == c;
  }

  /** The entry of "Filter PKL Only": its one output goes to "Read XLSX". */
  lemma FilterEntry()
    ensures NextNodes(FilterPklOnlyNode, 0) == [ReadXlsx]
  {
    FilterConnections();
    MainOfBuilders(ReadXlsx);
  }

  /**
   * A labelled item leaves "Route by Type" towards "PDF to Text" exactly when it is
   * a bill, and towards "Filter PKL Only" otherwise; of those the filter keeps the
   * packing lists alone and hands them to "Read XLSX". So the bill path starts at
   * the PDF decoder and the packing-list path at the spreadsheet reader.
   */
  lemma BranchesFollowTable(t: AttachmentType)
    ensures NextNodes(RouteByTypeNode, RouteByType(TypeName(t))) == (if t == Bill then [PdfToText] else [FilterPklOnlyNode])
    ensures t != Bill ==> (FilterPklOnly(TypeName(t)) <==> t == PackagingList)
    ensures NextNodes(FilterPklOnlyNode, 0) == [ReadXlsx]
  {
    RouteEntry();
    FilterEntry();
    OnlyBillsAndPackingListsAreRouted(t);
  }
}
