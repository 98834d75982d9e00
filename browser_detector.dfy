/** BrowserDetector.parseBrowserOutput in the editor extension: which browser
    the default-browser query's output names.  The caller lowercases the
    output first; running the query is not modelled. */
module Browser {
  import opened Common

  datatype BrowserType = Chrome | Edge | Unknown

  /** Lines 342-346 of extension.ts: "chrome" wins, then "edge" or "msedge". */
  function ParseBrowserOutput(output: string): (r: BrowserType)
    ensures r == Chrome <==> Contains(output, "chrome")
    ensures r == Edge <==> !Contains(output, "chrome") && Contains(output, "edge")
    ensures r == Unknown <==> !Contains(output, "chrome") && !Contains(output, "edge")
  {
    MsEdgeContainsEdge(output);
    if Contains(output, "chrome") then Chrome
    else if Contains(output, "edge") || Contains(output, "msedge") then Edge
    else Unknown
  }

  /** Any text holding "msedge" holds "edge" two characters later, so the
      second test of line 344 never decides anything. */
  lemma MsEdgeContainsEdge(s: string)
    ensures Contains(s, "msedge") ==> Contains(s, "edge")
  {
    if Contains(s, "msedge") {
      var i := IndexOf(s, "msedge", 0).value;
      assert s[i + 2..i + 6] == "msedge"[2..];
      assert OccursAt(s, "edge", i + 2);
      ContainsAt(s, "edge", i + 2);
    }
  }

  /** Which store page the update-session dialog offers: Edge's for Edge,
      Chrome's for everything else. */
  datatype StorePage = EdgeAddOns | ChromeWebStore

  function ExtensionStoreFor(b: BrowserType): (p: StorePage)
    ensures p == EdgeAddOns <==> b == Edge
  {
    if b == Edge then EdgeAddOns else ChromeWebStore
  }

  /** An output naming both browsers is read as Chrome. */
  lemma ChromeTakesPrecedence(s: string)
    requires Contains(s, "chrome") && Contains(s, "edge")
    ensures ParseBrowserOutput(s) == Chrome && ExtensionStoreFor(ParseBrowserOutput(s)) == ChromeWebStore
  {
  }

  /** The store page the dialog offers for a query's output: Edge's exactly
      when the output names Edge and not Chrome. */
  lemma StoreForOutput(output: string)
    ensures ExtensionStoreFor(ParseBrowserOutput(output)) == EdgeAddOns <==>
      !Contains(output, "chrome") && Contains(output, "edge")
    ensures Contains(output, "msedge") && !Contains(output, "chrome") ==>
      ExtensionStoreFor(ParseBrowserOutput(output)) == EdgeAddOns
  {
    MsEdgeContainsEdge(output);
  }
}
