/** CursorDbMonitor.getComposerData in the editor extension: the workspace's
    state.vscdb is searched as text for the composer data key, then for the
    start of its JSON object, and the object is cut out by counting braces.
    The count is plain: braces inside JSON strings are counted too. */
module ComposerScan {
  import opened Common
  import UsageMonitor

  /** The key the scan looks for first. */
  const KeyPattern: string := "composer.composerData"

  /** The text that starts the JSON object, looked for at or after the key. */
  const JsonStartPattern: string := "{\"allComposers\":"

  /** How one character moves the brace count. */
  function BraceDelta(c: char): int {
    if c == '{' then 1 else if c == '}' then -1 else 0
  }

  /** The brace count after scanning all of s from zero. */
  function Depth(s: string): int
    decreases |s|
  {
    if s == [] then 0 else Depth(s[..|s| - 1]) + BraceDelta(s[|s| - 1])
  }

  /** s[start..end] is the object the scan cuts out: its braces balance and
      every shorter non-empty prefix of it is still open. */
  ghost predicate ClosesAt(s: string, start: nat, end: nat) {
    && start < end <= |s|
    && Depth(s[start..end]) == 0
    && forall k :: start < k < end ==> Depth(s[start..k]) > 0
  }

  /** No prefix of s[start..] ever closes. */
  ghost predicate NeverCloses(s: string, start: nat) {
    start < |s| && forall k :: start < k <= |s| ==> Depth(s[start..k]) > 0
  }

  /** The loop of extension.ts lines 255-274: count from `start` and stop
      at the first '}' that brings the count back to zero.  None when the
      count is not zero after the loop (line 271). */
  method ScanBalancedEnd(content: string, start: nat) returns (end: Option<nat>)
    requires start < |content| && content[start] == '{'
    ensures end.Some? ==> ClosesAt(content, start, end.value)
    ensures end.None? ==> NeverCloses(content, start)
  {
    var braceCount := 0;
    var jsonEndIndex := start;
    var i := start;
    while i < |content|
      invariant start <= i <= |content|
      invariant braceCount == Depth(content[start..i])
      invariant forall k :: start < k <= i ==> Depth(content[start..k]) > 0
      invariant start < i ==> braceCount > 0
    {
      assert content[start..i + 1][..i - start] == content[start..i];
      var c := content[i];
      if c == '{' {
        braceCount := braceCount + 1;
      } else if c == '}' {
        braceCount := braceCount - 1;
        if braceCount == 0 {
          jsonEndIndex := i + 1;
          break;
        }
      }
      i := i + 1;
    }
    if braceCount != 0 {
      return None;
    }
    return Some(jsonEndIndex);
  }

  /** Why getComposerData returns null, or the JSON text it hands to JSON.parse. */
  datatype Scan = NoKey | NoJsonStart | Unbalanced | Found(json: string)

  /** Lines 236-277 of extension.ts on the decoded file content. */
  method ExtractComposerJson(content: string) returns (r: Scan)
    ensures r == NoKey <==> !Contains(content, KeyPattern)
    ensures r == NoJsonStart <==>
      Contains(content, KeyPattern) &&
      IndexOf(content, JsonStartPattern, IndexOf(content, KeyPattern, 0).value).None?
    ensures r.Unbalanced? ==>
      var key := IndexOf(content, KeyPattern, 0).value;
      var start := IndexOf(content, JsonStartPattern, key).value;
      NeverCloses(content, start)
    ensures r.Found? ==>
      var key := IndexOf(content, KeyPattern, 0).value;
      var start := IndexOf(content, JsonStartPattern, key).value;
      exists end: nat :: ClosesAt(content, start, end) && r.json == content[start..end]
  {
    var keyIndex := IndexOf(content, KeyPattern, 0);
    if keyIndex.None? {
      return NoKey;
    }
    var jsonStartIndex := IndexOf(content, JsonStartPattern, keyIndex.value);
    if jsonStartIndex.None? {
      return NoJsonStart;
    }
    var start := jsonStartIndex.value;
    assert OccursAt(content, JsonStartPattern, start);
    assert content[start] == JsonStartPattern[0];
    var end := ScanBalancedEnd(content, start);
    if end.None? {
      return Unbalanced;
    }
    return Found(content[start..end.value]);
  }

  /** getComposerData: `parse` is JSON.parse followed by reading the object as
      ComposerData, None where it would throw.  Every failure is null. */
  method GetComposerData(content: string, parse: string -> Option<UsageMonitor.ComposerData>)
    returns (data: Option<UsageMonitor.ComposerData>)
    ensures IndexOf(content, KeyPattern, 0).None? ==> data.None?
    ensures var key := IndexOf(content, KeyPattern, 0);
            key.Some? && IndexOf(content, JsonStartPattern, key.value).None? ==> data.None?
    ensures var key := IndexOf(content, KeyPattern, 0);
            key.Some? && IndexOf(content, JsonStartPattern, key.value).Some? ==>
              var start := IndexOf(content, JsonStartPattern, key.value).value;
              && (NeverCloses(content, start) ==> data.None?)
              && forall end: nat :: ClosesAt(content, start, end) ==> data == parse(content[start..end])
    ensures data.Some? ==>
      exists start: nat, end: nat ::
        && ClosesAt(content, start, end)
        && JsonStartPattern <= content[start..end]
        && parse(content[start..end]) == data
  {
    var scan := ExtractComposerJson(content);
    if !scan.Found? {
      return None;
    }
    ghost var key := IndexOf(content, KeyPattern, 0).value;
    ghost var start := IndexOf(content, JsonStartPattern, key).value;
    ghost var end: nat :| ClosesAt(content, start, end) && scan.json == content[start..end];
    assert OccursAt(content, JsonStartPattern, start);
    SpanStartsWithPattern(content, start, end);
    forall e: nat | ClosesAt(content, start, e) ensures e == end {
      ClosesAtUnique(content, start, e, end);
    }
    assert !NeverCloses(content, start) by {
      assert Depth(content[start..end]) == 0;
    }
    data := parse(scan.json);
  }

  /** The object text found at `start` always opens with the start pattern. */
  lemma SpanStartsWithPattern(content: string, start: nat, end: nat)
    requires OccursAt(content, JsonStartPattern, start) && ClosesAt(content, start, end)
    ensures JsonStartPattern <= content[start..end]
  {
    // The pattern opens a brace it does not close, so the object is longer.
    var p := JsonStartPattern;
    assert content[start..start + |p|] == p;
    assert Depth(p) == 1 by {
      DepthOfStartPattern();
    }
    if end < start + |p| {
      assert content[start..end] == p[..end - start];
      PatternPrefixesOpen(end - start);
      assert false;
    }
    assert content[start..end][..|p|] == content[start..start + |p|];
  }

  /** The start pattern leaves one brace open. */
  lemma DepthOfStartPattern()
    ensures Depth(JsonStartPattern) == 1
  {
    var p := JsonStartPattern;
    assert p[..|p| - 1] == "{\"allComposers\"";
    PrefixDepths();
  }

  /** Every non-empty prefix of the start pattern leaves one brace open. */
  lemma PatternPrefixesOpen(n: nat)
    requires 0 < n <= |JsonStartPattern|
    ensures Depth(JsonStartPattern[..n]) == 1
  {
    PrefixDepths();
  }

  /** The start pattern holds one '{' and no other brace, at its front. */
  lemma PrefixDepths()
    ensures forall n :: 0 < n <= |JsonStartPattern| ==> Depth(JsonStartPattern[..n]) == 1
  {
    var p := JsonStartPattern;
    var n := 1;
    assert p[..1] == "{";
    assert Depth(p[..1]) == 1 by { assert p[..1][..0] == []; }
    while n < |p|
      invariant 1 <= n <= |p|
      invariant forall m :: 0 < m <= n ==> Depth(p[..m]) == 1
    {
      assert p[..n + 1][..n] == p[..n];
      assert p[n] != '{' && p[n] != '}';
      n := n + 1;
    }
  }

  // ------------------------------------------------------------- properties

  /** The cut-out object is determined: no two ends close the same start. */
  lemma ClosesAtUnique(s: string, start: nat, e1: nat, e2: nat)
    requires ClosesAt(s, start, e1) && ClosesAt(s, start, e2)
    ensures e1 == e2
  {
  }

  /** Whatever follows a closed object in the file does not change it. */
  lemma ClosesAtIgnoresSuffix(s: string, t: string, start: nat, end: nat)
    requires ClosesAt(s, start, end)
    ensures ClosesAt(s + t, start, end)
  {
    forall k | start < k <= end ensures (s + t)[start..k] == s[start..k] {
    }
  }

  /** A closed object's last character is the closing brace. */
  lemma {:induction false} ClosesAtEndsWithBrace(s: string, start: nat, end: nat)
    requires ClosesAt(s, start, end) && s[start] == '{'
    ensures s[end - 1] == '}'
  {
    // The opening brace alone leaves the count at 1, so the object is longer.
    assert Depth(s[start..start + 1]) == 1 by {
      assert s[start..start + 1][..0] == [];
    }
    assert start + 1 < end;
    var span := s[start..end];
    assert span[..|span| - 1] == s[start..end - 1];
    assert Depth(span) == Depth(span[..|span| - 1]) + BraceDelta(span[|span| - 1]);
    assert span[|span| - 1] == s[end - 1];
    assert Depth(s[start..end - 1]) > 0;
  }

  /** How many times c occurs in s. */
  function Occurrences(s: string, c: char): nat
    decreases |s|
  {
    if s == [] then 0 else Occurrences(s[..|s| - 1], c) + (if s[|s| - 1] == c then 1 else 0)
  }

  /** The count is the number of '{' less the number of '}'. */
  lemma {:induction false} DepthCountsBraces(s: string)
    ensures Depth(s) == Occurrences(s, '{') - Occurrences(s, '}')
    decreases |s|
  {
    if s != [] {
      DepthCountsBraces(s[..|s| - 1]);
    }
  }

  /** The object cut out holds as many '{' as '}'. */
  lemma ClosedSpanBalanced(s: string, start: nat, end: nat)
    requires ClosesAt(s, start, end)
    ensures Occurrences(s[start..end], '{') == Occurrences(s[start..end], '}')
  {
    DepthCountsBraces(s[start..end]);
  }
}
