/** The composer change detector of the extension's example.ts: each tick
    compares the composers read from state.vscdb with the id to
    lastUpdatedAt map kept from the last change, and reports the new and the
    changed ones. */
module ComposerWatch {
  import opened Common

  datatype ComposerEntry = ComposerEntry(composerId: string, lastUpdatedAt: real)

  /** One changed composer: its stored value and its new one. */
  datatype Update = Update(composerId: string, from: real, to: real)

  datatype Changes = Changes(changed: bool, added: seq<ComposerEntry>, updated: seq<Update>)

  type ComposerState = map<string, real>

  /** The entries of `next` whose id `prev` does not hold, in order and with
      their repetitions (line 74 of example.ts). */
  function AddedEntries(prev: ComposerState, next: seq<ComposerEntry>): (r: seq<ComposerEntry>)
    ensures forall c :: c in r <==> c in next && c.composerId !in prev
    ensures KeepsAllCopies(r, next, (x: ComposerEntry) => x.composerId !in prev)
    ensures IsSubsequence(r, next)
    decreases |next|
  {
    if next == [] then []
    else
      var init := next[..|next| - 1];
      var c := next[|next| - 1];
      var r0 := AddedEntries(prev, init);
      assert next == init + [c];
      KeepsAllCopiesStep(r0, init, c, (x: ComposerEntry) => x.composerId !in prev);
      if c.composerId !in prev then
        SubsequenceAppendBoth(r0, init, c);
        r0 + [c]
      else
        SubsequenceExtend(r0, init, c);
        r0
  }

  /** The entry's id is stored with a different value (line 76). */
  predicate HasChanged(prev: ComposerState, c: ComposerEntry) {
    c.composerId in prev && prev[c.composerId] != c.lastUpdatedAt
  }

  /** The entries of `next` that changed, in order and with their repetitions. */
  function ChangedEntries(prev: ComposerState, next: seq<ComposerEntry>): (r: seq<ComposerEntry>)
    ensures forall c :: c in r <==> c in next && HasChanged(prev, c)
    ensures KeepsAllCopies(r, next, (x: ComposerEntry) => HasChanged(prev, x))
    ensures IsSubsequence(r, next)
    decreases |next|
  {
    if next == [] then []
    else
      var init := next[..|next| - 1];
      var c := next[|next| - 1];
      var r0 := ChangedEntries(prev, init);
      assert next == init + [c];
      KeepsAllCopiesStep(r0, init, c, (x: ComposerEntry) => HasChanged(prev, x));
      if HasChanged(prev, c) then
        SubsequenceAppendBoth(r0, init, c);
        r0 + [c]
      else
        SubsequenceExtend(r0, init, c);
        r0
  }

  /** The update record of line 77 for a changed entry. */
  function UpdateOf(prev: ComposerState, c: ComposerEntry): Update
    requires c.composerId in prev
  {
    Update(c.composerId, prev[c.composerId], c.lastUpdatedAt)
  }

  /** The updated list: one record per changed entry, in the same order. */
  function UpdatesOf(prev: ComposerState, next: seq<ComposerEntry>): (r: seq<Update>)
    ensures var changed := ChangedEntries(prev, next);
            |r| == |changed| &&
            forall i :: 0 <= i < |r| ==> HasChanged(prev, changed[i]) && r[i] == UpdateOf(prev, changed[i])
    decreases |next|
  {
    if next == [] then []
    else
      var init := next[..|next| - 1];
      var c := next[|next| - 1];
      if HasChanged(prev, c) then UpdatesOf(prev, init) + [UpdateOf(prev, c)]
      else UpdatesOf(prev, init)
  }

  /** The result detectComposerChanges must return. */
  function ChangesOf(prev: ComposerState, next: seq<ComposerEntry>): Changes {
    var added := AddedEntries(prev, next);
    var updated := UpdatesOf(prev, next);
    Changes(|added| > 0 || |updated| > 0, added, updated)
  }

  /** detectComposerChanges, lines 69-82 of example.ts.  `prev` is a value,
      so it cannot be changed. */
  method DetectComposerChanges(prev: ComposerState, next: seq<ComposerEntry>) returns (r: Changes)
    ensures r == ChangesOf(prev, next)
  {
    var added: seq<ComposerEntry> := [];
    var updated: seq<Update> := [];
    var i := 0;
    while i < |next|
      invariant 0 <= i <= |next|
      invariant added == AddedEntries(prev, next[..i])
      invariant updated == UpdatesOf(prev, next[..i])
    {
      var c := next[i];
      assert next[..i + 1][..i] == next[..i];
      if c.composerId !in prev {
        added := added + [c];
      } else if prev[c.composerId] != c.lastUpdatedAt {
        updated := updated + [Update(c.composerId, prev[c.composerId], c.lastUpdatedAt)];
      }
      i := i + 1;
    }
    assert next[..i] == next;
    var changed := |added| > 0 || |updated| > 0;
    return Changes(changed, added, updated);
  }

  /** new Map(list.map(...)): every id of the list, a repeated id keeping
      the value of its last entry. */
  function StateOf(list: seq<ComposerEntry>): (m: ComposerState)
    ensures forall id :: id in m <==> exists c :: c in list && c.composerId == id
    decreases |list|
  {
    if list == [] then map[]
    else
      var init := list[..|list| - 1];
      var c := list[|list| - 1];
      assert list == init + [c];
      StateOf(init)[c.composerId := c.lastUpdatedAt]
  }

  class ComposerWatcher {
    var composerState: ComposerState

    constructor ()
      ensures composerState == map[]
    {
      composerState := map[];
    }

    /** One tick on the filtered list read from the database: report, and
        replace the state only when something changed (lines 109-118). */
    method Tick(list: seq<ComposerEntry>) returns (changes: Changes)
      modifies this
      ensures changes == ChangesOf(old(composerState), list)
      ensures composerState == if changes.changed then StateOf(list) else old(composerState)
    {
      changes := DetectComposerChanges(composerState, list);
      if changes.changed {
        composerState := StateOf(list);
      }
    }
  }

  // ------------------------------------------------------------- properties

  /** changed holds exactly when some entry is new or some entry's value
      differs from the stored one. */
  lemma ChangedIff(prev: ComposerState, next: seq<ComposerEntry>)
    ensures ChangesOf(prev, next).changed <==>
      exists c :: c in next && (c.composerId !in prev || prev[c.composerId] != c.lastUpdatedAt)
  {
    var added := AddedEntries(prev, next);
    var changed := ChangedEntries(prev, next);
    if ChangesOf(prev, next).changed {
      if |added| > 0 {
        assert added[0] in added;
      } else {
        assert changed[0] in changed;
      }
    }
    if c :| c in next && (c.composerId !in prev || prev[c.composerId] != c.lastUpdatedAt) {
      if c.composerId !in prev {
        assert c in added;
      } else {
        assert c in changed;
      }
    }
  }

  /** An update record carries the stored value as `from` and the new value
      as `to`, which always differ, in either direction. */
  lemma UpdatesRecordBothValues(prev: ComposerState, next: seq<ComposerEntry>, u: Update)
    requires u in UpdatesOf(prev, next)
    ensures u.composerId in prev && u.from == prev[u.composerId] && u.from != u.to
    ensures ComposerEntry(u.composerId, u.to) in next
  {
    var updates := UpdatesOf(prev, next);
    var i :| 0 <= i < |updates| && updates[i] == u;
    assert ChangedEntries(prev, next)[i] in ChangedEntries(prev, next);
  }

  /** An id stored before but absent from the new list is never reported. */
  lemma VanishedNeverReported(prev: ComposerState, next: seq<ComposerEntry>, id: string)
    requires forall c :: c in next ==> c.composerId != id
    ensures forall c :: c in ChangesOf(prev, next).added ==> c.composerId != id
    ensures forall u :: u in ChangesOf(prev, next).updated ==> u.composerId != id
  {
    forall u | u in ChangesOf(prev, next).updated ensures u.composerId != id {
      UpdatesRecordBothValues(prev, next, u);
    }
  }

  /** No two entries share an id. */
  predicate DistinctIds(list: seq<ComposerEntry>) {
    forall i, j :: 0 <= i < j < |list| ==> list[i].composerId != list[j].composerId
  }

  /** With distinct ids the state built from a list stores each entry's value. */
  lemma {:induction false} StateOfStoresEach(list: seq<ComposerEntry>)
    requires DistinctIds(list)
    ensures forall c :: c in list ==> c.composerId in StateOf(list) && StateOf(list)[c.composerId] == c.lastUpdatedAt
    decreases |list|
  {
    if list != [] {
      var init := list[..|list| - 1];
      var last := list[|list| - 1];
      assert DistinctIds(init);
      StateOfStoresEach(init);
      var m0 := StateOf(init);
      assert StateOf(list) == m0[last.composerId := last.lastUpdatedAt];
      forall c | c in list
        ensures c.composerId in StateOf(list) && StateOf(list)[c.composerId] == c.lastUpdatedAt
      {
        var k :| 0 <= k < |list| && list[k] == c;
        if k < |list| - 1 {
          assert init[k] == c;
          assert c in init;
          assert list[k].composerId != list[|list| - 1].composerId;
        }
      }
    }
  }

  /** After a tick that changed the state, a second tick on the same list
      reports nothing, when the ids are distinct. */
  lemma SecondTickQuiet(list: seq<ComposerEntry>)
    requires DistinctIds(list)
    ensures !ChangesOf(StateOf(list), list).changed
  {
    StateOfStoresEach(list);
    ChangedIff(StateOf(list), list);
  }

  /** The distinct-ids condition is needed: with one id listed twice at two
      times, every tick reports it as updated. */
  lemma RepeatedIdKeepsReporting()
    ensures var list := [ComposerEntry("a", 1.0), ComposerEntry("a", 2.0)];
            ChangesOf(StateOf(list), list).changed
  {
    var list := [ComposerEntry("a", 1.0), ComposerEntry("a", 2.0)];
    assert list[..1] == [ComposerEntry("a", 1.0)];
    assert StateOf(list) == map["a" := 2.0];
    ChangedIff(StateOf(list), list);
    assert list[0] in list;
  }
}
