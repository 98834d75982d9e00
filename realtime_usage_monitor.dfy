/** RealtimeUsageMonitor in the editor extension: it notices composers
    whose lastUpdatedAt moved forward, then takes the newest usage event the
    dashboard reports and shows it once, remembering the last three. */
module UsageMonitor {
  import opened Common

  /** The parts of a usage event that matter here; kind and owningUser are
      carried but are not part of an event's identity. */
  datatype UsageEvent = UsageEvent(timestamp: string, model: string, kind: string,
                                   owningUser: string, totalCents: real)

  /** Two events are the same when timestamp, model and totalCents agree. */
  predicate SameEvent(a: UsageEvent, b: UsageEvent) {
    a.timestamp == b.timestamp && a.model == b.model && a.totalCents == b.totalCents
  }

  /** How many recent events the monitor keeps. */
  const RecentCapacity: nat := 3

  /** recentUsageEvents.some(...same event...), scanning from the front. */
  function HoldsSameEvent(cache: seq<UsageEvent>, e: UsageEvent): (r: bool)
    ensures r <==> exists i :: 0 <= i < |cache| && SameEvent(cache[i], e)
  {
    if cache == [] then false
    else SameEvent(cache[0], e) || HoldsSameEvent(cache[1..], e)
  }

  /** The cache after unshift(e) and truncation to the first three. */
  function PushRecent(cache: seq<UsageEvent>, e: UsageEvent): (r: seq<UsageEvent>)
    ensures |r| == if |cache| + 1 > RecentCapacity then RecentCapacity else |cache| + 1
    ensures r[0] == e
    ensures r[1..] == cache[..|r| - 1]
  {
    var pushed := [e] + cache;
    if |pushed| > RecentCapacity then pushed[..RecentCapacity] else pushed
  }

  /** No two cached events are the same event. */
  ghost predicate NoRepeats(cache: seq<UsageEvent>) {
    forall i, j :: 0 <= i < j < |cache| ==> !SameEvent(cache[i], cache[j])
  }

  /** Adding only events the cache does not hold keeps it free of repeats. */
  lemma PushRecentKeepsNoRepeats(cache: seq<UsageEvent>, e: UsageEvent)
    requires NoRepeats(cache) && !HoldsSameEvent(cache, e)
    ensures NoRepeats(PushRecent(cache, e))
  {
    var r := PushRecent(cache, e);
    forall i, j | 0 <= i < j < |r| ensures !SameEvent(r[i], r[j]) {
      assert r[j] == cache[j - 1];
      if i > 0 {
        assert r[i] == cache[i - 1];
      } else {
        assert !SameEvent(cache[j - 1], e);
      }
    }
  }

  // ------------------------------------------------------------- composers

  /** A composer of the composerData snapshot; lastUpdatedAt may be absent. */
  datatype Composer = Composer(composerId: string, lastUpdatedAt: Option<real>)

  datatype ComposerData = ComposerData(allComposers: seq<Composer>)

  /** JavaScript truthiness of a lastUpdatedAt: present and not zero. */
  predicate Truthy(v: Option<real>) {
    v.Some? && v.value != 0.0
  }

  /** allComposers.find(...): the first composer with the given id. */
  function FindComposer(list: seq<Composer>, id: string): (r: Option<Composer>)
    ensures r.Some? ==> r.value in list && r.value.composerId == id
    ensures r.Some? ==> exists i :: 0 <= i < |list| && list[i] == r.value &&
                                  forall j :: 0 <= j < i ==> list[j].composerId != id
    ensures r.None? <==> forall i :: 0 <= i < |list| ==> list[i].composerId != id
  {
    if list == [] then None
    else if list[0].composerId == id then Some(list[0])
    else
      var r := FindComposer(list[1..], id);
      assert r.Some? ==> exists i :: 0 <= i < |list| && list[i] == r.value &&
                                   forall j :: 0 <= j < i ==> list[j].composerId != id by {
        if r.Some? {
          var i :| 0 <= i < |list[1..]| && list[1..][i] == r.value &&
                   forall j :: 0 <= j < i ==> list[1..][j].composerId != id;
          assert list[i + 1] == r.value;
          forall j | 0 <= j < i + 1 ensures list[j].composerId != id {
            if j > 0 { assert list[j] == list[1..][j - 1]; }
          }
        }
      }
      r
  }

  /** extension.ts lines 611-619: a composer counts as updated when it has a truthy
      lastUpdatedAt and the previous snapshot has no composer with its id, or
      that composer has no truthy lastUpdatedAt, or the new value is larger. */
  predicate IsUpdated(previous: seq<Composer>, c: Composer) {
    && Truthy(c.lastUpdatedAt)
    && var last := FindComposer(previous, c.composerId);
       || last.None?
       || !Truthy(last.value.lastUpdatedAt)
       || c.lastUpdatedAt.value > last.value.lastUpdatedAt.value
  }

  /** The updated composers of `current`, in order and with their repetitions. */
  function UpdatedComposers(previous: seq<Composer>, current: seq<Composer>): (r: seq<Composer>)
    ensures forall c :: c in r <==> c in current && IsUpdated(previous, c)
    ensures KeepsAllCopies(r, current, (x: Composer) => IsUpdated(previous, x))
    ensures IsSubsequence(r, current)
    decreases |current|
  {
    if current == [] then []
    else
      var init := current[..|current| - 1];
      var c := current[|current| - 1];
      var r0 := UpdatedComposers(previous, init);
      assert current == init + [c];
      KeepsAllCopiesStep(r0, init, c, (x: Composer) => IsUpdated(previous, x));
      if IsUpdated(previous, c) then
        SubsequenceAppendBoth(r0, init, c);
        r0 + [c]
      else
        SubsequenceExtend(r0, init, c);
        r0
  }

  class RealtimeUsageMonitor {
    var lastComposerData: Option<ComposerData>
    var recentUsageEvents: seq<UsageEvent>

    ghost predicate Valid()
      reads this
    {
      |recentUsageEvents| <= RecentCapacity && NoRepeats(recentUsageEvents)
    }

    /** `initial` is what loadInitialData read, if anything. */
    constructor (initial: Option<ComposerData>)
      ensures Valid()
      ensures lastComposerData == initial && recentUsageEvents == []
    {
      lastComposerData := initial;
      recentUsageEvents := [];
    }

    /** findUpdatedComposers: nothing without a previous snapshot, otherwise
        the updated composers of the current one, in order. */
    method FindUpdatedComposers(current: ComposerData) returns (updated: seq<Composer>)
      ensures lastComposerData.None? ==> updated == []
      ensures lastComposerData.Some? ==>
        updated == UpdatedComposers(lastComposerData.value.allComposers, current.allComposers)
    {
      if lastComposerData.None? {
        return [];
      }
      var previous := lastComposerData.value.allComposers;
      var list := current.allComposers;
      updated := [];
      var i := 0;
      while i < |list|
        invariant 0 <= i <= |list|
        invariant updated == UpdatedComposers(previous, list[..i])
      {
        var c := list[i];
        assert list[..i + 1][..i] == list[..i];
        if Truthy(c.lastUpdatedAt) {
          var last := FindComposer(previous, c.composerId);
          if last.None? || !Truthy(last.value.lastUpdatedAt) ||
             c.lastUpdatedAt.value > last.value.lastUpdatedAt.value {
            updated := updated + [c];
          }
        }
        i := i + 1;
      }
      assert list[..i] == list;
    }

    /** checkComposerDataChanges, extension.ts lines 565-597: `current` is what
        getComposerData returned.  The snapshot is replaced only when some
        composer was updated, and then the event query is scheduled. */
    method CheckComposerDataChanges(current: Option<ComposerData>) returns (queryDue: bool)
      requires Valid()
      modifies this`lastComposerData
      ensures Valid()
      ensures lastComposerData == SnapshotAfterCheck(old(lastComposerData), current)
      ensures queryDue == QueryDue(old(lastComposerData), current)
    {
      if current.None? {
        return false;
      }
      var updated := FindUpdatedComposers(current.value);
      queryDue := |updated| > 0;
      if queryDue {
        lastComposerData := current;
      }
    }

    /** isNewUsageEvent. */
    predicate IsNewUsageEvent(e: UsageEvent)
      reads this
    {
      !HoldsSameEvent(recentUsageEvents, e)
    }

    /** addToRecentEvents: unshift, then keep the first three. */
    method AddToRecentEvents(e: UsageEvent)
      modifies this`recentUsageEvents
      ensures recentUsageEvents == PushRecent(old(recentUsageEvents), e)
    {
      recentUsageEvents := [e] + recentUsageEvents;
      if |recentUsageEvents| > RecentCapacity {
        recentUsageEvents := recentUsageEvents[..RecentCapacity];
      }
    }

    /** queryLatestUsageEvents, extension.ts lines 631-661: `fetched` is None when no
        session token is configured or the request failed, otherwise the
        events newest first.  Only the newest is looked at; it is shown and
        cached when the cache does not already hold the same event. */
    method QueryLatestUsageEvents(fetched: Option<seq<UsageEvent>>) returns (alert: Option<UsageEvent>)
      requires Valid()
      modifies this`recentUsageEvents
      ensures Valid()
      ensures alert.Some? <==>
        fetched.Some? && |fetched.value| > 0 && !HoldsSameEvent(old(recentUsageEvents), fetched.value[0])
      ensures alert.Some? ==>
        alert.value == fetched.value[0] &&
        recentUsageEvents == PushRecent(old(recentUsageEvents), fetched.value[0])
      ensures alert.None? ==> recentUsageEvents == old(recentUsageEvents)
    {
      alert := None;
      if fetched.Some? && |fetched.value| > 0 {
        var latest := fetched.value[0];
        if IsNewUsageEvent(latest) {
          PushRecentKeepsNoRepeats(recentUsageEvents, latest);
          AddToRecentEvents(latest);
          alert := Some(latest);
        }
      }
    }
  }

  /** Whether a check with this read result schedules the usage-event query. */
  predicate QueryDue(last: Option<ComposerData>, current: Option<ComposerData>) {
    && current.Some? && last.Some?
    && UpdatedComposers(last.value.allComposers, current.value.allComposers) != []
  }

  /** The snapshot a check leaves behind. */
  function SnapshotAfterCheck(last: Option<ComposerData>, current: Option<ComposerData>): Option<ComposerData> {
    if QueryDue(last, current) then current else last
  }

  /** The snapshot is replaced only when at least one composer was updated, and
      then by the current read. */
  lemma SnapshotReplacedOnlyOnUpdate(last: Option<ComposerData>, current: Option<ComposerData>)
    ensures SnapshotAfterCheck(last, current) != last ==>
      current.Some? && last.Some? && SnapshotAfterCheck(last, current) == current &&
      exists c :: c in current.value.allComposers && IsUpdated(last.value.allComposers, c)
  {
    if SnapshotAfterCheck(last, current) != last {
      var r := UpdatedComposers(last.value.allComposers, current.value.allComposers);
      assert r[0] in r;
    }
  }

  /** A monitor that started without a snapshot never takes one: every check
      finds nothing updated, so change detection stays off. */
  lemma {:induction false} NoSnapshotStaysUnset(reads_: seq<Option<ComposerData>>)
    ensures ChecksFrom(None, reads_) == None
    decreases |reads_|
  {
    if reads_ != [] {
      NoSnapshotStaysUnset(reads_[..|reads_| - 1]);
    }
  }

  /** The snapshot after a series of checks. */
  function ChecksFrom(last: Option<ComposerData>, reads_: seq<Option<ComposerData>>): Option<ComposerData>
    decreases |reads_|
  {
    if reads_ == [] then last
    else SnapshotAfterCheck(ChecksFrom(last, reads_[..|reads_| - 1]), reads_[|reads_| - 1])
  }
}
