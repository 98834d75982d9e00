/** The periodic job that marks silent users offline. */
module StaleSweep {
  import opened Common
  import opened Tables

  /** user.state.offlineSeconds when it is not configured. */
  const DefaultOfflineSeconds: int := 60

  /** The sweep's cutoff: `offlineSeconds` before `now`. */
  function Cutoff(now: int, offlineSeconds: int): (c: int)
    ensures c + offlineSeconds == now
  {
    now - offlineSeconds
  }

  class UserStateScheduler {
    const jdbc: Database
    const offlineSeconds: int

    /** `configured` is the user.state.offlineSeconds property, if set. */
    constructor (jdbc: Database, configured: Option<int>)
      ensures this.jdbc == jdbc
      ensures offlineSeconds == if configured.Some? then configured.value else DefaultOfflineSeconds
    {
      this.jdbc := jdbc;
      offlineSeconds := if configured.Some? then configured.value else DefaultOfflineSeconds;
    }

    /** One run of the job at time `now`: a single bulk UPDATE. */
    method MarkOfflineIfStale(now: int)
      modifies jdbc
      ensures jdbc.userState == DemoteStale(old(jdbc.userState), Cutoff(now, offlineSeconds))
      ensures jdbc.userInfo == old(jdbc.userInfo) && jdbc.usageLogs == old(jdbc.usageLogs)
    {
      var cutoff := Cutoff(now, offlineSeconds);
      jdbc.userState := DemoteStale(jdbc.userState, cutoff);
    }
  }

  /** A sweep at `now` keeps online exactly the users seen within the last
      `offlineSeconds`, the boundary included, and changes nothing else. */
  lemma SweepKeepsRecentUsers(t: StateTable, now: int, offlineSeconds: int, e: Email)
    requires e in t && t[e].online
    ensures var t' := DemoteStale(t, Cutoff(now, offlineSeconds));
            && e in t'
            && (t'[e].online <==> now - t[e].lastSeen <= offlineSeconds)
            && t'[e] == t[e].(online := t'[e].online)
  {
  }

  /** With the default setting, a user last seen exactly 60 seconds ago stays
      online and one last seen 61 seconds ago is marked offline; nothing but
      the online flag changes. */
  lemma DefaultSweepBoundary(t: StateTable, now: int, e: Email)
    requires e in t && t[e].online
    ensures var t' := DemoteStale(t, Cutoff(now, DefaultOfflineSeconds));
            && (t[e].lastSeen == now - 60 ==> t'[e].online)
            && (t[e].lastSeen == now - 61 ==> !t'[e].online)
            && t'[e].lastSeen == t[e].lastSeen && t'[e].host == t[e].host
            && t'[e].platform == t[e].platform && t'[e].userId == t[e].userId
  {
  }
}
