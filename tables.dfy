/** The three tables the usage server writes, and the meaning of each SQL
    statement it issues against them.

    cursor_user_state and cursor_user_info are keyed by email (every
    statement's key column is email); cursor_user_usage_logs is append-only.
    Times are whole seconds; the database's NOW() and the server's
    OffsetDateTime.now() are both the `now` the caller passes in. */
module Tables {
  import opened Common

  type Email = string

  /** One row of cursor_user_state. */
  datatype StateRow = StateRow(
    userId: Option<int>,
    online: bool,
    lastSeen: int,
    host: Option<string>,
    platform: Option<string>)

  /** One row of cursor_user_info. */
  datatype InfoRow = InfoRow(
    userId: Option<int>,
    createdAt: int,
    expiresAt: Option<int>,
    host: Option<string>,
    platform: Option<string>,
    updatedAt: int)

  /** One row of cursor_user_usage_logs. */
  datatype LogRow = LogRow(
    email: Email,
    userId: Option<int>,
    createdAt: int,
    expiresAt: Option<int>,
    totalLimitCents: Option<int>,
    usedCents: Option<int>,
    remainingCents: Option<int>,
    host: Option<string>,
    platform: Option<string>,
    logTime: int)

  type StateTable = map<Email, StateRow>
  type InfoTable = map<Email, InfoRow>

  /** The database the JdbcTemplate talks to. */
  class Database {
    var userState: StateTable
    var userInfo: InfoTable
    var usageLogs: seq<LogRow>

    constructor ()
      ensures userState == map[] && userInfo == map[] && usageLogs == []
    {
      userState := map[];
      userInfo := map[];
      usageLogs := [];
    }
  }

  /** Every row other than the one for `email` is the same in t and t'. */
  ghost predicate OthersUnchanged(t: StateTable, t': StateTable, email: Email) {
    forall e :: e != email ==> (e in t' <==> e in t) && (e in t ==> t'[e] == t[e])
  }

  /** INSERT INTO cursor_user_state(email,user_id,online,last_seen,host,platform)
      with online = true, ON DUPLICATE KEY UPDATE online, last_seen, host, platform.
      The stored user_id is the request's only when the row is new. */
  function UpsertOnline(t: StateTable, email: Email, userId: Option<int>,
                        host: Option<string>, platform: Option<string>, now: int): (t': StateTable)
    ensures email in t'
    ensures t'[email].online && t'[email].lastSeen == now
    ensures t'[email].host == host && t'[email].platform == platform
    ensures t'[email].userId == if email in t then t[email].userId else userId
    ensures OthersUnchanged(t, t', email)
  {
    if email in t then
      t[email := t[email].(online := true, lastSeen := now, host := host, platform := platform)]
    else
      t[email := StateRow(userId, true, now, host, platform)]
  }

  /** INSERT INTO cursor_user_state(email,user_id,online,last_seen) with
      online = false, ON DUPLICATE KEY UPDATE online, last_seen.  An existing
      row keeps its user_id, host and platform; a new row has no host or
      platform (the columns take their NULL default). */
  function UpsertOffline(t: StateTable, email: Email, userId: Option<int>, now: int): (t': StateTable)
    ensures email in t'
    ensures !t'[email].online && t'[email].lastSeen == now
    ensures email in t ==>
      t'[email].userId == t[email].userId && t'[email].host == t[email].host &&
      t'[email].platform == t[email].platform
    ensures email !in t ==>
      t'[email].userId == userId && t'[email].host.None? && t'[email].platform.None?
    ensures OthersUnchanged(t, t', email)
  {
    if email in t then
      t[email := t[email].(online := false, lastSeen := now)]
    else
      t[email := StateRow(userId, false, now, None, None)]
  }

  /** INSERT INTO cursor_user_info(...) ON DUPLICATE KEY UPDATE of every
      non-key column: whatever was stored before, the email ends up with
      exactly the row given. */
  function UpsertInfo(t: InfoTable, email: Email, userId: Option<int>, createdAt: int,
                      expiresAt: Option<int>, host: Option<string>, platform: Option<string>,
                      now: int): (t': InfoTable)
    ensures t'.Keys == t.Keys + {email}
    ensures t'[email] == InfoRow(userId, createdAt, expiresAt, host, platform, now)
    ensures forall e :: e in t && e != email ==> t'[e] == t[e]
  {
    if email in t then
      t[email := t[email].(userId := userId, createdAt := createdAt, expiresAt := expiresAt,
                           host := host, platform := platform, updatedAt := now)]
    else
      t[email := InfoRow(userId, createdAt, expiresAt, host, platform, now)]
  }

  /** UPDATE cursor_user_state SET online=0 WHERE online=1 AND last_seen < cutoff.
      Only the online flag changes, and only on rows that were online with a
      last_seen strictly before the cutoff. */
  function DemoteStale(t: StateTable, cutoff: int): (t': StateTable)
    ensures t'.Keys == t.Keys
    ensures forall e :: e in t ==>
      t'[e] == t[e].(online := t[e].online && cutoff <= t[e].lastSeen)
  {
    map e | e in t :: if t[e].online && t[e].lastSeen < cutoff then t[e].(online := false) else t[e]
  }

  // ------------------------------------------------------------- properties

  /** Sending the same heartbeat twice at the same time stores what sending it once does. */
  lemma UpsertOnlineIdempotent(t: StateTable, email: Email, userId: Option<int>,
                               host: Option<string>, platform: Option<string>, now: int)
    ensures var once := UpsertOnline(t, email, userId, host, platform, now);
            UpsertOnline(once, email, userId, host, platform, now) == once
  {
  }

  /** Sending the same offline twice at the same time stores what sending it once does. */
  lemma UpsertOfflineIdempotent(t: StateTable, email: Email, userId: Option<int>, now: int)
    ensures var once := UpsertOffline(t, email, userId, now);
            UpsertOffline(once, email, userId, now) == once
  {
  }

  /** The writes are unconditional: a heartbeat stamped before the stored
      last_seen still replaces it, so last_seen can move backwards. */
  lemma UpsertIgnoresStoredOrder(t: StateTable, email: Email, userId: Option<int>,
                                 host: Option<string>, platform: Option<string>, now: int)
    requires email in t && now < t[email].lastSeen
    ensures UpsertOnline(t, email, userId, host, platform, now)[email].lastSeen < t[email].lastSeen
    ensures UpsertOffline(t, email, userId, now)[email].lastSeen < t[email].lastSeen
  {
  }

  /** After a sweep no row is online with last_seen before the cutoff. */
  lemma DemoteStaleLeavesNoStaleOnline(t: StateTable, cutoff: int)
    ensures forall e :: e in DemoteStale(t, cutoff) ==>
      !(DemoteStale(t, cutoff)[e].online && DemoteStale(t, cutoff)[e].lastSeen < cutoff)
  {
  }

  /** The comparison is strict: a row seen exactly at the cutoff stays online. */
  lemma DemoteStaleKeepsEdge(t: StateTable, cutoff: int, e: Email)
    requires e in t && t[e].online && t[e].lastSeen == cutoff
    ensures DemoteStale(t, cutoff)[e].online
  {
  }

  /** Sweeping twice with the same cutoff is sweeping once. */
  lemma DemoteStaleIdempotent(t: StateTable, cutoff: int)
    ensures DemoteStale(DemoteStale(t, cutoff), cutoff) == DemoteStale(t, cutoff)
  {
  }

  /** A heartbeat and a sweep are single atomic statements; whichever commits
      first, a heartbeat stamped at or after the cutoff leaves the row online. */
  lemma HeartbeatSurvivesSweep(t: StateTable, email: Email, userId: Option<int>,
                               host: Option<string>, platform: Option<string>, now: int, cutoff: int)
    requires cutoff <= now
    ensures DemoteStale(UpsertOnline(t, email, userId, host, platform, now), cutoff)[email].online
    ensures UpsertOnline(DemoteStale(t, cutoff), email, userId, host, platform, now)[email].online
  {
  }

  // ----------------------------------------- interleavings of single statements

  /** One atomic statement against cursor_user_state, from any of the three writers. */
  datatype StateWrite =
    | Online(email: Email, userId: Option<int>, host: Option<string>, platform: Option<string>, now: int)
    | Offline(email: Email, userId: Option<int>, now: int)
    | Sweep(cutoff: int)

  function Apply(t: StateTable, w: StateWrite): StateTable {
    match w
    case Online(e, u, h, p, now) => UpsertOnline(t, e, u, h, p, now)
    case Offline(e, u, now) => UpsertOffline(t, e, u, now)
    case Sweep(c) => DemoteStale(t, c)
  }

  function Run(t: StateTable, ws: seq<StateWrite>): StateTable
    decreases |ws|
  {
    if ws == [] then t else Apply(Run(t, ws[..|ws| - 1]), ws[|ws| - 1])
  }

  /** The time carried by the last upsert for `email` in ws, if any. */
  function LastWriteTime(ws: seq<StateWrite>, email: Email): Option<int>
    decreases |ws|
  {
    if ws == [] then None
    else
      var w := ws[|ws| - 1];
      if !w.Sweep? && w.email == email then Some(w.now) else LastWriteTime(ws[..|ws| - 1], email)
  }

  /** Last writer wins: after any interleaving of heartbeats, offlines and
      sweeps, an email's last_seen is the time of the last upsert for it (not
      the largest such time), a sweep never moves it, and rows are never deleted. */
  lemma {:induction false} RunLastWriterWins(t: StateTable, ws: seq<StateWrite>, email: Email)
    ensures LastWriteTime(ws, email).Some? ==>
      email in Run(t, ws) && Run(t, ws)[email].lastSeen == LastWriteTime(ws, email).value
    ensures LastWriteTime(ws, email).None? ==>
      (email in Run(t, ws) <==> email in t) &&
      (email in t ==> Run(t, ws)[email].lastSeen == t[email].lastSeen)
    decreases |ws|
  {
    if ws != [] {
      RunLastWriterWins(t, ws[..|ws| - 1], email);
    }
  }
}
