/** The REST endpoints under /api/usage: log, ping and offline.

    Request bodies arrive already decoded: a JSON null or a missing field is
    None.  Timestamp text is turned into a time by a partial `parse`
    function the caller supplies (OffsetDateTime.parse); a text it does not
    accept makes the endpoint throw before anything is written.  An upsert
    whose email is null is refused by the database (the email key column is
    taken to be NOT NULL), so it throws and writes nothing. */
module UsageApi {
  import opened Common
  import opened Tables

  datatype UsageLogRequest = UsageLogRequest(
    userId: Option<int>,
    email: Option<Email>,
    createdAt: Option<string>,
    expiresAt: Option<string>,
    totalLimitCents: Option<int>,
    usedCents: Option<int>,
    remainingCents: Option<int>,
    host: Option<string>,
    platform: Option<string>)

  datatype PingRequest = PingRequest(
    userId: Option<int>,
    email: Option<Email>,
    host: Option<string>,
    platform: Option<string>)

  datatype OfflineRequest = OfflineRequest(userId: Option<int>, email: Option<Email>)

  /** How a call ends: 200 OK, or the exception that escapes the endpoint. */
  datatype Outcome = Ok | MalformedTimestamp(text: string) | MissingEmail

  /** The two times `log` stores: created_at and the nullable expires_at. */
  datatype LogTimes = LogTimes(created: int, expires: Option<int>)

  /** UsageController.java lines 37-38: a missing createdAt is `now`, a missing
      expiresAt stays null; a present one must parse, createdAt checked first. */
  function ResolveTimes(createdAt: Option<string>, expiresAt: Option<string>,
                        parse: string -> Option<int>, now: int): (r: Result<LogTimes, Outcome>)
    ensures r.Success? <==>
      (createdAt.None? || parse(createdAt.value).Some?) &&
      (expiresAt.None? || parse(expiresAt.value).Some?)
    ensures r.Success? ==>
      r.value.created == (if createdAt.None? then now else parse(createdAt.value).value)
    ensures r.Success? ==> (r.value.expires.None? <==> expiresAt.None?)
    ensures r.Success? && expiresAt.Some? ==> r.value.expires == parse(expiresAt.value)
    ensures createdAt.Some? && parse(createdAt.value).None? ==>
      r == Failure(MalformedTimestamp(createdAt.value))
    ensures r.Failure? && (createdAt.None? || parse(createdAt.value).Some?) ==>
      r == Failure(MalformedTimestamp(expiresAt.value))
  {
    var created := if createdAt.None? then Some(now) else parse(createdAt.value);
    var expires := if expiresAt.None? then Some(None) else
                     (match parse(expiresAt.value) case None => None case Some(x) => Some(Some(x)));
    if created.None? then Failure(MalformedTimestamp(createdAt.value))
    else if expires.None? then Failure(MalformedTimestamp(expiresAt.value))
    else Success(LogTimes(created.value, expires.value))
  }

  /** The endpoint's outcome: parse errors first, then the null-email refusal. */
  function LogOutcome(req: UsageLogRequest, parse: string -> Option<int>, now: int): (o: Outcome)
    ensures o == Ok <==> ResolveTimes(req.createdAt, req.expiresAt, parse, now).Success? && req.email.Some?
  {
    match ResolveTimes(req.createdAt, req.expiresAt, parse, now)
    case Failure(e) => e
    case Success(_) => if req.email.None? then MissingEmail else Ok
  }

  /** The row the second statement of `log` appends. */
  function LogRowOf(req: UsageLogRequest, email: Email, times: LogTimes, now: int): LogRow {
    LogRow(email, req.userId, times.created, times.expires, req.totalLimitCents,
           req.usedCents, req.remainingCents, req.host, req.platform, now)
  }

  class UsageController {
    const jdbc: Database

    constructor (jdbc: Database)
      ensures this.jdbc == jdbc
    {
      this.jdbc := jdbc;
    }

    /** POST /api/usage/log: upsert the info row, then append one log row. */
    method Log(req: UsageLogRequest, parse: string -> Option<int>, now: int) returns (outcome: Outcome)
      modifies jdbc
      ensures outcome == LogOutcome(req, parse, now)
      ensures jdbc.userState == old(jdbc.userState)
      ensures outcome != Ok ==>
        jdbc.userInfo == old(jdbc.userInfo) && jdbc.usageLogs == old(jdbc.usageLogs)
      ensures outcome == Ok ==>
        var times := ResolveTimes(req.createdAt, req.expiresAt, parse, now).value;
        var email := req.email.value;
        && jdbc.userInfo == UpsertInfo(old(jdbc.userInfo), email, req.userId, times.created,
                                       times.expires, req.host, req.platform, now)
        && jdbc.usageLogs == old(jdbc.usageLogs) + [LogRowOf(req, email, times, now)]
    {
      var resolved := ResolveTimes(req.createdAt, req.expiresAt, parse, now);
      if resolved.Failure? {
        return resolved.error;
      }
      var times := resolved.value;
      if req.email.None? {
        return MissingEmail;
      }
      var email := req.email.value;
      jdbc.userInfo := UpsertInfo(jdbc.userInfo, email, req.userId, times.created, times.expires,
                                  req.host, req.platform, now);
      jdbc.usageLogs := jdbc.usageLogs + [LogRowOf(req, email, times, now)];
      return Ok;
    }

    /** POST /api/usage/ping: mark the email online at `now`. */
    method Ping(req: PingRequest, now: int) returns (outcome: Outcome)
      modifies jdbc
      ensures jdbc.userInfo == old(jdbc.userInfo) && jdbc.usageLogs == old(jdbc.usageLogs)
      ensures req.email.None? ==> outcome == MissingEmail && jdbc.userState == old(jdbc.userState)
      ensures req.email.Some? ==>
        outcome == Ok &&
        jdbc.userState == UpsertOnline(old(jdbc.userState), req.email.value, req.userId,
                                       req.host, req.platform, now)
    {
      if req.email.None? {
        return MissingEmail;
      }
      jdbc.userState := UpsertOnline(jdbc.userState, req.email.value, req.userId, req.host, req.platform, now);
      return Ok;
    }

    /** POST /api/usage/offline: mark the email offline at `now`. */
    method Offline(req: OfflineRequest, now: int) returns (outcome: Outcome)
      modifies jdbc
      ensures jdbc.userInfo == old(jdbc.userInfo) && jdbc.usageLogs == old(jdbc.usageLogs)
      ensures req.email.None? ==> outcome == MissingEmail && jdbc.userState == old(jdbc.userState)
      ensures req.email.Some? ==>
        outcome == Ok &&
        jdbc.userState == UpsertOffline(old(jdbc.userState), req.email.value, req.userId, now)
    {
      if req.email.None? {
        return MissingEmail;
      }
      jdbc.userState := UpsertOffline(jdbc.userState, req.email.value, req.userId, now);
      return Ok;
    }
  }

  // ------------------------------------------------------------- properties

  /** A successful `log` leaves exactly one info row for the email, holding the
      request's values whatever was there before, and appends exactly one log
      row while every earlier log row stays as it was. */
  lemma LogWritesOneRowEach(info: InfoTable, logs: seq<LogRow>, req: UsageLogRequest,
                            parse: string -> Option<int>, now: int)
    requires LogOutcome(req, parse, now) == Ok
    ensures var times := ResolveTimes(req.createdAt, req.expiresAt, parse, now).value;
            var email := req.email.value;
            var info' := UpsertInfo(info, email, req.userId, times.created, times.expires,
                                    req.host, req.platform, now);
            var logs' := logs + [LogRowOf(req, email, times, now)];
            && info'[email].userId == req.userId
            && info'[email].createdAt == (if req.createdAt.None? then now else parse(req.createdAt.value).value)
            && (info'[email].expiresAt.None? <==> req.expiresAt.None?)
            && info'[email].host == req.host && info'[email].platform == req.platform
            && |logs'| == |logs| + 1 && logs'[..|logs|] == logs
            && logs'[|logs|].email == email
            && logs'[|logs|].expiresAt == info'[email].expiresAt
  {
    var times := ResolveTimes(req.createdAt, req.expiresAt, parse, now).value;
    var logs' := logs + [LogRowOf(req, req.email.value, times, now)];
    assert logs'[..|logs|] == logs;
  }
}
