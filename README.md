# Cursor usage monitor: presence bookkeeping and client decision logic in Dafny

This project models two parts of the Cursor usage monitor and proves
properties about them.

**The usage server** (Spring, Java). Three tables are keyed by email:

- `cursor_user_state`: online flag, last_seen, host and platform;
- `cursor_user_info`: the latest plan metadata;
- `cursor_user_usage_logs`: an append-only log of usage snapshots.

Three writers change them:

- the REST endpoints `log`, `ping` and `offline`;
- the WebSocket handler, whose `init` message binds a connection to an email and whose close marks that email offline;
- a scheduled sweep that marks silent users offline.

Each SQL statement is a function on maps and sequences (`Tables`). Each endpoint, handler and job is a class method that changes a `Database` object through those functions and says exactly what its new state is.

**The VS Code extension** (TypeScript). The model covers:

- the recent usage-event cache;
- the "which composers were updated" diff and when the composer snapshot is replaced;
- the brace-counting scan that cuts the `{"allComposers":…}` object out of `state.vscdb`;
- Windows drive-letter normalisation for the workspace id;
- the click and refresh state machine with its retry policy;
- `parseBrowserOutput`;
- the clipboard token regular expression and its notices;
- the change detector of `example.ts`.

Time is a whole number of seconds (milliseconds in the extension) passed in as `now`. `OffsetDateTime.parse`, `JSON.parse`, MD5 and the configured session token are parameters.

**What the server does not do.** Two properties one might expect of the code do not hold, and the model keeps the code's behaviour:

- The presence upserts are not guarded by timestamp (`UsageController.java` lines 64-83, `PingWebSocketHandler.java` lines 54-60 and 63-74). Every write overwrites, so last_seen can move backwards. `Tables.UpsertIgnoresStoredOrder` and `Tables.RunLastWriterWins` state what the code does guarantee: the last writer wins, not the largest time.
- `log` issues its info upsert and its log append one after the other (`UsageController.java` lines 40-50). The model takes both to succeed together.

What does hold is that a heartbeat at or after the sweep's cutoff survives the sweep in either commit order (`Tables.HeartbeatSurvivesSweep`).

A null email reaching an upsert is taken to be refused by the database: the email is the key every statement uses. It becomes the outcome `MissingEmail`, and nothing is written.

## Model

| member | source | states |
|---|---|---|
| Tables.UpsertOnline | CursorUsageServer/src/main/java/com/whyuds/cursor/api/UsageController.java:64-68 | the email's row is online with last_seen = now and the request's host and platform; an existing row keeps its user_id, a new row takes the request's; every other row is unchanged |
| Tables.UpsertOffline | CursorUsageServer/src/main/java/com/whyuds/cursor/api/UsageController.java:79-83 | the email's row is offline with last_seen = now; an existing row keeps user_id, host and platform; a new row has the request's user_id and no host or platform; other rows unchanged |
| Tables.UpsertInfo | CursorUsageServer/src/main/java/com/whyuds/cursor/api/UsageController.java:40-44 | afterwards the email's info row holds exactly the given values and updated_at = now whatever was stored; other rows unchanged; keys gain only the email |
| Tables.DemoteStale | CursorUsageServer/src/main/java/com/whyuds/cursor/jobs/UserStateScheduler.java:24 | same keys; each row changes only its online flag, which becomes false exactly when it was online with last_seen strictly before the cutoff |
| Tables.UpsertOnlineIdempotent | CursorUsageServer/src/main/java/com/whyuds/cursor/api/UsageController.java:64-68 | the same heartbeat twice at the same time stores what it stores once |
| Tables.UpsertOfflineIdempotent | CursorUsageServer/src/main/java/com/whyuds/cursor/api/UsageController.java:79-83 | the same offline twice at the same time stores what it stores once |
| Tables.UpsertIgnoresStoredOrder | CursorUsageServer/src/main/java/com/whyuds/cursor/api/UsageController.java:64-83 | a write stamped before the stored last_seen still replaces it, so last_seen can decrease |
| Tables.DemoteStaleLeavesNoStaleOnline | CursorUsageServer/src/main/java/com/whyuds/cursor/jobs/UserStateScheduler.java:24 | after a sweep no row is online with last_seen before the cutoff |
| Tables.DemoteStaleKeepsEdge | CursorUsageServer/src/main/java/com/whyuds/cursor/jobs/UserStateScheduler.java:24 | a row seen exactly at the cutoff stays online (strict comparison) |
| Tables.DemoteStaleIdempotent | CursorUsageServer/src/main/java/com/whyuds/cursor/jobs/UserStateScheduler.java:24 | two sweeps with one cutoff equal one sweep |
| Tables.HeartbeatSurvivesSweep | CursorUsageServer/src/main/java/com/whyuds/cursor/jobs/UserStateScheduler.java:23-24 | a heartbeat at or after the cutoff leaves the row online whether it commits before or after the sweep |
| Tables.RunLastWriterWins | CursorUsageServer/src/main/java/com/whyuds/cursor/api/UsageController.java:64-83 | after any interleaving of heartbeats, offlines and sweeps, an email's last_seen is the time of its last upsert, sweeps never move it, rows are never deleted |
| UsageApi.ResolveTimes | CursorUsageServer/src/main/java/com/whyuds/cursor/api/UsageController.java:37-38 | succeeds iff each present timestamp parses; created is now when absent, else the parsed value; expires is null iff absent; a bad createdAt is reported before a bad expiresAt |
| UsageApi.LogOutcome | CursorUsageServer/src/main/java/com/whyuds/cursor/api/UsageController.java:37-50 | log ends OK iff both timestamps parse and the email is present |
| UsageApi.UsageController.Log | CursorUsageServer/src/main/java/com/whyuds/cursor/api/UsageController.java:35-53 | on success the info table is the info upsert of the request and exactly one log row is appended; on any error neither table changes; the state table never changes |
| UsageApi.UsageController.Ping | CursorUsageServer/src/main/java/com/whyuds/cursor/api/UsageController.java:62-70 | with an email the state table is UpsertOnline of the request at now; without one nothing changes; the other tables never change |
| UsageApi.UsageController.Offline | CursorUsageServer/src/main/java/com/whyuds/cursor/api/UsageController.java:77-85 | with an email the state table is UpsertOffline of the request at now; without one nothing changes; the other tables never change |
| UsageApi.LogWritesOneRowEach | CursorUsageServer/src/main/java/com/whyuds/cursor/api/UsageController.java:40-50 | after log the info row's user_id, created_at, expires_at, host and platform are the request's; the log grows by one row for the email with the same expires_at, earlier rows untouched |
| PingSocket.Get | CursorUsageServer/src/main/java/com/whyuds/cursor/ws/PingWebSocketHandler.java:21-24 | null exactly when the key is absent or maps to null; otherwise String.valueOf of the value: the string itself, the decimal text of an integer, "true"/"false", or the rendered text of any other value |
| PingSocket.ParseLong | CursorUsageServer/src/main/java/com/whyuds/cursor/ws/PingWebSocketHandler.java:30 | Long.valueOf: a result exactly when the text is at least one digit after an optional '+' or '-' and the signed value fits in a long, and then that value |
| PingSocket.ParseLongNonCanonical | CursorUsageServer/src/main/java/com/whyuds/cursor/ws/PingWebSocketHandler.java:30 | an explicit '+', a leading zero, and "-0" followed by digits are read with the value of the digits |
| PingSocket.ParseLongAccepts | CursorUsageServer/src/main/java/com/whyuds/cursor/ws/PingWebSocketHandler.java:30 | "5" and "+5" read as 5, "007" as 7, "-0" as 0 |
| PingSocket.ParseLongRejects | CursorUsageServer/src/main/java/com/whyuds/cursor/ws/PingWebSocketHandler.java:30 | "", "+", "-", "1a" and " 1" are rejected |
| PingSocket.ParseLongBounds | CursorUsageServer/src/main/java/com/whyuds/cursor/ws/PingWebSocketHandler.java:30 | the smallest long is read; one past the largest is rejected |
| PingSocket.ParseLongOfDecimalText | CursorUsageServer/src/main/java/com/whyuds/cursor/ws/PingWebSocketHandler.java:30 | parsing the decimal text of n gives n back exactly when n fits in a long |
| PingSocket.GetLong | CursorUsageServer/src/main/java/com/whyuds/cursor/ws/PingWebSocketHandler.java:26-34 | null for a missing or null key and for a boolean; a string, and the rendered text of any other value, give what Long.valueOf gives for that text (null where it throws); an integer is returned iff in range; never fails |
| PingSocket.TypeMatchIgnoresCase | CursorUsageServer/src/main/java/com/whyuds/cursor/ws/PingWebSocketHandler.java:46 | the type test gives the same answer for a type and its upper-cased form |
| PingSocket.Bind | CursorUsageServer/src/main/java/com/whyuds/cursor/ws/PingWebSocketHandler.java:46-53 | only init changes attributes; email and userId are each set only when non-null and otherwise kept; no other attribute changes |
| PingSocket.BindWellFormed | CursorUsageServer/src/main/java/com/whyuds/cursor/ws/PingWebSocketHandler.java:46-53 | binding keeps email a string and userId a long |
| PingSocket.PingWebSocketHandler.HandleTextMessage | CursorUsageServer/src/main/java/com/whyuds/cursor/ws/PingWebSocketHandler.java:36-61 | attributes become Bind of the message; init and ping with an email upsert online for that email at now; other types write nothing; a null email writes nothing and is refused |
| PingSocket.PingWebSocketHandler.AfterConnectionClosed | CursorUsageServer/src/main/java/com/whyuds/cursor/ws/PingWebSocketHandler.java:63-74 | a bound email is upserted offline at now with the bound user id; an unbound connection writes nothing |
| PingSocket.PingKeepsAttributes | CursorUsageServer/src/main/java/com/whyuds/cursor/ws/PingWebSocketHandler.java:46-53 | a ping message leaves the attributes as they were |
| PingSocket.LastInitWithEmailWins | CursorUsageServer/src/main/java/com/whyuds/cursor/ws/PingWebSocketHandler.java:46-49 | a later init with an email rebinds; one without an email keeps the earlier binding |
| PingSocket.CloseWritesOnlyBoundEmail | CursorUsageServer/src/main/java/com/whyuds/cursor/ws/PingWebSocketHandler.java:64-73 | close writes only the bound email's row: offline at now, host and platform of an existing row kept, the bound user id on a new row; unbound close writes nothing |
| PingSocket.InitThenCloseIsOffline | CursorUsageServer/src/main/java/com/whyuds/cursor/ws/PingWebSocketHandler.java:46-73 | init with an email followed by close leaves that email offline at the close time |
| StaleSweep.SweepKeepsRecentUsers | CursorUsageServer/src/main/java/com/whyuds/cursor/jobs/UserStateScheduler.java:23-24 | an online user stays online exactly when last seen at most offlineSeconds before now; every other field of the row is kept |
| StaleSweep.UserStateScheduler.constructor | CursorUsageServer/src/main/java/com/whyuds/cursor/jobs/UserStateScheduler.java:14-15 | offlineSeconds is the configured value, or 60 when unset |
| StaleSweep.UserStateScheduler.MarkOfflineIfStale | CursorUsageServer/src/main/java/com/whyuds/cursor/jobs/UserStateScheduler.java:21-25 | the state table becomes DemoteStale at now minus offlineSeconds; the other tables are unchanged |
| StaleSweep.DefaultSweepBoundary | CursorUsageServer/src/main/java/com/whyuds/cursor/jobs/UserStateScheduler.java:14-24 | with the default, a user seen 60 s ago stays online, one seen 61 s ago goes offline, and no other field changes |
| UsageMonitor.HoldsSameEvent | CursorUsage/src/extension.ts:666-673 | true iff the cache holds an event with equal timestamp, model and totalCents (isNewUsageEvent is its negation) |
| UsageMonitor.PushRecent | CursorUsage/src/extension.ts:678-684 | the new event is first, length is min(old + 1, 3), and the rest is a prefix of the old cache |
| UsageMonitor.PushRecentKeepsNoRepeats | CursorUsage/src/extension.ts:647-651 | adding only new events keeps the cache free of two events equal on the triple |
| UsageMonitor.FindComposer | CursorUsage/src/extension.ts:613-615 | the first composer with the id, none iff no composer has it |
| UsageMonitor.UpdatedComposers | CursorUsage/src/extension.ts:608-625 | a subsequence of the current list holding exactly the composers with a truthy lastUpdatedAt whose previous entry is missing, lacks a truthy value, or is smaller, each as many times as it occurs in the list |
| UsageMonitor.RealtimeUsageMonitor.FindUpdatedComposers | CursorUsage/src/extension.ts:602-626 | empty without a previous snapshot, otherwise UpdatedComposers of the two lists |
| UsageMonitor.RealtimeUsageMonitor.CheckComposerDataChanges | CursorUsage/src/extension.ts:565-597 | the snapshot is replaced by the current read only when some composer was updated, and the event query is then due |
| UsageMonitor.RealtimeUsageMonitor.AddToRecentEvents | CursorUsage/src/extension.ts:678-684 | the cache becomes PushRecent of the old cache and the event |
| UsageMonitor.RealtimeUsageMonitor.QueryLatestUsageEvents | CursorUsage/src/extension.ts:631-661 | an alert iff a fetch returned events and the newest is not in the cache; then it is pushed; otherwise the cache is unchanged; the cache stays at most 3 events without repeats |
| UsageMonitor.SnapshotReplacedOnlyOnUpdate | CursorUsage/src/extension.ts:580-586 | a changed snapshot is the current read and some composer in it was updated |
| UsageMonitor.NoSnapshotStaysUnset | CursorUsage/src/extension.ts:603-606 | without an initial snapshot no series of checks ever takes one |
| ComposerScan.ScanBalancedEnd | CursorUsage/src/extension.ts:254-274 | the end found closes the object (depth 0, every shorter prefix open); none iff the depth never returns to 0 |
| ComposerScan.ExtractComposerJson | CursorUsage/src/extension.ts:236-277 | no key iff the key text is absent; no start iff none follows the key; otherwise the span from the first start after the key to its closing brace, or unbalanced |
| ComposerScan.GetComposerData | CursorUsage/src/extension.ts:230-289 | null when the key is absent, when no start pattern follows the first key, or when the object from the first such start never closes; otherwise the parse of exactly that object, which begins with the start pattern |
| ComposerScan.SpanStartsWithPattern | CursorUsage/src/extension.ts:246-277 | the cut-out object always begins with the whole start pattern |
| ComposerScan.ClosesAtUnique | CursorUsage/src/extension.ts:258-268 | at most one end closes a given start |
| ComposerScan.ClosesAtIgnoresSuffix | CursorUsage/src/extension.ts:258-268 | text after a closed object does not change it |
| ComposerScan.ClosesAtEndsWithBrace | CursorUsage/src/extension.ts:262-266 | the object ends with '}' |
| ComposerScan.DepthCountsBraces | CursorUsage/src/extension.ts:255-268 | the count equals the number of '{' minus the number of '}' |
| ComposerScan.ClosedSpanBalanced | CursorUsage/src/extension.ts:264-277 | the cut-out object holds as many '{' as '}' |
| WorkspaceIds.NormalizeDriveLetter | CursorUsage/src/extension.ts:163 | same length; only index 0 can change, and only a leading A-Z before ':' is lowered; no upper drive letter remains |
| WorkspaceIds.NormalizeIdempotent | CursorUsage/src/extension.ts:163 | normalising twice is normalising once |
| WorkspaceIds.DriveCaseIgnored | CursorUsage/src/extension.ts:163 | "C:…" and "c:…" normalise to the same text |
| WorkspaceIds.NonDriveUnchanged | CursorUsage/src/extension.ts:163 | a path without a leading upper-case drive is left as it is |
| WorkspaceIds.ChangeTimeOnlyWithoutBirthTime | CursorUsage/src/extension.ts:159 | with a birth time the id ignores the change time; with none the change time gives the id that birth time would |
| WorkspaceIds.WholeMillisecondsOnly | CursorUsage/src/extension.ts:159-166 | creation times within one whole millisecond give one id |
| WorkspaceIds.DecimalTextInjective | CursorUsage/src/extension.ts:166 | the printed whole milliseconds name one integer |
| WorkspaceIds.HashInputDetermines | CursorUsage/src/extension.ts:166 | for equal-length paths, hash inputs agree iff the normalised paths and the whole milliseconds agree |
| WorkspaceIds.IdIsDigestPrefix | CursorUsage/src/extension.ts:173 | the id is a prefix of the digest, three characters shorter |
| WorkspaceIds.WorkspaceId | CursorUsage/src/extension.ts:159-176 | a 32-character digest gives a 29-character id |
| WorkspaceIds.SameIdAcrossDriveCase | CursorUsage/src/extension.ts:159-176 | paths differing only in drive-letter case get the same id |
| Provider.CursorUsageProvider.constructor | CursorUsage/src/extension.ts:954-976 | starts idle, refreshing exactly when a token is configured |
| Provider.CursorUsageProvider.ClearClickTimer | CursorUsage/src/extension.ts:1020-1026 | no click timer and a count of zero; nothing else changes |
| Provider.CursorUsageProvider.HandleStatusBarClick | CursorUsage/src/extension.ts:1000-1018 | ignored while refreshing; a second click opens the settings and clears; a first click arms the timer |
| Provider.CursorUsageProvider.OnClickTimer | CursorUsage/src/extension.ts:1011-1016 | with one click counted the timer refreshes; the timer is then cleared |
| Provider.CursorUsageProvider.Refresh | CursorUsage/src/extension.ts:1029-1034 | manual and refreshing are set and fetchData(0) starts |
| Provider.CursorUsageProvider.ResetRefreshState | CursorUsage/src/extension.ts:1078-1081 | both refresh flags cleared, nothing else |
| Provider.CursorUsageProvider.OnFetched | CursorUsage/src/extension.ts:1051-1072 | a successful fetch shows the data and clears both flags |
| Provider.CursorUsageProvider.ScheduleRetry | CursorUsage/src/extension.ts:1114-1119 | a retry with retryCount + 1 is scheduled |
| Provider.CursorUsageProvider.HandleNoSessionToken | CursorUsage/src/extension.ts:1084-1091 | corrected (see Findings): a manual refresh shows the set-token message; the flags are cleared in every case |
| Provider.CursorUsageProvider.HandleFetchError | CursorUsage/src/extension.ts:1093-1112 | corrected (see Findings): manual shows the error and resets; otherwise a retry while retryCount < 3, and reset once they are used up |
| Provider.CursorUsageProvider.OnAutoRefreshTick | CursorUsage/src/extension.ts:1142-1148 | fetches and marks refreshing only when not already refreshing |
| Provider.StepKeepsClickConsistent | CursorUsage/src/extension.ts:1000-1026 | every event keeps clickCount equal to 1 while the click timer is armed and 0 otherwise |
| Provider.ClicksIgnoredWhileRefreshing | CursorUsage/src/extension.ts:1001 | a click while refreshing changes nothing and has no effect |
| Provider.DoubleClickOpensSettings | CursorUsage/src/extension.ts:1005-1008 | two clicks open the settings, start no fetch and restore the idle click state |
| Provider.SingleClickRefreshes | CursorUsage/src/extension.ts:1011-1016 | one click then the timer gives a manual refresh from retry 0 and resets the count |
| Provider.ManualFailureNeverRetries | CursorUsage/src/extension.ts:1096-1105 | a failed manual refresh shows the error, clears both flags and schedules no retry |
| Provider.RetryScheduledIff | CursorUsage/src/extension.ts:1107-1111 | otherwise a retry is scheduled iff retryCount < 3, with retryCount + 1 |
| Provider.RetryChainLength | CursorUsage/src/extension.ts:1093-1119 | when every fetch fails an automatic chain makes 4 attempts, a manual one 1 |
| Provider.AfterNoTokenAsWritten | CursorUsage/src/extension.ts:1084-1091 | as written: isRefreshing stays set exactly when it was set by an automatic refresh; the set-token message only for a manual one; nothing else changes (see Provider.NoTokenAutoRefreshLocks) |
| Provider.AfterFetchErrorAsWritten | CursorUsage/src/extension.ts:1093-1112 | as written: a non-manual failure never clears isRefreshing; a retry iff automatic with retryCount < 3; after that nothing at all changes (see Provider.ExhaustedRetriesLock) |
| Provider.AfterFetchAsWritten | CursorUsage/src/extension.ts:1051-1112 | as written: after a fetch ends, isRefreshing is set exactly when the fetch failed or found no token during an automatic refresh |
| Provider.AsWrittenUnlockOnlyBySuccessOrManual | CursorUsage/src/extension.ts:1000-1148 | as written, while refreshing, only a fetch that works or the end of a manual refresh clears isRefreshing; no click, timer or tick does |
| Provider.NoTokenAutoRefreshLocks | CursorUsage/src/extension.ts:1084-1091 | as written, an auto refresh without a token leaves isRefreshing set, and clicks and refresh ticks are ignored |
| Provider.ExhaustedRetriesLock | CursorUsage/src/extension.ts:1107-1111 | as written, when the last retry fails isRefreshing stays set, and clicks and refresh ticks are ignored |
| Provider.FetchEndUnlocks | CursorUsage/src/extension.ts:1078-1112 | corrected: every fetch end that schedules no retry clears both flags, so the next tick fetches |
| Provider.CorrectionOnlyOnLockingPaths | CursorUsage/src/extension.ts:1084-1112 | the correction differs from the code only on the two paths that left the flag set |
| Browser.ParseBrowserOutput | CursorUsage/src/extension.ts:342-346 | chrome iff the text holds "chrome"; otherwise edge iff it holds "edge"; otherwise unknown |
| Browser.MsEdgeContainsEdge | CursorUsage/src/extension.ts:344 | any text holding "msedge" holds "edge" |
| Browser.StoreForOutput | CursorUsage/src/extension.ts:342-350 | the Edge store page is offered exactly when the output names Edge and not Chrome, "msedge" included |
| Browser.ChromeTakesPrecedence | CursorUsage/src/extension.ts:343-344 | a text naming both browsers is read as Chrome |
| Clipboard.TokenRun | CursorUsage/src/extension.ts:1183 | the longest run of characters other than whitespace, newline and ';' |
| Clipboard.FirstToken | CursorUsage/src/extension.ts:1183 | the leftmost match of the prefix followed by at least one token character, as its greedy capture; none iff no position matches |
| Clipboard.TokenRunIsMaximal | CursorUsage/src/extension.ts:1183 | the run stops at the first separator and not before |
| Clipboard.TokenStopsAtSeparator | CursorUsage/src/extension.ts:1183 | "WorkosCursorSessionToken=" + token + ";" + anything gives the token |
| Clipboard.ClipboardMonitor.HandleTokenDetected | CursorUsage/src/extension.ts:1193-1204 | a token different from the configured one is offered and forgets the last notice; an equal one is announced once |
| Clipboard.ClipboardMonitor.CheckForToken | CursorUsage/src/extension.ts:1180-1191 | no match gives no notice and no change; a match is handled as its token |
| Clipboard.AlreadyConfiguredOnce | CursorUsage/src/extension.ts:1197-1203 | the configured token read again and again is announced at most once |
| Clipboard.NewTokenIsOffered | CursorUsage/src/extension.ts:1197-1200 | a token not configured is always offered, and the next match is announced again |
| ComposerWatch.AddedEntries | CursorUsage/example.ts:72-75 | exactly the entries whose id prev lacks, in next order, each as many times as it occurs |
| ComposerWatch.ChangedEntries | CursorUsage/example.ts:76-78 | exactly the entries whose id prev holds with a different value, in next order, each as many times as it occurs |
| ComposerWatch.UpdatesOf | CursorUsage/example.ts:76-78 | one record per changed entry, in order, from the stored value to the new one |
| ComposerWatch.DetectComposerChanges | CursorUsage/example.ts:69-82 | returns the added list, the updated list, and changed iff either is non-empty; prev is a value and stays as it was |
| ComposerWatch.StateOf | CursorUsage/example.ts:117 | holds exactly the ids of the list |
| ComposerWatch.ComposerWatcher.Tick | CursorUsage/example.ts:109-118 | reports the changes against the stored map and replaces it by the list's map only when something changed |
| ComposerWatch.ChangedIff | CursorUsage/example.ts:80 | changed iff some entry is new or differs from its stored value |
| ComposerWatch.UpdatesRecordBothValues | CursorUsage/example.ts:76-77 | each record has from = stored value and to = the entry's value, which differ, in either direction |
| ComposerWatch.VanishedNeverReported | CursorUsage/example.ts:72-79 | an id absent from the new list is never reported |
| ComposerWatch.StateOfStoresEach | CursorUsage/example.ts:117 | with distinct ids the state stores each entry's value |
| ComposerWatch.SecondTickQuiet | CursorUsage/example.ts:109-118 | with distinct ids, a second tick on the same list reports no change |
| ComposerWatch.RepeatedIdKeepsReporting | CursorUsage/example.ts:109-118 | with one id listed twice at two times, every tick reports a change |

## Left out

- Spring, JdbcTemplate and the SQL engine. Tables are maps keyed by email and the log is a sequence. The schema is not part of this model: a null email is taken to be refused (`MissingEmail`), and column types are unbounded integers and strings.
- Database failures and partial writes. In `UsageApi.UsageController.Log`, both statements are taken to succeed together. A failure of the second after the first committed is not modelled.
- Jackson decoding of a WebSocket payload. A message starts as a decoded key-to-value map. A payload that is not JSON, which makes the handler throw, is not modelled.
- `OffsetDateTime.now` and `OffsetDateTime.parse`. The clock is the `now` parameter, in whole seconds. Parsing is a partial function the caller supplies.
- Concurrency. Request handlers, sockets and the sweep are sequences of single atomic statements (`Tables.Run`). Nothing finer is modelled.
- StaleSweep.Cutoff: offlineSeconds is an unbounded integer, so the 32-bit `int` of the property is not modelled.
- PingSocket.ParseLong: only ASCII digits. Java's Long.valueOf also accepts other Unicode decimal digits.
- PingSocket.EqualsIgnoreCase: folds only ASCII letters. Java's equalsIgnoreCase folds all of Unicode. For the words "init" and "ping" the difference is the dotted capital İ (U+0130) and the dotless ı (U+0131), which Java matches with 'i': "ınit" and "İNIT" are init messages to the server but not to the model.
- PingSocket.JsonValue: a non-integral number, array or object is JOther with its printed text. How Java prints a double is not modelled.
- The extension's I/O, all taken as inputs or left out:
  - the network API calls;
  - the chokidar file watcher and its delays;
  - reading the first 1 MB of `state.vscdb` and decoding it as UTF-8 (ComposerScan works on the decoded text);
  - `JSON.parse` and the cast to ComposerData (a parameter);
  - MD5 (a parameter);
  - the shell commands that ask for the default browser;
  - VS Code messages, commands and configuration.
- Floating point. Timestamps and cents are Dafny reals. NaN, and JavaScript's `===` on it, are not modelled. Truthiness of lastUpdatedAt is "present and not 0".
- WorkspaceIds.HashInput: always prints the whole milliseconds as plain digits. JavaScript uses exponent form from 10^21 on.
- Status-bar text, tooltips, the 2-second realtime alert and `toFixed` formatting.
- Provider timers:
  - Timers are only present or absent, and timer firings are explicit events.
  - `stopAutoRefresh`, `dispose` and the configured refresh interval are not modelled.
  - `isRetryableError` is the `retryable` input; it only chooses the message text.
- Provider.CursorUsageProvider.HandleNoSessionToken and Provider.CursorUsageProvider.HandleFetchError implement the corrected behaviour from "Findings". The code as written is Provider.AfterNoTokenAsWritten and Provider.AfterFetchErrorAsWritten, and the lemmas about it are listed above.
- Clipboard:
  - the answer to the "Update configuration?" prompt and the configuration write it leads to;
  - clipboard read errors.
  - Strings are sequences of Unicode scalar values, not UTF-16 code units.
- `example.ts`:
  - sql.js, the storage paths and the output channel;
  - the `String` and `Number` coercion of parsed entries and the NaN filter. `ComposerWatch.ComposerWatcher.Tick` takes the list after that filtering.

## Findings

| source | as written | input that shows it | evidently intended | confidence | as-written member | corrected member |
|---|---|---|---|---|---|---|
| CursorUsage/src/extension.ts:1084-1091 | handleNoSessionToken resets the refresh flags only for a manual refresh. An auto refresh has already set isRefreshing, so it stays set. | The token is cleared, then the auto-refresh timer fires: fetchData ends with no token, isRefreshing stays true, and from then on status-bar clicks (including the double click that opens the token settings) and later auto refreshes are ignored. | The flags are cleared whenever the fetch ends without a token. | not executed; medium | Provider.NoTokenAutoRefreshLocks | Provider.FetchEndUnlocks |
| CursorUsage/src/extension.ts:1107-1111 | When retryCount reaches 3 an automatic fetch only logs. isRefreshing, set by the auto refresh, is never cleared. | Four automatic attempts fail in a row (`FetchEnded(Failed(true), 3)`): isRefreshing stays true, so the auto-refresh interval never fetches again and clicks are ignored until the refresh command is run. | Giving up clears the refresh flags, so the next interval tries again. | not executed; high | Provider.ExhaustedRetriesLock | Provider.FetchEndUnlocks |
