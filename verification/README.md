# Puls: a verified model of the server's stateful core and the agent's retry loop

Puls monitors devices: agents hold a WebSocket to a server, send heartbeats, answer diagnostic
requests, and the server keeps a device table in SQLite or Postgres. This project models the parts
of it whose correctness depends on state that several callers share or on what happens between two
steps, and proves what they promise over every input, every history or every interleaving.

| files | what they model |
|---|---|
| `TokenBucket`, `RateLimiter`, `SharedLimiter`, `MessageGate` | the keyed token-bucket limiter: its arithmetic and its sweep over whole call histories, the limiter as an object with mutable buckets, and the gate it forms in front of the message handler |
| `HubTable`, `Hub`, `Lifecycle`, `Session`, `StoredStatus`, `Shutdown`, `ShutdownStatus`, `LateRegistration` | connections: the hub, the device table and one client's goroutine as objects; every interleaving of registrations, closes, reads, store writes and clean-ups as a step system over the same table functions; and a session on the objects as a run of the step system |
| `Keyset`, `Decimal`, `Rfc3339`, `Base64Url`, `Cursor`, `CursorWalk`, `DeviceList` | keyset pagination over any row order, the text SQLite stores for times, and the opaque cursors that link the pages |
| `Sets`, `PgMigration`, `SqliteMigration` | startup migration with several instances, releases, crashes and lost answers |
| `Broadcaster`, `BroadcastSteps`, `Diagnostics`, `AgentRetry` | the lossy event broadcaster, the life of a diagnostic request, and the agent's reconnect loop |

Code that changes things in place is written as classes and methods (`KeyedRateLimiter`, `HubObject`,
`Client`, `DeviceTable`, `Database`, `EventBroadcaster`, `Store`, the agent's `Run`); each is proved
against functions on values, and the results about histories and runs are lemmas about those
functions. Concurrency is a step system: one label is one region under a lock, one store statement,
one close, the result of one read, or one change of the wait group; "in every reachable state" means
after every sequence of labels that can be taken.

Some statements one would like to make of this code are false. They are stated with the exact
condition under which they hold, and a run or an input that shows why it is needed:

- the limiter's sweep is invisible if and only if an idle bucket refills before it may be deleted
  (`rate * 600 s >= burst`), or the burst is below one and nothing is ever admitted;
- a connected device stored as online stays so if and only if no earlier connection of it still owes
  an offline write (`Unregister` and the offline write are two steps);
- a completed shutdown leaves a connected device offline if and only if no connection is accepted
  any more during the drain and at most one connection of the device, the current one or one that
  has yet to register, can still write it online when the drain begins. The server does not meet
  the first part: it stops accepting connections only after `Wait` has returned, so a device that
  connects during the drain can end it online. The second part can fail too, by a heartbeat that is
  being handled while its connection is replaced;
- the server can always bring `Wait` to return by itself, because every read has a deadline; it can
  do so without waiting for one if and only if no connection has yet to register and every other
  one still in its loop is closed or about to be;
- the number of steps until `Wait` returns is bounded whatever the peers send if and only if no
  connection is accepted any more and every one that has yet to leave its read loop is closed:
  otherwise a peer that keeps sending can hold `Wait` up until the deadline that `Wait` is given;
- a cursor comes back unchanged if and only if it has an id, a time that is set, and a year JSON can
  write; with any other year the dropped marshalling error makes it the empty string, which elsewhere
  means "no more pages";
- a Postgres instance whose migration returns successfully has recorded its whole list if and only if
  all versions in the list are positive; a version of zero or less is never applied;
- a diagnostic's derived status moves back exactly when a response without data meets a completed row.

Where the code and its comments differ, the code is modelled. In particular the comments on
`Unregister` and `Run` say that a late clean-up cannot overwrite the status of a newer connection;
that holds for connections that were replaced, but not for one that unregistered just before the
device came back.

## Model

| member | source | states |
|---|---|---|
| TokenBucket.AvailableIsLeastSlack | internal/server/ratelimit.go:55-66 | What a key's own bucket holds is at least x exactly when a demand of x fits every window its history opens: the refill arithmetic against an independent counting definition. |
| RateLimiter.OwnVerdictIsWindowBound | internal/server/ratelimit.go:55-66 | A never-evicted bucket admits a call if and only if, for every earlier or same call, the admissions since then plus this one stay within burst + rate * elapsed. |
| RateLimiter.OwnBucketIgnoresOthers | internal/server/ratelimit.go:49-60 | A key's own bucket after any history is its bucket after that key's calls alone. |
| RateLimiter.SameAnswer | internal/server/ratelimit.go:42-81 | When idle buckets refill within the TTL, the sweeping many-key limiter gives every call the answer of the caller's own never-evicted bucket, for all keys, interleavings and nondecreasing times. |
| RateLimiter.SweepShows | internal/server/ratelimit.go:71-81 | For every other setting there is a history on which the sweep changes an answer: drain, stay idle just past the TTL, drain again. |
| RateLimiter.SweepIsInvisibleIff | internal/server/ratelimit.go:42-81 | Both directions: no history shows the sweep if and only if burst < 1 or rate * 600 >= burst. |
| RateLimiter.ExactAdmission | internal/server/ratelimit.go:42-67 | The sweeping limiter is sound and maximal: it admits a call if and only if admitting it breaks no window bound of that key. |
| RateLimiter.WindowBudget | internal/server/ratelimit.go:42-67 | Over any stretch of calls one key is admitted at most burst + rate * elapsed times, whatever the others do. |
| RateLimiter.ServerLimitersNeverShowTheSweep | internal/server/server.go:54-132 | The message, public and metrics limiters all meet the condition. |
| RateLimiter.CallSweeps | internal/server/ratelimit.go:71-81 | A call at least 60 seconds after the last sweep deletes exactly the buckets idle for more than 600 seconds and becomes the last sweep; any other call deletes nothing. |
| RateLimiter.NoBucketIsStale | internal/server/ratelimit.go:71-81 | After any history no bucket is older than 660 seconds. |
| RateLimiter.PublicLimiterAdmits | internal/server/server.go:106 | The rate-limited public endpoints admit a client exactly within 5 + T. |
| RateLimiter.MetricsLimiterAdmits | internal/server/server.go:132 | The metrics endpoint admits a client exactly within 10 + 2T. |
| RateLimiter.MessageLimiterAdmits | internal/server/server.go:54 | The message limiter admits a device exactly within 20 + 5T. |
| SharedLimiter.Bucket.Draw | internal/server/ratelimit.go:55-66 | The in-place update of one bucket is the value-level draw; the answer is yes exactly when the credited, capped level reaches one. |
| SharedLimiter.KeyedRateLimiter.SweepIdle | internal/server/ratelimit.go:71-81 | The deleting loop leaves exactly the buckets idle no longer than the TTL, and runs at most once an interval. |
| SharedLimiter.KeyedRateLimiter.NoBucketIsStale | internal/server/ratelimit.go:12-15 | In every limiter object that has just answered a call, every bucket was used at most 660 seconds before it: the map is bounded by the keys seen in that time. |
| SharedLimiter.KeyedRateLimiter.BucketOf | internal/server/ratelimit.go:49-53 | A missing bucket is created full without touching any other key's bucket. |
| SharedLimiter.KeyedRateLimiter.Allow | internal/server/ratelimit.go:42-67 | One call on the mutable map answers and changes state as the replay of the extended history says, so all history results hold of the object; which buckets stay, which go and what becomes of the sweep time is stated in 60 and 600 seconds. |
| SharedLimiter.KeyedRateLimiter.AnswersAreExact | internal/server/ratelimit.go:42-81 | Every answer the object has ever given is the window bound over everything it was asked. |
| MessageGate.WellFormedIsHandledOrRejected | internal/ws/client.go:86-103 | Over any stretch of the trace a device's handled messages are its admitted limiter calls, its rejected messages the denied ones, and together they are its well-formed messages: each asked the limiter exactly once. |
| MessageGate.HandledIffWithinBudget | internal/ws/client.go:94-101 | A well-formed message reaches the handler if and only if that keeps every window of the device's messages, over all its connections, within 20 + 5T. |
| MessageGate.HandledAreAdmitted | internal/server/routes_ws.go:90-96 | The messages of a device that are handled are its admitted limiter calls. |
| MessageGate.MessageBudget | internal/ws/client.go:86-103 | Over any window of length T at most 20 + 5T messages of a device reach the handler, however many connections it opens or overlaps. |
| HubTable.CurrentIff | internal/ws/hub.go:33-65 | After any registrations and unregistrations a connection is current if and only if it was the last to register for its device and has not unregistered since; one that is not current removes nothing. |
| Hub.HubObject.Register | internal/ws/hub.go:33-48 | The device's entry becomes the new client, the replaced one is closed, other entries are untouched. |
| Hub.HubObject.NewClient | internal/ws/client.go:30-53 | The wait group counts the client before it is registered. |
| Hub.HubObject.Unregister | internal/ws/hub.go:56-65 | Removes the entry, and says so, exactly when the client is still the device's current one. |
| Hub.HubObject.CloseAll | internal/ws/hub.go:108-130 | Every client in the table is closed and the table itself is left alone. |
| Hub.HubObject.ConnectedDeviceIDs | internal/ws/hub.go:91-99 | Exactly the devices in the table, each once. |
| Hub.DeviceTable.SetDeviceStatus | internal/store/sqlite.go:209-218 | Writes one row, reports a missing row, changes nothing on failure. |
| Hub.DeviceTable.UpdateLastSeen | internal/store/sqlite.go:220-225 | Marks the row online; a missing row is not an error. |
| Hub.Client.Serve | internal/ws/client.go:86-103 | A malformed frame never reaches the limiter; a well-formed one asks it once; a malformed or rejected frame, and any but a heartbeat whose insert and update succeed, leaves the table as it was. |
| Hub.MarkedOnlineIff | internal/ws/client.go:94-101 | Serving any frames leaves the device online if and only if a heartbeat whose insert and update succeeded was let through to the handler (or it was online before), and changes no other row. |
| Hub.Client.ReadLoop | internal/ws/client.go:75-104 | Over any frames, none of them heard on a closed connection, the limiter receives exactly one call per well-formed frame, in order, and each frame's fate matches the limiter's answer. |
| Hub.Client.Run | internal/ws/client.go:55-105 | After the loop the client leaves the hub, writes offline only if it was still current, and only then reports to the wait group. |
| Session.SessionIsARun | internal/server/routes_ws.go:82-105 | From any state, a connection that comes, replaces its predecessor, is served any frames and goes is a run of the step system; the table, wait group, closes and status it leaves. |
| Session.HandleWebSocket | internal/server/routes_ws.go:82-105 | Serving a connection on the objects takes them from one state of the step system to another by that run, whatever connections there are besides. |
| Session.WritesAreHandled | internal/server/routes_ws.go:122-145 | In a session there are at most as many heartbeat writes as messages let through to the handler. |
| Session.WritesWithinBudget | internal/server/routes_ws.go:122-145 | So a session of length T writes heartbeats at most 20 + 5T times. |
| Lifecycle.StepKeepsInv | internal/ws/hub.go:33-65 | Every step of every goroutine keeps the structural, accounting and counting invariants. |
| Lifecycle.RunKeepsInv | internal/ws/client.go:50-73 | So does every run. |
| StoredStatus.NoOrphanedConnection | internal/ws/hub.go:33-46 | In every reachable state each live connection is between wg.Add and Register, current, closed, owed a close by its replacer, or past its read loop; the wait group equals the number of live ones; every entry is live and keyed by its own device. |
| StoredStatus.ReplacedNeverWritesOffline | internal/ws/client.go:60-73 | In no run does a connection that is ever replaced attempt an offline write, before or after. |
| StoredStatus.EntriesAreAccountedFor | internal/ws/hub.go:33-65 | Per device: registrations = replacements + successful unregisters + (1 if in the table). |
| StoredStatus.StableOnlineIff | internal/ws/client.go:60-73 | A connected device stored online stays online in every continuation until it is unregistered, if and only if no connection of it owes an offline write. |
| StoredStatus.ConnectedButStoredOffline | internal/server/routes_ws.go:82-105 | A run after which a connected, serving device is stored offline. |
| Shutdown.SnapshotStartsDrainingIff | internal/ws/hub.go:108-114 | After the snapshot every connection still reading is closed or will be closed by somebody, and nobody is about to register, exactly when no connection stood between `wg.Add` and `Register`. |
| Shutdown.DrainingShrinks | internal/ws/client.go:55-84 | Every step of a drain decreases remaining phases + owed closes, but for a message that arrives, which adds one. |
| Shutdown.DrainingIsBounded | internal/ws/hub.go:116-130 | However the goroutines interleave, the steps taken and the steps left are at most those there were and two for each message that arrived. |
| Shutdown.SilentDrainEnds | internal/ws/client.go:75-84 | While the peers are silent no run of the server's own steps, read deadlines among them, is longer than the measure, and one that has not brought Wait to return can go on. |
| Shutdown.WaitReturns | internal/server/server.go:162-172 | From every state the server by itself can bring Wait to return, within the measure. |
| Shutdown.WaitReturnsIff | internal/ws/hub.go:108-147 | Without waiting for a read deadline it can do so if and only if nobody has yet to register and everybody still reading is closed or about to be. |
| Shutdown.ReachableIsClean | internal/ws/hub.go:33-48 | In every reachable state a connection that has not registered has been closed by nobody, and no connection is to close itself. |
| Shutdown.DrainedIsClean | internal/ws/hub.go:132-147 | When the wait group is empty the hub is empty and nobody owes an offline write. |
| ShutdownStatus.RunEndsOffline | internal/ws/client.go:60-73 | If the other connections of a device are done writing, every completed drain without new connections ends with it offline. |
| ShutdownStatus.SomeRunEndsOnline | internal/server/routes_ws.go:143-145 | If a connection that is not current is about to write its device online, some completed drain ends with the device online. |
| ShutdownStatus.ShutdownLeavesOfflineIff | internal/server/server.go:162-172 | When no new connection comes during the drain: a connected device is offline after every completed shutdown if and only if at most one connection of it, the current one or one that has yet to register, can still write it online. |
| ShutdownStatus.ShutdownLeavesAllOffline | internal/ws/hub.go:101-130 | With one live connection per connected device, working store writes and no new connection during the drain, every completed shutdown leaves them all offline. |
| ShutdownStatus.LateHeartbeatSpoilsShutdown | internal/server/routes_ws.go:143-145 | A run from an empty server to a snapshot after which a connected device can end the shutdown online, no new connection coming and every write succeeding. |
| LateRegistration.LeavesOfflineWhenIff | internal/server/server.go:162-172 | The exact condition with the server as it is, from every state: offline after every completed shutdown if and only if connections are no longer accepted and at most one connection, current or yet to register, can still write online. |
| LateRegistration.AnyDeviceCanEndOnline | internal/server/server.go:162-172 | While connections are accepted, from every state of an unfinished drain every device in the table can end the shutdown online, all writes succeeding. |
| LateRegistration.TalkerHoldsWait | internal/ws/client.go:75-104 | A peer whose connection is open and has yet to leave its loop can hold Wait up for any number of messages. |
| LateRegistration.NewcomerHoldsWait | internal/server/server.go:162-172 | So can one that connects during the drain, from every state of an unfinished drain. |
| LateRegistration.WaitIsBoundedIff | internal/server/server.go:162-172 | Until Wait has returned, the steps to its return are bounded whatever the peers send if and only if connections are no longer accepted and everyone who has yet to leave its loop is closed. |
| Keyset.DescendingIsUnique | internal/store/sqlite.go:186 | A set of rows has only one strictly descending listing. |
| Keyset.PageIsPrefix | internal/store/sqlite.go:186-205 | A page is the first `limit` rows below the cursor; there is a next cursor exactly when rows are left, and the rest of the listing is what lies below it. |
| Keyset.WalkIsTheTable | internal/store/postgres.go:184-217 | For every table, order and limit, following the pages terminates and gives the whole table in descending order, each row once. |
| Keyset.WalkSurvivesInserts | internal/store/sqlite.go:177-205 | With any inserts between fetches a completed walk is strictly descending, repeats nothing, and returns everything that was there at the start. |
| Keyset.WalkAcrossInsertsEnds | internal/store/sqlite.go:187-205 | Given more fetches than the final table fills pages, the walk has completed. |
| Rfc3339.ChronologicalIsFieldOrder | internal/store/sqlite.go:151 | Calendar fields compare as the instants they denote, leap years included. |
| Rfc3339.MonthsHaveTheirLengths | internal/store/sqlite.go:37-48 | The time line has the Gregorian month lengths, leap years included, written out. |
| Rfc3339.DaysCountOn | internal/store/sqlite.go:37-48 | Days, hours, minutes, seconds and nanoseconds count on within a month; 400 years are 146097 days; the epoch is day 719527. |
| Rfc3339.ReadsTheCalendar | internal/store/sqlite.go:37-48 | Of all texts of six fields exactly those of dates on the calendar are read, each as itself. |
| Rfc3339.LayoutOfOneTime | internal/store/sqlite.go:151 | The layout, on one time, with and without a fraction. |
| Rfc3339.TextOrderIsTimeOrder | internal/store/sqlite.go:182-186 | For whole-second UTC times in years 0000 to 9999, comparing the RFC 3339 text bytewise is comparing the instants. |
| Decimal.TextLessIff | internal/store/sqlite.go:182-186 | What comparing text bytewise means: equal up to a point where one ends or has the smaller character. |
| Rfc3339.SecondsRoundTrip | internal/store/sqlite.go:37-48 | Reading stored text gives back the time it was formatted from with its sub-second part dropped. |
| Rfc3339.NanosRoundTrip | internal/store/cursor.go:19-37 | The form with up to nine fractional digits that the cursor carries gives the same time to the nanosecond. |
| Base64Url.RoundTrip | internal/store/cursor.go:21-25 | Decoding unpadded base64url (sections 3.2 and 5 of RFC 4648) restores the bytes. |
| Base64Url.RefusedIff | internal/store/cursor.go:25-28 | Line breaks aside, text is refused exactly for a character outside the URL-safe alphabet, padding included, or for a last group of one character. |
| Base64Url.KnownEncodings | internal/store/cursor.go:21 | Examples of section 10 of RFC 4648, unpadded, and the two URL-safe characters. |
| Cursor.CursorRoundTripIff | internal/store/cursor.go:19-37 | Decoding restores the position if and only if it has a four-digit year, an id and a time that is set. |
| Cursor.CursorIsEmptyIff | internal/store/cursor.go:19-22 | An encoded cursor is the empty string only for a year JSON cannot write. |
| Cursor.DecodedIff | internal/store/cursor.go:24-37 | A cursor decodes to a position if and only if its bytes are the object of the two fields, the first a timestamp that reads as the time, the second the id, neither missing. |
| Cursor.ForeignTextIsRefused | internal/store/cursor.go:25-28 | Text with a character of the other base64 alphabet, padding or a percent sign, or of an impossible length, is never a position. |
| Cursor.OneCursor | internal/store/cursor.go:14-20 | The object as it is written out, for one position. |
| Cursor.FarYearEndsTheListing | internal/store/cursor.go:20 | A position in the year 10000, whose cursor says that there are no more pages. |
| DeviceList.SqlitePagesAreInstantPages | internal/store/sqlite.go:173-207 | Comparing stored text gives exactly the pages that comparing instants would give. |
| DeviceList.CursorResumesExactly | internal/store/sqlite.go:177-205 | A row's cursor is never empty and is bound to that very row again, stored text and all. |
| DeviceList.BadCursorIsAnError | internal/store/sqlite.go:177-181 | A request fails with an invalid cursor exactly when its cursor is not empty and does not decode. |
| CursorWalk.FetchFollowsPosition | internal/store/postgres.go:184-217 | For any store whose rows resume exactly, a fetch by cursor text is the page below that row, and its nextCursor is empty exactly on the last page. |
| CursorWalk.CursorsWalkTheTable | internal/store/sqlite.go:177-206 | For any such store, with any inserts between requests: a client that reaches the empty nextCursor has seen rows in strictly descending order and every row that was there at the start; on an unchanged table exactly the table; and enough requests reach it. |
| DeviceList.SqliteCursorsWalkTheTable | internal/store/sqlite.go:173-207 | The same for SQLite, with stored text and encoded cursors: of any two rows seen the earlier one is newer by the instants of its stored text, or as new with the greater id. |
| DeviceList.PostgresCursorsWalkTheTable | internal/store/postgres.go:184-217 | The same for Postgres, with encoded cursors and any strict total order on ids: newest first to the nanosecond, and the greater id first among equals. |
| PgMigration.RunKeepsInv | internal/store/postgres.go:59-121 | Every run keeps the invariants behind the next rows, from any state that satisfies them. |
| PgMigration.MigrationIsSafe | internal/store/postgres.go:59-147 | For any ascending list, instances built with any prefixes of it, failures and crashes: one migrator at a time, recorded versions form a prefix of the longest list, no insert collides, transactional migrations take effect exactly once if recorded and never otherwise, concurrent ones are recorded only after their statements returned success. |
| PgMigration.ErrorEndsTheStart | internal/store/postgres.go:79-118 | One statement that reports an error ends the start: the instance then only unlocks, and returns the error, or crashes, whatever the others do. |
| PgMigration.SuccessRecordsAllIff | internal/store/postgres.go:85-120 | A successful return means the instance's whole list is recorded, if and only if all its versions are positive. |
| PgMigration.NonPositiveIsNeverApplied | internal/store/postgres.go:85-95 | For every list with a version of zero or less, a run from the empty database that returns success without applying it. |
| PgMigration.RestartCompletes | internal/store/postgres.go:59-121 | Wherever earlier instances stopped, a new one that meets no failure finishes its list. |
| SqliteMigration.Database.Migrate | internal/store/sqlite.go:107-136 | The loop applies the versions above user_version in list order up to the first that does not commit; it succeeds if and only if there is none such, and then no version of the list is above user_version. |
| SqliteMigration.AttemptApplies | internal/store/sqlite.go:107-136 | The same of the value-level attempt: effects, recorded version and outcome of one start from how its transactions end. |
| SqliteMigration.ExactlyOnce | internal/store/sqlite.go:107-136 | Over any number of failed, crashed and repeated starts of older and newer releases no migration takes effect twice, and after a success every positive version of that release's list has taken effect. |
| Broadcaster.EventBroadcaster.Subscribe | internal/server/broadcaster.go:23-29 | A new channel, shared with nobody, and the map agrees with the calls so far. |
| Broadcaster.EventBroadcaster.Unsubscribe | internal/server/broadcaster.go:30-34 | Removes that subscriber alone. |
| Broadcaster.EventBroadcaster.Publish | internal/server/broadcaster.go:37-46 | In whatever order the map is walked, each channel is offered the event once, and the channels hold what the run of all calls so far says. |
| Broadcaster.EventBroadcaster.Receive | internal/server/routes_events.go:67 | The oldest queued event comes out and is appended to what was received. |
| Broadcaster.EventBroadcaster.Count | internal/server/broadcaster.go:49-53 | The number of subscribers, by the calls made so far, that have not unsubscribed. |
| Broadcaster.OfferedIsWhatWasPublished | internal/server/broadcaster.go:23-46 | A subscriber's account lists exactly the events published while it was subscribed. |
| Broadcaster.ReceivedInOrder | internal/server/broadcaster.go:37-46 | Received then queued events are an in-order selection of the events published while subscribed, in every interleaving. |
| Broadcaster.MissingIffFull | internal/server/broadcaster.go:41-44 | An event published to a subscriber is missing from its received and queued events, then and at any later time, exactly when 32 events were waiting undelivered as it was published. |
| Broadcaster.OthersDoNotInterfere | internal/server/broadcaster.go:37-46 | What other subscribers do changes nothing for one: not its queue, not what it receives, not what it loses. |
| BroadcastSteps.ViewIsARun | internal/server/broadcaster.go:37-46 | With receives between the offers of one publication and the channels served in any order, each subscriber's channel and account are those of a run of whole publications. |
| BroadcastSteps.RunsAreSteps | internal/server/broadcaster.go:37-46 | And every run of whole publications is among those of separate offers: the finer steps rule nothing out. |
| BroadcastSteps.OffersMayInterleave | internal/server/broadcaster.go:37-46 | Also then received and queued events are an in-order selection of all events whose publication began while subscribed. |
| BroadcastSteps.LostIffFullAtItsOffer | internal/server/broadcaster.go:41-44 | Also then an event is lost, for good, exactly when the channel held 32 as the offer to it was made. |
| Diagnostics.Store.SaveDiagnosticResult | internal/store/sqlite.go:270-282 | Updates one row or reports that there is none. |
| Diagnostics.Store.HandleRequestDiagnostics | internal/server/routes_diagnostics.go:15-82 | The status code for every combination of failures, and the rows left behind. |
| Diagnostics.HandlerIsARun | internal/server/routes_diagnostics.go:46-69 | The handler run on its own is one of the interleaved runs and leaves the same rows. |
| Diagnostics.FillStatuses | internal/server/routes_diagnostics.go:94-96 | Every listed result gets its derived status in place and keeps its row. |
| Diagnostics.RowsAtQuiescence | internal/server/routes_diagnostics.go:46-82 | Once no handler is running, the rows are the requests answered 202 and those whose deletion failed. |
| Diagnostics.RowsAreTheAcceptedIff | internal/server/routes_diagnostics.go:72-82 | The rows are exactly the requests answered 202 if and only if every deletion succeeded. |
| Diagnostics.AcceptedRowsStay | internal/server/routes_diagnostics.go:68-69 | A request answered 202 keeps its row and its request time in every continuation. |
| Diagnostics.RowIsItsHistory | internal/store/sqlite.go:250-282 | A row is determined by its own creation and its own last response, whatever the other requests did. |
| Diagnostics.StatusGoesBackIff | internal/server/routes_diagnostics.go:103-111 | One step takes a derived status back exactly when a response without data meets a completed row. |
| Diagnostics.StatusMovesForward | internal/server/routes_diagnostics.go:100-111 | While responses carry data, an accepted request's status only moves pending, timed out, completed, over any run. |
| Diagnostics.EmptyAnswerUndoesCompletion | internal/store/sqlite.go:340-343 | A run in which a second, empty answer turns a completed request back to pending. |
| Diagnostics.TimeoutIsWithinAGrain | internal/store/sqlite.go:250-255 | An unanswered row reads as timed out once the timeout has passed, and never more than the stored time's precision early. |
| Diagnostics.StoredRoundsDown | internal/store/sqlite.go:250-255 | The stored request time is the last multiple of the precision that is not after it. |
| Diagnostics.StatusIsItsHistory | internal/server/routes_diagnostics.go:103-111 | At any time of any run: completed exactly when the last answer carried data, else timed out exactly when more than the timeout has passed since the stored time, else pending. |
| AgentRetry.Run | cmd/puls-agent/agent.go:56-106 | The loop's waits and dial times for every sequence of attempts, against functions of the attempts made; which attempts it goes round after and which of them ends it how, attempt by attempt. |
| AgentRetry.OneRound | cmd/puls-agent/agent.go:68-105 | Each wait from the one before, and each dial time from the one before, in seconds. |
| AgentRetry.BackoffIsBounded | cmd/puls-agent/agent.go:62-104 | The backoff is always one of 1, 2, 4, 8, 16 and 30 seconds. |
| AgentRetry.WaitWithoutResets | cmd/puls-agent/agent.go:99-104 | Without a long connection the k-th wait is the smaller of 30 and 2 to the k. |
| AgentRetry.ResetStartsAgain | cmd/puls-agent/agent.go:74-76 | After a long connection the waits are those of a loop that has just started. |
| AgentRetry.RedialsAreThrottled | cmd/puls-agent/agent.go:68-105 | However connections end and however often the backoff is reset, any n consecutive redials take at least 18n - 59 and at least 18.2n - 60 seconds. |
| AgentRetry.RateIsBest | cmd/puls-agent/agent.go:64-76 | Connections just long enough to reset the backoff come as close as wished to 18.2 seconds a redial. |
| AgentRetry.ConstantIsBest | cmd/puls-agent/agent.go:62-105 | Five failed dials at the start meet both bounds exactly. |

## Left out

- Floating point: token levels and times are reals, so rounding of `float64` is not modelled.
- The clock: time is an input that does not go backwards; the limiter reads it under its lock.
- NoOrphanedConnection: has one more case than "current, closed, owed a close, past the loop", namely a connection between `wg.Add` and `Register`, which is counted but not yet in the hub.
- ShutdownStatus.ShutdownLeavesOfflineIff: assumes that no new connection comes after the snapshot, which the server does not ensure; `LeavesOfflineWhenIff` gives the condition without that.
- ShutdownStatus.ShutdownLeavesAllOffline: makes the same assumption.
- WaitIsBoundedIff: counts steps, not time. A read deadline is the step of a read that fails; that it is set anew for every read, so that a peer has to send again before it passes, is not modelled, nor are messages other than heartbeats, which change nothing here.
- StoredStatus.StableOnlineIff: assumes, as all results about connections do, that one server process writes the device table; the repository allows several on one Postgres database, and another process's offline write would break this and the shutdown results.
- The deadline on `Wait` and the 5 second limit on the offline write: a write that is cut off is a write that fails, and results about `Wait` concern its successful return.
- The WebSocket protocol: a read gives a message or an error, and an error once the connection is closed.
- Hub.Client.Run: takes the messages up to the failing read as a given sequence and runs without interruption; that such a run is one of the interleaved ones is `Session.HandleWebSocket`, the other interleavings are in `Lifecycle`.
- SqlitePagesAreInstantPages: covers times SQLite stores, whole seconds in years 0000 to 9999.
- CursorRoundTripIff: covers UTC times and ids that JSON writes without escapes; `DecodeCursor` reads the two-field form that is written, not every JSON object with those fields and not times with another offset.
- PostgresCursorsWalkTheTable: takes the id order as any strict total order that the filter and the sort share, and times as they are stored; that Postgres keeps microseconds is not modelled.
- The limit clamp of `handleListDevices` and the live-status overlay of the device routes would only add easy members.
- MigrationIsSafe: does not model whether an interrupted `CREATE INDEX CONCURRENTLY` left a valid index; the source says that needs an operator. Instances whose lists are not prefixes of one list are not covered.
- Broadcaster.EventBroadcaster.Publish: runs without interruption; receives between its offers are in `BroadcastSteps`.
- ExactlyOnce: one process at a time uses the SQLite file; the statements of a migration are one effect; releases whose lists are not prefixes of one list are not covered.
- Diagnostics: request ids are fresh, `received_at` is not kept, times are stored to a fixed precision (one second in SQLite), and the Postgres rounding of microseconds is not modelled.
- AgentRetry.Run: the state file and the token itself are not modelled, only whether registering again succeeded and how long it took; the attempts are a finite sequence, so an endless loop is seen through all its finite prefixes.
- Event streams: write deadlines and keepalives of the SSE handler; only the queue beneath them is modelled.
- HTTP routing, JSON bodies, JWT, bcrypt, UUID generation, logging, metrics and configuration.
- Host sampling of the agent.
