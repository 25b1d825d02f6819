# Proxywi: a verified model

Proxywi is a pool of proxy agents. Agents keep a control session to the server;
proxy clients reach the server over SOCKS5 or HTTP; each connection is handed to
one agent, which dials the target. This project models the parts of Proxywi whose
correctness depends on whole runs, and proves what they are for.

`dafny verify dfyconfig.toml` checks everything.

| file | what it models |
|---|---|
| `RoundRobin.dfy` | the pool as a value: which agent comes next, fairness under churn |
| `Registry.dfy` | the registry object: `Add`, `Remove`, `Get`, `Disconnect`, `Online`, `PickNext` |
| `ControlSessions.dfy` | every interleaving of control sessions, session deaths, disconnects and picks |
| `Streams.dfy` | connections as reads of arbitrary size, buffered readers, writes that may break |
| `Socks.dfy` | the SOCKS5 messages: readers, encoders, round trips |
| `Relay.dfy` | both front ends and the agent: handshake, buffer hand-over, copying, byte counts |
| `TwoHops.dfy` | client to target and back, through server and agent |
| `Refusals.dfy` | relays that come to nothing: every failure, byte by byte |
| `Clock.dfy` | `time.Truncate` (counted from year 1) and `time.Unix` |
| `RateLimiter.dfy` | the fixed-window limiter, its cleanup, and whole runs of both |
| `Hub.dfy` | the event hub as an object, and every interleaving of its users |
| `Metrics.dfy` | the agent's reports, the per-minute table, the bucketed query |
| `MetaStream.dfy` | the server's loop over the agent's messages |
| `Dashboard.dfy` | the chart: period, query, grid, headline |
| `Logs.dfy` | the request log: filter, order, pages |
| `Retention.dfy` | the store with its retention sweeps, as a transition system |
| `Storage.dfy` | the store as an object that the statements change |
| `TargetMasking.dfy` | masking of target hosts |
| `TokenIndex.dfy` | the unique token index, its migration, and authentication |
| `Basics.dfy`, `Rows.dfy`, `Sets.dfy` | shared definitions and facts |

How things are represented:

- A critical section, and an SQL statement, is one atomic step. Runs are sequences
  of steps in any order; theorems about runs hold for every such sequence.
- The clock is an input. Instants are integers in nanoseconds since 1970.
- What a connection delivers is a list of chunks, one per read; a theorem "for all
  lists of chunks" holds however the network cuts the bytes. What a connection
  accepts is bounded by the room it has before it breaks, so a write that fails or
  is cut short is covered too.
- bcrypt is a match predicate. JSON is a codec; what is asked of it is that the
  request document of the target at hand contains no newline and is read back as one
  for some target, and that the reply that confirms or refuses it is read back as that. Which
  target is read back is a parameter: for text in UTF-8 it is the same one, while
  encoding/json replaces other bytes by U+FFFD, and the agent then dials the changed
  name. (A codec that carries every target unchanged exists: `CodecExists`.)

Where the code and its documentation differ, the model follows the code: the
introduction says that agents are picked at random (README.md:7), but `PickNext`
goes round by ascending id (internal/server/registry.go:96-117).

Properties that one might expect but that do not hold, each with its exact condition
and, where it takes a run to see it, with that run:

- The client does not always get all of the target's bytes: whatever the server's
  reader had buffered beyond the agent's reply line is lost
  (internal/server/proxy_socks.go:128-157, internal/server/proxy_http.go:90-135).
  All of it arrives if and only if some read ended with that line
  (`DownstreamIsCompleteIff`, with `OneReadLosesEverything` as the extreme case).
- A window of the limiter can grant more than its limit, because a request reads the
  clock before it takes the lock (internal/server/ratelimit.go:25-26): one whose reading
  is a tick old reopens a window (`LateReading`). All windows of a key keep within all
  limits if and only if no window is returned to once left (`AllLimitsHoldIff`); each
  visit to a window grants exactly its limit in any case (`VisitGrantsItsLimit`).
- Cleanup of the limiter goes unnoticed if and only if the window's length and the lag of
  the clocks together are at most ten minutes and one tick (`CleanupIsUnobservableIff`,
  with the failing run `ForgetfulRun`).
- Deleting a client does not always end its token: the foreign key of the token sessions
  refuses the DELETE, and the handler drops the error
  (internal/storage/storage.go:36, internal/storage/migrations/000005_token_sessions.up.sql:5,
  internal/server/gui/handlers.go:328). It does if and only if no token session, expired
  or not, refers to the client (`DeletionRevokesIff`, `LoggedInClientIsNotDeleted`).
- Deleting a client never ends its agent's session: the handler does not call Disconnect
  (internal/server/gui/handlers.go:322-330), so the agent stays registered and goes on
  being picked in its turn (`DeletionsGoUnnoticed`, `DeletedClientIsPicked`, and the
  shortest run `DeletedClientServes`). A deleted client can have an agent, now or later,
  if and only if one is registered or has authenticated already (`DeletedCanBeRegisteredIff`).
- The upgrade to version 9 does not always go through, not even on ids cut from issued
  tokens: DROP TABLE is refused while a token session refers to a client. It goes through
  if and only if none does and no row carries the id made up for another
  (`UpgradeSucceedsIff`). If it fails, the server runs from the second start on, on the old
  tables, and never upgrades them (`FailedUpgradeIsSkipped`, `LoggedInClientStopsUpgrade`).
- Replacing a token does not always end the sessions that authenticated with it: one that
  is added after Disconnect has looked survives, and only such a one
  (`SurvivesDisconnectIff`, `OutdatedSessionSurvives`).
- A sweep goes unnoticed by an operation if and only if the operation does not look back
  beyond what the sweep kept (`NobodyNoticesIff`). A sweep that runs between the
  dashboard's reading of the clock and its query can take a row from the chart if and only
  if a full minute of its window has passed the cutoff (`DashboardNoticesIff`,
  `SweepBetweenReadingAndQuery`). Deleting a client tells that token sessions have been
  swept if and only if some referred to it and all of those had expired
  (`DeletionNoticesIff`), and a client that logs in after such a deletion tells it again
  (`LoginAfterDeletionNotices`).
- Truncating samples to minutes keeps their coarse bucket except, before 1970, in the
  first minute of a bucket (`MinuteKeepsBucketIff`).

## Model

| member | source | states |
|---|---|---|
| RoundRobin.BoundedBypass | internal/server/registry.go:96-117 | for any interleaving of joins, leaves and picks from any state: while an agent stays registered and has not been picked, no other agent is picked twice, so at most as many picks pass it over as other agents were ever registered |
| RoundRobin.NoStarvation | internal/server/registry.go:96-117 | once more picks have been made than there are other agents, a registered agent has been picked |
| RoundRobin.PicksAdvance | internal/server/registry.go:104-115 | the picks before an agent's turn move strictly along the walk up from it, round, and up to it |
| RoundRobin.RoundIsPermutation | internal/server/registry.go:96-117 | without churn n consecutive picks of n agents are a permutation of the agents |
| RoundRobin.PicksAreBalanced | internal/server/registry.go:96-117 | without churn every agent is picked, over a run of any length, as often as there are full rounds, or once more |
| RoundRobin.PickCountsDifferByAtMostOne | internal/server/registry.go:96-117 | two agents' pick counts never differ by more than one |
| AgentRegistry.Registry.Add | internal/server/registry.go:51-58 | the new agent is registered, the session it supersedes is closed, all else is unchanged |
| AgentRegistry.Registry.Remove | internal/server/registry.go:60-66 | only the very agent that is registered under the id is removed |
| AgentRegistry.Without | internal/server/registry.go:60-66 | removal by identity leaves a successor and all other ids alone |
| AgentRegistry.Registry.Get | internal/server/registry.go:68-73 | the registered agent, or none |
| AgentRegistry.Registry.Disconnect | internal/server/registry.go:75-84 | closes the session of a registered agent and leaves the registry as it is |
| AgentRegistry.Registry.Online | internal/server/registry.go:86-94 | lists exactly the registered agents, one entry each |
| AgentRegistry.Registry.PickNext | internal/server/registry.go:96-117 | collecting, sorting and scanning yields the cyclic successor of the last pick and remembers it; no agent exactly if the registry is empty |
| AgentRegistry.FirstAbove | internal/server/registry.go:108-115 | the scan of the sorted ids finds the smallest id above the last pick, else the smallest of all |
| ControlSessions.RunKeepsInv | internal/server/control.go:103-133 | the invariant of sessions, registry and disconnects holds after every run |
| ControlSessions.SessionSafety | internal/server/registry.go:51-66 | in every reachable state a client has at most one open added session, every other added session is closed, and the registered one is the latest added |
| ControlSessions.RegisteredIff | internal/server/registry.go:51-66 | after every run the registered sessions are exactly those that are their client's latest and have not returned |
| ControlSessions.ReconnectTakesOver | internal/server/registry.go:51-58 | in every reachable state an authenticated session can be added, whatever is registered; it is then registered, every earlier added session of its client is closed, and other clients' agents stay |
| ControlSessions.SecondSessionReplacesTheFirst | internal/server/registry.go:51-58 | the run in which an agent connects again while its first session is registered: the first is closed, the second registered |
| ControlSessions.RegistrationEnds | internal/server/registry.go:60-66 | a registration ends only by the session's own removal or a newer session of the same client, and only with the session closed; a late removal by a superseded session evicts nobody |
| ControlSessions.DrainedRegistryIsEmpty | internal/server/control.go:110-133 | once all serve calls have returned the registry is empty |
| ControlSessions.DisconnectIsEffective | internal/server/registry.go:75-84 | after a Disconnect has returned, every session of that client that is still open was added after it looked, however its two halves interleave with other steps |
| ControlSessions.SurvivesDisconnectIff | internal/server/gui/handlers.go:298-302 | when Disconnect closes what it found, an open added session of the client, authenticated with whichever token, survives exactly if its Add came after Disconnect had looked |
| ControlSessions.OutdatedSessionSurvives | internal/server/control.go:79-110 | the run in which an agent authenticates, its token is replaced, Disconnect looks, and the agent's session is added: it stays open and registered |
| ControlSessions.DeletionsGoUnnoticed | internal/server/gui/handlers.go:322-330 | any run without its deletions is a run with the same sessions, the same registry and the same picks: deleting clients closes nothing and unregisters nobody |
| ControlSessions.DeletedCanBeRegisteredIff | internal/server/control.go:76-111 | a deleted client can have an agent in the registry, in this state or any later one, if and only if one is registered or a session of its has authenticated and is not added yet |
| ControlSessions.OpenSessionStaysRegistered | internal/server/registry.go:51-84 | while a session neither dies nor is superseded or closed by a Disconnect, its client stays registered, deleted or not |
| ControlSessions.DeletedClientIsPicked | internal/server/gui/handlers.go:322-330 | while its open session is left alone a deleted client is picked, once more picks have been made than there are other clients |
| ControlSessions.DeletedClientServes | internal/server/gui/handlers.go:322-330 | the run in which an agent connects, its client is deleted, and the next pick takes it |
| ControlSessions.RunIsPoolHistory | internal/server/control.go:110-111 | the registry's joins, leaves and picks in any run form a history of the pool |
| ControlSessions.NoClientIsBypassedTwice | internal/server/registry.go:96-117 | bounded bypass holds in the running server, from any state and under any churn |
| Streams.BufReader.ReadFull | internal/server/proxy_socks.go:202-211 | delivers exactly the next n bytes or fails at the end of the stream, however the bytes arrive, and makes reads only while they are needed |
| Streams.BufReader.ReadLine | internal/tunnel/protocol.go:36-42 | delivers the next line and leaves the buffer and the later reads as they are |
| Streams.NextLineIsChunkIndependent | internal/tunnel/protocol.go:36-42 | the line read, and buffered plus unread bytes together, depend only on the bytes and not on the reads |
| Streams.BufferedIffNoBoundary | internal/server/proxy_socks.go:128-135 | nothing is left in the buffer exactly if some read ended with the line |
| Streams.AdvanceReadsWhatItNeeds | internal/server/proxy_socks.go:202-211 | exactly the reads are made that are needed to have the bytes asked for, and what they brought beyond those stays buffered |
| Socks.ReadGreeting | internal/server/proxy_socks.go:200-213 | reads exactly what parsing all pending bytes gives, and consumes just the message |
| Socks.ReadUserPass | internal/server/proxy_socks.go:215-239 | the same for user name and password |
| Socks.ReadHost | internal/server/proxy_socks.go:254-281 | the same for the address, with the reply for an unknown address type |
| Socks.ReadRequest | internal/server/proxy_socks.go:241-288 | the same for the request, with the replies for an unsupported command or address type and none otherwise |
| Socks.GreetingInvertsEncoding | internal/server/proxy_socks.go:200-213 | a greeting parses to its methods and leaves the rest exactly if it is their encoding (RFC 1928, section 3) |
| Socks.UserPassInvertsEncoding | internal/server/proxy_socks.go:215-239 | the same for user name and password (RFC 1929, section 2) |
| Socks.RequestInvertsEncoding | internal/server/proxy_socks.go:241-288 | the same for the request, whatever its reserved byte (RFC 1928, section 4) |
| Socks.MessageLayouts | internal/server/proxy_socks.go:200-288 | the encodings byte by byte, as RFC 1928 (sections 3 and 4) and RFC 1929 (section 2) lay them out |
| Socks.GreetingPrefixRejected | internal/server/proxy_socks.go:200-213 | every proper prefix of a greeting is rejected |
| Socks.UserPassPrefixRejected | internal/server/proxy_socks.go:215-239 | every proper prefix of a user name and password message is rejected |
| Socks.RequestPrefixRejected | internal/server/proxy_socks.go:241-288 | every proper prefix of a request is rejected, silently |
| Relay.WriteJsonLine | internal/tunnel/protocol.go:26-34 | writes the document and its newline as far as they go through; succeeds exactly if all did |
| Relay.Drain | internal/server/proxy_socks.go:149-155 | the buffered bytes are handed over and counted, the buffer is empty, no read is made |
| Relay.CopyOnce | internal/server/proxy_http.go:258-271 | one round of a copy keeps what the destination will have received in the end |
| Relay.Pipe | internal/server/proxy_http.go:248-275 | in every interleaving of the two copies each side receives the other's bytes in order, as far as they go through, and the counts are the seeds plus exactly that |
| Relay.Open | internal/server/registry.go:25-39 | which of no agent, unwritable request, bad reply and refusal stops a connection, what the client hears of it, and what the agent has been sent |
| Relay.Serve | internal/server/proxy_socks.go:111-157 | from the known target on: the client hears the right failure, or success and then what came after the read that completed the reply; the agent gets the request and then the client's remaining bytes; the exact counts, whichever writes fail |
| Relay.HandleConnect | internal/server/proxy_http.go:61-138 | the same for CONNECT, with port 443 where the host has none |
| Relay.Greet | internal/server/proxy_socks.go:74-84 | accepts a greeting exactly if it offers user/password authentication and the answer could be written; the two possible answers |
| Relay.LogIn | internal/server/proxy_socks.go:86-104 | lets a client in exactly if it is verified and allowed and the answer could be written; the two possible answers |
| Relay.AcceptRequest | internal/server/proxy_socks.go:106-109 | accepts exactly the well-formed CONNECT requests; the refusals |
| Relay.ReadSession | internal/server/proxy_socks.go:74-109 | the three exchanges one after the other: all that is told, when the session goes on, and what is left to read |
| Relay.HandleSocks | internal/server/proxy_socks.go:67-160 | a whole connection: every byte the client hears and the agent gets and the exact counts, for every client, every way its bytes arrive, every agent's answer and every point at which writes fail; nothing reaches an agent for a client that was not let in |
| Relay.AgentTunnel | internal/client/client.go:155-186 | the agent hands over its buffer and copies both ways; the exact counts, the whole buffer counting even if writing it fails |
| Relay.ReadProxyRequest | internal/client/client.go:130-150 | goes on exactly if the request is readable, allowed and dialled and the reply could be written; which reply is sent |
| Relay.HandleStream | internal/client/client.go:126-187 | a whole stream on the agent: what target and server receive and exactly what is counted, for every request and every point at which writes fail |
| TwoHops.DownstreamLosesTheBuffer | internal/server/proxy_socks.go:128-157 | what the server passes on is the target's bytes without exactly the part its reply reader had buffered |
| TwoHops.DownstreamIsCompleteIff | internal/server/proxy_socks.go:128-157 | everything is passed on if and only if some read ended with the reply line |
| TwoHops.OneReadLosesEverything | internal/server/proxy_http.go:90-135 | nothing is passed on if reply and data arrive in one read |
| TwoHops.SessionInvertsEncoding | internal/server/proxy_socks.go:74-109 | a client that sends its three messages as the RFCs lay them out and is let in has them read back, and everything after them is left over |
| TwoHops.AcceptedSessionWasSent | internal/server/proxy_socks.go:74-109 | every session the server accepts was sent as those three messages, by a client that offers user/password authentication and was verified and allowed |
| TwoHops.ServerHop | internal/server/proxy_socks.go:67-160 | without write failures the agent gets the request and all bytes after the client's messages, both counted exactly |
| TwoHops.ConnectHop | internal/server/proxy_http.go:119-138 | the same for CONNECT, with the bytes that came together with the head |
| TwoHops.AgentHop | internal/client/client.go:126-187 | the agent dials the target that the request reads back as; without write failures that target gets exactly the bytes after the request line and the server the reply and all of the target's bytes, both counted exactly |
| TwoHops.SocksSession | internal/server/proxy_socks.go:67-160 | through both hops, for every way of cutting every stream: the target dialled is the one the request document reads back as; it receives exactly the bytes after the SOCKS request, counted alike by server and agent; the client receives the target's bytes without the buffered part, and all of them if and only if a read ended with the reply |
| TwoHops.ConnectSession | internal/server/proxy_http.go:61-138 | the same through CONNECT |
| Refusals.LetInHop | internal/server/proxy_socks.go:111-157 | a client that is let in hears 05 02 01 00 and then 05 03 if no agent is online, 05 04 if the request cannot be written, 05 01 if the agent's reply is missing or unreadable, 05 05 if it says no, and 05 00 with the rest of what is read only if it says yes, as far as its writes go through; the agent gets the request alone, and the client's bytes only in the last case |
| Refusals.TurnedAwayHop | internal/server/proxy_socks.go:74-109 | 05 FF to a greeting without user/password, 05 02 01 01 to a client that is not verified or not allowed, 05 07 to another command, 05 08 to an unknown address type; nothing reaches an agent |
| Refusals.StrangerHop | internal/server/proxy_socks.go:200-213 | a client that sends nothing or does not begin with 05 hears nothing |
| Refusals.ConnectAnswer | internal/server/proxy_http.go:61-138 | the same cases for CONNECT, with port 443 where the host has none: the client hears the error response of just that case, and the 200 response only if the agent says yes |
| Refusals.ConnectOkText | internal/server/proxy_http.go:119-121 | the response to CONNECT says 200 and ends its head |
| Refusals.AgentAnswers | internal/client/client.go:126-187 | the agent says no to a target that is not allowed, which it does not dial, and to one it cannot dial, and nothing to an unreadable request; only a dialled target gets bytes, and only those are counted |
| Refusals.UnreachableTarget | internal/client/client.go:138-150 | through both hops: if the agent may not or cannot reach the target, the client hears 05 02 01 00 05 05 and the zero address and nothing more, and the target gets nothing |
| Refusals.HandedOverCounts | internal/server/proxy_socks.go:149-155 | the count of the bytes sent on is what went through, and too high by just that part of the reader's buffer that did not |
| Clock.TruncateMonotone | internal/server/ratelimit.go:30-31 | a later instant lies in the same aligned window or at least one window on |
| Clock.WeeksStartOnMonday | internal/server/ratelimit.go:30-31 | truncation counts from 1 January of the year 1, a Monday, so that windows of a week start on Mondays |
| RateLimiting.RateLimiter.Allow | internal/server/ratelimit.go:24-40 | the buckets, updated in place, and the answer follow the fixed-window rule |
| RateLimiting.RateLimiter.Cleanup | internal/server/ratelimit.go:42-55 | exactly the buckets whose window began more than ten minutes ago are gone |
| RateLimitRuns.CleanupIsUnobservable | internal/server/ratelimit.go:24-55 | cleanups at any moments change no answer, as long as no request lags behind an earlier cleanup by more than what its window leaves of ten minutes |
| RateLimitRuns.CleanupIsUnobservableIff | internal/server/ratelimit.go:24-55 | for every window length and every bound on how far requests' clocks lag behind cleanups', cleanup is unobservable if and only if the two together are at most ten minutes and one tick |
| RateLimitRuns.CleanupIsUnobservableInOrderIff | internal/server/ratelimit.go:42-55 | the same for clocks that never go back |
| RateLimitRuns.ForgetfulRun | internal/server/ratelimit.go:42-55 | otherwise, in every aligned window, a run in which a cleanup lets a request through |
| RateLimitRuns.VisitGrantsItsLimit | internal/server/ratelimit.go:24-40 | whatever the order of the clock readings: each visit of a key to a window, that is, each stretch of its requests in the window that the key enters from elsewhere, is granted exactly the smaller of its limit and its requests; a limit below one counts as one, because a new window admits its first request unchecked |
| RateLimitRuns.WindowGrantsItsLimit | internal/server/ratelimit.go:24-40 | so is each whole window if the key returns to no window it has left |
| RateLimitRuns.InOrderNeverReturns | internal/server/ratelimit.go:25-30 | which is so if requests enter the lock in the order of their readings, or never fall back to an earlier window |
| RateLimitRuns.AllLimitsHoldIff | internal/server/ratelimit.go:24-40 | in whatever order requests come, all windows of a key keep within all limits of at least one if and only if no window is returned to once left |
| RateLimitRuns.LateReading | internal/server/ratelimit.go:25-26 | a reading one tick old between two at the start of a window makes the window grant a limit of one twice |
| RateLimitRuns.RatePerVisit | internal/server/ratelimit.go:24-55 | over every run, cleanups included and in whatever order requests come: an interval one window long grants a key at most its limit for every visit to one of the two windows it meets |
| RateLimitRuns.RateBound | internal/server/ratelimit.go:24-55 | over every run in which the key returns to no window it has left, cleanups included: no interval one window long grants it more than twice its limit |
| EventHub.Hub.Publish | internal/server/hub.go:48-60 | every subscribed channel with room gets the event at its end, a full one stays as it is |
| EventHub.Hub.Subscribe | internal/server/hub.go:62-66 | a new, empty channel joins the subscribers |
| EventHub.Hub.Cancel | internal/server/hub.go:67-72 | the channel leaves the subscribers and is closed, its buffer stays readable |
| HubInterleavings.RunKeepsInv | internal/server/hub.go:44-73 | lock discipline, order and accounting hold after every interleaving |
| HubInterleavings.SendsReachOpenChannels | internal/server/hub.go:54-72 | no send ever hits a closed channel, and no buffer holds more than 64 events |
| HubInterleavings.ReceivedInOrder | internal/server/hub.go:48-60 | a subscriber reads each single publisher's events in the order of publication, without repetition |
| HubInterleavings.EveryEventIsAcceptedOrMissed | internal/server/hub.go:48-60 | at each channel subscribed when it was published an event ends up accepted or missed, never both |
| HubInterleavings.SubscribersGetTheEvent | internal/server/hub.go:48-60 | over every run: once its publisher has left the lock an event has been accepted or missed, not both, by exactly the channels that were subscribed when the publisher entered it, and by no other |
| HubInterleavings.PublishersOverlap | internal/server/hub.go:48-52 | a publisher can enter the lock while others are inside |
| HubInterleavings.PublisherCanFinish | internal/server/hub.go:48-60 | a publisher inside the lock can leave it by its own steps, whatever the subscribers do and however full they are |
| HubInterleavings.LockCanBeFreed | internal/server/hub.go:44-73 | from every reachable state the lock can be freed without any subscriber reading, so that subscribing and cancelling can go on |
| HubInterleavings.MissedExactlyWhenFull | internal/server/hub.go:48-60 | over every run: a channel has missed an event exactly if it was sent the event at a step at which its buffer held 64 events, has accepted it exactly if it was sent it at one at which there was room, and is sent it at most once |
| Metrics.MetaLoop | internal/client/client.go:189-213 | the reports sent are the differences between consecutive ticks, up to the first that cannot be written |
| Metrics.ReportOfTick | internal/client/client.go:195-209 | one report per tick, with what the counters gained since the tick before and the connections at the tick |
| Metrics.ReportsTelescope | internal/client/client.go:195-209 | the deltas add up to the counters at the last reported tick |
| Metrics.UpsertKeepsKeys | internal/storage/storage.go:574-585 | client and minute stay a key of the table |
| Metrics.UpsertMeaning | internal/storage/storage.go:574-585 | exactly one row changes: the sample's row gains its volume and takes over its connection count |
| Metrics.SampleMeaning | internal/storage/storage.go:574-585 | storing a report changes exactly the row of its client and of the minute it came in, which gains its bytes and takes its connections |
| Metrics.AnswerMeaning | internal/storage/storage.go:602-624 | under each bucket the query lists the sum over exactly the rows from since on and before until, or the present, of the client or clients asked for, that fall into the bucket |
| Metrics.UpsertConserves | internal/storage/storage.go:574-585 | a sample adds its volume to its client and to no other |
| Metrics.GroupOrders | internal/storage/storage.go:611-624 | buckets come in ascending order, once each, and only those of selected rows |
| Metrics.GroupSumsBuckets | internal/storage/storage.go:611-624 | each listed volume is the sum over the rows of its bucket |
| Metrics.GroupTakesPeaks | internal/storage/storage.go:611-624 | a bucket is listed exactly if it has selected rows, with the largest of their connection counts |
| Metrics.GroupConserves | internal/storage/storage.go:611-624 | all listed volumes together are the sum over the selected rows |
| MetaStream.Handle | cmd/proxywi-server/main.go:112-118 | a traffic report is stored under its client and minute and announced on the hub; other messages do nothing |
| MetaStream.ReadMetaStream | internal/server/control.go:135-167 | after any stream of messages the table holds what was stored, the rest of the store is unchanged, and each subscriber's buffer got the first announcements that fitted |
| MetaStream.TableGainsWhatIsStored | internal/server/control.go:148-166 | the table gains for the client exactly the volumes stored, and nothing for other clients |
| MetaStream.MixedGains | internal/server/control.go:135-167 | messages of any sessions of any clients, in any interleaving, into one table: each client's rows gain exactly what was stored from its own sessions |
| MetaStream.AllCountersReachTheTable | internal/client/client.go:189-213 | if all reports of all sessions are stored, in whatever interleaving, each client's rows gain exactly the sum of its sessions' counters at their last ticks |
| MetaStream.CountersReachTheTable | internal/client/client.go:189-213 | from the agent's counters to the server's table: if all reports are stored the client's rows gain exactly the counters at the last tick, whenever the reports arrive |
| Dashboard.PeriodsAreCommensurable | internal/server/gui/handlers.go:110-116 | every period's bucket divides the distance between year 1 and 1970, is a multiple of a minute, and no period exceeds 30 days |
| Dashboard.PeriodLengths | internal/server/gui/handlers.go:110-128 | the five periods and their buckets; one hour for any other key |
| Dashboard.GridStart | internal/server/gui/handlers.go:147 | for such buckets the truncated start of the period is a multiple of the bucket since 1970, in the bucket of the start |
| Dashboard.BucketOnGrid | internal/storage/storage.go:611 | SQL's bucket of a row is a multiple of the width and not before the grid's start |
| Dashboard.MinuteKeepsBucketIff | internal/storage/storage.go:575 | if 60 divides the width, truncating a sample to its minute leaves it in its bucket exactly unless it lies, before 1970, in the first minute of a bucket but not at its start |
| Dashboard.BuildMap | internal/server/gui/handlers.go:137-140 | the map holds what the query listed for each bucket, and nothing else |
| Dashboard.WalkGrid | internal/server/gui/handlers.go:147-152 | the loop labels all grid points up to the first that lies in the future, with the map's volumes |
| Dashboard.AddUp | internal/server/gui/handlers.go:155-159 | the headline adds up the listed volumes |
| Dashboard.AnswerIsOnGrid | internal/server/gui/handlers.go:133-152 | every bucket of the answer is a grid point that the loop reaches, or, while the clock stands before 1970, at most the next one |
| Dashboard.GridCoversPoints | internal/server/gui/handlers.go:147-152 | the volumes found along the grid add up to those of the answer, each counted once |
| Dashboard.GetDashboard | internal/server/gui/handlers.go:120-159 | for every period and every table: the labels are the bucket starts from the period's first to the present's, without a gap; each plotted value is what the query listed for its label; the headline is the sum over exactly the rows of the period; the plotted series add up to it without what is listed for the next label, which is nothing from 1970 on |
| RequestLog.GetLogs | internal/server/gui/handlers.go:505-521 | any requested page number leads to an existing page of what was counted, whose offset is at most the count; shown is that page of what is there when it is listed, at most 20 events, and nothing only if there is nothing, unless rows change in between; every event shown is one that was asked for (time, user, client, and search text), and the count is the number of those events |
| RequestLog.LikeMeansContains | internal/storage/storage.go:742-746 | a search text without % selects exactly the targets it occurs in, letters regardless of case, an underscore standing for any character |
| RequestLog.OrderedIsNewestFirst | internal/storage/storage.go:776 | the order of the listing is newest first, by time and then by id, and loses and adds no event |
| RequestLog.WantedIsOnOnePage | internal/storage/storage.go:729-748 | an event stands on some page exactly if it is in the log, not too old, of the user and of the client asked for, if any, and to a target in which the search text occurs; and on no two pages |
| RequestLog.ClientSeesItsOwn | internal/server/gui/token.go:100-101 | the page of a client that has logged in shows only its own events of the period, newest first, at most 200, and leaves none out that is newer than one it shows |
| RequestLog.OddLimits | internal/storage/storage.go:758-764 | limits outside 1 to 1000 count as 20, negative offsets as none |
| RequestLog.CountIsWanted | internal/storage/storage.go:750-756 | the count is the number of exactly those events |
| RequestLog.PagesPartitionTheLog | internal/server/gui/handlers.go:505-521 | the pages one after the other are the whole filtered log, newest first, every event exactly once |
| Retention.UpsertAmongNewer | internal/storage/storage.go:574-585 | storing a sample and dropping old rows can be exchanged |
| Retention.StepKeepsAgreement | internal/storage/storage.go:574-706 | every operation, done in a swept and in a full store, keeps them alike for all operations to come |
| Retention.SweepKeepsAgreement | internal/storage/storage.go:645-667 | a sweep in only one of them keeps them alike for the operations it is harmless to |
| Retention.OperationIsAnsweredAlike | cmd/proxywi-server/main.go:256-298 | in a run with sweep statements anywhere, an operation that all earlier ones are harmless to has the answer it has in the run without sweeps, whatever the other operations are, as long as nobody creates a token session for a client that was to be deleted after a sweep |
| Retention.RetentionIsUnobservable | cmd/proxywi-server/main.go:256-298 | whichever operations one looks at, if the sweeps are harmless to those, their answers are those of the run without sweeps: dashboard queries, log counts and listings, session lookups, insertions and deletions |
| Retention.SweepsAreNeverNoticed | cmd/proxywi-server/main.go:26-30 | in runs in which no sweep's clock readings come after those of later operations, no chart goes back more than 30 days, and clients do not log in after a deletion, everything but the deletions of clients is answered as if there were no sweeps; clients may be deleted at any time |
| Retention.DeletionNoticesIff | internal/storage/storage.go:453-456 | deleting a client notices a sweep of token sessions in exactly the stores in which some token session refers to the client and all that do have expired |
| Retention.LoginAfterDeletionNotices | internal/storage/storage.go:211-219 | a run with a sweep, a deletion and a log-in whose last answer differs without the sweep |
| Retention.NobodyNoticesIff | cmd/proxywi-server/main.go:26-30 | a sweep statement goes unnoticed by a chart, a log query, a lookup or a deletion in every store if and only if that operation does not look back beyond the sweep's cutoff; deleting a client looks at all token sessions |
| Retention.DashboardNoticesIff | internal/server/gui/handlers.go:133-135 | for every period and all clock readings: in some store that the server can have filled, a sweep takes a row from the dashboard if and only if a full minute of the window lies before the sweep's cutoff |
| Retention.SweepBetweenReadingAndQuery | internal/server/gui/handlers.go:133-135 | a sweep that reads the clock a minute or more after a 30-day chart did, and runs before its query, can be noticed; one that read it no later cannot |
| Retention.SessionIsFoundIff | internal/storage/storage.go:211-267 | a session inserted under a new id for an owner in the table is found with that owner, over whatever run follows, exactly until it has expired, is deleted, or is swept after its expiry |
| Retention.OtherSessionsAreFound | internal/storage/storage.go:243-267 | an insertion is refused exactly if the id is taken or the owner unknown, and changes no other session's lookup |
| Retention.OwnersAfterRun | internal/storage/migrations/000005_token_sessions.up.sql:1-6 | admins and clients can own sessions from when they are added, clients as long as nobody asks to delete them |
| Retention.DeletionMeaning | internal/storage/storage.go:453-456 | a deletion takes exactly the client, and is refused exactly if some token session is the client's |
| Retention.SweepMeaning | internal/storage/storage.go:645-667 | each DELETE keeps exactly the rows of the last 30 days, the events of the last 24 hours, or the sessions of its table that have not expired, in order, and nothing else changes |
| Retention.CountMeaning | internal/server/gui/handlers.go:490-511 | the log's count answers how many events of the last 24 hours are of the user and of the client asked for, if any, and to targets in which the search text occurs |
| Retention.ChartMeaning | internal/storage/storage.go:602-624 | a chart's query answers, under each bucket, the traffic of the period of the client or clients asked for, and of all if none is |
| Retention.SamplesAreStored | internal/storage/storage.go:574-585 | rows stand at full minutes and belong to clients numbered from 1, and storing a sample keeps it so |
| Storage.SweepsLeaveTheNewer | cmd/proxywi-server/main.go:256-298 | whatever the ticks and failures, the sweeps leave exactly the rows not older than any cutoff whose statement succeeded and the sessions not expired at any such reading, in order, and change nothing else |
| Storage.LoopIsNeverNoticed | cmd/proxywi-server/main.go:256-298 | the loop's statements, failed sweeps included, interleaved with any operations that read the clock no earlier than the statement before them: every operation is answered as if there were no sweeps, with charts of at most 30 days and clients that do not log in after a deletion; only deletions may be answered differently |
| Storage.Store.AddMetricSample | internal/storage/storage.go:574-585 | the statement's effect on the whole store |
| Storage.Store.InsertProxyEvent | internal/storage/storage.go:684-706 | the event is appended under the next id, which is returned, with the present for a missing time and "ok" for a missing outcome |
| Storage.Store.InsertSession | internal/storage/storage.go:211-219 | a new session with this owner and this time of expiry, refused exactly if the id is taken or the owner does not exist; all other sessions stay |
| Storage.Store.FindSession | internal/storage/storage.go:221-236 | the owner of the session up to and including the second in which it expires; later it is not found, and is deleted by a statement of its own |
| Storage.Store.RemoveClient | internal/storage/storage.go:453-456 | the deletion of a client, refused exactly if a token session refers to it |
| Storage.Store.Execute | internal/storage/storage.go:645-667 | a DELETE statement removes exactly the rows beyond the cutoff and counts them |
| Storage.Store.PurgeOldData | internal/storage/storage.go:645-667 | the four statements take effect in order up to the first that fails, and the count is that of the rows gone in any case |
| Storage.Store.PurgeProxyEventsOlderThan | internal/storage/storage.go:798-805 | the same for the request log |
| Storage.Store.RunRetentionSweep | cmd/proxywi-server/main.go:256-298 | the loop executes its sweeps' statements in order, failed sweeps included, and leaves the rows and sessions that survive all cutoffs |
| TargetMasking.MaskInPlace | internal/server/gui/handlers.go:455-466 | the loop over the labels rewrites each label in place as the rule says |
| TargetMasking.AnonymizeTarget | internal/server/gui/handlers.go:443-472 | the handler computes the masked target |
| TargetMasking.MaskedPortWasPort | internal/server/gui/handlers.go:481-486 | masking never creates something that reads as a port |
| TargetMasking.MaskingKeepsPort | internal/server/gui/handlers.go:443-488 | a recognised port survives masking, and none appears |
| TargetMasking.MaskingIsIdempotent | internal/server/gui/handlers.go:443-488 | masking a masked target changes nothing, for every byte string |
| TargetMasking.MaskingKeepsPositions | internal/server/gui/handlers.go:455-471 | outside brackets masking only puts stars over bytes other than dots: length and dots stay |
| TargetMasking.HiddenPositions | internal/server/gui/handlers.go:455-471 | byte by byte, for every target without brackets: hidden are all bytes of a label of at most two, the first of a label of three, and those after the third of a longer one; all other bytes, the dots and the port are the target's own |
| TargetMasking.LabelAround | internal/server/gui/handlers.go:455-466 | every byte of a host that is not a dot lies in a label, so that this covers all bytes |
| TargetMasking.BracketsAreHidden | internal/server/gui/handlers.go:448-454 | a target that starts with a bracket is hidden up to its last "]:", and altogether if it has none |
| TargetMasking.PortIsNumber | internal/server/gui/handlers.go:481-486 | of at most 18 bytes, the text after the last colon is a port exactly if it consists of digits with perhaps a sign before them |
| TargetMasking.NoColonNoPort | internal/server/gui/handlers.go:481-488 | a target without a colon has no port |
| TokenIndex.DecimalInjective | internal/storage/migrations/000009_remove_ip_data.up.sql:11 | different ids have different decimal texts |
| TokenIndex.UpgradeKeepsTokens | internal/storage/migrations/000009_remove_ip_data.up.sql:10-11 | the upgrade keeps every client with its hash, so that its row accepts the same tokens as before, and its token id; a client without one gets "legacy-" and its number in decimal |
| TokenIndex.TokenIdIsPrefix | internal/storage/storage.go:284-292 | the token id is the first 16 bytes of the token |
| TokenIndex.UpgradeSucceedsIff | internal/storage/migrations/000009_remove_ip_data.up.sql:1-16 | the statements, in order, go through if and only if no token session refers to a client and no row already carries the id made up for another row; the new index is then unique |
| TokenIndex.UpgradeOfIssuedIdsIff | internal/storage/migrations/000009_remove_ip_data.up.sql:1-16 | if the ids in use were cut from issued tokens they go through if and only if no token session refers to a client, and no id is blank afterwards |
| TokenIndex.FailedUpgradeIsSkipped | internal/storage/storage.go:53-101 | on a disk at version 7 or 8 the first start succeeds if and only if the upgrade does; otherwise every later start clears the dirty mark and runs on the old tables, for good |
| TokenIndex.LoggedInClientStopsUpgrade | internal/storage/storage.go:53-101 | one client and one token session are enough |
| TokenIndex.ClientByTokenId | internal/storage/storage.go:398-411 | a client with the token id, none only if there is none |
| TokenIndex.Scan | internal/server/control.go:185-193 | trying all hashes in any map order finds a matching client, none only if none matches |
| TokenIndex.AuthenticateToken | internal/server/control.go:169-195 | its three queries may meet three states of the table: the indexed client is accepted whenever its hash matches; otherwise the answer is one that a scan of the hashes as read can give; in an unchanged table it accepts only a matching client, rejects only if none matches, and gives the scan's answer, whatever its order, if at most one hash matches |
| TokenIndex.ScanIsDeterminedIff | internal/server/control.go:185-193 | the scan's answer depends on the map order exactly if two hashes match the token |
| TokenIndex.TrimSpaceFinds | internal/server/gui/token.go:14 | spaces around a token do not matter at the GUI |
| TokenIndex.ClientByToken | internal/server/gui/token.go:13-39 | the GUI's login: the same for the trimmed token, and no client for a blank one |
| IssuedTokens.RunKeepsInv | internal/server/gui/handlers.go:260-330 | every run of creations, regenerations, deletions, log-ins and ends of sessions keeps the token ids unique, each session's client in the table, and each issued token's row in step with it |
| IssuedTokens.IssuedTokenIsIndexed | internal/server/gui/handlers.go:266-298 | whatever the migrated table, after every such run the index leads from each token in force to its client |
| IssuedTokens.OnlyTheTokenInForce | internal/server/gui/handlers.go:281-305 | from any migrated table, with an exact hash: the row of each client that has been issued a token accepts the token in force and nothing else, in particular no replaced token, no two such clients accept the same token, and the scan's order does not matter if all rows are of this kind |
| IssuedTokens.TokenStaysInForce | internal/server/gui/handlers.go:260-330 | a token stays in force until its client is given another one or is asked to be deleted, whatever happens to others |
| IssuedTokens.LoginOpensTheClientsSession | internal/server/gui/token.go:46-67 | after any run, a log-in opens a session that is the very client's, which stays so until it is ended, whatever happens in between |
| IssuedTokens.SessionsComeFromLogins | internal/server/gui/token.go:46-67 | every session is from before or was opened by a log-in of its client |
| IssuedTokens.DeletionRevokesIff | internal/server/gui/handlers.go:322-330 | after any such run, deleting a client takes its token out of force if and only if no token session, expired or not, refers to the client |
| IssuedTokens.LoggedInClientIsNotDeleted | internal/storage/migrations/000005_token_sessions.up.sql:1-6 | a client that has logged in with its token and is then deleted is still accepted with it |
| IssuedTokens.ClientStore.CreateClient | internal/storage/storage.go:294-302 | a new row, refused exactly if the token id is in use |
| IssuedTokens.ClientStore.UpdateClientToken | internal/storage/storage.go:448-451 | the row's token, refused exactly if another row has the token id; no error without such a row |
| IssuedTokens.ClientStore.PostNewClient | internal/server/gui/handlers.go:260-279 | a new row with the hash and the id of the token, refused exactly if another row has that id |
| IssuedTokens.ClientStore.DeleteClient | internal/storage/storage.go:453-456 | the row goes, refused exactly if a token session refers to it |
| IssuedTokens.ClientStore.PostRegenerateClient | internal/server/gui/handlers.go:281-305 | the lookup may meet an earlier table than the UPDATE: for a client that was there when looked up, the step of replacing its token, after which its agent's session is closed; if it has been deleted meanwhile no row changes and the new token is shown all the same; nothing is closed if the UPDATE fails |
| IssuedTokens.ClientStore.PostDeleteClient | internal/server/gui/handlers.go:322-330 | the step of deleting a client, which does nothing if a token session refers to it |
| IssuedTokens.ClientStore.PostTokenLogin | internal/server/gui/token.go:46-67 | its three queries and the INSERT may meet four states of the table: a session is only opened for, and belongs to, a client whose hash matches the trimmed token and that is still there, and for the indexed one exactly if it is still there and the session id is new |
| IssuedTokens.ClientStore.DropSession | internal/server/gui/token.go:69-75 | the step of ending a session |

## Left out

- Integer widths: counters, ids and sums are unbounded. The offset that `getLogs`
  computes before clamping may wrap for a huge page number; it is recomputed after
  clamping, so nothing depends on it.
- Retention.RetentionIsUnobservable: session ids are taken to be new each time they are
  drawn, as the store draws them at random. A lookup that finds an expired session is two
  steps; the run without sweeps contains the same steps, the second of which does nothing
  where the session is already gone.
- Retention.SweepsAreNeverNoticed: says nothing about the answers to deletions of clients
  after a sweep of token sessions, because those can differ (`DeletionNoticesIff`), nor about
  clients that log in once they were to be deleted after such a sweep, because those can too
  (`LoginAfterDeletionNotices`).
- Storage.LoopIsNeverNoticed: the same.
- `UserUsageStats`: it has no lower time bound, so sweeps are visible in it by design.
- TokenIndex.UpgradeSucceedsIff: of the tables in migration 000009 only `clients` and the
  token sessions are modelled. The migration library is not part of this model: it is taken to
  run each file in one transaction and to mark the version dirty while it runs.
- RequestLog.LikeMeansContains: says nothing about search texts with a % of their own. SQL's
  `_` stands for one character; the model takes characters to be bytes, which is so for ASCII
  targets.
- Names joined into the log listing.
- RateLimitRuns.CleanupIsUnobservable: the order of critical sections is the order of the
  list; how far a clock reading may lag behind it is a hypothesis.
- Relay.HandleConnect: what net/http does before the handler, and the text of its error
  responses, which is a parameter.
- `handle`'s three exchanges are methods of their own (`Greet`, `LogIn`, `AcceptRequest`), and
  its log events are not modelled; nor is `active_conns`, which the agent raises and lowers.
- `serve` is a step system and not a method, because its whole point is how several calls
  interleave; the handshake's messages, `MarkClientSeen` and its hub events are left out. No claim is made
  that the last hub event tells whether a client is online: a superseded session can announce
  "offline" after its successor has announced "online".
- Reads of zero bytes, deadlines, half-closing, yamux, WebSocket, TLS, DNS and dialling.
- The rendering of IP addresses and `net.JoinHostPort`: the text of a target is a parameter.
- The forwarding of plain HTTP requests and the removal of hop-by-hop headers.
- The agent's target ACL, which is a parameter (`allowed`).
- A hub subscription is cancelled once; a second call of the cancel function is not modelled.
- Cookies, CSRF, templates, SSE output, configuration, the admin command line and backoff.
