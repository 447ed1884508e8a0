# A verified model of the TMX message hub

The hub (TMX core) connects plugins that exchange messages. This project models its concurrent protocols, the codecs on
its wires and the algorithms of its web client in Dafny, and proves what they promise over every run and every input.

| module | models |
|---|---|
| `Filters`, `Router`, `RouterSafety`, `RouterHistory`, `RouterProgress`, `RouterNested` | the message router: any number of threads, one step per lock, unlock, load and store; and callbacks that call the router back |
| `Connection`, `ConnectionSafety` | the receiver and the two processor threads of one plugin connection, with queues, mutexes, auto-reset events and shutdown |
| `Handshake`, `HandshakeSafety`, `HandshakeErrors` | the client library and the core over FIFO channels: connect, register, config reply, subscribe, status and event log, routed messages, errors, reconnect |
| `MsgFramer` | the STX/ETX framer on the sockets below both of them, in place in its fixed buffer |
| `Supervisor`, `SupervisorRuns`, `Instances`, `Processes`, `PathGuard` | the plugin monitor: message times, kill ladder, restart rule, its processes, executable path check and its tokenizer |
| `Names`, `ConfigCache` | the plugin base class: name reservation and the configuration cache |
| `Profiler` | the message profiler's sliding window and its string-ordered map |
| `Base64`, `Base64Values` | the encoder and decoder loops, against section 4 of RFC 4648 and against positional notation |
| `Deframer`, `Walk` | the web client's ETX deframer and its explicit-stack walk over a JSON tree |
| `Common` | an option type, sums, least elements, and `Picks`: a list is what a function makes of exactly the chosen elements of another, in order |

Code that runs on several threads is a step machine: a state, a set of enabled actions and a step function, where each
action is one atomic access of the source. A run is a list of actions, so a theorem about `Exec(s0, acts)` is about every
interleaving. Objects that one thread updates are classes, and loops are methods with invariants, each proved equal to a
specification function or to a relation with a ghost history; the theorems are about those functions and histories.

What the code does and its comments or callers do not suggest, each with its exact condition:

- A register or unregister made from inside a callback never returns, although the comment at
  src/tmx/TmxCore/src/MessageRouterBasic.h:45 allows changes on the broadcasting thread; a broadcast made there can return
  if and only if it does not wait for a map lock whose holder spins (`RouterNested.NestedRegisterBlocks`,
  `RouterNested.NestedBroadcastReturnsIff`).
- A message whose frame does not fit the framer's buffer is dropped silently; every message arrives if and only if each is
  at most 19998 characters long (`MsgFramer.MessagesArrive`).
- A rejected registration does not put the client into the error state, and nothing else does that the core says on its
  own account. Another plugin's fatal error message does, when it is routed to a client that subscribed to it or to
  everything; the client is in the error state if and only if such a message was delivered and no failing send has
  overwritten the state since (`HandshakeErrors.RejectionIsHarmless`, `HandshakeErrors.ErrorStateIff`,
  `HandshakeErrors.RoutedErrorCounterexample`).
- A status or event log message sent after the registration can be handled and refused before it, because the two
  processors do not wait for each other; it is safe once the client has reached the registered state
  (`HandshakeSafety.SlowCanOvertake`, `HandshakeSafety.AcceptedOnTheSlowSide`).
- A running entry that shares its plugin id with a running entry before it does not get the times of its messages, and is
  condemned however much the plugin sends if the earlier entry survives until its deadline
  (`SupervisorRuns.ShadowedIsCondemned`). Plugin ids are unique among installed entries
  (data/DatabaseSetup/localhost.sql:73), so the earlier entry is one that was removed and is itself climbing the ladder.
- An entry whose process has ended stays in the table, naming a process that is not the supervisor's and that later
  signals would go to, exactly when its pid is in use again between `waitpid` and `kill(pid, 0)`
  (`Instances.DeadEntryStaysIff`, `Instances.StaleEntryCounterexample`). At most one instance holds all the same.
- A name is lost for good exactly when the database part of a registration fails or when a registered plugin registers
  under a second name (`Names.LostExactlyWhen`, `Names.LostForever`).
- The tokenizer leaves an empty first token exactly for names that start with two slashes, and the path check counts that
  token as a component, so that "//../x" leaves the directory (`PathGuard.EmptyTokenIff`, `PathGuard.GuardExactIff`,
  `PathGuard.EscapeCounterexample`).
- The stack walk reports wrong paths exactly when a leaf follows a child object below a path that contains
  "undefined->" (`Walk.WalkIsRecursionIff`, `Walk.UndefinedKeyCounterexample`).
- Two profiler keys can share a map entry exactly when a type ends in '|' or contains "||"
  (`Profiler.KeyTextInjective`, `Profiler.AmbiguousCollides`).

## Model

| member | source | states |
|---|---|---|
| Filters.FirstMatch | src/tmx/TmxCore/src/MessageRouterBasic.cpp:67-108 | the inner loop of a broadcast finds an entry if and only if some entry matches (wildcards, null type or subtype, flag mask), and then the first one |
| Filters.MatchesIff | src/tmx/TmxCore/src/MessageRouter.h:16-33 | an entry lets a message through if and only if its mask is 0 or shares a set bit with the flags, and its type is "*", or is the message's type with the subtype "*" or the message's; a message without type or subtype is only let through where that is not asked for |
| Filters.FlagsPassIff | src/tmx/TmxCore/src/MessageRouterBasic.cpp:73 | the flag test bit by bit |
| RouterSafety.ExclusionInEveryRun | src/tmx/TmxCore/src/MessageRouterBasic.cpp:53-57 | in every state of every schedule of any number of threads the counter equals the number of threads between increment and decrement, a thread about to write the map finds none of them, at most one thread holds the map lock, no iterator dangles |
| RouterSafety.DeliveryIsASnapshot | src/tmx/TmxCore/src/MessageRouterBasic.cpp:61-113 | under any interleaving, a broadcast reaches exactly the receivers of one snapshot of the map, other than the sender, that have a matching entry, each once |
| RouterSafety.SnapshotIsLive | src/tmx/TmxCore/src/MessageRouterBasic.cpp:53-113 | while a broadcast is counted the live map is its snapshot |
| RouterSafety.SnapshotExisted | src/tmx/TmxCore/src/MessageRouterBasic.cpp:47-145 | the snapshot of every finished broadcast is the map as it was after some part of the same schedule |
| RouterHistory.MapIsLastWrites | src/tmx/TmxCore/src/MessageRouterBasic.cpp:123-145 | in every schedule a receiver is in the map with certain filters if and only if the last register or unregister written about it was a register with exactly these filters, or none was and the map started out so |
| RouterHistory.DeliveryFollowsWrites | src/tmx/TmxCore/src/MessageRouterBasic.cpp:47-145 | in every schedule a finished broadcast called back a receiver, once, if and only if it is not the sender and its last register written before the broadcast was counted, not undone by an unregister, has an entry that lets the message through |
| RouterHistory.EveryCallOnce | src/tmx/TmxCore/src/MessageRouterBasic.cpp:47-145 | in every schedule the registers and unregisters a thread has returned from are exactly the ones it has written, in its order, and the broadcasts it has returned from are exactly the ones it has delivered |
| RouterNested.SafeWithNesting | src/tmx/TmxCore/src/MessageRouterBasic.cpp:47-145 | with callbacks that call the router to any depth, the counter is still exact, a writer finds nobody counted, and every finished broadcast reached exactly one snapshot's receivers, each once |
| RouterNested.NestedRegisterBlocks | src/tmx/TmxCore/src/MessageRouterBasic.cpp:123-145 | after every run up to it and under every continuation, a register or unregister made inside a callback has not got past the spin loop and its caller has not moved |
| RouterNested.NestedBroadcastReturnsIff | src/tmx/TmxCore/src/MessageRouterBasic.cpp:53-57 | a nested broadcast that is not itself waiting for one can return if and only if it does not stand before a map lock whose holder spins |
| RouterNested.CallerReturnsIff | src/tmx/TmxCore/src/MessageRouterBasic.cpp:61-113 | a broadcast waiting for a nested call can return if and only if the nested call can |
| RouterProgress.SomeoneCanMove | src/tmx/TmxCore/src/MessageRouterBasic.cpp:53-57 | while a call is unfinished some thread can take a step that is not a spin |
| RouterProgress.StepsShrink | src/tmx/TmxCore/src/MessageRouterBasic.cpp:47-145 | every step that is not a spin makes a lexicographic measure (points, receivers, entries left) smaller |
| RouterProgress.EveryCallCanFinish | src/tmx/TmxCore/src/MessageRouterBasic.cpp:123-145 | from every state that satisfies the invariant there is a schedule in which every call returns |
| RouterProgress.ProgressInEveryRun | src/tmx/TmxCore/src/MessageRouterBasic.cpp:47-145 | after every schedule, either all calls have returned or some thread can move without spinning, every such move shrinks the measure, and a spin changes nothing |
| ConnectionSafety.QueuesConserve | src/tmx/TmxCore/src/PluginConnection.cpp:128-166 | in every state of every run, processed + in hand + queued + about to be queued is, on the slow side, exactly the status and event log messages that arrived, in order, and on the fast side exactly the registrations, subscriptions, config and other messages |
| ConnectionSafety.HandledOnce | src/tmx/TmxCore/src/PluginConnection.cpp:193-247 | no message is handled or destroyed twice or on the wrong thread, and only handled messages are destroyed |
| ConnectionSafety.NoLostWakeup | src/tmx/TmxCore/src/PluginConnection.cpp:185-208 | a processor about to wait with a non-empty queue has its event latched or the receiver about to latch it |
| ConnectionSafety.IdleMeansHandled | src/tmx/TmxCore/src/PluginConnection.cpp:268-303 | when the receiver reads and a processor cannot move, exactly the arrivals of that side's kinds have been handled, in order, and destroyed |
| ConnectionSafety.ShutdownBounded | src/tmx/TmxCore/src/PluginConnection.cpp:113-120 | once both processors are interrupted no run is longer than an explicit count of steps left |
| ConnectionSafety.JoinsReturn | src/tmx/TmxCore/src/PluginConnection.cpp:113-120 | from the end of the two interrupts every continuation of every run ends within 22 steps, and where nothing can move both processors have exited and the object is deleted |
| ConnectionSafety.InterruptedHandlesAtMostOne | src/tmx/TmxCore/src/PluginConnection.cpp:185-208 | an interrupted processor handles at most the message of its current iteration |
| MsgFramer.MsgFramer.Shift | src/tmx/TmxApi/tmx/utils/MsgFramer.c:43-54 | the overlapping copy moves the unread text and its terminator to the front unchanged |
| MsgFramer.MsgFramer.CutFrame | src/tmx/TmxApi/tmx/utils/MsgFramer.c:75-82 | from a leading STX, the text up to the first ETX is cut out and the rest stays unread |
| MsgFramer.MsgFramer.GetNextMsg | src/tmx/TmxApi/tmx/utils/MsgFramer.c:39-92 | the message and the unread text are those of `Next`, for any buffer contents; without a message there is room to receive |
| MsgFramer.MsgFramer.Append | src/tmx/TmxApi/tmx/utils/MsgFramer.c:15-36 | received characters extend the unread text, which is terminated again |
| MsgFramer.MsgFramer.Receive | src/tmx/TmxCore/src/PluginConnection.cpp:107-128 | one turn of the receive loop hands out every complete message of the unread text and the chunk |
| MsgFramer.DrainIsMachine | src/tmx/TmxApi/tmx/utils/MsgFramer.c:39-92 | on every NUL-free text that fits the buffer, repeated calls do what a character-by-character machine does |
| MsgFramer.ReceiveIsMachine | src/tmx/TmxApi/tmx/IvpPlugin.c:471-503 | for every cutting of a NUL-free stream by `recv`, messages and rest depend only on the stream, and the buffer is never full before a receive |
| MsgFramer.MessagesArrive | src/tmx/TmxApi/tmx/utils/MsgFramer.c:94-111 | for every cutting of a stream of frames, exactly the messages of at most 19998 characters come out, in order; all come out if and only if all are that short |
| Handshake.ReadSubscription | src/tmx/TmxCore/src/PluginConnection.cpp:391-414 | the loop yields one entry for every item with a type, in order, with the item's type, its subtype (empty if it has none) and its mask |
| Handshake.EntriesMatchIff | src/tmx/TmxCore/src/PluginConnection.cpp:397-414 | the entries of a filter let a message through if and only if some item asks for it by its own type, subtype and mask |
| HandshakeSafety.SubscriptionConverges | src/tmx/TmxApi/tmx/IvpPlugin.c:97-117 | in every run, once the client is registered and back in its receive loop, no subscribe call is in progress and nothing sent is unhandled, the router holds for it one entry for every item with a type of the last filter set, in order, with its type, subtype and mask |
| HandshakeSafety.RoutedIffWanted | src/tmx/TmxCore/src/Plugin.cpp:118-129 | end to end: then a message may be routed to the client if and only if some item of the last filter set asks for its type, subtype and flags |
| HandshakeSafety.InFlightSettles | src/tmx/TmxApi/tmx/IvpPlugin.c:408-412 | from every such state with messages in flight, the core alone reaches that point in at most two steps per message and one more |
| HandshakeSafety.AcceptedAfterRegistration | src/tmx/TmxCore/src/PluginConnection.cpp:210-247 | on every connection, closed or not, the fast processor handles the messages other than status and event log, in the order sent, and accepts one other than a registration if and only if an accepted registration was sent before it |
| HandshakeSafety.AcceptedOnTheSlowSide | src/tmx/TmxCore/src/PluginConnection.cpp:291-302 | on every connection, closed or not, the slow processor handles exactly status and event log messages, in the order sent, and one is accepted if and only if the fast side had accepted a registration by then; always when the client was in the registered state when sending |
| HandshakeSafety.SlowCanOvertake | src/tmx/TmxCore/src/PluginConnection.cpp:152-165 | a run in which a status message sent after the registration is handled and refused before it, with nothing sent back |
| HandshakeSafety.DeletedLeavesRouter | src/tmx/TmxCore/src/Plugin.cpp:33-50 | a connection the core has deleted is not in the router |
| HandshakeErrors.ErrorStateIff | src/tmx/TmxApi/tmx/IvpPlugin.c:326-340 | after every run the client is in the error state if and only if some step delivered a fatal error with a number and no later step was a failing send that overwrote the state |
| HandshakeErrors.HarmIsRouted | src/tmx/TmxCore/src/PluginConnection.cpp:225-231 | every such error that reaches the client was routed to its connection earlier in the run |
| HandshakeErrors.RejectionIsHarmless | src/tmx/TmxCore/src/PluginConnection.cpp:366-376 | in every run without routed fatal errors the client is never in the error state, whatever is rejected |
| HandshakeErrors.QuietNeverErrs | src/tmx/TmxApi/tmx/IvpPlugin.c:376-380 | a client none of whose filters is a wildcard or names the error type is never in the error state |
| HandshakeErrors.RoutedErrorCounterexample | src/tmx/TmxApi/tmx/IvpPlugin.c:332-336 | a run from the start in which a client subscribed to everything ends in the error state |
| SupervisorRuns.BatchIsFirstAndLast | src/tmx/TmxCore/src/PluginMonitor.cpp:109-138 | between two passes the batch holds exactly the sources, other than 0, that sent something, with the times of their first and last messages |
| Supervisor.FirstRunning | src/tmx/TmxCore/src/PluginMonitor.cpp:204-222 | the inner loop finds the first running entry of a plugin id, in map order, if and only if there is one |
| Supervisor.PluginMonitor.MergeBatch | src/tmx/TmxCore/src/PluginMonitor.cpp:198-228 | the first running entry of each source takes its latest time and the batch is emptied |
| Supervisor.PluginMonitor.RemoveDead | src/tmx/TmxCore/src/PluginMonitor.cpp:249-261 | the collecting loop and the erasing loop together forget exactly the entries found dead and leave the other records alone |
| SupervisorRuns.SignalsFollowLadder | src/tmx/TmxCore/src/PluginMonitor.cpp:267-314 | over any run in which a process survives, the signals it gets are exactly SIGTERM, SIGINT, SIGKILL from its old rung to its new one, in order |
| Supervisor.PluginMonitor.ClimbLadder | src/tmx/TmxCore/src/PluginMonitor.cpp:263-315 | every running entry is moved so, and the signals sent are exactly theirs |
| Supervisor.PluginMonitor.MayStart | src/tmx/TmxCore/src/PluginMonitor.cpp:322-369 | an entry may start if and only if its executable has tokens and they pass the depth check |
| Supervisor.PluginMonitor.StartMissing | src/tmx/TmxCore/src/PluginMonitor.cpp:318-387 | exactly the enabled, not running, startable entries whose process started are added, with a fresh record |
| Supervisor.PluginMonitor.Pass | src/tmx/TmxCore/src/PluginMonitor.cpp:198-387 | one pass is the composition of these; after a failed query only the merge has happened |
| SupervisorRuns.CondemnedIff | src/tmx/TmxCore/src/PluginMonitor.cpp:279-313 | in a completed pass a survivor that has been sent no signal gets SIGTERM if and only if it is not enabled, or nothing was heard from it and its startup time is over, or something was, its recorded interval is not 0 and the interval in force has passed |
| SupervisorRuns.DisabledIsKilled | src/tmx/TmxCore/src/PluginMonitor.cpp:267-313 | a running plugin that is disabled or removed gets SIGTERM, SIGINT and SIGKILL in its next three completed passes for as long as it survives, whatever it sends |
| SupervisorRuns.PassTable | src/tmx/TmxCore/src/PluginMonitor.cpp:198-387 | after a pass an entry runs if and only if it ran and was not found dead, or the pass started it (enabled, executable name accepted, process up); survivors keep process, entry and start time, started entries have a fresh record |
| SupervisorRuns.LadderOnlyClimbs | src/tmx/TmxCore/src/PluginMonitor.cpp:265-315 | over any run in which a process survives, its kill state never goes back and climbs at most one rung per completed pass |
| SupervisorRuns.CondemnedClimbs | src/tmx/TmxCore/src/PluginMonitor.cpp:267-278 | a condemned survivor climbs exactly one rung per completed pass, up to the top |
| SupervisorRuns.KilledTwoPassesLater | src/tmx/TmxCore/src/PluginMonitor.cpp:269-311 | a condemned survivor gets SIGKILL in the second completed pass after the condemning one |
| SupervisorRuns.TracksLatest | src/tmx/TmxCore/src/PluginMonitor.cpp:109-226 | over any run, the record of a running entry is what its own messages determine: the latest one batched before the last merge at which the entry was the first running one of its plugin id |
| SupervisorRuns.TalkingIsNeverCondemned | src/tmx/TmxCore/src/PluginMonitor.cpp:285-311 | an enabled plugin with a fixed interval whose first message is merged before the startup deadline stays at Alive through the whole run, if the interval is 0 or its merged messages stay recent enough (message gap plus check delay below the interval) |
| SupervisorRuns.UnheardBeforeDeadline | src/tmx/TmxCore/src/PluginMonitor.cpp:204-306 | completed passes before its deadline leave the record of an entry that takes no time from the batch unchanged; the deadline is the startup limit before the first message whatever the interval, then the interval, and none without one |
| SupervisorRuns.UnheardIsCondemned | src/tmx/TmxCore/src/PluginMonitor.cpp:285-311 | the first completed pass at or after the deadline sends it SIGTERM |
| SupervisorRuns.HeardOnceIsEnough | src/tmx/TmxCore/src/PluginMonitor.cpp:296-306 | an entry with interval 0 that was heard once keeps its record unchanged for good, however silent it is from then on |
| SupervisorRuns.ShadowedIsCondemned | src/tmx/TmxCore/src/PluginMonitor.cpp:204-222 | the same for an entry that shares its plugin id with a running entry before it, whatever the plugin sends |
| SupervisorRuns.SilentBeforeDeadline | src/tmx/TmxCore/src/PluginMonitor.cpp:285-306 | completed passes before its deadline leave a silent plugin's record unchanged |
| SupervisorRuns.SilentIsCondemned | src/tmx/TmxCore/src/PluginMonitor.cpp:285-311 | the first completed pass at or after the deadline sends it SIGTERM |
| Instances.AtMostOneInstance | src/tmx/TmxCore/src/PluginMonitor.cpp:249-387 | in every run of starts, failed starts, exits, reused pids and the two system calls of the sweep as separate steps, an entry has at most one live process, and a start finds none |
| Instances.DeadEntryStaysIff | src/tmx/TmxCore/src/PluginMonitor.cpp:252-260 | an entry whose process has ended is forgotten by its check if and only if its pid is free by then, and the pid is in use only if it was given away between the two calls |
| Instances.StaleEntryCounterexample | src/tmx/TmxCore/src/PluginMonitor.cpp:252-254 | a run in which the table goes on naming a process that is not the supervisor's |
| Processes.PassIsARun | src/tmx/TmxCore/src/PluginMonitor.cpp:249-387 | on a table that names only its own processes, an undisturbed pass that finds dead exactly the ended ones and gets fresh pids is a run of those steps: the two calls for every running entry, then a start of every entry it adds |
| Processes.OneInstanceInEveryRun | src/tmx/TmxCore/src/PluginMonitor.cpp:249-387 | in every run of the supervisor's passes with its processes, with exits and reused pids at any point inside a pass, an installed plugin has at most one live process, that process is the one on record, and a pass starts an entry only when the sweep has left it none |
| PathGuard.CheckExecutable | src/tmx/TmxCore/src/PluginMonitor.cpp:336-359 | the loop accepts if and only if no prefix has negative depth and the end has depth at least one; the path built has the executable's components without "." |
| PathGuard.AcceptedIsBelow | src/tmx/TmxCore/src/PluginMonitor.cpp:336-359 | an accepted full path normalises to the normalised working directory plus at least one component, never leaving it on the way |
| PathGuard.AcceptsIffBelow | src/tmx/TmxCore/src/PluginMonitor.cpp:342-359 | for every token list without empty tokens, acceptance holds if and only if walking it stays inside any directory other than the root and ends strictly below |
| PathGuard.RootIsStricter | src/tmx/TmxCore/src/PluginMonitor.cpp:342-359 | at the root directory the check is stricter than the walk |
| PathGuard.Tokenize | src/tmx/TmxCore/src/utils/StringUtils.cpp:12-43 | the tokens are the pieces between separators, cleaned as the erase loop cleans them |
| PathGuard.RemoveEmpty | src/tmx/TmxCore/src/utils/StringUtils.cpp:30-40 | the restarting erase loop removes one leading empty token, never looks at the token after it, and removes all later empty ones |
| PathGuard.PiecesAreASplit | src/tmx/TmxCore/src/utils/StringUtils.cpp:16-28 | the pieces contain no separator and joined with it are the text |
| PathGuard.TokensAre | src/tmx/TmxCore/src/utils/StringUtils.cpp:12-43 | the tokens of a name are exactly its non-empty pieces, in order, after one empty token when it starts with two slashes |
| PathGuard.EmptyTokenIff | src/tmx/TmxCore/src/utils/StringUtils.cpp:30-40 | a name's tokens contain an empty one if and only if the name starts with two slashes, and then only at the front |
| PathGuard.GuardExactIff | src/tmx/TmxCore/src/PluginMonitor.cpp:322-359 | for every name, the check agrees with staying below the directory if and only if the name is not a two-slash name one level short |
| PathGuard.TwoSlashesCounterexample | src/tmx/TmxCore/src/PluginMonitor.cpp:344-359 | the name "//" is accepted and resolves to the directory itself |
| PathGuard.EscapeCounterexample | src/tmx/TmxCore/src/PluginMonitor.cpp:344-359 | the name "//../x" is accepted and resolves from "/d" to "/x", outside the directory |
| Names.NamesAreUnique | src/tmx/TmxCore/src/Plugin.cpp:33-79 | in every interleaving no two registered, undestroyed plugins share a name, and a destructor releases no name held by another plugin |
| Names.FreeNameIsGiven | src/tmx/TmxCore/src/Plugin.cpp:59-108 | in every run, a registration under a non-empty name that nobody holds and that is not lost is let through and, once the database accepts, ends with the plugin registered under it; any other is refused and changes nothing |
| Names.LostExactlyWhen | src/tmx/TmxCore/src/Plugin.cpp:81-107 | a step leaves a name reserved by nobody if and only if it abandons that reservation on a database error or renames its registered holder |
| Names.LostForever | src/tmx/TmxCore/src/Plugin.cpp:67-79 | such a name is never accepted again in any continuation |
| ConfigCache.Plugin.UpdateKnown | src/tmx/TmxCore/src/Plugin.cpp:331-347 | the first loop updates and notifies exactly the known keys whose value changed and leaves the new ones |
| ConfigCache.Plugin.AddNew | src/tmx/TmxCore/src/Plugin.cpp:349-362 | the second loop adds and notifies exactly the new keys |
| ConfigCache.Plugin.Poll | src/tmx/TmxCore/src/Plugin.cpp:317-364 | a poll yields the merged cache and notifies a key, once and with its database value, if and only if it is in the database and the cache lacks it or has another value; a failed query does nothing |
| ConfigCache.PollIsCoherent | src/tmx/TmxCore/src/Plugin.cpp:331-362 | afterwards every database key has the database's value, new and changed keys have the whole database parameter, other keys keep theirs, and polling the same database again changes and notifies nothing |
| ConfigCache.NotificationCount | src/tmx/TmxCore/src/Plugin.cpp:340-355 | there are as many notifications as changed keys |
| ConfigCache.NotificationsSuffice | src/tmx/TmxCore/src/Plugin.cpp:317-364 | over any run of polls, replaying the notifications reproduces exactly the cached values |
| Profiler.LessIsTotal | src/tmx/TmxCore/src/MessageProfiler.h:47-53 | the string order is asymmetric and leaves two keys unordered if and only if their texts are equal |
| Profiler.LessIsTransitive | src/tmx/TmxCore/src/MessageProfiler.h:47-53 | the order is transitive |
| Profiler.KeyTextInjective | src/tmx/TmxCore/src/MessageProfiler.h:42-53 | when neither type ends in a bar or contains two adjacent bars, texts are equal if and only if id, type and subtype are |
| Profiler.AmbiguousCollides | src/tmx/TmxCore/src/MessageProfiler.h:42-53 | every other type collides with a different key |
| Profiler.TextHistoryIsKeyHistory | src/tmx/TmxCore/src/MessageProfiler.h:42-53 | under that condition the history stored under a text is the history of the key |
| Profiler.TimesPick | src/tmx/TmxCore/src/MessageProfiler.cpp:139-157 | the times under a text are those of exactly the receipts whose key has that text, in order |
| Profiler.RecentPicks | src/tmx/TmxCore/src/MessageProfiler.cpp:207-213 | the window is exactly the times t with t + window >= now, in order |
| Profiler.MessageProfiler.OnMessageReceived | src/tmx/TmxCore/src/MessageProfiler.cpp:139-157 | a receipt extends the history and keeps every entry faithful to it |
| Profiler.Purge | src/tmx/TmxCore/src/MessageProfiler.cpp:207-213 | the erase loop leaves exactly the times t with t + window >= now, in order |
| Profiler.PurgeTwice | src/tmx/TmxCore/src/MessageProfiler.cpp:207-213 | purging earlier makes no difference to purging now |
| Profiler.MessageProfiler.Refresh | src/tmx/TmxCore/src/MessageProfiler.cpp:195-233 | after a refresh every vector is the window of the key's full history, and every row holds the number of all receipts (modulo 2^32), the last time and the average |
| Base64.SpreadIs | src/tmx/TmxUtils/src/Base64.cpp:57-60 | the encoder's masks and shifts on three bytes yield the four 6-bit groups of their 24-bit group |
| Base64.GatherIs | src/tmx/TmxUtils/src/Base64.cpp:103-105 | the decoder's masks, shifts and truncations on four 6-bit values yield the three octets of their 24-bit group |
| Base64.FindInTable | src/tmx/TmxUtils/src/Base64.cpp:101 | the search finds each alphabet character at its value |
| Base64.FindIsValue | src/tmx/TmxUtils/src/Base64.cpp:42-45 | each alphabet character has exactly one position in the table, its value |
| Base64.Encode | src/tmx/TmxUtils/src/Base64.cpp:47-87 | the buffered loop computes the encoding defined by 24-bit groups |
| Base64.Decode | src/tmx/TmxUtils/src/Base64.cpp:89-124 | the buffered loop computes a function of the string alone, whatever the buffers held before |
| Base64.TailOctets | src/tmx/TmxUtils/src/Base64.cpp:113-121 | the bytes kept from the tail step do not depend on unset or stale entries |
| Base64.RoundTrip | src/tmx/TmxUtils/src/Base64.cpp:47-124 | decoding undoes encoding for every byte sequence |
| Base64.EncodedShape | src/tmx/TmxUtils/src/Base64.cpp:68-83 | the encoding has 4 * ceil(n/3) characters: ceil(4n/3) of the alphabet, then only '=' |
| Base64Values.EncodedValue | src/tmx/TmxUtils/src/Base64.cpp:47-87 | read in base 64 the characters before the padding are worth the bytes read in base 256, shifted by the four, two or no zero bits that fill up the last character |
| Base64Values.DecodedValue | src/tmx/TmxUtils/src/Base64.cpp:89-124 | for every string, the octets read in base 256 are the leading alphabet characters read in base 64 without the last bits that make no whole octet |
| Base64Values.TestVectors | src/tmx/TmxUtils/src/Base64.cpp:42-87 | the first test vectors of section 10 of RFC 4648, and one that uses the last two characters of the alphabet |
| Base64.DecodeDependsOnRun | src/tmx/TmxUtils/src/Base64.cpp:97-121 | decoding depends only on the longest leading run of k alphabet characters and yields floor(3k/4) bytes |
| Deframer.SplitIsSplit | web/js/tmx.common.library.js:1475 | the pieces of a split contain no separator and join back to the text |
| Deframer.SegmentsPick | web/js/tmx.common.library.js:1475-1491 | of the pieces, the last is the buffer and the messages are exactly the non-empty ones before it, in order |
| Deframer.StripPicks | web/js/tmx.common.library.js:417 | stripping keeps exactly the characters with codes 0x20 to 0x7E and from 0xA0 on, in order |
| Deframer.Connection.OnMessage | web/js/tmx.common.library.js:1465-1495 | after every chunk the buffer is the unterminated rest of the whole stream and the messages handled are its non-empty ETX-terminated segments |
| Deframer.ChunkingDoesNotMatter | web/js/tmx.common.library.js:1465-1495 | for every cutting of a stream, the result is the same function of the stream |
| Deframer.FramesRoundTrip | web/js/tmx.common.library.js:1330-1334 | frames of control-free texts come back as the original texts in order after control stripping, with nothing left over |
| Deframer.FramesSurviveChunking | web/js/tmx.common.library.js:417 | the same for every cutting of the framed stream into chunks |
| Walk.Scan | web/js/tmx.common.library.js:795-807 | the inner loop reports leaves up to the next child object and leaves the rest to be reported |
| Walk.WalkTree | web/js/tmx.common.library.js:788-819 | the stack loop terminates on every tree and reports what a recursive walk with scrubbed prefixes reports |
| Walk.NotRoot | web/js/tmx.common.library.js:809-817 | at every point of the loop the object is the root's position if and only if the stack is empty |
| Walk.WalkIsRecursionIff | web/js/tmx.common.library.js:980-1011 | the loop's reports equal the plain recursive walk's if and only if no leaf follows a child object below a path containing "undefined->" |
| Walk.LeavesExactly | web/js/tmx.common.library.js:788-819 | the recursive walk lists exactly the leaves of the tree, each under its keys joined by "->", in the order of their positions |
| Walk.WalkRefinesRecursion | web/js/tmx.common.library.js:788-819 | for every tree whose keys neither end in "undefined" nor contain "undefined->", the loop reports exactly the leaves in depth-first key order under their joined paths |
| Walk.UndefinedKeyCounterexample | web/js/tmx.common.library.js:817 | a tree with a key "undefined" whose leaf is reported under the wrong path |

## Left out

- Sockets, polling, process spawning, signals, clocks and the database are inputs or environment steps: deliveries, drops,
  pids, times, query results and failed starts are arbitrary.
- The router, the connection, the handshake and the name set are step machines on values instead of classes, because their
  point is interleaving; aliasing of the C and C++ objects is not part of the model.
- A receiver's callback is one step in `Router`, and the progress results are about callbacks that do not call the router;
  `RouterNested` lets them call it. What a callback does with the message is not modelled.
- RouterProgress.EveryCallCanFinish: gives a finishing schedule and not fairness of the scheduler, which the source does not control.
- Message handlers are assumed to return; uncaught exceptions (a configuration or event log message handled before
  registration) are not modelled.
- Which plugin a routed message comes from: any message that can be routed and that the receiver's filter matches may be
  routed to a connection at any time.
- The read of `plugin->filter` before `ivp_subscribe` takes the lock is one step with the locked body.
- Frame delivery between client and core is a FIFO of whole messages in `Handshake`; `MsgFramer` justifies this for
  messages that fit its buffer. Messages the client cannot parse are not modelled, since they change no state there.
- `msgFramer_incrementBufPos`'s reset after more characters than there was room for is not modelled: `recv` never returns that many.
- MsgFramer.ReceiveIsMachine: says nothing of streams with NUL characters, where the string functions stop early and the cutting matters.
- Times are natural numbers without 64-bit wrap-around; the profiler's 32-bit count does wrap in the model.
- Profiler.MessageProfiler.Refresh: the averaging window is constant over a run and the clock does not go back; the double
  division is integer division, which agrees below 2^53.
- SupervisorRuns.TalkingIsNeverCondemned: the interval in the database stays the one recorded at start; the pass itself
  compares the recorded interval with zero and the fresh one with the clock, as the code does.
- Reading the startup limit from the configuration, with its default of 15000 ms: a pass gets the limit in force.
- Disabling a plugin in the database after a refused or failed start only affects later query results, which are arbitrary.
- JSON null values in the tree walk (for which the source throws), regular-expression matching beyond the literal text
  "undefined->", and `btoa`/`atob` in the browser.
- `isalnum` is that of the C locale; lengths stay within the range of the source's integers.
- JSON parsing and printing, message construction (`IvpMessage.c`), the BSM converter, geographic and unit conversions,
  generated OpenAPI code, user interfaces and logging would only add field copying, floating point or presentation.
