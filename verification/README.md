# stereosd: a verified model of the guest control plane

stereosd is the control plane daemon inside a StereOS guest. It keeps a lifecycle state and
reports it to the host, mounts host directories, stores injected secrets, polls agentd, and
carries out shutdowns, over a line protocol and over an HTTP API. This Dafny project models
those parts and proves what they keep: over every history of calls, every interleaving of
the daemon's threads, and every pattern of failing commands, file operations and writes.

`dafny verify dfyconfig.toml` checks the whole project.

## How the model is built

| file | part of the program |
|---|---|
| `Basics.dfy`, `Protocol.dfy` | sequence helpers; message types, payloads, states, acks |
| `Paths.dfy` | lexical path cleaning and the mount guard |
| `Machine.dfy` | the commands of the guest: a mount table and a log of what was run |
| `Mounts.dfy`, `MountHistory.dfy` | the mount manager; all histories of its calls |
| `MountSteps.dfy`, `AppendRaces.dfy` | one UnmountAll interleaved with any number of Mounts; appends that race |
| `Secrets.dfy`, `SecretSteps.dfy` | the secret store against a map; injects and removes running at once |
| `Lifecycle.dfy`, `Agentd.dfy`, `Shutdown.dfy` | lifecycle manager, poller, shutdown coordinator |
| `Daemon.dfy` | the dispatcher and the HTTP handlers over the same managers |
| `Framing.dfy`, `ConnectionLoop.dfy`, `Server.dfy` | line scanner, connection loop, the server class |
| `Accept.dfy` | the accept loop with its wait group, as a step system |
| `DaemonSteps.dfy` | Run, the poller and all shutdown goroutines, as a step system |
| `Notifications.dfy`, `ShutdownRuns.dfy` | what every run does with notifications and with shutdowns |
| `RunHistory.dfy` | what each thread announces over every run, and how Run ends |
| `Overlap.dfy`, `ShutdownEnds.dfy` | when overlapping shutdowns can panic, and that the others end |
| `Uninterrupted.dfy`, `MountAlone.dfy` | the step systems against the sequential methods |

Objects that the program updates are classes, and each of their methods is proved against a
function on values; what the program promises is then proved about those functions. Code
whose point is concurrency is a step system: `Do` makes one step, a step that is not enabled
changes nothing, and `After` (in `SecretSteps`, `Run`) runs any sequence of steps, so a lemma
about it is a statement about every interleaving.

What is outside the program is a parameter, so that lemmas hold for all of its behaviours.
`Faults` says which commands fail from outside, by their position in the log. `InjectOutcome`
says how the file operations of one inject go, including a write that is cut short. A
`Connection` has functions that say how large each read is and which writes fail. `Codec`
holds arbitrary decoding functions in place of JSON. Cancellation, the result of creating a
directory, and the answers of agentd are inputs.

Assumptions of the model:

- The methods of the managers, the dispatcher and the connection loop (`Mounts`, `Secrets`,
  `Lifecycle`, `Shutdown`, `Daemon`, `Server`) are sequential: while one of them runs, or one
  connection is served, nobody else changes the daemon. What happens when they interleave is
  the subject of the step systems.
- In `MountSteps` two UnmountAll calls do not overlap, each access to the tracked list is
  atomic, and an append to it is one step. `AppendRaces` takes the append apart into the read
  and the write that it is: a run is as with one-step appends exactly when each write finds the
  list its call has read (`OneStepIffFresh`), and `WhatIsMounted` does the accounts of all runs.
  A write stands for the new element together with the new header.
- `DaemonSteps` does let unmount loops overlap: each reads the list anew at every index, and an
  index past its end ends the process. Lemmas about complete unmounts there say that the loops
  of the run do not overlap (`LoopsApart`).
- In `SecretSteps` two injects of one name do not overlap, and names that end in `.tmp` are not
  used.
- The mount table has no symbolic links, and a mount is kept in place by any later mount above
  or below it. mount(8) reads its arguments by position: a tag that begins with a dash, such as
  `--version`, would be an option to it, and it could then succeed without mounting.

## Where the code differs from its documentation

The model follows the code.

- `pkg/lifecycle.go:6` and the README of the program give the order booting, ready, healthy,
  shutdown. A shutdown request that arrives early can be overwritten by the ready transition,
  and once more by a poller that saw `ready` before. `ShutdownLeftAtMostTwice` gives the bound,
  `ShutdownCanBeLeftTwice` a run that reaches it, and `AbsorbingIffSettled` the exact condition
  under which `shutdown` is final.
- `pkg/server.go:40-41` says that Serve blocks until all active connections have finished. When
  an accept fails without a cancelled context it returns at once:
  `LeavesActiveIffNotCancelled`, with `ErrorReturnLeavesConnection` as a run.
- `pkg/shutdown.go:84-85` says that an empty power-off mode makes shutdown return an error. The
  code treats it as systemctl; see `ErrorIffPoweroffFails`.
- The store is described as a map from simple names. A name that ends in `.tmp` is accepted but
  not listed, and the inject of the name before it destroys it: `ListedIffNotTemp`,
  `DisturbsIffTemp`, `TempNameIsLost`. `StepRefines` gives the exact condition under which an
  operation is the one on the map.
- Remove takes `.` and `/` for names, which denote the secret directory itself. The directory
  goes away iff it is empty then (`DirectoryRemovedIff`), and nothing brings it back
  among the operations of the store (`GoneForGood`).
- UnmountAll is described as unmounting all tracked directories. One that is appended while the
  loop runs is dropped from the list and stays mounted: `AppendDuringLoopIsLost`; `AfterLoop`
  says exactly what is left.
- Appends to the tracked list that overlap can lose an entry, and one that overlaps the end of
  UnmountAll can bring unmounted entries back: `OverlappingAppendsLoseOne`,
  `LateWriteBringsBack`; `ShortWritePanicsIff` says when such a write makes the loop panic.
- Shutdown requests can make their unmount loops overlap, and one that ends empties the list
  under the others. The shutdowns under way can come to an index panic iff one of them has still
  to empty the list and another one has still to read from it (`ShutdownsPanicIffAtRisk`). A
  safe state becomes such a state only by a request that comes while a mount is tracked and a
  shutdown has not emptied the list, or by a mount tracked while two shutdowns have not and
  one of them is not at its loop yet (`RiskBeginsIff`). `OverlapPanics` is a run. Shutdowns not at risk all end (`ShutdownsEnd`).
- Notifications are sent outside the lock, so the host's last word can be an old state with
  nothing in flight (`OldStateIsLastWord`): iff an old envelope can still be sent last
  (`HostCanBeOutdatedIff`).

## Model

| member | source | states |
|---|---|---|
| Paths.LexicalLaws | pkg/mounts.go:85 | the cleaned path is lexical: a name goes down one level, `..` comes back from it, the root is its own parent, `.` and empty components stay |
| Paths.RelativeLaws | pkg/mounts.go:85 | the same for relative paths, on which `..` can also lead above the start |
| Paths.CleanKeepsMeaning | pkg/mounts.go:85-88 | cleaning keeps the components a path denotes and whether it is absolute |
| Paths.CleanIdempotent | pkg/mounts.go:139 | cleaning again at teardown gives the very same string |
| Paths.CleanShape | pkg/mounts.go:85 | the cleaned string is the components between single separators, one in front iff the path is absolute and none at the end, or "/" or "." |
| Paths.CleanIsCanonical | pkg/mounts.go:85 | two paths clean to one string iff they denote the same place |
| Paths.ComponentsAreNormal | pkg/mounts.go:85 | resolved components are never empty, `.`, or `..` below the root, and hold no separator |
| Paths.FirstComponent | pkg/mounts.go:92 | a guard entry's string test holds iff the path's first component is that directory |
| Paths.RootEntry | pkg/mounts.go:91-92 | the guard entry "/" rejects the root and nothing else |
| Paths.GuardOnComponents | pkg/mounts.go:84-95 | the string guard accepts a path iff it is absolute and its first resolved component exists and is not a system directory |
| Machines.UmountSparesBase | pkg/mounts.go:143 | while more mounts are at a place than in the base, an umount there removes exactly one mount and none of the base |
| Machines.UmountNewest | pkg/mounts.go:136-138 | the newest mount is never refused as busy or hidden |
| Machines.RunCommand | pkg/mounts.go:33-47 | a command is logged exactly once with how it went, it succeeds iff nothing outside fails and its effect is possible, and a failed one leaves the mount table alone |
| Mounts.ValidateMeaning | pkg/mounts.go:66-95 | a payload passes validation iff it has a tag, type virtiofs or 9p, and an absolute path outside the root and the eight system directories; and for each failure the payloads that get it |
| Mounts.MountArgsMeanPayload | pkg/mounts.go:102-116 | mount(8) reads back from the built arguments exactly the payload's tag, type and place, and the options for its type and its read-only flag |
| Mounts.MountCommands | pkg/mounts.go:97-130 | which commands a Mount call runs: none unless the checks pass and the directory is there; then one mount whose options are those of the 9p transport iff the type is 9p, "ro" iff read-only, and no others; then the change of owner iff the mount succeeded, with a result that only the mount decides |
| Mounts.MountManager.Mount | pkg/mounts.go:65-134 | the whole new state and the result, with every error branch before and after the mount command |
| Mounts.MountManager.UnmountAll | pkg/mounts.go:137-148 | one umount per tracked mount, newest first, failures ignored, and an empty list afterwards |
| Mounts.MountManager.ActiveMounts | pkg/mounts.go:151-155 | a fresh copy of the tracked mounts in order, shared with nobody |
| MountHistory.HistoryConserves | pkg/mounts.go:120-148 | in every history of Mount and UnmountAll, under every failure pattern, no base mount goes, and the surplus over the base is, place by place, the tracked mounts plus one mount per failed umount |
| MountHistory.TeardownSettles | pkg/mounts.go:137-148 | a teardown turns every tracked mount into an unmounted one or a recorded failure, place by place, and spares the base |
| MountHistory.TeardownCommands | pkg/mounts.go:138-143 | a teardown issues exactly one umount per tracked mount, newest first, whatever fails |
| MountHistory.TeardownRestores | pkg/mounts.go:136-148 | without outside failures no umount is refused and exactly the mounts below the tracked ones are left |
| MountHistory.HistoryTracksNewest | pkg/mounts.go:130 | after any history the tracked mounts are the newest ones of the table, in order |
| MountHistory.RestoredIffNoFault | pkg/mounts.go:120-148 | after any Mounts and one UnmountAll the base table is back iff none of its commands failed from outside |
| MountHistory.RestoredIffNoneRefused | pkg/mounts.go:137-148 | after any history that ends in UnmountAll the first table is back iff no umount of the history was refused |
| MountHistory.TeardownPathIsMountPath | pkg/mounts.go:116-143 | for every tracked entry of every history the teardown's path is the clean string a successful mount command was given |
| MountHistory.OlderFirstIsRefused | pkg/mounts.go:136-138 | of two mounts at different places the older cannot be unmounted first iff one place lies in the other; backwards both can |
| MountSteps.EveryRun | pkg/mounts.go:130-148 | in every interleaving of one unmount loop with Mounts: no read out of bounds, each loop unmounts its start list backwards once each, and all mounts are accounted for |
| MountSteps.LoopNextKeeps | pkg/mounts.go:138-146 | one loop iteration reads within bounds, issues the next umount of the reversed start list, and settles one mount |
| MountSteps.LostIsLate | pkg/mounts.go:130-147 | what the loops drop from the list without having unmounted it is, in order, exactly what was appended while they ran |
| MountSteps.AfterLoop | pkg/mounts.go:137-148 | after a loop, what is mounted and untracked is exactly what was appended during a loop plus the failed umounts; the base table is back iff there was neither |
| MountSteps.AppendDuringLoopIsLost | pkg/mounts.go:130-147 | for every accepted payload, a run in which its mount is appended during a loop and stays mounted and untracked |
| MountsAlone.MountAlone | pkg/mounts.go:120-130 | a Mount call that nobody interrupts does in steps what Mount does |
| MountsAlone.UnmountAlone | pkg/mounts.go:137-148 | an unmount loop that nobody interrupts does in steps what UnmountAll does |
| AppendRaces.OneStepIffFresh | pkg/mounts.go:130 | a run in which appends read and write the list in two accesses is, at every point, the run with one-step appends iff each write finds the list its call has read |
| AppendRaces.FreshRunsAreAccounted | pkg/mounts.go:130-147 | without a stale write the two-access appends keep the bounds, the order and the accounts, and a loop restores the base table iff nothing was lost and no umount failed |
| AppendRaces.WhatIsMounted | pkg/mounts.go:120-147 | in every run, stale writes included: what is mounted is the base and the appended mounts without what the umounts took; what is tracked is the appended and brought back entries without the dropped and emptied ones |
| AppendRaces.MovesIffOthers | pkg/mounts.go:130 | a write drops or brings back entries iff the list holds others than its call has read |
| AppendRaces.ShortWritePanicsIff | pkg/mounts.go:130-139 | after a write into a running loop the next index is out of bounds iff the list written is no longer than that index |
| AppendRaces.OverlappingAppendsLoseOne | pkg/mounts.go:130 | for every two accepted payloads, a run in which both are mounted and one is not tracked |
| AppendRaces.LateWriteBringsBack | pkg/mounts.go:130-147 | for every two accepted payloads at unrelated places, a run in which an unmounted entry is tracked again |
| Secrets.BaseFixed | pkg/secrets.go:40-41 | a name equals its base iff it is one component, or the root |
| Secrets.RefusedNames | pkg/secrets.go:35-43 | Inject refuses as invalid exactly the names with a separator or two dots in a row; a name that is not simple changes nothing, except that `.` and `/` put a plain file in the place of a missing directory |
| Secrets.DotDotMeaning | pkg/secrets.go:41 | the two-dots test holds iff the name has ".." somewhere |
| Secrets.TempMeaning | pkg/secrets.go:53 | the temporary names are those that end in ".tmp", character by character, and each name's own has it appended |
| Secrets.InjectEnds | pkg/secrets.go:54-68 | an inject of a simple name succeeds iff the write and the rename do, with exactly its file stored and its temporary file gone; otherwise it says which of them failed and changes at most the temporary file |
| Secrets.RemoveRefuses | pkg/secrets.go:88-91 | Remove refuses as invalid exactly the empty name and those with a separator other than "/" itself; no failed remove changes anything |
| Secrets.RemoveEnds | pkg/secrets.go:93-99 | for every other name when Remove succeeds and what is gone then: exactly the file, or the empty directory itself for `.` and `/` |
| Secrets.SecretManager.Inject | pkg/secrets.go:34-68 | the directory and the result after every pattern of failing steps; the payload's value is cleared iff the inject succeeded |
| Secrets.SecretManager.List | pkg/secrets.go:71-84 | exactly the visible names, each once; an error iff the directory is missing or cannot be read |
| Secrets.SecretManager.Remove | pkg/secrets.go:87-100 | for every name: the file, or the empty directory itself, is gone, or the failure is reported; a missing file is no error |
| Secrets.StoreFileByFile | pkg/secrets.go:52-61 | what each file of the directory holds after an inject that goes any way: only the target and its temporary name can differ |
| Secrets.VisibleAfter | pkg/secrets.go:34-100 | name by name, what any operation changes for readers: its own name when it succeeds and can be listed, and nothing else |
| Secrets.StepRefines | pkg/secrets.go:34-100 | an operation on the directory is that operation on a plain map iff it does not successfully inject a name that cannot be listed; a failed one changes nothing visible |
| Secrets.HistoryRefines | pkg/secrets.go:34-100 | every history of injects and removes, with any names, failures and partial writes, agrees with a plain map on every name that can be listed, and is that map if no unlisted name was stored |
| Secrets.InjectStoresItsValue | pkg/secrets.go:52-61 | after a successful inject the name reads as its own complete value and no temporary file is left, whatever was left over before |
| Secrets.DirectoryRemovedIff | pkg/secrets.go:87-96 | one operation makes the directory go away iff it removes `.` or `/` and the directory is empty |
| Secrets.GoneForGood | pkg/secrets.go:34-100 | once the directory is gone no later operations bring it back, and no simple name can be injected |
| Secrets.ListedIffNotTemp | pkg/secrets.go:71-84 | a stored secret is listed iff its name does not end in ".tmp" |
| Secrets.DisturbsIffTemp | pkg/secrets.go:53-61 | an inject of a name can disturb another secret iff that one is the name with ".tmp" appended |
| Secrets.TempNameIsLost | pkg/secrets.go:53-61 | for every simple name: injecting it with `.tmp` appended and then injecting it both succeed, and the first secret is gone |
| SecretSteps.EveryRun | pkg/secrets.go:52-61 | at every file operation of every interleaving of injects and removes, each file is as the finished calls left it, or as the inject under way that owns it has filled it so far |
| SecretSteps.OldOrNew | pkg/secrets.go:52-92 | at each moment of every interleaving the visible store is the plain map that the calls finished so far make one after the other |
| SecretSteps.ChangesAtOnce | pkg/secrets.go:52-92 | a file operation changes a visible secret only by ending a call for it, to that call's complete value or to nothing |
| SecretSteps.EqualsEverySerialOrder | pkg/secrets.go:45-92 | calls that ran at once leave the very directory that every serial order of them leaves which keeps each single secret's calls in order |
| SecretSteps.DistinctNamesAnyOrder | pkg/secrets.go:45-61 | calls for distinct secrets leave the directory of every serial order of them |
| SecretSteps.EachSecretByItself | pkg/secrets.go:34-100 | what serial calls leave in a file depends only on the calls for the secret it belongs to |
| SecretSteps.CallAlone | pkg/secrets.go:52-68 | an inject that nobody interrupts, taken in file operations, leaves the files of Inject and ends as one call with its value, successful iff Inject is |
| Lifecycle.LifecycleManager.Transition | pkg/lifecycle.go:43-64 | the new state and message, and one notification when a sender is installed |
| Lifecycle.LifecycleManager.UpdateAgentStatus | pkg/lifecycle.go:79-91 | the list with its first entry of that name replaced in place, or the status appended |
| Lifecycle.LifecycleManager.ReplaceAgentStatuses | pkg/lifecycle.go:96-102 | the list is a fresh copy of the given one |
| Lifecycle.LifecycleManager.Health | pkg/lifecycle.go:105-117 | the current state and a fresh copy of the list |
| Lifecycle.SnapshotSurvives | pkg/lifecycle.go:79-117 | a health report taken before any sequence of updates is unchanged after them, while the list is their fold |
| Lifecycle.UpsertIsPut | pkg/lifecycle.go:79-91 | one update of a list with distinct names is one insertion into an insertion-ordered map |
| Lifecycle.AgentsRefineMap | pkg/lifecycle.go:79-102 | every history of replacements and updates keeps names distinct and refines an insertion-ordered map with the last write winning |
| Agentd.AgentdPoller.Poll | pkg/agentd.go:153-176 | a failed poll changes nothing; otherwise the list is the fetched one, and a ready instance becomes healthy iff an agent is running |
| Protocol.RunningOneByOne | pkg/agentd.go:164-171 | a list has a running agent iff some entry of it runs |
| Shutdowns.ShutdownCoordinator.Execute | pkg/shutdown.go:120-146 | the state, message and notification, an empty tracked list, and the machine and result of the whole sequence |
| Shutdowns.ShutdownCoordinator.PowerOff | pkg/shutdown.go:36-61 | the power-off action of the configured mode and its result |
| Shutdowns.ShutdownIssuesPlan | pkg/shutdown.go:129-143 | under every failure pattern the same requests in the same order: reversed umounts, one sync, one power-off of the mode |
| Shutdowns.LastRequest | pkg/shutdown.go:50-72 | the last request of every shutdown is systemctl poweroff iff the mode is "" or "systemctl", SIGTERM to process 1 iff it is "signal-init", and the sync for any other mode; the sync follows the umounts, and the table stays as these left it |
| Shutdowns.ReasonMeaning | pkg/shutdown.go:121-124 | the reason announced is the payload's own unless it is missing or empty |
| Shutdowns.ErrorIffPoweroffFails | pkg/shutdown.go:50-72 | the result is an error iff the mode is unsupported, which is then the error, or the power-off command itself fails |
| Daemons.Daemon.HandleMessage | pkg/stereosd.go:274-375 | the daemon's whole new state and the outcome for each message type and each failure |
| Daemons.DispatchAnswers | pkg/stereosd.go:274-375 | every frame is answered in kind, every ack names the frame's own type, and a handler error changes nothing |
| Daemons.HealthShowsNow | pkg/stereosd.go:276-281 | ping and get_health change nothing; the report holds the state and the agent list of the moment |
| Daemons.FailsIff | pkg/stereosd.go:274-375 | a frame is a handler error iff its type is none of the seven or its needed payload is missing or does not decode, and which error it is |
| Daemons.AcksTellResults | pkg/stereosd.go:283-371 | each decoded frame has the effect of its operation on its payload and an ack that carries that operation's result |
| Daemons.AckMeansDone | pkg/stereosd.go:284-371 | a positive ack means the request is carried out and nothing else: newest mount tracked, secret readable, configuration as sent, shutdown started |
| Daemons.NackChangesNothing | pkg/stereosd.go:302-350 | a negative ack to a mount or an inject, of whatever name, means that tracked list, mount table and visible secrets are as before |
| Daemons.IpcServer.HandleInjectSecret | pkg/ipc.go:135-148 | same effect as the inject message; 400, 422 or 201 by what happened |
| Daemons.IpcServer.HandleListSecrets | pkg/ipc.go:150-160 | 200 with exactly the visible names, each once, or 500 when the directory is missing or cannot be read |
| Daemons.IpcServer.HandleDeleteSecret | pkg/ipc.go:162-175 | removal of whatever name stands behind the route; 400 without a name, 422 or 200 by what happened |
| Daemons.NameBehindRoute | pkg/ipc.go:163 | every name behind the route is the name removed |
| Daemons.IpcServer.HandleMount | pkg/ipc.go:177-194 | same effect as the mount message; 400, 422 or 201 by what happened |
| Daemons.IpcServer.HandleListMounts | pkg/ipc.go:196-199 | 200 with a fresh copy of the tracked mounts |
| Daemons.IpcServer.HandleShutdown | pkg/ipc.go:201-214 | one more shutdown is started, 202 at once |
| Framing.Connection.Read | pkg/server.go:79-86 | a read gives some non-empty part of the stream that fits the room |
| Framing.Scanner.Scan | pkg/server.go:79-93 | the next line is a function of the stream alone, however it is cut into reads, within a buffer of 1 MiB |
| Framing.RoundTripIffFramable | pkg/server.go:79-96 | encoded texts are delivered as they were iff each has no newline, fits the buffer, and does not end in a carriage return |
| Framing.LinesOfOne | pkg/server.go:82 | a text without a newline byte is delivered as it is, or without the return byte at its end, if it is shorter than 1,048,576 bytes, and ends the scan otherwise |
| Framing.LinesAtEnd | pkg/server.go:79-86 | so is the last text of a stream that does not end in a newline |
| Servers.Server.HandleLine | pkg/server.go:98-127 | one line's effect, its answer, and when a failed write ends the connection |
| Servers.Server.HandleConnection | pkg/server.go:74-135 | the daemon's state and everything sent, as the loop on values over the stream's lines, for any reads, cancellation and write failures |
| Servers.AnswerFits | pkg/server.go:98-121 | well-formed frames are answered in kind; malformed ones get an error ack and change nothing |
| Servers.ReportShowsNow | pkg/stereosd.go:279-281 | on a connection a health report holds the state and the agents that the lines before it have left |
| ConnectionLoop.OneResponseEach | pkg/server.go:86-128 | one response per non-empty line, in order, each the answer in the state the lines before it left |
| ConnectionLoop.ServeInParts | pkg/server.go:86-128 | serving a batch and then more is serving all of it |
| ConnectionLoop.StateIsFold | pkg/server.go:86-128 | the daemon ends in the left fold of the dispatched operations and of nothing else |
| ConnectionLoop.LineByLine | pkg/server.go:93-127 | one line from end to end: error acks for malformed text and handler errors, the handler's own response otherwise, and the connection ends iff that last one cannot be sent |
| ConnectionLoop.NothingForThese | pkg/server.go:87-96 | a cancelled context ends the connection before the next line, and empty lines are passed over |
| ConnectionLoop.CutShort | pkg/server.go:87-128 | cancellation and failed writes leave the state that some first part of the lines leaves, with no more responses than its non-empty lines; it is a proper part only if the context is cancelled at the next line, or a write failed and the handler had answered the last line itself |
| ConnectionLoop.ServesWhatWasEncoded | pkg/server.go:79-128 | a stream of framable texts is served as those texts |
| AcceptLoop.NilMeansAllFinished | pkg/server.go:42-70 | in every interleaving the wait group counts spawned and unfinished handlers, and a nil return means cancelled with every accepted connection finished |
| AcceptLoop.NoAddAfterWait | pkg/server.go:57-64 | once Wait has started no connection is added, in any continuation |
| AcceptLoop.ReturnsOnceFinished | pkg/server.go:56-58 | a waiting Serve returns nil once its running handlers have finished, in whatever order, and not while one is left |
| AcceptLoop.CancelledServeReturnsNil | pkg/server.go:46-58 | a run in which a cancelled Serve waits for its connection and returns nil |
| AcceptLoop.ClosedAcceptsNone | pkg/server.go:46-49 | a closed listener accepts no more connections |
| AcceptLoop.LeavesActiveIffNotCancelled | pkg/server.go:51-61 | after a failed accept with an active connection, Serve can return while one is active iff the context is not cancelled |
| AcceptLoop.ErrorReturnLeavesConnection | pkg/server.go:59-61 | a run in which Serve returns an error with a connection active |
| DaemonSteps.EveryRunState | pkg/stereosd.go:175-231 | the invariant of every interleaving that ties the history of transitions to the positions of Run and the poller |
| RunHistory.RunAnnounces | pkg/stereosd.go:183-229 | in every run Run announces booting, ready and shutdown in this order with their messages, as far as it has come; all three iff it is past its shutdown transition, the first two iff it is between ready and that or has returned an error |
| RunHistory.OthersAnnounce | pkg/lifecycle.go:43-64 | the poller announces only that agents are running, and each shutdown goroutine the shutdown once, with its reason |
| RunHistory.RunEndsShutDown | pkg/stereosd.go:226-230 | after Run has returned nil the state is shutdown iff the poller has not made the last transition |
| RunHistory.RunReturns | pkg/stereosd.go:215-230 | from its select on Run returns: nil by way of the shutdown transition, its notification and the closing of the HTTP surface for a cancelled context or a closed channel, an error without a transition for a failed server |
| RunHistory.RunCanReturn | pkg/stereosd.go:215-230 | a run in which a cancellation ends Run with nil and the state shutdown, and one in which a failed server ends it with an error |
| RunHistory.SelectMeaning | pkg/stereosd.go:215-224 | which branch of the select can be taken and where it leads |
| RunHistory.FailMeaning | pkg/stereosd.go:179-189 | Run gives up with an error only where the directories or the listener can fail |
| RunHistory.RequestMeaning | pkg/stereosd.go:358-364 | a request starts one goroutine with its reason or the default one, and none before the daemon serves |
| RunHistory.EveryRunFacts | pkg/stereosd.go:188-230 | in every run an error means a failed server, a stopped poller a cancelled context, the poller runs iff Run is past its start, and the HTTP surface is closed iff Run has returned nil |
| DaemonSteps.ReadyAndHealthyOnce | pkg/agentd.go:153-176 | in every run `ready` and `healthy` are entered at most once, `healthy` only after `ready`, with a running agent in the list stored then |
| DaemonSteps.PromotionStoresFetched | pkg/agentd.go:161-175 | the step that enters `healthy` stores the list its own poll fetched, which has a running agent |
| DaemonSteps.ShutdownLeftAtMostTwice | pkg/lifecycle.go:43-64 | in every interleaving `shutdown` is left at most once by Run, for `ready`, and at most once by the poller, for `healthy` after `ready` had been entered once, and by nobody else |
| DaemonSteps.PromoterSawReady | pkg/agentd.go:161-175 | a poller about to promote has, at an earlier step of the run, found the state `ready` with the list it still holds |
| DaemonSteps.SettledStays | pkg/stereosd.go:212-231 | past the ready transition and with no pending observation, `shutdown` stays for the rest of the run |
| DaemonSteps.AbsorbingIffSettled | pkg/agentd.go:173-175 | a reachable `shutdown` can still be left iff the process is alive and Run is before its ready transition or an observation of `ready` is pending |
| DaemonSteps.ShutdownCanBeLeftTwice | pkg/stereosd.go:207-212 | a run in which `shutdown` is left twice and the state ends as healthy |
| Notifications.NotesConserved | pkg/lifecycle.go:43-64 | at every point of every run, thread by thread in order, envelopes sent plus the one in hand are the transitions made with a sender; hence equal as multisets |
| Notifications.QuietHostIsUpToDate | pkg/lifecycle.go:43-64 | when no two transitions overlap the host has received exactly the history, and its last state is the current one |
| Notifications.LastWordIff | pkg/lifecycle.go:43-64 | in every run with nothing in flight the host's last word is the current state iff the thread that sent last made its own newest transition into that state |
| Notifications.HostCanBeOutdatedIff | pkg/lifecycle.go:55-64 | from every reachable state the outstanding sends can leave the host with an old state iff an envelope in flight names one, or none is in flight and the last sent does |
| Notifications.OldStateIsLastWord | pkg/lifecycle.go:43-64 | a run that ends with the state `shutdown`, nothing in flight, and `ready` as the host's last word |
| ShutdownRuns.ClosedMeansExecuted | pkg/stereosd.go:265-269 | the channel is closed at most once, and if it is, some Execute has made its transition, one umount per entry its loop started with, the sync and the power-off, in that order; exactly the umounts of the list at the loop's start, newest first, if no loops overlapped |
| ShutdownRuns.FullRecordEnds | pkg/shutdown.go:50-72 | a complete record begins with its reason and ends with the sync and the power-off of the configured mode, by the mode's own string |
| ShutdownRuns.PlanWasTracked | pkg/mounts.go:138 | the plan on a goroutine's record is the list that was tracked at the step of the run where its loop started |
| ShutdownRuns.ApartRunsReadTheirPlans | pkg/mounts.go:137-147 | in a run whose unmount loops do not overlap nothing panics and each loop reads exactly its start list, newest first |
| Overlaps.PanicsIffAtRisk | pkg/mounts.go:137-147 | some steps of the shutdowns under way end in an index panic iff one of them has still to empty the list and another one has still to read from it, or one reads past the end now |
| Overlaps.ShutdownsPanicIffAtRisk | pkg/mounts.go:137-147 | the same for every state of the daemon and its continuations by shutdown steps |
| Overlaps.RiskBeginsIff | pkg/stereosd.go:350-371 | a step takes a state without risk to one with risk iff it is a request while a mount is tracked and a shutdown has not emptied the list, or a tracked mount while two have not and one of these is before its loop |
| Overlaps.OverlapCanPanic | pkg/mounts.go:137-147 | from every state with such a pair of shutdowns some continuation ends in an index panic |
| Overlaps.OverlapPanics | pkg/stereosd.go:356-371 | for every mount, a run with two shutdown requests that ends in an index panic |
| ShutdownRuns.AlwaysAPrefix | pkg/shutdown.go:120-146 | at every moment what a shutdown goroutine has done is a prefix of the complete sequence for the entries it has read |
| ShutdownRuns.RunEndsForAReason | pkg/stereosd.go:215-230 | Run returns nil only after cancellation or a complete Execute |
| ShutdownRuns.ShutdownsProgress | pkg/stereosd.go:359-364 | each shutdown goroutine comes nearer to its end with its next step, or waits for one that is closing the channel, or panics; the last never without overlapping loops |
| ShutdownEnds.ShutdownsEnd | pkg/stereosd.go:265-269 | from every reachable state not at risk, under every schedule with enough rounds: all shutdowns under way end, each has run in full, nothing panics, and the channel is closed exactly once if there was any |
| Uninterrupted.PollAlone | pkg/agentd.go:153-176 | an uninterrupted poll in the step system promotes exactly when Poll does, with one notification |
| Uninterrupted.ShutdownAlone | pkg/shutdown.go:120-146 | an uninterrupted shutdown of a live process issues exactly the sequence of Execute for the tracked list and leaves nothing tracked |

## Left out

- Sockets, vsock and TCP transports, listener selection, HTTP routing and request plumbing: calls into other libraries. A poll of agentd is an input.
- JSON encoding and decoding: arbitrary functions; only that encoded objects hold no raw newline is used.
- `filepath.Clean` and `bufio.Scanner` are taken by their documented behaviour; their own code is not part of this model.
- File modes, ownership, `os.MkdirAll` beyond success or failure, clocks and uptime.
- SSH key injection and its file steps: only its acknowledgement is modelled. Runtime directories, the command line and version printing would add easy members.
- Subdirectories of the secret directory: the directory is flat. The temporary file beside it, for the names `.` and `/`, is kept only as far as the rename needs it.
- SecretSteps.EqualsEverySerialOrder: does not cover two injects of the same name at once, nor names that end in `.tmp`, where the temporary file is shared, nor the removal of the directory.
- Mounts.MountArgsMeanPayload: does not cover mount(8)'s own options in the place of the tag; the arguments are read by position.
- Servers.Server.HandleConnection: does not cover changes that others make to the daemon between two lines of a connection.
- MountSteps.EveryRun: does not cover two unmount loops that overlap, which `Overlaps` does as far as their reads go, nor appends in two accesses, which `AppendRaces` does.
- MountSteps.LostIsLate: does not cover stale writes; `AppendRaces.WhatIsMounted` does.
- MountSteps.AfterLoop: does not cover stale writes; `AppendRaces.WhatIsMounted` does.
- SecretSteps.EveryRun: does not cover two injects of the same name at once, nor names that end in `.tmp`.
- SecretSteps.OldOrNew: does not cover two injects of the same name at once, nor names that end in `.tmp`.
- SecretSteps.ChangesAtOnce: does not cover two injects of the same name at once, nor names that end in `.tmp`.
- `degraded`: declared by the program and never entered.
- HTTP ping, health and agent listing: they read what the line protocol's messages read.
