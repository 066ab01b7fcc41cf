# nxtermd: replication, delivery and codecs, verified

nxtermd keeps terminals alive on a server; clients hold replicas of its object
tree, its screens and its scrollback, fed through a bounded queue that drops
messages rather than block. This project models the protocols between the two
ends, and the text codecs around them, and proves what each is for.

`dafny verify dfyconfig.toml` checks everything. Each module follows one part
of the program:

| file | module | part |
|---|---|---|
| `Option.dfy`, `Text.dfy`, `Protocol.dfy` | `Options`, `Text`, `Protocol` | optional values, path splitting, decimal client ids, tree nodes and ops |
| `ServerTree.dfy` | `ServerObjects` | the server's tree: transactions, mutators, emitted ops |
| `TreeStore.dfy` | `ClientTree` | the client's copy: snapshots, events, op application |
| `Replication.dfy` | `Replication` | one connection as a state machine over both |
| `Client.dfy` | `Outbound` | a connection's bounded queue |
| `EventProxy.dfy` | `Capture` | recording screen operations, synchronized output (mode 2026) |
| `History.dfy` | `Scrollback` | a row log with sequence numbers and a capacity |
| `Delivery.dfy`, `RegionActor.dfy` | `Delivery`, `Actor` | fan-out to subscribers: the state machine, and the actor that refines it |
| `Terminal.dfy`, `ClientHistory.dfy` | `Terminal`, `ClientHistory` | the client's tab: screen, history labels |
| `Markers.dfy` | `Markers` | sync markers through a region, to its subscribers and to newcomers |
| `ScrollbackSync.dfy`, `Viewport.dfy` | `ScrollbackSync`, `Viewport` | fetching scrollback in chunks and merging it; what scrollback mode shows |
| `EventLoop.dfy` | `EventLoop` | sessions, regions, subscriptions, overlays, input routing |
| `Upgrade.dfy` | `Upgrade` | live upgrade with rollback |
| `Sgr.dfy` | `Sgr` | row renderer against an SGR interpreter |
| `SyncMarkers.dfy` | `SyncMarkers` | OSC marker printers and streaming parsers |
| `Base64.dfy` | `Base64` | line-framed base64 over ssh |
| `Chords.dfy` | `Chords` | the key chord trie |
| `Tabs.dfy` | `Tabs` | tab reconciliation |
| `Inbound.dfy` | `Inbound` | merging of received terminal events |

Code that updates state is a class whose methods are proved equal to functions
(or steps) over values; the theorems are about those functions, over every
input and every run. A screen is the log of operations applied to it, so
statements about delivery are about gaps and repeats in that log. A `ghost`
field such as `Client.followed` or `ServerTree.log` records what happened;
nothing the program does depends on it.

## What holds only under a condition

Eleven properties are false of the code as one would first state them. Each has
its failing inputs and the exact condition under which it holds:

- A mutation replays on a client if and only if the name its op path is built
  from has no `/`, or it changes nothing (`MutationReplaysIff`,
  `SlashedSessionIsLost`). Client ids are decimal, so client mutations always
  replay.
- A snapshot's delta leaves the client's history correctly labelled if and only
  if the local history is empty, or it is not longer than the server's count
  and has room for the delta (`UpdateLabelsIff`, `LongerHistoryIsMislabelled`).
- Merging fetched scrollback is right, for a client that is not behind, if and
  only if its history reaches back to the end of the fetched range or has no
  room (`ReconciledIff`, `ClearedHistoryIsMislabelled`).
- After fetching scrollback and more live output, the history is rightly
  labelled if and only if the client was in step before it asked, or no row past
  the answer arrived before the last chunk (`FetchLabelsIff`,
  `LateJoinerLosesARow`, `LateJoinerFetchesNothing`).
- The two overlay maps mirror each other after a registration if and only if
  the client had no overlay on another region (`RegistrationMirrorsIff`,
  `MovedOverlayOutlivesItsOwner`). Input is still routed only to a connected
  client or the live region.
- What a user scrolls through while an answer streams in is a part of the log if
  and only if nothing is fetched yet, the local history is empty, or it begins
  where the answer ends: otherwise rows appear twice until the fetch completes
  (`StreamingReadsIff`, `StreamingShowsARowTwice`).
- Each sync marker reaches a client that joins exactly once if and only if none
  was waiting behind a synchronized batch when it joined (`NewcomerReadsOnceIff`,
  `WaitingMarkerIsSentTwice`).
- Destroying a region leaves overlays on other regions alone if and only if the
  region's own mapping is not a stale one (`DestroySparesOthersIff`,
  `DestroyTakesAMovedOverlay`).
- A byte stream sent through base64 framing comes back unchanged if and only if
  it is made of non-empty newline-ended lines whose last byte is not CR
  (`StreamComesBackIff`, `BlankLineAndCRAreLost`).
- The active tab's region stays active across a tree update if and only if no
  spawned region is awaited, or no earlier tab disappears, or the tab ends up
  last (`ActiveStaysIff`, `AwaitedSpawnMovesTheActiveTab`): while an awaited
  region has not appeared, the previous active region is not looked up either.
- A rendered row shows its cells as they are if and only if no visited cell's
  text holds an escape character: the renderer writes cell text as it is
  (`RenderCellLine`, `EscSpoils`).

## Model

The first 39 rows are the main results; the rest are what they rest on, part by
part.

| member | source | states |
|---|---|---|
| `Replication.ReplicaIsFaithful` | internal/tui/tree.go:31-54 | after any run of transactions, refused or delivered messages, write failures and resyncs, a valid store at version v holds exactly the server tree as committed at version v |
| `Replication.RunKeeps` | internal/server/server_requests.go:37-50 | every run only appends committed versions, never moves a valid store backwards, and keeps every queued or written message true of the committed trees and in version order |
| `Replication.DrainedReplicaIsCurrent` | internal/server/client.go:220-231 | if no tree message was refused or discarded since the last accepted snapshot, then once queue and wire are empty the store is the current tree at the current version |
| `Replication.ResyncHeals` | internal/server/server_requests.go:552-556 | after any run, serving a resync request that a client has asked for, on a live connection with room, heals it whatever was lost before or is still queued: once the connection drains without losing more, however much more is committed meanwhile, the store is the current tree at the current version |
| `ServerObjects.TransactionReplays` | internal/server/tree.go:69-239 | applying the ops of a whole transaction to the tree it started from yields the tree it ended with, for any mutations over names without a slash |
| `ServerObjects.MutationReplaysIff` | internal/server/tree.go:115-239 | one mutation replays on the client exactly when its name has no slash or it changes nothing |
| `Capture.RunAccounts` | internal/server/event_proxy.go:49-118 | over any run: operations taken by flushes followed by those held are the captured log, once and in order; each flush hands out its operations, or a snapshot and as many bells as came after the last operation that switched synchronized output off; sync markers come out once, in order |
| `Delivery.SubscriberSeesTheLog` | internal/server/actor.go:208-240 | at every point of every run a subscriber that is not behind holds a snapshot and then exactly the operations after it, no gap and no repeat: at least the log up to the last flush, which is all of it but the operations an open synchronized batch holds; a subscriber that is behind has the repair timer pending |
| `Terminal.TabShowsTheLog` | internal/tui/terminal.go:165-303 | end to end: a tab that handled every frame its queue accepted, for a subscriber not behind, shows at least the log up to the last flush and nothing that is not in the log; what may be missing is the operations an open synchronized batch holds |
| `ClientHistory.HistoryStaysASlice` | internal/tui/terminal.go:195-237 | for a subscriber refused nothing, with deltas inside both retention limits, the local history built over any run stays one contiguous slice of the server row log under the server labels |
| `ClientHistory.UpdateLabelsIff` | internal/tui/terminal.go:195-237 | a bridging snapshot leaves the history ending at the newest server row exactly when it fits |
| `ScrollbackSync.FetchCompletes` | internal/tui/scrollback.go:113-201 | when the last chunk arrives, a client that counts fewer rows than the answer is rebuilt from it, whatever its history was and whatever live output came in between; any other, if its labels were right, keeps its range extended backwards, rightly labelled |
| `ScrollbackSync.FetchLabelsIff` | internal/tui/scrollback.go:113-201 | once more live rows arrive after the fetch, the history is rightly labelled exactly when the client was in step before it asked, or no row past the answer arrived before the last chunk |
| `ScrollbackSync.ReconciledIff` | internal/tui/scrollback.go:113-201 | the merge is right exactly when the history still reaches back to the end of the fetched range, or is full |
| `EventLoop.RunKeeps` | internal/server/server_requests.go:231-273 | over any run of requests the tree stays consistent, subscriptions live, overlays agreed and fan-out equal to the subscriptions, given fresh region ids |
| `EventLoop.InputGoesSomewhereLive` | internal/server/server_requests.go:602-615 | after any run, input for a live region reaches a connected overlay owner or the region itself, and input for a dead one goes nowhere |
| `EventLoop.RegistrationMirrorsIff` | internal/server/server_requests.go:571-589 | the overlay maps mirror each other after a registration exactly when the client had no overlay elsewhere |
| `Upgrade.Server.HandleUpgrade` | internal/server/upgrade.go:31-240 | with failure possible at each step: phases published are a prefix of the declared order and then one failure, or all of them; a client in step before is in step after, so versions stay consecutive across the upgrade's own commits and the parked loop's; every descriptor is closed; on failure the server accepts, the loop is unparked, the child killed and each actor runs whose reader resumes |
| `Upgrade.HandoffPreservesSessions` | internal/server/upgrade_recv.go:112-156 | the new process has exactly the regions handed over, unchanged, each listed once in its session, and exactly the sessions that have one |
| `Sgr.RenderCellLine` | internal/tui/terminal.go:649-704 | an SGR interpreter reading the emitted text shows the row, exactly when no visited cell's text holds an escape character: without a cursor each cell with its normalised attributes; at the cursor the cell with its reverse toggled, a red reversed X when disconnected, a bright cyan reversed bold question mark in command mode; before and after the cursor what it shows without one |
| `SyncMarkers.CutAnywhere` | internal/nxtest/ptyio.go:299-358 | cutting a stream anywhere, inside a prefix, a payload or a terminator, changes neither the ids found nor what is carried over |
| `SyncMarkers.StripsExactlyTheMarkers` | internal/tui/sync.go:46-91 | markers printed with either terminator, interleaved with filler: extracting returns the filler concatenated and the ids in order |
| `Base64.WritesReachTheSocket` | cmd/nxtermctl/proxy.go:118-143 | any sequence of writes, framed with CR, turned into LF by the terminal and decoded by the proxy, reaches the socket byte for byte |
| `Base64.StreamIsDelivered` | internal/transport/ssh_exec_flags_windows.go:37-79 | whatever comes from the socket is delivered as its non-empty lines, for any CR or CRLF damage to the framing |
| `Base64.StreamComesBackIff` | cmd/nxtermctl/proxy.go:93-112 | the stream comes back unchanged exactly when it is made of non-empty lines, each ended and none ending in CR |
| `Markers.MarkersArrive` | internal/server/event_proxy.go:49-118 | over any stretch of a run in which nothing sent to a subscriber is refused, the markers it has read and those still waiting are the ones from before followed by the ones emitted since, each once and in order |
| `Markers.NewcomerReadsOnceIff` | internal/server/actor.go:659-689 | each marker reaches a newcomer once exactly when none was waiting behind a synchronized batch when it joined; the waiting ones are among the recent ones it is sent, and are sent again |
| `Viewport.StreamingReadsIff` | internal/tui/scrollback.go:320-334 | what the user scrolls through while an answer streams in is a part of the log exactly when nothing is fetched yet, the history is empty, or it begins where the answer ends |
| `ScrollbackSync.ScrollbackLayer.View` | internal/tui/scrollback.go:305-372 | the lines on view are one window over the rows not loaded, fetched, in history and on screen; while output arrives the view keeps to the row the user scrolled back to as long as it is retained, then to the oldest row, and at the bottom it is the live screen |
| `Terminal.RepairedTabAsksAgain` | internal/tui/terminal.go:165-173 | end to end: a tab that handled the frames with which the server ended a spell of being behind no longer counts its scrollback as fetched, so opening it asks for the lost rows |
| `Replication.SkippedAsksAgain` | internal/tui/model.go:47-52 | over any run, every tree message a client read without applying it has asked for a resync: each such request is pending, was served, or was refused by the client's own full queue |
| `Delivery.TurnTells` | internal/server/actor.go:208-240 | in any turn of the actor, a subscriber stops being behind only with a snapshot that says rows were lost, carries none, and shows the whole screen; and only a subscriber that was refused something is told so |
| `Chords.ChordTrie.Match` | internal/tui/keybind.go:80-93 | returns the last binding inserted for exactly that sequence, and reports a prefix exactly when a strictly longer inserted sequence extends it |
| `Chords.ChordTrie.Walk` | internal/tui/keybind.go:96-103 | enumerates exactly the bindings below a node, each once |
| `Tabs.TabsFollowTheTree` | internal/tui/session.go:82-135 | after a tree update there is one tab for each listed region and no other; survivors keep their own terminals and old order and take the tree's names; new tabs follow in session order, each named after its region and with a new terminal |
| `Tabs.RunKeeps` | internal/tui/session.go:82-318 | over any run of tree updates, spawn answers and switches: tabs unique, the active one in range and subscribed, and no two tabs ever sharing a terminal |
| `Tabs.SpawnRaceEndsAlike` | internal/tui/session.go:300-318 | a spawn response before or after its tree event ends on the same tabs, active tab and subscription |
| `Tabs.ActiveStaysIff` | internal/tui/session.go:137-152 | the active region stays active across an update exactly when none is awaited, or no earlier tab goes, or it ends up last |
| `Inbound.StreamKept` | internal/tui/server.go:339-380 | so the events and other messages handed on are exactly those passed, in order: nothing lost, repeated or reordered |
| `Replication.StepKeeps` | internal/server/server_requests.go:37-50 | one step of any kind keeps the connection invariant and moves neither the committed versions nor a valid store backwards |
| `Replication.TransactionKeeps` | internal/server/server_requests.go:37-50 | committing a request and broadcasting its ops keeps the invariant whether or not the message fits the queue |
| `Replication.WriteKeeps` | internal/server/client.go:86-142 | the write loop keeps the invariant when it writes, when it inserts a warning before a message, when a write fails and when it drains a dead connection |
| `Replication.ReadKeeps` | internal/tui/tree.go:31-54 | handling the oldest message keeps the store faithful and its version from going backwards, accepted or not |
| `Replication.WriteDoes` | internal/server/client.go:86-142 | a write takes the oldest message to the wire; a failed one ends the connection and loses what is queued |
| `Replication.ServeDoes` | internal/server/server_requests.go:552-556 | serving a resync request takes it, and answers with the current tree unless the queue is full |
| `Replication.TransactionIsSent` | internal/server/server_requests.go:37-50 | a request that changes something adds a version, and its ops are queued under that number or the loss is recorded; one that changes nothing adds none |
| `Replication.GapHeals` | internal/tui/model.go:47-52 | a tree message that skips a version, read while the connection lives, asks for a resync, and serving that heals the store |
| `ServerObjects.SilentTransactionIsIdentity` | internal/server/tree.go:76-86 | a transaction that emitted nothing changed nothing, whatever the names |
| `ServerObjects.MutationReplays` | internal/server/tree.go:115-239 | every kind of mutation over a slash-free name replays exactly |
| `ServerObjects.SlashedSessionIsLost` | internal/server/tree.go:133-141 | the failing input: a session called "a/b" is created on the server and never appears on a client |
| `ServerObjects.ClientMutationsAreSlashFree` | internal/server/tree.go:375-377 | client ids are decimal numerals, so mutations of a client always replay |
| `ServerObjects.RemoveString` | internal/server/tree.go:379-386 | the result is the list without the first occurrence of the string |
| `ServerObjects.MutationDoes` | internal/server/tree.go:115-239 | each kind of mutation, map by map: which node or list it adds, replaces or removes, field by field, and that every other node of the tree stays |
| `ServerObjects.NodeDescribes` | internal/server/tree.go:115-123 | the node published for a region has exactly the fields the region reports of itself |
| `Protocol.RemoveFirstDistinct` | internal/server/tree.go:379-386 | from a duplicate-free list, exactly the removed string goes, and the rest stays duplicate-free |
| `ServerObjects.ServerTree.StartTx` | internal/server/tree.go:69-72 | opens a transaction on the current tree with no ops |
| `ServerObjects.ServerTree.CommitTx` | internal/server/tree.go:76-86 | returns ops that replay the transaction on the tree it started from; the version rises by one exactly when there are ops; no ops means no change; with no transaction open there is nothing to hand out |
| `ServerObjects.ServerTree.Emit` | internal/server/tree.go:88-92 | an op is recorded only while a transaction is open |
| `ServerObjects.ServerTree.SetRegion` | internal/server/tree.go:115-123 | the published node carries the region's current fields, and the transaction's ops keep replaying to the published tree |
| `ServerObjects.ServerTree.DeleteRegion` | internal/server/tree.go:125-128 | the region leaves the tree, known or not, with a delete op that keeps the transaction replaying |
| `ServerObjects.ServerTree.EnsureSession` | internal/server/tree.go:133-141 | creates a missing session and reports whether it did; an existing one is left alone without ops |
| `ServerObjects.ServerTree.DeleteSession` | internal/server/tree.go:143-146 | the session leaves the tree, known or not, with a delete op that keeps the transaction replaying |
| `ServerObjects.ServerTree.AddRegionToSession` | internal/server/tree.go:148-157 | appends to the list and to its published node; an unknown session is ignored without ops |
| `ServerObjects.ServerTree.RemoveRegionFromSession` | internal/server/tree.go:159-168 | removes the first occurrence from the list and its published node; emits even when nothing matched |
| `ServerObjects.ServerTree.SetProgram` | internal/server/tree.go:172-176 | the program is added or replaced under its own name, with an op that keeps the transaction replaying |
| `ServerObjects.ServerTree.DeleteProgram` | internal/server/tree.go:178-181 | the program leaves the tree, known or not, with a delete op that keeps the transaction replaying |
| `ServerObjects.ServerTree.AddClient` | internal/server/tree.go:185-190 | the client appears under its decimal id with an empty identity, with an op that keeps the transaction replaying |
| `ServerObjects.ServerTree.DeleteClient` | internal/server/tree.go:192-196 | the client leaves the tree, known or not, with a delete op that keeps the transaction replaying |
| `ServerObjects.ServerTree.SetClientIdentity` | internal/server/tree.go:198-210 | a known client is published whole with its new identity; an unknown one is ignored without ops |
| `ServerObjects.ServerTree.SetClientSubscription` | internal/server/tree.go:212-221 | a known client is published whole with the region it watches; an unknown one is ignored without ops |
| `ServerObjects.ServerTree.SetClientSession` | internal/server/tree.go:223-232 | a known client is published whole with its session; an unknown one is ignored without ops |
| `ServerObjects.ServerTree.SetUpgrade` | internal/server/tree.go:236-239 | the upgrade node is replaced whole, with an op that keeps the transaction replaying |
| `Text.ValueOfDecimal` | internal/server/tree.go:375-377 | a client id reads back from its decimal numeral |
| `Text.DecimalInjective` | internal/server/tree.go:375-377 | different client ids have different keys in the tree |
| `ClientTree.TreeStore.HandleSnapshot` | internal/tui/tree.go:31-35 | replaces tree and version and makes the store valid |
| `ClientTree.TreeStore.HandleEvents` | internal/tui/tree.go:40-54 | accepts exactly the next version on a valid store and applies all its ops in order; otherwise answers that it refused, and changes nothing |
| `ClientTree.TreeStore.ApplyOne` | internal/tui/tree.go:56-75 | dispatch on the first path segment has the effect the op table gives, unknown paths and kinds included |
| `ClientTree.TreeStore.ApplyRegionOp` | internal/tui/tree.go:77-94 | set and delete of a region node; wrong length, op or value type changes nothing |
| `ClientTree.TreeStore.ApplySessionOp` | internal/tui/tree.go:96-139 | set and delete of a session, add and first-match remove in its region list; anything else changes nothing |
| `ClientTree.TreeStore.ApplyProgramOp` | internal/tui/tree.go:141-158 | set and delete of a program node; wrong length, op or value type changes nothing |
| `ClientTree.TreeStore.ApplyClientOp` | internal/tui/tree.go:160-177 | set and delete of a client node; wrong length, op or value type changes nothing |
| `ClientTree.ApplyOpsAppend` | internal/tui/tree.go:40-54 | applying ops in two batches is applying them in one |
| `ClientTree.StrayOpIgnored` | internal/tui/tree.go:56-195 | an op on a path, of a kind or with a value the client does not know changes nothing |
| `ClientTree.ServerIsReplaced` | internal/tui/tree.go:187-195 | the server node is replaced by a set with a value that decodes |
| `Protocol.SplitNodePath` | internal/tui/tree.go:197-203 | the path of a slash-free node splits back into kind and name |
| `Protocol.SplitListPath` | internal/tui/tree.go:197-203 | the path of a list inside a slash-free node splits back into kind, name and field |
| `Protocol.SlashLengthensNodePath` | internal/tui/tree.go:197-203 | a slash in the name makes the path longer than any node path the client acts on |
| `Outbound.Client.SendFrame` | internal/server/client.go:220-231 | the message is queued exactly when there is room, never reorders or loses what was accepted, and every byte refused is either already reported or still counted |
| `Outbound.Client.WriteOne` | internal/server/client.go:86-142 | the write loop takes the oldest message and loses none of what was accepted; the bytes refused since the last warning are reported once, before the next write; after a failed write it only drains |
| `Capture.HeldIsBounded` | internal/server/event_proxy.go:80-118 | after a flush at most 65536 operations are held, and any are held only while synchronized output is on |
| `Capture.SyncOpenIff` | internal/server/event_proxy.go:211-240 | synchronized output is on exactly when some operation switched it on and none has switched it off since |
| `Capture.SyncEndIsLast` | internal/server/event_proxy.go:224-240 | the marked end is the last operation that switched it off while it was on; there is none exactly when nothing is marked |
| `Capture.BellsAreKept` | internal/server/event_proxy.go:98-124 | what trails a snapshot is all the bells after the end of synchronized output, as many as there were, and nothing else |
| `Capture.BacklogIsNewest` | internal/server/event_proxy.go:49-57 | the markers kept for newcomers are the newest 256, in order |
| `Capture.EventProxy.Record` | internal/server/event_proxy.go:128-142 | an operation that touches no mode is appended to the batch and the mode flags stay true of it |
| `Capture.EventProxy.SetMode` | internal/server/event_proxy.go:211-222 | turns synchronized output on exactly for the private mode 2026 in any position of the list |
| `Capture.EventProxy.ResetMode` | internal/server/event_proxy.go:224-240 | marks the end of synchronized output after the operation itself, only if it was on |
| `Capture.EventProxy.EmitSyncMarker` | internal/server/event_proxy.go:49-57 | queues the marker and keeps the newest 256 for later subscribers |
| `Capture.EventProxy.Flush` | internal/server/event_proxy.go:80-118 | holds an open batch of at most 65536 operations untouched; otherwise empties batch and markers and hands out what the batch calls for |
| `Capture.EventProxy.TrailingBells` | internal/server/event_proxy.go:98-124 | as many bells as the operations hold, and nothing else |
| `Delivery.NextKeeps` | internal/server/actor.go:363-410 | each turn of the actor keeps every subscriber in sync or marked behind, and only extends the log |
| `Delivery.RunKeeps` | internal/server/actor.go:166-206 | the invariant holds in every state of every run |
| `Delivery.CatchupRepairs` | internal/server/actor.go:214-240 | a behind subscriber served by the timer shows the whole log at once |
| `Delivery.BroadcastKeepsSync` | internal/server/actor.go:363-410 | one flush, whether held, turned into a snapshot or sent as events, leaves a subscriber showing the log up to what is still held, or behind |
| `Delivery.OpenBatchEndsInSnapshot` | internal/server/event_proxy.go:211-240 | a batch held open can only ever be closed by an end that a flush turns into a snapshot, so its operations are never sent twice or lost |
| `Delivery.ViewDecomposes` | internal/tui/terminal.go:165-303 | what a client shows is its last snapshot followed by exactly the operations delivered after it |
| `Actor.ComputeScrollbackSince` | internal/server/actor.go:447-477 | returns the retained rows with sequence numbers in the asked range, and none when the range is empty or outside the history |
| `Actor.DeliverTo` | internal/server/actor.go:509-552 | one subscriber: a refused frame marks it behind; a landed frame moves its row counter; a catch-up is tried only behind a landed frame and clears the flag only if it landed too |
| `Actor.RegionActor.DeliverFrames` | internal/server/actor.go:509-552 | every subscriber gets exactly one such round with its own frame, in any order, and no other state changes |
| `Actor.RegionActor.DeliverSnapshotPerSub` | internal/server/actor.go:418-440 | each subscriber is offered a snapshot with exactly the rows its own counter says it lacks |
| `Actor.RegionActor.BroadcastTrailing` | internal/server/actor.go:562-586 | trailing bells and sync markers go out in one message after the snapshot, and nothing is sent when there are none |
| `Actor.RegionActor.CombineSyncs` | internal/server/actor.go:562-586 | the message carries the events followed by one sync event per marker |
| `Actor.RegionActor.BroadcastToSubscribers` | internal/server/actor.go:363-410 | flushes the proxy and gives every subscriber what that flush calls for: the broadcast of the state machine |
| `Actor.RegionActor.SomeoneBehind` | internal/server/actor.go:199-206 | true exactly when some subscriber is behind |
| `Actor.RegionActor.ArmCatchupIfBehind` | internal/server/actor.go:191-197 | leaves the timer pending if it was, and otherwise arms it exactly when someone is behind |
| `Actor.RegionActor.HandlePtyData` | internal/server/actor.go:611-631 | feeding terminal output, broadcasting and arming is one step of the state machine |
| `Actor.RegionActor.HandleSyncMarker` | internal/server/actor.go:825-828 | marking, broadcasting and arming is one step of the state machine |
| `Actor.RegionActor.HandleAddSubscriber` | internal/server/actor.go:659-689 | a joining client is offered a snapshot, marked behind if that is refused, and then offered the recent markers: one step |
| `Actor.RegionActor.HandleRemoveSubscriber` | internal/server/actor.go:693-698 | the client leaves and nobody else changes: one step |
| `Actor.RegionActor.CatchupBehindSubscribers` | internal/server/actor.go:214-240 | only subscribers that are behind are offered a snapshot, one that says rows were lost; one that lands it is no longer behind and its counter is current |
| `Actor.RegionActor.HandleCatchupTimer` | internal/server/actor.go:166-189 | the timer turn disarms, repairs and re-arms if someone is still behind: one step |
| `Terminal.TerminalLayer.HandleScreenUpdate` | internal/tui/terminal.go:165-268 | the tab shows the snapshot; its history is rebuilt from the old one and the delta; a desync asks for scrollback again |
| `Terminal.TerminalLayer.Rebuild` | internal/tui/terminal.go:195-237 | the rebuilt history: survivors cut to the server count, delta after them, totals bridged only by an exact non-desync delta |
| `Terminal.TerminalLayer.HandleTerminalEvents` | internal/tui/terminal.go:270-303 | replays what is left after the markers and hands out the marker ids in order; before the first snapshot everything is dropped |
| `Terminal.TerminalLayer.Replay` | internal/tui/terminal.go:875-1065 | every event is applied to the screen and to the history in order |
| `Terminal.ExtractSyncs` | internal/tui/terminal.go:278-287 | separates markers from the rest, both in order |
| `Terminal.SyncsAreTransparent` | internal/tui/terminal.go:278-287 | setting markers aside changes neither screen nor history |
| `Terminal.TerminalLayer.Activate` | internal/tui/terminal.go:74-86 | subscribing again forgets that scrollback was fetched |
| `Terminal.TerminalLayer.AskScrollback` | internal/tui/terminal.go:415-426 | opening scrollback asks for the rows exactly unless that was done and nothing was lost since |
| `Markers.WaitingMarkerIsSentTwice` | internal/server/actor.go:659-689 | the failing input: a client that joins while a marker waits reads it twice |
| `Markers.EventsThenMarkers` | internal/server/actor.go:562-586 | the markers of a broadcast follow its events, and setting them aside gives back exactly the events |
| `Markers.JoinIds` | internal/server/actor.go:659-689 | a newcomer with room for both its frames is sent exactly the recent markers |
| `ClientHistory.DeltaIsExact` | internal/server/actor.go:447-477 | a delta from a row still retained is exactly the rows from there to the newest |
| `ClientHistory.CountMovesIff` | internal/tui/terminal.go:195-237 | a snapshot moves the client's row count exactly when it says that no rows were lost and its delta is exactly the rows from that count to its own |
| `ClientHistory.RowsSurvive` | internal/tui/terminal.go:195-237 | with room for them, the rows after a snapshot are those the server still has, then the delta |
| `ClientHistory.RetainedRows` | internal/server/actor.go:447-477 | for any range asked for, exactly the rows of the log in it that are retained, empty and partly evicted ranges included |
| `ClientHistory.LongerHistoryIsMislabelled` | internal/tui/terminal.go:195-237 | the failing input: a client with more history than the server mislabels the rows of a snapshot |
| `ClientHistory.UpdateSlices` | internal/tui/terminal.go:195-237 | a slice updated by the missing rows is the slice up to the newest row |
| `ClientHistory.EventsSlice` | internal/tui/terminal.go:875-1065 | replayed rows extend a slice by exactly the rows they scroll off, within capacity |
| `ClientHistory.FlushTracks` | internal/server/actor.go:418-440 | one flush, snapshot or events, keeps a tracked history in step with the row counter the server keeps for it |
| `ClientHistory.TurnTracks` | internal/server/actor.go:363-440 | one turn of the actor, of any kind, keeps an undisturbed tracked history in step |
| `Scrollback.EventsKeepInvariantIff` | pkg/te/history_screen.go:675-684 | over any run from an empty history, the documented sequence invariant of the type holds exactly given a positive capacity or no row since the last reset |
| `Scrollback.ZeroCapacityLosesInvariant` | pkg/te/history_screen.go:675-684 | of the library type only, as no caller makes one: with capacity zero the total runs ahead of an empty history |
| `Scrollback.PrependKeepsInvariantIff` | pkg/te/history_screen.go:817-835 | prepending keeps the sequence invariant exactly when no more rows are kept than precede the first one; otherwise the first sequence number wraps |
| `Scrollback.PushAllSlices` | pkg/te/history_screen.go:675-684 | pushing the next rows of a log onto a slice of it gives the longer slice, evicting from the front at capacity |
| `Scrollback.HistoryScreen.Append` | pkg/te/history_screen.go:13-24 | appends, evicting the oldest row exactly at a positive capacity |
| `Scrollback.HistoryScreen.ScrollOff` | pkg/te/history_screen.go:675-684 | the row, the total and the first sequence number move together |
| `Scrollback.HistoryScreen.ResetHistory` | pkg/te/history_screen.go:837-855 | rows go, the total stays, and the next row gets the next number |
| `Scrollback.HistoryScreen.SetTotalAdded` | pkg/te/history_screen.go:802-807 | sets the total and the first number that matches the retained rows, never below zero |
| `Scrollback.HistoryScreen.PrependHistory` | pkg/te/history_screen.go:817-835 | keeps the newest of the lines that fit, in front, and lowers the first number by as many, modulo 2^64 |
| `ScrollbackSync.HandleGetScrollback` | internal/server/handlers.go:409-448 | chunks put back newest-first rebuild the scrollback exactly; all but the last are full, only the last says done; an unknown region gets one error |
| `ScrollbackSync.FetchedInStepIff` | internal/tui/scrollback.go:113-201 | the same condition for the moment the last chunk arrives: right labels up to the next row the server will send |
| `ScrollbackSync.LateJoinerLosesARow` | internal/tui/scrollback.go:113-201 | the failing input: a row sent between query and last chunk is lost to a late joiner, and every later row is labelled one too low |
| `ScrollbackSync.LateJoinerFetchesNothing` | internal/tui/scrollback.go:113-201 | the failing input: a late joiner whose count has caught up with the answer fetches nothing and keeps a wrong label |
| `ScrollbackSync.AnswerMerges` | internal/tui/scrollback.go:113-201 | whatever is interleaved, the last chunk merges exactly the whole answer, and live rows before it are all counted |
| `ScrollbackSync.BehindIsRebuilt` | internal/tui/scrollback.go:113-201 | a client behind total T ends with exactly [T-n,T), or its newest part at capacity |
| `ScrollbackSync.GapIsFilled` | internal/tui/scrollback.go:113-201 | a client not behind is extended backwards by exactly the missing rows it has room for |
| `ScrollbackSync.TakenReachesBack` | internal/tui/scrollback.go:113-201 | with room for the gap a client [F,C) ends holding [min(F,T-n),C) |
| `ScrollbackSync.ClearedHistoryIsMislabelled` | internal/tui/scrollback.go:113-201 | the failing input: a reset between query and answer puts old rows under new numbers |
| `ScrollbackSync.ScrollbackLayer.HandleResponse` | internal/tui/scrollback.go:90-111 | responses after the fetch is over are ignored; an error ends it and keeps everything; any other counts the rows the server has |
| `ScrollbackSync.ScrollbackLayer.HandleSyncChunk` | internal/tui/scrollback.go:113-201 | chunks accumulate in order; an error ends the fetch; the last chunk merges and re-anchors; without a screen the rows are kept for the view |
| `ScrollbackSync.ScrollbackLayer.Merge` | internal/tui/scrollback.go:161-192 | the clamped sequence arithmetic prepends exactly the rows the merge calls for |
| `ScrollbackSync.ScrollbackLayer.AdvanceAnchor` | internal/tui/scrollback.go:68-88 | the offset moves by the rows added since the last call, capped at the top, and not at all at the bottom |
| `ScrollbackSync.ScrollbackLayer.Draw` | internal/tui/scrollback.go:336-372 | each line comes from the part of the buffer its index lies in |
| `ScrollbackSync.ScrollbackLayer.TopIsReachedIff` | internal/tui/scrollback.go:204-215 | the offset never runs past the oldest line, and reaches it exactly when nothing fetched is on display or the answer under way counts all that is loaded |
| `ScrollbackSync.ScrollbackLayer.Open` | internal/tui/terminal.go:415-426 | scrollback opened over a tab whose rows are fetched waits for nothing; otherwise they are asked for |
| `Viewport.KeepsToItsTop` | internal/tui/scrollback.go:62-88 | moving the offset by the rows pushed, capped at the top, keeps the view on its rows, for every log the histories are labelled after |
| `Viewport.StreamingShowsARowTwice` | internal/tui/scrollback.go:320-334 | the failing input: a row that is in the history already is shown a second time while the older rows are fetched |
| `EventLoop.HandleKeeps` | internal/server/server_requests.go:275-600 | every request keeps all invariants: tree consistency, live subscriptions, overlay agreement, and fan-out equal to the subscriptions |
| `EventLoop.TreeKept` | internal/server/server_requests.go:321-372 | each live region is listed exactly once, by exactly the session it names; no listed id is dead; no session is empty |
| `EventLoop.SpawnKeepsConsistent` | internal/server/server_requests.go:321-330 | spawning a new id keeps that, in a new or an existing session |
| `EventLoop.DestroyKeepsConsistent` | internal/server/server_requests.go:332-360 | destroying keeps that, removing a session with its last region |
| `EventLoop.SubscriptionsKept` | internal/server/server_requests.go:508-538 | subscriptions map live clients to live regions after every request |
| `EventLoop.OverlaysKept` | internal/server/server_requests.go:571-600 | a client overlay is always mirrored by its region, and overlaid regions are live, whoever re-registers or leaves |
| `EventLoop.FanoutKept` | internal/server/server_requests.go:508-538 | each region sends to exactly its subscribers after every request |
| `EventLoop.MovedOverlayOutlivesItsOwner` | internal/server/server_requests.go:287-319 | the failing input: a moved overlay leaves its first region mapped to a client that is gone, and input then goes to the region |
| `EventLoop.NewClientIsInStep` | internal/server/server_requests.go:275-285 | a client that adopts the snapshot it is greeted with and then gets the broadcast that added it holds the committed tree at the committed version |
| `EventLoop.RefusedSubscribe` | internal/server/server_requests.go:508-528 | a subscribe to a region that is not live, or of a client that is not connected, changes nothing |
| `EventLoop.RefusedRegion` | internal/server/server_requests.go:332-372 | destroying or resizing a region that is not live changes nothing |
| `EventLoop.SubscribeDoes` | internal/server/server_requests.go:508-528 | after a subscribe of a connected client to a live region it is sent that region and no other, the tree says so, and every other client, region and overlay is as before |
| `EventLoop.UnsubscribeDoes` | internal/server/server_requests.go:530-538 | after an unsubscribe the client is sent nothing, and all else is as before |
| `EventLoop.RemoveClientDoes` | internal/server/server_requests.go:287-319 | a client removed is in no map; the overlay it held goes; nobody else is touched |
| `EventLoop.AddClientDoes` | internal/server/server_requests.go:275-285 | a client added is in the tree with nothing known of it yet |
| `EventLoop.SpawnDoes` | internal/server/server_requests.go:321-330 | a spawned region is live with its own fields, last in its session, and sent to nobody |
| `EventLoop.DestroyDoes` | internal/server/server_requests.go:332-360 | a destroyed region is in no session, sent to nobody and has no overlay; other regions and subscriptions stay |
| `EventLoop.DestroySparesOthersIff` | internal/server/server_requests.go:346-360 | destroying a region leaves the overlays on other regions alone exactly when its own mapping is not a stale one; otherwise the client that moved its overlay away loses it |
| `EventLoop.DestroyTakesAMovedOverlay` | internal/server/server_requests.go:346-360 | the failing input: a client moves its overlay from one region to another, the first is destroyed, and the client no longer owns the second |
| `EventLoop.RegisterDoes` | internal/server/server_requests.go:571-589 | an accepted registration makes the client the owner and ends what the previous owner had there; a refused one changes nothing |
| `EventLoop.ClearDoes` | internal/server/server_requests.go:591-600 | a clear by the owner ends the overlay on both sides, so that input goes to the region; by anyone else it changes nothing |
| `EventLoop.SetSessionDoes` | internal/server/server_requests.go:540-550 | the client is published in its session and nothing else changes |
| `EventLoop.IdentifyDoes` | internal/server/server_requests.go:540-550 | the client is published with who it is and nothing else changes |
| `EventLoop.GeometryDoes` | internal/server/server_requests.go:362-372 | only width and height of a live region change |
| `EventLoop.EventLoopState.HandleAddClient` | internal/server/server_requests.go:275-285 | the client is greeted with the tree as it was before it joined and appears in the tree inside the request's one transaction; subscriptions, overlays and fan-out stay |
| `EventLoop.EventLoopState.HandleRemoveClient` | internal/server/server_requests.go:287-319 | drops subscription, overlay and tree node, keeps an overlay another client took over, and reports exactly the native regions the client drove |
| `EventLoop.EventLoopState.HandleSpawnRegion` | internal/server/server_requests.go:321-330 | region node, session if missing and list entry appear in one transaction, with nobody subscribed; reports whether the session is new |
| `EventLoop.EventLoopState.HandleSubscribe` | internal/server/server_requests.go:508-528 | succeeds exactly for a live region and a connected client, which is then sent that region and no other |
| `EventLoop.EventLoopState.HandleUnsubscribe` | internal/server/server_requests.go:530-538 | the client is then sent nothing, in the tree neither, and nobody else is touched |
| `EventLoop.EventLoopState.HandleSetClientSession` | internal/server/server_requests.go:540-544 | a known client is published with its session |
| `EventLoop.EventLoopState.HandleIdentify` | internal/server/server_requests.go:548-552 | a known client is published with who it is |
| `EventLoop.EventLoopState.HandleDestroyRegion` | internal/server/server_requests.go:332-360 | a live region goes from tree and fan-out with every subscription to it, its overlay and, if emptied, its session; an unknown one changes nothing |
| `EventLoop.EventLoopState.Uproot` | internal/server/server_requests.go:332-345 | the tree loses the region, and its session exactly when that empties it |
| `EventLoop.EventLoopState.DropSubscribers` | internal/server/server_requests.go:346-360 | exactly the subscriptions to the region go |
| `EventLoop.EventLoopState.HandleSetRegionGeometry` | internal/server/server_requests.go:362-372 | only the geometry of a live region changes |
| `EventLoop.EventLoopState.HandleOverlayRegister` | internal/server/server_requests.go:571-589 | an accepted registration replaces the previous owner; a refused one or an unknown region changes nothing |
| `EventLoop.EventLoopState.HandleOverlayClear` | internal/server/server_requests.go:591-600 | exactly the current owner can clear an overlay; it is then gone on both sides and input goes to the region |
| `EventLoop.EventLoopState.RouteInput` | internal/server/server_requests.go:602-615 | the route is the connected overlay owner, else the live region, else nowhere |
| `EventLoop.EventLoopState.CommitAndBroadcast` | internal/server/server_requests.go:37-50 | the ops broadcast replay the request on any replica of the tree it found; versions are consecutive; no ops means no change |
| `Upgrade.Server.SetUpgradePhase` | internal/server/upgrade.go:295-315 | one phase is one committed version and one broadcast, by the loop or, while it is parked, directly, even while the transaction the loop parked in is still open |
| `Upgrade.Server.Park` | internal/server/upgrade.go:420-438 | the loop waits inside the transaction it opened for the drain request, with nothing in it |
| `Upgrade.Server.Unpark` | internal/server/upgrade.go:420-438 | the commit the resumed loop ends with broadcasts nothing, adds no version and loses no op, whether or not its transaction is still open |
| `Upgrade.Server.Spawn` | internal/server/upgrade.go:31-82 | ends with a running child and one open socket, or rolled back after the first phase with none |
| `Upgrade.Server.HandOverListeners` | internal/server/upgrade.go:84-124 | ends with the listeners sent, or rolled back with the child killed; everything opened is due to be closed |
| `Upgrade.Server.Freeze` | internal/server/upgrade.go:126-156 | stops accepting, parks the loop inside its transaction and stops every actor, publishing in that order |
| `Upgrade.Server.DetachTerminals` | internal/server/upgrade.go:158-176 | exactly the terminals whose descriptor can be duplicated are copied |
| `Upgrade.Server.HandOverState` | internal/server/upgrade.go:178-232 | ends ready, or rolled back after six to eight phases |
| `Upgrade.Server.ResumeAfterFailedUpgrade` | internal/server/upgrade.go:343-362 | accepts again, unparks the loop without a new version, restarts every actor whose reader resumes |
| `Upgrade.RestoredKeeps` | internal/server/upgrade_recv.go:147-156 | restoring regions one by one keeps the tree consistent and adds exactly them |
| `Sgr.ShowsNoEsc` | internal/tui/terminal.go:649-704 | no text makes an interpreter show an escape character, which is why cell text holding one is never shown as it is |
| `Sgr.SgrTransition` | internal/tui/terminal.go:732-815 | the emitted text shows nothing and takes the interpreter from the attributes of one cell to those of the next |
| `Sgr.TransitionAttrs` | internal/tui/terminal.go:737-791 | the attribute codes, after a reset if one is needed, reach the target except for underline style and overline |
| `Sgr.RenderCell` | internal/tui/terminal.go:671-699 | one cell: a transition only when attributes change, then its glyph |
| `Sgr.Visit` | internal/tui/terminal.go:653-699 | the cell visited at a column, past the end of the row too, and the next column: past a wide glyph, and always further on; together the visits draw exactly the row |
| `Sgr.OnCodesAreStandard` | internal/tui/terminal.go:732-815 | the interpreter switches renditions on by the codes of ECMA-48 |
| `Sgr.OffCodesAreStandard` | internal/tui/terminal.go:732-815 | and off by theirs |
| `Sgr.RenditionsOnly` | internal/tui/terminal.go:732-815 | a rendition code touches nothing else |
| `Sgr.ColorCodesAreStandard` | internal/tui/terminal.go:832-866 | the color codes stand for the sixteen colors and the default |
| `Sgr.AttributesAreShown` | internal/tui/terminal.go:732-815 | the attributes a cell is shown with are exactly its own: each flag by its code, colors by mode, underline style |
| `Sgr.NarrowRow` | internal/tui/terminal.go:649-704 | with the cursor off, a row of narrow non-blank cells shows exactly its data and attributes, cell by cell, then blanks |
| `Sgr.PlainSplits` | internal/tui/terminal.go:653-699 | what a row shows from the left is what it shows before any visited column followed by what it shows from there |
| `Sgr.FinishRow` | internal/tui/terminal.go:699-704 | a row always ends in the default state |
| `Sgr.AppendUnderline` | internal/tui/terminal.go:793-805 | underline style changes are shown by the sub-parameter form |
| `Sgr.AppendOverline` | internal/tui/terminal.go:807-812 | overline is switched on and off by codes 53 and 55 |
| `Sgr.MovesColor` | internal/tui/terminal.go:832-866 | color codes of every mode, known or unknown names included, set exactly the color they stand for |
| `Sgr.MovesUnderlineColor` | internal/tui/terminal.go:820-830 | underline color codes of every mode set exactly the color they stand for |
| `Sgr.TablesAgree` | internal/protocol/color.go:10-52 | the code tables and the name table describe the same sixteen colors |
| `Sgr.JoinParses` | internal/tui/terminal.go:732-815 | a joined parameter list reads back as the same numbers |
| `SyncMarkers.ScannerIsLocal` | internal/nxtest/ptyio.go:299-358 | the scanner meets the conditions of that theorem for every prefix |
| `SyncMarkers.PtyIO.ExtractSyncAcks` | internal/nxtest/ptyio.go:299-358 | after any chunks, the ids delivered are exactly those in the whole stream so far |
| `SyncMarkers.ScanAcks` | internal/nxtest/ptyio.go:306-346 | one pass finds the ids in order and keeps the unfinished marker, or the last bytes a prefix could start in |
| `SyncMarkers.PtyIO.Acknowledge` | internal/nxtest/ptyio.go:347-358 | an id releases its waiter if there is one and is remembered otherwise |
| `SyncMarkers.PtyIO.BeginWait` | internal/nxtest/ptyio.go:237-252 | a remembered id is consumed at once; otherwise the waiter is registered |
| `SyncMarkers.WaitMeetsAck` | internal/nxtest/ptyio.go:237-252 | waiting before or after the acknowledgement both end the wait and leave no trace |
| `SyncMarkers.AcksArrive` | internal/tui/sync.go:42-44 | acknowledgements printed with either terminator among any filler are recognised, all and in order |
| `SyncMarkers.AckIsRead` | internal/tui/sync.go:42-44 | the acknowledgement the client prints is read back as its id |
| `SyncMarkers.PendingIsTheEnd` | internal/nxtest/ptyio.go:306-346 | what is kept between reads is the end of the stream, shorter than a prefix unless it is an unfinished marker |
| `SyncMarkers.PrintedParses` | internal/nxtest/driver.go:233-235 | the same for any prefix that does not overlap itself |
| `SyncMarkers.ExtractSyncMarkers` | internal/tui/sync.go:46-91 | the loop returns exactly the text outside complete markers and the payloads inside, either terminator |
| `Base64.RoundTrip` | internal/transport/ssh_exec_flags_windows.go:87-104 | decoding an encoding gives back any bytes |
| `Base64.CodeIsTheBits` | internal/transport/ssh_exec_flags_windows.go:87-104 | section 4 of RFC 4648: each four characters are the 24 bits of three bytes, and pads stand exactly where there was no byte |
| `Base64.Alphabet` | internal/transport/ssh_exec_flags_windows.go:87-104 | table 1 of RFC 4648: the alphabet in order |
| `Base64.ValueOfIff` | internal/transport/ssh_exec_flags_windows.go:37-79 | exactly the characters of the alphabet have a value, their place in it |
| `Base64.LineEndsDoNotCount` | internal/transport/ssh_exec_flags_windows.go:37-79 | line ends inside the code change nothing, as in the decoder of the standard library |
| `Base64.DecodesIff` | internal/transport/ssh_exec_flags_windows.go:37-79 | decoding succeeds exactly on whole groups of alphabet characters with at most two pads, at the end |
| `Base64.MessageIsDecodedOrSkipped` | cmd/nxtermctl/proxy.go:118-143 | whatever lines come before a dot, what they decode to is written, or nothing if they do not decode, and the next message starts afresh; lines with no dot after them write nothing |
| `Base64.MessageIsHandedOutOrSkipped` | internal/transport/ssh_exec_flags_windows.go:37-79 | the same on the client: handed out with a line feed if it decodes, dropped if empty or damaged; blank lines do not count |
| `Base64.MangledWritesReachTheSocket` | cmd/nxtermctl/proxy.go:118-143 | the same when some of the CRs arrive as CRLF |
| `Base64.LinesArrive` | cmd/nxtermctl/proxy.go:118-143 | decoding at each dot line gives the messages in order, for any messages |
| `Base64.BlankLineAndCRAreLost` | internal/transport/ssh_exec_flags_windows.go:37-79 | the failing inputs: a blank line disappears, and a line ending in CR comes back without it |
| `Base64.LinesDelivered` | internal/transport/ssh_exec_flags_windows.go:37-79 | framed messages whose line ends were damaged are still delivered in order |
| `Base64.Base64Writer.Write` | internal/transport/ssh_exec_flags_windows.go:87-104 | the output so far is the framing of all the writes so far, and every byte is reported written |
| `Base64.WriteChunks` | internal/transport/ssh_exec_flags_windows.go:87-104 | the code is cut into full chunks and a last one, each on a line |
| `Base64.ProxyStdin` | cmd/nxtermctl/proxy.go:118-143 | lines accumulate until a dot, empty ones and bad code skipped, and the decoded bytes go to the socket |
| `Base64.ProxySocket` | cmd/nxtermctl/proxy.go:93-112 | every line from the socket becomes chunk lines and a dot |
| `Base64.Base64Reader.Read` | internal/transport/ssh_exec_flags_windows.go:37-79 | successive reads of any sizes hand out the delivered stream in order, and end exactly at its end |
| `Chords.ChordTrie.Insert` | internal/tui/keybind.go:64-78 | the binding of exactly that key sequence is replaced, and no other |
| `Chords.ContinuesByKey` | internal/tui/keybind.go:80-93 | a sequence is a prefix exactly when some one more key leads to a binding |
| `Tabs.SyncedKeeps` | internal/tui/session.go:82-165 | every tree update keeps the tabs distinct and the active index in range |
| `Tabs.SpawnedKeeps` | internal/tui/session.go:300-318 | so does every spawn answer |
| `Tabs.PendingSurvives` | internal/tui/session.go:137-147 | an awaited region stays awaited until it appears |
| `Tabs.AwaitedArrives` | internal/tui/session.go:137-165 | when the awaited region is listed the user is on it, subscribed to it, and nothing is awaited any more |
| `Tabs.AwaitedSpawnMovesTheActiveTab` | internal/tui/session.go:137-152 | the failing input: while a spawn is awaited, a tab removed in front moves the user to another region |
| `Tabs.SessionLayer.FindTabIndex` | internal/tui/session.go:71-78 | the first tab of the region, or -1 |
| `Tabs.SessionLayer.Compact` | internal/tui/session.go:110-123 | survivors are compacted in place, renamed, in order |
| `Tabs.SessionLayer.AddMissing` | internal/tui/session.go:125-135 | regions without a tab get one, in session order, each with a new terminal |
| `Tabs.SessionLayer.RestoreActive` | internal/tui/session.go:137-152 | the awaited region or else the previous one is found again; the index is clamped |
| `Tabs.SessionLayer.SyncFromTree` | internal/tui/session.go:82-165 | a tree update reconciles tabs, active index, awaited region and subscription as specified, session present, gone, or not named yet |
| `Tabs.SessionLayer.SwitchToTab` | internal/tui/session.go:227-234 | switches and subscribes, except out of range or to the active tab |
| `Tabs.SessionLayer.HandleSpawnResponse` | internal/tui/session.go:300-318 | switches to the region tab if it exists and otherwise remembers the region; a failed spawn changes no tab |
| `Inbound.Server.DispatchInbound` | internal/tui/server.go:339-380 | the messages consumed are handed on in order and only chunks go to a running download; each message handed on stands for its own stretch of what was passed, and a merged one is under 512 events plus the last message merged into it |
| `Inbound.Server.DispatchEvents` | internal/tui/server.go:352-380 | the message that ended a batch is handed on after it |
| `Inbound.Server.Drain` | internal/tui/server.go:352-372 | merges the longest run of queued events of one region up to the limit and keeps the first other message |
| `Inbound.MergeOne` | internal/tui/server.go:352-372 | merging one more message keeps the item stream |
| `Inbound.ItemsAre` | internal/tui/server.go:339-380 | a receiver sees each event of a message by itself, in order, and any other message whole |

## Left out

- Replication.ReplicaIsFaithful: names without `/` only (a name with one is dropped by clients, see `MutationReplaysIff`); JSON encoding is taken as faithful, marshalling never fails, and the 64-bit version does not wrap.
- ServerObjects.TransactionReplays: the same condition on names.
- ServerObjects.ServerTree.SetRegion: a region is the value its getters return; a live region changing its getters without a mutator is not modelled. Snapshot's copying of lists is value semantics here, so aliasing is not.
- Outbound.Client.WriteOne: the drain on close, waking a graceful closer, and deadlines are left out.
- Capture.EventProxy.Record: one case stands for all recorded methods that touch no mode; their operands are a tag, and the rows an operation scrolls off are given with it.
- Delivery.SubscriberSeesTheLog: one region and one actor run, no overlay and no resize; a client following one region at a time. VT semantics are not modelled: a snapshot is a log position, and does not claim pen, margins or saved cursor.
- Actor.DeliverTo: the circuit breaker's clock is a parameter that may say "expired" or not at any moment.
- Actor.RegionActor.HandlePtyData: coalescing of queued chunks is one list of operations; its byte limit is left out.
- Actor.RegionActor.HandleCatchupTimer: within one actor run; the flag surviving a stopped actor is left out.
- ClientHistory.HistoryStaysASlice: deltas within the server's and the client's retention, and a subscriber that is refused nothing; beyond that labels can be wrong, as `UpdateLabelsIff` says.
- Terminal.TerminalLayer.HandleScreenUpdate: the history rebuild and the log position of the screen; cursor, modes and title carried by an update are left out.
- Terminal.TerminalLayer.Replay: an event is an entry of the log, not a call on a screen, so the dispatch over operation names is left out.
- ScrollbackSync.FetchLabelsIff: no reset and no snapshot arrives during the fetch, and no mode 2026 batch is open at the query, so that every row below the answer was sent before the last chunk.
- ScrollbackSync.ScrollbackLayer.View: the rows shown line by line; the cells of the screen are a parameter, and the scrollbar and the keys that move the offset are left out.
- Replication.SkippedAsksAgain: a request the client's own full outbound queue refuses is counted as unsent; the code does not send it again either.
- Markers.MarkersArrive: for a subscriber refused nothing; a refused message loses the markers in it.
- EventLoop.HandleKeeps: `SubscribedRegionID` is not kept equal to the subscription map when a region is destroyed, so nothing is claimed of it; queries (lists, infos, lookups) and session connect are left out.
- EventLoop.EventLoopState.HandleAddClient: the identify message sent before the snapshot is left out.
- EventLoop.EventLoopState.HandleRemoveClient: clearing the overlay shown by the region's actor is left out, as overlays are only owners here.
- EventLoop.EventLoopState.HandleOverlayClear: the same.
- EventLoop.EventLoopState.CommitAndBroadcast: what becomes of the ops on each connection is the subject of module Replication.
- EventLoop.TreeKept: freshness of region ids is assumed of the id generator.
- Upgrade.Server.HandleUpgrade: a phase can always be published (the server is not shutting down meanwhile), file operations are descriptors opened and closed, and closing twice is harmless. That at most one process reads a terminal during a failed upgrade is not claimed: actors resume before the child is killed.
- Upgrade.HandoffPreservesSessions: the order of regions within a session is not preserved by the code.
- Sgr.RenderCellLine: the hex color parser and the width table are parameters; dim rows are left out.
- SyncMarkers.PtyIO.ExtractSyncAcks: bytes are characters.
- SyncMarkers.PtyIO.BeginWait: blocking and the timeout are left out; what a wait consumes and what releases it are not.
- Base64.ProxyStdin: the scanner's line limit and socket errors are left out; a decoding failure skips the message as the code does.
- Base64.ProxySocket: the scanner's line limit is left out.
- Base64.Base64Reader.Read: the scanner's line limit and its errors are left out.
- Base64.StreamIsDelivered: framing damage is up to two CR before a line feed.
- Chords.ChordTrie.Walk: paths are key lists rather than joined strings; children come in any order, as from a Go map.
- Tabs.SessionLayer.SyncFromTree: status texts and the program list are left out, and activating a tab is the region it subscribes to.
- Inbound.Server.DispatchInbound: whether a download runs does not change during one call; the pause gate and reconnection are left out.
- Overlay compositing, resizing, several clients per overlay render, layout and styling.
- Raw input: mouse encoding, paste splitting, command mode, key condition parsing and preset keymaps.
- The compressed connection's in-flight protocol, sockets, terminals, ssh, service discovery, files and configuration.
- Log buffers, recents, palette scoring and getters: easy members.
