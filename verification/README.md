# A verified model of the extension bridge

The bridge lets a CDP client drive browser tabs through a browser extension. This project models its hard
core in Dafny and proves what that core is for: one session per tab under concurrent attaches, answers that go
to the request they answer, connection slots that two locks keep in step, outlines and references that lose
nothing, a request log whose numbers stay put, and a tab list that never contradicts itself.

## How it is modelled

Concurrent parts come twice. A **state machine** (`SessionProtocol`, `Pairing`, `RelaySlots`, `PageLog`,
`TabProtocol`) has one step per lock region, per channel operation and per point where a goroutine waits; a run
is any sequence of enabled steps, so a theorem about reachable states or about runs covers every interleaving.
A **class** with the fields of the original (`BrowserModel`, `ExtensionConn`, `Server` with its `Handler`,
`PageState`, `Browser`) has one method per lock region; each such method changes the fields in place and is proved
to move a ghost copy of the state machine by exactly one step, so what holds of the machine holds of the object.
`Browser.ClosePage`, `Browser.CloseTab` and `Browser.Close` are the sequences of lock regions that the program runs.
What the network, the extension, the page and the clock do is a step that may or may not be taken; the order in
which a Go map is visited is a parameter that lists its keys.

| file | part |
|---|---|
| `Runs.dfy`, `Orders.dfy`, `Numerals.dfy` | runs of a state machine; orders in which a map is visited; decimal numerals |
| `SessionProtocol.dfy` | the tab-to-session router as steps |
| `SessionInvariants.dfy`, `SessionCallers.dfy`, `SessionEvents.dfy`, `SessionScans.dfy`, `SessionChildren.dfy`, `AttachLog.dfy` | what every step of the router keeps |
| `SessionTheorems.dfy`, `SessionRouting.dfy`, `SessionEffects.dfy` | what follows for reachable states and runs; routing over runs; what single steps and replies come to |
| `BrowserModel.dfy` | the router as an object |
| `Pairing.dfy`, `PairingTheorems.dfy`, `ExtensionConn.dfy` | request/response pairing: steps, theorems, object |
| `RelaySlots.dfy`, `Relay.dfy` | server and handler around the pairing: steps and theorems, objects |
| `Forest.dfy`, `Snapshot.dfy`, `Boxes.dfy`, `Outline.dfy`, `Refs.dfy` | forests and outlines; splicing and depth; which boxes are asked for; the renderer and its text; references |
| `Find.dfy` | windows around matches |
| `PageLog.dfy`, `PageState.dfy`, `NetworkTools.dfy` | request log and console; the observer object; the numbered listing |
| `TabList.dfy`, `TabProtocol.dfy`, `Tabs.dfy` | the tab list: values, interleavings, object |

## What is not true of the code

- A live session's tab need not be a known tab: a removal during an attach is followed by a commit.
  `SessionTheorems.StrandedExactlyByCommit` says exactly which steps bring this about;
  `SessionTheorems.RemovalRace` shows it happening.
- The detached event of a session may precede its attached event, which is emitted after the lock is released.
  `SessionTheorems.DetachedOvertakes` says exactly when it does; `SessionTheorems.DetachedCanComeFirst` shows it
  happening.
- With a depth limit, a box may not be asked for although its node is printed, because `collect` counts ignored
  nodes as depth and `render` does not. `Boxes.BoxesForAllRendered` says exactly when no box is missed;
  `Boxes.BoxMissed` is a smallest case of a missed one.
- Splitting the joined outline gives the lines back only for a non-empty outline whose lines hold no newline:
  `Find.SplitJoin` is an equivalence.
- `Browser.Close` leaves pages on the list exactly when another `Page.Close` has marked its page and not yet removed
  it: `TabProtocol.CloseEmptiesTabs`; `TabProtocol.CloseLeavesPages` is a run in which it happens.

## Model

| member | source | states |
|---|---|---|
| Numerals.DecimalReadsBack | internal/protocol/browser_model.go:322 | Reading a printed session number gives the number back; the print is never empty |
| Numerals.DecimalInjective | internal/protocol/browser_model.go:322 | Different numbers print differently |
| SessionProtocol.MethodIs | internal/protocol/browser_model.go:118-122 | Exactly the two method names count as news of child sessions |
| SessionTheorems.InvKept | internal/protocol/browser_model.go:51-331 | Every lock region and every wait keeps all invariants of the router together |
| SessionTheorems.SingleFlight | internal/protocol/browser_model.go:259-289 | In every interleaving two attach attempts in flight for one tab are the same attempt, and a tab being attached has no live session |
| SessionTheorems.AttemptsFollowGrammar | internal/protocol/browser_model.go:274-319 | Each tab's log of attach commands and outcomes is finished attempts (refused; committed; undone by a detach) and a beginning of one more |
| AttachLog.LogKept | internal/protocol/browser_model.go:274-319 | Every step extends each tab's log as its leader's phase and that grammar say |
| SessionTheorems.FailedAttemptIsUndone | internal/protocol/browser_model.go:305-319 | After an attach without usable target info the next thing that tab sees is the compensating detach, before any retry |
| SessionEffects.InfoReplyIsJudged | internal/protocol/browser_model.go:305-319 | A getTargetInfo reply is usable exactly if it is a description whose targetId is a text that is not empty; else the attempt holds the reply's own text, the decoding error or the missing-id error |
| SessionEffects.UnusableReplyIsUndone | internal/protocol/browser_model.go:305-319 | Over any run after a reply that names no target, the next that tab sees is the compensating detach |
| SessionEffects.InfoReplyReachesCallers | internal/protocol/browser_model.go:278-331 | Over any run after a reply: if it named no target, every caller told anything is told its error and no number is drawn; else every caller is told a session, and the one filed has this very description |
| SessionEffects.AttachReplyIsJudged | internal/protocol/browser_model.go:302-304 | An attach is refused exactly if its reply carries an error |
| SessionEffects.RefusalReachesCallers | internal/protocol/browser_model.go:278-304 | Over any run after a refusal every caller told anything is told its text, and no number is drawn |
| SessionTheorems.LeaderCanFinish | internal/protocol/browser_model.go:278-298 | The leader of every attempt in flight is still there, and a leader due to publish or to emit can always do so |
| SessionTheorems.Conservation | internal/protocol/browser_model.go:274-330 | The numbers drawn are exactly those reserved, live or detached; the three exclude each other; each number has at most one detached event, and one attached event exactly once committed, counting events owed |
| SessionEvents.EventsKept | internal/protocol/browser_model.go:80-96 | Every step keeps the exact count of attached and detached events, sent or owed, of every number |
| SessionTheorems.OneOwner | internal/protocol/browser_model.go:321-330 | No two live sessions and no two attempts hold the same number |
| SessionTheorems.CommitIsFresh | internal/protocol/browser_model.go:279-285 | A commit never overwrites a live session, its number was never live or detached, and it has a target id |
| SessionTheorems.DetachedForever | internal/protocol/browser_model.go:222-247 | Over any continuation of a run, a detached session id stays detached and finds no tab again |
| SessionTheorems.LaterAtEnd | internal/protocol/browser_model.go:259-299 | Over whole runs published outcomes, returned answers, drawn numbers and detach counts are never undone |
| SessionTheorems.CallersAgree | internal/protocol/browser_model.go:265-299 | Callers of one attempt return the same session or the same error unless their own context ended first |
| SessionTheorems.CallersGetTheirTab | internal/protocol/browser_model.go:259-298 | A returned session was made for the caller's own tab, and is live there unless detached since |
| SessionTheorems.WaitersAreWoken | internal/protocol/browser_model.go:265-273 | A waiter's attempt is in flight for its tab, or the waiter can be woken; never neither |
| SessionEffects.WokenGetsPublished | internal/protocol/browser_model.go:270-272 | A woken waiter returns the session or the error its attempt came to |
| SessionEffects.ContextEndsOnlyByCancel | internal/protocol/browser_model.go:268-270 | Nobody is told that a context ended but a waiter whose own context ended |
| SessionEffects.BeginTakesItsTurn | internal/protocol/browser_model.go:259-276 | A caller gets the live session, or joins the attempt under way, or registers a new one |
| SessionTheorems.NumberedIsReachable | internal/protocol/browser_model.go:147-331 | A run in which an attempt has drawn its number and not yet committed, where the next three rows start |
| SessionTheorems.StrandedExactlyByCommit | internal/protocol/browser_model.go:278-286 | A step leaves a live session of an unknown tab where there was none, if and only if it commits an attempt for a tab not known at that moment |
| SessionTheorems.RemovalRace | internal/protocol/browser_model.go:65-71 | From every state with a numbered attempt, removal and then commit do so |
| SessionTheorems.DetachedOvertakes | internal/protocol/browser_model.go:285-298 | An emitted detached event overtakes the attached event of its session if and only if the committing leader has not yet emitted |
| SessionTheorems.DetachedCanComeFirst | internal/protocol/browser_model.go:285-298 | From every state with a numbered attempt, commit, removal and emission make it overtake |
| SessionTheorems.AutoAttachMissesNoTab | internal/protocol/browser_model.go:131-145 | Over any run from a moment at which a tab is unknown, auto-attach off or the tab about to be created: if auto-attach is then on and the tab known, it has a task or is in a list no older than that moment |
| SessionTheorems.CompleteScanAttachedAll | internal/protocol/browser_model.go:139-144 | An EnableAutoAttach that returns nil got a session for each tab it listed |
| SessionEffects.StoppedScanTellsWhy | internal/protocol/browser_model.go:139-143 | A loop that ended with an error tells the error of its last attachTab, all before it having succeeded |
| SessionEffects.ScanGoesOn | internal/protocol/browser_model.go:139-145 | A loop whose last attachTab has returned can go on: to its error, its end or the next listed tab |
| SessionEffects.EnableListsAll | internal/protocol/browser_model.go:131-138 | Auto-attach is on and the list holds exactly the known tabs |
| SessionEffects.KnownFromCreationToRemoval | internal/protocol/browser_model.go:51-71 | Over any run a created tab is known as it was last created until a removal of it, and a removed one unknown until a creation of it |
| SessionEffects.CreationStartsTask | internal/protocol/browser_model.go:56-62 | A creation starts one task for its tab if auto-attach is on and none otherwise |
| SessionEffects.RemovalDetaches | internal/protocol/browser_model.go:65-102 | Removal and debugger detach take exactly that tab's session and owe its detached event if and only if there was one |
| SessionEffects.EventIsForwarded | internal/protocol/browser_model.go:104-129 | An event of an attached tab is owed under its own or the tab's session id; attachedToTarget adds its id to that tab's children, detachedFromTarget takes it out, nothing else changes a child |
| SessionTheorems.ChildrenAreReplayed | internal/protocol/browser_model.go:104-129 | A live tab's children are the replay of its attached and detached child events since its commit; its target id is not empty |
| SessionRouting.StrayEventErased | internal/protocol/browser_model.go:105-113 | A debugger event of a tab without a session, or of no tab, can be struck from any run: all later sessions, children, answers and messages stay the same |
| SessionTheorems.SessionIdInjective | internal/protocol/browser_model.go:322 | Session ids of different numbers differ |
| SessionTheorems.TopLookupIsUnique | internal/protocol/browser_model.go:333-342 | Whatever order the map is visited in, a top-level session id finds at most one tab, which is the key it is filed under |
| SessionRouting.EventRoundTrip | internal/protocol/browser_model.go:222-257 | Over any run: the id under which an event of a tab was passed on, sent back while its session is attached, reaches exactly that tab and that child, if an attachedToTarget event announced the child, no detachedFromTarget event of the tab withdrew it on the way, and no event announced it for another tab |
| SessionRouting.ChildStays | internal/protocol/browser_model.go:104-129 | An announced child stays with its session through every run that does not withdraw it |
| SessionRouting.ReplayIs | internal/protocol/browser_model.go:118-122 | The replayed children are exactly the non-empty ids that an attachedToTarget event announced and that since then neither a detachedFromTarget event withdrew nor a commit dropped |
| SessionRouting.DroppedIsDetached | internal/protocol/browser_model.go:73-84 | A session that any step takes from its tab is detached |
| SessionRouting.DetachStopsRouting | internal/protocol/browser_model.go:236-247 | However a run goes on after a detach, Forward reaches the tab only if it was committed again, a child only if it was announced again after that, and never under the old session id |
| BrowserModels.BrowserModel.OnTabCreated | internal/protocol/browser_model.go:51-63 | One step; the tab is filed under its id and no other changes; a task is due exactly if it has an id and auto-attach is on |
| BrowserModels.BrowserModel.DetachTabLocked | internal/protocol/browser_model.go:80-84 | Hands out the removed session, whose detached event is then owed; other sessions and attempts untouched |
| BrowserModels.BrowserModel.OnTabRemoved | internal/protocol/browser_model.go:65-71 | One step; forgets the tab and hands out the session it had |
| BrowserModels.BrowserModel.OnDebuggerDetach | internal/protocol/browser_model.go:98-102 | One step; without a tab id nothing happens |
| BrowserModels.BrowserModel.OnDebuggerEvent | internal/protocol/browser_model.go:104-129 | One step; attachedToTarget puts a non-empty id among the tab's children, detachedFromTarget takes it out, nothing else changes a child; the session id passed on is the source's own or the tab's |
| BrowserModels.TabSession.TrackChild | internal/protocol/browser_model.go:118-122 | The same for one session |
| BrowserModels.BrowserModel.EnableAutoAttach | internal/protocol/browser_model.go:131-138 | One step; the list is every known tab, in the order the map yields them |
| BrowserModels.BrowserModel.AttachBegin | internal/protocol/browser_model.go:259-276 | One step; returns the live session, the call to wait for, or a fresh call registered for the tab |
| BrowserModels.BrowserModel.TakeSessionID | internal/protocol/browser_model.go:321-324 | One step; the id is no live session's |
| BrowserModels.BrowserModel.AttachCommit | internal/protocol/browser_model.go:279-286 | One step; session filed, call gone from the map, waiters see session and no error |
| BrowserModels.BrowserModel.AttachAbandon | internal/protocol/browser_model.go:279-289 | One step; no session filed, call gone, waiters see the error and no session |
| BrowserModels.BrowserModel.FindSession | internal/protocol/browser_model.go:333-342 | The session found is filed and accepted; null means that none is accepted, whatever the map's order |
| BrowserModels.BrowserModel.ForwardTop | internal/protocol/browser_model.go:225-236 | The first look-up finds only what the routing relation allows, whatever the second would see, and nothing only if there is nothing |
| BrowserModels.BrowserModel.ForwardChild | internal/protocol/browser_model.go:237-247 | The same for the second look-up, in a later state and map order than the first |
| PairingTheorems.InvKept | internal/relay/extension_conn.go:79-172 | Every step of senders, receive loop and shutdown keeps the pairing invariant |
| PairingTheorems.NoSendBlocks | internal/relay/extension_conn.go:125-171 | The unlocked send of a delivery and the sends of the drain under the lock can never block; each channel is sent to at most once |
| PairingTheorems.NoLostWaiter | internal/relay/extension_conn.go:79-111 | A Send at its select is pending on an open connection, or has its answer in its channel, or a delivery carries its channel |
| PairingTheorems.AnswersArePaired | internal/relay/extension_conn.go:102-148 | A returned answer is what a message with the Send's own id, received after it registered, says: a result, by default {}, exactly if it carries no error, else the error's text; or the connection closed |
| PairingTheorems.ReturnsForItsReason | internal/relay/extension_conn.go:91-110 | Marshal error, write error, ended context, closed connection and answer are each returned exactly when that happens to the Send |
| PairingTheorems.IdsAreFresh | internal/relay/extension_conn.go:79-89 | A new request gets an id nobody had, pending with an empty channel, and disturbs no other |
| PairingTheorems.StrayReplyIgnored | internal/relay/extension_conn.go:125-154 | A late, duplicate or unknown reply changes nothing but the record of messages, and no returned Send is pending |
| PairingTheorems.AtMostOneAnswer | internal/relay/extension_conn.go:79-147 | Over runs each request is an atomic cell, settled at most once and for good, and Send returns what it was settled with |
| PairingTheorems.OneCloseCallback | internal/relay/extension_conn.go:156-171 | The close callback is owed or done exactly once after closing and never before |
| PairingTheorems.ShutdownOpens | internal/relay/extension_conn.go:156-168 | Shutdown is always possible, gives exactly the pending channels the error and meets no full channel |
| ExtensionConns.ExtensionConn.Register | internal/relay/extension_conn.go:79-89 | One step; refused exactly when closed, else a fresh id with a fresh empty channel |
| ExtensionConns.ExtensionConn.RemovePending | internal/relay/extension_conn.go:150-154 | One step; only that id leaves the map, no channel is touched |
| ExtensionConns.ExtensionConn.TakeChannel | internal/relay/extension_conn.go:125-132 | One step; the channel of a pending id, or none, and the id is pending no more |
| ExtensionConns.ExtensionConn.Deliver | internal/relay/extension_conn.go:133-147 | One step; the channel was empty, so the send does not block |
| ExtensionConns.BuildResponse | internal/relay/extension_conn.go:133-146 | The response is a result exactly if the message has no error, with {} for none; else an error with the very text, or with the raw error after a fixed prefix |
| ExtensionConns.ExtensionConn.DeliverResponse | internal/relay/extension_conn.go:125-148 | The pending channel gets what the message says and no other is touched; without a pending channel nothing is |
| ExtensionConns.ExtensionConn.TakeSlot | internal/relay/extension_conn.go:108-110 | One step; what is received is what a message under this Send's id said, or the connection closed |
| ExtensionConns.ExtensionConn.Drain | internal/relay/extension_conn.go:163-166 | In any map order every pending channel gets the error, all others keep their content, the map ends empty |
| ExtensionConns.ExtensionConn.Shutdown | internal/relay/extension_conn.go:156-172 | One step; the callback is due exactly for the call that closes |
| RelaySlots.InvKept | internal/relay/server.go:71-178 | Every step under the server lock, the handler lock or neither keeps slots, stages, sender and emitter in step |
| RelaySlots.SlotsAgree | internal/relay/server.go:90-178 | When the server lock is free an empty slot means no sender or no emitter, and a set one belongs to the connection in the slot |
| RelaySlots.SetNeverRefuses | internal/protocol/handler.go:51-84 | In every interleaving the rejections of SetExtension and SetCDPEmitter are unreachable after the slot check |
| RelaySlots.CallbackEvictsItself | internal/relay/server.go:169-178 | A close callback clears its own connection's sender and slot, never a newer connection's |
| RelaySlots.CdpEvictsItself | internal/relay/server.go:157-163 | A CDP connection that ends clears its own emitter and slot |
| RelaySlots.SlotsEmptiedByOwner | internal/relay/server.go:157-178 | A filled slot changes only by its own connection's end |
| RelaySlots.CallbackRunsOnce | internal/relay/extension_conn.go:169-171 | Each connection's callback runs at most once, only after that connection closed |
| RelaySlots.InstallMeetsEmptySlot | internal/relay/server.go:90-140 | Whoever holds the lock to install finds the slot empty and the server open |
| RelaySlots.NothingInstalledAfterClose | internal/relay/server.go:71-80 | Over any run after Close sets its flag no connection is installed and the lock is never kept |
| RelaySlots.FirstReasonStays | internal/protocol/handler.go:61-74 | Over any run the first disconnect reason stays, and no CDP connection gets in after it |
| RelaySlots.FirstReasonIsGiven | internal/protocol/handler.go:61-74 | The first reason is the one given by the disconnect or serving failure that sets it |
| RelaySlots.NoCdpBeforeReady | internal/relay/server.go:117-120 | In every reachable state a CDP connection past the readiness question means the extension has initialized |
| RelaySlots.ReadyByInitialized | internal/protocol/handler.go:189-190 | Nothing but the extension's own word makes the handler ready |
| Relay.Handler.SetExtension | internal/protocol/handler.go:51-59 | Refuses exactly if a sender is set, and then keeps it |
| Relay.Handler.ExtensionDisconnected | internal/protocol/handler.go:61-74 | No sender; the first reason stays |
| Relay.Handler.SetCDPEmitter | internal/protocol/handler.go:76-84 | Refuses exactly if an emitter is set, and then keeps it |
| Relay.Handler.IsReady | internal/protocol/handler.go:102-114 | Done wins over ready |
| Relay.Server.EnterExtension | internal/relay/server.go:90-96 | One step; goes on exactly if open with an empty slot, and then holds the lock |
| Relay.Server.SetSender | internal/relay/server.go:103-110 | One step; the handler is proved not to refuse |
| Relay.Server.InstallExtension | internal/relay/server.go:111-112 | One step; the slot was empty, the server open, the lock is free again |
| Relay.Server.CallbackDisconnects | internal/relay/server.go:169-170 | One step; a sender that is dropped was this connection's |
| Relay.Server.CallbackEmptiesSlot | internal/relay/server.go:171-177 | One step; what leaves the slot is this connection; the CDP connection is returned to be closed |
| Relay.Server.EnterCDP | internal/relay/server.go:121-126 | One step; goes on exactly if open with an empty slot |
| Relay.Server.SetEmitter | internal/relay/server.go:133-138 | One step; the handler is proved not to refuse |
| Relay.Server.InstallCDP | internal/relay/server.go:139-140 | One step; the slot was empty and the server open |
| Relay.Server.CDPReadEnds | internal/relay/server.go:142-157 | One step; the emitter dropped was this connection's |
| Relay.Server.ReleaseCDP | internal/relay/server.go:158-166 | One step; the slot is empty, the extension connection is returned to be closed |
| Relay.Server.Close | internal/relay/server.go:71-86 | One step; both connections are returned to be closed by the first call only |
| Forests.PreorderSteps | mcp_tools.go:1061-1109 | An outline starts at its indent, never goes left of it and rises by at most one per row |
| Forests.ParsePreorder | mcp_tools.go:1061-1109 | An indentation parser gives back the forest an outline was printed from |
| Forests.OutlineInjective | mcp_tools.go:1061-1109 | Different forests never print the same outline |
| Snapshot.RenderIsSpliceThenPrint | mcp_tools.go:1060-1109 | What render prints is splicing out the ignored nodes, cutting at the depth and printing in preorder |
| Snapshot.DepthIsAFilter | mcp_tools.go:1061-1069 | With a depth limit render prints exactly the unlimited rows of indent at most that limit |
| Snapshot.UnlimitedLosesNothing | mcp_tools.go:1061-1109 | Without a limit two lists of trees print the same rows if and only if their spliced forests are the same |
| Boxes.CollectedIs | mcp_tools.go:1029-1050 | The recursion of collect visits exactly the nodes within the limit, ignored ones counted, in preorder |
| Boxes.RenderedIs | mcp_tools.go:1061-1108 | The recursion of render prints exactly the nodes that are not ignored and within the limit, ignored ones not counted, in preorder |
| Boxes.CollectedAreRendered | mcp_tools.go:1028-1051 | Every visible node collect visits is rendered, at least as often |
| Boxes.VisitsAllRendered | mcp_tools.go:1029-1069 | collect visits the rendered nodes, all and in order, if and only if none of them is too deep as collect counts |
| Boxes.BoxesForAllRendered | mcp_tools.go:1029-1049 | A box is asked for every rendered node with a backend id, if and only if each of them that is too deep shares its id with some node within the limit |
| Boxes.BoxesUnlimited | mcp_tools.go:1029-1049 | Without a limit a box is asked for every rendered node with a backend id |
| Boxes.BoxMissed | mcp_tools.go:1047-1069 | With depth 1 a node under two ignored ones with other ids is rendered and its id is not among those asked for |
| Outline.LinesShowShape | mcp_tools.go:1061-1109 | From the indents of the printed text lines alone the shape of the spliced, cut forest is read back |
| Outline.TextShowsShape | mcp_tools.go:1061-1110 | The same from the joined text, split at newlines, if something is printed and nothing printed unquoted holds a newline |
| Outline.IndentsStepByOne | mcp_tools.go:1076-1107 | Indents of the text lines start at 0 and rise by at most 1 |
| Outline.PrintedRefs | mcp_tools.go:1080-1084 | The number printed on a row is its rank among rows with a backend id, and the table's entry of that rank is its id |
| Outline.PrintedRefResolves | mcp_tools.go:1080-1113 | The reference that a row's line contains, bare or after ref=, padded or not, resolves in the stored table to that row's node |
| Outline.BuildLine | mcp_tools.go:1071-1103 | Appending part after part gives the line the outline theorems speak about |
| Outline.LineShows | mcp_tools.go:1071-1103 | A line is indent, dash, role or generic, quoted name, reference, quoted value unless it is the name, the due properties in order and the box, each exactly if there is one |
| Outline.PropertyShows | mcp_tools.go:1089-1099 | A property is shown exactly if it is one of the eight and neither empty nor false, and bare exactly if it is true |
| Outline.Renderer.PrintLine | mcp_tools.go:1071-1104 | Text, table and count stay those of the rows printed, with this row added |
| Outline.Renderer.Render | mcp_tools.go:1061-1108 | Prints exactly the rows of the node's tree at this indent and depth, in order, after what was printed |
| Outline.Renderer.RenderKids | mcp_tools.go:1066-1107 | The loop over child ids prints the rows of the child trees in order and skips ids without a node |
| Outline.Collector.Note | mcp_tools.go:1033-1046 | Boxes are asked for the non-zero backend ids of the visited nodes, each once |
| Outline.Collector.Collect | mcp_tools.go:1029-1050 | Visits exactly the nodes of the tree within the depth, ignored ones counted, in preorder |
| Outline.AskBoxes | mcp_tools.go:1024-1051 | The ids asked for are exactly the non-zero ones of nodes within the limit, each once |
| Outline.FindRoot | mcp_tools.go:1011-1023 | The first node, or the first with the wanted backend id, or none if there is none |
| Outline.FileNodes | mcp_tools.go:1007-1010 | The map holds exactly the ids of the listed nodes, and for each the last node with it |
| Outline.UnfoldIsComplete | mcp_tools.go:1105-1107 | Below every node of the tree are exactly the nodes its child ids lead to, in order |
| Outline.TakeSnapshot | mcp_tools.go:1004-1113 | Fails exactly on an empty list or a missing target; else the joined text and the table are those of the spliced, cut forest in preorder, of a tree that starts at the first or first wanted node and has under each node all listed nodes its child ids name |
| Refs.TrimSpaceIs | mcp_tools.go:649 | A text is what trimming leaves of s exactly if s is that text between blanks |
| Refs.NormalizeRefIs | mcp_tools.go:648-657 | A target is read as r exactly if it is r, or ref= and r, between blanks |
| Refs.RefTableIs | mcp_tools.go:1057-1085 | The table's keys are exactly e1..eN and the k-th stands for the k-th backend id |
| Refs.RefRoundTrip | mcp_tools.go:648-668 | A printed reference in any accepted spelling leads back to its node |
| Refs.OnlyPrintedRefsResolve | mcp_tools.go:659-668 | Nothing but a printed reference resolves through the table |
| Find.SplitJoin | mcp_tools.go:1141 | Splitting the joined lines gives them back if and only if there is a line and none holds a newline |
| Find.MatchIndices | mcp_tools.go:1142-1147 | Exactly the matching line numbers, ascending |
| Find.MergedExact | mcp_tools.go:1152-1159 | One more match keeps the windows exact: in range, apart, and covering just the lines near a match |
| Find.FindWindows | mcp_tools.go:1151-1159 | Windows are in range, ordered and separated by a hidden line; a line is shown if and only if a match is within three lines |
| Find.WindowsAreFewest | mcp_tools.go:1151-1159 | No set of intervals that shows exactly the same lines has fewer members |
| Find.ShownOnce | mcp_tools.go:1151-1163 | No line is in two windows |
| Find.CutParts | mcp_tools.go:1160-1163 | Each part is the text of its window |
| Find.BrowserFind | mcp_tools.go:1120-1168 | Error exactly unless one of text and regex is given; no match only if no line matches; else count, windows and parts are exact |
| PageLog.StepKeeps | page_state.go:49-133 | Every event keeps log and index in agreement, keeps what numbers name and freezes superseded entries |
| PageLog.IndexAgrees | page_state.go:105-131 | After any events the index knows exactly the ids of the log and leads to the last entry of each |
| PageLog.NumbersAreStable | page_state.go:105-131 | A number names the same id, URL, method, headers and body flag for the rest of the run |
| PageLog.SupersededIsFrozen | page_state.go:99-115 | An entry with a later entry of the same id, such as a redirect hop, never changes again |
| PageLog.RequestIsLogged | page_state.go:95-115 | A request is logged last with the event's own id, url, method, type, headers and body flag and no response, failure or end; of the others at most a redirected hop changes |
| PageLog.RedirectClosesHop | page_state.go:99-115 | A redirect gives the last entry of its id the redirect's response and ends it, and the index then leads to the new entry |
| PageLog.NewsIsRecorded | page_state.go:116-131 | A response sets response and type, an end the end, a failure the end and its text, of the indexed entry only |
| PageLog.ConsoleLineIsKept | page_state.go:54-82 | A line is kept last with its level and text under the navigation of its time |
| PageLog.NavigationIsCounted | page_state.go:83-88 | A main-frame navigation counts, sets the frame and drops the references; any other does nothing |
| PageLog.ConsoleIsOrdered | page_state.go:54-88 | The console only grows; its navigation tags never decrease nor run ahead of the page |
| PageStates.PageState.OnWillBeSent | page_state.go:95-115 | The last object shows the request as it was sent and the index leads to it; old objects keep their places |
| PageStates.PageState.Change | page_state.go:99-131 | A change made through the index shows at the indexed place of the log and nowhere else |
| PageStates.NetworkRequest.Change | page_state.go:100-130 | Redirect, response, end and failure change what they name; a response is a copy of its own |
| PageStates.PageState.OnFrameNavigated | page_state.go:83-88 | Only a main-frame navigation counts, and it drops the references |
| PageStates.PageState.Handle | page_state.go:48-133 | Each event moves fields and request objects as the log's step says |
| PageStates.PageState.StoreRefs | mcp_tools.go:1111-1113 | One step; a snapshot's table replaces the one before and nothing else changes |
| PageStates.PageState.TargetOf | mcp_tools.go:659-668 | A target stands for a node exactly if it resolves in the stored table, and for a selector exactly if it is read as no reference |
| PageStates.PageState.NetworkRequests | mcp_tools.go:1331-1346 | One copy per logged request, in order and equal to it; requests, header maps and responses handed out are all new objects |
| PageStates.PageState.ListThenObserve | mcp_tools.go:1331-1346 | No later events change an earlier listing's copies |
| NetworkTools.ListBy | mcp_tools.go:1242-1257 | Exactly the requests neither hidden nor rejected, each under its own number; shown, hidden and rejected add up to all |
| NetworkTools.HidesIs | mcp_tools.go:1243 | A request is hidden exactly if static ones are not asked for, it was answered below 400, did not fail and is neither XHR nor Fetch in any case mixture |
| NetworkTools.BrowserNetworkRequests | mcp_tools.go:1239-1257 | The listing is that of the requests not hidden by this rule and passing the filter, with exact counts |
| NetworkTools.ListedNumbersStayValid | mcp_tools.go:1268-1280 | A listed number is accepted now and after any further events and finds the listed request |
| TabLists.WithoutKeepsOrder | api.go:211-216 | In-place removal keeps the relative order of the rest |
| TabLists.RemovedKeeps | api.go:208-224 | Removal keeps set, order and current page consistent |
| TabLists.RemovedRemoves | api.go:208-224 | A removed page is gone and no other, the rest keep their order, and current changes only if it was the page, then to the last one left |
| TabProtocol.InvKept | api.go:129-292 | Every lock region of opening, selecting, closing and shutdown keeps the tab list in step |
| TabProtocol.TabsAreConsistent | api.go:144-224 | In every interleaving the order lists the page set without duplicates and current is nil exactly if it is empty, else on it |
| TabProtocol.CloseEmptiesTabs | api.go:164-185 | When Browser.Close is through, in any order, what is left is what another Page.Close has marked and not removed; all three are empty if and only if there is no such page |
| TabProtocol.CloseLeavesPages | api.go:164-185 | A run in which Browser.Close is through and a page that its own close has only marked is still listed and current |
| Tabs.Browser.ViewIsConsistent | api.go:144-224 | The object's set, order and current page are consistent in every reachable state |
| Tabs.Browser.BeginPage | api.go:129-134 | One step; no page exactly if closed or lost |
| Tabs.Browser.AddPage | api.go:144-154 | One step; refused exactly if closed or lost; else the page is in the set, listed last and current, and the others stay where they are |
| Tabs.Browser.LoseConnection | api.go:199-206 | One step; lost unless closed before |
| Tabs.Browser.MarkClosed | api.go:281-288 | One step; tells the first close from the others |
| Tabs.Browser.CutOut | api.go:211-216 | The loop removes the first occurrence and nothing else |
| Tabs.Browser.RemovePage | api.go:208-224 | One step; the page is off set and order and no other, and current changes only if it was the page, then to the last one left |
| Tabs.Browser.ClosePage | api.go:280-292 | The first close removes the page, a second changes nothing, also if the first is still under way |
| Tabs.Browser.SelectTab | mcp_tools.go:1525-1536 | One step; done exactly for an index in range; then current is the page at the index and the list is as it was |
| Tabs.Browser.PickTab | mcp_tools.go:1512-1518 | The numbered or the current page, which is listed, or none |
| Tabs.Browser.CloseTab | mcp_tools.go:1510-1524 | Closes the picked page; if a close of it is under way, or there is none, the list stays as it is |
| Tabs.Browser.BeginClose | api.go:164-175 | One step; lists every page in the set's order, or nothing the second time |
| Tabs.Browser.Visit | api.go:177-179 | Page.Close of the next listed page, in one or two steps |
| Tabs.Browser.Close | api.go:164-179 | With nobody in between, exactly the pages that another close has marked are left; with no such mark set, order and current end empty; a second call does nothing |

## Left out

- WebSocket, HTTP upgrade, listeners, random path ids, the launcher and the connect URL: steps that may succeed or fail.
- JSON encoding and decoding: messages are taken decoded; a tab, a target description or a reply keeps the fields that drive branching.
- The parameters of forwarded commands and of debugger events, except the announced child session; of an event only its method and session id are recorded.
- The replies of CreateTarget, CloseTarget, AttachToTarget, GetTargetInfo and GetTargets, and EmitTargetCreatedEvents: look-ups in the sessions that `FindSession` covers, and formatting.
- The dispatch of CDP methods in the handler, WaitReady and the decoding of extension events: branching on a method name.
- Timers and deadlines: a context may end at any time. Durations and time stamps are not kept.
- Events without an id or method, and onEvent's own work, in the receive loop: they do not touch the pairing.
- Uniqueness of child session ids across tabs, and their difference from `pw-tab-n`, is assumed of the browser in `SessionRouting.EventRoundTrip`, as a condition on the events of the run.
- Target ids are not assumed unique; which of several sessions with one target id a look-up finds is left open.
- That stored references belong to the current navigation, or a live CDP connection to a live extension, is not claimed: `StoreRefs` may come at any time and readiness is read before the lock.
- Cyclic accessibility graphs: `TakeSnapshot`, `Render` and `Collect` require ranks that fall along child ids, because `render` ends for no other reason.
- `strconv.Quote`, box texts and regular expressions are parameters; of a value only its decoded text is kept. Header maps and responses are objects that nothing writes to once they are made.
- The text of the found message, of the network listing and of request details, and the parts of a single request: formatting.
- Case folding is that of ASCII letters, which for the two names XHR and Fetch is all that Unicode folding does.
- Console level filtering, dialogs, file chooser, screenshots, input, drag and drop, JavaScript evaluation and files.
- BringToFront after a select, and the error it may return, are not modelled.
- The methods of the classes are single lock regions; the goroutines that string them together are the runs of the state machines.
