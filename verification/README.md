# Verified model of the trace visualizer's core

The repository instruments Go programs, turns their execution traces into a timeline of channel events, and
serves that timeline live. This project models the parts of it whose correctness is not visible from a single
function, and proves what they are for:

- **Loop regions and channel ranges** (`LoopLanguage`, `LoopRegions`, `ChannelRange`): a small Go-like language
  with an executable meaning, the pass that wraps loop bodies in trace regions, and the pass that turns a range
  over a channel into explicit receives. Both passes preserve meaning on the fragment they support; outside it
  each way in which they fail is a lemma of its own.
- **Skip-graph node** (`SkipGraphRange`, `SkipGraphNode`, `SkipGraphRouting`): level ranges with nearest-neighbour
  borders, the reference-counted index over all levels, and the two searches.
- **Send/receive pairing** (`Pairing`, `ParseState`, `PairingScenarios`, `MessageIds`, `IndexMatching`) and its
  **audit** (`UnmatchedAudit`, `AuditOrder`, `AuditAgreement`, `AuditByChannel`): the queues and credits as one state
  machine, every event and count that two or three operations lead to, message-id conservation over every run, the declarative reading "receive k meets send k", and the agreement between the
  counters kept on the way and the audit recomputed from the emitted events.
- **Deadlock warning** (`CycleSearch`, `Deadlock`): the wait-for graph and the depth-first search.
- **Live hand-off** (`LiveHandOff`): reader, buffering goroutine and sender as interleaved steps.
- **Select logs** (`SelectLogs`, `SelectOrder`): the machine that finds the chosen case in logs of any order.
- **Blocked time** (`BlockAccounting`, `BlockTraces`, `BlockSummary`): intervals opened, dated back and charged, what
  a whole trace charges for one wait, and the figures of the summary.
- **Blocking broadcast** (`Broadcast`): server and n clients over rendezvous channels.
- **Names** (`Text`, `RegionLabels`, `ChannelKeys`, `ChannelNames`, `Topology`, `Aliasing`, `ShownChannels`,
  `EventNames`): labels, keys, pointer aliases, the channels a timeline shows, and the topology check. `Shared` holds what several modules use.

Where the source updates fields in place the model has a class whose methods are tied to a specification function,
and the results are lemmas about that function: `LevelRange`, `Node`, `PairingState`, `Search`, `DeadlockState`,
`RunHistory`, `SelectState`, `BlockState`. A Go map that is iterated in arbitrary order becomes a loop that picks
keys in arbitrary order; where the pick can influence the result, it is a ghost value that the specification
quantifies over. Goroutines are the steps of a state machine, and results are stated for every interleaving.

## What the proofs found

- `LoopRegions`: the rewriter takes a `break` inside `switch` or `select` for a break of the loop, does not look
  under `else if` or into a type switch, and loses a `return` in a nested loop.
- `ChannelRange`: a range that assigns an existing variable and is left by draining the channel ends with that
  variable at its zero value after the rewrite, so the variable survives exactly if the last value was zero; a body
  that replaces the channel variable diverges; a body that declares the range variable anew no longer compiles,
  since the receive shares its block.
- `SkipGraphNode`: a node that is offered its own record keeps it for ever, so index and ranges disagree.
- `SkipGraphRange`: the largest and the smallest id are indistinguishable from a missing border.
- `MessageIds`: one unmatched select receive on a channel with a name grants two credits, so two later sends count
  as received; credits and receives agree exactly if every such receive is on a channel without a name.
- `AuditAgreement`: the recomputed audit never reports an unmatched receive and counts absorbed and skipped sends
  as unmatched, unlike the summary kept by the parser.
- `SelectOrder`: a chosen log without an index depends on the order of the logs exactly when a usable first case
  stands beside another case.
- `BlockSummary`: the per-goroutine figure in the summary is the charged part alone exactly if that part is itself
  among the five longest entries while the goroutine is blocked again; the longest time and the reasons are right.
- `Broadcast`: with fewer than two clients the server waits for ever, with more than ten it can panic.
- `Aliasing`: a pointer gets two identities exactly if two events show it under keys that stand for different
  things, as a key with the pointer prefix twice does; printed pointers and keys never do.
- `Topology`: the first fault of the validator, a pointer without any identity, is never reported.
- `ChannelKeys`: a client index below -1 does not survive printing.

## Model

| member | source | states |
|---|---|---|
| LoopRegions.ForcedForPreserves | internal/instrumenter/instrumenter.go:2293-2311 | For every forceable body in the supported fragment and every store, the original `for` loop and the loop with the forced region have the same outcome (fall out, return, divergence) and leave every program variable equal. |
| LoopRegions.ForcedRangePreserves | internal/instrumenter/instrumenter.go:2226-2247 | The same for a range loop over a bound. |
| LoopRegions.SafeExactly | internal/instrumenter/instrumenter.go:2753-2802 | The guard of plain wrapping accepts exactly the bodies without any break, continue or return, nested loops and closures included; the guard of forcing accepts those too. |
| LoopRegions.ForceableExactly | internal/instrumenter/instrumenter.go:2804-2833 | Forcing is refused exactly for a return outside nested loops, closures included, where a bare return is not legal. |
| LoopRegions.BodySimulates | internal/instrumenter/instrumenter.go:2840-2915 | The rewritten body in its closure records through its flags exactly how the original body ends, and leaves the same variables. |
| LoopRegions.SafeWrapPreserves | internal/instrumenter/instrumenter.go:2756-2802 | A body that `loopBodySafe` accepts gives the same result inside a region closure as without it, from every state. |
| LoopRegions.WrapPreservesExactly | internal/instrumenter/instrumenter.go:2753-2802 | For any body, safe or not: the region around it is transparent if and only if the body does not end in a break, a continue or a return. |
| LoopRegions.SwitchBreakDiverges | internal/instrumenter/instrumenter.go:2887-2904 | A body starting with a switch whose case breaks, followed by anything forceable: the original goes on with the rest, the forced body breaks. They agree if and only if the rest does nothing but break out of the loop, so never for a rest without branches. |
| LoopRegions.SwitchBreakEndsLoop | internal/instrumenter/instrumenter.go:2887-2904 | An endless loop over such a switch alone never ends, and ends in its first iteration once forced. |
| LoopRegions.ElseIfBreakIsStuck | internal/instrumenter/instrumenter.go:2880-2886 | A break under `else if` stays in the closure, where it has no loop to leave. |
| LoopRegions.TypeSwitchContinueIsStuck | internal/instrumenter/instrumenter.go:2840-2915 | A continue in a type switch stays in the closure, where it has no loop to continue. |
| LoopRegions.NestedReturnIsLost | internal/instrumenter/instrumenter.go:2905-2907 | A return in a nested loop ends only the closure: the original returns, the forced loop goes on. |
| ChannelRange.DeclaringRangePreserves | internal/instrumenter/instrumenter.go:2155-2205 | A range with a declared or no variable and its explicit receive loop run the body on the same values in the same order, for any body with declarations, break and continue that does not declare the range variable anew, and end in equal stores. |
| ChannelRange.RedeclaredKeyIsStuck | internal/instrumenter/instrumenter.go:2155-2205 | If the body declares the range variable anew the explicit loop is a redeclaration, whatever the state. |
| ChannelRange.AssigningRangePreservesTheRest | internal/instrumenter/instrumenter.go:2155-2205 | For a range that assigns an existing variable, outcome and all other variables are preserved; the variable itself too unless the channel is drained, and then it is zero. |
| ChannelRange.AssigningRangeExact | internal/instrumenter/instrumenter.go:2155-2205 | For every body: the assigned variable survives if and only if the range is not left by draining the channel or the variable ends at zero anyway. |
| ChannelRange.AssigningRangeExactBefore | internal/instrumenter/instrumenter.go:2155-2205 | Told before the loop, for a body without branches that neither assigns the variable nor receives: a range that ends preserves it if and only if the last waiting value is zero (with none waiting: the variable is). |
| ChannelRange.AssigningRangeExactStraight | internal/instrumenter/instrumenter.go:2155-2205 | For a body of assignments, blocks and choices the range does end, so preservation holds if and only if the last waiting value is zero. |
| ChannelRange.AssigningRangeClobbers | internal/instrumenter/instrumenter.go:2155-2205 | One waiting 5 and an empty body: the two loops end in different states. |
| ChannelRange.ReassignedChannelDiverges | internal/instrumenter/instrumenter.go:2155-2205 | With two or more waiting values, a body that replaces the channel variable makes the declaring range and its explicit loop end differently: the range drains the channel, the loop takes one value. |
| SkipGraphRange.LevelRange.UpdateRange | internal/workload/skipgraph.go:258-310 | One offer moves kept nodes and borders to the specified next state and returns the dropped records. |
| SkipGraphRange.LevelRange.AdmitOffer | internal/workload/skipgraph.go:258-292 | The offer is rejected, or appended with each border moved where it is closer. |
| SkipGraphRange.Sift | internal/workload/skipgraph.go:293-310 | The two cleanup loops split the nodes, in order, into those outside and those between the borders. |
| SkipGraphRange.BordersAreNearest | internal/workload/skipgraph.go:220-310 | After any sequence of offers each border is the closest offered prefix-matching value on its side for its next bit, except exactly when that class was offered the reserved id alone. |
| SkipGraphRange.RunsStayTidy | internal/workload/skipgraph.go:258-310 | After any offers the kept nodes are distinct by value, exclude the node itself, match its prefix and lie between the range borders. |
| SkipGraphRange.KeepsExactly | internal/workload/skipgraph.go:258-310 | What must be kept: after an offer to a tidy range a value is held if and only if it was held, or was offered with a matching prefix and not beyond both borders of a side, and on each side no new border is set or some set one does not exclude it. |
| SkipGraphRange.DropsExactly | internal/workload/skipgraph.go:258-310 | An offer drops precisely the values that were held or offered and are held no longer, each once. |
| SkipGraphNode.Node.constructor | internal/workload/skipgraph.go:84-99 | A new node has an empty range for each level and an empty index. |
| SkipGraphNode.Node.UpdateRangesOfNode | internal/workload/skipgraph.go:316-353 | An offer is taken in by every level, the index pays one count for each drop, and records at zero are handed on. |
| SkipGraphNode.Admit | internal/workload/skipgraph.go:316-327 | A known value gets its full count back on every entry, a new record is appended with a full count. |
| SkipGraphNode.Settle | internal/workload/skipgraph.go:328-339 | Each dropped record lowers the count of every entry with its value by one, not below zero. |
| SkipGraphNode.Split | internal/workload/skipgraph.go:340-348 | Entries at zero are released in order, the others stay. |
| SkipGraphNode.OfferKeepsIndex | internal/workload/skipgraph.go:316-353 | An offer of a foreign record keeps every count equal to the number of levels that keep its value and the index equal to the union of the levels; a known record is handed on exactly if no level keeps it. |
| SkipGraphNode.IndexExactIffForeign | internal/workload/skipgraph.go:316-353 | After any sequence of offers the index agrees with the ranges if and only if the node was never offered its own record (or has no level). |
| SkipGraphNode.LevelsRunAlone | internal/workload/skipgraph.go:316-339 | Each level's range is what that range alone becomes under the same offers. |
| SkipGraphRouting.SortByValue | internal/workload/skipgraph.go:452-480 | The sorted index is an ordered permutation of the index. |
| SkipGraphRouting.SearchOnNodeID | internal/workload/skipgraph.go:452-480 | The forward of an id search is the known record on the way that is closest to the target, or none if no known record is on the way. |
| SkipGraphRouting.IdRoutesEnd | internal/workload/skipgraph.go:452-480 | Over any hops, even if neighbour lists change between them, an id search never passes its target and takes at most as many hops as the start is away from it. |
| SkipGraphRouting.KnownTargetIsNext | internal/workload/skipgraph.go:452-480 | A node that knows the target forwards straight to it. |
| SkipGraphRouting.GetFitLevel | internal/workload/skipgraph.go:362-376 | The level found is the length of the longest common prefix of the two bitstrings, less one. |
| SkipGraphRouting.CommonMeans | internal/workload/skipgraph.go:362-376 | The common length is the largest length at which the two prefixes agree. |
| SkipGraphRouting.SearchOnNodeBitstring | internal/workload/skipgraph.go:378-391 | The forward of a bitstring search is a known record with the longest match, if that is longer than the node's own. |
| SkipGraphRouting.KnownBitstringIsNext | internal/workload/skipgraph.go:378-391 | A node that knows the bitstring, and does not match all of it itself, forwards to a full match. |
| SkipGraphRouting.BitRoutesEnd | internal/workload/skipgraph.go:437-450 | Every hop matches a strictly longer prefix, so the hops are bounded by what was left to match. |
| ParseState.PairingState.HandleRegionOp | internal/traceproc/traceproc.go:2677-2788 | The end of a region changes queues, credits, ids and counters as specified, for valid results of the searches by name. A send announces its completion, then the message with the next id, and takes that id; a receive announces its completion and takes none; both with the given channel, pointer, goroutine, role and time. |
| ParseState.PairingState.CompleteSend | internal/traceproc/traceproc.go:2691-2727 | A send takes a fresh id and an early receive, a credit or a place in its queue; it is counted as matched in the first two cases and as unknown without a channel. |
| ParseState.PairingState.RegionRecv | internal/traceproc/traceproc.go:2728-2786 | A receive takes the head of its own queue, without a pointer also of one found by name, or waits; a skipped name takes the send without a receipt. |
| ParseState.PairingState.EmitSelectChosenCase | internal/traceproc/traceproc.go:2859-2969 | A chosen case without a channel identity changes nothing. A send takes the next id and is announced with it last; a receive takes none and is announced last; both with the case's own channel, and matched under its pointer, or under its key where that is one. A case of another kind is only announced. |
| ParseState.PairingState.MatchSelectRecv | internal/traceproc/traceproc.go:3001-3038 | A select receive takes the head of its queue or of one found by name, otherwise leaves credits. |
| ParseState.PairingState.FindSendQueueByName | internal/traceproc/traceproc.go:2570-2608 | Among the non-empty queues answering to the name one with the earliest first send is found, and none only if none answers. |
| ParseState.PairingState.ResolvePendingSelectRecv | internal/traceproc/traceproc.go:2610-2638 | A positive credit of the own key, else of a key answering to the name, and none only if there is none. |
| ParseState.PairingState.FindPendingRecv | internal/traceproc/traceproc.go:2640-2674 | A non-empty queue of early receives of the own key, else of a key answering to the name. |
| ParseState.PairingState.PopPendingRecv | internal/traceproc/traceproc.go:2640-2674 | The head of that queue is taken and nothing else changes. |
| ParseState.Replay | internal/traceproc/traceproc.go:2677-2788 | Whatever operations are performed, the states passed through form a run of the pairing machine. |
| PairingScenarios.SendThenReceive | internal/traceproc/traceproc.go:2677-2788 | In any state a send that finds nobody and a receive on the same pointer, or the same printed name, lead to exactly five events - both completions, the message, the send again, the receipt with sender and id - and one pair more. |
| PairingScenarios.SendThenSkippedReceive | internal/traceproc/traceproc.go:2758-2763 | With a receive on an excluded channel the message is used up, without a receipt and without a count. |
| PairingScenarios.ReceiveThenSend | internal/traceproc/traceproc.go:2691-2722 | The other way round the receipt comes last, with the time and place of the receive and the id of the send. |
| PairingScenarios.PointerReceiveWaits | internal/traceproc/traceproc.go:2730-2757 | A region receive with a pointer waits on it, whatever waits under a name. |
| PairingScenarios.NamedReceiveTakesPointer | internal/traceproc/traceproc.go:2734-2786 | A pointer is logged under a name, somebody sends on it, and a receive knows only the name, in any case and spacing: it gets the message, and the receipt carries the pointer as key and pointer. |
| PairingScenarios.EarlierSendFirst | internal/traceproc/traceproc.go:2570-2608 | Of two pointers logged under the name the one with the earlier send is taken. |
| PairingScenarios.NamelessReceiveWaits | internal/traceproc/traceproc.go:2734-2757 | Where nothing answers to the name the receive waits under its printed key. |
| PairingScenarios.SelectReceiveTakes | internal/traceproc/traceproc.go:3001-3038 | A chosen receive takes a waiting send of its pointer, is announced with its sender and id, and counts for its own key, else its pointer, else its name. |
| PairingScenarios.SelectReceiveTakesByName | internal/traceproc/traceproc.go:3011-3018 | Unlike a region a chosen receive looks under its name even if it has a pointer. |
| PairingScenarios.SelectReceiveLeavesCredit | internal/traceproc/traceproc.go:3019-3025 | A chosen receive that finds nothing is announced unpaired and leaves one credit for its pointer and one for its name. |
| PairingScenarios.SelectSendMeetsReceive | internal/traceproc/traceproc.go:2876-2935 | A chosen send that meets an early receive announces the receipt before the message. |
| PairingScenarios.SendUsesCredit | internal/traceproc/traceproc.go:2719-2725 | A credit is used up by one send, which then waits for nobody and counts as a pair. |
| PairingScenarios.UnknownSends | internal/traceproc/traceproc.go:2692-2702 | A region send without a channel counts as unknown once, and once more when it is received. |
| MessageIds.RunsConserveIds | internal/traceproc/traceproc.go:2691-2786 | Over every run, selects and skips included, for the ledger written along it: each issued id has one place - a queue, one paired receive whose peer is the sender, an early select receive, the skip list; no key has a waiting send and a waiting receive; credits left plus sends absorbed equal the number of early select receives plus the number of those on a channel with a name; as many sends wait as ids are queued; without a skip list nothing is skipped. |
| MessageIds.RunHasPicks | internal/traceproc/traceproc.go:2570-2674 | Every run has such a ledger: its steps are explained by some results of the unordered searches. |
| MessageIds.CreditsMatchReceivesExactly | internal/traceproc/traceproc.go:3019-3025 | Over every run: credits left plus sends absorbed equal the number of early select receives if and only if none of these is on a channel with a name. |
| MessageIds.SingleCreditExactly | internal/traceproc/traceproc.go:3019-3025 | An unmatched select receive grants one or two credits, and one if and only if its channel has no name. |
| MessageIds.OneReceiveAbsorbsTwoSends | internal/traceproc/traceproc.go:3019-3025 | The second credit is used: after one unmatched select receive on a named channel the next two sends are both absorbed. |
| MessageIds.PlacesCoverLedger | internal/traceproc/traceproc.go:2691-2786 | The messages at the four places are all messages. |
| IndexMatching.IndexPairing | internal/traceproc/traceproc.go:2677-2788 | On runs of region operations with pointers and distinct names, in every interleaving, receive k on a pointer is emitted paired with the id and goroutine of send k on it, and the queues hold the unmatched rest in order. |
| IndexMatching.CrossPairingExactly | internal/traceproc/traceproc.go:2640-2674 | In every state a send meets a receive waiting on its own pointer; otherwise it is paired with a receive of another pointer if and only if one waits there that answers to the name of the send. |
| IndexMatching.SendIdsPositive | internal/traceproc/traceproc.go:2691-2699 | Ids of the sends on a pointer are positive, increasing and not beyond the number of sends. |
| UnmatchedAudit.ComputeUnmatchedAuditFromEvents | internal/traceproc/audit_unmatched.go:16-91 | Listed by channel name: the messages sent and not received, received and never sent, and both, as sizes of key sets; the totals, the events without a channel, and the warnings in order. |
| UnmatchedAudit.AuditIsUnique | internal/traceproc/audit_unmatched.go:47-91 | The listed audit is decided by the events: any two orders of the map iterations list the same. |
| AuditOrder.ListEntries | internal/traceproc/audit_unmatched.go:81-91 | The entries are listed once each in strictly ascending order of their names. |
| AuditOrder.FirstDifferenceDecides | internal/traceproc/audit_unmatched.go:81-91 | Of two names the first is the one with the smaller character at the first difference, or the shorter one. |
| UnmatchedAudit.ChannelsOfMeans | internal/traceproc/audit_unmatched.go:23-45 | A message counts as sent (received) exactly if a paired event carries its key, and its channel is that of the last such event. |
| UnmatchedAudit.MessageChannel | internal/traceproc/audit_unmatched.go:23-45 | The same on the fields: a message is known by its message id, else by its pair id, and counts on the channel key, else the channel, of the last send (receive) event that bears it. |
| UnmatchedAudit.UnknownExactly | internal/traceproc/audit_unmatched.go:23-38 | The unknown events are those sends and receives without key and channel that are marked as paired, in any letter case, or have a message, pair or attempt id. |
| UnmatchedAudit.WarnedExactly | internal/traceproc/audit_unmatched.go:29-38 | A warning is given if and only if a send or receive that is not marked as paired has an attempt id and no other. |
| UnmatchedAudit.CountSends | internal/traceproc/audit_unmatched.go:47-63 | The loop over sent messages, in any order, counts matched and unmatched sends per channel and the open sends. |
| UnmatchedAudit.CountRecvs | internal/traceproc/audit_unmatched.go:64-79 | The loop over received messages, in any order, adds those never sent. |
| AuditAgreement.AuditSummary | internal/traceproc/traceproc.go:830-911 | The summary lists, by name, each channel with its queue lengths and matched pairs, and totals the queues, whatever order the maps are iterated in. |
| AuditAgreement.TotalsAgree | internal/traceproc/audit_unmatched.go:16-91 | Over every run, selects included, with no event lacking a channel: the recomputed unmatched sends are the waiting sends plus those the run's ledger has as absorbed plus those it has as skipped, and no receive is ever unmatched. |
| AuditAgreement.RunsAnnounce | internal/traceproc/traceproc.go:2691-2699 | Every issued id is announced by a send event. |
| AuditByChannel.ChannelsAgree | internal/traceproc/audit_unmatched.go:47-91 | On pointer runs the recomputed audit gives each channel the length of its send queue as unmatched and the counter kept while pairing as matched. |
| AuditByChannel.AuditsAgree | internal/traceproc/traceproc.go:830-911 | On pointer runs the audit kept while pairing and the recomputed one list the same sends and pairs for each channel; only the kept one knows of waiting receives. |
| AuditByChannel.PointerTotalsAgree | internal/traceproc/audit_unmatched.go:47-91 | On pointer runs no channel is unknown on either side and the send total is the sum of the queue lengths. |
| CycleSearch.FindCycle | internal/traceproc/traceproc.go:750-792 | In whatever order nodes are tried, the result is non-empty if and only if the graph has a cycle, and then it starts and ends at the same node, is otherwise free of repetition and follows edges. |
| CycleSearch.Search.Dfs | internal/traceproc/traceproc.go:755-781 | From an unvisited node: a simple cycle is found, or the node and all it reaches are finished; the number of unvisited nodes bounds the recursion. |
| CycleSearch.Search.CloseCycle | internal/traceproc/traceproc.go:763-774 | A successor on the stack cuts a simple closed walk out of the stack. |
| CycleSearch.SettledIsAcyclic | internal/traceproc/traceproc.go:783-789 | A graph whose nodes are all finished has no cycle. |
| Deadlock.DeadlockState.BuildGraph | internal/traceproc/traceproc.go:724-742 | The graph is exactly the recent waits-for relation of the blocked goroutines, read off the maps of last operations, in any order of iteration. |
| Deadlock.DeadlockState.DeadlockCycleEvent | internal/traceproc/traceproc.go:670-812 | A warning is given if and only if some blocked goroutines wait for each other in a circle; it lists such a circle, each edge with the name under which its wait was found. |
| Deadlock.WaitsExactly | internal/traceproc/traceproc.go:680-742 | What a wait is: a receiver waits for the last sender, any other for the last receiver, recorded first under the identity of the channel, the channel inside it, the logged name of the pointer, or the channel inside that; not for goroutine 0, and not for an operation older than the window. |
| Deadlock.DescribeEdges | internal/traceproc/traceproc.go:795-806 | The report names for each step of the cycle its two goroutines and the label recorded for that edge. |
| Deadlock.CyclesAreCircles | internal/traceproc/traceproc.go:724-742 | The built graph has a cycle exactly if blocked goroutines wait in a circle. |
| LiveHandOff.RunHistory.Add | cmd/gtv-live/main.go:1267-1276 | The event is appended and the oldest one dropped when the history is full. |
| LiveHandOff.RunHistory.Snapshot | cmd/gtv-live/main.go:1278-1284 | The snapshot is the whole history, oldest first. |
| LiveHandOff.RunHistory.LastSeq | cmd/gtv-live/main.go:1286-1293 | The number of the newest event, or zero. |
| LiveHandOff.DeliveryIsExact | cmd/gtv-live/main.go:1404-1490 | In every state of every interleaving what was sent is gap-free, in order and without repetition, from event 1 on as long as the history never overflowed; at an end without a write error it reaches the last event produced, and it is everything, or at least as many events as the history holds. |
| LiveHandOff.DeliveryFromSnapshot | cmd/gtv-live/main.go:1467-1490 | Told from the moment of the snapshot: the first event sent is the one after those the history had dropped by then, the whole history of that moment is sent before the live stream, and at an end without a write error all events from there on are. |
| LiveHandOff.HeldBackUntilSnapshot | cmd/gtv-live/main.go:1404-1455 | In every reachable state and every step: nothing enters the live channel before the snapshot has been sent, what is held back only grows until then, and only shrinks, from its front, afterwards. |
| LiveHandOff.EveryStepCounts | cmd/gtv-live/main.go:1406-1455 | Every step lowers the remaining work. |
| LiveHandOff.SomeStepEnabled | cmd/gtv-live/main.go:1406-1455 | Until the sender has ended some goroutine can take a step, for any capacities of at least one. |
| LiveHandOff.MaximalRunsEnd | cmd/gtv-live/main.go:1467-1505 | A run that cannot be continued has ended with both channels and the pending buffer empty, and no run is longer than the initial work. |
| SelectLogs.SelectState.HandleSelectLog | internal/traceproc/traceproc.go:3045-3213 | One log changes the select tables as the specified step does. |
| SelectLogs.SelectState.EmitChosen | internal/traceproc/traceproc.go:2859-2998 | A chosen case without identity changes nothing; otherwise it is emitted, marked and no longer pending. |
| SelectLogs.SelectsDoNotInterfere | internal/traceproc/traceproc.go:3045-3213 | Among logs of any selects and goroutines each select runs as if its own logs were the only ones. |
| SelectLogs.LogsBelongToBegun | internal/traceproc/traceproc.go:3050-3066 | After a begin log every log of the goroutine that names no select acts on the select opened - the one named, else the one already open, else a new one - whatever is logged in between, until the end log. |
| SelectLogs.NamedLogActsThere | internal/traceproc/traceproc.go:3050-3056 | A log that names its select acts on that one. |
| SelectLogs.EndCloses | internal/traceproc/traceproc.go:3180-3213 | After the end log a log without a name acts on no select. |
| SelectLogs.MissingCaseIsCounted | internal/traceproc/traceproc.go:3199-3201 | A choice whose case never comes is counted at the end, and nothing is emitted. |
| SelectOrder.ChosenIsEmittedOnce | internal/traceproc/traceproc.go:3057-3213 | For cases with distinct non-negative indices and one chosen log, in any order: the chosen case is emitted exactly once if it has a kind and an identity, and nothing otherwise. |
| SelectOrder.OrderInsensitiveExactly | internal/traceproc/traceproc.go:2845-2857 | All orders emit the same if and only if the chosen log has an index or no usable first case stands beside another case. |
| SelectOrder.OrderMatters | internal/traceproc/traceproc.go:2845-2857 | Otherwise two orders of the same logs emit differently. |
| SelectOrder.UnindexedPairIsEmitted | internal/traceproc/traceproc.go:2845-2857 | A single case without an index is emitted for a choice without one, in either order. |
| SelectOrder.SeenOperationIsNotRepeated | internal/traceproc/traceproc.go:3057-3213 | After the log of the operation itself nothing is emitted for the select until its end. |
| SelectOrder.ChosenIsEmittedAmongOthers | internal/traceproc/traceproc.go:3045-3213 | The same for one select among the logs of all others. |
| SelectOrder.EndResets | internal/traceproc/traceproc.go:3180-3213 | The end log leaves a select as before its first log and emits nothing. |
| BlockAccounting.BlockState.ChargeBlocked | internal/traceproc/traceproc.go:487-496 | Positive time is added to the goroutine and to the reason, blank reasons counting as unknown. |
| BlockAccounting.BlockState.SetSyncWaitCandidate | internal/traceproc/traceproc.go:1386-1401 | A lock or wait region sets the candidate; other kinds change nothing. |
| BlockAccounting.BlockState.ClearSyncWaitCandidate | internal/traceproc/traceproc.go:1403-1412 | Only a candidate of the given kind is cleared. |
| BlockAccounting.BlockState.OnBlockChan | internal/traceproc/traceproc.go:1978-2084 | A channel block opens an interval unless one is open or the block is dropped. |
| BlockAccounting.BlockState.OnBlockSync | internal/traceproc/traceproc.go:2085-2133 | A sync block opens an interval dated back to a matching candidate. |
| BlockAccounting.BlockState.OnUnblock | internal/traceproc/traceproc.go:2136-2229 | An unblock charges the open interval, or one since the candidate, and clears the goroutine. |
| BlockAccounting.BlockedTimeIsBounded | internal/traceproc/traceproc.go:1978-2229 | For every trace in time order: charged plus running time fits into the trace, charged intervals do not overlap nor does an open one begin before they end or after the trace, both totals are the same time, and the three maps have the same keys. |
| BlockAccounting.RunsKeepAccounts | internal/traceproc/traceproc.go:487-496 | Each total is the length of the charged intervals of its goroutine or reason. |
| BlockTraces.SyncWaitIsChargedFromRegion | internal/traceproc/traceproc.go:2085-2229 | A goroutine that begins a lock or wait region at event a, blocks on a sync reason in it at b and is unblocked at c is charged exactly from a (from b if a was at time zero) to c, to itself and to the kind of the region. |
| BlockTraces.SyncWaitIsChargedFromBlock | internal/traceproc/traceproc.go:2085-2229 | Outside a region the wait is charged from the block on, to the kind that the block tells. |
| BlockTraces.ChannelWaitIsCharged | internal/traceproc/traceproc.go:1978-2084 | A channel wait is charged from its block to its unblock, to the send or receive side, whatever region is open. |
| BlockTraces.RegionAloneIsCharged | internal/traceproc/traceproc.go:2205-2225 | A goroutine that is unblocked in a region without having been seen to block is charged from the begin of the region. |
| BlockTraces.NothingElseIsCharged | internal/traceproc/traceproc.go:2136-2229 | Nothing is charged but by the unblock of a tracked goroutine that waits or is in a region. |
| BlockTraces.BlockedForLastReason | internal/traceproc/traceproc.go:1978-2133 | A waiting goroutine is known as blocked for the reason of its last block: the direction, the kind of its region, or the kind the block tells. |
| BlockTraces.WaitRegions | internal/traceproc/traceproc.go:1386-1390 | Of the operations in sync labels exactly those that lock or wait open a wait region. |
| BlockSummary.CollectItems | internal/traceproc/traceproc.go:932-951 | Each goroutine with charged time has one entry and each with an open interval another, in any order of the maps. |
| BlockSummary.SummarizeBlocked | internal/traceproc/traceproc.go:927-968 | The reported figures are those of the first five entries in some descending order, and the longest time is the largest charged plus running time of any goroutine. |
| BlockSummary.RunningTimeIsReportedExactly | internal/traceproc/traceproc.go:927-968 | For every such order: a goroutine is reported with something else than its charged plus running time if and only if its open interval has a length and its charged time is itself among the first five; then with that. |
| BlockSummary.ReportedByLength | internal/traceproc/traceproc.go:927-968 | Told from the entries before they are sorted: every order reports the charged part alone if at most five entries are as long as it, and none does if five are longer. |
| BlockSummary.TwoWaitsReportOne | internal/traceproc/traceproc.go:927-968 | A trace of five events, blocked for one unit and then for two: one unit is reported. |
| BlockSummary.ReasonTotals | internal/traceproc/traceproc.go:933-951 | Each reason is reported with its charged time and the time of the intervals open for it, in any order of the map. |
| BlockSummary.ReasonsAddUp | internal/traceproc/traceproc.go:933-951 | Over every trace the reported reasons make up the charged and running time of all goroutines. |
| BlockSummary.RunningIsWhatUnblockCharges | internal/traceproc/traceproc.go:940-951 | For every trace the running time and its reason are those that an unblock at the moment of the summary would charge. |
| Broadcast.BroadcastIsExact | internal/workload/broadcast.go:242-315 | With 2 to 10 clients no schedule gets stuck before 3n + 1 rendezvous, and then the server is done, every client has the message once and slot i is the inbox of client i. |
| Broadcast.FinishesExactly | internal/workload/broadcast.go:242-315 | Every maximal run finishes if and only if there are 2 to 10 clients. |
| Broadcast.TooFewClients | internal/workload/broadcast.go:298-305 | With fewer than two clients a run gets stuck with the server waiting for the message. |
| Broadcast.TooManyClients | internal/workload/broadcast.go:286-296 | With more than 10 clients the first registration can be out of range. |
| RegionLabels.SendLabelRoundTrip | internal/instrumenter/instrumenter.go:832-878 | For a space-free role the send label is parsed back to the lower-cased channel if and only if the channel is non-empty and space-free. |
| RegionLabels.RecvLabelRoundTrip | internal/traceproc/traceproc.go:1244-1384 | The same for receive labels. |
| RegionLabels.BuiltLabelsRoundTrip | internal/instrumenter/instrumenter.go:832-878 | The label built for a channel expression is parsed back to its lower-cased text if and only if the names in the expression are non-empty and space-free. |
| RegionLabels.SyncLabelRoundTrip | internal/instrumenter/instrumenter.go:1571-1601 | Every mutex, rwmutex, wait-group and cond label gives back its kind and lower-cased object. |
| RegionLabels.SyncMethodsRoundTrip | internal/instrumenter/instrumenter.go:1571-1601 | The same for each of the twelve Go methods by name. |
| RegionLabels.NamelessSyncIsRead | internal/traceproc/traceproc.go:1251-1320 | A sync label without a name gives its kind and the family as object. |
| RegionLabels.CloseIsRead | internal/traceproc/traceproc.go:1244-1251 | The close of a channel is read whatever the channel is called, and without its name. |
| ChannelKeys.KeyRoundTrip | internal/traceproc/traceproc.go:2551-2568 | Parsing the printed form of a parsed key gives it back if and only if its client index is not below -1. |
| ChannelKeys.IndexedKey | internal/traceproc/traceproc.go:2551-2568 | A label with a client index is split into its lower-cased base and the index, and printed so again. |
| ChannelKeys.PlainKey | internal/traceproc/traceproc.go:2551-2568 | A label without a bracket is its own lower-cased name. |
| ChannelKeys.AtoiOfSigned | internal/traceproc/traceproc.go:2551-2568 | A signed index is read within 64 bits and not beyond. |
| ChannelKeys.DigitsInjective | internal/traceproc/traceproc.go:1143-1152 | Distinct indices print differently. |
| ChannelNames.KeyTwice | internal/traceproc/topology.go:78-96 | Normalizing a channel key a second time only trims it. |
| ChannelNames.SuffixIsCut | internal/traceproc/topology.go:86-96 | A goroutine suffix is cut off a key. |
| ChannelNames.SuffixKeepsPointer | internal/traceproc/topology.go:78-107 | A goroutine suffix does not decide whether a text stands for a pointer. |
| ChannelNames.AliasesDiffer | internal/traceproc/traceproc.go:3257-3268 | Aliases with different numbers are different. |
| ChannelNames.UnknownNamesDiffer | internal/traceproc/traceproc.go:3339-3347 | Two events are given the same unknown name only if goroutine and number are the same. |
| Topology.NormalizeTimeline | internal/traceproc/traceproc.go:3243-3348 | The loops over the events compute the specified names, aliases and identities. |
| ShownChannels.ShownChannel | internal/traceproc/traceproc.go:3270-3347 | The channel of every event of a normalized timeline: its own proper name; else the first name told of its pointer; else an unnamed pointer's alias, in channel and key alike; else, with nothing to go by, its goroutine and number; any other text stays. |
| ShownChannels.NameIsFirstTold | internal/traceproc/traceproc.go:3267-3278 | A pointer is known by the channel of the first event that tells a proper name of it. |
| Topology.ValidateTopology | internal/traceproc/topology.go:12-53 | No fault is reported if and only if every pointer has one identity and every pointer, send and receive has one; a pointer without an identity is never among the faults. |
| Topology.Observe | internal/traceproc/topology.go:37-53 | An event is a fault exactly if it lacks a needed identity or contradicts the known one, and otherwise is remembered. |
| Topology.PointersAreNeverNameless | internal/traceproc/topology.go:55-76 | A pointer is its own identity where there is nothing else. |
| EventNames.DirectionIsInName | internal/traceproc/topology.go:120-135 | The directions of the channel events are those that the search for words finds in their printed names. |
| Aliasing.PointersKeepTheirIdentity | internal/traceproc/traceproc.go:3257-3322 | After normalization every pointer has an identity; events with the same pointer have the same one if and only if their keys stand for the same thing, and two printed pointers if and only if their keys stand for the same pointer, when the key equals the pointer field wherever there is one. |
| Aliasing.PointersSplitExactly | internal/traceproc/traceproc.go:3257-3322 | Some pointer of such a timeline has two identities if and only if two events show the same pointer under keys that stand for different things, which their own fields tell. |
| Aliasing.ValidatorIsSilentExactly | internal/traceproc/topology.go:12-53 | On such timelines the validator is silent if and only if no pointer is shown under two keys and every send or receive has a name, a key or a pointer, or is a channel event that is given an identity of its own. |
| Aliasing.PrintedPointersNeverSplit | internal/traceproc/topology.go:98-107 | Pointers and keys as the tracer prints them never clash: equal pointers have equal identities, distinct ones distinct. |
| Aliasing.SelectionsKeepPointers | internal/traceproc/traceproc.go:3377-3405 | Sorting, filtering and renaming a timeline whose events do not clash cannot make a pointer lack an identity or have two. |
| Aliasing.DoublePrefixSplitsPointer | internal/traceproc/topology.go:98-107 | A clash: a key with the pointer prefix twice beside the plain pointer gives it two identities, which the validator reports. |

## Left out

- LoopRegions.ForcedForPreserves: the mini language has integers, assignments, receives, if, switch and select clauses, loops and closures; labels, goto, fallthrough, return values and panics are not in it.
- ChannelRange.DeclaringRangePreserves: asks that the range variable is not the channel variable itself, that the generated name is fresh and that the body neither assigns nor declares anew the channel variable (ReassignedChannelDiverges shows that the assignment matters); a program that no longer compiles is one that is stuck, and declared variables begin at zero.
- SkipGraphNode.OfferKeepsIndex: assumes one bitstring per value, as the program builds its nodes; two bitstrings for one value would put one id at two places of the graph.
- SkipGraphRouting.SearchOnNodeID: sending the package to the next node is the returned record; channels between nodes are not modelled, and a route is any sequence of such forwards.
- ParseState.PairingState.HandleRegionOp: times are natural numbers, so the sentinel -1 is below all of them; channel activity, audit reason counts and attempt ids are not part of the state.
- MessageIds.RunsConserveIds: runs consist of sends, receives and name logs; a chosen case that is neither a send nor a receive only adds an event without an id.
- ParseState.PairingState.EmitSelectChosenCase: the attempt and commit events of atomic mode and the memory of the last chosen case are not modelled.
- AuditAgreement.AuditSummary: the map of receives counted elsewhere is never filled by the program and is left out; audit reason counts are not modelled.
- Deadlock.DeadlockState.DeadlockCycleEvent: the report lists goroutines and channels instead of formatted strings, and the time window is a parameter.
- LiveHandOff.DeliveryIsExact: an event is represented by its sequence number; a failed write of the snapshot, which ends the session before any live event, is left out, as are the timeouts: the snapshot is taken at any moment.
- SelectLogs.SelectState.HandleSelectLog: logs are taken as parsed fields; attempt candidates, dropped-case events and the fallback by stack frames are not modelled.
- BlockAccounting.BlockState.OnBlockChan: times are reals; which channel a block is on is a heuristic and not modelled, and whether it found none is a flag of the event.
- BlockSummary.SummarizeBlocked: figures are keyed by goroutine rather than by its printed name, and an empty map or a longest time of zero stands for a figure that is omitted.
- Broadcast.BroadcastIsExact: cancellation and step limits are not modelled; a step is one rendezvous of server and client rather than two goroutines' instructions.
- Topology.NormalizeTimeline: event names are told apart as far as the code does for channels; times, warnings and the merged audit summary are not modelled.
- Aliasing.PointersKeepTheirIdentity: asks that the key equals the pointer field wherever there is one, as the parser writes them, and that the field is not a bare goroutine suffix; timelines that give a pointer other keys are not covered.
- RegionLabels.SendLabelRoundTrip: letters are lowered in ASCII only.
- Sessions over HTTP and WebSocket, process control, file writing, environment lookups and decoding of binary traces are plumbing and not modelled; the environment's skip list is a parameter.
- Heuristics (channel inference for blocks, role guesses, quiescence, synthesized sends, buffer depths) and deduplication would add only easy members.
- Leave messages, tickers and the stability check of the skip graph are time-driven and do not keep the invariants above.
- The browser code and the generated workloads are not modelled.
