# wlanpi-core: capture fan-out, network profiles, tokens, scans

Proofs about the parts of wlanpi-core that keep state while other things happen:

- **Live capture fan-out.** A byte framer cuts dumpcap output into pcapng blocks and remembers the current
  section's header; sessions, owners and bounded subscriber queues change between the suspension points of one
  event loop. An independent reader at the far end decodes what was delivered.
- **Network profiles.** The namespace service deletes and creates netdevs, moves radios between network
  namespaces, records what it created, and undoes all of it; the profile code applies a list of entries, rolls
  back, and records which profile is active. Any command may fail, and other tools may act in between.
- **Tokens.** Two tables of keys and tokens, and a lifetime measured by the boot clock or by the wall clock.
- **Scans.** Concurrent active scans that pause monitors under a shared claim.
- **Text.** SSIDs as printed by wpa_supplicant and iw, and values written for wpa_supplicant to read.
- **Secrets.** A profile read without its secrets, edited, and written back.

## How it is organised

Each part has a specification on values, laws about it, and a class in the source's own shape whose methods are
proved equal to the specification:

| part | specification | laws | class |
|---|---|---|---|
| framer | `Pcapng`, `Framer` | `FramerLaws`, `CaptureLaws` | `Framer.Client` |
| reader | `Reader` | `ReaderLaws` | `Reader.PcapngReader` |
| sessions | `Sessions` | `SessionLaws`, `SessionEffects`, `SessionEnds` | `Manager.ConnectionManager` |
| kernel and namespace service | `Netns`, `Service`, `Sorting` | `NetnsLaws`, `FindLaws`, `ServiceLaws`, `EntryLaws`, `UndoLaws`, `Ownership`, `Records`, `Isolation`, `StartFailure`, `UndoRuns`, `Layout`, `Atomic`, `AtomicExact`, `Failures`, `RoundTrip`, `Outcomes` | `Host.NetworkNamespaceService` |
| profiles | `Profiles` | `ProfileLaws`, `RequestLaws`, `Transaction`, `Switching`, `LeftAlone` | `ConfigStore.NetworkConfig` |
| tokens | `Tokens` | `TokenLaws` | `TokenManager.TokenStore` |
| scans | `Scans` | `ScanLaws` | `Scans.ActiveScans` |
| text | `Escapes` | `EscapeLaws`, `Utf8Laws` | |
| secrets | `Secrets` | `SecretLaws` | methods of `Secrets` |

Failing commands are a list of outcomes that the world carries (`verdicts`): the next command takes the next
outcome, and an empty list means success from there on. Statements about "whatever fails" hold for every such list.
Other tools' steps are arbitrary new worlds, as long as they leave Core's own files alone.

## What the proofs found

Where a promise does not hold of the code in full, the laws give an input that breaks it and the exact condition
under which it holds.

- `create_interface` reports success for a name that already exists. A preparation then records, as Core's, a
  netdev that another tool made, and undoing the entry deletes it (`Ownership.ClashLosesForeign`). It records its
  own netdev exactly when no other one clashes beforehand (`Ownership.ClaimExactly`).
- A failed preparation restores the layout, whichever command failed, exactly when no other netdev of the radio
  has the entry's display name or meets a namesake on the way (`AtomicExact.AtomicExactly`; a radio that loses a
  monitor: `AtomicExact.ExampleLosesSibling`). A first delete that fails after a namespace was created leaves that
  namespace behind (`AtomicExact.ExampleLeavesSpace`).
- Reverting a netdev drops its record before the first command. If that command or a later one fails and the undo
  works, a netdev in root is still there, or there again, but not Core's any more, and no later deactivation touches it
  (`Failures.NotTriedAgain`, `Failures.ExampleForgotten`).
- When a prepared entry's services fail to start, the revert looks the entry up again, without asking whether it
  may undo what it finds, and can delete another tool's netdev on another radio
  (`UndoRuns.StartFailureLosesStranger`). A root netdev that is not Core's and not on the entry's radio is lost
  exactly when the entry is to be renamed, its interface name is taken in its own namespace, the netdev has that
  name in root and is not managed, the start fails and the revert's next command works
  (`StartFailure.HarmExactly`). Otherwise the revert takes down, or deletes, what is Core's or the entry's own; what
  becomes of the new netdev is `StartFailure.NewNetdevStays`.
- The claim that all iwlwifi scans share is keyed by namespace: two such scans can overlap exactly when they are in
  different namespaces, whatever they pause (`ScanLaws.OverlapExactly`).
- The monitors to pause are listed before the claim, so the list can be stale and a scan can leave up a monitor it
  found down (`ScanLaws.StaleListLeavesMonitorUp`, `ScanLaws.LeavesAsFound`).
- A late subscriber decodes what a full reader decodes, for all later blocks, exactly when no interface was
  described after its section's first packet (`ReaderLaws.LateJoinExactly`; a capture that tells them apart:
  `ReaderLaws.LateInterfaceLost`).
- The text of an SSID that is not UTF-8 decodes to its bytes again exactly when there is no backslash in it but
  perhaps at its end (`EscapeLaws.RecoversExactly`).
- A secret stored as the empty string does not survive reading a profile and writing it back
  (`SecretLaws.ReadEditWrite`).
- The default profile leaves a radio alone if none of its netdevs is Core's. A radio that is partly Core's is taken with
  everything on it, another tool's monitor included (`LeftAlone.SiblingsTravel`, `LeftAlone.DefaultMovesSibling`).
- A token whose lifetime does not reach into another whole second is never good (`TokenLaws.EverGood`).
- tests/scenarios/ACTIVATION_OUTCOMES.md says current.txt is unchanged after a failed activation. The code replaces
  what was recorded by `default` (`Transaction.ExampleForgets`), and leaves it unchanged exactly when the profile is
  not there, was declined, or was found invalid while another one was active, or `default` was recorded already
  (`ProfileLaws.RecordAfter`). The model follows the code.

## Model

| member | source | states |
|---|---|---|
| FramerLaws.ChunkInvariance | wlanpi_core/streaming/connection_manager.py:389-447 | for every byte stream, damaged or not, and every split into chunks: the blocks, the stored header and its completeness are those of feeding it whole, and what is left over would behave alike on any further input |
| FramerLaws.AlikeFeeds | wlanpi_core/streaming/connection_manager.py:402-411 | two leftovers that differ only in unsynced junk give the same blocks and headers on any further input |
| FramerLaws.RunPlus | wlanpi_core/streaming/connection_manager.py:401-447 | framing a buffer with more bytes behind it is framing it first and then what was left with those bytes |
| FramerLaws.BlocksAreCutFromInput | wlanpi_core/streaming/connection_manager.py:396-447 | for arbitrary input the blocks are disjoint substrings in order, each with agreeing lengths, and the first after any gap is a Section Header Block |
| FramerLaws.Lossless | wlanpi_core/streaming/connection_manager.py:396-447 | any whole sections, in either byte order and behind junk without a section magic, come out as exactly the original blocks |
| FramerLaws.HeaderIsReplay | wlanpi_core/streaming/connection_manager.py:437-447 | the stored header is always the latest section's blocks before its first packet block |
| FramerLaws.FeedExtendsLog | wlanpi_core/streaming/connection_manager.py:389-447 | a chunk extends the blocks framed so far by whole sections, and header and order stay those of the longer log |
| Framer.Client.Blocks | wlanpi_core/streaming/connection_manager.py:389-447 | the loop that deletes from the buffer returns the specified blocks and leaves the specified state |
| Framer.Client.Turn | wlanpi_core/streaming/connection_manager.py:401-447 | one turn of that loop makes the progress the specification's step makes |
| CaptureLaws.CaptureReadsBack | tools/capture_harness/capture_harness.py:69-116 | a capture of any sections, interfaces, packets and other blocks, written in either byte order: however its bytes are chunked the framer cuts the blocks written, and however they arrive the reader gives the packets captured, each with its interface's link type |
| CaptureLaws.HeaderIsLeading | wlanpi_core/streaming/connection_manager.py:437-447 | after it the stored header is the last section's header block and what was written before its first packet |
| CaptureLaws.DamageCostsOnlyItself | wlanpi_core/streaming/connection_manager.py:402-431 | whole sections, damage, whole sections: if the damage does not begin a block and no section begins in it, exactly the blocks of both are framed |
| CaptureLaws.ClaimsTooMuch | tools/capture_harness/capture_harness.py:106-116 | a packet block that claims more bytes than it has gives what is there, one too short for its fixed fields gives nothing, and neither changes the interfaces |
| CaptureLaws.ReaderDropsDamage | tools/capture_harness/capture_harness.py:69-89 | bytes that do not begin a block, by their length field, are dropped by the reader one by one, and it goes on as if they had not been there |
| ReaderLaws.MessageInvariance | tools/capture_harness/capture_harness.py:69-89 | the reader decodes the same packets however the bytes are cut into messages |
| ReaderLaws.ReadsBlocks | tools/capture_harness/capture_harness.py:69-116 | fed whole well-formed blocks, it handles each of them once, in order, and keeps nothing back |
| ReaderLaws.LateJoin | wlanpi_core/streaming/connection_manager.py:362-371 | header replayed at any point and later blocks: exactly the packets, with link types, that a reader of everything decodes from there on, if no interface came after a first packet |
| ReaderLaws.LateJoinExactly | wlanpi_core/streaming/connection_manager.py:437-447 | the two agree on every possible continuation if and only if the current section has no interface described after its first packet |
| ReaderLaws.LateJoinNeedsInterfacesFirst | wlanpi_core/streaming/connection_manager.py:437-447 | for every capture with a late interface there is a continuation on which the two readers differ |
| ReaderLaws.LateInterfaceLost | wlanpi_core/streaming/connection_manager.py:437-447 | a concrete capture of four blocks, and a packet to which the full reader gives its link type and the late one none |
| Reader.PcapngReader.FeedBytes | tools/capture_harness/capture_harness.py:69-89 | the loop over the buffer returns the specified packets and leaves the specified state |
| Reader.PcapngReader.HandleBlock | tools/capture_harness/capture_harness.py:91-116 | one block changes the interface table and adds packets as specified |
| SessionLaws.StepKeeps | wlanpi_core/streaming/connection_manager.py:92-256 | every code segment between two suspension points keeps the registries and every subscriber's delivery in order |
| SessionLaws.EveryRun | wlanpi_core/streaming/connection_manager.py:287-371 | in every interleaving from the start: ownership agrees in both directions, sessions and owners are in bijection, lists hold exactly the open subscriptions, at most four, nobody owns and subscribes |
| SessionLaws.NoGaps | wlanpi_core/streaming/connection_manager.py:156-213 | the capture bytes sent to a subscriber are always a block-aligned prefix of the replayed header and the blocks since its join |
| SessionLaws.EndAfterEverything | wlanpi_core/streaming/connection_manager.py:215-256 | while subscribed: after eviction only a close is left; without it, an ended session's subscriber has every block sent, in flight or queued ahead of the end event |
| SessionLaws.DeliveredWhole | wlanpi_core/streaming/connection_manager.py:215-256 | on every run, whoever was sent the end event was sent the replayed header and every block since the join, each once, and the session is over |
| SessionLaws.EndMarkMeansWhole | wlanpi_core/streaming/connection_manager.py:156-170 | a sender that comes to the end mark has sent all of that, the end event last |
| SessionLaws.SubscriberDecodes | wlanpi_core/streaming/connection_manager.py:449-467 | what a subscriber's reader decodes is what a reader of the whole capture decodes from the join on, up to where delivery stopped |
| SessionEffects.EndTells | wlanpi_core/streaming/connection_manager.py:215-256 | when a capture ends, by itself or by a stop, each listed subscriber with room for two more items has the end event and the end mark behind everything it had queued and is not closing, any other one has only a close; the session, its list and the owner's claims are gone, and nobody else changes |
| SessionEffects.ChunkServes | wlanpi_core/streaming/connection_manager.py:449-476 | each block framed is put behind what every subscriber with room has queued, and one without room is unlisted with only a close left |
| SessionEffects.AttachesExactly | wlanpi_core/streaming/connection_manager.py:321-371 | a subscription is attached if and only if its session still runs with fewer than four subscribers, and is then to be sent the announcement and the blocks before the section's first packet |
| SessionEffects.EndsDetach | wlanpi_core/streaming/connection_manager.py:121-143 | every way a subscription ends leaves the socket without one, listed by nobody, and everybody else as before |
| SessionEffects.SenderDelivers | wlanpi_core/streaming/connection_manager.py:156-199 | otherwise a sender takes items one at a time, in order, and what it delivered is counted once |
| SessionEffects.ClaimsAllOrNone | wlanpi_core/streaming/connection_manager.py:92-110 | a start claims all its interfaces, or changes nothing if another socket has one |
| SessionEffects.FailedStartFrees | wlanpi_core/streaming/connection_manager.py:112-119 | a start that fails frees exactly what it claimed |
| SessionEffects.ClosesExactly | wlanpi_core/streaming/connection_manager.py:449-467 | a step closes a subscriber that was not closing if and only if what its session has for it does not fit its queue |
| SessionEffects.ClosedForLackOfRoom | wlanpi_core/streaming/connection_manager.py:200-256 | on every run, a subscriber that is closing had, at some earlier step, no room for what that session had for it |
| SessionEffects.QueuesBounded | wlanpi_core/streaming/connection_manager.py:449-467 | on every run no queue holds more than 1024 items |
| SessionEnds.HeardToTheEnd | wlanpi_core/streaming/connection_manager.py:156-199 | once a session is over, a subscriber's sender whose deliveries succeed needs nobody else to send all that is left, the end event last, and then the subscription is over |
| SessionEnds.EndIsHeard | wlanpi_core/streaming/connection_manager.py:215-256 | so it is for every listed subscriber with room when a capture ends |
| SessionEnds.WatchedToTheEnd | wlanpi_core/streaming/connection_manager.py:287-476 | for any chunks that frame up to 1021 blocks there is a run from the empty manager in which one socket captures them and another one is sent the announcement, each block once, and the end event |
| SessionEnds.NothingAfterStop | wlanpi_core/streaming/connection_manager.py:840-880 | from the moment a stop begins, whatever runs next, no block is added to the session it stops |
| SessionEnds.TimeoutEnds | wlanpi_core/streaming/connection_manager.py:184-199 | after a delivery times out nothing more is delivered: the sender can only close or give up, and either way the subscription is over |
| SessionEnds.MayAlwaysUnsubscribe | wlanpi_core/streaming/connection_manager.py:373-379 | a subscriber can unsubscribe at any moment, and a delivery under way may fail or time out; either way it is subscribed to nothing and listed by nobody |
| SessionEnds.MayAlwaysGo | wlanpi_core/streaming/connection_manager.py:498-505 | a socket that is not in the middle of a command, or whose start is under way, can always disconnect, and then nothing in the registries names it |
| SessionEnds.LeavesNothing | wlanpi_core/streaming/connection_manager.py:498-505 | a socket that is gone owns no interface and no session and is listed by nobody |
| Manager.ConnectionManager.ClaimInterfaces | wlanpi_core/streaming/connection_manager.py:92-110 | all interfaces are claimed or none, and the conflicts are those of other owners |
| Manager.ConnectionManager.ReleaseInterfaces | wlanpi_core/streaming/connection_manager.py:112-119 | exactly the socket's own claims go |
| Manager.ConnectionManager.ClearSubscription | wlanpi_core/streaming/connection_manager.py:121-143 | the expected subscription is detached and nobody lists it any more; if the current one is another, nothing changes |
| Manager.ConnectionManager.CloseSubscriptionQueue | wlanpi_core/streaming/connection_manager.py:200-213 | everything queued is dropped and only the close is left |
| Manager.ConnectionManager.QueueSubscriberBlock | wlanpi_core/streaming/connection_manager.py:449-467 | every listening subscriber gets the block, or is evicted and unlisted when it has no room |
| Manager.ConnectionManager.BroadcastChunk | wlanpi_core/streaming/connection_manager.py:469-476 | a chunk is framed and its blocks queued in order |
| Manager.ConnectionManager.FinishSession | wlanpi_core/streaming/connection_manager.py:215-256 | the loop over the list does what EndTells says: with room for both, every listed subscriber keeps its queue and has the end event and the end mark behind it; the session and its list are gone |
| Manager.ConnectionManager.LaunchCapture | wlanpi_core/streaming/connection_manager.py:800-825 | stream task and session appear together, and the invariant survives it |
| Manager.ConnectionManager.SubscribeAttach | wlanpi_core/streaming/connection_manager.py:321-371 | the subscriber is listed, with the header queued first, if the session still has room; the invariant survives it |
| Manager.ConnectionManager.StreamEnds | wlanpi_core/streaming/connection_manager.py:785-800 | the last segment of a stream task tells the subscribers the same, and the invariant survives it |
| Manager.ConnectionManager.StopEnds | wlanpi_core/streaming/connection_manager.py:868-880 | so does the last segment of a stop |
| Manager.ConnectionManager.TakeItem | wlanpi_core/streaming/connection_manager.py:161-170 | the sender takes the oldest item, or ends at the end mark; the invariant survives it |
| Manager.ConnectionManager.ItemSent | wlanpi_core/streaming/connection_manager.py:168-199 | a delivered item is counted as sent, and after a close the subscription is over; the invariant survives it |
| Netns.FindLive | wlanpi_core/services/network_namespace_service.py:807-839 | the netdev found is a preferred one, and none is found only if there is none |
| Netns.RecordOf | wlanpi_core/services/network_namespace_service.py:534-554 | ownership rests on a record of the netdev's name that holds its wdev id |
| FindLaws.FindsInOrder | wlanpi_core/services/network_namespace_service.py:807-839 | the netdev with the interface name in the entry's own place, or else in root, or else the oldest in Core's other namespaces; only if there is none, the one with the display name in the entry's own place; and no other |
| FindLaws.AsksForRecords | wlanpi_core/services/network_namespace_service.py:534-554 | a netdev is Core's if and only if a record of its name holds its wdev id; one where it is settles it, otherwise the first one left behind is moved there, and no other record changes |
| FindLaws.SweepsExactly | wlanpi_core/services/network_namespace_service.py:630-652 | exactly the markers go that no longer name the namespace they were made for |
| UndoLaws.UndoSafe | wlanpi_core/services/network_namespace_service.py:364-395 | whatever fails, deactivating an entry leaves every root netdev that is not Core's, and everything in a namespace that is not Core's, exactly as it was |
| UndoLaws.RevertUnharmed | wlanpi_core/services/network_namespace_service.py:420-496 | the same for a revert of a radio that is Core's to undo |
| UndoLaws.ReturnAllSafe | wlanpi_core/services/network_namespace_service.py:663-693 | returning Core's namespaces, whatever fails, touches nothing outside them |
| UndoLaws.AllUndoSafe | wlanpi_core/utils/network_config.py:463-473 | so does a whole rollback, entry after entry |
| UndoRuns.StrangersSpared | wlanpi_core/services/network_namespace_service.py:595-652 | in every run with other tools' steps in between: once Core has no record of a netdev, no later undo deletes, moves or changes it while it is in root, and no activation of an entry on another radio does, failed starts included, save in the one exactly described case |
| UndoRuns.StartFailureLosesStranger | wlanpi_core/services/network_namespace_service.py:331-337 | a concrete run of one activation in which that case occurs: another tool's monitor on another radio is deleted |
| UndoRuns.OutsidersSpared | wlanpi_core/services/network_namespace_service.py:630-652 | once Core has no marker for a namespace's identity, no operation of Core's removes it, no undo takes a radio out of it or changes a netdev in it, and an activation does only on the entry's own radio |
| UndoRuns.StepKeeps | wlanpi_core/services/network_namespace_service.py:521-554 | every operation keeps what is not recorded as Core's unrecorded for good |
| UndoRuns.OwnershipFollows | wlanpi_core/services/network_namespace_service.py:517-554 | over any number of other tools' steps: what Core created and still has its name is Core's wherever it was moved, what came to exist since is not, and a namespace is Core's exactly if it was and kept its identity |
| Ownership.ClaimExactly | wlanpi_core/services/network_namespace_service.py:521-528 | a successful preparation records a netdev it created if and only if no other netdev clashed; otherwise it created none |
| Ownership.ArrivedTaken | wlanpi_core/adapters/interface.py:65-68 | when the create runs, the name is taken if and only if a netdev stood there or travels along and keeps its name |
| Ownership.ClashLosesForeign | wlanpi_core/adapters/interface.py:65-68 | an activation and a deactivation that delete another tool's netdev on another radio |
| EntryLaws.PreparedWorks | wlanpi_core/services/network_namespace_service.py:894-987 | preparing touches nothing off the live netdev's radio, whatever fails |
| EntryLaws.DeactivatedWorks | wlanpi_core/services/network_namespace_service.py:364-395 | deactivating touches nothing off the live netdev's radio, whatever fails |
| EntryLaws.ActivatedWorks | wlanpi_core/services/network_namespace_service.py:243-337 | activating keeps the kernel's guarantees and, whatever fails, touches only the radio it found; if the start fails, also the one the revert finds |
| StartFailure.HarmExactly | wlanpi_core/services/network_namespace_service.py:331-337 | activating costs a netdev that is not Core's, on another radio, its existence if and only if the start fails, the revert's next command works and the netdev is exposed; in every other case, whatever fails, it stays as and where it is |
| StartFailure.RevertReaches | wlanpi_core/services/network_namespace_service.py:807-839 | on another radio, the revert after a failed start finds a netdev in one of Core's namespaces, or one in root that is managed or exposed |
| StartFailure.ForeignSpaceStays | wlanpi_core/services/network_namespace_service.py:243-337 | activating, with every way to fail, removes no namespace that is not Core's and takes no radio out of one but the entry's own |
| StartFailure.NewNetdevStays | wlanpi_core/services/network_namespace_service.py:331-337 | after a failed start whose revert can run, the new netdev remains if and only if the entry is renamed and another netdev in sight has its interface name, or only taking it down was needed |
| LeftAlone.BusyExactly | wlanpi_core/services/network_namespace_service.py:272-284 | activating is refused as in use if and only if the netdev that answers to the entry has a mode Core never sets or is used by another tool; then, and when none answers, only stale markers are touched, and the report is in use, or provisioned |
| LeftAlone.BusyIsAcceptable | wlanpi_core/utils/network_config.py:690-724 | an entry in use leaves net, namespaces and records as they were, does not fail the activation, and is not among what a rollback takes down |
| LeftAlone.HandsBack | wlanpi_core/services/network_namespace_service.py:364-395 | deactivating an entry whose netdev in root another tool has come to use issues no command, and the netdev has no record in root any more |
| Atomic.FailureAtomic | wlanpi_core/services/network_namespace_service.py:855-987 | one command fails and the undo succeeds: layout, records and namespaces are as before, except that a first delete that fails late leaves the namespace just created |
| AtomicExact.AtomicExactly | wlanpi_core/services/network_namespace_service.py:855-892 | every failure restores the layout if and only if no other netdev of the radio has the display name or loses its own on the way |
| AtomicExact.LosesSibling | wlanpi_core/services/network_namespace_service.py:868-877 | otherwise a failure of the last command loses that netdev for good |
| AtomicExact.ExampleLosesSibling | wlanpi_core/services/network_namespace_service.py:868-877 | a concrete radio whose second netdev, another tool's monitor, is lost though every undo command works |
| AtomicExact.ExampleLeavesSpace | wlanpi_core/services/network_namespace_service.py:935-959 | a concrete late delete that leaves an empty namespace counted as Core's |
| Failures.StatusExactly | wlanpi_core/services/network_namespace_service.py:894-987 | how an activation ends, for every list of outcomes: the first failing command decides; a move of the radio makes it return failure, creating the namespace, the deletion, the creation, bringing up and the start of services raise, and without any the entry is up |
| Failures.FailedDeactivation | wlanpi_core/services/network_namespace_service.py:476-496 | a deactivation raises if and only if it comes to recreate the netdev in root and the deletion, the move or the creation fails; if the undo works, layout and namespaces are as before, but the netdev has no record where it is any more |
| Failures.NotTriedAgain | wlanpi_core/services/network_namespace_service.py:476-496 | so a failed deactivation in root is final: the netdev stands there, is not Core's, and deactivating the entry again does nothing |
| Failures.ExampleForgotten | wlanpi_core/services/network_namespace_service.py:476-496 | a concrete radio with a monitor of Core's whose deletion fails |
| Isolation.AcceptedExactly | wlanpi_core/schemas/network/network.py:268-299 | the check accepts exactly the profiles whose entries are pairwise distinguished |
| Isolation.EntriesIsolated | wlanpi_core/schemas/network/network.py:268-299 | once an entry's netdev stands, no operations on other entries delete, move or rename it, whatever fails |
| Isolation.ActivationApart | wlanpi_core/services/network_namespace_service.py:243-337 | activating, even when the start fails and is reverted, leaves alone a radio that does not answer to the entry |
| Isolation.RevertFindsOwn | wlanpi_core/services/network_namespace_service.py:331-337 | the revert after a failed start finds the new netdev if and only if no other one answers to the interface name |
| RoundTrip.BackToBase | wlanpi_core/services/network_namespace_service.py:420-496 | entry by entry, activate then deactivate, in any order: every radio, netdev and namespace is as before, and no record is left |
| RoundTrip.OnlyUpMatters | wlanpi_core/utils/network_config.py:678-724 | two histories that end with the same entries up end in the same layout, namespaces and records |
| RoundTrip.SharedNamespace | wlanpi_core/services/network_namespace_service.py:771-793 | a shared namespace exists, and is Core's, exactly while some entry in it is up |
| RoundTrip.GoesUp | wlanpi_core/services/network_namespace_service.py:894-987 | activating an entry brings up exactly that entry besides the others |
| RoundTrip.GoesDown | wlanpi_core/services/network_namespace_service.py:476-496 | deactivating it takes down exactly that entry |
| RoundTrip.AnyOrder | wlanpi_core/utils/network_config.py:825-839 | after any sequence of activations and deactivations the state is the one determined by the entries up |
| Switching.ActivationAtomic | wlanpi_core/utils/network_config.py:577-647 | on a clean system or with a profile up that is torn down first, at most one command failing after that: the activation succeeds with every entry up and is recorded, or every radio, namespace and record is as before any profile and the default is recorded |
| Switching.ActivateThenDeactivate | wlanpi_core/utils/network_config.py:825-850 | activating a profile and deactivating it, forced or not, both answer success, and the second leaves every radio, netdev, namespace and record as before the first |
| Switching.SwitchThenDeactivate | wlanpi_core/utils/network_config.py:577-647 | a forced switch from any profile that is up leaves the new one up over the original system, and deactivating that restores it |
| Switching.ProfilesComeAndGo | wlanpi_core/utils/network_config.py:537-850 | over any run of adding, editing, activating, switching, deactivating, deleting and reverting, without failures, exactly the recorded profile is up, and while none is, everything is as at the start |
| Switching.TakesDown | wlanpi_core/utils/network_config.py:463-473 | deactivating all entries of a profile that is up puts everything back, if no command of it fails, whatever fails later |
| Outcomes.AllFree | wlanpi_core/services/network_namespace_service.py:364-395 | up to the failing command, deactivating entries does what it would do without a failure to come |
| Transaction.ExampleRollsBack | wlanpi_core/utils/network_config.py:577-647 | a concrete profile that meets the conditions and whose move fails: its radio is back in root, the namespace is gone, and the default is recorded |
| Transaction.ExampleForgets | wlanpi_core/utils/network_config.py:632-647 | the same with another profile recorded before: it is forgotten |
| Transaction.TriesUp | wlanpi_core/services/network_namespace_service.py:307-337 | one entry with at most one failure comes up, or nothing of it remains |
| Transaction.ApplyTries | wlanpi_core/utils/network_config.py:678-724 | the entries the loop lists as activated are exactly those that are up |
| Transaction.RollsBack | wlanpi_core/utils/network_config.py:463-473 | a rollback takes down exactly the listed entries |
| ProfileLaws.RecordedMeansActivated | wlanpi_core/utils/network_config.py:622-647 | a profile other than the default is recorded only while the last write was its own activation with all outcomes acceptable |
| ProfileLaws.NeverDangling | wlanpi_core/utils/network_config.py:537-552 | no run of requests leaves a profile recorded that does not exist |
| ProfileLaws.ActivatedIsCameUp | wlanpi_core/utils/network_config.py:690-724 | what a rollback gets is exactly what came up, and only an exception leaves entries without an outcome |
| ProfileLaws.RecordAfter | wlanpi_core/utils/network_config.py:598-647 | a successful activation is recorded; a failed one leaves current.txt unchanged if and only if the stated conditions on profile, record and validity hold, and records the default otherwise |
| ProfileLaws.InvalidChangesNothing | wlanpi_core/utils/network_config.py:598-612 | an invalid profile, the default included, while another one is active: radios, namespaces, files and the record stay, and only the default's check may tidy Core's records |
| ProfileLaws.RequestUndoSafe | wlanpi_core/utils/network_config.py:743-759 | deactivating, deleting or reverting everything harms nothing that is not Core's, whatever fails |
| ProfileLaws.ActivationTeardownSafe | wlanpi_core/utils/network_config.py:598-620 | nor does an activation before it applies its entries: the checks, the teardown of the old profile, or that of an active profile gone invalid |
| ProfileLaws.RollbackSafe | wlanpi_core/utils/network_config.py:632-647 | nor does the rollback of a failed activation |
| RequestLaws.BringsHome | wlanpi_core/services/network_namespace_service.py:420-431 | without failures, returning Core's namespaces moves exactly the radios in them to root and deletes exactly those, with their markers, that nothing else is using |
| RequestLaws.TravellersHandedBack | wlanpi_core/services/network_namespace_service.py:663-693 | when a radio goes home, its netdevs that were Core's have no record in the namespace they leave any more; if the move fails each is on record there; records of other names stay |
| RequestLaws.DropsExactly | wlanpi_core/services/network_namespace_service.py:771-793 | a namespace goes if and only if nothing is left in it and the delete works; its marker stays as long as it is there |
| RequestLaws.FailedDeleteIsRetried | wlanpi_core/services/network_namespace_service.py:771-793 | so one whose delete failed is still Core's, and the next homecoming deletes it |
| RequestLaws.DeactivateExactly | wlanpi_core/utils/network_config.py:825-850 | refused if and only if there is no such profile, or without force it is not the recorded one, and then nothing changes; otherwise the entries are deactivated in order up to the first that raises, and, raised or not, Core's namespaces are returned and the default is recorded |
| RequestLaws.DeactivateBringsHome | wlanpi_core/utils/network_config.py:831-850 | after it, if no command fails once the entries are done, no radio is in any of Core's namespaces, whichever profile they came from |
| RequestLaws.DeleteExactly | wlanpi_core/utils/network_config.py:537-552 | an active profile is deleted only by force, and its file goes if and only if its deactivation did not raise; another one if and only if it has a file |
| RequestLaws.WriteExactly | wlanpi_core/utils/network_config.py:475-535 | a profile is added if and only if its name is neither taken nor the default's, and replaced if and only if it is there and not active; all others stay |
| RequestLaws.ActivateExactly | wlanpi_core/utils/network_config.py:577-612 | an activation is declined if and only if nothing is forced and a profile other than the default, or this one, is active, a recorded one that is gone not counting; it is found invalid if and only if an entry it would apply is; it never changes a file |
| RequestLaws.NamespacesFirst | wlanpi_core/utils/network_config.py:762-764 | entries are applied those in namespaces first, whatever fails |
| RequestLaws.RevertExactly | wlanpi_core/utils/network_config.py:743-759 | the profile in force is torn down, whatever is recorded, and the default is recorded |
| RequestLaws.RevertBringsHome | wlanpi_core/utils/network_config.py:743-759 | after it, if no command fails once the entries are torn down, no radio is in any of Core's namespaces |
| LeftAlone.SkippedExactly | wlanpi_core/services/network_namespace_service.py:595-606 | the default's activation skips an entry if and only if the netdev that answers to it has no record of its name in root, or is in a namespace without a matching marker; then only stale markers are touched |
| LeftAlone.ApplyExactly | wlanpi_core/utils/network_config.py:682-724 | applying the default's entries, whatever fails: a radio none of whose netdevs is Core's stays where it is, and a netdev on it is lost if and only if the revert of an entry with a failed start mistakes it for the entry's |
| LeftAlone.DefaultLeavesAlone | wlanpi_core/utils/network_config.py:577-647 | the same for activating the default profile as a whole: the checks, the teardown of the old profile, the entries, the rollback |
| LeftAlone.TornDownUntouched | wlanpi_core/utils/network_config.py:463-473 | tearing down any profile, whatever fails, leaves such a radio and its netdevs exactly as they were |
| LeftAlone.SiblingsTravel | wlanpi_core/services/network_namespace_service.py:923-987 | an entry that comes up takes its radio's other netdevs along, whoever made them; one stays where it is if and only if the radio is in the entry's place already |
| LeftAlone.DefaultMovesSibling | wlanpi_core/utils/network_config.py:682-705 | a concrete radio with a netdev of Core's and another tool's monitor, which the default profile moves out of root |
| Host.NetworkNamespaceService.FindLive | wlanpi_core/services/network_namespace_service.py:807-839 | the search over the inventory finds the specified netdev and drops stale markers |
| Host.NetworkNamespaceService.CoreNamespaces | wlanpi_core/services/network_namespace_service.py:630-652 | exactly the namespaces whose identity matches are listed, and exactly the other markers go |
| Host.NetworkNamespaceService.Owns | wlanpi_core/services/network_namespace_service.py:534-554 | the search over the records answers ownership and moves a record left behind |
| Host.NetworkNamespaceService.Claim | wlanpi_core/services/network_namespace_service.py:521-528 | the netdev under the name is recorded |
| Host.NetworkNamespaceService.RestoreLive | wlanpi_core/services/network_namespace_service.py:855-892 | the best-effort undo, command by command, is the specified one |
| Host.NetworkNamespaceService.PrepareRoot | wlanpi_core/services/network_namespace_service.py:894-921 | the commands in order, with every early exit, are the specified preparation, and touch only the live netdev's radio |
| Host.NetworkNamespaceService.PrepareNamespace | wlanpi_core/services/network_namespace_service.py:923-987 | the same for a namespace entry |
| Host.NetworkNamespaceService.RecreateInRoot | wlanpi_core/services/network_namespace_service.py:476-496 | the same for the recreate in root |
| Host.NetworkNamespaceService.RevertToRoot | wlanpi_core/services/network_namespace_service.py:433-464 | the same for the revert of one entry, which harms nothing that is not Core's if it may undo what it finds |
| Host.NetworkNamespaceService.ReturnHome | wlanpi_core/services/network_namespace_service.py:426-431 | the loop over Core's namespaces is the specified return, and harms nothing outside them |
| Host.NetworkNamespaceService.ReturnNamespacePhys | wlanpi_core/services/network_namespace_service.py:663-693 | the loop over radios moves each home and hands back exactly the netdevs that were Core's; nothing outside the namespace is harmed |
| Host.NetworkNamespaceService.DeleteNamespaceIfEmpty | wlanpi_core/services/network_namespace_service.py:771-793 | an empty namespace goes with its marker; a failed delete keeps the marker, and nothing else is harmed |
| Host.NetworkNamespaceService.IsCoreManaged | wlanpi_core/services/network_namespace_service.py:595-606 | false if and only if the netdev found is in root without a record of its name that holds its wdev id, or in a namespace without a matching marker; records are tidied as specified |
| Host.NetworkNamespaceService.ActivateConfig | wlanpi_core/services/network_namespace_service.py:243-337 | one entry's activation with each outcome is the specified one; a radio in use is left as it is and reported so; otherwise it harms only what HarmExactly says |
| Host.NetworkNamespaceService.DeactivateConfig | wlanpi_core/services/network_namespace_service.py:364-395 | one entry's deactivation is the specified one; a netdev in use is handed back as it is, and nothing that is not Core's is harmed |
| ConfigStore.NetworkConfig.ApplyEntries | wlanpi_core/utils/network_config.py:678-724 | the loop collects the specified outcomes and activated entries, and stops where it should |
| ConfigStore.NetworkConfig.RollBack | wlanpi_core/utils/network_config.py:463-473 | the loop deactivates every listed entry, and harms nothing that is not Core's |
| ConfigStore.NetworkConfig.ActivateLocked | wlanpi_core/utils/network_config.py:577-647 | the whole activation, with the file written on each path, is the specified one; what current.txt says afterwards; and the default profile leaves alone what is not Core's, as DefaultLeavesAlone says |
| ConfigStore.NetworkConfig.DeactivateLocked | wlanpi_core/utils/network_config.py:825-850 | entries until one raises, then the default recorded and Core's namespaces returned; nothing that is not Core's is harmed |
| ConfigStore.NetworkConfig.Delete | wlanpi_core/utils/network_config.py:537-552 | the file goes only after a deactivation that did not raise; nothing that is not Core's is harmed |
| ConfigStore.NetworkConfig.Revert | wlanpi_core/utils/network_config.py:743-759 | the active profile is torn down and the default recorded; nothing that is not Core's is harmed |
| TokenLaws.EveryRun | wlanpi_core/core/token.py:159-199 | in every run at most one key is active and every unrevoked token is that key's; rows only ever change by being revoked |
| TokenLaws.CreateAddsOne | wlanpi_core/core/token.py:201-283 | however often it retries, a successful create adds exactly one row, unrevoked, with the claims of its instant; with a key active no other row changes |
| TokenLaws.CreateExactly | wlanpi_core/core/token.py:212-281 | a create succeeds if and only if one of its first three draws is not refused and neither its token nor, when a key has to be made, its secret is taken |
| TokenLaws.FreshDrawWorks | wlanpi_core/core/token.py:216-256 | with a key active, an attempt the database does not refuse succeeds if its random id is new among that key's tokens |
| TokenLaws.VerifiesExactly | wlanpi_core/core/token.py:304-377 | for any store, token and clock, a token verifies if and only if an unrevoked row holds it whose key is active and signed it, exp is after iat, both boot claims or neither are there, and: in the boot of its bid the boot clock is before bexp; otherwise the wall clock is at least iat - 30 and before exp |
| TokenLaws.GoodUntil | wlanpi_core/core/token.py:297-377 | from its creation on, a token verifies if and only if neither it nor its device's tokens were revoked, the key was not rotated, and: in the issuing boot, less than its lifetime has passed by the boot clock; in any other, the wall clock is not more than 30 seconds before its issue and not past its expiry, in whole seconds |
| TokenLaws.RevokedForever | wlanpi_core/core/token.py:347-348 | a revoked token never verifies again |
| TokenLaws.RotationEndsAll | wlanpi_core/core/token.py:433-464 | nothing issued before a rotation verifies after it |
| TokenLaws.RevokedExactly | wlanpi_core/core/token.py:379-431 | a row is revoked if and only if a rotation, its own revocation or its device's came since |
| TokenLaws.ClocksAgree | wlanpi_core/core/token.py:297-327 | after a reboot the wall-clock rule never accepts beyond the boot rule's expiry, and ends less than one second before it |
| TokenLaws.EverGood | wlanpi_core/core/token.py:297-302 | a token is ever good if and only if its lifetime reaches into another whole second |
| TokenLaws.TooShort | wlanpi_core/core/token.py:301-302 | a half-second token issued on a whole second, which no clock accepts |
| TokenManager.TokenStore.TryCreate | wlanpi_core/core/token.py:216-256 | one transaction creates key and token as specified, or leaves the store as it was |
| TokenManager.TokenStore.CreateToken | wlanpi_core/core/token.py:212-281 | the retry loop gives the first attempt that is not refused, and succeeds if and only if one of three draws is usable |
| TokenManager.TokenStore.RotateKey | wlanpi_core/core/token.py:433-485 | a new key and all older tokens revoked, or nothing changed |
| TokenManager.TokenStore.RevokeToken | wlanpi_core/core/token.py:379-405 | the token's row is revoked; the answer says whether it was there and whether it changed |
| TokenManager.TokenStore.RevokeDeviceTokens | wlanpi_core/core/token.py:418-431 | exactly the device's rows are revoked, and those that changed are counted |
| TokenManager.TokenStore.VerifyToken | wlanpi_core/core/token.py:329-377 | valid if and only if an unrevoked row with an active key that signed it holds the token within its lifetime |
| ScanLaws.AlwaysExclusive | wlanpi_core/wpa/scan.py:65-83 | for any number of scans in any interleaving the held set is the disjoint union of the claims in flight |
| ScanLaws.RefusedTouchesNothing | wlanpi_core/wpa/scan.py:75-77 | on every run, a scan that ends refused was refused while another scan in flight held one of its names, and no step of it ever claimed anything or set a link |
| ScanLaws.IwlwifiApart | wlanpi_core/wpa/scan.py:565-572 | two iwlwifi scans in flight are never in the same namespace |
| ScanLaws.OverlapExactly | wlanpi_core/wpa/scan.py:65-74 | for any two iwlwifi scans with any pause lists: there is a run in which both are in flight if and only if they are in different namespaces |
| ScanLaws.NoneInsideAnother | wlanpi_core/wpa/scan.py:572-619 | no scan pauses, raises, lowers or restores a link inside another scan's claimed section |
| ScanLaws.LeavesAsFound | wlanpi_core/wpa/scan.py:573-619 | a scan whose clean-up commands succeed, whichever others fail, leaves everything as it found it if and only if the monitors on its list were still up when it claimed them |
| ScanLaws.AlwaysRestores | wlanpi_core/wpa/scan.py:596-619 | on every run, whichever of its commands failed, a scan that ends has issued the restore of every monitor on its list, and the lowering of its own link unless it found that up |
| ScanLaws.WhileScanning | wlanpi_core/wpa/scan.py:573-595 | while it scans, its link is up and every monitor on its list is down |
| ScanLaws.StaleListLeavesMonitorUp | wlanpi_core/wpa/scan.py:567-572 | a run in which a scan leaves up a monitor that was down when it claimed it |
| Scans.ActiveScans.Claim | wlanpi_core/wpa/scan.py:74-78 | all names are claimed or none, and refused exactly when one is held |
| EscapeLaws.DecodesPrinted | wlanpi_core/utils/network.py:10-19 | however each byte was printed, the decoder gives the bytes back |
| EscapeLaws.InvertsBothPrinters | wlanpi_core/utils/network.py:10-19 | so it inverts wpa_supplicant's printer and iw's |
| EscapeLaws.SsidTextExactly | wlanpi_core/utils/network.py:22-35 | only NULs become the empty text, and otherwise an SSID comes back unchanged if and only if it is UTF-8 |
| EscapeLaws.RecoversExactly | wlanpi_core/utils/network.py:33-35 | the text of an SSID, UTF-8 or not, decodes to its bytes again if and only if it has no backslash but perhaps its last byte |
| EscapeLaws.AmbiguousText | wlanpi_core/utils/network.py:33-35 | two different SSIDs with the same text |
| Utf8Laws.ValidExactly | wlanpi_core/utils/network.py:33-35 | the decoder takes as UTF-8 exactly the encodings, by the formulas of RFC 3629, of sequences of Unicode scalar values |
| Utf8Laws.SsidTextIsText | wlanpi_core/utils/network.py:22-35 | however an SSID was printed, its text is empty if and only if it has no byte but NULs, and otherwise its own bytes if and only if those are UTF-8 |
| EscapeLaws.SsidValueReadsBack | wlanpi_core/wpa/config.py:21-23 | an SSID value is read back exactly, for all bytes |
| EscapeLaws.PskValueReadsBack | wlanpi_core/wpa/config.py:26-34 | a passphrase is read back exactly, quotes and backslashes included, and a raw key as the same bytes |
| EscapeLaws.StringValueReadsBack | wlanpi_core/wpa/config.py:37-40 | an EAP string is read back exactly |
| SecretLaws.ReadEditWrite | wlanpi_core/schemas/network/network.py:329-378 | reading a profile and writing it back stores the same profile if and only if no secret is the empty string |
| SecretLaws.KeptFromSameKey | wlanpi_core/utils/network_config.py:486-509 | for any update: an entry changes only by secrets it did not send, psk and password each by itself, and those are the non-empty ones of the stored entry with the same namespace and interface |
| SecretLaws.EditStores | wlanpi_core/utils/network_config.py:486-535 | for any update: it is refused if and only if the merged lists are not valid; a list not sent stays; in one that is sent, every secret sent is stored, and one not sent is the stored one of the same namespace and interface if that is not empty, and none otherwise |
| SecretLaws.ViewShows | wlanpi_core/schemas/network/network.py:329-378 | the view shows every entry in order without its secrets, and of each secret whether it is there and not empty |
| SecretLaws.NewEntryGetsNone | wlanpi_core/utils/network_config.py:502-505 | an entry the stored profile does not have gets no secret but those sent |
| Secrets.KeepStoredSecrets | wlanpi_core/utils/network_config.py:486-509 | the loops over both dictionaries fill in exactly the specified secrets |
| Secrets.ByKey | wlanpi_core/utils/network_config.py:493-499 | the dictionary holds, for each key, the last entry that has it |

## Left out

- The in-use verdict and the inventory are given: running `iw`, `ip` and `ss`, and parsing what they print.
- A netdev's reported type is one of managed, monitor, or one Core never sets; a missing type is not modelled.
- Names are compared only: a name is one somebody gave or one the kernel picked for a traveller whose name was
  taken. Entries have given names; the name checks of the schema are not modelled.
- Netdevs of one rank are listed by wdev id, and the records left behind are looked through with root first and
  then by namespace.
- The re-keying of sibling monitors inside the in-use check, and a marker without an identity.
- A failing list of radios or namespaces; listing always succeeds.
- wpa_supplicant, dhcpcd, application processes and connection monitors: a service start is one command that
  succeeds or fails, and stopping them does not touch the layout.
- Administrative up and down of netdevs outside scans; `reset_namespace`, `left_alone` and `shutdown_all`.
- Malformed profile files and regenerating the default: what the default is without a file is given, and it is not
  written out.
- Random session id collisions, exceptions during process teardown, and channel hopping tasks.
- HTTP and WebSocket endpoints, event texts, PAM, HMAC and the cryptography of tokens: a token is its claims and the
  secret that signed it, and each transaction is one step.
- The missing-claim, issuer and device checks of a token, and its encoding; every issued token passes them.
- Clock readings are real numbers; the rounding of floating-point timestamps to microseconds is not modelled.
- The scan itself and its parsing, and the receive filter reset on MT7921 radios.
- iw's and wpa_supplicant's own code is not part of this model: the printers and the reader follow the comments in
  wlanpi_core/utils/network.py and wlanpi_core/wpa/config.py, and octal escapes are not read.
- Two updated entries with the same key are excluded by the uniqueness check before secrets are kept.
- Switching.ActivationAtomic: excludes a failure during the teardown of the old profile, which goes on best effort,
  and a first delete that fails after a namespace was created for that entry; Atomic.FailureAtomic says what remains
  then.
- Switching.ProfilesComeAndGo: excludes activating the default, and deactivating by force a profile that is not
  active while another one is.
- LeftAlone.DefaultLeavesAlone: is about entries whose display name is free when they are applied, like
  StartFailure.HarmExactly.
- StartFailure.HarmExactly: is about entries whose display name is free; Ownership.ClashLosesForeign shows the others.
- The configuration lock: requests on profiles are one at a time, and a request that finds the lock held is refused.
