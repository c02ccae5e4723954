# NetBridge: a verified model

NetBridge joins computers into a virtual LAN. A room server hands out virtual addresses, introduces
the members of a room to each other and relays their traffic; clients punch direct channels between
each other, bridge a virtual network card, and talk. This project models those parts in Dafny and
proves what they promise.

| file | what it models |
|---|---|
| Vip.dfy | lowest-free address allocation in one room, over whole runs |
| RoomServer.dfy | the server's peers, rooms and room manager, as objects updated in place |
| Membership.dfy | the snapshot-plus-delta protocol as a step system: server, uplinks, downlinks, clients' views |
| Signaling.dfy | the server's handlers, each proved to be a step of that protocol |
| RoomRace.dfy | the server's locked sections without handler atomicity |
| PeerView.dfy | the client's record of its room, and the message handlers that keep it |
| Channels.dfy | per-peer channels under concurrent creation, upgrade, replacement and removal |
| Punches.dfy | the table of hole-punching attempts under concurrent registration, reply, leave and cleanup |
| PunchSchedule.dfy | the pace of one attempt, in a timed model |
| ClientRuns.dfy | a client's record, channels, attempts and the work between them, composed |
| AfterLeave.dfy | which punches can still install a channel once the room was left |
| Following.dfy | a client's run beside a run of the system: what it is told, and what follows |
| StoredNumbers.dfy | the numbers and endpoints stored in channels beside the record |
| Staleness.dfy | which work under way can make a stored number stale |
| Frames.dfy | compact frames, latency probes, voice payloads, and the browser's twin of the last |
| Relay.dfy | the relay's routing, both ends of a relayed frame, end-to-end delivery |
| Bridge.dfy | packet classification and broadcast, and addresses as text |
| Rounds.dfy | continuing a run of the system by a join or a leave |
| Delivery.dfy | from one network card to another, through the channel in the map |
| Reframe.dfy, Pcm.dfy, OpusPairing.dfy, Playback.dfy | voice: re-framing, the uncompressed path, numbering of Opus output, the jitter scheduler |
| Eviction.dfy | when a member that falls silent is removed |
| Invite.dfy | invite links |
| Options.dfy | a value that may be missing |

Objects that the program updates in place are classes; their methods are proved against functions on
plain tables (`View`, `Held`, `Seen`), and the long-run results are lemmas about those functions. The
modules compose: `Signaling` refines the steps of `Membership`, whose runs carry the uniqueness of
`Vip` and the timing of `Eviction`; `ClientRuns` runs `Channels` and `Punches` side by side over the
client's record; `Following` ties such a client run to a run of `Membership`; and `Delivery` puts all of them, `Frames`, `Relay` and `Bridge` together into delivery from
one member's network card to another's.

## Assumptions

- Server handlers run one at a time, and each client's uplink and downlink deliver in order and
  without loss. The code takes its locks per operation, not per handler: `RoomRace` says exactly when
  that loses somebody (server/internal/signaling/signaling.go:117-118 and 333-334).
- An endpoint reaches one client, and a client leaves a room before joining another. The server
  enforces neither; `TwoHoldersAmbiguous` shows what the relay may then do.
- The steps of `Channels`, `Punches` and `ClientRuns` are the mutex-protected sections; they interleave
  freely, also those of one message.
- Where a client run follows a run of the system (`Follows`), the record and channel-closing acts of one
  message or of LeaveRoom come before those of the next; its punches, sends and answers interleave freely.
- Clocks are parameters. One scan reads one time. In `PunchSchedule` all events due at an instant are
  handled, in any order, before time advances; in `Eviction` tickers are exact and packet delay is
  constant.
- Peer IDs, room numbers and endpoints are texts that are only compared (type `Name`). An endpoint
  stands for the one address form the server fills in for a peer.
- Host numbers are naturals, framed as 32-bit words; `Fits` says of a channel what the code's type does.
- Samples, gains and audio times are reals.

## Findings

- Numbers are not distinct once a room holds 65,533 members: the next newcomer gets 2 again
  (`JoinKeepsUniqueIff`).
- A finished attempt's cleanup deletes by address and can cut off a newer attempt for the same
  address, whose reply then goes unnoticed (`LateCleanupOrphans`): exactly when the address was
  registered again before the earlier attempt had cleaned up (`NoOverlapIff`, `CutOffPossibleIff`).
- A join whose room is emptied and removed between its lookup and its entry, or after its entry by a
  leave or scan that had seen the room empty before, or by a leave that sees an earlier room of that name
  empty, leaves its peer in a room nobody can find (`JoinLosesRace`, `LateRemoval`, `AnotherRemoved`):
  these are the only ways (`NobodyLostIff`, `JoinKeepsRoomIff`, `OvertakenIff`).
- `LeaveRoom` closes waiting notifications, so those attempts report success without a reply, and
  their punches install direct channels after the room was left (`LeftBehind`): exactly the punches
  that were yet to register, waiting within reach, successful or installing at that moment, and those due
  then for a recorded peer and yet to begin (`InstalledAfterLeaveIff`, `BegunAfterLeave`).
- A channel keeps the numbers it was made with, and the map keeps the channel. A punch begun before a
  peer left can overwrite the peer's channel with its old number after it came back, and packets then
  reach whoever took that number, with nothing under way and a correct record (`StaleFallBack`,
  `StaleReachesOther`). Exact conditions: `RunCurrentIff` for runs, `SoonStaleIff` for what is
  under way, `PacketReachesPeerIff` and `DeliveredIffCurrent` for packets.
- Printed addresses are valid for numbers up to 255 only (`PrintedAddressReadsIff`).
- The scheduler tolerates 0.25 s of jitter and not more (`BoundedJitter`, `MoreJitterOverlaps`).
- The user documentation gives 3 s for hole punching and the server has a `-room-timeout` flag; the
  code uses 15 s (client/core/client.go:1153) and the constant timeout
  (server/internal/signaling/signaling.go:358). The model follows the code.

## Model

| member | source | states |
|---|---|---|
| Vip.AllocIsLeastFree | server/internal/room/room.go:58-71 | for every member table the number is in 2..65534; with at most 65,532 members it is the least unused one and at most the member count plus 2 (pigeonhole); it repeats a used number exactly when none is free |
| Vip.JoinKeepsUniqueIff | server/internal/room/room.go:39-71 | a join keeps the numbers of a room distinct if and only if it is a rejoin or finds fewer than 65,533 members; a full room hands out 2 again |
| Vip.RunKeepsUnique | server/internal/room/room.go:39-156 | over every run of joins, rejoins, leaves, heartbeats and scans in which each newcomer finds room, numbers stay pairwise distinct and in range |
| Vip.VipBoundedByPeak | server/internal/room/room.go:50-71 | no number held at the end of such a run exceeds one plus the peak membership reached |
| Vip.JoinOnlyRun | server/internal/room/room.go:50-71 | n joins by distinct peers use exactly the numbers 2..n+1 |
| Vip.JoinOnlyOrder | server/internal/room/room.go:50-71 | and give them out in joining order |
| Vip.VipStable | server/internal/room/room.go:39-54 | a member is there throughout if and only if it neither leaves nor times out, and then keeps its number under any operations of the others and its own rejoins |
| Vip.LookupDeterminedIffUnique | server/internal/room/room.go:92-102 | the peer found for a number is independent of map iteration order if and only if no number is shared |
| RoomServer.Peer.constructor | server/internal/peer/peer.go:34-42 | a new peer has no number yet and was last seen now |
| RoomServer.Room.AllocVip | server/internal/room/room.go:58-71 | the scan over the used numbers computes the allocation specified in module Vip |
| RoomServer.Room.Join | server/internal/room/room.go:39-54 | the table after a join; a known ID keeps its object, number and voice flags and takes the new endpoint; the returned number is the member's |
| RoomServer.Room.Leave | server/internal/room/room.go:74-83 | exactly the named member goes, and is returned |
| RoomServer.Room.GetPeerByVip | server/internal/room/room.go:93-102 | some holder of the number, and none only if nobody holds it |
| RoomServer.Room.HasAddr | server/internal/room/room.go:105-114 | whether some member has the endpoint, both directions |
| RoomServer.Room.PeerList | server/internal/room/room.go:117-126 | every member object once, in some order |
| RoomServer.Room.ScanTimeout | server/internal/room/room.go:144-156 | exactly the members silent for more than the timeout are removed, and each is returned once |
| RoomServer.Manager.GetOrCreate | server/internal/room/manager.go:25-35 | an existing room is returned untouched, a missing one is created empty |
| RoomServer.Manager.Remove | server/internal/room/manager.go:45-49 | only the named room goes |
| RoomServer.Manager.JoinIn | server/internal/signaling/signaling.go:117-118 | a join through the manager changes its own room's table only |
| RoomServer.Manager.LookupByAddr | server/internal/room/manager.go:86-99 | some room that holds the endpoint; none only if no room does |
| RoomServer.Manager.ScanTimeout | server/internal/room/manager.go:53-75 | all rooms' members are split exactly into survivors and reported ones; each removed member is reported once with its room; a room is left exactly if some member was heard of within the timeout, with exactly those members, as they were |
| Membership.StatusGivesView | client/core/client.go:787-805 | folding a full listing, in whatever order, gives the listed room minus self, and self's own record |
| Membership.JoinHandledKeepsInv | server/internal/signaling/signaling.go:94-195 | a handled join or rejoin keeps the simulation invariant |
| Membership.LeaveHandledKeepsInv | server/internal/signaling/signaling.go:300-338 | a handled leave keeps it |
| Membership.PingHandledKeepsInv | server/internal/signaling/signaling.go:74-91 | a handled heartbeat keeps it |
| Membership.ScanKeepsInv | server/internal/signaling/signaling.go:357-387 | a timeout scan over all rooms keeps it |
| Membership.ClientKeepsInv | client/core/client.go:305-357 | a client's own steps (join, leave, heartbeat, receiving the next message) keep it |
| Membership.NextKeepsInv | server/internal/signaling/signaling.go:94-387 | every step keeps: one room per client, endpoints reach their owners, requests under way are orderly, and undelivered messages folded over a member's view give the server's room |
| Membership.RunKeepsInv | server/internal/signaling/signaling.go:94-387 | so the invariant holds in every reachable state |
| Membership.QuietViewIsExact | client/core/client.go:787-869 | in every reachable state a member with no leave under way and nothing left to receive sees exactly the server's room: IDs, numbers, endpoints |
| Membership.NowhereButListed | client/core/client.go:305-317 | in every reachable state a client that believes itself nowhere while the server lists it has a leave under way |
| Membership.JoinTells | server/internal/signaling/signaling.go:132-172 | the handled join sends as many datagrams as the room then has members, the first to the newcomer's endpoint, with its own number and its own entry at the stated index |
| Membership.NoEmptyRoom | server/internal/room/manager.go:65-72 | in every reachable state the server keeps no empty room |
| Membership.RoomRun | server/internal/room/room.go:39-156 | over every run of the system each room runs through exactly its own joins, leaves, heartbeats and scans |
| Membership.RunKeepsNumbers | server/internal/room/room.go:39-71 | over whole runs of the system in which newcomers find room, numbers are distinct in every room |
| Signaling.RoomHandler.HandleJoinRoom | server/internal/signaling/signaling.go:94-195 | the handler refines the protocol's join step: state and every datagram; an empty room name does nothing; an empty ID falls back to the nickname |
| Signaling.RoomHandler.StatusFor | server/internal/signaling/signaling.go:132-152 | the snapshot lists each member once, and localIndex points at the receiver |
| Signaling.RoomHandler.Broadcast | server/internal/signaling/signaling.go:329-333 | one datagram per member, to its endpoint |
| Signaling.RoomHandler.BroadcastExcept | server/internal/signaling/signaling.go:187-194 | one datagram per member other than the named one |
| Signaling.RoomHandler.HandlePeerLeave | server/internal/signaling/signaling.go:300-338 | refines the leave step; an emptied room is dropped; unknown rooms and empty names change nothing |
| Signaling.RoomHandler.HandlePing | server/internal/signaling/signaling.go:74-91 | refreshes the timer of the named member and of nobody else |
| Signaling.RoomHandler.ScanAndClean | server/internal/signaling/signaling.go:357-387 | refines the scan step: removals, report and all notifications; left are exactly the members heard of within 15,000,000,000 ns and the rooms that have one |
| Signaling.RoomHandler.JoinLosesRace | server/internal/signaling/signaling.go:117-118 | without handler atomicity a newcomer can end up in a room the manager no longer has |
| RoomRace.JoinKeepsRoomIff | server/internal/signaling/signaling.go:117-118 | over all interleavings of the locked sections of joins, leaves and scans: a join enters the object its lookup found, and that object is the manager's at any later point if and only if its name was not taken out of the map since the lookup |
| RoomRace.OvertakenIff | server/internal/signaling/signaling.go:333-334 | a room with somebody in it is taken out of the map exactly if, after the leave or scan had seen it empty, somebody entered and is still in; or its name was taken out since that leave's lookup and somebody entered the room made anew and is still in |
| RoomRace.NobodyLostIff | server/internal/signaling/signaling.go:333-334 | every peer in a room is at every point of a run in a room the manager has, if and only if no join's room is removed between lookup and entry and no removal is so overtaken |
| RoomRace.LateRemoval | server/internal/signaling/signaling.go:333-334 | the second way happens too: lookup and entry with nothing in between, then the removal by a leave that had seen the room empty |
| RoomRace.AnotherRemoved | server/internal/signaling/signaling.go:309-334 | and so does the third, where the entry comes before the room is seen empty: of two leaves by the last member the second removes the room made anew |
| PeerView.PeerManager.GetByVIP | client/peer/manager.go:115-124 | some listed peer with the number; none only if there is none |
| PeerView.PeerManager.List | client/peer/manager.go:127-135 | each peer once |
| PeerView.PeerManager.Remove | client/peer/manager.go:50-56 | the peer goes together with both of its round-trip times |
| PeerView.PeerManager.SetPeerP2PRTT | client/peer/manager.go:72-80 | times are recorded for known peers only |
| PeerView.PeerManager.SetPeerServerRTT | client/peer/manager.go:90-98 | and the caller is told whether the peer was known |
| PeerView.PeerManager.HandleRoomStatus | client/core/client.go:787-805 | reset, then record self and the others: the view function of the protocol |
| PeerView.PeerManager.Handle | client/core/client.go:787-869 | every message changes the record as the protocol's view function says |
| PeerView.LookupsAgree | client/peer/manager.go:115-124 | for a client with nothing under way, a peer's lookup by number agrees with the server's table |
| Channels.StepKeepsOwnership | client/core/client.go:437-465 | every locked section keeps: open direct channels are exactly the installed ones and those being installed, each with one holder |
| Channels.RunKeepsOwnership | client/core/client.go:962-1118 | so under every interleaving |
| Channels.ClosesOpenOnes | client/core/client.go:1081-1087 | a step closes only open channels, and exactly those that leave the map |
| Channels.ClosedAtMostOnce | client/netconn/channel.go:82-86 | a closed channel is never open or closed again |
| Channels.LeaveRoomClosesAllIff | client/core/client.go:328-333 | after LeaveRoom the open channels are exactly those being installed; none if and only if no punch is between creation and installation |
| Channels.OpenAfterLeave | client/core/client.go:328-333 | of the channels that existed at LeaveRoom only those can be open at any later time |
| Channels.NoDowngrade | client/core/client.go:1097-1113 | between its removals a peer's channel only moves none, relay, P2P |
| Channels.DowngradeOnlyByRemoval | client/core/client.go:857-862 | a step lowers a peer's channel if and only if it removes it |
| Channels.P2PChannel.Close | client/netconn/channel.go:82-86 | closing stops the ping loop, any number of times |
| Channels.Client.ChannelForVIP | client/core/client.go:437-465 | an unknown number is an error; otherwise the channel of a peer with that number, made as a relay with both numbers if missing |
| Channels.Client.PassiveSection | client/core/client.go:970-983 | keeps an existing direct channel, else installs a new one with the right endpoint and numbers |
| Channels.Client.CreatePassiveP2P | client/core/client.go:962-994 | the first listed peer with the endpoint gets a channel; nobody else's changes |
| Channels.Client.InstallWinner | client/core/client.go:1081-1087 | the winner replaces and closes whatever was there |
| Channels.Client.PunchLost | client/core/client.go:1097-1112 | falls back to relay unless a direct channel exists |
| Channels.Client.HandlePeerLeave | client/core/client.go:847-869 | record, times and channel of the peer go, the channel closed |
| Channels.Client.CloseRoom | client/core/client.go:328-335 | all installed channels closed, map and records emptied |
| Punches.StepKeepsInv | client/core/client.go:1127-1161 | every registered notification is open and stands under its own address; success is reported only with one's own notification closed |
| Punches.RunKeepsInv | client/core/client.go:937-949 | so over every interleaving of register, reply, LeaveRoom, return and cleanup |
| Punches.ClosedAtMostOnce | client/core/client.go:320-325 | no notification is closed twice, which would panic |
| Punches.SuccessHasCause | client/core/client.go:1158-1161 | a closed notification was closed by a reply from exactly its attempt's address, or by LeaveRoom |
| Punches.StepKeepsReachableIff | client/core/client.go:1140-1144 | a deferred cleanup, which deletes by address, cuts off a waiting attempt if and only if the entry belongs to an attempt that has not returned; no other step does |
| Punches.OrphanNeverSucceeds | client/core/client.go:1140-1144 | an attempt cut off that way can only fail |
| Punches.LateCleanupOrphans | client/core/client.go:1140-1144 | and this happens: a run in which a second attempt is cut off and its reply finds nothing |
| Punches.NoOverlapIff | client/core/client.go:1131-1144 | over a whole run every waiting attempt stays in the table, and none at an address with an earlier attempt yet to clean up, exactly when no address is registered again before its earlier attempt has cleaned up |
| Punches.CutOffPossibleIff | client/core/client.go:1140-1144 | a waiting attempt can be cut off, by return and cleanup alone, exactly when one waits at an address whose earlier attempt has yet to clean up |
| Punches.PunchTable.RegisterAttempt | client/core/client.go:1131-1138 | refuses an address with an attempt, else registers a fresh open notification |
| Punches.PunchTable.HandleReply | client/core/client.go:937-949 | closes and removes the attempt of that address, if any |
| Punches.PunchTable.CloseAllPending | client/core/client.go:320-325 | closes each pending notification once and empties the table |
| Punches.PunchTable.DeferredDelete | client/core/client.go:1140-1144 | removes the entry of the address, whoever holds it |
| PunchSchedule.PunchOne | client/core/client.go:1148-1182 | the wait loop computes the outcome and the number of probes of the timed model |
| PunchSchedule.AtMost29 | client/core/client.go:1148-1182 | at most 29 probes, whatever the order of simultaneous events |
| PunchSchedule.TimedOutSendsEnough | client/core/client.go:1148-1182 | an attempt neither answered nor cancelled sends 26 to 29 probes |
| PunchSchedule.BoundsReached | client/core/client.go:1148-1182 | both bounds are reached |
| PunchSchedule.OutcomeIsFirstEnd | client/core/client.go:1158-1181 | the outcome is that of the first of reply or leave, timeout and cancellation, whatever comes after; without any the attempt still waits |
| PunchSchedule.EndsByTimeout | client/core/client.go:1153-1164 | the attempt is over before any timer event due after 15 s is handled |
| ClientRuns.ExecKeepsSound | client/core/client.go:1019-1183 | record, channels, attempts and work under way together: every act keeps channel ownership, the attempts table and the ties between punches, attempts and channels, over any interleaving |
| ClientRuns.MessageRecords | client/core/client.go:787-869 | the acts of a message can always be done and leave the record as the protocol says |
| AfterLeave.OnlyLive | client/core/client.go:1127-1161 | over any acts, a next join included: a punch live at the end was live at every point since it began |
| AfterLeave.InstallsIff | client/core/client.go:1077-1087 | before anything of a next join arrives, a punch can install a direct channel to a peer if and only if it is for that peer and holds a channel, or its attempt has succeeded, or is closed, pending or yet to register; or it has yet to begin and a punch is due for the peer |
| AfterLeave.InstalledAfterLeaveIff | client/core/client.go:328-333 | over whole runs: after LeaveRoom emptied the map some punch can still install a direct channel to a peer exactly if at that moment one was so, or one was due, for that peer; and which punches can |
| AfterLeave.DirectHasCause | client/core/client.go:962-1118 | a direct channel found in the map before a next join was put there by a punch live at the start, by one due then and begun later, or in answer to one of the peer's |
| AfterLeave.BegunAfterLeave | client/core/client.go:817-823 | and a due one can: a snapshot is recorded, the room is left with no punch begun, then one begins and installs a direct channel |
| AfterLeave.LeftBehind | client/core/client.go:320-337 | a run without any reply, its record acts those of one snapshot and of LeaveRoom, in which a punch waiting at LeaveRoom reports success and leaves an open direct channel behind, under number 0 |
| Following.RunReaches | server/internal/signaling/signaling.go:132-194 | in every reachable state every endpoint under way to a client is one that reaches the peer it is named for |
| Following.FollowerRecords | client/core/client.go:787-869 | a client run whose record and channel-closing acts are those of its messages and leaves in a run of the system, the acts of its other goroutines in between at will: its record is the protocol's view, and every endpoint it ever heard is its owner's |
| StoredNumbers.RunCurrentIff | client/core/client.go:437-465 | over a whole run the numbers stored in all channels agree with the record at every point if and only if no act writes numbers no longer on record or notes others than a kept channel has |
| StoredNumbers.ActCurrentIff | client/core/client.go:1097-1112 | the same for one act, by a condition on the state before it |
| StoredNumbers.StoredWasTold | client/core/client.go:1080-1101 | whatever a channel stores for its peer was noted for that peer in one note, number and endpoint together for a direct channel; its own number was noted for oneself, or is 0; starting a punch counts for nothing |
| StoredNumbers.StaleFallBack | client/core/client.go:1097-1112 | a run that does what five messages call for (alone in the room, b comes, b leaves, c comes, b comes back), at whose end nothing is under way, the record is right, and b's relay channel stores b's old number |
| Staleness.SoonStaleIff | client/core/client.go:437-465 | after any run that left all stored numbers current: without another message and without leaving, some channel can become stale if and only if a punch due or under way, a send or an answer under way carries numbers other than the record's and can still write them |
| Delivery.PacketReachesPeerIff | client/tun/bridge.go:84-94 | in every reachable state a packet for a listed peer is tried once, over that peer's channel; it comes out of that peer's card exactly when the relay channel's number for it is the server's or the direct channel's endpoint is its own; under the sender's number exactly when the channel's own number is current too |
| Delivery.DeliveredIffCurrent | client/core/client.go:437-465 | for a client that followed any run of the system: data for a listed peer comes out of its card unless it goes over a relay channel with another number for it than the record's, so over every direct channel; and under the own number exactly if the channel's is current |
| Delivery.NeverStaleDelivers | client/core/client.go:437-465 | so a client whose run had no stale act reaches every peer it lists, over any kind of channel, under its own number |
| Delivery.StaleReachesOther | client/core/client.go:1097-1112 | a run of the whole system and a client run that follows it, at whose end nothing is under way for the client and its record is the server's room, and data for b comes out of the card of the member that took b's old number, and not of b's |
| Frames.EncodeFrame | protocol/frame.go:83-93 | the buffer is magic, type, 0, both numbers little-endian, payload |
| Frames.FrameLayout | protocol/frame.go:16-26 | byte by byte: N, B, kind, 0, both numbers with the least significant byte first, payload |
| Frames.DecodeEncodedFrame | protocol/frame.go:83-111 | decoding undoes encoding for every type, numbers and payload |
| Frames.ReencodeIffReservedZero | protocol/frame.go:83-111 | re-encoding a decoded frame restores the bytes if and only if the reserved byte is 0 |
| Frames.ProbeRoundTrip | protocol/frame.go:54-67 | a probe's time survives frame and payload, negative times included |
| Frames.ProbeLayout | protocol/frame.go:54-67 | a time is the 8 bytes of its two's complement, least significant first |
| Frames.EncodeVoicePayload | protocol/voice.go:32-39 | codec, number and time little-endian, audio |
| Frames.VoiceLayout | protocol/voice.go:32-39 | byte by byte: codec, number and time with the least significant byte first, audio |
| Frames.VoiceShort | client/frontend/src/voice/protocol.js:26-28 | payloads shorter than 11 bytes are refused, and read by the browser as silence |
| Frames.NestedVoiceRoundTrip | protocol/voice.go:32-53 | a voice payload inside a frame comes out unchanged |
| Frames.VoiceReencode | protocol/voice.go:43-53 | every long enough payload is the encoding of what it decodes to |
| Frames.JsEncodeVoicePayload | client/frontend/src/voice/protocol.js:13-22 | the browser's encoder writes the same bytes as the Go one, counters taken modulo their width |
| Frames.UlpIs | client/frontend/src/voice/protocol.js:33 | the spacing of doubles: 53 bits |
| Frames.ToNumberExactIff | client/frontend/src/voice/protocol.js:33 | a timestamp survives conversion to a Number if and only if it lies on the doubles' grid, so always below 2^53 |
| Frames.ToNumberNearest | client/frontend/src/voice/protocol.js:33 | and otherwise becomes the nearest grid point, the even one of two equally near |
| Frames.JsRoundTrip | client/frontend/src/voice/protocol.js:25-36 | the browser reads back what either encoder wrote |
| Relay.RelayHandler.HandleCompactFrame | server/internal/relay/relay.go:35-61 | fails exactly for bytes without the magic or a whole header; nothing for other kinds or unknown senders; else the routing of some room of the sender's endpoint, bytes unchanged; with no assumption at all the addressee shares a room with that endpoint |
| Relay.ForwardedKinds | server/internal/relay/relay.go:40-46 | of frames from members to a holder of their number exactly those of kinds 2 and 3, data and voice, may be passed on to it, as they are |
| Relay.OtherKindsDropped | server/internal/relay/relay.go:40-46 | direct data, probes and echoes (kinds 1, 4 and 5) get no answer in any state of the rooms |
| Relay.SendTyped | client/netconn/channel.go:71-74 | a frame with the numbers the channel was made with, to the server or to the channel's own endpoint |
| Relay.Send | client/netconn/channel.go:76-78 | plain data goes out in the channel's own kind of frame |
| Relay.RoutedToHolder | server/internal/relay/relay.go:48-60 | sender in one room, numbers distinct: the only possible answer is the holder of the number |
| Relay.TwoHoldersAmbiguous | server/internal/room/manager.go:83-99 | neither assumption can be dropped |
| Relay.EndToEnd | client/core/client.go:758-785 | a non-empty payload in a data or a voice frame arrives once, byte-identical, at the peer's current endpoint and goes to the voice or the data handler with the sender's number |
| Relay.DirectDelivery | client/core/client.go:758-785 | over a direct channel probes and echoes keep their time, voice and data reach their handlers, empty payloads are dropped |
| Relay.RelayedToHolder | server/internal/relay/relay.go:48-60 | a relayed frame goes to whoever holds the number stored in its channel, whoever was meant |
| Relay.ReachesIff | client/netconn/channel.go:132-135 | sent through a channel, a payload reaches b if and only if, relayed, the stored number for b is the server's, or, direct, the endpoint is b's; and under a's number if and only if the stored own number is the server's too |
| Relay.DeliveredInEveryRun | client/core/client.go:758-785 | in every reachable state the same, told by the sender's record |
| Bridge.ClassifyIff | client/tun/bridge.go:56-88 | each packet is dropped, unicast or broadcast, told by its 32-bit destination alone |
| Bridge.AllocatedIsUnicast | client/tun/bridge.go:81-88 | a packet to 10.66.d2.d3 of an allocated number goes to that number, over every run |
| Bridge.Bridge.HandleOutbound | client/tun/bridge.go:41-90 | one iteration of the loop: the numbers tried, each over that peer's channel, as a frame with that channel's own numbers and the packet unchanged |
| Bridge.Bridge.BroadcastPacket | client/tun/bridge.go:96-104 | one attempt per listed peer whose number is not one's own, in list order |
| Bridge.BroadcastCoversRoom | client/tun/bridge.go:96-104 | in every reachable state a broadcast tries every other member of the room exactly once |
| Bridge.PrintedAddressReadsIff | protocol/constants.go:31-33 | the printed address reads as IPv4 if and only if the number is at most 255, and then gives it back |
| Bridge.SmallRoomAddresses | protocol/constants.go:27-33 | in rooms that never exceeded 254 members every printed address is valid, and packets to it are routed to the number it was printed from |
| Reframe.VoiceProcessor.Process | client/frontend/src/voice/voice-worklet.js:16-39 | one block: the frames posted and the samples held are those of held samples plus block |
| Reframe.CutInTwo | client/frontend/src/voice/voice-worklet.js:16-39 | frames and leftover do not depend on block boundaries |
| Reframe.CutConserves | client/frontend/src/voice/voice-worklet.js:16-39 | frames then leftover are the stream; frames have 960 samples; their number is the total divided by 960 |
| Reframe.Stream | client/frontend/src/voice/voice-worklet.js:8-39 | a processor fed block by block posts and holds that |
| Reframe.StreamConserved | client/frontend/src/voice/voice-worklet.js:16-39 | for every sequence of blocks of any lengths the stream is conserved |
| Pcm.NeverWraps | client/frontend/src/voice/encode.js:80-84 | the 16-bit value is the truncated product; it never wraps |
| Pcm.QuantiseIs | client/frontend/src/voice/encode.js:80-84 | the value by the sample alone: -32768 and 32767 beyond full scale; within it the integer next to 32768 s for negative s, or to 32767 s, on the side of zero |
| Pcm.QuantiseMonotone | client/frontend/src/voice/encode.js:80-84 | quantisation is monotone |
| Pcm.QuantiseNear | client/frontend/src/voice/encode.js:80-84 | a negative sample comes back less than 1/32768 above itself, another less than 1/32768 below 32767/32768 of itself, beyond full scale at full scale; never louder |
| Pcm.PcmEncoder.Encode | client/frontend/src/voice/encode.js:76-87 | every third sample, little-endian, with the next number and timestamp |
| Pcm.Bytes16At | client/frontend/src/voice/encode.js:85 | the bytes of the i-th value, least significant first |
| Pcm.Bytes16Read | client/frontend/src/voice/encode.js:85 | reading the bytes as 16-bit values gives the samples back |
| Pcm.PlayPcm | client/frontend/src/voice/playback.js:82-105 | empty audio plays nothing, an odd byte count throws, otherwise each value plays three times |
| Pcm.FramePlayedNear | client/frontend/src/voice/playback.js:89-104 | a frame played from its own encoding |
| Pcm.Speak | client/frontend/src/voice/encode.js:71-87 | frames encoded, wrapped, unwrapped and played in order, by the code of both ends |
| Pcm.StreamHeardNear | client/frontend/src/voice/playback.js:89-104 | whole stream: one output sample per input sample up to the last whole frame, each third one close to the input at the same position and held for the next two |
| OpusPairing.OpusEncoder.Encode | client/frontend/src/voice/encode.js:49-64 | a frame queues its number and timestamp |
| OpusPairing.OpusEncoder.Output | client/frontend/src/voice/encode.js:31-37 | an answer takes the oldest pending pair; without one it is dropped |
| OpusPairing.NeverMoreThanFed | client/frontend/src/voice/encode.js:31-37 | whatever the codec answers: no more packets go out than frames went in, numbered j and timed 20000 j in order |
| OpusPairing.Paired | client/frontend/src/voice/encode.js:25-69 | with a codec that answers in order, answer j carries number j and time 20000 j, and none is dropped |
| Playback.Player.Schedule | client/frontend/src/voice/playback.js:65-80 | the frame starts at the booking if that is between now and now + 0.3 s, else at now + 0.05 s; the stream is then booked for its samples at 48 kHz more; the samples are scaled |
| Playback.Playback.GetPlayer | client/frontend/src/voice/playback.js:23-38 | a speaker's stream is made once, keeps its booking and volume, and has a decoder exactly as its codec needs |
| Playback.Playback.HandleVoice | client/frontend/src/voice/playback.js:82-106 | one payload touches its speaker's stream only; a PCM payload is booked right after what that stream holds, an Opus one goes to its decoder, an odd byte count throws |
| Playback.PlayAll | client/frontend/src/voice/playback.js:65-80 | a stream of whole frames starts at the times of the model below |
| Playback.StartsSoon | client/frontend/src/voice/playback.js:74-78 | a frame starts between now and 0.3 s from now, with no jitter assumption |
| Playback.StartsThere | client/frontend/src/voice/playback.js:74-79 | over any stream: a frame starts exactly where the one before it ends if that lies between the moment it is handled and 0.3 s later, and otherwise exactly 0.05 s after that moment; dropped back, it leaves the stream booked until then plus its length |
| Playback.BoundedJitter | client/frontend/src/voice/playback.js:65-80 | jitter J of at most 0.25 s: no frame is dropped back, scheduled frames never overlap, late resets n after the first frame satisfy 0.05 n <= J (strictly, if any) |
| Playback.OverlapIff | client/frontend/src/voice/playback.js:74-79 | two neighbouring frames overlap exactly when the second is dropped back |
| Playback.MoreJitterOverlaps | client/frontend/src/voice/playback.js:74-79 | for every J above 0.25 s and every frame length some stream overlaps |
| Eviction.NeverEvicted | server/internal/signaling/signaling.go:341-387 | a member whose heartbeats never lose three in a row is never evicted |
| Eviction.SilentStaysIff | server/internal/room/room.go:144-156 | a silent member stays if and only if it does not leave and no scan is later than its last sign of life plus 15 s |
| Eviction.SilentIsEvicted | server/internal/signaling/signaling.go:341-387 | it is removed by a scan in (15 s, 20 s] after its last sign of life, and not before |
| Eviction.WindowIsSharp | protocol/constants.go:12-16 | a scan 15 s after the last sign of life spares the member and any later one removes it; the next tick comes at 20 s; three lost beats in a row suffice for a removal before the fourth |
| Eviction.NeverEvictedInSystem | server/internal/signaling/signaling.go:341-387 | over every run of the system, with heartbeats taken off the uplink: a member of whose heartbeats none three in a row go unhandled stays until it leaves |
| Eviction.SilentIsEvictedInSystem | server/internal/signaling/signaling.go:341-387 | over every run of the system a member silent since T is one exactly until a scan in (T + 15 s, T + 20 s] |
| Invite.EncodedText | client/frontend/src/components/HelloWorld.vue:396-398 | a component is encoded character by character: letters, digits and -_.!~*'() stay, each UTF-8 byte of any other becomes % and two upper-case hexadecimal digits |
| Invite.ParsedParts | client/frontend/src/components/HelloWorld.vue:399-408 | only links are read: blanks, the scheme, one line of parameters with both names non-empty, blanks |
| Invite.Utf8RoundTrip | client/frontend/src/components/HelloWorld.vue:396-408 | decoding undoes encoding for every text |
| Invite.ComponentDecodes | client/frontend/src/components/HelloWorld.vue:396-398 | percent-decoding an encoded component gives the text's UTF-8 bytes |
| Invite.EitherCase | client/frontend/src/components/HelloWorld.vue:403 | escapes are read in upper or lower case, and a percent sign before anything else stands for itself |
| Invite.InviteRoundTrip | client/frontend/src/components/HelloWorld.vue:396-408 | what was built is read back, blanks around the link included, exactly when neither name is empty |
| Invite.InviteInjective | client/frontend/src/components/HelloWorld.vue:396-398 | different pairs of non-empty names have different links |

## Left out

- Sockets, the network card driver, tray, user interface, logging and files: input and output without logic to prove.
- JSON encoding of signalling messages: messages are an abstract datatype.
- The Pong reply, chat, voice-status and metrics broadcasts: simpler copies of the membership broadcast.
- Nicknames and voice flags in the members' views: on a rejoin the server keeps the old ones but announces the new ones, so views agree on ID, number and endpoint only.
- Legacy JSON relay and game-data messages, command-line tools: compatibility paths.
- Missing endpoints on the server: peers are made from received datagrams, so the nil branches of the endpoint lookups cannot be taken.
- The Opus codec, the audio context and the level meters: the codec is assumed to answer in order, floating-point rounding is not modelled.
- DNS and address parsing, and a peer with several candidate endpoints: a server-built peer has one.
- The latency display and the client's connection states: easy state.
- Channels.Client.ChannelForVIP: the shared first look at the map and the exclusive second look are one call here; what may happen between them is in ClientRuns.
- Punches of a peer with more than one candidate endpoint, which the server never names: ClientRuns has one attempt per punch.
- Signaling.RoomHandler.HandleJoinRoom: which nickname a newcomer is stored under is not stated.
- PunchSchedule.PunchOne: the loop reads its events from a sequence instead of waiting on channels.
- Liveness of hole punching and behaviour under packet loss beyond the stated assumptions.
