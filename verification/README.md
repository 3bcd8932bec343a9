# Verification of the game server's stateful protocols

This project models the parts of the server in which several functions or several processes together keep
an invariant, and proves those invariants over every input, every interleaving and every run.

* **Reliable UDP channel** (`UInt32`, `ReceiveWindow`, `ReliableChannel`, `PlayerSession`): the 32-bit receive
  window, selective acknowledgement and retransmission, and two endpoints joined by a network that loses,
  duplicates and reorders. The peer runs the same functions as the server.
* **Game room** (`SessionModel`, `HostileNpc`, `Occupancy`, `RoomModel`, `RoomRuns`, `RoomSteps`, `SecondSpawn`,
  `RoomLoot`, `RoomInventory`, `GameRoom`): leaving, containers and NPC authority as one state machine, the things in players'
  hands and in containers with the slots behind them, and the room object whose loops run over unordered maps.
* **Recall** (`RecallTimer`): the timer all sessions share, its stale entries and the generation number.
* **Matchmaker** (`Matching`, `Matchmaker`): the greedy search with and without failure memory, a clock reading
  per pivot, and the queue and buckets that are updated in place.
* **Tickets** (`TicketProtocol`): Redis scripts and single commands as atomic steps of the HTTP server, Main and
  the clock.
* **Login sessions** (`LoginSessions`): the login and logout scripts against a sign-up in separate commands.
* **Capacity** (`CapacityModel`, `CapacityRuns`, `DediServer`, `DediManager`): Main's counter against the session
  ids of a Dedicated process, over two reliable FIFO queues.
* **In-raid inventory** (`InventoryModel`, `InventoryRuns`, `InventorySteps`, `PlayerInventory`) and **combat** (`CombatObject`):
  operations through aliased slot references, and what can be lost.
* **Lobby economy** (`LobbyEconomy`): snapshots checked by totals, purchases, sales and match starts.

Objects the server updates in place are classes; each method is proved against a function on the object's
value, and the theorems are about runs of those functions. The lemmas named `...Effect`, `...Iff` and `...Answers`
say what single steps do in the fields of the state and the server's own numbers, without those functions: when a
step is granted, what it changes, and that it changes nothing else.

## What the code does that its documentation or its names do not say

* An advance of exactly 32 takes the branch for `diff >= 32` (`src/DedicateProcess/PlayerSession.cpp:66`), which
  clears the field without setting bit 31 for the old highest. That sequence can be delivered a second time:
  `ReceiveWindow.DuplicateDelivery` shows it, `ReceiveWindow.AtMostOnceIff` says exactly when it happens.
* `ProcessLeaves` reads the clock before `MarkLeaving` reads it again, and `ElapsedMs` casts a negative difference to
  `uint32_t`. A death marked a millisecond or more after the first reading is finalized in the same pass, without
  its grace, and exactly then: `SessionModel.DeathGraceIff`, `RoomRuns.LateMarkIff`, with one input in
  `RoomRuns.GraceSkippedByLateMark`.
* `RequestSpawnMe` does not check that the session has no object yet. A second spawn breaks container exclusion or
  NPC authority exactly when the old object holds either (`RoomRuns.SpawnKeepsIff`), and every opening room with
  a container and two players, or with an NPC, has a run in which it does (`SecondSpawn.ExclusionLost`,
  `SecondSpawn.AuthorityOrphaned`); the run theorems cover exactly the runs without such a spawn, as the predicate
  `Orderly` states.
* An acknowledgement reaches 32 back. A reliable packet that was received, but whose acknowledgements were all lost
  until the peer was more than 32 ahead, is retransmitted until the session discards it
  (`ReliableChannel.StrandedUntilCleared`); 34 packets in flight are enough for that
  (`ReliableChannel.StrandingHappens`), and a sender whose pending sequences are at most 32 behind its newest never
  gets there (`ReliableChannel.NewestOnesAreSafe`).
* `_rttMs * 3u / 2u` and the smoothing sum are 32-bit products that can wrap (`PlayerSessions.TimeoutIff`,
  `PlayerSessions.SmoothedIff`); the timeout of a measured round trip never does
  (`PlayerSessions.TimeoutOfMeasured`).
* A ticket refused by Redis keeps its matched flag, so the list whose Redis keys would be deleted is always empty
  (`Matchmakers.MatchMaker.CollectLeaving`).
* Rolling a group back, and writing the success of a match, write to a ticket that may have expired meanwhile, which
  creates a ticket without owner that nobody can cancel (`TicketProtocol.RevivesIff`, `TicketProtocol.OwnerlessIff`,
  `TicketProtocol.OwnerlessIsStuck`; a run in `TicketProtocol.RollBackRevives`).
* A sign-up inserts its row before it writes the session and the link to it, each in a command of its own. A login
  anywhere in between can leave the user with two live sessions, one of which the next login does not take over
  (`LoginSessions.SignUpRace`, `LoginSessions.SignUpRaceBeforeHash`, `LoginSessions.SignUpRaceAfterExpiry`).
  `LoginSessions.OneSessionEachIff` says exactly which runs keep to one live session each; all those do in which
  nobody logs in during their own sign-up (`LoginSessions.OneSessionEach`).
* The matchmaker reads the clock anew for each pivot, and a failure it remembers was judged on the terms of an
  earlier reading. If a waiting bracket begins within a cycle a group can be lost for that cycle
  (`Matching.MemoryLosesAGroup`; exactly when, `Matching.LosesNothingIff`). No ticket that had waited a minute when
  the cycle began is ever affected (`Matching.MinuteIsEnough`).
* `docs/matchmaking.md:433-441` describes the search as going through the aggression levels one by one; the code goes through
  one queue sorted by time and remembers failures per level, and the model follows the code.

## Model

| member | source | states |
|---|---|---|
| `ReceiveWindow.RunRefines` | src/DedicateProcess/PlayerSession.cpp:56-91 | After any arrivals, the window is a faithful picture of the set of accepted sequences: highest is their maximum, a bit at distance d up to 32 is set only for an accepted one, and for d from 1 to 31 it is set for every accepted one. |
| `ReceiveWindow.AckedWasAccepted` | src/DedicateProcess/PlayerSession.cpp:56-128 | Whatever the acknowledgement built from the window covers was accepted. |
| `ReceiveWindow.AcceptedAtMostTwice` | src/DedicateProcess/PlayerSession.cpp:64-90 | No sequence is ever accepted three times, whatever arrives. |
| `ReceiveWindow.ReplayedIff` | src/DedicateProcess/PlayerSession.cpp:66-67 | An accepted sequence is accepted again exactly when it is the old highest of an advance of exactly 32 that is still the latest advance, and only once. |
| `ReceiveWindow.AtMostOnceIff` | src/DedicateProcess/PlayerSession.cpp:64-90 | A run accepts each sequence at most once if and only if no arrival hits that hole. |
| `ReceiveWindow.NoAdvanceOf32IsAtMostOnce` | src/DedicateProcess/PlayerSession.cpp:66-70 | Without an advance of exactly 32, delivery is at most once. |
| `ReceiveWindow.DuplicateDelivery` | src/DedicateProcess/PlayerSession.cpp:66-67 | The concrete arrivals 1, 33, 1 deliver 1 twice: the code falls short of at-most-once at the edge. |
| `ReceiveWindow.LostForever` | src/DedicateProcess/PlayerSession.cpp:79-82 | More than 32 behind the highest, a sequence, accepted or not, is never accepted and never acknowledged again, whatever arrives later. |
| `ReceiveWindow.AckedIff` | src/DedicateProcess/PlayerSession.cpp:146-147 | The acknowledgement vouches for an accepted sequence exactly up to 31 behind the highest, and at 32 while its bit is there. |
| `UInt32.BitOfShift` | src/DedicateProcess/PlayerSession.cpp:69 | Shifting the 32-bit field left moves every bit by the distance and drops those shifted out. |
| `ReliableChannel.NothingSilentlyLost` | src/DedicateProcess/ClientPacketHandler.h:206-218 | In every state of every run of two endpoints over a network that loses, repeats and reorders, each sequence sent is still pending, accepted by the peer, or was explicitly cleared. |
| `ReliableChannel.AckSoundness` | src/DedicateProcess/PlayerSession.cpp:108-128 | A sequence leaves pending through an incoming packet only if the peer accepted it, however stale, repeated or reordered the packet. |
| `ReliableChannel.DeliveredAtMostTwice` | src/DedicateProcess/ClientPacketHandler.h:206-216 | Over any run a handler sees each reliable sequence at most twice, and at most once unless the exact-32 hole is hit. |
| `ReliableChannel.RunKeepsInvariant` | src/DedicateProcess/ClientPacketHandler.h:378-412 | Sequence assignment, registration, piggybacked acknowledgement and retransmission together keep the two endpoints consistent over all runs. |
| `ReliableChannel.StrandedUntilCleared` | src/DedicateProcess/PlayerSession.cpp:146-148 | Once the peer is more than 32 ahead and nothing it has sent or may resend vouches for a pending sequence, that sequence stays pending over every continuation until its own sender clears it, even if it was accepted. |
| `ReliableChannel.StrandingHappens` | src/DedicateProcess/PlayerSession.cpp:146-153 | A run from the start, with 34 packets in flight, in which an accepted sequence is out of reach of every acknowledgement. |
| `ReliableChannel.NewestOnesAreSafe` | src/DedicateProcess/PlayerSession.cpp:146-153 | In every run, a sequence at most 32 behind the newest one sent is never out of reach. |
| `ReliableChannel.NextPacketAcknowledges` | src/DedicateProcess/ClientPacketHandler.h:378-412 | While the sender is at most 31 past a sequence the peer accepted, the peer's next packet, reliable or not, acknowledges it. |
| `ReliableChannel.PacketEffect` | src/DedicateProcess/ClientPacketHandler.h:206-226 | A rejected packet changes nothing but the history; one that passes takes out of pending exactly what its acknowledgement names and moves only the window, or the newest number, of its own kind. |
| `ReliableChannel.UnreliableIff` | src/DedicateProcess/PlayerSession.cpp:93-106 | An unreliable packet passes if and only if it is the first or 1 to 32767 ahead of the newest, counted in 16 bits. |
| `ReliableChannel.SendEffect` | src/DedicateProcess/ClientPacketHandler.h:378-412 | Each kind is numbered one up from packet to packet, a reliable packet joins pending under its number, and every packet carries the window as it is. |
| `ReliableChannel.ClearEffect` | src/DedicateProcess/PlayerSession.cpp:169-178 | Discarding spares exactly the named sequence, and none when 0 is named. |
| `PlayerSessions.PlayerSession.UpdateRRecvState` | src/DedicateProcess/PlayerSession.cpp:56-91 | The in-place window update with its branches computes the window function whose runs are characterised above. |
| `PlayerSessions.PlayerSession.UpdateURecvState` | src/DedicateProcess/PlayerSession.cpp:93-106 | An unreliable packet is taken exactly when the signed 16-bit difference is positive. |
| `PlayerSessions.PlayerSession.ProcessIncomingAck` | src/DedicateProcess/PlayerSession.cpp:108-128 | The bit loop with its early exits removes from pending exactly the acknowledged sequence and those its bits name, modulo 2^32. |
| `PlayerSessions.CoversFromLoop` | src/DedicateProcess/PlayerSession.cpp:121-127 | Stopping when the shifted field is zero misses no bit. |
| `PlayerSessions.PlayerSession.HandleClientPacket` | src/DedicateProcess/ClientPacketHandler.h:206-226 | Filter first, acknowledge second, clocks last: an accepted packet moves the last-received stamp and the smoothed round trip exactly when its stamps are nonzero and newer; a rejected one changes neither pending nor any clock. |
| `PlayerSessions.PlayerSession.MakePacket` | src/DedicateProcess/ClientPacketHandler.h:378-412 | Number, piggyback, register: the packet sent is the one kept for retransmission. |
| `PlayerSessions.PlayerSession.GetRetransmitCandidates` | src/DedicateProcess/PlayerSession.cpp:156-167 | Exactly the packets unsent for the timeout, each once, with wrapping time. |
| `PlayerSessions.PlayerSession.Retransmit` | src/DedicateProcess/DediServerService.cpp:260-272 | Each overdue packet for which there is a send buffer goes out exactly once, unchanged, and is dated anew; nothing else in the channel moves. |
| `PlayerSessions.TimeoutIff` | src/DedicateProcess/PlayerSession.cpp:157 | The timeout is one and a half round trips cut to 50..1000 ms if and only if the 32-bit product does not wrap, or wraps to something cut off all the same. |
| `PlayerSessions.TimeoutGrows` | src/DedicateProcess/PlayerSession.cpp:157 | Below that wrap a longer round trip never gives a shorter timeout. |
| `PlayerSessions.TimeoutOfMeasured` | src/DedicateProcess/PlayerSession.cpp:157-274 | After any measurement the round trip is below 2^29, so a session's timeout is always the meant one. |
| `PlayerSessions.SmoothedBetween` | src/DedicateProcess/PlayerSession.cpp:271-273 | A sample moves the round trip one eighth of the way, rounded down: the result lies between the old value and the sample, except for the floor of 20 ms. |
| `PlayerSessions.SmoothedIff` | src/DedicateProcess/PlayerSession.cpp:271-273 | The smoothed value is the average with its floor if and only if the 32-bit sum does not wrap. |
| `PlayerSessions.NewerStampIff` | src/DedicateProcess/PlayerSession.cpp:264-268 | A stamp moves a clock if and only if it is not 0 and lies less than 2^31 after the last one. |
| `PlayerSessions.ResendSpacing` | src/DedicateProcess/PlayerSession.cpp:156-167 | A round of resending dates exactly the overdue packets anew; none of them is due again within 50 ms, and each is after a second, whatever the round trip by then. |
| `PlayerSessions.TimeoutBounds` | src/DedicateProcess/PlayerSession.cpp:157 | The retransmission timeout stays between 50 and 1000 ms. |
| `PlayerSessions.PlayerSession.ClearPendingReliableExcept` | src/DedicateProcess/PlayerSession.cpp:169-178 | Erasing while iterating leaves exactly the kept sequence, and nothing for 0. |
| `PlayerSessions.PlayerSession.UpdateRtt` | src/DedicateProcess/PlayerSession.cpp:264-274 | A repeated or older echo changes nothing; a newer one moves both the clock and the smoothed value. |
| `PlayerSessions.PlayerSession.MarkLeaving` | src/DedicateProcess/PlayerSession.cpp:180-200 | A recall or death already marked is kept, a disconnect gives way to either, a detached session is not touched. |
| `PlayerSessions.PlayerSession.NotifyLeftOnce` | src/DedicateProcess/PlayerSession.cpp:221-227 | Main is told once; the items travel only with a recall. |
| `PlayerSessions.PlayerSession.FinalizeLeave` | src/DedicateProcess/PlayerSession.cpp:202-219 | Finalizing empties the queue and notifies only if nobody did before. |
| `SessionModel.WhichMarkSticks` | src/DedicateProcess/PlayerSession.cpp:180-200 | The first mark sticks, except that a recall or a death replaces a loss of connection; a detached session takes none; a recall or a death takes the player out of play at once. |
| `SessionModel.ElapsedReaches` | src/DedicateProcess/GameRoom.cpp:360-368 | A number of milliseconds counts as elapsed if and only if it has, or the mark lies a millisecond or more ahead of the reading. |
| `SessionModel.DeathGraceIff` | src/DedicateProcess/GameRoom.cpp:360-378 | With the 32-bit cast, a dead session is ready exactly when 5000 ms have passed since its mark, or when the mark lies at least a millisecond after the clock reading of the pass. |
| `Occupancy.TakeKeeps` | src/DedicateProcess/ClientPacketHandler.cpp:198-236 | Opening, reopening, switching and taking over keep sessions and containers naming each other. |
| `Occupancy.SpawnIff` | src/DedicateProcess/ClientPacketHandler.cpp:136-150 | Replacing a session's object keeps the match exactly when it has no container open. |
| `HostileNpc.TakeoverNeedsMore` | src/DedicateProcess/UnityGameObjects/HostileNPC.h:41-46 | A granted bid for authority ends with the bidder as target and strictly more aggro. |
| `HostileNpc.RequestsKeep` | src/DedicateProcess/UnityGameObjects/HostileNPC.h:98-119 | Every change keeps aggro at the minimum exactly when there is no target. |
| `HostileNpc.HostileNPC.ApplyAggroRequest` | src/DedicateProcess/UnityGameObjects/HostileNPC.h:34-38 | Only the authority may change aggro, and naming the minimum gives authority back. |
| `HostileNpc.HostileNPC.ApplyAuthorityRequest` | src/DedicateProcess/UnityGameObjects/HostileNPC.h:41-46 | A bid is granted exactly when it exceeds the current aggro after clamping, and reports whether authority moved. |
| `HostileNpc.HostileNPC.ReleaseAuthority` | src/DedicateProcess/UnityGameObjects/HostileNPC.h:53-58 | Releasing succeeds exactly when there was a target. |
| `RoomSteps.PassMovesIff` | src/DedicateProcess/GameRoom.cpp:391-448 | A pass moves a staying session if and only if the room's 600000 ms are over, its object's death is pending, or it is in play with a nonzero echo 6000 ms old on the wrapping clock; the first two are deaths, the third a disconnect; otherwise the session is left as it is. |
| `RoomSteps.PassLeaves` | src/DedicateProcess/GameRoom.cpp:450-471 | A session on its way out is always detached, a disconnect then giving way to a death; items, report, state, resend queue, recall and whether it is finalized at once are each stated from what it was. |
| `RoomSteps.PassFinalizesIff` | src/DedicateProcess/GameRoom.cpp:370-386 | A detached session is finalized if and only if its death is 5000 ms old, or its notice is acknowledged or 3000 ms old; otherwise it is left as it is. |
| `RoomSteps.PassHands` | src/DedicateProcess/GameRoom.cpp:518-534 | Exactly who leaves loses player object and open container; everybody else keeps both. |
| `RoomSteps.PassBodies` | src/DedicateProcess/GameRoom.cpp:518-580 | Exactly the objects of those who leave go from the room; the others stay, dying or not, as they were. |
| `RoomSteps.PassNpcs` | src/DedicateProcess/GameRoom.cpp:270-291 | Exactly the NPCs driven by those who leave are let go and announced; the others keep driver, aggro and announcement. |
| `RoomSteps.PassContainers` | src/DedicateProcess/GameRoom.cpp:43-56 | Exactly the containers open to those who leave, and naming their object, are freed. |
| `RoomSteps.PassEnds` | src/DedicateProcess/GameRoom.cpp:476-491 | The lifetime is noticed once, and destruction asked for once, in the first pass that leaves everybody finalized. |
| `RoomSteps.OpenEffect` | src/DedicateProcess/ClientPacketHandler.cpp:198-236 | An open is granted if and only if the opener is active and near and the container is free, its own, or held by an object out of reach; its effect on every session and every container; a refusal changes nothing. |
| `RoomSteps.CloseEffect` | src/DedicateProcess/ClientPacketHandler.cpp:238-251 | A close frees the session's container if its object holds it, and touches nothing else. |
| `RoomSteps.HolderLosesOnly` | src/DedicateProcess/ClientPacketHandler.cpp:198-251 | Over any event, a holder loses a container only by its own open or close, by leaving, or to an open that finds it out of reach. |
| `RoomSteps.BidEffect` | src/DedicateProcess/ClientPacketHandler.cpp:1049-1064 | A bid wins if and only if, cut to the NPC's range, it exceeds its aggro; then the bidder drives that NPC at that aggro and it is announced; nothing else changes. |
| `RoomSteps.AggroEffect` | src/DedicateProcess/UnityGameObjects/HostileNPC.h:34-38 | Only who drives an NPC changes its aggro; naming its minimum lets it go; nothing else changes. |
| `RoomSteps.OnlyItsOwn` | src/DedicateProcess/ClientPacketHandler.cpp:939-980 | What a session's own messages and timers do is done to that session alone. |
| `RoomSteps.RecallStartsIff` | src/DedicateProcess/ClientPacketHandler.cpp:939-980 | A recall starts if and only if none is under way and the player is active, staying, in the room and in the zone. |
| `RoomSteps.RecallTickEffect` | src/DedicateProcess/ClientPacketHandler.cpp:883-937 | A stale timer entry changes nothing; a failed check ends the recall; the fifth passed one makes the player leave as recalled, an earlier one is counted. |
| `RoomSteps.OnlyRecallOrPassMoves` | src/DedicateProcess/PlayerSession.cpp:180-200 | Over any event, a session's leave state changes only in a pass or by the fifth passed check of its own current recall. |
| `RoomSteps.SpawnEffect` | src/DedicateProcess/ClientPacketHandler.cpp:136-150 | A spawn gives an active session, and nobody else, a new live object. |
| `RoomSteps.DeathEffect` | src/DedicateProcess/ClientPacketHandler.cpp:711-745 | A dead player's object waits for the next pass, a dead NPC is gone, and nothing else changes. |
| `RoomRuns.NextKeeps` | src/DedicateProcess/GameRoom.cpp:429-491 | Every event of a room, leave passes included, keeps the whole room invariant and moves no session backwards. |
| `RoomRuns.ContainerExclusion` | src/DedicateProcess/ClientPacketHandler.cpp:198-251 | In every reachable room, for the containers it opened with and all spawned since, a session has a container open exactly when the container names that session's object, so no two sessions operate on one. |
| `RoomRuns.SpawnKeepsIff` | src/DedicateProcess/ClientPacketHandler.cpp:136-184 | A spawn keeps the invariant exactly when the session has no container open and its old object drives no NPC. |
| `RoomRuns.FirstSpawnIsHarmless` | src/DedicateProcess/ClientPacketHandler.cpp:136-184 | A session without an object meets that condition, so a run in which nobody spawns twice is orderly. |
| `SecondSpawn.ContainerOrphaned` | src/DedicateProcess/ClientPacketHandler.cpp:136-150 | From any opening room and for any session and container: spawn, open, spawn again, and the session has the container open though its object does not hold it. |
| `SecondSpawn.ExclusionLost` | src/DedicateProcess/ClientPacketHandler.cpp:198-236 | The same run continued by any second session that comes up to the container while the first one's abandoned body, having walked off before the respawn, is out of its reach: both have it open. |
| `SecondSpawn.AuthorityOrphaned` | src/DedicateProcess/ClientPacketHandler.cpp:1049-1064 | From any opening room: spawn, bid for an NPC, spawn again, and the NPC's target is no session's object. |
| `RoomRuns.LeaveLifecycle` | src/DedicateProcess/PlayerSession.cpp:180-227 | Along any run the leave state only advances, a recall or death is never overwritten, Main is told exactly once, exactly at detachment, and what it was told stays true. |
| `RoomRuns.NpcAuthority` | src/DedicateProcess/GameRoom.cpp:270-291 | In every reachable room a target is the object of a session not yet detached and the authority last broadcast is the current one. |
| `RoomRuns.DirectTakeover` | src/DedicateProcess/ClientPacketHandler.cpp:1049-1064 | Authority passes straight from one player to another only through a bid with strictly more aggro. |
| `RoomRuns.PassIsPointwise` | src/DedicateProcess/GameRoom.cpp:429-471 | One pass does to each session what its own state, the lifetime and its own object decide, whatever the others do. |
| `RoomRuns.ExpiryEmptiesRoom` | src/DedicateProcess/GameRoom.cpp:432-471 | The first pass at or after 600000 ms detaches every session. |
| `RoomRuns.RunStamps` | src/DedicateProcess/PlayerSession.cpp:180-200 | Along any run every leave mark is a clock reading some event took, and the room's age counts from the same moment. |
| `RoomRuns.BoundedRoomLife` | src/DedicateProcess/GameRoom.cpp:429-491 | From the opening of any room: after any run and the first pass past the lifetime, whatever happens next, any pass at least the death grace later finalizes everybody and reserves destruction once. |
| `RoomRuns.DestroyedOnce` | src/DedicateProcess/GameRoom.cpp:476-491 | Destruction is reserved at most once, and only with every session finalized. |
| `RoomRuns.DeathGraceKept` | src/DedicateProcess/GameRoom.cpp:374-386 | A pass finalizes a dead session if and only if its grace is over or its mark lies a millisecond or more after the pass's reading, both known before the pass. |
| `RoomRuns.LateMarkIff` | src/DedicateProcess/GameRoom.cpp:360-378 | A session that stays and whose death this very pass marks is finalized in it if and only if a millisecond or more passes between the pass's two clock readings. |
| `RoomRuns.GraceSkippedByLateMark` | src/DedicateProcess/GameRoom.cpp:432-471 | A room just opened with one player: its first pass past the lifetime, a millisecond long, kills and finalizes him at once. |
| `GameRooms.GameRoom.constructor` | src/DedicateProcess/DediServerService.cpp:153-169 | A room opens in the state from which the run theorems start. |
| `GameRooms.GameRoom.OpenContainer` | src/DedicateProcess/ClientPacketHandler.cpp:198-236 | The handler with its eviction of a holder out of reach grants exactly when allowed and reaches the specified occupancy. |
| `GameRooms.GameRoom.ReleaseInteractingContainer` | src/DedicateProcess/GameRoom.cpp:43-56 | Releasing frees the container only if it still names the session's object. |
| `GameRooms.GameRoom.ReleaseNpcAuthority` | src/DedicateProcess/GameRoom.cpp:281-291 | The loop releases and announces exactly the NPCs the leaving object drives. |
| `GameRooms.GameRoom.DetachPlayer` | src/DedicateProcess/GameRoom.cpp:518-580 | Detaching ends the recall, frees container and NPCs, removes the object and notifies; a dead player with a body leaves a new container with everything, one cut off loses everything. |
| `GameRooms.GameRoom.SpawnPlayerLootContainer` | src/DedicateProcess/GameRoom.cpp:502-507 | A loot container takes the next object id, is held by nobody and holds the things given. |
| `GameRooms.GameRoom.MarkDeaths` | src/DedicateProcess/GameRoom.cpp:437-448 | Exactly the sessions whose object has a pending death are marked, whatever the order. |
| `GameRooms.GameRoom.CheckAllLeft` | src/DedicateProcess/GameRoom.cpp:476-491 | Destruction is reserved exactly when every session is finalized and it was not yet. |
| `GameRooms.GameRoom.ProcessLeaves` | src/DedicateProcess/GameRoom.cpp:429-474 | The five loops over unordered maps reach the one room the order-free specification names, whose every field RoomSteps.PassMovesIff to RoomSteps.PassEnds state from the room before, with a container for each dead player numbered in the order of the settling loop. |
| `GameRooms.SettleOneMore` | src/DedicateProcess/GameRoom.cpp:461-471 | Settling sessions one at a time commutes: the result depends on the set settled, not on the order. |
| `GameRooms.MarkedInTurn` | src/DedicateProcess/GameRoom.cpp:432-459 | The lifetime, death, disconnect and queue loops together mark each session as if it were alone. |
| `RoomLoot.DeadLeaveTheirThings` | src/DedicateProcess/GameRoom.cpp:533-556 | When a pass detaches a dead player with a body, all the player had is in a new container of the room, held by nobody and different for each of the dead, and the player has nothing. |
| `RoomLoot.CorpseIff` | src/DedicateProcess/GameRoom.cpp:437-471 | A pass makes such a container for exactly the sessions it detaches as dead and with a body. |
| `RoomLoot.PassItems` | src/DedicateProcess/GameRoom.cpp:536-556 | A pass takes things from exactly the dead and the cut off that have a body; nobody else's change. |
| `RoomLoot.ThingsConserved` | src/DedicateProcess/GameRoom.cpp:429-474 | Over any run of the room, with exchanges, deaths and departures in any loop order, what players carry and containers hold, plus what was fired, spilled or lost with those cut off, is what there was. |
| `RoomLoot.RoomIsReached` | src/DedicateProcess/GameRoom.cpp:429-474 | Following the things changes nothing about the room: every room so reached is one a run of the room reaches, with the containers spawned right after the pass. |
| `RoomInventory.OperationIsExchange` | src/DedicateProcess/ClientPacketHandler.cpp:341-560 | Every operation on the slots of a player and of the open container, accepted or not, is in the room an exchange between the two and the spending of what it fired or spilled; the slots still show what the room holds, and nothing else changes. |
| `RoomInventory.Balanced` | src/DedicateProcess/ClientPacketHandler.cpp:341-560 | Slot by slot operations keep the multiset of things over player and container, less what was used up. |
| `RoomInventory.DropIsEverything` | src/DedicateProcess/UnityGameObjects/PlayerLootContainer.h:18-37 | A dead player's container, slot by slot, is filled with all the things the room says the player had. |
| `Matching.SearchSize` | src/Matchmaker.cpp:129-165 | A search finds as many tickets as are available within the allowed difference, up to four. |
| `Matching.SearchShape` | src/Matchmaker.cpp:129-165 | A group leads with its pivot and holds at most four distinct, available tickets within the allowed difference. |
| `Matching.NobodyOvertaken` | src/Matchmaker.cpp:139-152 | Of two available tickets of one aggression, the later is taken only together with the earlier. |
| `Matching.RememberingGroups` | src/Matchmaker.cpp:103-178 | Every group is its pivot's own search, at the pivot's own clock reading, on the tickets no earlier group took, with at least the size its wait requires. |
| `Matching.GroupsDisjoint` | src/Matchmaker.cpp:169-173 | No ticket is in two groups. |
| `Matching.LeftoversAreStuck` | src/Matchmaker.cpp:103-178 | Matching is maximal, whatever the clock reads at each pivot: for every ticket left over, on the terms of any moment not after the cycle's readings, the unmatched tickets in its allowed range are fewer than it requires. |
| `Matching.MinuteIsEnough` | src/Matchmaker.cpp:118-120 | A ticket that has waited 60 seconds when the cycle begins is always in a group. |
| `Matching.LosesNothingIff` | src/Matchmaker.cpp:107-112 | Remembering failed levels finds the groups of the search without memory if and only if every pivot it skips would have failed as well. |
| `Matching.SteadyLosesNothing` | src/Matchmaker.cpp:107-120 | It loses nothing when no ticket is, at its turn, in a higher waiting bracket than an earlier ticket of its aggression was at its own; one reading for the whole cycle is such a case. |
| `Matching.OneReadingIsSteady` | src/Matchmaker.cpp:103-120 | With a single clock reading and the queue in order of arrival, that condition holds. |
| `Matching.SameTermsAreSteady` | src/Matchmaker.cpp:112-127 | Nor when all readings of the cycle lie between two moments and no ticket changes its waiting bracket between them. |
| `Matching.MemoryLosesAGroup` | src/Matchmaker.cpp:107-127 | Three tickets of one moment and level, the clock passing 20 seconds by one tick between the first and the second: without memory they are a group, with it nobody is matched this cycle. |
| `Matching.StuckStays` | src/Matchmaker.cpp:112-127 | A failed search stays failed for a shorter wait and fewer available tickets: ranges only narrow and requirements only grow. |
| `Matching.BucketAgreesIff` | src/Matchmaker.cpp:21-43 | Appending arrivals to a bucket agrees with merging them into the queue exactly when no arrival is older than a queued ticket of its aggression. |
| `Matching.SearchOrder` | src/Matchmaker.cpp:129-167 | A ticket is in a group only if every available ticket that comes sooner is, and those stand before it, behind the pivot: sooner means nearer in aggression, then above before below, then further ahead in the queue. |
| `Matching.GroupTerms` | src/Matchmaker.cpp:107-127 | Every group of a cycle has at most four, and by its first ticket's wait at its reading at least four of one aggression, from 20 s three, from 40 s two, one level apart at most, from 60 s one. |
| `Matching.LeftoverTerms` | src/Matchmaker.cpp:103-178 | Who is left over had waited less than 60 s at the start of the cycle, and among the unmatched is alone within one level from 40 s on, one of at most two of its level from 20 s on, of at most three before. |
| `Matching.LeadersInOrder` | src/Matchmaker.cpp:103-127 | The groups of a cycle are led in order of arrival. |
| `Matching.SortSorts` | src/Matchmaker.cpp:21-25 | Sorting arrivals keeps the tickets and puts their stamps in order. |
| `Matching.SortIsStable` | src/Matchmaker.cpp:21-25 | Arrivals of one stamp keep their order. |
| `Matchmakers.QueuedIff` | src/Matchmaker.cpp:47-101 | After a cycle exactly those are queued who were, or arrived, and did not leave with a group that was placed or was refused for them. |
| `Matchmakers.MatchMaker.SearchGroup` | src/Matchmaker.cpp:129-167 | The ring-by-ring scan with its size breaks and bounds returns the search whose size, members and order Matching.SearchSize, Matching.SearchShape and Matching.SearchOrder fix: the level above before the level below in each ring. |
| `Matchmakers.MatchMaker.FindMatchGroup` | src/Matchmaker.cpp:103-178 | The pivot loop over flags, matched marks and buckets, with its own clock reading per pivot, finds exactly the groups that Matching.RememberingGroups, Matching.SearchOrder, Matching.GroupTerms and Matching.LeftoversAreStuck fix, and marks exactly their members. |
| `Matchmakers.MatchMaker.AddNewMatchTickets` | src/Matchmaker.cpp:17-45 | With nondecreasing stamps, sorting and merging append the arrivals; buckets agree with the queue. |
| `Matchmakers.MatchMaker.AddSingleMatchTicket` | src/Matchmaker.cpp:12-15 | A ticket from the pool, given back before or not, is queued without breaking order or distinctness and no longer counts as given back. |
| `Matchmakers.MatchMaker.StartMatchMakeInternal` | src/Matchmaker.cpp:220-246 | After commits, rollbacks and refusals, exactly the placed and the refused no longer waiting stay marked matched. |
| `Matchmakers.MatchMaker.ReleaseAndDeleteTickets` | src/Matchmaker.cpp:47-101 | Queue and buckets lose exactly the tickets gone, in agreement; each goes back to the pool once; no Redis key is ever deleted here. |
| `Matchmakers.MatchMaker.CollectLeaving` | src/Matchmaker.cpp:50-56 | A refused ticket is still marked matched, so the list of tickets to delete is always empty. |
| `Matchmakers.MatchMaker.StartMatchMake` | src/Matchmaker.cpp:248-253 | One cycle: the groups, the survivors in order, and the released, all determined by the queue, the clock's readings and the answers; queue and buckets agree again, sorted, and no ticket is in them twice or after its release. |
| `Matchmakers.SurvivorsKeepTheirPlace` | src/Matchmaker.cpp:58-61 | Over any cycles and answers, tickets still queued keep the order in which they came. |
| `CapacityModel.MakeRoomKeeps` | src/DedicateProcess/DediServerService.cpp:131-169 | A new room's session ids belong to no other room and are no longer free, however many players it has. |
| `CapacityModel.DestroyRoomKeeps` | src/DedicateProcess/DediServerService.cpp:356-385 | Destroying a room returns its ids and empties its slots, keeping every id free once or live once. |
| `CapacityModel.FreeIsWhatIsLeft` | src/DedicateProcess/DediServerService.cpp:20-26 | While no slot was added, free ids and live sessions make up the fifty. |
| `CapacityModel.RoomSeats` | src/DedicateProcess/DediServerService.cpp:131-169 | The k-th player of a group gets the k-th free session id, and where the queue ends a new slot; as many ids as players; nobody else moves. |
| `CapacityModel.AllocateEffect` | src/M2DSessions.cpp:76-96 | A group is taken if and only if it fits into the fifty and the process lives; a ready process is then sent everything queued and then the group, one still starting gets it queued; a refusal changes nothing. |
| `CapacityRuns.GroupsInOrder` | src/M2DSessions.cpp:76-118 | In every state of every run the groups taken are, each once and in the order taken, those arrived, then those on the wire, then those queued. |
| `CapacityRuns.CapacityHolds` | src/M2DSessions.cpp:76-108 | Under every interleaving Main's counter is the sum of queued, sent, live, reported and lost players, within 0..50, with no session id shared. |
| `CapacityRuns.IdsSuffice` | src/DedicateProcess/DediServerService.cpp:278-288 | A group that arrives always finds an id in the queue for each of its players. |
| `CapacityRuns.ReleaseNeverClamps` | src/M2DSessions.cpp:98-108 | The cut-off of a negative counter never fires. |
| `CapacityRuns.RefusedIff` | src/M2DSessions.cpp:76-80 | The counter never falls below what was promised, and a group is refused exactly when promises, notices and losses leave no room. |
| `CapacityRuns.IdleIsEmpty` | src/M2DSessions.h:46-58 | When nothing is queued, sent, live or reported, only players lost with their tickets or with an unknown map are still counted. |
| `DediServers.DediServerService.GetFreeSessionId` | src/DedicateProcess/DediServerService.cpp:278-288 | The oldest free id, or a new slot at the end of the table. |
| `DediServers.DediServerService.MakeRoomForThisGroup` | src/DedicateProcess/DediServerService.cpp:106-179 | An unknown map uses up a room number and makes nothing; otherwise each player gets the next id and the room holds exactly those. |
| `DediServers.DediServerService.DestroyRoom` | src/DedicateProcess/DediServerService.cpp:356-385 | Reports the player count, empties the slots and returns the ids in some order; a missing room changes nothing. |
| `DediServers.DediServerService.DestroyPendingRooms` | src/DedicateProcess/DediServerService.cpp:340-354 | At most once a second: the reserved rooms are destroyed one after the other, and one player count is reported for each room at its first mention; otherwise nothing changes. |
| `DediServers.RoomsGoneIs` | src/DedicateProcess/DediServerService.cpp:340-385 | Exactly the reserved rooms that exist go, even if reserved twice; their slots are emptied and their ids join the queue behind those already there, each once. |
| `DediServers.CountsOnce` | src/DedicateProcess/DediServerService.cpp:340-385 | The reports of a destruction are as many as different existing rooms were reserved. |
| `DediServers.CountsAre` | src/DedicateProcess/DediServerService.cpp:356-385 | Each report is the number of sessions of one of those rooms. |
| `DediServers.DediServerService.CheckRetransmits` | src/DedicateProcess/DediServerService.cpp:242-276 | At most every 50 ms and with the parity flipping: the unfinalized sessions of that parity have their overdue packets resent and dated anew, all others are untouched; true exactly if something was sent. |
| `DediManagers.M2DSession.AllocatePlayers` | src/M2DSessions.cpp:76-96 | A group is counted exactly if it fits, and what happens to it is what CapacityModel.AllocateEffect says: a ready process is sent the queue and then the group at once, one still starting keeps it queued. |
| `DediManagers.M2DSession.ReleasePlayers` | src/M2DSessions.cpp:98-108 | Subtracts, cut off at zero. |
| `DediManagers.M2DSession.FlushPendingTickets` | src/M2DSessions.cpp:110-118 | Sends the queued groups in order and empties the queue. |
| `DediManagers.M2DSession.BindSocket` | src/M2DSessions.cpp:12-16 | Becoming ready sends nothing that was queued. |
| `DediManagers.DediManager.FindAvailableSessionAndDistributePlayerGroup` | src/DediManager.cpp:151-158 | The group goes to exactly one process that could take it, or to none and nothing changes. |
| `DediManagers.DediManager.DistributePlayerGroup` | src/DediManager.cpp:75-87 | A group is placed unless no process can take it and none can be started; all other counters are untouched. |
| `TicketProtocol.Redis.VerifyAndSetMatchStatus` | src/Matchmaker.cpp:183-195 | The two loops of the script compute the commit. |
| `TicketProtocol.CommitAllOrNothing` | src/Matchmaker.cpp:180-218 | A commit moves the whole group from WAITING to INPROGRESS or changes nothing, and touches no other ticket. |
| `TicketProtocol.Redis.MatchCancel` | HTTPServer/routes/match.js:60-96 | The script in place; what its answers mean and what it deletes are TicketProtocol.CancelAnswer and TicketProtocol.CancelEffect. |
| `TicketProtocol.CancelEffect` | HTTPServer/routes/match.js:60-96 | A cancellation deletes the ticket if and only if it is stored, waiting and the asking user's, and changes nothing else. |
| `TicketProtocol.CancelAnswer` | HTTPServer/routes/match.js:60-96 | Each of the answers -1, 0, 1, 2 and 3 if and only if its condition on ticket, owner, status and lock holds. |
| `TicketProtocol.NobodyElseTakesIt` | HTTPServer/routes/match.js:83-96 | In every reachable state a user's ticket goes only by the user's own cancellation or login, by its expiry or by its game; no other user's cancellation or login touches it, and no step puts another name on it. |
| `TicketProtocol.StaysTheUsers` | HTTPServer/routes/match.js:83-96 | So over any run without one of these the ticket stays stored under its user's name. |
| `TicketProtocol.LoginEffect` | HTTPServer/routes/auth.js:40-87 | A login is refused if and only if the user's game runs or the ticket behind the lock is past waiting; otherwise exactly the lock goes, with that ticket if it waits. |
| `TicketProtocol.LoginAnswer` | HTTPServer/routes/auth.js:40-87 | Each answer to a login if and only if its condition on lock and ticket holds. |
| `TicketProtocol.StartEffect` | HTTPServer/routes/match.js:221-245 | A lock is set only where there is none, on a ticket id never used, and the ticket is written waiting under its taker's name. |
| `TicketProtocol.RefuseEffect` | src/Matchmaker.cpp:234-246 | Of a refused group exactly those leave Main's queue that are gone or no longer wait. |
| `TicketProtocol.PlaceEffect` | src/Matchmaker.cpp:222-233 | A placed group is handed over whole and leaves the queue; one given up stays queued. |
| `TicketProtocol.OwnerReadEffect` | src/DBProxyRequest.cpp:118-132 | Reading the owner of a handed ticket notes the stored owner and changes nothing else. |
| `TicketProtocol.IngameEffect` | src/DBProxyRequest.cpp:126-128 | Marking sets exactly that owner's lock to the running game of that ticket. |
| `TicketProtocol.SuccessEffect` | src/DBProxyRequest.cpp:135-139 | Writing the success sets the status, keeps the owner and touches no other ticket and no lock. |
| `TicketProtocol.Redis.LoginTakeover` | HTTPServer/routes/auth.js:40-87 | A login is refused during a game or a match being set up and then changes nothing; otherwise it frees the lock, destroys and names the waiting ticket, and replaces the login session, all exactly as answered. |
| `TicketProtocol.Redis.Logout` | HTTPServer/routes/auth.js:17-37 | Deletes the session, and the link only if it still names it. |
| `LoginSessions.LogoutEffect` | HTTPServer/routes/auth.js:17-37 | A logout ends its session and no other; the link goes exactly if it names that session, and every other link stays. |
| `LoginSessions.LoginEffect` | HTTPServer/routes/auth.js:68-81 | A login opens and links its session, ends the session its user's link named, and touches no other user. |
| `LoginSessions.OneSessionEach` | HTTPServer/routes/auth.js:68-81 | In every run in which nobody logs in during their own sign-up, each user has at most one live login session, and a login leaves only the new one. |
| `LoginSessions.OneSessionEachIff` | HTTPServer/routes/auth.js:68-125 | Over every run, each user always has at most one live login session if and only if no step doubles: no login while a live session of the user is not the one the link names, and no sign-up hash while the user has a live session. |
| `LoginSessions.DoublesIff` | HTTPServer/routes/auth.js:68-121 | The same for one step from any state with at most one live session each, whatever its links and sign-ups. |
| `LoginSessions.SignUpRace` | HTTPServer/routes/auth.js:113-125 | One run in which a login between the commands of a sign-up leaves a session that a later login does not take over. |
| `LoginSessions.SignUpRaceBeforeHash` | HTTPServer/routes/auth.js:109-125 | The same with the login between the row and the first command. |
| `LoginSessions.SignUpRaceAfterExpiry` | HTTPServer/routes/auth.js:113-125 | The same with the sign-up session expired before the login, so that the link names a dead session. |
| `TicketProtocol.RunOk` | HTTPServer/routes/match.js:60-96 | The invariant of tickets, queue, group in hand and handed groups over all interleavings. |
| `TicketProtocol.HandedForever` | src/DBProxyRequest.cpp:118-154 | A ticket in a group handed to a Dedicated never waits again, is never deleted by a cancellation or login, and is in no queue another group could take it from; reading the owner, setting the lock and writing the status are separate steps. |
| `TicketProtocol.RunningMeansHanded` | src/DBProxyRequest.cpp:118-154 | Whoever is told that a game is running has a ticket that was handed to a Dedicated, whatever falls between reading owners, setting locks, logins and cancellations. |
| `TicketProtocol.OneGroupEach` | src/Matchmaker.cpp:220-246 | No ticket is in two handed groups, nor twice in one. |
| `TicketProtocol.CancelledForGood` | HTTPServer/routes/match.js:369-374 | A ticket destroyed by cancellation or login never comes back and never plays. |
| `TicketProtocol.RollBackKeepsOwnerIff` | src/Matchmaker.cpp:227-231 | A rolled-back ticket keeps its owner exactly when it had not expired in between. |
| `TicketProtocol.RollBackRevives` | src/Matchmaker.cpp:227-231 | One run from the empty store in which a rollback brings an expired ticket back as WAITING with no uid. |
| `TicketProtocol.OwnerlessIff` | src/Matchmaker.cpp:227-231 | In every reachable state a stored ticket has no owner if and only if it was written to after it was gone. |
| `TicketProtocol.RevivesIff` | src/DBProxyRequest.cpp:135-139 | Exactly two steps write to a ticket that is gone: rolling it back, which leaves it waiting, and writing its success. |
| `TicketProtocol.OwnerlessIsStuck` | HTTPServer/routes/match.js:64-80 | A ticket without owner arises only in those ways, and no cancellation ever removes it. |
| `RecallTimer.TickIsCheck` | src/DedicateProcess/ClientPacketHandler.cpp:883-937 | The timer callback moves the recall like the check of the timer machine and marks the session RECALLED exactly on success. |
| `RecallTimer.RecallingIffScheduled` | src/DedicateProcess/PlayerSession.h:166-180 | A session is recalling exactly when one outstanding entry carries its current generation, and otherwise none does. |
| `RecallTimer.FiveSecondsAtLeast` | src/DedicateProcess/ClientPacketHandler.cpp:924-936 | A recall succeeds only after five checks of one generation, the first a second after the request and each a second after the last: at least 5000 ms. |
| `RecallTimer.WhatIsScheduled` | src/DedicateProcess/ClientPacketHandler.cpp:850-937 | A request that starts a recall schedules its first check a second later under a new number, a passed check short of the fifth the next a second later, and nothing else schedules any. |
| `RecallTimer.DueIff` | src/DedicateProcess/TimerExecuter.cpp:9-20 | Due at a reading is every entry whose time has come, as often as the heap has it, and no other. |
| `RecallTimer.FireKeeps` | src/DedicateProcess/ClientPacketHandler.cpp:883-937 | A stale entry changes nothing; a current one is used up and at most replaced. |
| `RecallTimer.TimerExecuter.Tick` | src/DedicateProcess/TimerExecuter.cpp:9-20 | Runs each due entry of every session once, in order of time, each callback with its own clock reading, and ends: what callbacks schedule is never due in the same call; every session's recall stays in order. |
| `RecallTimer.TimerExecuter.RequestRecall` | src/DedicateProcess/ClientPacketHandler.cpp:955-980 | A request that begins a recall adds its first check to the shared timer and touches no other session. |
| `RecallTimer.TimerExecuter.RunCallback` | src/DedicateProcess/ClientPacketHandler.cpp:883-937 | One check in place, with its rescheduling, is the step of that session's timer machine and touches no other session. |
| `InventoryModel.LoadAmount` | src/DedicateProcess/PlayerInventory.cpp:29-67 | A reload moves exactly the lesser of what fits and what is there. |
| `InventoryModel.LoadLowestFirst` | src/DedicateProcess/PlayerInventory.cpp:41-61 | A slot is touched only when no lower slot holds that ammunition any more. |
| `InventoryModel.LoadConserves` | src/DedicateProcess/PlayerInventory.cpp:41-61 | A reload keeps every total. |
| `InventoryModel.UnloadConserves` | src/DedicateProcess/PlayerInventory.cpp:79-107 | An unload keeps every total, except that with no stack and no empty slot it loses exactly the magazine. |
| `InventoryModel.UnloadSlotIs` | src/DedicateProcess/PlayerInventory.cpp:79-107 | The slot reported takes all the rounds and is the only inventory slot to change; -1 means there was nothing to unload or it was lost. |
| `InventoryModel.EquipChangesAreTold` | src/DedicateProcess/ClientPacketHandler.cpp:540-597 | Equipping changes no inventory slot but the one named and the one the answer reports. |
| `InventoryModel.UnequipChangesAreTold` | src/DedicateProcess/ClientPacketHandler.cpp:540-597 | Unequipping changes no inventory slot but the one named and the one the answer reports, though the weapon moves first. |
| `InventoryModel.PourConserves` | src/DedicateProcess/ClientPacketHandler.cpp:398-451 | Moving or merging a valid quantity keeps every total. |
| `InventoryRuns.ApplyKeeps` | src/DedicateProcess/PlayerInventory.cpp:109-198 | Every operation keeps the slots well formed, each magazine right for its weapon, and an armed player armed. |
| `InventoryRuns.ApplyConserves` | src/DedicateProcess/ClientPacketHandler.cpp:341-467 | Every operation keeps each kind's total over player and container, minus exactly the spilled magazine or the fired round. |
| `InventoryRuns.RunConserves` | src/DedicateProcess/ClientPacketHandler.cpp:341-467 | The same over any run of operations. |
| `InventoryRuns.DropKeepsAll` | src/DedicateProcess/UnityGameObjects/PlayerLootContainer.h:18-37 | A dead player's container holds everything the player had, and thirty slots suffice. |
| `PlayerInventories.PlayerInventory.constructor` | src/DedicateProcess/PlayerInventory.cpp:5-27 | Later entries override earlier ones, entries for no slot are dropped, and then both magazines are loaded, the primary first. |
| `PlayerInventories.PlayerInventory.LoadBoth` | src/DedicateProcess/PlayerInventory.cpp:23-26 | The two loads of the construction and the first-empty index after them. |
| `PlayerInventories.OutfitOk` | src/DedicateProcess/PlayerInventory.cpp:23-26 | Every player starts with magazines right for their weapons. |
| `PlayerInventories.PlayerInventory.UpdateFirstEmptySlotIndex` | src/DedicateProcess/PlayerInventory.cpp:255-263 | The index is the least empty slot, or -1. |
| `PlayerInventories.PlayerInventory.LoadMagazineFromInventory` | src/DedicateProcess/PlayerInventory.cpp:29-67 | The in-place loop computes the load; the version moves exactly when something did. |
| `PlayerInventories.PlayerInventory.ReloadMagazine` | src/DedicateProcess/PlayerInventory.cpp:69-77 | Reports true exactly when a reload could do something. |
| `PlayerInventories.ReloadsIff` | src/DedicateProcess/PlayerInventory.cpp:69-77 | A reload changes something exactly when the weapon takes ammunition, the magazine has room and the inventory has some. |
| `PlayerInventories.PlayerInventory.UnloadMagazineToInventory` | src/DedicateProcess/PlayerInventory.cpp:79-107 | First matching stack, else first empty slot, else lost; the slot is reported, and the first-empty index kept true. |
| `PlayerInventories.PlayerInventory.EquipWeaponFromSlot` | src/DedicateProcess/PlayerInventory.cpp:109-129 | Through a slot reference that may alias the inventory or a container: unload, then exchange, and report the slot of the rounds; a refusal changes nothing. Slot by slot that is InventorySteps.EquipEffect. |
| `PlayerInventories.PlayerInventory.UnequipWeaponToSlot` | src/DedicateProcess/PlayerInventory.cpp:131-161 | The weapon moves before its magazine is unloaded, and the slot of the rounds is reported; leaving both weapon slots empty is refused; a refusal changes nothing. |
| `PlayerInventories.PlayerInventory.EquipArmorFromSlot` | src/DedicateProcess/PlayerInventory.cpp:163-179 | Exchanges armor with the referenced slot, or changes nothing. |
| `PlayerInventories.PlayerInventory.UnequipArmorToSlot` | src/DedicateProcess/PlayerInventory.cpp:181-198 | Moves or exchanges armor, or changes nothing. |
| `PlayerInventories.PlayerInventory.FireRound` | src/DedicateProcess/ClientPacketHandler.cpp:689-702 | Takes one round and clears an emptied magazine; an empty one refuses. |
| `PlayerInventories.PlayerInventory.Clear` | src/DedicateProcess/PlayerInventory.cpp:241-253 | Everything goes and the version moves once. |
| `PlayerInventories.Container.PlaceItem` | src/DedicateProcess/UnityGameObjects/Container.h:54-61 | Places only in range and with a positive quantity. |
| `PlayerInventories.Container.FillFrom` | src/DedicateProcess/UnityGameObjects/PlayerLootContainer.h:21-37 | The advancing index fills the slots with the player's things in order and without gaps. |
| `PlayerInventories.InteractContainerObject` | src/DedicateProcess/ClientPacketHandler.cpp:341-467 | Get, exchange and merge between aliased slots: granted exactly under the stated conditions, versions of those touched move once, a refusal changes nothing. |
| `PlayerInventories.RequestEquipItem` | src/DedicateProcess/ClientPacketHandler.cpp:490-597 | Equip requests: granted exactly with current versions and no denial, and then what InventorySteps.EquipEffect, InventorySteps.UnequipEffect and InventorySteps.ArmorEffect say of every slot, with both versions moved and the slot of an unloaded magazine in the answer. |
| `InventorySteps.EquipEffect` | src/DedicateProcess/PlayerInventory.cpp:109-129 | Equipping goes through if and only if the slot holds a weapon: weapon and gun change places, the magazine is emptied into the first stack of its kind or the first free slot, and every other slot, the other weapon, its magazine and the armor stay; otherwise nothing changes. |
| `InventorySteps.UnequipEffect` | src/DedicateProcess/PlayerInventory.cpp:131-161 | Unequipping goes through if and only if there is a gun and the slot holds a weapon, or is free while the other hand is not; slot by slot the same exchange, the rounds going to another slot. |
| `InventorySteps.ArmorEffect` | src/DedicateProcess/PlayerInventory.cpp:163-198 | Armor goes on exactly from a slot with armor and comes off exactly into a free slot or one with armor; the two change places and nothing else moves. |
| `InventorySteps.EquipAnswers` | src/DedicateProcess/PlayerInventory.cpp:109-179 | Each answer to an equip request if and only if its condition on the slot holds. |
| `InventorySteps.UnequipAnswers` | src/DedicateProcess/PlayerInventory.cpp:131-198 | Each answer to an unequip request, the refusal to go bare-handed included, if and only if its condition holds. |
| `InventorySteps.InteractionAnswers` | src/DedicateProcess/ClientPacketHandler.cpp:382-455 | Each answer to a move, exchange or merge if and only if its condition on slots, kind and quantity holds. |
| `InventorySteps.ActEffect` | src/DedicateProcess/ClientPacketHandler.cpp:397-451 | When a move, exchange or merge goes through, and its effect on every slot. |
| `InventorySteps.ShotEffect` | src/DedicateProcess/ClientPacketHandler.cpp:689-702 | A shot takes one round out of its own magazine, if there is one, and touches no other slot. |
| `InventorySteps.ReloadFills` | src/DedicateProcess/PlayerInventory.cpp:29-67 | After a reload the magazine holds its weapon's rounds, as many as it had and the inventory has, up to thirty. |
| `InventorySteps.ReloadLeaves` | src/DedicateProcess/PlayerInventory.cpp:41-61 | A reload touches no other gear, no container and no slot with anything else. |
| `InventorySteps.InteractionAdmitted` | src/DedicateProcess/ClientPacketHandler.cpp:303-385 | Which versions, slots and open container a move needs. |
| `InventorySteps.EquipAdmitted` | src/DedicateProcess/ClientPacketHandler.cpp:496-539 | Which versions, slots and open container an equip request needs. |
| `InventorySteps.RequestMeans` | src/DedicateProcess/ClientPacketHandler.cpp:541-555 | Slot type 0 is the primary weapon, 1 the secondary one, 2 the armor. |
| `InventorySteps.OutfitSlot` | src/DedicateProcess/PlayerInventory.cpp:5-22 | A slot starts with the last entry for it. |
| `InventorySteps.OutfitGear` | src/DedicateProcess/PlayerInventory.cpp:5-22 | So do the two weapons and the armor. |
| `InventorySteps.OutfitElse` | src/DedicateProcess/PlayerInventory.cpp:5-22 | Slots without an entry and, before loading, both magazines start empty. |
| `InventorySteps.DropPlace` | src/DedicateProcess/UnityGameObjects/PlayerLootContainer.h:18-37 | A dead player's things lie in the container without gaps: primary weapon and magazine, secondary weapon and magazine, armor, then the inventory in order. |
| `CombatObjects.NoRoundingLost` | src/DedicateProcess/UnityGameObjects/CombatObject.h:48-63 | However time is cut into ticks, the shield regained is that of the whole time, up to the maximum. |
| `CombatObjects.HitKeeps` | src/DedicateProcess/UnityGameObjects/CombatObject.h:65-91 | Both bars stay in range and death comes exactly at zero; a breaking shield passes on exactly what it does not stop, and one that holds loses the whole damage and lets through exactly the share its reduction rate leaves, rounded down. |
| `CombatObjects.NothingToRegain` | src/DedicateProcess/UnityGameObjects/CombatObject.h:50-56 | Without a rate, with a full shield or when dead nothing is regained and what was collected is forgotten. |
| `CombatObjects.LossIsUnique` | src/DedicateProcess/UnityGameObjects/CombatObject.h:79-81 | For every hit there is exactly one such loss. |
| `CombatObjects.CombatObject.RegenShield` | src/DedicateProcess/UnityGameObjects/CombatObject.h:50-63 | The accumulator in place computes the regeneration. |
| `CombatObjects.CombatObject.TakeDamage` | src/DedicateProcess/UnityGameObjects/CombatObject.h:65-91 | Penetration, reduction, death and the last attacker in place. |
| `LobbyEconomy.ValidateSnapshot` | HTTPServer/utils/inventorySnapshot.js:4-23 | Accepts exactly the snapshots with well-formed entries and no slot twice, and returns them by slot. |
| `LobbyEconomy.TotalsMatch` | HTTPServer/utils/inventorySnapshot.js:25-42 | Comparing map sizes and one side's totals accepts exactly when both sides have the same items with the same totals. |
| `LobbyEconomy.SameTotalsIff` | HTTPServer/utils/inventorySnapshot.js:25-42 | With positive quantities that is the equality of every item's sum. |
| `LobbyEconomy.SameTotalsSameValue` | HTTPServer/utils/inventorySnapshot.js:25-42 | Equal totals are worth the same under any price table, however laid out. |
| `LobbyEconomy.TxKeeps` | HTTPServer/routes/items.js:61-92 | An accepted purchase, sale or match start conserves money plus value, keeps money nonnegative and slots distinct, and changes item totals by exactly what it names. |
| `LobbyEconomy.WorthIsConstant` | HTTPServer/routes/items.js:120-180 | Over any run of requests money plus value is constant, money never negative, slots valid and distinct. |
| `LobbyEconomy.StartEffect` | HTTPServer/routes/match.js:116-203 | A start is accepted if and only if the snapshot matches the account and carries nothing (free) or a weapon in slot 105 or 106 (custom); it then leaves the money and exactly the snapshot's rows at their slots, and otherwise everything as it was. |
| `LobbyEconomy.PurchaseEffect` | HTTPServer/routes/items.js:12-92 | When a purchase is accepted, condition by condition, and that it then costs exactly its price and adds exactly its row to the snapshot's. |
| `LobbyEconomy.SaleEffect` | HTTPServer/routes/items.js:107-180 | When a sale is accepted, and that it then brings in exactly its price and takes exactly its row out of the snapshot's. |
| `LobbyEconomy.Wallet.PurchaseItem` | HTTPServer/routes/items.js:12-92 | A purchase goes through exactly under the stated conditions, and otherwise changes nothing; each refusal names a condition that fails. |
| `LobbyEconomy.Wallet.SellItem` | HTTPServer/routes/items.js:107-180 | A sale goes through exactly for a row of the snapshot with a usable price, and otherwise changes nothing. |
| `LobbyEconomy.Wallet.StartMatch` | HTTPServer/routes/match.js:116-203 | A match start rearranges the rows exactly if the loadout is allowed; a refused loadout rolls the rows back. |

## Left out

- The client: its own code is not part of this model; the peer endpoint runs the server's functions.
- Sequence wrap-around: reliable sequences are assumed not to wrap within a session, as the design states.
- PlayerSessions.PlayerSession.MakePacket: assumes the next reliable sequence is below 2^32, which is the design's own assumption, and that pending sequences are earlier ones, which ReliableChannel.RunKeepsInvariant keeps.
- Matchmakers.MatchMaker.AddSingleMatchTicket: assumes nondecreasing arrival stamps, as a steady clock gives; Matching.BucketAgreesIff says what other stamps would do.
- Matchmakers.MatchMaker.StartMatchMakeInternal: a Redis exception during the commit is one more refusal; an exception during rollback or status lookup is unhandled in the code and not modelled.
- GameRooms.GameRoom.ProcessLeaves: one reading serves all MarkLeaving calls of a pass, and sessions are values in the room's map rather than shared objects, so that a session object being in two maps is not captured; PlayerSessions.PlayerSession proves the same operations on the object.
- GameRooms.GameRoom.DetachPlayer: the broadcast packets and the failure to obtain a send buffer for the notice to Main are not modelled; a container's things are a multiset here, and its slots are PlayerInventories.Container.FillFrom.
- RoomRuns.LeaveLifecycle: items are a multiset in the room model; their slots are modelled in the inventory modules.
- RecallTimer.RecallingIffScheduled: generations and pass counts are unbounded, and a timer entry outliving its session and meeting a later session of the same player under the same id is not modelled.
- RecallTimer.TimerExecuter.Tick: the binary heap is a sequence from which an earliest entry is taken, and all callbacks are recall checks, as they are in the source.
- CapacityRuns.CapacityHolds: process death, a notice for which no send buffer is available, and Main's restart are not modelled.
- DediManagers.M2DSession.BindSocket: no liveness is claimed for groups queued before the process is ready.
- DediServers.DediServerService.MakeRoomForThisGroup: entry tokens and their map to sessions are left out.
- TicketProtocol.HandedForever: ticket ids are assumed unique, and who holds the active_match lock is not an invariant, because several handlers delete it outside the scripts.
- TicketProtocol.Redis.LoginTakeover: of a session hash only its user is kept; rating, type and aggression are data it copies.
- LoginSessions.OneSessionEach: guests, whose names nobody can log in with, are left out, and a link does not expire before its session, because both are set and refreshed with one duration.
- PlayerInventories.InteractContainerObject: quantities are unbounded integers; merging beyond 2^31 is not modelled. Whether the container is open and near is one parameter.
- PlayerInventories.PlayerInventory.constructor: entries are assumed to hold a positive quantity of an item, as validated snapshots and presets do.
- PlayerInventories.PlayerInventory.FireRound: the fire sequence check and the weapon id check of the handler come before it and are left out.
- CombatObjects.CombatObject.TakeDamage: 32-bit overflow of the damage product and of the regeneration accumulator is not modelled.
- LobbyEconomy.WorthIsConstant: the shop's and Redis' prices are one table; the code reads them from two places and does not compare them. Deleting the carried slots when a custom match connects, and storing what comes back from a raid, are outside the runs.
- Item instance uids: splitting a stack copies the uid, so they are not unique and are not modelled.
- Sockets, io_uring, process start, protobuf encoding, packet signatures, password hashing and Express plumbing: foreign calls without visible semantics.
- Recall zones, distances and quaternions: abstract predicates over a pair or a session.
- The Node and C++ IPC framing and buffer compaction: reliable FIFO queues of messages.
- Map tables, item names, logging, SQL migrations: data without behaviour.
