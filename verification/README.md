# A verified model of the battle server

The repository is a real-time battle server in C++ with a Unity client in C#. Players log
in, are matched in pairs, and fight in rooms simulated by the server; the client shows what
the server's snapshots say. This project models the parts whose correctness is hard to see
from the code and proves what they promise, for every input and every run.

| part | files | what is proved about it |
|---|---|---|
| timer wheel | `WheelModel`, `WheelRuns`, `WheelTime`, `WheelCascade`, `TimerWheel` | the two-level hashed wheel behaves like a map from timer id to due tick, over all runs and for callbacks that add and cancel; in milliseconds, timers keep time |
| lobby and rooms | `MatchQueue`, `MatchFairness`, `Lobby`, `LobbyInv`, `LobbyTheorems`, `LobbyOutcomes`, `LobbyHistory`, `LobbyWaiting`, `LobbyPosts`, `LobbyEnds`, `LobbySweep`, `GameServer`, `Room` | an invariant over every interleaving of lobby events, posted tasks, room ticks and timers, and what follows from it: who may reconnect, how long anybody waits, where inputs and results go |
| simulation | `SimModel`, `SimFacts`, `Movement`, `Heading`, `Collision`, `Duel`, `DuelRuns`, `BulletRuns`, `FireCadence`, `ShotPath`, `BattleSim` | bounded movement along any input, no tunnelling, who fires when, shots that find whoever stands still, whole battles independent of hash order, conservation of health, the ledger of bullets, at most three bullets per player in the air |
| replication | `Snapshots`, `Replication`, `RoomRuns`, `RoomEnds`, `SnapshotInterpolator` | deltas and tombstones keep the client's picture equal to the server's state, seat by seat through drops and reconnects; everybody hears of one end and one winner; sampling recalls history |
| framing | `Framing`, `Buffer`, `ProtobufCodec`, `FrameParser` | printer and incremental parsers undo each other under any chunking |
| output path | `OutputModel`, `TcpConnection` | partial writes refine a byte stream; end to end with the framing |
| task queues | `SwapQueue`, `EventLoop` | the storage writer and the loops' queues lose, double and reorder nothing, and no wake-up is lost |

Each part has two layers. Whatever the program updates in place is a class with loops whose
methods are proved to compute a function on values (the class's state as a value, `State()`
in most of them, against the model's function); the theorems over whole runs are lemmas about those functions.
`Prelude.dfy` holds a few shared definitions.

What the code does not do, shown by a lemma with the input and the exact condition:

- A timer of 4096 ticks or more fires at tick +4095. A comment in the source says such a
  timer is re-placed by its remaining distance when it cascades; the code overwrites the
  expiry, and the model follows the code (`WheelRuns.LongDelayFiresEarly`,
  `WheelRuns.DelayHonouredIff`).
- The matching queue alone is not first come, first served (`QueueModel.OvertakingExample`,
  `MatchFairness.ServedLongestWaitingIff`); used as the lobby uses it, it is
  (`QueueModel.PushThenPop`).
- Not every battle that ends is recorded: one decided by forfeit never is, because the
  loser's session is gone when the lobby hears of the end, and neither is one in which a
  player logged in with an empty account name (`LobbyOutcomes.UnrecordedForfeit`,
  `LobbyOutcomes.UnrecordedEmptyAccount`, `LobbyOutcomes.RecordedIff`).
- A player is not always given 30 s to be matched: a disconnect does not cancel the match
  timer, so one who comes back and asks again is sent back when the old timer goes off
  (`LobbyWaiting.OldTimerCutsShort`, `LobbyWaiting.WaitingEnds`).
- After a bad length the server throws its buffer away but parses the next chunk, so what it
  delivers can depend on how the stream was cut (`Framing.KeepsParsingExample`,
  `Framing.ChunkingIrrelevantIff`). The client's verdict is sticky and cannot.
- A half-close can overtake a message another thread has already sent: when the write loop
  finds the connection marked by that thread's later shutdown, and when the loop's own thread
  shuts down, as the codec does on a bad frame (`OutputModel.FinBeforeQueuedSend`,
  `OutputModel.LoopShutdownOvertakes`, `OutputModel.OvertakesIff`).
- A client track stops being strictly increasing exactly when a delta numbered 0 repeats a
  known player; the server numbers deltas from 1 (`InterpModel.PushTracksOkIff`).

How the environment enters: what the system answers to each read and write, the order in
which hash maps are walked, tokens, and the moments at which other threads act are
parameters or steps, quantified over in the theorems. Coordinates are reals, and the square
root is a parameter constrained only to be the non-negative root.

## Model

| member | source | states |
|---|---|---|
| WheelModel.AddRefines | src/timer/TimerWheel.cc:5-16 | adding puts one entry under a fresh id into the flat map, due at now + min(ticks, 4095), and changes no other |
| WheelModel.CancelRefines | src/timer/TimerWheel.cc:18-23 | cancelling removes exactly that entry and is harmless for any other id, though the node stays in its slot |
| WheelModel.CascadeMid | src/timer/TimerWheel.cc:56-63 | re-placing the nodes of the round that begins puts every one into level 0, none back into level 1, and changes no expiry |
| WheelModel.StartTickRefines | src/timer/TimerWheel.cc:53-64 | a tick keeps the flat map and takes out for firing exactly the entries due at the new tick |
| WheelModel.FireNextRefines | src/timer/TimerWheel.cc:38-46 | each node taken is either a cancelled one, skipped, or an entry due now, removed and fired once |
| WheelModel.NothingOverdue | src/timer/TimerWheel.cc:48-66 | no entry is ever overdue, and one due now is in the slot being fired |
| WheelRuns.EveryTimerFiresExactlyOnceOnTime | src/timer/TimerWheel.cc:5-66 | after any run of adds, cancels, ticks and firings, every timer ever requested has fired exactly once, at its due tick, with its own callback, if that tick is reached and it was not cancelled before; otherwise it has not fired |
| WheelRuns.DelayHonouredIff | src/timer/TimerWheel.cc:7-33 | after any run, a timer not cancelled whose due tick has come has fired at the tick asked for if and only if its delay is under 4096 ticks; a longer one has fired at +4095; none fires late; rounding is upwards and at least one tick |
| WheelRuns.LongDelayFiresEarly | src/timer/TimerWheel.cc:31-33 | a run in which a timer of any delay of 4096 ticks or more has fired after 4095 |
| WheelRuns.AdvanceSplit | src/timer/TimerWheel.cc:48-66 | advancing by a and then b gives the same wheel and the same callbacks as advancing by a + b, whatever the callbacks do |
| WheelTime.AdvanceGood | src/timer/TimerWheel.cc:38-66 | an advance with arbitrary callbacks is a run of the atomic steps, so invariant and ledger hold after it |
| WheelTime.AdvanceKeepsTime | src/timer/TimerWheel.cc:48-52 | an advance loses and gains no time: 100 ms per tick passed plus what is left over, under 100 ms, is the time before plus the time given |
| WheelTime.TimersKeepTime | src/timer/TimerWheel.cc:5-66 | over any sets, revocations and advances with any callbacks, a timer under 4096 ticks that was not revoked has fired if and only if the clock in whole ticks has moved on by its delay rounded up to 100 ms; it has once that much time has elapsed, and has not 100 ms or more before |
| WheelCascade.EachNodeCascadesAtMostOnce | src/timer/TimerWheel.cc:54-63 | in every run no live node is re-placed by a cascade twice |
| WheelCascade.DescendsIsPlaced | src/timer/TimerWheel.cc:56-63 | the nodes counted as re-placed are exactly those that a cascade puts into level 0 |
| TimerWheel.TimerWheel.Place | src/timer/TimerWheel.cc:25-36 | the in-place slot arrays and node after placing are the model's |
| TimerWheel.TimerWheel.Add | src/timer/TimerWheel.cc:5-16 | computes the model's add and returns the id it used |
| TimerWheel.TimerWheel.Cancel | src/timer/TimerWheel.cc:18-23 | computes the model's cancel |
| TimerWheel.TimerWheel.FireSlot | src/timer/TimerWheel.cc:38-46 | fires the swapped-out slot node by node, with callbacks adding and cancelling meanwhile, as the model does |
| TimerWheel.TimerWheel.Advance | src/timer/TimerWheel.cc:48-66 | the nested loops compute the model's advance, for any behaviour of the callbacks; `WheelTime.AdvanceKeepsTime` says how many ticks that is |
| QueueModel.PopPair | src/game/MatchQueue.h:28-48 | a pair comes out exactly when two wait; it is two distinct waiting ids and nobody else leaves; the deque is never read empty |
| QueueModel.PushThenPop | src/game/GameServer.cc:200-222 | under push-then-pop at most one player waits, and a pair is (the one who waited, the newcomer), whatever stale or repeated entries the deque holds |
| QueueModel.OvertakingExample | src/game/MatchQueue.h:23-48 | a player who left and came back is served before one who waited longer |
| MatchFairness.ServedPairIff | src/game/MatchQueue.h:28-48 | from any queue with two or more waiting the pair served is (x, y) if and only if x has the foremost first entry of all waiting and y of the others |
| MatchFairness.ServedLongestWaitingIff | src/game/MatchQueue.h:16-48 | after any arrivals, departures and servings, the two who have waited longest are served in that order if and only if no other waiting player has an entry ahead of their first ones |
| MatchFairness.FreshEntriesServeInOrder | src/game/MatchQueue.h:16-48 | if every waiting player has one entry only, the two who have waited longest are served, in order |
| MatchQueue.MatchQueue.Compact | src/game/MatchQueue.h:37-41 | the loop drops exactly the stale entries at the front |
| MatchQueue.MatchQueue.PopPair | src/game/MatchQueue.h:28-34 | computes the model's pop, state and result |
| LobbyInv.StepInv | src/game/GameServer.cc:131-340 | every step of lobby, wheel and rooms, in any interleaving, keeps the whole invariant |
| LobbyTheorems.LobbyIsConsistent | src/game/GameServer.cc:131-340 | in every reachable state: queued iff matching; roomId nonzero iff in a room, and then the room is in the table; a mapped connection belongs to a session holding it; nobody disconnected is queued; at most one waits |
| LobbyTheorems.RoomFollowsSession | src/game/GameServer.cc:181-291 | in every reachable state, running the tasks already posted to a room makes it send to exactly the connection of each in-room session |
| LobbyTheorems.RoomForgetsTheGone | src/game/GameServer.cc:285-320 | a room in the table ends up sending nothing to a player whose session is gone |
| LobbyTheorems.SessionKeptFor300Ticks | src/game/GameServer.cc:279-320 | a session has no connection iff it owns exactly one live expiry timer, due 300 ticks after its latest disconnect; every session ever lost was lost exactly then |
| LobbyTheorems.OnlyExpiryErases | src/game/GameServer.cc:304-320 | a session disappears in no step but the firing of its own expiry timer, 300 ticks after a disconnect that no reconnect followed |
| LobbyTheorems.ExpiryGuardNeverTriggers | src/game/GameServer.cc:304-306 | whenever an expiry timer fires its session exists, is disconnected, and is erased |
| LobbyTheorems.PairAlwaysFound | src/game/GameServer.cc:197-225 | a matched pair is the one who waited and the newcomer, and both sessions exist and are connected |
| LobbyTheorems.StaleMatchTimerHarmless | src/game/GameServer.cc:204-216 | no match timer, however stale, changes the session of a player in a room |
| LobbyTheorems.OneEndingPerRoom | src/game/Room.cc:56-94 | a room has broadcast the end once if it has ended and never otherwise, nothing after it, and one notice to the lobby is under way exactly while it has ended and is in the table |
| LobbyTheorems.OneResultPerRoom | src/game/GameServer.cc:322-340 | at most one result per room is recorded, and its winner and loser are the two distinct matched players |
| LobbyTheorems.ForfeitNeverRecorded | src/game/GameServer.cc:304-340 | once a player of a room has lost its session without a result, no continuation of the run records one |
| LobbyOutcomes.RecordedIff | src/game/GameServer.cc:322-340 | in every reachable state in which the lobby hears of an end, it records a result if and only if a winner is named and both sessions exist with non-empty accounts; the result names the winner and the other player |
| LobbyOutcomes.ForfeitGoesUnrecorded | src/game/GameServer.cc:304-340 | from every reachable state in which an in-room player has no connection, some continuation erases the session, ends the battle and takes the room off the table with nothing recorded |
| LobbyOutcomes.UnrecordedForfeit | src/game/GameServer.cc:304-340 | a run from the start whose battle ends by forfeit and is not recorded |
| LobbyOutcomes.UnrecordedEmptyAccount | src/game/GameServer.cc:333-339 | a run from the start whose battle is won by a player with an empty account and is not recorded |
| LobbyHistory.SessionsFollowHistory | src/game/GameServer.cc:131-188 | after any run from the start every session has the token and account of the login step that created it and the connection of the player's latest login or granted reconnect, none if a disconnect came later; a connection is mapped to whoever last came over it |
| LobbyHistory.ReconnectGrantedIff | src/game/GameServer.cc:155-188 | after any run from the start a reconnect binds the session if and only if its token is that of the login step that created the player, the session has not expired, and the player's latest login, reconnect or disconnect is a disconnect; any other reconnect leaves the state as it is |
| LobbyHistory.OtherStepFaces | src/game/GameServer.cc:197-340 | no step but a login, a reconnect or a disconnect changes a session's token, account or connection, or the connection map |
| LobbyWaiting.WaitStep | src/game/GameServer.cc:197-254 | in every step a waiting player waits on with the same match timers, or is matched into a room, or loses its connection, or is back in the lobby because one of its match timers was due |
| LobbyWaiting.NobodyWaitsBeyond300 | src/game/GameServer.cc:197-218 | from every reachable state a player who asks alone waits for at most 300 ticks, and for fewer once the timers of a tick have run |
| LobbyWaiting.WaitingEnds | src/game/GameServer.cc:197-218 | a wait that ends by a timer ends with the first of the player's match timers due, the player in the lobby with its connection; after exactly 300 ticks if and only if no match timer left over from an earlier request was due sooner |
| LobbyWaiting.OldTimerCutsShort | src/game/GameServer.cc:272-287 | from every reachable state in which a player waits: lost, back a tick later and asking again, it still has the old timer running, due before 300 ticks |
| LobbyPosts.StepBecomes | src/game/GameServer.cc:131-340 | every step leaves a room as it is, posts it one task, has it run its next one or ticks it; the third exactly if it is that room's step |
| LobbyPosts.TaskMovesUp | src/game/GameServer.cc:181-320 | in every run a room's tasks stay in order: a task moves up one place for each task the room runs |
| LobbyPosts.InputReachesItsRoom | src/game/GameServer.cc:256-264 | in every reachable state an input over a player's connection is posted to the player's room and changes nothing else; however the run goes on, once the room has run the tasks ahead it is the next to run |
| LobbyEnds.RoomTicksFromStartToEnd | src/game/Room.cc:23-94 | in every reachable state a room waits for its start, ticks, or has ended; once it has ended its ticker is stopped or the task that stops it is posted, and that task is never posted before |
| LobbyEnds.RecordedWinnerWasAnnounced | src/game/Room.cc:84-94 | in every reachable state the winner recorded, or on its way to the lobby, is the one announced last to the players of that room |
| LobbySweep.SweepNeverStops | src/game/GameServer.cc:374-379 | in every reachable state exactly one sweep timer is live, due within 50 ticks and not overdue |
| GameServer.RoomsAreDuels | src/game/GameServer.cc:313-331 | in every reachable state an expiring in-room player has at most one opponent and an announced winner at most one loser, so the walks over the sessions have one possible answer |
| GameServer.GameServer.OnLogin | src/game/GameServer.cc:131-145 | new session, mapped to its connection, under the next id; the answer grants that id and token |
| GameServer.GameServer.OnReconnect | src/game/GameServer.cc:155-188 | granted iff the session exists, has this token and has no connection; then the session has this connection, mapped to it, the expiry timer is cancelled and the room rebound; otherwise refused and shut down, nothing changed |
| GameServer.GameServer.OnMatch | src/game/GameServer.cc:197-218 | queue, match timer and possible room, as the protocol's step |
| GameServer.GameServer.TryMatch | src/game/GameServer.cc:220-254 | pair taken, match timers cancelled, room opened with both connections |
| GameServer.GameServer.OnInput | src/game/GameServer.cc:256-264 | the protocol's step: the input is posted to the room of an in-room session |
| GameServer.GameServer.OnDisconnect | src/game/GameServer.cc:272-294 | unmaps the connection, leaves the queue, posts the drop, starts the 30 s timer |
| GameServer.GameServer.ExpireSession | src/game/GameServer.cc:304-320 | posts the forced end, with another session of the room as winner or 0 if there is none, and erases the session; with at most one opponent it is the protocol's step |
| GameServer.GameServer.OnMatchTimeout | src/game/GameServer.cc:204-216 | forgets the timer, takes a still queued player back to the lobby and says on which connection the failure is announced |
| GameServer.GameServer.OnRoomEnd | src/game/GameServer.cc:322-340 | room leaves the table, exactly its players return to the lobby, at most one result of the winner against another player of the room goes out, with non-empty accounts; with at most one loser it is the protocol's step |
| GameServer.GameServer.SendBack | src/game/GameServer.cc:324-331 | the walk finds the winner's and a loser's account and sends exactly the room's sessions back, in any order of the map |
| RoomModel.TickIsStep | src/game/Room.cc:65-94 | what a tick of the room shows outside is the room tick of the protocol, notice to the lobby included |
| Room.WinnerIsAPlayer | src/game/BattleSim.cc:156-166 | the winner a simulation of two names is one of the two, or nobody |
| Room.Room.constructor | src/game/Room.cc:9-21 | the players face each other, with the connections given |
| Room.Room.Start | src/game/Room.cc:23-32 | every connected seat gets the members and then the full snapshot |
| Room.Room.Rebind | src/game/Room.cc:39-49 | the returning seat gets members and full snapshot over its new connection, nobody else anything |
| Room.Room.DropConn | src/game/Room.cc:51-54 | only that seat's connection goes |
| Room.Room.ForceEnd | src/game/Room.cc:56-58 | ends a battle that has not ended, tells every connected seat and the lobby once; otherwise nothing, to anybody |
| RoomRuns.SeatShowsTheBattle | src/game/Room.cc:23-114 | over any starts, drops, reconnects, inputs, ticks and forced ends, a connected seat of a started room has had a full snapshot over its present connection, and any client pushing what the seat was sent since mirrors the battle exactly |
| RoomEnds.EndIsTold | src/game/Room.cc:56-94 | an event that ends the battle tells everybody connected, last of all, of the only player left alive or of the winner a forced end names; no other event tells anybody of an end |
| RoomEnds.EverybodyHearsOneEnd | src/game/Room.cc:23-94 | over any run of a room nobody is told of an end before there is one, and afterwards every seat has been told once of the same winner, or of none |
| Room.Room.OnTick | src/game/Room.cc:65-83 | one simulated tick, exactly its delta to every connected seat, the end and one notice if there is a winner; nothing after the end |
| Room.Room.Broadcast | src/game/Room.cc:96-103 | every connected seat gets the packet once, in any order of the map |
| SimFacts.StepFacts | src/game/BattleSim.cc:27-154 | a step reports exactly the players whose position or health changed; a bullet is live afterwards iff it was and is not listed as removed, or is new; the list has no repetitions |
| SimFacts.StepHealth | src/game/BattleSim.cc:101-151 | the health lost by all in a step is 25 times the number of hits |
| SimFacts.HitsAreRemovals | src/game/BattleSim.cc:134-150 | every hit took a different bullet out of the air |
| Movement.MoveIsBounded | src/game/BattleSim.cc:41-60 | whatever vector the client sends, a player in the arena stays in it and goes at most speed times time in a step |
| Heading.BattleBegins | src/game/Room.cc:9-21 | a battle begins with two players of 100 health 40 apart, each looking straight at the other, weapons cold and nothing in the air |
| Heading.MoveGoesAlong | src/game/BattleSim.cc:42-58 | a live player with an input of length at least 1e-6 is displaced by 20 times the time, less for a shorter input than one, in exactly the input's direction, then to the nearest place in the arena; it faces that way and nothing else changes |
| Heading.IdleStays | src/game/BattleSim.cc:42-45 | a dead player, one without input and one whose input is shorter than 1e-6 stays exactly as it is |
| Movement.NobodyLeavesTheArena | src/game/BattleSim.cc:41-60 | over every battle and all inputs nobody is ever outside the arena |
| Movement.TargetIsNearestEnemy | src/game/BattleSim.cc:69-78 | there is a target iff there is a live enemy; it is one, and no live enemy is nearer |
| Collision.ClosestPoint | src/game/BattleSim.cc:105-125 | the clamped projection is the point of the whole swept segment closest to the target |
| Collision.NoTunnelling | src/game/BattleSim.cc:105-128 | for a segment of squared length above 1e-6 a target is in range iff some point of the segment is within radius 3 of it |
| Collision.FirstMetIsHit | src/game/BattleSim.cc:113-132 | somebody is hit iff somebody is in range, and the victim has the least projection parameter of those in range |
| Collision.HealthAfterStep | src/game/BattleSim.cc:101-151 | in a room of two a player ends with max(0, hp - 25k), k counting the opponent's earlier bullets whose segment comes within radius |
| Collision.OrderDoesNotMatter | src/game/BattleSim.cc:34-151 | in a room of two positions and health after a step do not depend on the order of either hash map |
| Duel.StepIsDuel | src/game/BattleSim.cc:27-154 | a step of two players in order-free terms: who fires what, which bullets live on while their target does, and every field of each player but the health |
| DuelRuns.OrdersNeverMatter | src/game/BattleSim.cc:27-154 | two battles with the same inputs and any orders agree at every moment on the tick, on every field of every player and on whether they have ended, and while both players live their bullets differ in ids only |
| BulletRuns.ShotIsUnitOrClose | src/game/BattleSim.cc:79-95 | what is fired at a live opponent flies at full speed, or starts within 1e-6 of it |
| BulletRuns.CloseHits | src/game/BattleSim.cc:105-132 | a shot at somebody on practically the same spot is in range of it at the next tick, wherever it moves |
| BulletRuns.EveryBulletAccountedFor | src/game/BattleSim.cc:27-154 | over every battle each id issued is live or tombstoned, never both and never twice; health lost is 25 per hit; any two shots of one player lie at least ten ticks apart; no full-speed bullet is older than 21 ticks; each player has at most three bullets of any speed in the air |
| FireCadence.FiresIff | src/game/BattleSim.cc:19-98 | after any run of a battle not ended, a player fires in the next tick if and only if it is alive, its latest input asks for an attack, and it never fired or last did ten ticks before or earlier; bullets that have flown are in the arena and have gone less than 65 |
| ShotPath.ShotGoesTowards | src/game/BattleSim.cc:79-95 | a shot at an enemy further than 1e-6 starts 2 away from the shooter and flies at 60, both in exactly the enemy's direction |
| ShotPath.ShotGoesAhead | src/game/BattleSim.cc:79-95 | with no live enemy it starts and flies where the shooter last moved |
| ShotPath.SegmentsJoin | src/game/BattleSim.cc:100-145 | a bullet flies to the end of the segment it was tested on, and its next segment begins there |
| ShotPath.CourseHitsIff | src/game/BattleSim.cc:105-132 | a bullet j ticks on its way to an enemy d away who stands there, and not past it, is in range in the next tick if and only if d is at most 8 + 3j |
| ShotPath.StandingTargetIsHit | src/game/BattleSim.cc:65-151 | in every run, an enemy more than 1e-6 and at most 71 away that stands still for n ticks after a shot at it, d at most 5 + 3n, has been hurt by then unless the battle has ended |
| BattleSim.BattleSim.MoveAll | src/game/BattleSim.cc:41-60 | everybody moves by the model's rule and exactly those who moved are reported |
| BattleSim.BattleSim.FindNearest | src/game/BattleSim.cc:69-78 | finds the model's nearest live enemy |
| BattleSim.BattleSim.FireAll | src/game/BattleSim.cc:65-98 | the firing loop computes the model's shots |
| BattleSim.BattleSim.FindVictim | src/game/BattleSim.cc:113-132 | finds the model's victim |
| BattleSim.BattleSim.AdvanceAll | src/game/BattleSim.cc:100-151 | the flight loop computes the model's flight: players, bullets, removed ids, reported players |
| BattleSim.BattleSim.Step | src/game/BattleSim.cc:27-154 | the four phases compute the model's step and its report |
| BattleSim.BattleSim.TakeRemovedProjectileIds | src/game/BattleSim.cc:207-209 | hands out the removed ids and forgets them |
| BattleSim.BattleSim.WinnerOrZero | src/game/BattleSim.cc:156-166 | the only player alive, or 0 |
| Replication.FullSnapshotMirrors | src/game/Room.cc:105-114 | a full snapshot gives a client in any state exactly the server's players and bullets |
| Replication.TickSynced | src/game/Room.cc:65-81 | a tick keeps server and client equal, whether or not a delta is sent |
| Replication.ClientMirrorsServer | src/game/Room.cc:65-114 | a client that pushes one full snapshot and then every delta holds, after every later input and tick, exactly the server's x, y and hp of every player and exactly its live bullets |
| InterpModel.PushTrack | client/Assets/Scripts/Game/SnapshotInterpolator.cs:74-95 | a mentioned player's track ends in the new state, any other's in the old state carried to the new tick |
| InterpModel.PushTracksOkIff | client/Assets/Scripts/Game/SnapshotInterpolator.cs:63-118 | a push keeps every track strictly increasing, of at most 64 keyframes and ending at the latest tick, if and only if it does not repeat tick 0 |
| InterpModel.BracketUnique | client/Assets/Scripts/Game/SnapshotInterpolator.cs:131-140 | at most one pair of keyframes brackets a render tick |
| InterpModel.BetweenMixes | client/Assets/Scripts/Game/SnapshotInterpolator.cs:141-148 | the position between two keyframes divides the way between theirs as the render tick divides the time, on each axis, with health and input number of the earlier |
| InterpModel.MixStaysBetween | client/Assets/Scripts/Game/SnapshotInterpolator.cs:141-148 | such a position lies between its two keyframes, and at a keyframe it is that keyframe |
| InterpModel.SampleAtKeyframe | client/Assets/Scripts/Game/SnapshotInterpolator.cs:121-150 | a sample at the tick of a retained keyframe is exactly that keyframe's state |
| InterpModel.SamplingRecallsHistory | client/Assets/Scripts/Game/SnapshotInterpolator.cs:63-150 | after any pushes, late ones included, sampling at a retained tick gives the state held right after the push of that tick |
| SnapshotInterpolator.SnapshotInterpolator.AppendKeyframe | client/Assets/Scripts/Game/SnapshotInterpolator.cs:114-118 | appends and drops the oldest beyond 64 |
| SnapshotInterpolator.SnapshotInterpolator.Push | client/Assets/Scripts/Game/SnapshotInterpolator.cs:63-112 | computes the model's push |
| SnapshotInterpolator.SnapshotInterpolator.TrySample | client/Assets/Scripts/Game/SnapshotInterpolator.cs:121-150 | fails iff there is no track; otherwise the binary search returns the end keyframe outside the window and inside, for the bracketing pair a, b, the x with (x - a.x)(b.tick - a.tick) = (b.x - a.x)(render - a.tick), likewise y, and a's health and input number |
| Framing.EncodeParsesIff | src/proto/ProtobufCodec.cc:32-42 | parsing an encoded message, whatever follows, gives it back if and only if id and body are at most 64 KiB; a longer one (under 4 GiB) reads as a bad length |
| Framing.WireLayout | src/proto/ProtobufCodec.cc:32-42 | the encoding byte for byte: length of id and body, highest byte first, id, highest byte first, body |
| Framing.ScanSplit | src/proto/ProtobufCodec.cc:12-30 | scanning a stream in two pieces finds the frames, the rest and the bad length of scanning it whole |
| Framing.ServerFollowsScan | src/proto/ProtobufCodec.cc:12-30 | for every stream and chunking the server hands out first what a scan of the whole gives, and asks for a shutdown iff there is a bad length; without one its state is the scan's |
| Framing.ServerDeliversExactly | src/proto/ProtobufCodec.cc:12-42 | any cutting of any beginning of the encodings of messages of at most 64 KiB delivers exactly the complete ones in order and holds exactly the beginning of the next |
| Framing.ChunkingIrrelevantIff | src/proto/ProtobufCodec.cc:18-21 | all chunkings of a stream make the server deliver the same if and only if no frame can be read behind its first bad length |
| Framing.KeepsParsingExample | src/proto/ProtobufCodec.cc:18-21 | a frame behind a zero length is ignored in one read and delivered in two |
| Framing.ClientFollowsScan | client/Assets/Scripts/Net/ProtoCodec.cs:39-77 | for any calls in any order the frames taken are the first of the stream; after a take that failed they are all of them, the verdict is the stream's, and the incomplete tail is held |
| Framing.SignDoesNotMatter | client/Assets/Scripts/Net/ProtoCodec.cs:59-64 | signed 32-bit arithmetic rejects exactly the lengths the unsigned one rejects |
| Framing.ReceiversAgree | client/Assets/Scripts/Net/ProtoCodec.cs:52-77 | on one stream, cut differently for each, client and server agree on the verdict, and without a bad length on frames and tail; otherwise the client's frames come first at the server |
| Buffer.Buffer.Retrieve | src/net/Buffer.cc:10-17 | drops exactly the first bytes |
| Buffer.Buffer.EnsureWritable | src/net/Buffer.cc:25-37 | makes room by sliding or growing without changing the readable bytes |
| Buffer.Buffer.Append | src/net/Buffer.cc:39-43 | the readable bytes followed by the new ones |
| Buffer.Buffer.ReadFd | src/net/Buffer.cc:45-63 | appends exactly what arrived, through the spare area when it does not fit; an error changes nothing |
| ProtobufCodec.OnMessage | src/proto/ProtobufCodec.cc:12-30 | the loop hands out the frames of a scan of the buffer and leaves its rest, or nothing after a bad length |
| ProtobufCodec.HandleRead | src/net/TcpConnection.cc:43-67 | everything readable is read, in pieces of any size, before frames are handed out; a failed read hands out nothing |
| ProtobufCodec.Serve | src/net/TcpConnection.cc:43-67 | a connection over the real buffer, through every sliding and growing, does what the chunk-by-chunk receiver does |
| FrameParser.FrameParser.Append | client/Assets/Scripts/Net/ProtoCodec.cs:39-50 | appends unless corrupt; the capacity doubles until the bytes fit |
| FrameParser.FrameParser.TryTake | client/Assets/Scripts/Net/ProtoCodec.cs:53-77 | takes the first complete frame and shifts the rest, or becomes corrupt for good, as the model does |
| FrameParser.ReceiveLoop | client/Assets/Scripts/Net/NetworkClient.cs:63-88 | reads of at most 8 KiB drained one by one enqueue exactly the stream's frames with its verdict, and the parser's capacity never exceeds 131072 |
| OutputModel.OutputIsAStream | src/net/TcpConnection.cc:69-151 | in every run the wire followed by the buffer is the accepted messages in order; until close write interest is on iff the buffer is non-empty, and no half-close left bytes in it |
| OutputModel.FlushOutcome | src/net/TcpConnection.cc:69-87 | the write loop empties the buffer, drops interest and, when marked, half-closes, exactly when the system takes everything; otherwise it half-closes nothing |
| OutputModel.EnoughWritesDrain | src/net/TcpConnection.cc:72-83 | a system that takes something each time empties the buffer |
| OutputModel.OvertakesIff | src/net/TcpConnection.cc:69-151 | for every event: it half-closes ahead of a queued send if and only if a send is waiting and the write loop empties the buffer of a marked connection, the loop's own thread shuts down a connected connection that is not writing, or a queued shutdown runs on one |
| OutputModel.LoopShutdownOvertakes | src/net/TcpConnection.cc:140-151 | a run in which the loop's own shutdown half-closes ahead of a queued send |
| OutputModel.FinBeforeQueuedSend | src/net/TcpConnection.cc:84-151 | a run in which a message sent before a shutdown is overtaken by the half-close and lost |
| OutputModel.EndToEnd | src/net/TcpConnection.cc:69-151 | a client fed any beginning of the wire takes the accepted messages in order, never finds it corrupt, and has them all once buffer and wire are empty |
| TcpConnection.TcpConnection.SendInLoop | src/net/TcpConnection.cc:116-138 | direct write, rest buffered, interest switched on, as the model does, for any write result |
| TcpConnection.TcpConnection.HandleWrite | src/net/TcpConnection.cc:69-87 | the loop over the real buffer computes the model's, for any sequence of write results |
| TcpConnection.TcpConnection.Shutdown | src/net/TcpConnection.cc:140-151 | on the loop's thread it marks a connected connection and half-closes it if nothing is being written, from another it marks it and posts the task; otherwise nothing |
| TcpConnection.TcpConnection.SendMessage | src/net/TcpConnection.cc:105-114 | on the loop's thread it writes at once, from another it posts the task; on a connection not connected nothing |
| TcpConnection.TcpConnection.HandleClose | src/net/TcpConnection.cc:89-95 | closes and drops all interest |
| WriterModel.StepKeepsInv | src/storage/AsyncWriter.cc:7-36 | every step of producers, stopper and worker, spurious wake-ups included, keeps order, batch discipline and the owed notification |
| WriterModel.NothingLost | src/storage/AsyncWriter.cc:7-36 | executed tasks, the rest of the batch and the front buffer are always the enqueue order; a worker asleep with work or a stop pending is owed a notify; a worker gone has run everything enqueued before the stop |
| WriterModel.LeavesWhenDone | src/storage/AsyncWriter.cc:29-30 | the worker leaves only when everything enqueued so far has run |
| WriterModel.StopFlushes | src/storage/AsyncWriter.cc:7-14 | once a stop is requested every run without further posts, whatever the schedule, is of bounded length, and one that cannot go on has ended with the worker gone and everything run |
| AsyncWriter.AsyncWriter.LookAtQueue | src/storage/AsyncWriter.cc:28-32 | under the lock: sleep, leave or swap, as the model |
| AsyncWriter.AsyncWriter.RunBatch | src/storage/AsyncWriter.cc:33-34 | the batch runs whole and in order while other threads post anything; it is a run of the protocol's steps |
| LoopModel.Channel | src/net/EventLoop.cc:59-83 | a loop's queue is a FIFO channel: tasks ran in the order queued, none twice, and a loop blocked with work waiting has a wake-up written or owed |
| LoopModel.StepIsFifo | src/net/EventLoop.cc:59-83 | seen from outside only a post (appending) and a run (taking the first) change what waits; the swap does not show |
| LoopModel.EverythingRuns | src/net/EventLoop.cc:33-83 | every run without further posts, whatever the schedule, is of bounded length but for polls returning for other reasons, and when nothing else can happen everything queued has run |
| EventLoop.EventLoop.QueueInLoop | src/net/EventLoop.cc:59-68 | the protocol's post followed by its wake-up write |
| EventLoop.EventLoop.HandleWakeup | src/net/EventLoop.cc:70-73 | the protocol's wake-up |
| EventLoop.EventLoop.DoPendingFunctors | src/net/EventLoop.cc:75-83 | a round is a run of the protocol's steps: what was pending runs, in order; what those tasks or other threads queue meanwhile waits for the next round |

## Left out

- Sockets, epoll, eventfd, timerfd, thread start and stop, and the server's own shutdown sequence: operating system plumbing; their results are inputs of the model.
- MySQL, Redis, the leaderboard query and the online markers: thin wrappers over libraries; a recorded result is one entry handed to the storage queue, which is taken to be enabled.
- Protobuf bodies and the dispatcher: bodies are opaque byte sequences.
- Running rooms inline on the lobby thread (no game threads): every room is taken to be on another thread, so tasks always go through its queue.
- Heartbeats, the clock and the kick of silent connections: a kick shows up as a later disconnect event, which may happen at any time anyway.
- Session tokens are parameters; nothing is said about their randomness.
- Float rounding, 64-bit counter and 32-bit tick overflow: reals and natural numbers. The capacity of the client's parser is bounded by a theorem, so its 32-bit doubling cannot overflow in the receive loop.
- Node pointers of the wheel are ids into a table shared by slots and the table of live timers.
- The order of firing within one tick is not stated as add order; it is not, because cascaded nodes come behind later direct adds.
- Lobby steps may also happen between two timer callbacks of one tick, which the program does not do; every run of the program is among the runs covered.
- A change of the last input number alone is not replicated; the mirror theorem speaks of position and health.
- Nothing is claimed about every battle ending: if both players die in one tick there is no winner and no end.
- A second login on one connection leaves the earlier session holding a connection that is not mapped to it; the invariant says only that a mapped connection is held by its session.
- The client's session state machine, rendering, UI and input, the bot, the benchmark client and the echo example: drivers, or settled by one branch each.
- GameServer.GameServer.ExpireSession: if several other sessions shared the room, which of them is named winner would depend on hash order and is left open; GameServer.RoomsAreDuels shows that this is not reachable.
- GameServer.GameServer.OnRoomEnd: likewise which of several losers would be named.
- Room.Room.OnTick: the orders in which the hash maps are walked are parameters, required to list exactly the keys.
- BulletRuns.EveryBulletAccountedFor: the bound on bullets of any speed, like DuelRuns.OrdersNeverMatter, is for players with positive ids, which are the only ones the server issues; 0 stands for no winner.
- LoopModel.EverythingRuns: poll may return any number of times for other reasons, so the bound counts those separately.
