# A verified model of the shooter's host and server

The repository is a multiplayer top-down shooter. A C++ host runs the game (`Host/`), a C library moves messages
between the host and its clients with threads, mutexes and queues (`Server/`), and a Python client draws the game and
sends commands (`Client/`). This project models the logic of all three in Dafny 4.11 and proves what it keeps over
whole runs. `dafny verify dfyconfig.toml` checks everything.

## What is modelled

- **Collision geometry.** `Geometry` states the collision tests as the source computes them, Heron areas and
  tolerances included; `Heron`, `SegmentTest` and `QuadTest` say what they decide, in both directions. `Pushes`,
  `Border`, `Boundary`, `Walls` and `Corners` say where the push-out code leaves a player.
- **The game.** `World` states what each message and each part of a tick does; `Host` is the `Game` object, whose
  methods change the player map and the projectile vector in place and are proved against `World`; `Handlers` says who
  is in the game after a message and who is answered. `Runs` takes any interleaving of messages and ticks from the empty
  game. Over such runs `Ledger` and `Kills` prove the accounts, `Histories` and `Journeys` that players and projectiles
  are what, and where, their histories have made them, `Tunnelling` that no projectile tunnels, `Confinement` that an
  arena holds its player, `Timestep` the fixed timestep. `Contacts` and `Encounters` say in distances and coordinates
  what a projectile check and a player's turn in a tick do.
- **The containers.** `Deque` is the doubly linked queue with its nodes on the heap, `ByteArray` the byte-addressed
  doubling array behind the client table.
- **The server.** `Outgoing` and `Received` are step systems with one step for each lock-protected region: the sender
  thread, the receiver threads, producers, the host and the shutdown, in any interleaving. `Sender` and `Inbox` are the
  code of those regions over the linked queue, proved to do the steps; `Common` holds what both sides share.
  `Broadcasts` says whom a broadcast reaches, `Stopping` that a stopped sender ends, `Serving` how long a client is
  served; `TimedWait` says when `take` returns EMPTY, `GhostPlayers` runs server and host together. `LockOrder` and
  `ServerLocks` take the locks, the uses of what they guard, and the starting and joining of threads as steps and prove
  that the threads never deadlock and never touch the same thing at once.
- **The bytes.** `Bytes`, `Wire` and `MapWire` are the host's serialisers writing into a buffer through a moving
  position; `ClientReader` is the client's reader; `Layout` gives the offsets the protocol lists; `Framing` is the
  length-prefixed stream in both directions; `Delivered` follows the sender's runs onto a client's connection and through its decoder, `Snapshot` a reachable game
  through the message to the client.

## Reading the model

- Doubles are exact reals. `sqrt`, `cos` and `sin` come in a record `Libm`; `Exact()` says the root is the non-negative
  root and that cosine and sine are of unit length. A division by zero gives an arbitrary number, and a comparison with
  it in the segment test is false, as with a NaN.
- The order in which an `unordered_map` is visited is arbitrary, and may differ in every pass.
- The random position of a spawn is a parameter: the test that it is inside the border always succeeds in the source.
- `players[id]` inserts a default player (dead, its own id 0) for an absent id, as the source's `operator[]` does; a
  projectile can outlive its owner and so bring an entry back.
- An empty border is excluded: `size() - 1` would wrap around.
- Every buffer handed to `sendTo` or `sendToEveryone` is named by the call, since each call allocates a new one; a
  received buffer is named by its client and a running number.
- A step of the sender sends a frame whole or signals the client to stop; after a failed send the socket is dead.
- All waits are timed, so for the locks a waiting thread only has to reacquire its lock. What wakes the host out of `take`
  is modelled: a signal, a spurious wakeup, or the deadline.
- `sizeof(Player)` is 64 and `sizeof(Projectile)` 48, as on a 64-bit host.
- Counters of kills and deaths are 16 bits wide and wrap.

## Findings

- A LOST_CONNECTION goes to the front of the received queue and can overtake the same client's NEW_CONNECTION or its
  last messages. The host then removes the player before it handles those, and a connection, or any command that looks
  its sender up, puts the player back for good. So does a projectile of a departed client that kills.
  `GhostPlayers.GhostPlayerIff` gives the exact condition.
- The sender does not null the slot when it frees it for the last time. A broadcast that arrives afterwards frees the
  same buffer again; `Outgoing.DoubleFreeIff` gives the exact condition. The host's shutdown avoids it
  (`Outgoing.QuietShutdownFreesAll`).
- `take` can return EMPTY although an entry is queued: NEW_CONNECTION and LOST_CONNECTION do not signal, and after its
  deadline `take` does not look at the queue again. `TimedWait.EmptyAlthoughQueuedIff` gives the exact condition.
- The allocation of a game state or map is computed from 16-bit counts: one element more than 65535 overruns it.
- A game state whose last four bytes of players are missing is still accepted, because `int.from_bytes` takes what
  there is.
- The client's ping number is not bounded but its encoding is: from 65536 on, sending raises an error.
- A player that touches a wall is not always pushed straight out until it touches. In front of a side, another side can
  fire first because its end is in the disc, and shove the player along; `Walls.StraightOutIff` gives the exact condition
  for every wall. At a corner the push ends too far away unless further sides pull the player back, which takes a wall
  thinner than its radius; there it may end just touching, or still overlapping, even inside (10 by 10 wall, player at
  (-2, 11)). `Corners.CornerEnds` says exactly when.
- A player put down on the border line (x = -1000 on map1) that walks outward is after its first tick 28.2 from the side,
  not its radius of 30; from the next tick on it is (`Confinement.NeverLeavesTheArena`).
- The client reads the four bytes of a header without waiting for all of them. If only some have arrived it takes them
  for the whole size and misreads the stream from there on (`Framing.ShortHeader`).
- When a connection ends inside a payload, the client's reading loop never ends (`Framing.ReceivePayload`).
- `Protokol_komunikacji.txt:21` gives a player 40 bytes; the code writes 44, with kills and deaths. `Server/server.h:19`
  says `take` times out with OTHER; the code returns EMPTY. The model follows the code.

## Model

| member | source | states |
|---|---|---|
| `Heron.HeronIsHalfCross` | Host/collisions.cpp:55-61 | Heron's formula gives half the absolute cross product, for every triangle |
| `Heron.HeightIsDistanceToLine` | Host/collisions.cpp:48-51 | the height is the distance from the point to the line through the edge |
| `SegmentTest.SegmentTestExact` | Host/collisions.cpp:74-93 | exactly when the segment test answers true, degenerate segments included: an end in the closed disc, or the foot of the perpendicular in the disc and past neither end by more than 0.005 |
| `SegmentTest.SegmentTestComplete` | Host/collisions.cpp:74-93 | a disc that meets the closed segment anywhere is reported |
| `SegmentTest.SegmentTestSoundDistance` | Host/collisions.cpp:74-93 | a reported segment has a point within r + 0.005 of the centre |
| `SegmentTest.SegmentTestSound` | Host/collisions.cpp:82-92 | the sharper bound: within the root of r² + 0.005² |
| `SegmentTest.FootIsClosest` | Host/collisions.cpp:79-80 | the computed point is the closest one on the line; away from it the squared distance grows by the squared step |
| `QuadTest.FanCoversQuad` | Host/collisions.cpp:22-29 | the four triangles at the centre cover a convex quadrilateral of either winding, with equality exactly for centres in it; the test on the centre is true exactly when the excess is at most 0.01 |
| `QuadTest.QuadTestComplete` | Host/collisions.cpp:20-38 | a disc that meets the filled quadrilateral anywhere is reported |
| `QuadTest.EdgesAreInQuad` | Host/collisions.cpp:30-36 | the outline belongs to the filled quadrilateral the other rows speak of |
| `QuadTest.QuadTestSound` | Host/collisions.cpp:20-38 | a report means the area excess is at most 0.01 or some edge comes within the tolerance of the segment test |
| `QuadTest.NearestIsOnEdge` | Host/collisions.cpp:30-36 | from outside, some edge is at least as near as any point inside, so testing the four edges is enough |
| `Pushes.PushApartKeepsSum` | Host/game.cpp:475-480 | pushing two players apart leaves the sum of their centres and both radii unchanged, whatever the division yields |
| `Pushes.PushApartTouches` | Host/game.cpp:458-480 | two players with distinct centres end exactly r1 + r2 apart and no longer collide |
| `Pushes.PushOffCircleTouches` | Host/game.cpp:487-490 | a player pushed off an obstacle ends exactly r + R from its centre and no longer collides |
| `Pushes.PushOffEdgeExact` | Host/game.cpp:466-485 | a push off a directed edge turns signed distance s into s + r - \|s\| and leaves the coordinate along the edge alone |
| `Pushes.FrameExists` | Host/game.cpp:466-473 | every edge and every centre fits the frame in which the previous row is stated |
| `Pushes.SecondPushIsNoOp` | Host/game.cpp:482-485 | from the inner side one push leaves the centre exactly r from the line, and a second changes nothing |
| `Border.PushInsideBorder` | Host/game.cpp:406-413 | the border loop and its closing edge compute the border pass: every edge once, in order, the last joined to the first |
| `Boundary.BorderPassExact` | Host/game.cpp:406-413 | where a whole pass of a rectangular border leaves a player, in closed form: for every place, size and rotation, every radius and every position, outside the border included |
| `Boundary.InsideIsClamped` | Host/game.cpp:406-413 | if the sides are at least 2r long, a pass that starts with the centre inside clamps both coordinates to [r, side - r] |
| `Boundary.OutsideIsBroughtBack` | Host/game.cpp:406-413 | a pass that starts at most k outside, k at most a fifth of the radius, ends at least r - 2k from all four sides |
| `Walls.WallPushExact` | Host/game.cpp:492-508 | where the push off a rectangular wall leaves a player, in closed form: for every wall, radius and position |
| `Walls.SideFires` | Host/collisions.cpp:74-93 | when one side of a wall fires, in the numbers of its frame: an end in the disc, or the foot on its line in the disc and past neither end by more than 0.005 |
| `Walls.StraightOutIff` | Host/game.cpp:492-508 | a player in front of a side, however thin the wall, is pushed straight out until it just touches exactly if: in front of the bottom or right side, no other side shoves it at its turn; in front of the top, the bottom leaves it above the wall and right and left do not shove it; in front of the left side, the right side leaves it outside, and bottom and top either both leave it alone or shove it along the side and back |
| `Walls.QuietSidesPushStraight` | Host/game.cpp:492-508 | for a radius within the tolerance too: a player no other side shoves goes straight out |
| `Corners.CornerEnds` | Host/game.cpp:492-508 | a player that overlaps only a corner, however thin the wall: exactly when it ends just touching, exactly when it still overlaps the wall, and exactly when the first of the two sides is the only one to push it |
| `Corners.CornerPushOvershoots` | Host/game.cpp:492-496 | that one push ends strictly farther than r from the wall |
| `Corners.ThinWallsAreCrossed` | Host/game.cpp:492-508 | a corner push can carry the centre across the wall only if the wall is thinner than the radius at a left corner, lower than 0.0025 at a right one |
| `Corners.ThickWallsPushOnce` | Host/game.cpp:492-508 | at a wall no thinner than the radius one push is all there is, so the player always ends too far away |
| `Corners.PulledBeside` | Host/game.cpp:492-508 | a corner of a 5 by 5 wall where the second push ends just touching |
| `Corners.PulledInside` | Host/game.cpp:492-508 | a corner of a 10 by 10 wall where the four pushes end with the centre inside the wall |
| `Corners.ContactIsFrontOrCorner` | Host/game.cpp:396-400 | every contact from outside is in front of a side, or overlaps only a corner: the two statements cover all |
| `Walls.WallLoopPushes` | Host/game.cpp:396-400 | in the loop over the walls the test that guards the push notices every contact, and the push does what the closed form says |
| `Walls.ShovedSideways` | Host/game.cpp:492-508 | a player squarely in front of a side that is shoved along it |
| `Walls.ShovedButStraight` | Host/game.cpp:492-508 | a player another side shoves that goes straight out all the same |
| `Handlers.WhoIsThere` | Host/game.cpp:304-357 | who is among the players after a message: a connection enters, a lost one leaves, and a command that looks its sender up lets it in; a ping, an unknown command and too fast a movement do not |
| `Handlers.RepliesGoToTheSender` | Host/game.cpp:248-302 | a connection is answered with the welcome message and then the map, a ping with its number, each once and to its sender, and nothing else is |
| `Host.Game.UpdatePositions` | Host/game.cpp:371-381 | living players move by velocity * 300 * 0.003, every projectile by velocity * 500 * 0.003, whatever the visiting order |
| `Host.Game.PushAgainstOthers` | Host/game.cpp:388-395 | the loop computes the pass whose encounters `Encounters.OthersInTurn` tells one by one: a player against all others, in visiting order, each pair with the positions the earlier ones left |
| `Host.Game.PushAgainstScenery` | Host/game.cpp:396-413 | the three loops compute the pass whose encounters `Encounters.SceneryInTurn` tells one by one: walls, then obstacles, then the border, each with the position the earlier ones left |
| `Host.Game.ResolvePlayers` | Host/game.cpp:383-414 | every living player resolved once, in some enumeration of the map |
| `Host.Game.CheckProjectileCollisions` | Host/game.cpp:424-456 | the verdict, its cause and the damage, with an outcome that `Contacts.OutcomeIsContact` tells in distances: scenery first, then at most one living player other than the owner, then the border |
| `Host.Game.CheckProjectiles` | Host/game.cpp:415-421 | erasing while iterating checks each projectile exactly once and leaves, in order, exactly those whose check was false at their turn |
| `Host.Game.Tick` | Host/game.cpp:206-208 | one tick is the movement followed by one pass of pushes and one of projectile checks |
| `Contacts.CircleTestExact` | Host/collisions.cpp:16-18 | two circles collide exactly if the squared distance of the centres is below the squared sum of the radii by more than 1e-10 |
| `Contacts.OutcomeIsContact` | Host/game.cpp:424-456 | one projectile check in distances alone: a struck player is alive, not the owner, and overlapped, and no wall or obstacle is touched; after a miss nothing solid and no other living player is; a projectile stopped by scenery is within the tests' tolerance of some, and if only of the border then touches no player |
| `Contacts.HitsAreContacts` | Host/game.cpp:415-456 | over whole runs, for every tick and every projectile: the outcome the accounts count was contact, or the lack of it, where the tick had put the projectile and the players |
| `Encounters.PairMeets` | Host/game.cpp:388-395 | two players meet: if they overlap they end exactly touching, each on its own side, sharing the way, and nothing else changes; else nothing changes |
| `Encounters.OneOther` | Host/game.cpp:388-395 | a player with one other only: the same, whichever is visited first |
| `Encounters.OthersInTurn` | Host/game.cpp:388-395 | a player against all others is such encounters one after the other in visiting order, none left out |
| `Encounters.GuardChangesNothing` | Host/game.cpp:396-400 | the test that guards the push off a wall never changes where the player ends, for any quadrilateral |
| `Encounters.SceneryInTurn` | Host/game.cpp:396-413 | a player against the scenery of any map: every side of every wall, every obstacle and every border edge in that order, each push in closed form in the frame of its edge, or exactly off the obstacle on the side the player came from |
| `Encounters.OneObstacle` | Host/game.cpp:401-405 | with one obstacle in reach: exactly r + R from its centre on the same side if it overlapped, unmoved otherwise |
| `Encounters.OneWall` | Host/game.cpp:396-400 | with one rectangular wall in reach, from every position: where the closed form of its four sides says |
| `Encounters.TickInTurns` | Host/game.cpp:371-414 | a tick on any map, in any visiting order: every living player goes 0.9 times its velocity, then each in turn meets all others and the scenery |
| `Encounters.NothingTouched` | Host/game.cpp:371-414 | if no two players overlap and none is in reach of the scenery, the tick is those strides alone |
| `Runs.BeforeChecksKeepsAllButPlaces` | Host/game.cpp:371-414 | moving and pushing change nothing of a player but its position |
| `Runs.OthersPassConservesCentres` | Host/game.cpp:388-395 | players pushing one another never move their common centre of mass |
| `Runs.MessageTouchesItsSenderOnly` | Host/game.cpp:248-302 | a message changes no other client's entry and no projectile already in the air |
| `Runs.SpeedLimitHolds` | Host/game.cpp:340-347 | in every reachable state no player has a velocity beyond the limit, whatever clients sent |
| `Confinement.StrideIsClamped` | Host/game.cpp:371-413 | a tick may carry a player across the border by less than one unit, and its border pass puts it back: at least its radius inside if it started a unit inside, else its radius less 2 |
| `Confinement.NeverLeavesTheArena` | Host/game.cpp:371-413 | over whole runs and at every moment, a player alone in a rectangular arena, put down anywhere in it, border included, is in it: after its first tick at least its radius less 2 from all four sides, or its whole radius if it was put down one unit inside, after every later tick at least its radius |
| `Confinement.PutDownOnTheBorder` | Host/game.cpp:316-329 | a player put down on the border line may step 0.9 out of it |
| `Confinement.PushedBackTooLittle` | Host/game.cpp:406-413 | and is then pushed back to 28.2 from it, not to 30 |
| `Journeys.TicksGoInTurns` | Host/game.cpp:371-456 | in every run every tick is such turns, and the projectile checks move nobody |
| `Journeys.PlayersGoTheirWay` | Host/game.cpp:371-377 | over every run with nothing to touch, every player is where its spawn and 0.9 times each velocity since have brought it |
| `Tunnelling.MissedIsClear` | Host/game.cpp:424-455 | a check that comes back false leaves the centre more than 4 from every border edge, wall edge and point of a convex wall |
| `Tunnelling.FlightKeepsClear` | Host/game.cpp:378-380 | a projectile so clear stays more than 2.5 clear during its whole next step |
| `Tunnelling.RunsFlyClear` | Host/game.cpp:304-312 | in every reachable state every projectile that has survived a check has radius 4, unit velocity and that clearance |
| `Tunnelling.NoTunnelling` | Host/game.cpp:371-381 | over whole runs, the path of a surviving projectile crosses no border or wall edge and enters no convex wall |
| `Histories.LivesAsTold` | Host/game.cpp:248-347 | in every reachable state, who is alive, with what health, facing where, at what velocity, called what and how large follows from the player's own messages since it joined and the hits it took; nothing else in the game changes any of it |
| `Histories.ProjectilesFlyStraight` | Host/game.cpp:304-312 | in every reachable state the projectiles in the air come from different shots of then living players, in the order of the shots, and each is where its shot and the ticks since put it, straight from the rim of the shooter |
| `Ledger.PassCounts` | Host/game.cpp:415-421 | a pass splits the projectiles into survivors, those stopped by scenery and those that struck a player |
| `Ledger.ShotsAreAccounted` | Host/game.cpp:304-312 | over whole runs, shots fired = projectiles in the air + stopped by scenery + player hits |
| `Ledger.DamagedTotals` | Host/game.cpp:437-443 | a fatal hit adds one kill and one death in total, any other hit neither, even when the owner has left |
| `Ledger.KillsBalanceDeaths` | Host/game.cpp:435-446 | over whole runs, kills and deaths, entries erased or overwritten included, both equal the number of fatal hits modulo 2^16 |
| `Ledger.DamageLedger` | Host/game.cpp:435-446 | in every reachable state and for every id, health is a multiple of 10 in 10..100 and hits taken = 10 * deaths + (100 - health) / 10 while alive, modulo the death counter |
| `Kills.DamagedCredits` | Host/game.cpp:437-443 | a fatal hit adds one kill to the entry of the projectile's owner, made if need be, and to no other; any other hit adds none |
| `Kills.KillLedger` | Host/game.cpp:435-446 | in every reachable state and for every id, the kills on record are, modulo 2^16, the fatal hits by that client's projectiles since its entry was made |
| `Timestep.UpdateThread` | Host/game.cpp:195-222 | for every split of the measured time E into wake-ups, E = 3000 * ticks + accumulator with accumulator at most 3000, ticks = (E - 1) div 3000 for E > 0, and the game is in the state that many ticks reach |
| `Deque.Queue.PushBack` | Server/server_queue.c:37-49 | the links describe the old sequence with the new element behind it |
| `Deque.Queue.PushFront` | Server/server_queue.c:51-63 | the links describe the old sequence with the new element in front |
| `Deque.Queue.PopFront` | Server/server_queue.c:65-84 | returns the first element, leaves the rest, and frees the node it was in |
| `Deque.Queue.Clear` | Server/server_queue.c:105-114 | walks the chain once, frees every node exactly once and leaves an empty queue |
| `Deque.Run` | Server/server_queue.c:37-90 | every allowed series of operations gives what the plain sequence gives |
| `Deque.ReplayConserves` | Server/server_queue.c:37-90 | what was there and what was pushed is what came out and what is left |
| `Deque.ReplayIsFifo` | Server/server_queue.c:37-84 | without pushes at the front the order is first in, first out |
| `ByteArray.Array.PushBack` | Server/server_array.c:66-74 | the item is appended, its index is the old size, every earlier item keeps index and content across a growth, and the growth stays that of pushes alone |
| `ByteArray.Array.Resize` | Server/server_array.c:43-54 | a smaller capacity is ignored, any other is taken, and every item keeps its bytes |
| `ByteArray.Array.SetItem` | Server/server_array.c:118-120 | writing a slot within the capacity changes that item only, or no item when the slot is not in use |
| `ByteArray.MovesAreLinear` | Server/server_array.c:66-74 | for n pushes the capacity is the starting one times a power of two and the reallocations together move fewer than 2n items |
| `ByteArray.Array.GetItem` | Server/server_array.c:110-112 | an item below the size comes back as pushed |
| `ByteArray.Array.GetCopy` | Server/server_array.c:132-137 | an independent array with the same items, exactly full |
| `Outgoing.ShapeHolds` | Server/server_send.c:96-134 | in every reachable state the queue holds the latest sends in order, the slot the latest broadcast, and the sender stands where its program says |
| `Outgoing.NeverBroadcastsNull` | Server/server_send.c:98-123 | when the sender finds the queue empty the slot is not null |
| `Outgoing.EveryBufferInOnePlace` | Server/server_send.c:23-46 | every buffer handed over is in exactly one of: slot, queue, sender's hand, freed; as long as no sendToEveryone has come after the sender last read a slot that was not null |
| `Outgoing.NoDoubleFree` | Server/server_send.c:96-134 | under the same condition nothing is freed twice and what the sender reads has not been freed |
| `Outgoing.DoubleFreeIff` | Server/server_send.c:132-132 | when the sender has ended, some buffer has been freed twice exactly if in the run a sendToEveryone comes after the last reading of a slot that was then not null |
| `Outgoing.DrainFreesAllIff` | Server/server_send.c:125-133 | when the sender has ended, everything handed over has been freed exactly once precisely if in the run no sendTo comes after the end of the drain and no sendToEveryone after the last reading of the slot |
| `Outgoing.LateRunFreesTwice` | Server/server_send.c:132-132 | a run in which that happens |
| `Outgoing.QuietShutdownFreesAll` | Host/game.cpp:182-193 | if the producers are quiet once stopServer begins, as the host arranges, every buffer is freed exactly once |
| `Outgoing.SendsArriveInOrder` | Server/server_send.c:48-64 | a running client has received exactly the handled sendTo messages addressed to it, in call order; a stopped one a prefix of them |
| `Outgoing.BroadcastsArriveInOrder` | Server/server_send.c:114-121 | the broadcasts a client receives are an in-order selection of the sendToEveryone calls, none twice; which it must receive is the next row |
| `Broadcasts.BroadcastReachesEveryone` | Server/server_send.c:114-121 | when a broadcast has been sent and is about to be freed, every client running when its sending began and still running has received it exactly once |
| `Broadcasts.BroadcastRun` | Server/server_send.c:114-121 | a run in which a client joins and a broadcast reaches it |
| `Broadcasts.BroadcastsWait` | Server/server_send.c:104-114 | a broadcast is taken only if the outgoing queue was empty when the sender last looked |
| `Broadcasts.QueuedGoesFirst` | Server/server_send.c:104-110 | if anything is queued when the sender chooses, the front of the queue is what it holds until it frees it |
| `Stopping.StoppedSenderEnds` | Server/server_send.c:94-134 | after stopServer the sender takes no more steps than a bound its state gives, and one for each message or client that has come since |
| `Stopping.SenderGoesOn` | Server/server_send.c:94-134 | and until its end some step of it is possible in every reachable state |
| `Sender.Mailbox.SendToEveryone` | Server/server_send.c:23-29 | the slot code does what the step says: the waiting message is freed and replaced |
| `Sender.Mailbox.SendTo` | Server/server_send.c:31-35 | the queue code does what the step says |
| `Sender.Mailbox.PopMessageToEveryone` | Server/server_send.c:38-46 | returns the slot and empties it |
| `Sender.Mailbox.TakeNext` | Server/server_send.c:104-115 | a queued message goes first, else the broadcast |
| `Sender.Mailbox.Free` | Server/server_send.c:109-121 | after sending, the message is freed |
| `Sender.Mailbox.Drain` | Server/server_send.c:125-130 | the drain loop ends and frees each queued message once, as that many single steps |
| `Sender.Mailbox.Finish` | Server/server_send.c:125-133 | drain and last free reach the state the undisturbed system reaches |
| `Received.TwoLanesHold` | Server/server_receive.c:59-129 | in every reachable state the received queue is LOST_CONNECTION entries, newest first, then all others in arrival order; the others taken and queued are the whole history of pushes at the back |
| `Received.LostGoesFirst` | Server/server_receive.c:120-121 | a queued LOST_CONNECTION precedes every other queued entry |
| `Received.EntriesOnce` | Server/server_receive.c:59-129 | each NEW_CONNECTION, each message and each LOST_CONNECTION is pushed at most once and is then queued or popped, exactly once |
| `Received.ClientsAreScripted` | Server/server_receive.c:61-113 | a client's pushes at the back are its NEW_CONNECTION followed by its messages in the order it sent them |
| `Received.NeverRunsAgain` | Server/server.c:118-130 | a client told to stop never runs again |
| `Received.StoppedPassesAtMostOne` | Server/server_receive.c:69-113 | after a client is told to stop at most one more of its messages gets through |
| `Received.EndedNeverRuns` | Server/server_receive.c:124-127 | a client whose receiver has ended is never seen as running |
| `Serving.ReadsArePassed` | Server/server_receive.c:84-113 | every message read whole has been put in the queue, but for one the receiver may be about to put there |
| `Serving.LeavesIffItMust` | Server/server_receive.c:69-119 | a receiver has left its loop exactly if it saw its client told to stop, or the connection broken or ended |
| `Serving.ToldClientsStop` | Server/server.c:118-130 | once a client is told to stop, alone or with all others, it is never seen as running again |
| `Received.EveryBufferInOnePlace` | Server/server_receive.c:50-113 | every buffer a receiver allocates is in exactly one of: the receiver, the queue, the host, freed |
| `Received.JoinedClientsSignedOff` | Server/server.c:166-187 | once the receivers are joined, every client whose thread was created has announced itself once and signed off once |
| `Received.DestroyFreesAll` | Server/server_receive.c:50-57 | after the queue is destroyed every received buffer has been freed exactly once, unless the host still holds it |
| `Received.OvertakenAreLeft` | Server/server_receive.c:120-121 | the entries of a client that were queued when its LOST_CONNECTION was pushed are exactly those popped after it |
| `Received.LostWasAnnounced` | Server/server_receive.c:120-121 | a popped LOST_CONNECTION was pushed by one step of the run, and by one only |
| `Received.OvertakenConnection` | Server/server_receive.c:120-121 | a run in which the host sees a client leave before it sees it come |
| `GhostPlayers.GhostPlayerIff` | Server/server_receive.c:120-121 | server and host together: once the host has handled a client's LOST_CONNECTION and the rest of its entries, the client is among the players exactly if its NEW_CONNECTION or a message that looks its sender up was queued when the LOST_CONNECTION was pushed, or one of its projectiles has killed since |
| `GhostPlayers.GoneButLeft` | Host/game.cpp:248-302 | for every run of the game that handles the entries in the order taken: who is left after a LOST_CONNECTION |
| `GhostPlayers.TickKeys` | Host/game.cpp:435-446 | a tick brings a player back exactly if one of its projectiles strikes fatally |
| `GhostPlayers.GhostPlayerRun` | Server/server_receive.c:120-121 | a run of both in which a living player stays behind |
| `TimedWait.FateOfWait` | Server/server_receive.c:14-30 | what has happened since the wait began decides whether the host is still blocked, woken or past its deadline, and whether anything is queued |
| `TimedWait.EmptyAlthoughQueuedIff` | Server/server_receive.c:14-40 | take returns EMPTY from a wait and leaves entries queued exactly if something was pushed since the wait began, and everything pushed was pushed without a signal or after the deadline, as was every spurious wakeup; a wait that ends otherwise hands over the front of the queue |
| `TimedWait.WaitStarted` | Server/server_receive.c:14-40 | every EMPTY comes from such a wait |
| `TimedWait.EmptyAlthoughQueued` | Server/server_receive.c:61-62 | a run in which it happens: NEW_CONNECTION does not signal |
| `Received.StopEveryClient` | Server/server.c:172-176 | the loop sets every status to STOP and changes nothing else |
| `Inbox.Entries.Announce` | Server/server_receive.c:61-62 | the queue code does what the step says |
| `Inbox.Entries.Push` | Server/server_receive.c:110-113 | the queue code does what the step says |
| `Inbox.Entries.AnnounceLost` | Server/server_receive.c:120-121 | the push at the front does what the step says |
| `Inbox.Entries.Try` | Server/server_receive.c:32-40 | under the lock, take returns the front of a non-empty queue and nothing of an empty one |
| `Inbox.Entries.Destroy` | Server/server_receive.c:50-57 | the loop ends, empties the queue front to back and frees each entry's buffer |
| `LockOrder.NoDeadlock` | Server/server_mutex.c:37-57 | threads that keep the lock order never deadlock, never hold a lock together, and keep the order, under every schedule; some thread that has been started can go on |
| `LockOrder.StuckIffFinished` | Server/server_mutex.c:37-57 | a schedule that cannot go on is one in which every thread has finished, and no schedule is longer than the work there is |
| `LockOrder.NoInterference` | Server/server_mutex.c:37-57 | under every schedule a thread about to use what a lock guards holds the lock, and no other thread holds it or is about to use the same |
| `ServerLocks.HandleMessageReturns` | Host/game.cpp:248-302 | every path of handleMessage takes update_mutex before the outgoing queue and ends holding nothing |
| `ServerLocks.TakeReturns` | Server/server_receive.c:14-40 | take waits with the queue lock held exactly once and nothing else, and ends holding nothing |
| `ServerLocks.SenderTurnReturns` | Server/server_send.c:98-123 | each turn of the sender, overlapping its two locks, keeps the order; its waits hold the message mutex exactly once and nothing else |
| `ServerLocks.DrainReturns` | Server/server_send.c:125-131 | the drain re-enters the queue lock and gives it back |
| `ServerLocks.ReceiverReturns` | Server/server_receive.c:59-129 | a receiver takes the queue and the client table one at a time, re-entering the queue lock only |
| `ServerLocks.ListenerReturns` | Server/server.c:132-146 | the listener takes the client table alone, and creates receiver threads while holding it |
| `ServerLocks.MainThreadReturns` | Server/server.c:77-84 | the main thread starts and joins the others with nothing held |
| `ServerLocks.EveryThreadIsDisciplined` | Server/server.c:90-187 | all threads together, for every choice of loops and branches; each is started by one that runs, and the main thread joins after all its starts |
| `ServerLocks.ServerNeverDeadlocks` | Server/server.c:77-187 | whatever loops and branches do and however threads are scheduled, some thread that has been started can go on until all have ended; different locks are held together only in the one order |
| `ServerLocks.ServerNeverRaces` | Server/server.c:77-187 | however the threads are scheduled, one about to touch the game, the slot, a queue or the client table is alone in holding its lock |
| `ServerLocks.MessagesAreHandledLocked` | Host/game.cpp:248-302 | every message but EMPTY is handled under the game's lock, taken first and given back once |
| `Bytes.LittleEndianRoundTrip` | Client/client.py:293-294 | reading n little-endian bytes gives the number modulo 256^n |
| `Wire.Writer.CopyInt` | Host/game.cpp:33-39 | writes the low bytes, little-endian, and advances the write pointer |
| `Wire.Writer.CopyVec` | Host/game.cpp:41-46 | x, then y |
| `Wire.SerializeGameState` | Host/game.cpp:510-536 | writes exactly 5 + 44n + 34m bytes, all inside the allocation, and what they are |
| `Wire.AllocationSufficesIff` | Host/game.cpp:511-513 | the allocation, computed from 16-bit counts, holds what the loops write exactly when both counts fit in 16 bits |
| `Layout.GameStateLaidOut` | Protokol_komunikacji.txt:20-22 | the game state by its offsets: type 2, both counts, the fields of every player from byte 5 on, 44 bytes each, and of every projectile behind, 34 bytes each |
| `Layout.MapHeaderLaidOut` | Protokol_komunikacji.txt:8-11 | the map message by its offsets: type 1 and the three counts |
| `ClientReader.GameStateRoundTrip` | Client/client.py:354-378 | the client recovers every serialised state, 16-bit numbers modulo 65536, and consumes exactly the message |
| `Snapshot.ClientSeesTheGame` | Host/game.cpp:510-536 | in every reachable game with at most 65535 players and projectiles, whatever order the players are visited in, the client reads back every player and projectile, exactly but for ids modulo 65536, and nothing else |
| `MapWire.SerializeMap` | Host/game.cpp:538-562 | writes exactly 7 + 64w + 24o + 16b bytes and fills the allocation |
| `MapWire.MapAllocationExact` | Host/game.cpp:539-542 | the records fill the allocation exactly when the three counts fit in 16 bits |
| `MapWire.MapRoundTrip` | Client/client.py:345-352 | the client recovers the map and consumes exactly the message |
| `MapWire.GetMapAcceptsIff` | Client/client.py:345-352 | for every byte string: accepted exactly when all the bytes the header promises are there |
| `MapWire.GetGameStateAcceptsIff` | Client/client.py:354-378 | for every byte string: accepted exactly when all promised bytes are there, except that the last four of the players may be missing when no projectile follows |
| `Framing.FramingRoundTrip` | Server/server_send.c:48-64 | the frames sent decode to exactly the messages sent |
| `Framing.PrefixDecodesToPrefix` | Server/server_receive.c:77-113 | wherever the stream is cut, what decodes is a prefix of the messages |
| `Framing.ReceivePayload` | Client/client.py:315-318 | the payload loop ends by itself, after at most as many reads as bytes, exactly when the promised bytes arrive; when the connection ends before, it never does |
| `Framing.ReceiveMessage` | Client/client.py:304-319 | with a whole header the client gets exactly the next message and leaves the rest, however the payload is split; with a header that came short it takes the size of the bytes that came; without any it changes nothing |
| `Framing.ShortHeader` | Client/client.py:304-319 | a frame whose first header byte comes alone, and which is then misread |
| `Framing.ReceiveLoop` | Server/server_receive.c:69-119 | until the connection ends the receiver queues exactly the complete messages of the stream |
| `Delivered.ClientsDecodeDeliveries` | Server/server_send.c:48-64 | for every run of the server, whatever the messages hold and however far failing sends got: any part of the bytes a client has been sent decodes to a prefix of the messages delivered to it, all of them to exactly these, in order |
| `Delivered.SentSoFar` | Server/server_send.c:48-64 | a connection carries the whole frames of the messages delivered and at most the beginning of one more, after which the client is never tried again |
| `Framing.CommandRoundTrip` | Client/client.py:278-290 | every command the client can send is one frame, its first byte 10 to 14 by the command, and parses on the host to the same command and arguments; only a ping number over 65535 is not sent |

## Left out

- Sockets, `poll`, `accept`, `bind`, signals and file descriptors: their outcomes are choices of the step systems.
- A thread that cannot be created leaves its client in the table with no thread (`Server/server.c:139-143`); the model keeps it as a client that never does anything and does not model joining its unset thread id.
- Floating-point rounding, NaN positions and overflow: the geometry is over exact reals, and doubles on the wire are opaque bytes.
- The moment between a receiver closing its socket and marking its client stopped, in which the sender may still use the descriptor (`Server/server_receive.c:124-127`).
- Two players, or a player and an obstacle, with the same centre: the source divides by zero; nothing is claimed of where they go.
- Overlaps left after a whole pass: later pushes can undo earlier ones, and the source promises nothing.
- Pushes off walls that are not rectangles, or whose corners are listed the other way round: the push code is modelled for them (`Host.Game.MoveOffWall`), where they end is not stated.
- Several players in an arena: they push one another after their own border pass, possibly across the border.
- Map text reading, the statistics in `calc_time` and `packets`, debug output and the test programs.
- The client's drawing, event handling, latency display and `change_movement`: user interface only.
- The bytes of the welcome message and of the ping reply: two fields each, written and read like the fields that are modelled.
- Delivered.ClientsDecodeDeliveries: a send that fails puts out a part of its frame from the front; that the send of the size fails and the send of the data after it succeeds is not modelled, since the socket is dead by then.
- Client commands shorter than their type requires: the host reads past the payload; the parser of the model marks them and says no more.
- ServerLocks.ServerNeverRaces: the uses are those under the locks of `Server/` and `update_mutex`; the sender's last look at the slot (`Server/server_send.c:132`) takes no lock and is not among them.
- Fairness and timing: deadlock freedom says some thread can go on, not that a given thread will.
- A second run of the server after a stop: the slot keeps its old pointer, so only one run is modelled.
- Outgoing.EveryBufferInOnePlace: excludes runs in which a broadcast has come after the last reading of a slot that was not null; `Outgoing.DoubleFreeIff` says exactly what happens there.
- ServerLocks.EveryThreadIsDisciplined: each thread's branches are free choices, so it covers more behaviours than the data allow.
