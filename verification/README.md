# A model of the game server's stateful algorithms

This project models the parts of the XPilot server whose correctness is a claim about whole runs, and proves
those claims. `dafny verify dfyconfig.toml` checks all of it.

- **The reliable byte stream.** The server piggybacks a byte stream on its datagrams, with a growing burst, an
  acknowledgement timer with backoff and a round trip estimator. `ReliableStream.dfy` says what one call of
  `Send_reliable` and of `Receive_ack` does to a connection and puts those calls into a system of server, network
  (which may lose, repeat and reorder packets and acknowledgements) and client. The client is not in the repository;
  it does what the comment in `src/server/netserver.cpp` says of it: it advances over a packet it needs and always
  acknowledges its position. `Connection.dfy` is the imperative code over the socket buffers of `Sockbuf.dfy` and the
  packet formats of `PacketCodec.dfy`, proved against that machine; `StreamTiming.dfy` tells when the stream sends and
  how much, and `MapHandover.dfy` follows the map through the stream over many calls of `Handle_setup`.
- **Fast or in-place forms against simple specifications.** The batch Mersenne Twister (`MersenneTwister.dfy`)
  against the plain recurrence; the map's run-length coder (`RunLength.dfy`) against the obvious decoder, and the
  whole way of a map from its tags to the bytes a client unpacks (`MapSetup.dfy`); the per-block collision index
  (`CollisionCells.dfy`) against a scan of all objects; the ship outline and flood fill (`ShipOutline.dfy`,
  `ShipFill.dfy`) against closed chains and graph reachability; the hit test (`SweptCircle.dfy`) against "closer than
  r at some time of the frame".
- **Tables with swap removal and cross pointers.** The object pool with its balls and shots (`ObjectPool.dfy`, and
  whole games of it in `PoolRuns.dfy`), the player table with ids, teams and home bases (`PlayerTable.dfy`, on top of
  the id ring of `IdAllocator.dfy`) and the login queue (`LoginQueue.dfy`).
- **The option database** (`OptionDatabase.dfy`): a case-insensitive map on hash chains, and a precedence rule that
  is a maximum over a total order.

An operation that changes state in place is a method of a class. It is proved equal to a function on a snapshot of the
state (`Now`, `View`, `Contents`), and the lemmas are about those functions.

## What turned out false

Each of these has a concrete state or input for which it fails, and the exact condition under which it holds.

- "No acknowledgement in flight is behind the server." One that was overtaken is (`ReliableStream.AckFallsBehind`).
  Taking an acknowledgement keeps the claim exactly when none of those still in flight tells an older position
  (`TakingKeepsNoneBehind`), and none is behind in any state of a run exactly when that is so each time one is taken
  (`RunNoneBehind`). They stay in order as well exactly when none ever overtakes one that tells an older position and no
  copy comes in behind a newer one (`RunInOrder`); that order is what it takes for none to be behind however many more
  arrive (`InOrderIsNeeded`). So on a network that delivers in order and once each none is
  ever behind, whatever it loses (`NeverBehind`). One that is behind moves nothing but the round trip estimate
  (`LateAckMovesNothing`).
- "Leaving CONN_DRAIN means that the buffer is empty." Bytes appended after the last packet may still be there
  (`ReliableStream.DrainedIsNotEmpty`). It is empty exactly when `reliable_unsent` was the end of the buffer
  (`DrainedIsEmpty`). What leaving always means is that the client holds every byte ever put in a packet
  (`DrainedMeansHeld`).
- "The hit test reports a hit exactly when the objects come closer than r." It misses objects that start closer than
  r and only move apart (`SweptCircle.StartIsMissed`); otherwise it is exact (`OccuredExactly`).
- "`NumRobots` of a team counts its robots in every run." `Players_swap_teams` leaves the counts alone, so when a
  robot and a human change places both teams are off by one (`PlayerTable.ExchangeMiscounts`), and the operations of
  the table get there from an empty game (`Miscount`). An exchange keeps the counts exact exactly when both are robots,
  or neither is, or both are on the same team (`ExchangeKeepsRobots`); the counts are exact in every state of a run
  exactly when all its exchanges are like that (`RunExact`), and after any run a count is off by what the exchanges
  took and by nothing else (`RunDrift`).
- "A ball that is removed is forgotten by everybody." Another player may still be connecting to a ball that was
  attached; the operations of the pool get there (`PoolRuns.StrandedString`). It is forgotten exactly when it was loose,
  or nobody but its owner was connecting to it (`ObjectPool.RemovedForgotten`). The pointer that is left does not dangle,
  because the slot given up is the very slot the new ball takes (`Pool.Expunge`).
- "Nobody takes a ball of the own team out of its box." The search takes care of that, but the catch does not ask again:
  such a left-over string leads to the new ball in its box, and pulling it takes the ball (`PoolRuns.TakesOwn`, by the
  operations of the pool; `StrandedTakes`). In a run no string ever leads to a ball of the own team in its box exactly
  when no sweep recreates a ball that somebody holds while another player, of the ball's own team, connects to it
  (`RunFair`), and then only balls that may be caught are (`FairCatches`).
- "HAS_BALL tells in every state who holds a ball." `Player_go_home` clears it without looking. It is right in every
  state of a run, with all the rest of the invariant, exactly when nobody goes home with a ball on a string
  (`PoolRuns.RunSound`), as those who were killed or moved do not.
- "The index finds what is within the radius asked for." The radius is first cut to either side of the map, for both
  axes. That loses nothing exactly when on both axes the cut radius still reaches as far as the radius asked for or the
  farthest place of the map (`CollisionCells.Cells.RadiusIsEnough`).

## Model

| member | source | states |
|---|---|---|
| ReliableStream.RunKeeps | src/server/netserver.cpp:1986-2226 | in every state of every run with loss, repetition and reordering, the client holds a prefix of all bytes ever appended, every packet ever sent carries the piece of the stream it is labelled with, and acknowledged <= held by the client <= sent <= appended, the buffer being what is not yet acknowledged |
| ReliableStream.StepKeeps | src/server/netserver.cpp:1986-2226 | every single step of server, network or client keeps that invariant and the bounds of timer and estimator |
| ReliableStream.EmitCarries | src/server/netserver.cpp:2036-2078 | the pieces a burst puts on the wire are consecutive non-empty pieces of the stream, also when a retransmission cuts it differently |
| ReliableStream.NeverBadAck | src/server/netserver.cpp:2183-2194 | an honest client never makes the server take the "bad ack" branch |
| ReliableStream.LateAckMovesNothing | src/server/netserver.cpp:2195-2199 | an acknowledgement at or before the server's position changes only the round trip estimate |
| ReliableStream.TakingKeepsNoneBehind | src/server/netserver.cpp:2183-2199 | one step: "no acknowledgement in flight is behind the server" survives taking one if and only if none of those that remain in flight tells an older position |
| ReliableStream.RunNoneBehind | src/server/netserver.cpp:1986-2226 | whole runs: none in flight is behind in any state, if and only if every acknowledgement that is taken tells no later position than those it leaves in flight |
| ReliableStream.StepInOrder | src/server/netserver.cpp:2183-2199 | of all steps only overtaking an older position, or a copy that comes in behind a newer one, puts the acknowledgements in flight out of order |
| ReliableStream.RunInOrder | src/server/netserver.cpp:1986-2226 | whole runs: in every state those in flight are in order and none is behind, if and only if no step does that |
| ReliableStream.InOrderIsNeeded | src/server/netserver.cpp:2183-2199 | the order says no more than that none will be behind, however many of those in flight arrive |
| ReliableStream.NeverBehind | src/server/netserver.cpp:1986-2226 | on a network that delivers acknowledgements in order and once each, or loses them, none in flight is ever behind the server |
| ReliableStream.AckFallsBehind | src/server/netserver.cpp:2183-2199 | a reachable state in which an acknowledgement in flight is behind the server |
| ReliableStream.DrainedMeansHeld | src/server/netserver.cpp:2200-2219 | when an acknowledgement ends CONN_DRAIN the client holds every byte ever put in a packet |
| ReliableStream.DrainedIsNotEmpty | src/server/netserver.cpp:2200-2219 | a reachable state in which draining ends with bytes still in the buffer that the client has not seen |
| ReliableStream.DrainedIsEmpty | src/server/netserver.cpp:2200-2219 | when draining ends the buffer is empty if and only if everything in it had been put in a packet |
| ReliableStream.DrainEnds | src/server/netserver.cpp:2206-2219 | draining ends with the acknowledgement of the last byte ever put in a packet, and with no other |
| ReliableStream.ReadyEnds | src/server/netserver.cpp:2219-2222 | a connection that is ready begins to play with the acknowledgement that leaves no reply as the first unacknowledged byte, and with no other |
| ReliableStream.ReplyIsHeld | src/server/netserver.cpp:2113-2226 | in every run: when an acknowledgement ends CONN_READY no reply is left unacknowledged, and the client holds all that went before |
| ReliableStream.StartsWhereAcked | src/server/netserver.cpp:1994-2111 | with unacknowledged data, an expired timer and no send yet in this loop, what goes out starts with a non-empty packet at the acknowledged position |
| ReliableStream.Progress | src/server/netserver.cpp:1994-2219 | once that packet and its acknowledgement get through, all the bytes of the packet are acknowledged |
| ReliableStream.EventuallyDelivered | src/server/netserver.cpp:1986-2226 | from every state everything appended can be delivered and acknowledged, within fps + 2 loops for each 1024 bytes, by retransmissions that get through |
| ReliableStream.EstimateKeeps | src/server/netserver.cpp:2132-2182 | every round trip sample keeps the smoothed time at 0 or in [8, 8M+7], the deviation in [0, 4M-1] and gives a timeout in [fps/8+1, 3M], for M = fps + 1 |
| ReliableStream.ArmLandsAhead | src/server/netserver.cpp:2087-2103 | every arming of the timer lands 1 to M loops ahead |
| StreamTiming.SendsBurst | src/server/netserver.cpp:1994-2111 | what one call puts on the wire: whether anything, how many bytes of full packets from the acknowledged position, as far as burst, frame and network allow, and what becomes of the burst when the network blocks or fails |
| StreamTiming.SilentUntil | src/server/netserver.cpp:2017-2103 | after a send, whatever is appended, nothing goes out in a loop without a frame until Min(rtt_retransmit, fps + 1) loops are over, and then something does |
| StreamTiming.RetransmitsBackOff | src/server/netserver.cpp:1994-2111 | without acknowledgements packets appear on the wire in exactly the loops that lie R, 2R, 4R, ... apart, up to fps + 1 |
| StreamTiming.FirstTimeouts | src/server/netserver.cpp:728-747 | a new connection begins with R = fps / 2 |
| StreamTiming.BurstGrows | src/server/netserver.cpp:2197-2205 | a good acknowledgement lets the burst grow to the least number above the old one that has two packets for each 1024 acknowledged bytes |
| StreamTiming.TimeoutSettles | src/server/netserver.cpp:2132-2182 | after 12 M equal round trip samples the smoothed time is that time and the timeout at most two loops more, or the least one |
| Connections.Connection.SendReliable | src/server/netserver.cpp:1986-2111 | the loop over buffers and packets does to the connection exactly what the machine says, sends one datagram for each packet, the first behind the waiting frame, and never takes its write error branches |
| Connections.Connection.ReceiveAck | src/server/netserver.cpp:2113-2226 | the code does to the connection exactly what the machine says |
| Connections.Connection.HandleInput | src/server/netserver.cpp:1110-1182 | while a connection drains or is set up, a datagram's acknowledgements are taken one after the other, up to a packet that is ignored there; anything else ends the connection |
| Connections.Connection.HandleSetup | src/server/netserver.cpp:862-933 | one call hands the header, the first time, and then the next piece of the map data to the stream, as much as 4096 bytes of buffer leave room for, having looked for input first when some of it is unacknowledged |
| MapHandover.MapIsHandedOver | src/server/netserver.cpp:862-933 | over any number of calls, with acknowledgements, losses and retransmissions in between, the bytes appended are the header as it was printed and then the map data in order, draining starts exactly when the last of it is handed over, and the client holds a prefix of that |
| MapHandover.HeaderIsWhole | src/server/netserver.cpp:876-890 | a header that is representable and shorter than the room there was is handed over whole |
| MapHandover.CallFindsAcks | src/server/netserver.cpp:891-902 | a call that finds a datagram of the next n acknowledgements does what those would do as turns of their own, and then hands over |
| MapHandover.HeardThen | src/server/netserver.cpp:1144-1182 | behind acknowledgements PKT_VERIFY, PKT_PLAY and PKT_SHAPE are ignored with all that follows, and any other packet ends the connection |
| MapHandover.CallAppends | src/server/netserver.cpp:903-930 | a call with n bytes of the map left and len bytes buffered appends exactly Min(n, Max(0, 4096 - len)) of them, and the last of them begins the draining |
| MapHandover.RestArrives | src/server/netserver.cpp:862-933 | from every state of the setup the client can get all the rest, within fps + 2 loops for each packet that fills |
| MapHandover.MapArrives | src/server/netserver.cpp:862-933 | and from its beginning the header and the whole map |
| Connections.DatagramReadsBack | src/server/netserver.cpp:2046-2075 | a datagram's reliable part, read behind the frame, gives back offset, time and data |
| Sockbufs.Sockbuf.Advance | src/common/net.cpp:82-137 | what stays in the buffer is the old contents without their first n bytes, for every n |
| Sockbufs.Sockbuf.Write | src/common/net.cpp:265-293 | all of the bytes are appended or none |
| Sockbufs.Sockbuf.Flush | src/common/net.cpp:139-263 | the contents become one datagram or are dropped, and the buffer is empty afterwards, unless the socket is broken, when it stays as it is |
| Sockbufs.Sockbuf.Read | src/common/net.cpp:295-404 | what was not scanned yet stays, and behind it comes the datagram, cut to the room there is |
| PacketCodec.Printf | src/common/net.cpp:425-619 | the cursor loop appends what the format asks for, or leaves the buffer as it was; a packet that can be read back comes whole exactly when the room, 8 bytes less outside the last packet of a frame, allows it, and the buffer is never filled above size - 8 by another packet |
| PacketCodec.Scanf | src/common/net.cpp:621-880 | the cursor loop reads what the format asks for, or leaves the read cursor where it was |
| PacketCodec.DecodeEncode | src/common/net.cpp:425-880 | every integer in the range of its conversion is read back from its bytes |
| PacketCodec.ReadBackInRange | src/common/net.cpp:425-880 | an integer is read back if and only if it is in the range of its conversion |
| PacketCodec.BytesOf | src/common/net.cpp:464-540 | the one, two or four bytes of each conversion, most significant first |
| PacketCodec.ShortStringReadsBack | src/common/net.cpp:551-838 | a string of fewer than 80 bytes, or 256 for %S, is read back |
| PacketCodec.LongStringOverflows | src/common/net.cpp:551-838 | what is printed of a longer one is its first 80 or 256 bytes without a terminator, and the scanner refuses it |
| PacketCodec.ScanUndoesPrint | src/common/net.cpp:621-880 | scanning undoes printing, whatever stands before and behind in the buffer |
| PacketCodec.PrintsWhole | src/common/net.cpp:425-619 | a packet is printed in full if and only if it is shorter than the room, or fills it and ends in a string |
| PacketCodec.PrintNeverTooLong | src/common/net.cpp:425-619 | what is printed never exceeds the room |
| PacketCodec.RoundTrip | src/common/net.cpp:425-880 | any sequence of packets printed one after the other reads back, value for value, and uses up the data |
| MersenneTwister.TwistIsStandard | src/common/randommt.cpp:131-152 | the source's twist, which looks at a different bit, equals that of section [rand.eng.mers] of ISO/IEC 14882 |
| MersenneTwister.TemperIsStandard | src/common/randommt.cpp:147-166 | and its tempering is that of the same section |
| MersenneTwister.SeededIsOdd | src/common/randommt.cpp:116-128 | every seed is made odd, and so are all words of its initial block |
| MersenneTwister.FirstWords | src/common/randommt.cpp:116-128 | the first words of the seed taken when none is given, and seeds that differ in bit 0 alone give the same block |
| MersenneTwister.Generator.Reload | src/common/randommt.cpp:131-152 | rewriting the block in place with three pointers gives the next block of the plain recurrence, for every block size N and offset M |
| MersenneTwister.Generator.Random | src/common/randommt.cpp:154-166 | the k-th number drawn is the tempered k-th word of the plain recurrence behind the initial block |
| MersenneTwister.Draw | src/common/randommt.cpp:76-166 | for every seed and any count, the numbers drawn are the tempered words in order, across all block boundaries |
| RunLength.CompressMap | src/server/netserver.cpp:189-218 | the in-place coder leaves the run-length code of what was there and never overwrites a byte it has yet to read |
| RunLength.UnpackUndoes | src/server/netserver.cpp:189-218 | the obvious decoder undoes the code for all bytes below 128 |
| RunLength.NeverGrows | src/server/netserver.cpp:189-218 | the code is never longer than the data and its run lengths are in 2..255 |
| RunLength.RunsAreMaximal | src/server/netserver.cpp:189-218 | no run is cut short: two neighbouring units carry the same byte only if the first counts 255 |
| RunLength.PackAndUnpack | src/server/netserver.cpp:189-218 | packing in place and unpacking gives the data back |
| MapSetup.World.Parse | src/server/map.cpp:399-515 | the second pass numbers bases and treasures column by column and files each under its place |
| MapSetup.BeforeCounts | src/server/map.cpp:399-515 | the number of a base or treasure is the number of places of its kind before it |
| MapSetup.World.SetDirections | src/server/map.cpp:570-648 | every base gets the direction of the attractor next to it that the source's order of tests prefers |
| MapSetup.Chart.DirIsFirst | src/server/map.cpp:570-648 | that direction leads to an attractor whenever one is next to the base, the first of up, down, right and left, and is up otherwise |
| MapSetup.Chart.AttractsIsTag | src/server/map.cpp:570-648 | an attractor is next to a base when the tag one step off, around the edge of a map that wraps, is that of an attractor |
| MapSetup.Chart.TagCodes | src/server/netserver.cpp:239-307 | the byte for each tag of a map file, by the numbers of src/common/setup.h |
| MapSetup.World.InitSetup | src/server/netserver.cpp:239-307 | the byte for each place tells that very place, although bases and treasures are found by running numbers only |
| MapSetup.CodesArePlain | src/server/netserver.cpp:239-307 | all those bytes are below 128 |
| MapSetup.MapForClient | src/server/netserver.cpp:226-359 | what a client unpacks has one byte for each of the w times h places, and the one at x times h plus y is the code the place (x, y) asks for, for every map |
| ShipOutline.SegmentIsChain | src/common/shipshape.cpp:1066-1115 | the cells of a segment, with truncating division in all sign cases, are a chain from one end to the other, each touching the next, inside the box of the two ends |
| ShipOutline.LoopIsClosed | src/common/shipshape.cpp:1066-1115 | the segments in turn make one connected chain through all points back to the first |
| ShipOutline.OutlineIsLoop | src/common/shipshape.cpp:1066-1115 | the cells drawn are exactly the cells of that chain, also with repeated points |
| ShipOutline.DrawOutline | src/common/shipshape.cpp:1066-1115 | the drawing loops blacken exactly those cells |
| ShipFill.Grid.Fill | src/common/shipshape.cpp:1117-1142 | the work queue ends with 2 on exactly the blank cells that a path of blank cells joins to the border, 1 on the outline and 0 inside, having queued no cell twice and never more than 31 x 31 |
| ShipOutline.MarkOutside | src/common/shipshape.cpp:1064-1142 | both together: inside and outside of the closed outline through any points within +-15 |
| SweptCircle.OccuredExactly | src/server/collision.cpp:138-160 | without wrapping, a hit is reported if and only if the objects come closer than r at some time of the frame, but for objects that start closer and only move apart |
| SweptCircle.NeverMissedFromOutside | src/server/collision.cpp:138-160 | objects that start at least r apart are judged exactly |
| SweptCircle.StartIsMissed | src/server/collision.cpp:145-149 | the missed case exists |
| CollisionCells.Cells.Init | src/server/collision.cpp:229-263 | exactly the unexpired objects are on the chain of their block |
| CollisionCells.Cells.Insert | src/server/collision.cpp:247-261 | one object joins the end of its block's chain; all links stay mutual |
| CollisionCells.Cells.ObjectsGet | src/server/collision.cpp:312-412 | the objects collected are exactly those within the radius searched, which is r cut to either side of the map, each once, the shorter way round on a map that wraps, and they never overflow the list |
| CollisionCells.Cells.RadiusFits | src/server/collision.cpp:318-341 | the radius searched is the greatest up to r that is at most either side, or half of it on a map that wraps, so it is r if and only if r is |
| CollisionCells.Cells.ExactIsOnce | src/server/collision.cpp:318-400 | on a map that wraps no column or row is searched twice if and only if twice the radius is less than either side |
| CollisionCells.Cells.RadiusIsEnough | src/server/collision.cpp:318-341 | the blocks searched are exactly those within r if and only if on both axes the cut radius reaches as far as r or the farthest place |
| CollisionCells.Clip | src/server/collision.cpp:320-368 | the columns from first to last, folded over the edge, are exactly those within distance r |
| CollisionCells.Cells.Cleanup | src/server/collision.cpp:265-291 | all cells and all links are NULL again |
| CollisionCells.Cells.Frame | src/server/collision.cpp:229-412 | filling, asking and cleaning up: the answer equals a scan of all objects for the radius searched, and the next frame starts clean |
| ObjectPool.Pool.Add | src/server/object.cpp:195-203 | the next free slot, or NULL when all are taken |
| ObjectPool.Pool.Remove | src/server/object.cpp:122-193 | swap removal keeps the array a permutation in which each object knows its place, and does to players and treasures what the type asks for |
| ObjectPool.RemovedSound | src/server/object.cpp:122-193 | after any removal shots are still counted exactly, HAS_BALL still tells who holds a ball, and only a ball on its way out may still be pointed at |
| ObjectPool.RemovedForgotten | src/server/object.cpp:122-193 | nobody is connecting to a ball that was removed, if and only if it was loose or nobody but its owner was connecting to it |
| PoolRuns.StrandedString | src/server/object.cpp:122-193 | the operations of the pool get there: two players connect to a ball, one catches it, it is removed, and the other is still connecting |
| ObjectPool.Pool.Expunge | src/server/object.cpp:104-117 | a ball that is removed comes back, in the same slot, in the box of its treasure |
| ObjectPool.Pool.RemoveTimedOut | src/server/object.cpp:66-119 | although objects move while the loop runs, every object has its turn exactly once: one that is no ball is gone exactly if its life was over, a ball whose life was over lies in its box, all others are one turn older, sparks and debris only on a tick |
| PoolRuns.LivesAsLong | src/server/object.cpp:66-119 | what is no ball lives for as many sweeps as its life says, sparks and debris for as many ticks |
| PoolRuns.ShotLives | src/server/object.cpp:66-119 | a shot of life L is there after n sweeps exactly when n < L |
| ObjectPool.StepSweeps | src/server/object.cpp:66-119 | one turn takes the state from "these objects have had their turn" to "these and one more" |
| ObjectPool.SteppedSound | src/server/object.cpp:66-119 | every turn leaves exactly one ball for each treasure, shots counted and HAS_BALL true |
| ObjectPool.Pool.BallTreasureAdd | src/server/shot.cpp:91-129 | a treasure without a ball gets a fresh one in its box, unless all slots are taken |
| ObjectPool.BallAddedSound | src/server/shot.cpp:91-129 | that repairs whatever pointed at the slot |
| ObjectPool.Pool.BallDetach | src/server/shot.cpp:353-388 | the given ball of a player, or all, are freed; HAS_BALL goes exactly when none is left; the string goes if it led to that ball |
| ObjectPool.DetachedSound | src/server/shot.cpp:353-388 | detaching keeps all counts and links |
| ObjectPool.Pool.ShotAdd | src/server/shot.cpp:131-194 | a shot is fired exactly when the rate, the maximum, the shield and the free slots allow it, and is then counted |
| ObjectPool.ShotAddedSound | src/server/shot.cpp:131-194 | a player's count equals the live shots it owns |
| ObjectPool.Pool.ScrapAdd | src/server/ship.cpp:345-375 | sparks, debris and wreckage change nothing else |
| ObjectPool.Pool.AttachBall | src/server/collision.cpp:518-626 | the ball is caught exactly when the string is long enough; otherwise the string is cut, kept, or led to the first of the nearest balls within reach that may be caught |
| ObjectPool.CaughtSound | src/server/collision.cpp:543-574 | catching a ball empties its box, makes the player hold it and keeps all else |
| ObjectPool.Pool.Search | src/server/collision.cpp:576-622 | the search finds the first of the nearest balls that may be caught, if there is one |
| ObjectPool.Pool.TimeOut | src/server/object.cpp:208-216 | all lives end and nothing else changes |
| ObjectPool.Pool.PlayerLeaves | src/server/player.cpp:514-581 | attached balls and, unless they are kept, shots are to go; nothing is owned by the player any more; the last player takes its place |
| PoolRuns.LeaverSwept | src/server/player.cpp:514-581 | in the sweep after a player has left, the ball it held returns to its box, its shots are gone unless they are kept, and everything else grows older as ever |
| ObjectPool.LeftSound | src/server/player.cpp:514-541 | the others' shots and balls are counted as before |
| ObjectPool.GoHomeSound | src/server/player.cpp:119-156 | clearing what a player has keeps HAS_BALL right if and only if no ball is on its string |
| ObjectPool.Pool.TreasureJoins | src/server/map.cpp:445-460 | a treasure of the map, its box empty, joins and keeps the invariant |
| ObjectPool.Pool.Connects | src/server/event.cpp:280-283 | pressing the connector key changes that and keeps the invariant |
| PoolRuns.RunSound | src/server/object.cpp:66-203 | over any run of treasures, players, shots, scrap, catching, dropping, expiring and sweeping, shots are counted, HAS_BALL is right, strings lead to balls and each treasure has one ball, in every state, if and only if nobody goes home with a ball on a string |
| PoolRuns.RunBalls | src/server/object.cpp:66-119 | once a box was filled, there is exactly one live ball of that treasure after any such run |
| PoolRuns.GamesAreSound | src/server/server.cpp:173-182 | what that means for every game from the empty pool: HAS_BALL if and only if some ball is held, shots counted, one ball for each treasure |
| PoolRuns.RunFair | src/server/collision.cpp:529-622 | no string leads to a ball of the own team in its box in any state of a run, if and only if no sweep recreates a held ball while another player of the ball's team connects to it |
| PoolRuns.FairCatches | src/server/collision.cpp:543-574 | then every catch is one the search would have allowed |
| PoolRuns.StrandedTakes | src/server/collision.cpp:543-574 | otherwise the stranded player can take the ball of its own team out of its box |
| PoolRuns.TakesOwn | src/server/collision.cpp:529-622 | the operations of the pool get there from an empty pool |
| PlayerTable.Table.PickFreeBase | src/server/team.cpp:396-464 | NULL if and only if the team has no unowned base; otherwise the free base of that number in the order of the map |
| PlayerTable.RoomMeansBase | src/server/team.cpp:396-464 | a team with fewer members than bases has an unowned base |
| PlayerTable.Table.RoomMeansFree | src/server/command.cpp:499-499 | so a command that compares the two counts first never fails to find one |
| PlayerTable.Table.Enlist | src/server/player.cpp:174-223 | the next slot gets an id nobody has, and the index finds it; when all ids are in use it is listed under 0 |
| PlayerTable.Table.Unlist | src/server/player.cpp:574-581 | swap removal keeps the index the inverse of the table |
| PlayerTable.Table.Join | src/server/netserver.cpp:984-1096 | a new player is listed with a new id, on its team, with an unowned base of that team; a robot for which there is no id or no base leaves no trace; a human is then left listed under id 0 or without a base |
| PlayerTable.JoinedSound | src/server/player.cpp:373-382 | joining keeps bases and ids distinct, every base of its owner's team, everybody but pausers with a base, and members counted exactly |
| PlayerTable.Table.Remove | src/server/player.cpp:485-622 | the player, its id and its counts are gone and nothing else changes |
| PlayerTable.GoneSound | src/server/player.cpp:384-393 | leaving keeps all of that |
| PlayerTable.Table.SwapTeam | src/server/player.cpp:844-918 | a pauser gives up its base; anyone else moves to an unowned base of the new team or, if and only if there is none, leaves the game |
| PlayerTable.MovedSound | src/server/player.cpp:844-918 | moving keeps all of that |
| PlayerTable.Table.Exchange | src/server/player.cpp:928-951 | teams and bases change hands |
| PlayerTable.ExchangedSound | src/server/player.cpp:928-951 | an exchange keeps bases distinct and of the right team, and members counted |
| PlayerTable.ExchangedDrift | src/server/player.cpp:928-951 | by how much an exchange puts the count of robots of each team off |
| PlayerTable.ExchangeKeepsRobots | src/server/player.cpp:928-951 | exact counts of robots stay exact if and only if both or neither are robots, or both are on one team |
| PlayerTable.ExchangeMiscounts | src/server/player.cpp:928-951 | a robot and a human of two teams, each with its base: both counts are off by one |
| PlayerTable.Miscount | src/server/player.cpp:928-951 | the operations get there from the empty table: a robot joins one team, a human the other, and they change places |
| PlayerTable.RunDrift | src/server/player.cpp:373-951 | any run of joining, leaving, moving, exchanging and changing home keeps ids and bases apart, everybody but pausers with a base and members counted, and the count of robots of a team is off by what its exchanges took and by nothing else |
| PlayerTable.RunExact | src/server/player.cpp:373-951 | the counts of robots are exact in every state of a run if and only if no robot ever changes places with a human of another team |
| PlayerTable.JoinedDrift | src/server/player.cpp:373-382 | joining keeps each team's count of robots as far from exact as it was |
| PlayerTable.GoneDrift | src/server/player.cpp:384-393 | so does leaving |
| PlayerTable.MovedDrift | src/server/player.cpp:908-909 | so does moving |
| PlayerTable.Table.ChangeHome | src/server/player.cpp:1407-1442 | nothing, or the base is taken and its owner, if any, gets the old base |
| PlayerTable.RehomedSound | src/server/player.cpp:1407-1442 | changing home keeps bases distinct and of the right team |
| PlayerTable.RehomedDrift | src/server/player.cpp:1407-1442 | and no count |
| IdAllocator.Ids.Request | src/server/id.cpp:80-92 | the id that has been free the longest, or 0 if and only if all are in use |
| IdAllocator.Ids.Release | src/server/id.cpp:94-106 | an id in use is free again; releasing any other is refused |
| IdAllocator.Ids.Peek | src/server/id.cpp:63-78 | the same id without taking it |
| IdAllocator.SlotSurvivesWrap | src/server/id.cpp:63-106 | the ring position survives the wrap of the 32-bit counters |
| IdAllocator.HeldOnce | src/server/id.cpp:80-106 | over any run an id is in use exactly when it was issued once more often than it was returned, and no id is ever issued while in use |
| IdAllocator.ReissuedInOrder | src/server/id.cpp:80-106 | over any run ids are issued in the order in which they became free |
| IdAllocator.Serve | src/server/id.cpp:80-106 | the allocator does in any run what those two say, and stops at the first return of an id that is not in use |
| OptionDatabase.HashString | src/server/option.cpp:105-129 | the loops compute the hash value of the name in upper case |
| OptionDatabase.ReducedIs | src/server/option.cpp:122-125 | the inner loop keeps the remainder by 316, and only 0 gives 0 |
| OptionDatabase.HashOfAbc | src/server/option.cpp:105-129 | the chain of one name worked out from the source's loops |
| OptionDatabase.SameHash | src/server/option.cpp:105-129 | names that differ only in case are looked for on the same chain |
| OptionDatabase.Database.Lookup | src/server/option.cpp:264-278 | the chains implement a finite map from names, regardless of case, to nodes |
| OptionDatabase.Database.AddNode | src/server/option.cpp:242-258 | a node joins the map unless its name is known |
| OptionDatabase.Database.AddDesc | src/server/option.cpp:283-318 | both names of an option lead to one value, which holds the default |
| OptionDatabase.Database.SetValue | src/server/option.cpp:552-588 | a write reaches the value of the name and no other; an unknown name is added, unless there is no value |
| OptionDatabase.HashValue.Change | src/server/option.cpp:353-545 | a write that the description permits takes its turn, any other does nothing |
| OptionDatabase.AllowsIsRank | src/server/option.cpp:372-500 | the nested tests are a total order: INIT < DEFAULTS < MAP < MAP+override < DEFAULTS+override < PASSWORD < PASSWORD+override < COMMAND |
| OptionDatabase.RunIsWinner | src/server/option.cpp:353-545 | after any sequence of writes a value holds the highest in that order; of equals the last, but the first of those that override below the command line |
| OptionDatabase.WinnerIsOne | src/server/option.cpp:353-545 | there is only one such write |
| OptionDatabase.OrderIsNoMatter | src/server/option.cpp:353-545 | origin and rank of the outcome do not depend on the order of the writes |
| OptionDatabase.Database.HeldIsWinner | src/server/option.cpp:353-588 | so every option holds the winner of all permitted writes to it, under either name |
| OptionDatabase.Database.GetValue | src/server/option.cpp:594-608 | value and origin of the option, or nothing |
| LoginQueue.Queue.Loop | src/server/contact.cpp:753-884 | the three loops over the linked list do exactly what one pass means, and send at most one acknowledgement |
| LoginQueue.LoopedKeeps | src/server/contact.cpp:753-884 | every pass keeps clients with a port before those without, nicks distinct, at most two of a host, and serves only a client that came after all served before |
| LoginQueue.PortIsGiven | src/server/contact.cpp:795-857 | a pass gives a port exactly when no client with a port ends it, somebody waits and the first of those was heard of, the last was let in long enough ago, there is room, his or another team takes him and a connection can be set up; it is he who gets it, with that team |
| LoginQueue.TellsAgain | src/server/contact.cpp:764-793 | the first client with a port that was not told for a while, is connected and was heard of is told again, those before it that are silent or gone leave, and the pass ends |
| LoginQueue.EndsEarly | src/server/contact.cpp:795-860 | when nobody waits that is all; and if the first who waits is silent, or no connection can be set up for him, he leaves |
| LoginQueue.SomebodyUp | src/server/contact.cpp:862-883 | otherwise the first of those that wait who is silent leaves, or who was not told for three seconds is told his position |
| LoginQueue.NobodyUp | src/server/contact.cpp:862-883 | and if there is none nothing more happens |
| LoginQueue.PassInRun | src/server/contact.cpp:753-1054 | in every run a pass without room gives no port, and the first who waits gets one in the first pass that can let him in |
| LoginQueue.RunIsSlow | src/server/contact.cpp:803-856 | in every run ports are given more than 2 + fps / 4 loops apart |
| LoginQueue.PositionIsTrue | src/server/contact.cpp:753-884 | what a pass tells a client is true of the queue it leaves: 0 if the client has a port, otherwise its position among those that wait |
| LoginQueue.Queue.Ask | src/server/contact.cpp:886-994 | the search over the list refreshes, refuses or appends exactly as the whole queue demands, although it stops at the second client of a host |
| LoginQueue.RepeatIsRefreshed | src/server/contact.cpp:915-934 | a queued client that repeats its request is always refreshed |
| LoginQueue.AskedIs | src/server/contact.cpp:886-994 | what becomes of any request, told of the clients in the queue: who is refreshed with which fields, who is refused and why, and what a new one joins with |
| LoginQueue.HostNotInTheWay | src/server/contact.cpp:936-943 | before its own entry at most one other of its host stands |
| LoginQueue.AskedKeeps | src/server/contact.cpp:886-994 | every request keeps the queue sound, at most MaxQueuedPlayers long, and in order |
| LoginQueue.Queue.AdvancePlayer | src/server/contact.cpp:999-1054 | the relinking moves the named client behind the last one before it that has a port |
| LoginQueue.AdvancedKeeps | src/server/contact.cpp:999-1054 | an operator only permutes the queue and keeps it sound |
| LoginQueue.Queue.Remove | src/server/contact.cpp:720-732 | one node is unlinked and the count follows |
| LoginQueue.RunKeeps | src/server/contact.cpp:753-1054 | in every run of requests, passes and commands the queue is sound, and without commands ports are given in the order of arrival |

## Left out

- Sockets, select, signals, timers, DNS, files, XML, messages to players and the ranking page: sending and receiving
  are steps of the network, random numbers and clocks are parameters.
- The client program: only what the comment in `src/server/netserver.cpp` promises of it.
- `src/common/socklib.cpp`, `src/server/sched.cpp`, `src/server/metaserver.cpp` and `src/server/rank.cpp`: plumbing and reports.
- Motion, thrust, springs and robot steering: floating point without an exact specification.
- 32-bit overflow of stream offsets and loop counters: numbers are unbounded there. In `src/server/id.cpp`, where
  wrapping is part of the claim, the counters wrap.
- Sockbufs.Sockbuf.Flush: interrupted and repeated attempts are one outcome, a datagram is sent whole or not at all, and stream sockets do not occur, because every buffer the server makes is locked or bound to a datagram socket.
- Connection timeouts and the counters of busy connections in `Conn_set_state`: they do not touch the stream.
- Connections.Connection.HandleInput: the tables for draining and setup only; of the packets of clients that log in or play only acknowledgements are modelled.
- PacketCodec.Printf: formats are sequences of conversions rather than text, and strings that are too long, which the source cuts without a terminator, are printed cut, and the scanner refuses them (`PacketCodec.LongStringOverflows`).
- MapSetup.World.Parse: the first, counting pass of `Map_parse` and gravity are not modelled, the team closest to a treasure is a parameter, and a treasure without any team does not occur.
- SweptCircle.OccuredExactly: arithmetic is exact, without rounding, and the arm for maps that wrap is left out; its y part at `src/server/collision.cpp:119` repeats `mqy && !mpy` where the x part has the mirrored test, so nothing is claimed of it.
- CollisionCells.Cells.ObjectsGet: when the radius is clamped to exactly half the map a column is visited twice and objects repeat; nothing is claimed for that radius. The list of used cells is a sequence.
- Gun, light, rack and engine points of a ship shape, which the source looks up without a range check: points are assumed within +-15.
- ObjectPool.Pool.AttachBall: distances and the player's team are parameters, and a ball always has a treasure.
- ObjectPool.Pool.Connects: whether a player has a connector at all is left out.
- ObjectPool.Pool.ShotAdd: position, speed, fuse and colour of a shot are left out, as are those of balls and scrap.
- PlayerTable.Table.Join: play is in teams. A human for whom there is no id or no base is followed only to where the program goes wrong: the one keeps id 0, and for the other the error path at `src/server/netserver.cpp:1090-1096` follows a connection pointer that is not set yet. The arrays must have a slot left, which the source does not check.
- PlayerTable.Table.SwapTeam: a human without a base is removed through its connection; a human that has no connection yet does not occur. States of players, `NumPaused` (which `Game_Over` and a failing `Player_unpause` break) and the queue of swappers are left out.
- OptionDatabase.Database.SetValue: reference counts and freeing are left out; every node has a value, so the branch for a node without one does not occur; a write never has the origin INIT.
- OptionDatabase.HashString: names are shorter than 2^32 characters for the index to be exact.
- LoginQueue.Queue.Loop: what `Check_connection`, `Setup_connection`, free bases and the choice of a team answer are parameters; a login port is -1 or positive, as `Setup_connection` returns it. The tickets that number the arrivals are the model's own.
- LoginQueue.Queue.Ask: names are not cut to their buffers, memory does not run out, and the check of names is a parameter.
- The wrap arm of `Collision_occured`, `Sockbuf_copy`, `LIST_SetIterFirst`, `LIST_RemoveItemRange` and the refuelling branch of `src/server/player.cpp`: nothing relies on them.
