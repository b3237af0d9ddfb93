/** The reliable byte stream that src/server/netserver.cpp piggybacks on its datagrams, as a state
    machine: what one call of Send_reliable and of Receive_ack does to a connection, and the system
    of server, network and client those calls run in. */
module ReliableStream {
  import opened Arithmetic
  import opened Sequences
  import opened Sockbufs

  const MAX_RELIABLE_DATA_PACKET_SIZE: nat := 1024
  const MIN_SEND_SIZE: nat := 1
  const MAX_SOCKBUF_SIZE: nat := 50 * 1024

  const PKT_REPLY: byte := 2
  const PKT_PLAY: byte := 3
  const PKT_SUCCESS: byte := 102
  const PKT_FAILURE: byte := 101

  datatype ConnState = Free | Listening | Setup | Login | Playing | Drain | Ready

  /** The fields of a connection the stream uses; c is the contents of the reliable data buffer. */
  datatype Conn = Conn(
    c: seq<byte>, offset: int, unsent: int,
    retransmitAt: int, lastSend: int, acks: int,
    smoothed: int, dev: int, retransmit: int, timeouts: int,
    state: ConnState, drainState: ConnState)

  /** A destroyed connection is wiped. */
  const DEAD: Conn := Conn([], 0, 0, 0, 0, 0, 0, 0, 0, 0, Free, Free)

  /** Reliable data on its way: where it starts in the stream, when it was sent, the data. */
  datatype Packet = Packet(offset: int, loops: int, data: seq<byte>) {
    function End(): int { offset + |data| }
  }

  function MaxRetransmit(fps: int): int { fps + 1 }

  function MinRetransmit(fps: int): int { fps / 8 + 1 }

  // ---- Send_reliable

  datatype Emitted = Emitted(packets: seq<Packet>, todo: nat, acks: int, failed: bool)

  /** The sending loop from its i-th round on: `at` bytes of the buffer are behind it and todo ahead. */
  function Emit(k: Conn, at: nat, todo: nat, i: nat, now: int, net: nat -> SendOutcome): (e: Emitted)
    requires at + todo <= |k.c|
    ensures e.todo <= todo
    decreases todo
  {
    if i > k.acks || todo == 0 then Emitted([], todo, k.acks, false)
    else
      var len := Min(todo, MAX_RELIABLE_DATA_PACKET_SIZE);
      match net(i)
      case Sent =>
        var e := Emit(k, at + len, todo - len, i + 1, now, net);
        e.(packets := [Packet(k.offset + at, now, k.c[at..at + len])] + e.packets)
      case WouldBlock => Emitted([], todo, 0, false)
      case _ => Emitted([], todo, k.acks, true)
  }

  function MaxTodo(k: Conn, wlen: nat): int {
    if wlen > 0 then Min(|k.c|, MAX_RELIABLE_DATA_PACKET_SIZE - wlen) else |k.c|
  }

  /** Whether the guards let anything be sent when a frame of wlen bytes is waiting. */
  predicate GoesAhead(k: Conn, wlen: nat, now: int) {
    && |k.c| > 0 && k.lastSend != now
    && wlen < MAX_RELIABLE_DATA_PACKET_SIZE - MIN_SEND_SIZE
    && (k.retransmitAt > now ==> MaxTodo(k, wlen) > k.unsent - k.offset + MIN_SEND_SIZE && wlen != 0)
  }

  /** A timeout halves the burst. */
  function OnTimeout(k: Conn, now: int): Conn {
    if k.retransmitAt <= now && k.retransmitAt != 0 then k.(acks := k.acks / 2) else k
  }

  /** Retransmission timer with exponential backoff. */
  function Arm(k: Conn, now: int, fps: int): Conn {
    var timeout := Min(k.retransmit, MaxRetransmit(fps));
    if k.retransmitAt <= now then
      k.(retransmitAt := now + timeout, retransmit := timeout * 2, timeouts := k.timeouts + 1)
    else
      k.(retransmitAt := now + timeout, retransmit := timeout)
  }

  datatype SendResult = SendResult(k: Conn, ret: int, packets: seq<Packet>, flushed: bool)

  function Send(k: Conn, wlen: nat, now: int, fps: int, net: nat -> SendOutcome): SendResult {
    if |k.c| == 0 || k.lastSend == now then SendResult(k.(lastSend := now), 0, [], false)
    else if !GoesAhead(k, wlen, now) then SendResult(k, 0, [], false)
    else
      var maxTodo := MaxTodo(k, wlen);
      var e := Emit(OnTimeout(k, now), 0, maxTodo, 0, now, net);
      var sent := maxTodo - e.todo;
      if e.failed then SendResult(DEAD, -1, e.packets, true)
      else
        var k' := k.(acks := e.acks, lastSend := now);
        if sent <= 0 then SendResult(k', 0, e.packets, true)
        else SendResult(Arm(k', now, fps).(unsent := Max(k.unsent, k.offset + sent)), sent, e.packets, true)
  }

  // ---- Receive_ack

  /** Round trip estimation; the smoothed time is scaled by eight and the deviation by four. */
  function Estimate(k: Conn, rtt: int, fps: int): Conn {
    if 0 < rtt <= fps + 1 then
      var s := if k.smoothed == 0 then rtt * 8 else k.smoothed;
      var delta := rtt - s / 8;
      var smoothed := s + delta;
      var dev := k.dev + (if delta < 0 then -delta else delta) - k.dev / 4;
      k.(smoothed := smoothed, dev := dev,
         retransmit := Max((smoothed / 4 + dev) / 2, MinRetransmit(fps)))
    else k
  }

  function LeaveDrain(k: Conn): Conn {
    k.(state := k.drainState)
  }

  function AwaitsReply(k: Conn): bool {
    |k.c| > 0 && (k.c[0] == PKT_REPLY || k.c[0] == PKT_PLAY || k.c[0] == PKT_SUCCESS || k.c[0] == PKT_FAILURE)
  }

  /** Acknowledged bytes leave the buffer, and a good acknowledgement lets the burst grow. */
  function Cut(k: Conn, diff: nat): Conn
    requires diff <= |k.c|
  {
    var n := (diff + 511) / 512;
    k.(c := k.c[diff..], offset := k.offset + diff, acks := if n > k.acks then n else k.acks + 1)
  }

  /** What is still waited for once bytes are acknowledged. */
  function Settle(k: Conn): Conn {
    var k1 := if k.offset < k.unsent then k
              else if k.state == Drain then LeaveDrain(k.(retransmitAt := 0))
              else k.(retransmitAt := 0);
    var k2 := if k1.state == Ready && !AwaitsReply(k1) then LeaveDrain(k1) else k1;
    k2.(timeouts := 0)
  }

  datatype AckResult = AckResult(k: Conn, ret: int)

  function ReceiveAck(k: Conn, rel: int, relLoops: int, now: int, fps: int): AckResult {
    var k' := Estimate(k, now - relLoops, fps);
    var diff := rel - k'.offset;
    if diff > |k'.c| then AckResult(DEAD, -1)
    else if diff <= 0 then AckResult(k', 1)
    else AckResult(Settle(Cut(k', diff)), 1)
  }

  // ---- the system: server, network, client

  datatype Ack = Ack(rel: int, loops: int)

  /** The network keeps every packet ever sent: delivering one never is loss, delivering one twice is
      repetition, and any order is possible.  The acknowledgements in flight are a queue, oldest
      first, from which one may be lost or repeated, and one that is taken from behind the front has
      overtaken the others.  `stream` is every byte ever appended to the reliable data buffer, `got`
      every byte the client has accepted. */
  datatype System = System(k: Conn, stream: seq<byte>, got: seq<byte>, packets: set<Packet>, acks: seq<Ack>, now: int)

  datatype Step =
    | Tick
    | Append(bytes: seq<byte>)
    | Transmit(wlen: nat, net: nat -> SendOutcome)
    | Deliver(p: Packet, echo: int)
    | TakeAck(i: nat)
    | LoseAck(i: nat)
    | RepeatAck(i: nat)
    | Enter(state: ConnState, drainState: ConnState)
    | Destroy

  function Without<T>(xs: seq<T>, i: nat): seq<T>
    requires i < |xs|
  {
    xs[..i] + xs[i + 1..]
  }

  /** The client takes the part it has not had, if nothing is missing in between. */
  function Accept(got: seq<byte>, p: Packet): seq<byte> {
    if p.offset <= |got| < p.End() then got + p.data[|got| - p.offset..] else got
  }

  predicate Enabled(s: System, step: Step) {
    match step
    case Tick => true
    case Append(bytes) => s.k.state != Free && |s.k.c| + |bytes| <= MAX_SOCKBUF_SIZE
    case Deliver(p, _) => p in s.packets
    case TakeAck(i) => s.k.state != Free && i < |s.acks|
    case LoseAck(i) => i < |s.acks|
    case RepeatAck(i) => i < |s.acks|
    case Enter(state, drainState) => s.k.state != Free && state != Free && drainState != Free
    case _ => s.k.state != Free
  }

  function Next(s: System, step: Step, fps: int): System
    requires Enabled(s, step)
  {
    match step
    case Tick => s.(now := s.now + 1)
    case Append(bytes) => s.(k := s.k.(c := s.k.c + bytes), stream := s.stream + bytes)
    case Transmit(wlen, net) =>
      var r := Send(s.k, wlen, s.now, fps, net);
      s.(k := r.k, packets := s.packets + Elements(r.packets))
    case Deliver(p, echo) =>
      var got := Accept(s.got, p);
      s.(got := got, acks := s.acks + [Ack(|got|, echo)])
    case TakeAck(i) =>
      var a := s.acks[i];
      s.(k := ReceiveAck(s.k, a.rel, a.loops, s.now, fps).k, acks := Without(s.acks, i))
    case LoseAck(i) => s.(acks := Without(s.acks, i))
    case RepeatAck(i) => s.(acks := s.acks + [s.acks[i]])
    case Enter(state, drainState) => s.(k := s.k.(state := state, drainState := drainState))
    case Destroy => s.(k := DEAD)
  }

  /** A connection as Setup_connection leaves it. */
  function Start(now: nat, fps: int): System {
    System(Conn([], 0, 0, 0, 0, 0, 0, 0, fps / 2, 0, Listening, Free), [], [], {}, [], now)
  }

  ghost predicate IsRun(run: seq<System>, fps: int) {
    && |run| > 0
    && (exists now: nat :: run[0] == Start(now, fps))
    && forall i :: 0 <= i < |run| - 1 ==> Follows(run[i], run[i + 1], fps)
  }

  ghost predicate Follows(s: System, s': System, fps: int) {
    exists step :: Enabled(s, step) && s' == Next(s, step, fps)
  }

  // ---- what every step keeps

  ghost predicate Carries(stream: seq<byte>, p: Packet) {
    && 0 <= p.offset && 0 < |p.data| <= MAX_RELIABLE_DATA_PACKET_SIZE
    && p.End() <= |stream|
    && p.data == stream[p.offset..p.End()]
  }

  /** Holds in every state, also after the connection is gone. */
  ghost predicate Safe(s: System) {
    && s.got <= s.stream
    && (forall p <- s.packets :: Carries(s.stream, p))
    && (forall a <- s.acks :: 0 <= a.rel <= |s.got|)
  }

  /** Ties the two ends together as long as the connection lives. */
  ghost predicate Linked(s: System) {
    && 0 <= s.k.offset <= |s.got| <= s.k.unsent <= |s.stream|
    && s.k.c == s.stream[s.k.offset..] && |s.k.c| <= MAX_SOCKBUF_SIZE
    && (forall p <- s.packets :: p.End() <= s.k.unsent)
  }

  /** The estimator and the timer stay within their bounds. */
  ghost predicate Timed(k: Conn, now: int, fps: int) {
    var m := MaxRetransmit(fps);
    && (k.smoothed == 0 || 8 <= k.smoothed <= 8 * m + 7)
    && 0 <= k.dev <= 4 * m - 1
    && 1 <= k.retransmit <= 3 * m
    && k.retransmitAt <= now + m
    && 0 <= k.lastSend <= now
    && k.acks >= 0
  }

  /** A connection that waits for its data to be acknowledged has a state to go to. */
  ghost predicate HasWayOn(k: Conn) {
    k.state in {Drain, Ready} ==> k.drainState != Free
  }

  ghost predicate Inv(s: System, fps: int) {
    && Safe(s)
    && if s.k.state == Free then s.k == DEAD else Linked(s) && Timed(s.k, s.now, fps) && HasWayOn(s.k)
  }

  /** What the sending loop puts on the wire: consecutive pieces of the buffer. */
  lemma {:induction false} EmitCarries(k: Conn, at: nat, todo: nat, i: nat, now: int, net: nat -> SendOutcome,
                                       stream: seq<byte>)
    requires at + todo <= |k.c| && 0 <= k.offset <= |stream| && k.c == stream[k.offset..]
    ensures var e := Emit(k, at, todo, i, now, net);
            && (forall p <- e.packets :: Carries(stream, p) && p.End() <= k.offset + at + todo - e.todo)
            && (e.acks == k.acks || e.acks == 0)
    decreases todo
  {
    hide Carries;
    if i <= k.acks && todo > 0 && net(i) == Sent {
      var len := Min(todo, MAX_RELIABLE_DATA_PACKET_SIZE);
      EmitCarries(k, at + len, todo - len, i + 1, now, net, stream);
      PieceCarries(k, at, len, now, stream);
    }
  }

  lemma PieceCarries(k: Conn, at: nat, len: nat, now: int, stream: seq<byte>)
    requires at + len <= |k.c| && 0 < len <= MAX_RELIABLE_DATA_PACKET_SIZE
    requires 0 <= k.offset <= |stream| && k.c == stream[k.offset..]
    ensures var p := Packet(k.offset + at, now, k.c[at..at + len]); Carries(stream, p) && p.End() == k.offset + at + len
  {
    SliceOfTail(stream, k.offset, at, at + len);
  }

  lemma SliceOfTail(xs: seq<byte>, a: nat, b: nat, c: nat)
    requires b <= c && a + c <= |xs|
    ensures xs[a..][b..c] == xs[a + b..a + c]
  {
  }

  lemma SendKeeps(s: System, wlen: nat, net: nat -> SendOutcome, fps: int)
    requires Inv(s, fps) && s.k.state != Free && fps >= 2
    ensures Inv(Next(s, Transmit(wlen, net), fps), fps)
  {
    if GoesAhead(s.k, wlen, s.now) {
      EmitCarries(OnTimeout(s.k, s.now), 0, MaxTodo(s.k, wlen), 0, s.now, net, s.stream);
    }
  }

  lemma EstimateKeeps(k: Conn, rtt: int, now: int, fps: int)
    requires Timed(k, now, fps) && fps >= 2
    ensures var k' := Estimate(k, rtt, fps);
            && Timed(k', now, fps)
            && k' == k.(smoothed := k'.smoothed, dev := k'.dev, retransmit := k'.retransmit)
            && (0 < rtt <= fps + 1 ==> MinRetransmit(fps) <= k'.retransmit <= 3 * MaxRetransmit(fps))
  {
  }

  lemma AdvanceKeeps(k: Conn, diff: nat, s: System, now: int, fps: int)
    requires 0 < diff <= |k.c| && Linked(s.(k := k)) && Timed(k, now, fps) && k.offset + diff <= |s.got|
    requires HasWayOn(k) && k.state != Free
    ensures var k' := Settle(Cut(k, diff));
            Linked(s.(k := k')) && Timed(k', now, fps) && HasWayOn(k') && k'.state != Free
  {
    assert k.c[diff..] == s.stream[k.offset + diff..];
  }

  lemma TakeAckKeeps(s: System, i: nat, fps: int)
    requires Inv(s, fps) && Enabled(s, TakeAck(i)) && fps >= 2
    ensures Inv(Next(s, TakeAck(i), fps), fps)
  {
    hide Estimate, Cut, Settle, Timed;
    var a := s.acks[i];
    assert a in s.acks;
    var k := Estimate(s.k, s.now - a.loops, fps);
    EstimateKeeps(s.k, s.now - a.loops, s.now, fps);
    assert Linked(s.(k := k));
    if 0 < a.rel - k.offset {
      AdvanceKeeps(k, a.rel - k.offset, s, s.now, fps);
    }
  }

  lemma DeliverKeeps(s: System, p: Packet, echo: int, fps: int)
    requires Inv(s, fps) && p in s.packets
    ensures Inv(Next(s, Deliver(p, echo), fps), fps)
  {
    assert Carries(s.stream, p);
    if p.offset <= |s.got| < p.End() {
      assert Accept(s.got, p) == s.stream[..p.End()];
    }
  }

  lemma AppendKeeps(s: System, bytes: seq<byte>, fps: int)
    requires Inv(s, fps) && Enabled(s, Append(bytes))
    ensures Inv(Next(s, Append(bytes), fps), fps)
  {
    var stream := s.stream + bytes;
    assert s.k.c + bytes == stream[s.k.offset..];
    forall p | p in s.packets
      ensures Carries(stream, p)
    {
      assert Carries(s.stream, p);
      assert stream[p.offset..p.End()] == s.stream[p.offset..p.End()];
    }
  }

  lemma StepKeeps(s: System, step: Step, fps: int)
    requires fps >= 2 && Inv(s, fps) && Enabled(s, step)
    ensures Inv(Next(s, step, fps), fps)
  {
    match step
    case Tick =>
    case Append(bytes) => AppendKeeps(s, bytes, fps);
    case Transmit(wlen, net) => SendKeeps(s, wlen, net, fps);
    case Deliver(p, echo) => DeliverKeeps(s, p, echo, fps);
    case TakeAck(i) => TakeAckKeeps(s, i, fps);
    case LoseAck(_) =>
    case RepeatAck(_) =>
    case Enter(_, _) =>
    case Destroy =>
  }

  /** Every state of every run: the client holds a prefix of the stream, every packet ever sent
      carries the piece of the stream it is labelled with, and as long as the connection lives
      acknowledged <= held by the client <= sent <= appended, the buffer being what is not yet
      acknowledged. */
  lemma {:induction false} RunKeeps(run: seq<System>, fps: int, i: nat)
    requires fps >= 2 && IsRun(run, fps) && i < |run|
    ensures Inv(run[i], fps)
  {
    hide Inv, Next, Enabled;
    if i == 0 {
      StartHolds(run[0], fps);
    } else {
      RunKeeps(run, fps, i - 1);
      assert Follows(run[i - 1], run[i - 1 + 1], fps);
      var step :| Enabled(run[i - 1], step) && run[i] == Next(run[i - 1], step, fps);
      StepKeeps(run[i - 1], step, fps);
    }
  }

  lemma StartHolds(s: System, fps: int)
    requires fps >= 2 && exists now: nat :: s == Start(now, fps)
    ensures Inv(s, fps)
  {
  }

  // ---- an honest client

  /** The "bad ack" branch is never taken: an acknowledgement destroys no connection. */
  lemma NeverBadAck(s: System, a: Ack, fps: int)
    requires Inv(s, fps) && s.k.state != Free && a in s.acks
    ensures var r := ReceiveAck(s.k, a.rel, a.loops, s.now, fps); r.ret == 1 && r.k.state != Free
  {
    hide Timed;
  }

  /** A late or duplicate acknowledgement moves nothing but the round trip estimate. */
  lemma LateAckMovesNothing(s: System, i: nat, fps: int)
    requires Enabled(s, TakeAck(i)) && s.acks[i].rel <= s.k.offset
    ensures var k := Next(s, TakeAck(i), fps).k;
            k == s.k.(smoothed := k.smoothed, dev := k.dev, retransmit := k.retransmit)
  {
  }

  /** No acknowledgement in flight is behind the server. */
  ghost predicate NoneBehind(s: System) {
    forall a <- s.acks :: s.k.offset <= a.rel
  }

  /** The acknowledgements in flight come in the order of the positions they tell. */
  ghost predicate Ascending(acks: seq<Ack>) {
    forall i, j :: 0 <= i < j < |acks| ==> acks[i].rel <= acks[j].rel
  }

  ghost predicate InOrder(s: System) {
    Ascending(s.acks) && NoneBehind(s)
  }

  /** What one acknowledgement does to the position and the queue. */
  lemma Takes(s: System, i: nat, fps: int)
    requires Inv(s, fps) && Enabled(s, TakeAck(i))
    ensures var t := Next(s, TakeAck(i), fps);
            t.k.offset == Max(s.k.offset, s.acks[i].rel) && t.acks == Without(s.acks, i)
  {
    hide Timed;
    assert s.acks[i] in s.acks;
  }

  /** Taking an acknowledgement leaves one behind exactly when, among those still in flight, one
      tells an older position. */
  lemma TakingKeepsNoneBehind(s: System, i: nat, fps: int)
    requires Inv(s, fps) && Enabled(s, TakeAck(i)) && NoneBehind(s)
    ensures NoneBehind(Next(s, TakeAck(i), fps)) <==> forall b <- Without(s.acks, i) :: s.acks[i].rel <= b.rel
  {
    hide Inv, Next;
    Takes(s, i, fps);
    assert s.acks[i] in s.acks;
    assert forall b <- Without(s.acks, i) :: b in s.acks;
  }

  /** A step leaves none behind unless it takes an acknowledgement that one still in flight undercuts. */
  ghost predicate Undercut(s: System, step: Step) {
    step.TakeAck? && step.i < |s.acks| && exists b <- Without(s.acks, step.i) :: b.rel < s.acks[step.i].rel
  }

  lemma StepNoneBehind(s: System, step: Step, fps: int)
    requires Inv(s, fps) && Enabled(s, step) && NoneBehind(s)
    ensures NoneBehind(Next(s, step, fps)) <==> !Undercut(s, step)
  {
    hide Timed, Send, ReceiveAck;
    match step
    case TakeAck(i) => TakingKeepsNoneBehind(s, i, fps);
    case Transmit(wlen, net) => SendingMovesNot(s.k, wlen, s.now, fps, net);
    case _ =>
  }

  /** What a step may do to the queue without putting it out of order.  An acknowledgement overtakes
      the oldest only if both tell the same position, and likewise for a copy that comes last. */
  ghost predicate KeepsOrder(s: System, step: Step) {
    match step
    case TakeAck(i) => i < |s.acks| && s.acks[i].rel == s.acks[0].rel
    case RepeatAck(i) => i < |s.acks| && s.acks[i].rel == s.acks[|s.acks| - 1].rel
    case _ => true
  }

  lemma TakingInOrder(s: System, i: nat, fps: int)
    requires Inv(s, fps) && Enabled(s, TakeAck(i)) && InOrder(s)
    ensures InOrder(Next(s, TakeAck(i), fps)) <==> s.acks[i].rel == s.acks[0].rel
  {
    hide Inv, Next;
    Takes(s, i, fps);
    var rest := Without(s.acks, i);
    assert s.acks[i] in s.acks;
    assert forall j :: 0 <= j < |rest| ==> rest[j] == s.acks[if j < i then j else j + 1];
    if i > 0 {
      assert rest[0] == s.acks[0];
    }
  }

  lemma DeliveringInOrder(s: System, p: Packet, echo: int, fps: int)
    requires Inv(s, fps) && Enabled(s, Deliver(p, echo)) && InOrder(s)
    ensures InOrder(Next(s, Deliver(p, echo), fps))
  {
    hide Timed;
  }

  lemma LosingInOrder(s: System, i: nat)
    requires i < |s.acks| && InOrder(s)
    ensures InOrder(s.(acks := Without(s.acks, i)))
  {
    var rest := Without(s.acks, i);
    assert forall j :: 0 <= j < |rest| ==> rest[j] == s.acks[if j < i then j else j + 1];
  }

  lemma RepeatingInOrder(s: System, i: nat)
    requires i < |s.acks| && InOrder(s)
    ensures InOrder(s.(acks := s.acks + [s.acks[i]])) <==> s.acks[i].rel == s.acks[|s.acks| - 1].rel
  {
    var more := s.acks + [s.acks[i]];
    assert more[|s.acks|] == s.acks[i] && more[|s.acks| - 1] == s.acks[|s.acks| - 1];
  }

  lemma SendingMovesNot(k: Conn, wlen: nat, now: int, fps: int, net: nat -> SendOutcome)
    ensures var r := Send(k, wlen, now, fps, net).k; r.offset == k.offset || r == DEAD
  {
  }

  lemma StepInOrder(s: System, step: Step, fps: int)
    requires Inv(s, fps) && Enabled(s, step) && InOrder(s)
    ensures InOrder(Next(s, step, fps)) <==> KeepsOrder(s, step)
  {
    hide Timed, Send, ReceiveAck;
    match step
    case TakeAck(i) => TakingInOrder(s, i, fps);
    case Deliver(p, echo) => DeliveringInOrder(s, p, echo, fps);
    case LoseAck(i) => LosingInOrder(s, i);
    case RepeatAck(i) => RepeatingInOrder(s, i);
    case Transmit(wlen, net) => SendingMovesNot(s.k, wlen, s.now, fps, net);
    case _ =>
  }

  /** Leaving CONN_DRAIN by an acknowledgement: the client holds every byte ever put in a packet. */
  lemma DrainedMeansHeld(s: System, i: nat, fps: int)
    requires fps >= 2 && Inv(s, fps) && Enabled(s, TakeAck(i)) && s.k.state == Drain
    requires Next(s, TakeAck(i), fps).k.state != Drain
    ensures |s.got| == s.k.unsent && s.got == s.stream[..s.k.unsent]
    ensures forall p <- s.packets :: p.End() <= |s.got|
    ensures s.acks[i].rel == s.k.unsent
  {
    hide Timed, Estimate;
    assert s.acks[i] in s.acks;
    EstimateKeeps(s.k, s.now - s.acks[i].loops, s.now, fps);
  }

  /** The buffer is then empty exactly when nothing was appended behind the last packet, which the
      server can tell beforehand. */
  lemma DrainedIsEmpty(s: System, i: nat, fps: int)
    requires fps >= 2 && Inv(s, fps) && Enabled(s, TakeAck(i)) && s.k.state == Drain
    requires Next(s, TakeAck(i), fps).k.state != Drain
    ensures Next(s, TakeAck(i), fps).k.c == [] <==> s.k.unsent == s.k.offset + |s.k.c|
  {
    hide Inv, Next, Enabled;
    DrainedMeansHeld(s, i, fps);
    StepKeeps(s, TakeAck(i), fps);
    Takes(s, i, fps);
    StreamStays(s, i, fps);
    BufferIsRest(s, fps);
    BufferIsRest(Next(s, TakeAck(i), fps), fps);
  }

  lemma StreamStays(s: System, i: nat, fps: int)
    requires Inv(s, fps) && Enabled(s, TakeAck(i))
    ensures var t := Next(s, TakeAck(i), fps);
            s.k.state != Free && t.k.state != Free && t.stream == s.stream
  {
    hide Timed;
    NeverBadAck(s, s.acks[i], fps);
  }

  lemma BufferIsRest(s: System, fps: int)
    requires Inv(s, fps) && s.k.state != Free
    ensures |s.k.c| == |s.stream| - s.k.offset && s.k.offset <= s.k.unsent
  {
  }

  // ---- leaving CONN_DRAIN and CONN_READY

  /** Draining ends with the acknowledgement of the last byte ever put in a packet, and with no other. */
  lemma DrainEnds(s: System, i: nat, fps: int)
    requires fps >= 2 && Inv(s, fps) && Enabled(s, TakeAck(i)) && s.k.state == Drain && s.k.drainState != Ready
    ensures Next(s, TakeAck(i), fps).k.state
            == if s.k.offset < s.acks[i].rel == s.k.unsent then s.k.drainState else Drain
  {
    hide Timed, Estimate;
    assert s.acks[i] in s.acks;
    EstimateFields(s.k, s.now - s.acks[i].loops, fps);
  }

  /** The first byte that is not acknowledged belongs to a reply: PKT_REPLY, PKT_PLAY, PKT_SUCCESS or PKT_FAILURE. */
  ghost predicate ReplyNext(s: System) {
    0 <= s.k.offset < |s.stream| && s.stream[s.k.offset] in {2, 3, 102, 101}
  }

  /** A connection that is ready begins to play with the acknowledgement that leaves no reply as the next
      thing to be acknowledged, and with no other. */
  lemma ReadyEnds(s: System, i: nat, fps: int)
    requires fps >= 2 && Inv(s, fps) && Enabled(s, TakeAck(i)) && s.k.state == Ready
    ensures var t := Next(s, TakeAck(i), fps);
            t.k.state == if s.k.offset < s.acks[i].rel && !ReplyNext(t) then s.k.drainState else Ready
  {
    hide Timed, Estimate;
    assert s.acks[i] in s.acks;
    EstimateFields(s.k, s.now - s.acks[i].loops, fps);
  }

  /** In every run: an acknowledgement that ends CONN_READY leaves no reply unacknowledged, and the client
      holds all that went before. */
  lemma ReplyIsHeld(run: seq<System>, fps: int, j: nat, i: nat)
    requires fps >= 2 && IsRun(run, fps) && j + 1 < |run| && run[j].k.state == Ready
    requires Enabled(run[j], TakeAck(i)) && run[j + 1] == Next(run[j], TakeAck(i), fps) && run[j + 1].k.state != Ready
    ensures !ReplyNext(run[j + 1]) && run[j + 1].k.state == run[j].k.drainState
    ensures run[j + 1].got == run[j].got && run[j].k.offset < run[j + 1].k.offset <= |run[j].got|
    ensures 0 <= run[j + 1].k.offset <= |run[j + 1].stream|
    ensures run[j + 1].stream[..run[j + 1].k.offset] <= run[j + 1].got
  {
    hide Inv, Next, Estimate;
    RunKeeps(run, fps, j);
    ReadyEnds(run[j], i, fps);
    StreamStays(run[j], i, fps);
    Takes(run[j], i, fps);
    RunKeeps(run, fps, j + 1);
    HeldAsFar(run[j + 1], fps);
    SameGot(run[j], i, fps);
  }

  lemma HeldAsFar(s: System, fps: int)
    requires Inv(s, fps) && s.k.state != Free
    ensures 0 <= s.k.offset <= |s.got| <= |s.stream| && s.stream[..s.k.offset] <= s.got
  {
  }

  lemma SameGot(s: System, i: nat, fps: int)
    requires Enabled(s, TakeAck(i))
    ensures Next(s, TakeAck(i), fps).got == s.got
  {
  }

  ghost predicate Reachable(s: System, fps: int) {
    exists run :: IsRun(run, fps) && run[|run| - 1] == s
  }

  lemma StartReachable(now: nat, fps: int)
    ensures Reachable(Start(now, fps), fps)
  {
    var run := [Start(now, fps)];
    assert IsRun(run, fps) && run[|run| - 1] == Start(now, fps);
  }

  lemma StepReachable(s: System, step: Step, fps: int)
    requires Reachable(s, fps) && Enabled(s, step)
    ensures Reachable(Next(s, step, fps), fps)
  {
    hide Next, Enabled, Start;
    var run :| IsRun(run, fps) && run[|run| - 1] == s;
    var s' := Next(s, step, fps);
    var longer := run + [s'];
    assert Follows(s, s', fps);
    forall i | 0 <= i < |longer| - 1
      ensures Follows(longer[i], longer[i + 1], fps)
    {
      if i < |run| - 1 {
        assert Follows(run[i], run[i + 1], fps);
      }
    }
    assert longer[0] == run[0];
    assert IsRun(longer, fps) && longer[|longer| - 1] == s';
  }

  function NoLoss(i: nat): SendOutcome { Sent }

  /** With no good acknowledgements yet, a buffer that fits goes out in one packet. */
  lemma SendsOnePacket(k: Conn, wlen: nat, now: int, fps: int)
    requires GoesAhead(k, wlen, now) && k.acks == 0 && MaxTodo(k, wlen) == |k.c| <= MAX_RELIABLE_DATA_PACKET_SIZE
    ensures var r := Send(k, wlen, now, fps, NoLoss);
            && r.packets == [Packet(k.offset, now, k.c)]
            && r.k.c == k.c && r.k.offset == k.offset && r.k.unsent == Max(k.unsent, k.offset + |k.c|)
            && r.k.state == k.state && r.k.drainState == k.drainState
            && r.k.acks == 0 && r.k.lastSend == now
  {
    var k' := OnTimeout(k, now);
    assert Emit(k', |k.c|, 0, 1, now, NoLoss) == Emitted([], 0, 0, false);
    assert k'.c[0..|k.c|] == k.c;
  }

  /** A reachable state in which [7] is sent and [8, 9] appended behind it, while draining. */
  lemma Draining(fps: int) returns (s: System, p: Packet)
    requires fps >= 2
    ensures Reachable(s, fps) && p == Packet(0, 1, [7]) && p in s.packets && s.now == 1
    ensures s.got == [] && s.stream == [7, 8, 9] && s.acks == []
    ensures s.k.c == [7, 8, 9] && s.k.offset == 0 && s.k.unsent == 1
    ensures s.k.acks == 0 && s.k.lastSend == 1 && s.k.state == Drain && s.k.drainState == Setup
  {
    hide Reachable, Send;
    var s0 := Start(1, fps);
    StartReachable(1, fps);
    StepReachable(s0, Append([7]), fps);
    var s1 := Next(s0, Append([7]), fps);
    SendsOnePacket(s1.k, 0, 1, fps);
    StepReachable(s1, Transmit(0, NoLoss), fps);
    var s2 := Next(s1, Transmit(0, NoLoss), fps);
    p := Packet(0, 1, [7]);
    assert s1.k.c == [7];
    assert p in Send(s1.k, 0, 1, fps, NoLoss).packets;
    assert p in s2.packets;
    StepReachable(s2, Enter(Drain, Setup), fps);
    var s3 := Next(s2, Enter(Drain, Setup), fps);
    StepReachable(s3, Append([8, 9]), fps);
    s := Next(s3, Append([8, 9]), fps);
  }

  /** The same state once the client has the packet. */
  lemma FirstHeld(fps: int) returns (s: System)
    requires fps >= 2
    ensures Reachable(s, fps) && s.acks == [Ack(1, 0)] && s.now == 1 && |s.got| == 1 && |s.stream| == 3
    ensures s.k.c == [7, 8, 9] && s.k.offset == 0 && s.k.unsent == 1
    ensures s.k.acks == 0 && s.k.lastSend == 1 && s.k.state == Drain && s.k.drainState == Setup
  {
    hide Reachable, Send, ReceiveAck;
    var s0, p := Draining(fps);
    StepReachable(s0, Deliver(p, 0), fps);
    s := Next(s0, Deliver(p, 0), fps);
    assert s.got == [7];
    assert s0.acks == [];
  }

  lemma AckAllSent(k: Conn, a: Ack, now: int, fps: int)
    requires k.state == Drain && k.drainState == Setup && k.offset < a.rel == k.unsent <= k.offset + |k.c|
    ensures var k' := ReceiveAck(k, a.rel, a.loops, now, fps).k;
            k'.state == Setup && |k'.c| == |k.c| - (a.rel - k.offset)
  {
    hide Estimate;
    EstimateFields(k, now - a.loops, fps);
  }

  /** Draining ends when all that was put in a packet is acknowledged; bytes appended after the
      last packet may still be waiting, and the client has not seen them. */
  lemma DrainedIsNotEmpty(fps: int) returns (s: System)
    requires fps >= 2
    ensures Reachable(s, fps) && Enabled(s, TakeAck(0)) && s.k.state == Drain
    ensures var t := Next(s, TakeAck(0), fps); t.k.state != Drain && t.k.c != [] && t.got != t.stream
  {
    hide Reachable, ReceiveAck, Send;
    s := FirstHeld(fps);
    AckAllSent(s.k, Ack(1, 0), s.now, fps);
  }

  /** A reachable state with the first packet's acknowledgement and a second packet under way. */
  lemma SecondPacket(fps: int) returns (s: System, q: Packet)
    requires fps >= 2
    ensures Reachable(s, fps) && q == Packet(0, 2, [7, 8, 9]) && q in s.packets && s.acks == [Ack(1, 0)]
    ensures |s.got| == 1 && s.k.offset == 0 && |s.k.c| == 3
    ensures s.k.state == Drain && s.k.drainState == Setup
  {
    hide Reachable, Send, ReceiveAck;
    var s1 := FirstHeld(fps);
    StepReachable(s1, Tick, fps);
    var s2 := Next(s1, Tick, fps);
    SendsOnePacket(s2.k, 1, 2, fps);
    StepReachable(s2, Transmit(1, NoLoss), fps);
    s := Next(s2, Transmit(1, NoLoss), fps);
    q := Packet(0, 2, [7, 8, 9]);
    assert q in Send(s2.k, 1, 2, fps, NoLoss).packets;
  }

  /** The acknowledgement of a second packet overtakes that of the first: the server moves past an
      acknowledgement that is still under way. */
  lemma AckFallsBehind(fps: int) returns (s: System)
    requires fps >= 2
    ensures Reachable(s, fps) && s.k.state != Free && !NoneBehind(s)
  {
    hide Reachable, Estimate, AwaitsReply;
    var s1, q := SecondPacket(fps);
    StepReachable(s1, Deliver(q, 0), fps);
    var s2 := Next(s1, Deliver(q, 0), fps);
    assert s2.acks == [Ack(1, 0), Ack(3, 0)];
    StepReachable(s2, TakeAck(1), fps);
    s := Next(s2, TakeAck(1), fps);
    EstimateFields(s2.k, s2.now, fps);
    assert s.acks == [Ack(1, 0)] && s.k.offset == 3;
  }

  lemma EstimateFields(k: Conn, rtt: int, fps: int)
    ensures var k' := Estimate(k, rtt, fps);
            k' == k.(smoothed := k'.smoothed, dev := k'.dev, retransmit := k'.retransmit)
  {
  }

  // ---- progress

  ghost predicate NetworkWorks(net: nat -> SendOutcome) {
    net(0) == Sent && forall i :: net(i) == Sent || net(i) == WouldBlock
  }

  lemma {:induction false} EmitSucceeds(k: Conn, at: nat, todo: nat, i: nat, now: int, net: nat -> SendOutcome)
    requires at + todo <= |k.c| && NetworkWorks(net)
    ensures !Emit(k, at, todo, i, now, net).failed
    decreases todo
  {
    if i <= k.acks && todo > 0 && net(i) == Sent {
      var len := Min(todo, MAX_RELIABLE_DATA_PACKET_SIZE);
      EmitSucceeds(k, at + len, todo - len, i + 1, now, net);
    }
  }

  ghost predicate MayRetransmit(k: Conn, now: int) {
    |k.c| > 0 && k.retransmitAt <= now && k.lastSend != now && k.acks >= 0
  }

  /** With unacknowledged data, an expired timer and no send yet in this loop, whatever goes out
      starts with a non-empty packet at the acknowledged position. */
  lemma StartsWhereAcked(k: Conn, wlen: nat, now: int, fps: int, net: nat -> SendOutcome)
    requires MayRetransmit(k, now) && NetworkWorks(net)
    requires wlen < MAX_RELIABLE_DATA_PACKET_SIZE - MIN_SEND_SIZE
    ensures var r := Send(k, wlen, now, fps, net);
            && r.ret > 0 && r.flushed && r.packets != []
            && r.packets[0].offset == k.offset && r.packets[0].data != []
            && |r.packets[0].data| == Min(MaxTodo(k, wlen), MAX_RELIABLE_DATA_PACKET_SIZE)
            && r.k.offset == k.offset && r.k.state == k.state
  {
    EmitSucceeds(OnTimeout(k, now), 0, MaxTodo(k, wlen), 0, now, net);
  }

  /** Once that packet gets through, and the acknowledgement it causes, all of it is acknowledged. */
  lemma Progress(s: System, p: Packet, echo: int, fps: int)
    requires fps >= 2 && Inv(s, fps) && s.k.state != Free
    requires p in s.packets && p.offset == s.k.offset && p.data != []
    ensures var s1 := Next(s, Deliver(p, echo), fps);
            && Enabled(s1, TakeAck(|s.acks|))
            && var s2 := Next(s1, TakeAck(|s.acks|), fps);
            && s2.stream == s.stream && s2.now == s.now && s2.k.state != Free
            && s2.k.offset == |s2.got| >= p.End() > s.k.offset
  {
    hide Inv;
    DeliverKeeps(s, p, echo, fps);
    var s1 := Next(s, Deliver(p, echo), fps);
    Takes(s1, |s.acks|, fps);
    StreamStays(s1, |s.acks|, fps);
    ClientAhead(s, fps);
  }

  lemma ClientAhead(s: System, fps: int)
    requires Inv(s, fps) && s.k.state != Free
    ensures s.k.offset <= |s.got|
  {
  }

  /** A schedule the server, the network and the client can follow. */
  ghost predicate Feasible(s: System, steps: seq<Step>, fps: int)
    decreases |steps|
  {
    steps != [] ==> Enabled(s, steps[0]) && Feasible(Next(s, steps[0], fps), steps[1..], fps)
  }

  ghost function Exec(s: System, steps: seq<Step>, fps: int): System
    requires Feasible(s, steps, fps)
    decreases |steps|
  {
    if steps == [] then s else Exec(Next(s, steps[0], fps), steps[1..], fps)
  }

  lemma {:induction false} ExecJoins(s: System, a: seq<Step>, b: seq<Step>, fps: int)
    requires Feasible(s, a, fps) && Feasible(Exec(s, a, fps), b, fps)
    ensures Feasible(s, a + b, fps) && Exec(s, a + b, fps) == Exec(Exec(s, a, fps), b, fps)
    decreases |a|
  {
    hide Next, Enabled;
    if a == [] {
      assert a + b == b;
    } else {
      assert (a + b)[1..] == a[1..] + b;
      ExecJoins(Next(s, a[0], fps), a[1..], b, fps);
    }
  }

  lemma {:induction false} ExecTicks(s: System, n: nat, fps: int)
    requires fps >= 2 && Inv(s, fps)
    ensures var ticks := seq(n, _ => Tick);
            Feasible(s, ticks, fps) && Exec(s, ticks, fps) == s.(now := s.now + n) && Inv(s.(now := s.now + n), fps)
    decreases n
  {
    hide Inv;
    if n > 0 {
      StepKeeps(s, Tick, fps);
      ExecTicks(Next(s, Tick, fps), n - 1, fps);
      assert seq(n, _ => Tick)[1..] == seq(n - 1, _ => Tick);
    }
  }

  /** What the server does of itself, the network and the client, without appending or changing the state. */
  predicate Bystanding(step: Step) {
    step.Tick? || step.Transmit? || step.Deliver? || step.TakeAck?
  }

  /** One retransmission that gets through: wait for the timer, send, deliver, acknowledge. */
  lemma Retransmission(s: System, fps: int) returns (steps: seq<Step>)
    requires fps >= 2 && Inv(s, fps) && s.k.state != Free && |s.k.c| > 0
    ensures Feasible(s, steps, fps)
    ensures var t := Exec(s, steps, fps);
            && Inv(t, fps) && t.k.state != Free && t.stream == s.stream
            && t.k.offset >= s.k.offset + Min(|s.k.c|, MAX_RELIABLE_DATA_PACKET_SIZE)
            && t.now <= s.now + MaxRetransmit(fps) + 1
    ensures forall step <- steps :: Bystanding(step)
  {
    var n := Max(1, s.k.retransmitAt - s.now);
    ExecTicks(s, n, fps);
    var ticks := seq(n, _ => Tick);
    var s0 := s.(now := s.now + n);
    StartsWhereAcked(s0.k, 0, s0.now, fps, NoLoss);
    var p := Send(s0.k, 0, s0.now, fps, NoLoss).packets[0];
    StepKeeps(s0, Transmit(0, NoLoss), fps);
    var s1 := Next(s0, Transmit(0, NoLoss), fps);
    assert p in s1.packets;
    Progress(s1, p, 0, fps);
    var s2 := Next(s1, Deliver(p, 0), fps);
    StepKeeps(s1, Deliver(p, 0), fps);
    StepKeeps(s2, TakeAck(|s1.acks|), fps);
    var round := [Transmit(0, NoLoss), Deliver(p, 0), TakeAck(|s1.acks|)];
    ThreeSteps(s0, round, fps);
    ExecJoins(s, ticks, round, fps);
    steps := ticks + round;
    AllBystand(ticks, round);
  }

  lemma AllBystand(ticks: seq<Step>, round: seq<Step>)
    requires |round| == 3 && Bystanding(round[0]) && Bystanding(round[1]) && Bystanding(round[2])
    requires forall i :: 0 <= i < |ticks| ==> ticks[i] == Tick
    ensures forall step <- ticks + round :: Bystanding(step)
  {
  }

  lemma ThreeSteps(s: System, steps: seq<Step>, fps: int)
    requires |steps| == 3 && Enabled(s, steps[0])
    requires Enabled(Next(s, steps[0], fps), steps[1])
    requires Enabled(Next(Next(s, steps[0], fps), steps[1], fps), steps[2])
    ensures Feasible(s, steps, fps)
    ensures Exec(s, steps, fps) == Next(Next(Next(s, steps[0], fps), steps[1], fps), steps[2], fps)
  {
    hide Next, Enabled;
    var s1 := Next(s, steps[0], fps);
    var s2 := Next(s1, steps[1], fps);
    assert steps[1..][0] == steps[1] && steps[1..][1..][0] == steps[2];
    var s3 := Next(s2, steps[2], fps);
    assert steps[1..][1..][1..] == [];
    assert Feasible(s2, steps[1..][1..], fps) && Exec(s2, steps[1..][1..], fps) == s3;
    assert Feasible(s1, steps[1..], fps) && Exec(s1, steps[1..], fps) == s3;
  }

  /** The packets that n bytes fill. */
  function Fills(n: nat): nat {
    (n + MAX_RELIABLE_DATA_PACKET_SIZE - 1) / MAX_RELIABLE_DATA_PACKET_SIZE
  }

  /** From every reachable state everything appended so far can still be delivered and
      acknowledged, in at most fps + 2 loops for each full packet of data, by retransmissions that
      get through. */
  lemma {:induction false} EventuallyDelivered(s: System, fps: int) returns (steps: seq<Step>)
    requires fps >= 2 && Inv(s, fps) && s.k.state != Free
    ensures Feasible(s, steps, fps)
    ensures var t := Exec(s, steps, fps);
            && Inv(t, fps) && t.k.state != Free && t.stream == s.stream
            && t.got == s.stream && t.k.offset == |s.stream|
            && t.now <= s.now + Fills(|s.k.c|) * (MaxRetransmit(fps) + 1)
    ensures forall step <- steps :: Bystanding(step)
    decreases |s.k.c|
  {
    hide Next, Enabled, Timed;
    if |s.k.c| == 0 {
      steps := [];
    } else {
      var first := Retransmission(s, fps);
      var t := Exec(s, first, fps);
      assert |t.k.c| == |t.stream| - t.k.offset <= |s.k.c| - Min(|s.k.c|, MAX_RELIABLE_DATA_PACKET_SIZE);
      var rest := EventuallyDelivered(t, fps);
      ExecJoins(s, first, rest, fps);
      MulLess(Fills(|t.k.c|), Fills(|s.k.c|), fps + 2);
      steps := first + rest;
    }
  }

  lemma MulLess(a: nat, b: nat, m: nat)
    requires a < b
    ensures a * m + m <= b * m
  {
    var d := b - a - 1;
    assert b * m == (a + 1 + d) * m == a * m + m + d * m;
  }

  // ---- acknowledgements that arrive in order

  ghost predicate AllKeepOrder(s: System, steps: seq<Step>, fps: int)
    requires Feasible(s, steps, fps)
    decreases |steps|
  {
    steps != [] ==> KeepsOrder(s, steps[0]) && AllKeepOrder(Next(s, steps[0], fps), steps[1..], fps)
  }

  ghost predicate AlwaysInOrder(s: System, steps: seq<Step>, fps: int)
    requires Feasible(s, steps, fps)
    decreases |steps|
  {
    InOrder(s) && (steps != [] ==> AlwaysInOrder(Next(s, steps[0], fps), steps[1..], fps))
  }

  /** Over a whole run, those in flight are ascending and none is behind in every state exactly when
      none ever overtakes an older one and no copy comes behind a newer one. */
  lemma {:induction false} RunInOrder(s: System, steps: seq<Step>, fps: int)
    requires fps >= 2 && Inv(s, fps) && InOrder(s) && Feasible(s, steps, fps)
    ensures AlwaysInOrder(s, steps, fps) <==> AllKeepOrder(s, steps, fps)
    decreases |steps|
  {
    hide Inv, InOrder, KeepsOrder, Next, Enabled;
    if steps != [] {
      var t := Next(s, steps[0], fps);
      StepKeeps(s, steps[0], fps);
      StepInOrder(s, steps[0], fps);
      if InOrder(t) {
        RunInOrder(t, steps[1..], fps);
      } else {
        NotAlways(t, steps[1..], fps);
      }
    }
  }

  lemma NotAlways(s: System, steps: seq<Step>, fps: int)
    requires Feasible(s, steps, fps) && !InOrder(s)
    ensures !AlwaysInOrder(s, steps, fps)
  {
  }

  /** The next n acknowledgements in flight arrive, in the order of the queue. */
  ghost function Arrived(s: System, n: nat, fps: int): System
    requires fps >= 2 && Inv(s, fps) && s.k.state != Free && n <= |s.acks|
    ensures Arrived(s, n, fps).k.state != Free
    decreases n
  {
    if n == 0 then s
    else
      assert Inv(Next(s, TakeAck(0), fps), fps) by {
        StepKeeps(s, TakeAck(0), fps);
      }
      StreamStays(s, 0, fps);
      Arrived(Next(s, TakeAck(0), fps), n - 1, fps)
  }

  /** Being in order is no more than it takes: it says that none will be behind however many of
      those in flight arrive. */
  lemma {:induction false} InOrderIsNeeded(s: System, fps: int)
    requires fps >= 2 && Inv(s, fps) && s.k.state != Free
    ensures InOrder(s) <==> forall n: nat | n <= |s.acks| :: NoneBehind(Arrived(s, n, fps))
  {
    hide Inv, Next, NoneBehind;
    if InOrder(s) {
      forall n: nat | n <= |s.acks|
        ensures NoneBehind(Arrived(s, n, fps))
      {
        ArrivedInOrder(s, n, fps);
      }
    } else if !NoneBehind(s) {
      FirstArrived(s, 0, fps);
    } else {
      var i, j :| 0 <= i < j < |s.acks| && s.acks[i].rel > s.acks[j].rel;
      FallsBehind(s, i, j, fps);
      assert !NoneBehind(Arrived(s, i + 1, fps));
    }
  }

  lemma FirstArrived(s: System, n: nat, fps: int)
    requires fps >= 2 && Inv(s, fps) && s.k.state != Free && n == 0
    ensures Arrived(s, n, fps) == s
  {
  }

  lemma {:induction false} ArrivedInOrder(s: System, n: nat, fps: int)
    requires fps >= 2 && Inv(s, fps) && s.k.state != Free && n <= |s.acks| && InOrder(s)
    ensures InOrder(Arrived(s, n, fps))
    decreases n
  {
    hide Inv, InOrder, Next;
    if n > 0 {
      StepKeeps(s, TakeAck(0), fps);
      StreamStays(s, 0, fps);
      StepInOrder(s, TakeAck(0), fps);
      Takes(s, 0, fps);
      ArrivedInOrder(Next(s, TakeAck(0), fps), n - 1, fps);
    }
  }

  lemma {:induction false} FallsBehind(s: System, i: nat, j: nat, fps: int)
    requires fps >= 2 && Inv(s, fps) && s.k.state != Free && i < j < |s.acks| && s.acks[i].rel > s.acks[j].rel
    ensures !NoneBehind(Arrived(s, i + 1, fps))
    decreases i
  {
    hide Inv, Next;
    var t := Next(s, TakeAck(0), fps);
    StepKeeps(s, TakeAck(0), fps);
    StreamStays(s, 0, fps);
    Takes(s, 0, fps);
    assert forall m :: 0 <= m < |t.acks| ==> t.acks[m] == s.acks[m + 1];
    if i == 0 {
      assert Arrived(t, 0, fps) == t && t.acks[j - 1] in t.acks;
    } else {
      FallsBehind(t, i - 1, j - 1, fps);
    }
  }

  ghost predicate NeverUndercut(s: System, steps: seq<Step>, fps: int)
    requires Feasible(s, steps, fps)
    decreases |steps|
  {
    steps != [] ==> !Undercut(s, steps[0]) && NeverUndercut(Next(s, steps[0], fps), steps[1..], fps)
  }

  ghost predicate AlwaysNoneBehind(s: System, steps: seq<Step>, fps: int)
    requires Feasible(s, steps, fps)
    decreases |steps|
  {
    NoneBehind(s) && (steps != [] ==> AlwaysNoneBehind(Next(s, steps[0], fps), steps[1..], fps))
  }

  /** Over a whole run none in flight is behind in any state exactly when every acknowledgement that
      is taken tells no later position than those it leaves in flight. */
  lemma {:induction false} RunNoneBehind(s: System, steps: seq<Step>, fps: int)
    requires fps >= 2 && Inv(s, fps) && NoneBehind(s) && Feasible(s, steps, fps)
    ensures AlwaysNoneBehind(s, steps, fps) <==> NeverUndercut(s, steps, fps)
    decreases |steps|
  {
    hide Inv, NoneBehind, Undercut, Next, Enabled;
    if steps != [] {
      var t := Next(s, steps[0], fps);
      StepKeeps(s, steps[0], fps);
      StepNoneBehind(s, steps[0], fps);
      if NoneBehind(t) {
        RunNoneBehind(t, steps[1..], fps);
      } else {
        NotAlwaysNone(t, steps[1..], fps);
      }
    }
  }

  lemma NotAlwaysNone(s: System, steps: seq<Step>, fps: int)
    requires Feasible(s, steps, fps) && !NoneBehind(s)
    ensures !AlwaysNoneBehind(s, steps, fps)
  {
  }

  /** A network that delivers in order and once each, although it may lose. */
  ghost predicate FirstInFirstOut(step: Step) {
    (step.TakeAck? ==> step.i == 0) && !step.RepeatAck?
  }

  /** With such a network no acknowledgement in flight is ever behind the server. */
  lemma {:induction false} NeverBehind(now: nat, steps: seq<Step>, n: nat, fps: int)
    requires fps >= 2 && Feasible(Start(now, fps), steps, fps) && n <= |steps|
    requires forall step <- steps :: FirstInFirstOut(step)
    ensures Feasible(Start(now, fps), steps[..n], fps) && NoneBehind(Exec(Start(now, fps), steps[..n], fps))
  {
    hide Inv, Start, Next, Enabled, NoneBehind;
    StartHolds(Start(now, fps), fps);
    StartInOrder(now, fps);
    QueueKeepsOrder(Start(now, fps), steps, n, fps);
  }

  lemma StartInOrder(now: nat, fps: int)
    ensures InOrder(Start(now, fps))
  {
  }

  lemma {:induction false} QueueKeepsOrder(s: System, steps: seq<Step>, n: nat, fps: int)
    requires fps >= 2 && Inv(s, fps) && InOrder(s) && Feasible(s, steps, fps) && n <= |steps|
    requires forall step <- steps :: FirstInFirstOut(step)
    ensures Feasible(s, steps[..n], fps) && InOrder(Exec(s, steps[..n], fps))
    decreases n
  {
    hide Inv, InOrder, Next;
    if n > 0 {
      assert steps[0] in steps;
      StepKeeps(s, steps[0], fps);
      StepInOrder(s, steps[0], fps);
      QueueKeepsOrder(Next(s, steps[0], fps), steps[1..], n - 1, fps);
      assert steps[..n][1..] == steps[1..][..n - 1];
    }
  }

  // ---- the timer

  /** Every arming of the timer lands one to fps + 1 loops ahead. */
  lemma ArmLandsAhead(k: Conn, now: int, fps: int)
    requires fps >= 2 && Timed(k, now, fps)
    ensures now + 1 <= Arm(k, now, fps).retransmitAt <= now + MaxRetransmit(fps)
  {
  }
}
