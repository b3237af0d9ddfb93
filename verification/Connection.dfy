/** The connection of src/server/netserver.cpp: socket buffers and counters updated in place, each
    call proved to do what ReliableStream says. */
module Connections {
  import opened Arithmetic
  import opened Sockbufs
  import opened PacketCodec
  import RS = ReliableStream

  const SERVER_SEND_SIZE: nat := 4 * 1024
  const SERVER_RECV_SIZE: nat := 1024
  const PKT_RELIABLE: int := 42
  const PKT_ACK: int := 43
  const PKT_VERIFY: byte := 1
  const PKT_SHAPE: byte := 57

  /** Where the map data starts in the setup structure, and how much of it the buffer may hold. */
  const MAP_DATA_OFFSET: nat := 186
  const SETUP_CHUNK: nat := 4096

  const RELIABLE_FORMAT: seq<Conv> := [C, HD, LD, LD]
  const ACK_FORMAT: seq<Conv> := [C, LD, LD]
  const SETUP_FORMAT: seq<Conv> := [LD, LD, HD, HD, HD, HD, HD, SmallStr, SmallStr]

  function HeaderArgs(p: RS.Packet): (args: seq<Value>)
    ensures Matches(RELIABLE_FORMAT, args)
  {
    [Num(PKT_RELIABLE), Num(|p.data|), Num(p.offset), Num(p.loops)]
  }

  function Header(p: RS.Packet): seq<byte> {
    Wire(RELIABLE_FORMAT, HeaderArgs(p), 0)
  }

  /** A datagram: the frame it is piggybacked on, the header, the data. */
  function Datagram(frame: seq<byte>, p: RS.Packet): seq<byte> {
    frame + Header(p) + p.data
  }

  /** Only the first datagram of a burst carries the frame. */
  function Datagrams(frame: seq<byte>, packets: seq<RS.Packet>): seq<seq<byte>> {
    seq(|packets|, i requires 0 <= i < |packets| => Datagram(if i == 0 then frame else [], packets[i]))
  }

  /** A header needs eleven bytes and one to spare, whatever the numbers are. */
  lemma HeaderFits(p: RS.Packet, room: int)
    requires room > 11
    ensures Print(RELIABLE_FORMAT, HeaderArgs(p), 0, room) == Printed(Header(p)) && |Header(p)| == 11
  {
    hide EncodeInt;
    var args := HeaderArgs(p);
    var a, b, c, d := EncodeInt(PKT_RELIABLE, 1), EncodeInt(|p.data|, 2), EncodeInt(p.offset, 4), EncodeInt(p.loops, 4);
    assert Print(RELIABLE_FORMAT, args, 4, room - 11) == Printed([]);
    assert Print(RELIABLE_FORMAT, args, 3, room - 7) == Printed(d + []);
    assert Print(RELIABLE_FORMAT, args, 2, room - 3) == Printed(c + (d + []));
    assert Print(RELIABLE_FORMAT, args, 1, room - 1) == Printed(b + (c + (d + [])));
    assert Wire(RELIABLE_FORMAT, args, 4) == [];
    assert Wire(RELIABLE_FORMAT, args, 3) == d + [];
    assert Wire(RELIABLE_FORMAT, args, 2) == c + (d + []);
    assert Wire(RELIABLE_FORMAT, args, 1) == b + (c + (d + []));
  }

  lemma HeaderRepresentable(p: RS.Packet)
    requires InRange(HD, |p.data|) && InRange(LD, p.offset) && InRange(LD, p.loops)
    ensures Representable(RELIABLE_FORMAT, HeaderArgs(p))
  {
  }

  /** A client that scans a datagram behind its frame gets offset, time and data back. */
  lemma DatagramReadsBack(frame: seq<byte>, p: RS.Packet)
    requires InRange(HD, |p.data|) && InRange(LD, p.offset) && InRange(LD, p.loops)
    ensures var d := Datagram(frame, p);
            && Scan(RELIABLE_FORMAT, 0, d, |frame|) == Scanned(HeaderArgs(p), 11)
            && d[|frame| + 11..] == p.data
  {
    hide *;
    HeaderFits(p, 12);
    HeaderRepresentable(p);
    DatagramParts(frame, p);
    ScanUndoesPrint(RELIABLE_FORMAT, HeaderArgs(p), 0, Datagram(frame, p), |frame|);
    assert HeaderArgs(p)[0..] == HeaderArgs(p);
  }

  lemma DatagramParts(frame: seq<byte>, p: RS.Packet)
    requires |Header(p)| == 11
    ensures var d := Datagram(frame, p);
            |d| >= |frame| + 11 && |Wire(RELIABLE_FORMAT, HeaderArgs(p), 0)| == 11
            && Wire(RELIABLE_FORMAT, HeaderArgs(p), 0) <= d[|frame|..] && d[|frame| + 11..] == p.data
  {
    hide Wire;
  }

  lemma DatagramsEmpty(frame: seq<byte>)
    ensures Datagrams(frame, []) == []
  {
  }

  lemma DatagramsGrow(frame: seq<byte>, packets: seq<RS.Packet>, p: RS.Packet)
    ensures Datagrams(frame, packets + [p])
            == Datagrams(frame, packets) + [Datagram(if packets == [] then frame else [], p)]
  {
    hide Datagram;
  }

  /** What the setup header puts into a buffer that holds len bytes. */
  function HeaderOf(header: seq<Value>, len: nat): seq<byte>
    requires Matches(SETUP_FORMAT, header)
  {
    var r := Print(SETUP_FORMAT, header, 0, Room(RS.MAX_SOCKBUF_SIZE, len, false));
    if r.Printed? then r.bytes else []
  }

  datatype Handing = Handing(k: RS.Conn, setup: nat, added: seq<byte>)

  /** The next piece of the map data, as much as the buffer has room for, when `at` bytes are behind. */
  function Piece(k: RS.Conn, at: nat, mapData: seq<byte>): (h: Handing)
    requires at <= |mapData|
    ensures k.state != RS.Free ==> h.k.state != RS.Free
  {
    var to := at + Max(0, Min(SETUP_CHUNK - |k.c|, |mapData| - at));
    var k' := k.(c := k.c + mapData[at..to]);
    Handing(if to == |mapData| then k'.(state := RS.Drain, drainState := RS.Login) else k',
            MAP_DATA_OFFSET + to, mapData[at..to])
  }

  /** One call of Handle_setup: the header the first time, then the next piece of the map data. */
  function HandOver(k: RS.Conn, setup: nat, header: seq<Value>, mapData: seq<byte>): Handing
    requires Matches(SETUP_FORMAT, header)
    requires setup == 0 || MAP_DATA_OFFSET <= setup <= MAP_DATA_OFFSET + |mapData|
  {
    if k.state != RS.Setup then Handing(RS.DEAD, 0, [])
    else if setup > 0 then Piece(k, setup - MAP_DATA_OFFSET, mapData)
    else
      var first := HeaderOf(header, |k.c|);
      if first == [] then Handing(RS.DEAD, 0, [])
      else
        var h := Piece(k.(c := k.c + first), 0, mapData);
        h.(added := first + h.added)
  }

  /** What Receive_ack makes of the bytes from `at` on: the connection is gone, or how much it reads. */
  datatype Hearing = Gone | Alive(k: RS.Conn, used: nat)

  function AckHeard(k: RS.Conn, data: seq<byte>, at: nat, now: int, fps: int): (h: Hearing)
    requires at <= |data|
    ensures h.Alive? ==> 0 < h.used && at + h.used <= |data|
  {
    var scan := Scan(ACK_FORMAT, 0, data, at);
    ScanTypes(data, at);
    if !scan.Scanned? || scan.values[0] != Num(PKT_ACK) then Gone
    else
      var e := RS.ReceiveAck(k, scan.values[1].v, scan.values[2].v, now, fps);
      if e.ret == -1 then Gone else Alive(e.k, scan.used)
  }

  /** A datagram that comes in while the connection drains or is set up: acknowledgements one after the
      other, up to something that is ignored there; anything else ends the connection. */
  function Heard(k: RS.Conn, data: seq<byte>, at: nat, now: int, fps: int): RS.Conn
    requires at <= |data|
    decreases |data| - at
  {
    if at == |data| then k
    else if data[at] as int == PKT_ACK then
      match AckHeard(k, data, at, now, fps)
      case Gone => RS.DEAD
      case Alive(k', used) => Heard(k', data, at + used, now, fps)
    else if data[at] in {PKT_VERIFY, RS.PKT_PLAY, PKT_SHAPE} then k
    else RS.DEAD
  }

  function Input(k: RS.Conn, receipt: ReadOutcome, now: int, fps: int): RS.Conn {
    match receipt
    case NoneThere => k
    case ReadFailed => RS.DEAD
    case Got(bytes) => Heard(k, Sockbuf.Cut(bytes, SERVER_RECV_SIZE), 0, now, fps)
  }

  predicate LooksFirst(k: RS.Conn, setup: nat, mapData: seq<byte>) {
    k.state == RS.Setup && 0 < setup < MAP_DATA_OFFSET + |mapData| && k.c != []
  }

  /** One call of Handle_setup with what it finds when it looks for input. */
  function SetupCall(k: RS.Conn, setup: nat, header: seq<Value>, mapData: seq<byte>, receipt: ReadOutcome, now: int,
                     fps: int): Handing
    requires Matches(SETUP_FORMAT, header)
    requires setup == 0 || MAP_DATA_OFFSET <= setup <= MAP_DATA_OFFSET + |mapData|
  {
    HandOver(if LooksFirst(k, setup, mapData) then Input(k, receipt, now, fps) else k, setup, header, mapData)
  }

  class Connection {
    const r: Sockbuf
    const w: Sockbuf
    const c: Sockbuf
    var state: RS.ConnState
    var drainState: RS.ConnState
    var lastSendLoops: int
    var reliableOffset: int
    var reliableUnsent: int
    var retransmitAtLoop: int
    var rttSmoothed: int
    var rttDev: int
    var rttRetransmit: int
    var rttTimeouts: int
    var acks: int
    var setup: nat

    ghost predicate Valid()
      reads this, r, w, c
    {
      && r.Valid() && w.Valid() && c.Valid()
      && r != w && r != c && w != c && r.buf != w.buf && r.buf != c.buf && w.buf != c.buf
      && w.size == SERVER_SEND_SIZE && w.writable && w.dgram && !w.lock
      && c.size == RS.MAX_SOCKBUF_SIZE && c.writable && c.lock && !c.dgram
      && r.size == SERVER_RECV_SIZE && r.readable && r.dgram && !r.lock && r.ptr <= r.len
    }

    ghost function View(): RS.Conn
      requires Valid()
      reads this, r, w, c, c.buf
    {
      RS.Conn(c.Data(), reliableOffset, reliableUnsent, retransmitAtLoop, lastSendLoops, acks,
              rttSmoothed, rttDev, rttRetransmit, rttTimeouts, state, drainState)
    }

    /** As Setup_connection leaves it. */
    constructor (fps: int)
      ensures Valid() && fresh(r) && fresh(w) && fresh(c) && fresh(r.buf) && fresh(w.buf) && fresh(c.buf)
      ensures forall now: nat :: View() == RS.Start(now, fps).k
      ensures setup == 0 && w.Data() == [] && r.Data() == []
    {
      w := new Sockbuf(SERVER_SEND_SIZE, false, true, false, true);
      r := new Sockbuf(SERVER_RECV_SIZE, true, false, false, true);
      c := new Sockbuf(RS.MAX_SOCKBUF_SIZE, true, true, true, false);
      reliableOffset, reliableUnsent, lastSendLoops, retransmitAtLoop := 0, 0, 0, 0;
      rttRetransmit, rttSmoothed, rttDev, rttTimeouts, acks := fps / 2, 0, 0, 0, 0;
      setup := 0;
      new;
      SetState(RS.Listening, RS.Free);
    }

    method Destroy()
      requires Valid()
      modifies this, r, w, c
      ensures Valid() && View() == RS.DEAD && w.Data() == [] && setup == 0
    {
      ClearBuffers();
      reliableOffset, reliableUnsent, lastSendLoops, retransmitAtLoop := 0, 0, 0, 0;
      rttRetransmit, rttSmoothed, rttDev, rttTimeouts, acks := 0, 0, 0, 0, 0;
      setup := 0;
      SetState(RS.Free, RS.Free);
    }

    method ClearBuffers()
      requires Valid()
      modifies r, w, c
      ensures Valid() && r.Data() == w.Data() == c.Data() == []
    {
      r.Clear();
      w.Clear();
      c.Clear();
    }

    /** One packet into the output buffer and out to the network. */
    method SendOne(p: RS.Packet, at: nat, lastPacketOfFrame: bool, outcome: SendOutcome)
        returns (n: int, datagram: seq<seq<byte>>)
      requires Valid() && w.len < RS.MAX_RELIABLE_DATA_PACKET_SIZE - RS.MIN_SEND_SIZE
      requires 0 < |p.data| <= RS.MAX_RELIABLE_DATA_PACKET_SIZE
      requires at + |p.data| <= c.len && p.data == c.Data()[at..at + |p.data|]
      modifies w, w.buf
      ensures Valid() && View() == old(View()) && (outcome != SocketBroken ==> w.Data() == [])
      ensures n == match outcome
                   case Sent => |old(w.Data())| + 11 + |p.data|
                   case SendFailed => -1
                   case SocketBroken => -1
                   case _ => 0
      ensures datagram == if outcome == Sent then [Datagram(old(w.Data()), p)] else []
    {
      hide Print;
      HeaderFits(p, Room(w.size, w.len, lastPacketOfFrame));
      var len := |p.data|;
      var count := Printf(w, RELIABLE_FORMAT, [Num(PKT_RELIABLE), Num(len), Num(p.offset), Num(p.loops)],
                          lastPacketOfFrame);
      if count <= 0 {
        assert false;  // "Cannot write reliable data": the buffer has room
      }
      assert c.buf[at..at + len] == p.data;
      var written := w.Write(c.buf[at..at + len]);
      if written != len {
        assert false;  // likewise
      }
      n, datagram := w.Flush(outcome);
    }

    method SendReliable(now: int, fps: int, lastPacketOfFrame: bool, net: nat -> SendOutcome)
        returns (ret: int, sent: seq<seq<byte>>, ghost packets: seq<RS.Packet>)
      requires Valid()
      modifies this, r, w, c, w.buf
      ensures Valid()
      ensures var e := RS.Send(old(View()), old(w.len), now, fps, net);
              && View() == e.k && ret == e.ret && packets == e.packets
              && w.Data() == if e.flushed then [] else old(w.Data())
      ensures sent == Datagrams(old(w.Data()), packets)
    {
      hide Datagrams, RS.Emit, RS.Arm, RS.GoesAhead, RS.MaxTodo;
      packets, sent := [], [];
      DatagramsEmpty(w.Data());
      if c.len <= 0 || lastSendLoops == now {
        lastSendLoops := now;
        return 0, sent, packets;
      }
      var go, maxTodo := Budget(now);
      if !go {
        return 0, sent, packets;
      }
      var todo;
      var failed;
      todo, failed, sent, packets := Burst(maxTodo, now, lastPacketOfFrame, net);
      if failed {
        Destroy();
        return -1, sent, packets;
      }
      w.Clear();
      lastSendLoops := now;
      if maxTodo - todo <= 0 {
        return 0, sent, packets;
      }
      ArmTimer(now, fps);
      if reliableOffset + (maxTodo - todo) > reliableUnsent {
        reliableUnsent := reliableOffset + (maxTodo - todo);
      }
      ret := maxTodo - todo;
    }

    /** Whether anything may be sent now, and how much. */
    method Budget(now: int) returns (go: bool, maxTodo: nat)
      requires Valid() && c.len > 0 && lastSendLoops != now
      modifies this`acks
      ensures Valid() && go == RS.GoesAhead(old(View()), w.len, now)
      ensures go ==> maxTodo == RS.MaxTodo(old(View()), w.len) <= c.len
      ensures go ==> w.len < RS.MAX_RELIABLE_DATA_PACKET_SIZE - RS.MIN_SEND_SIZE
      ensures View() == if go then RS.OnTimeout(old(View()), now) else old(View())
    {
      maxTodo := c.len;
      if w.len > 0 {
        if w.len >= RS.MAX_RELIABLE_DATA_PACKET_SIZE - RS.MIN_SEND_SIZE {
          return false, 0;
        }
        if maxTodo > RS.MAX_RELIABLE_DATA_PACKET_SIZE - w.len {
          maxTodo := RS.MAX_RELIABLE_DATA_PACKET_SIZE - w.len;
        }
      }
      if retransmitAtLoop > now {
        if maxTodo <= reliableUnsent - reliableOffset + RS.MIN_SEND_SIZE || w.len == 0 {
          return false, 0;
        }
      } else if retransmitAtLoop != 0 {
        acks := acks / 2;
      }
      go := true;
    }

    method ResetAcks()
      requires Valid()
      modifies this`acks
      ensures Valid() && View() == old(View()).(acks := 0)
    {
      acks := 0;
    }

    method ArmTimer(now: int, fps: int)
      requires Valid()
      modifies this`retransmitAtLoop, this`rttRetransmit, this`rttTimeouts
      ensures Valid() && View() == RS.Arm(old(View()), now, fps)
    {
      if rttRetransmit > RS.MaxRetransmit(fps) {
        rttRetransmit := RS.MaxRetransmit(fps);
      }
      if retransmitAtLoop <= now {
        retransmitAtLoop := now + rttRetransmit;
        rttRetransmit := rttRetransmit * 2;
        rttTimeouts := rttTimeouts + 1;
      } else {
        retransmitAtLoop := now + rttRetransmit;
      }
    }

    lemma Fields()
      requires Valid()
      ensures View().acks == acks && View().offset == reliableOffset && View().c == c.Data() == c.buf[..c.len]
    {
    }

    /** The sending loop. */
    method Burst(maxTodo: nat, now: int, lastPacketOfFrame: bool, net: nat -> SendOutcome)
        returns (todo: nat, failed: bool, sent: seq<seq<byte>>, ghost packets: seq<RS.Packet>)
      requires Valid() && maxTodo <= c.len
      requires w.len < RS.MAX_RELIABLE_DATA_PACKET_SIZE - RS.MIN_SEND_SIZE
      modifies this`acks, w, w.buf
      ensures Valid()
      ensures var e := RS.Emit(old(View()), 0, maxTodo, 0, now, net);
              && todo == e.todo && failed == e.failed && packets == e.packets
              && View() == old(View()).(acks := e.acks)
      ensures sent == Datagrams(old(w.Data()), packets)
    {
      hide View, Datagram, Datagrams, RS.Emit, Behind;
      Fields();
      assert Datagrams(w.Data(), []) == [] by {
        DatagramsEmpty(w.Data());
      }
      var at, i, readBuf := 0, 0, c.buf[..c.len];
      ghost var k, frame := View(), w.Data();
      ghost var e := RS.Emit(k, 0, maxTodo, 0, now, net);
      EmitStarts(e);
      todo, failed, sent, packets := maxTodo, false, [], [];
      while i <= acks && todo > 0
        invariant Valid() && at + todo == maxTodo && |packets| == i
        invariant View() == k && c.Data() == readBuf
        invariant w.Data() == if i == 0 then frame else []
        invariant e == Behind(packets, RS.Emit(k, at, todo, i, now, net))
        invariant sent == Datagrams(frame, packets)
        invariant !failed
        decreases todo
      {
        var len := if todo > RS.MAX_RELIABLE_DATA_PACKET_SIZE then RS.MAX_RELIABLE_DATA_PACKET_SIZE else todo;
        Fields();
        var p := RS.Packet(reliableOffset + at, now, readBuf[at..at + len]);
        var n, datagram := SendOne(p, at, lastPacketOfFrame, net(i));
        Fields();
        EmitStep(k, at, todo, i, now, net, packets);
        if n < len {
          if net(i) == WouldBlock {
            ResetAcks();
          } else {
            failed := true;
          }
          return;
        }
        DatagramsGrow(frame, packets, p);
        sent := sent + datagram;
        packets := packets + [p];
        todo := todo - len;
        at := at + len;
        i := i + 1;
      }
      Fields();
      EmitDone(k, at, todo, i, now, net, packets);
    }

    /** What the Send_ functions do: print a packet into the reliable data buffer. */
    method WriteReliable(fmt: seq<Conv>, args: seq<Value>) returns (n: int)
      requires Valid() && Matches(fmt, args)
      modifies c`len, c.buf
      ensures Valid()
      ensures var r := Print(fmt, args, 0, Room(c.size, |old(View()).c|, false));
              if r.Printed? then View() == old(View()).(c := old(View()).c + r.bytes) && n == |r.bytes|
              else View() == old(View()) && n == -1
    {
      hide Print;
      n := Printf(c, fmt, args, false);
    }

    /** Hands the next piece of the setup structure to the stream, having looked for acknowledgements
        first when some of it is unacknowledged. */
    method HandleSetup(header: seq<Value>, mapData: seq<byte>, receipt: ReadOutcome, now: int, fps: int)
        returns (ret: int)
      requires Valid() && Matches(SETUP_FORMAT, header)
      requires setup == 0 || MAP_DATA_OFFSET <= setup <= MAP_DATA_OFFSET + |mapData|
      modifies this, r, w, c, r.buf, c.buf
      ensures Valid()
      ensures var h := SetupCall(old(View()), old(setup), header, mapData, receipt, now, fps);
              View() == h.k && setup == h.setup && ret == if h.k.state == RS.Free then -1 else 0
    {
      hide Input, Print, Matches, Piece;
      if state != RS.Setup {
        Destroy();
        return -1;
      }
      if setup == 0 {
        var n := WriteReliable(SETUP_FORMAT, header);
        if n <= 0 {
          Destroy();
          return -1;
        }
        setup := MAP_DATA_OFFSET;
      } else if setup < MAP_DATA_OFFSET + |mapData| {
        if c.len > 0 {
          InputStays(View(), receipt, now, fps);
          HandleInput(receipt, now, fps);
          if state == RS.Free {
            return -1;
          }
        }
      }
      HandPiece(mapData);
      return 0;
    }

    /** The next piece of the map data, as much as there is room for. */
    method HandPiece(mapData: seq<byte>)
      requires Valid() && state == RS.Setup
      requires MAP_DATA_OFFSET <= setup <= MAP_DATA_OFFSET + |mapData|
      modifies this`setup, this`state, this`drainState, c`len, c.buf
      ensures Valid()
      ensures var h := Piece(old(View()), old(setup) - MAP_DATA_OFFSET, mapData);
              View() == h.k && setup == h.setup
    {
      var size := MAP_DATA_OFFSET + |mapData|;
      if setup < size {
        var len: int := Min(c.size, SETUP_CHUNK) - c.len;
        if len <= 0 {
          return;
        }
        if len > size - setup {
          len := size - setup;
        }
        var written := c.Write(mapData[setup - MAP_DATA_OFFSET..setup - MAP_DATA_OFFSET + len]);
        if written != len {
          assert false;  // "sockbuf write setup error": the buffer has room
        }
        setup := setup + len;
      }
      if setup >= size {
        SetState(RS.Drain, RS.Login);
      }
    }

    /** Conn_set_state */
    method SetState(newState: RS.ConnState, newDrainState: RS.ConnState)
      requires Valid()
      modifies this`state, this`drainState
      ensures Valid() && View() == old(View()).(state := newState, drainState := newDrainState)
    {
      state, drainState := newState, newDrainState;
    }

    method Estimate(rtt: int, fps: int)
      requires Valid()
      modifies this`rttSmoothed, this`rttDev, this`rttRetransmit
      ensures Valid() && View() == RS.Estimate(old(View()), rtt, fps)
    {
      if 0 < rtt <= fps + 1 {
        if rttSmoothed == 0 {
          rttSmoothed := rtt * 8;
        }
        var delta := rtt - rttSmoothed / 8;
        rttSmoothed := rttSmoothed + delta;
        if delta < 0 {
          delta := -delta;
        }
        rttDev := rttDev + (delta - rttDev / 4);
        rttRetransmit := (rttSmoothed / 4 + rttDev) / 2;
        if rttRetransmit < RS.MinRetransmit(fps) {
          rttRetransmit := RS.MinRetransmit(fps);
        }
      }
    }

    method ReceiveAck(now: int, fps: int) returns (ret: int)
      requires Valid()
      modifies this, r, w, c, c.buf
      ensures Valid()
      ensures var scan := Scan(ACK_FORMAT, 0, old(r.Data()), old(r.ptr));
              if scan.Scanned? && scan.values[0] == Num(PKT_ACK) then
                var e := RS.ReceiveAck(old(View()), scan.values[1].v, scan.values[2].v, now, fps);
                && View() == e.k && ret == e.ret
                && (ret != -1 ==> r.Data() == old(r.Data()) && r.ptr == old(r.ptr) + scan.used && setup == old(setup))
              else
                View() == RS.DEAD && ret == -1
      ensures ret == -1 || ret == 1
      ensures ret == -1 ==> View() == RS.DEAD && setup == 0
    {
      hide Scan, RS.Estimate, RS.Cut, RS.Settle;
      ScanTypes(old(r.Data()), old(r.ptr));
      var n, values := Scanf(r, ACK_FORMAT);
      if n <= 0 || values[0].v != PKT_ACK {
        Destroy();
        return -1;
      }
      var rel := values[1].v;
      Estimate(now - values[2].v, fps);
      var diff := rel - reliableOffset;
      if diff > c.len {
        Destroy();
        return -1;
      } else if diff <= 0 {
        return 1;
      }
      CutOff(diff);
      Settle();
      return 1;
    }

    /** One packet of the input: 1 to go on, 0 to drop the rest, -1 when the connection is gone. */
    method HearPacket(now: int, fps: int) returns (ret: int)
      requires Valid() && r.ptr < r.len
      modifies this, r, w, c, c.buf
      ensures Valid()
      ensures var k, data, at := old(View()), old(r.Data()), old(r.ptr);
              if data[at] as int == PKT_ACK then
                var h := AckHeard(k, data, at, now, fps);
                if h.Gone? then View() == RS.DEAD && ret == -1
                else View() == h.k && ret == 1 && r.Data() == data && r.ptr == at + h.used
              else if data[at] in {PKT_VERIFY, RS.PKT_PLAY, PKT_SHAPE} then View() == k && ret == 0
              else View() == RS.DEAD && ret == -1
      ensures setup == if ret == -1 then 0 else old(setup)
    {
      hide Scan, RS.ReceiveAck;
      var kind := r.buf[r.ptr];
      if kind as int == PKT_ACK {
        ScanTypes(r.Data(), r.ptr);
        ret := ReceiveAck(now, fps);
      } else if kind == PKT_VERIFY || kind == RS.PKT_PLAY || kind == PKT_SHAPE {
        r.ptr := r.len;
        ret := 0;
      } else {
        Destroy();
        ret := -1;
      }
    }

    /** Handle_input of a connection that drains or is set up. */
    method HandleInput(receipt: ReadOutcome, now: int, fps: int)
      requires Valid() && state in {RS.Drain, RS.Setup}
      modifies this, r, w, c, r.buf, c.buf
      ensures Valid() && View() == Input(old(View()), receipt, now, fps)
      ensures old(state) == RS.Setup ==> setup == if state == RS.Free then 0 else old(setup)
    {
      hide View, Heard, AckHeard;
      ghost var k := View();
      HeardEnd(k, [], now, fps);
      var n := ReadInput(receipt);
      if n == -1 {
        Destroy();
        StateIs();
        return;
      }
      ghost var data := r.Data();
      while r.ptr < r.len
        invariant Valid() && r.Data() == data && setup == old(setup) && (old(state) == RS.Setup ==> state == RS.Setup)
        invariant Heard(k, data, 0, now, fps) == Heard(View(), data, r.ptr, now, fps)
        decreases r.len - r.ptr
      {
        HeardStep(View(), data, r.ptr, now, fps);
        StateIs();
        if state == RS.Setup { AckHeardStays(View(), data, r.ptr, now, fps); }
        var ret := HearPacket(now, fps);
        StateIs();
        if ret == -1 {
          return;
        }
        if ret == 0 {
          DropInput();
          return;
        }
      }
      HeardEnd(View(), data, now, fps);
    }

    lemma StateIs()
      requires Valid()
      ensures View().state == state
    {
    }

    method ReadInput(receipt: ReadOutcome) returns (n: int)
      requires Valid()
      modifies r, r.buf
      ensures Valid() && View() == old(View()) && r.ptr == 0 && setup == old(setup) && state == old(state)
      ensures n == -1 <==> receipt == ReadFailed
      ensures n != -1 ==> r.Data() == if receipt.Got? then Sockbuf.Cut(receipt.bytes, SERVER_RECV_SIZE) else []
    {
      hide Sockbuf.Cut;
      r.Clear();
      n := r.Read(receipt);
    }

    method DropInput()
      requires Valid()
      modifies r
      ensures Valid() && View() == old(View()) && setup == old(setup) && state == old(state)
    {
      r.Clear();
    }

    method CutOff(diff: int)
      requires Valid() && 0 < diff <= c.len
      modifies this`reliableOffset, this`acks, c, c.buf
      ensures Valid() && View() == RS.Cut(old(View()), diff)
    {
      c.Advance(diff);
      reliableOffset := reliableOffset + diff;
      var n := (diff + 512 - 1) / 512;
      if n > acks {
        acks := n;
      } else {
        acks := acks + 1;
      }
    }

    method Settle()
      requires Valid()
      modifies this`retransmitAtLoop, this`state, this`drainState, this`rttTimeouts
      ensures Valid() && View() == RS.Settle(old(View()))
    {
      if reliableOffset >= reliableUnsent {
        retransmitAtLoop := 0;
        if state == RS.Drain {
          SetState(drainState, drainState);
        }
      }
      if state == RS.Ready
         && (c.len <= 0 || (c.buf[0] != RS.PKT_REPLY && c.buf[0] != RS.PKT_PLAY
                            && c.buf[0] != RS.PKT_SUCCESS && c.buf[0] != RS.PKT_FAILURE))
      {
        SetState(drainState, drainState);
      }
      rttTimeouts := 0;
    }
  }

  /** While the setup goes on, no acknowledgement leads to another state. */
  lemma InputStays(k: RS.Conn, receipt: ReadOutcome, now: int, fps: int)
    requires k.state == RS.Setup
    ensures var u := Input(k, receipt, now, fps); u == RS.DEAD || u.state == RS.Setup
  {
    if receipt.Got? {
      HeardStays(k, Sockbuf.Cut(receipt.bytes, SERVER_RECV_SIZE), 0, now, fps);
    }
  }

  lemma {:induction false} HeardStays(k: RS.Conn, data: seq<byte>, at: nat, now: int, fps: int)
    requires k.state == RS.Setup && at <= |data|
    ensures var u := Heard(k, data, at, now, fps); u == RS.DEAD || u.state == RS.Setup
    decreases |data| - at
  {
    hide AckHeard;
    if at < |data| && data[at] as int == PKT_ACK && AckHeard(k, data, at, now, fps).Alive? {
      var h := AckHeard(k, data, at, now, fps);
      AckHeardStays(k, data, at, now, fps);
      HeardStays(h.k, data, at + h.used, now, fps);
    }
  }

  lemma AckHeardStays(k: RS.Conn, data: seq<byte>, at: nat, now: int, fps: int)
    requires k.state == RS.Setup && at <= |data|
    ensures var h := AckHeard(k, data, at, now, fps); h.Alive? ==> h.k.state == RS.Setup
  {
    hide RS.ReceiveAck, Scan;
    var scan := Scan(ACK_FORMAT, 0, data, at);
    ScanTypes(data, at);
    if scan.Scanned? {
      AckStays(k, scan.values[1].v, scan.values[2].v, now, fps);
    }
  }

  lemma AckStays(k: RS.Conn, rel: int, loops: int, now: int, fps: int)
    requires k.state == RS.Setup
    ensures var e := RS.ReceiveAck(k, rel, loops, now, fps); e.ret != -1 ==> e.k.state == RS.Setup
  {
  }

  lemma HeardStep(k: RS.Conn, data: seq<byte>, at: nat, now: int, fps: int)
    requires at < |data|
    ensures Heard(k, data, at, now, fps) ==
            if data[at] as int == PKT_ACK then
              match AckHeard(k, data, at, now, fps)
              case Gone => RS.DEAD
              case Alive(k', used) => Heard(k', data, at + used, now, fps)
            else if data[at] in {PKT_VERIFY, RS.PKT_PLAY, PKT_SHAPE} then k
            else RS.DEAD
  {
    hide AckHeard;
  }

  lemma HeardEnd(k: RS.Conn, data: seq<byte>, now: int, fps: int)
    ensures Heard(k, data, |data|, now, fps) == k
  {
  }

  /** A burst of which some packets are out already. */
  function Behind(packets: seq<RS.Packet>, e: RS.Emitted): RS.Emitted {
    e.(packets := packets + e.packets)
  }

  lemma EmitStarts(e: RS.Emitted)
    ensures Behind([], e) == e
  {
    assert [] + e.packets == e.packets;
  }

  lemma EmitStep(k: RS.Conn, at: nat, todo: nat, i: nat, now: int, net: nat -> SendOutcome, packets: seq<RS.Packet>)
    requires at + todo <= |k.c| && i <= k.acks && todo > 0
    ensures var len := Min(todo, RS.MAX_RELIABLE_DATA_PACKET_SIZE);
            Behind(packets, RS.Emit(k, at, todo, i, now, net)) ==
            match net(i)
            case Sent =>
              Behind(packets + [RS.Packet(k.offset + at, now, k.c[at..at + len])],
                     RS.Emit(k, at + len, todo - len, i + 1, now, net))
            case WouldBlock => RS.Emitted(packets, todo, 0, false)
            case _ => RS.Emitted(packets, todo, k.acks, true)
  {
    if net(i) == Sent {
      var len := Min(todo, RS.MAX_RELIABLE_DATA_PACKET_SIZE);
      var p := RS.Packet(k.offset + at, now, k.c[at..at + len]);
      var rest := RS.Emit(k, at + len, todo - len, i + 1, now, net).packets;
      assert packets + ([p] + rest) == packets + [p] + rest;
    } else {
      assert packets + [] == packets;
    }
  }

  lemma EmitDone(k: RS.Conn, at: nat, todo: nat, i: nat, now: int, net: nat -> SendOutcome, packets: seq<RS.Packet>)
    requires at + todo <= |k.c| && (i > k.acks || todo == 0)
    ensures Behind(packets, RS.Emit(k, at, todo, i, now, net)) == RS.Emitted(packets, todo, k.acks, false)
  {
    assert packets + [] == packets;
  }

  lemma ScanTypes(data: seq<byte>, at: nat)
    requires at <= |data|
    ensures var s := Scan(ACK_FORMAT, 0, data, at);
            s.Scanned? ==> |s.values| == 3 && forall i :: 0 <= i < 3 ==> s.values[i].Num?
  {
  }
}
