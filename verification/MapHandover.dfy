/** The setup of src/server/netserver.cpp over many calls: Handle_setup hands the map to the reliable
    stream piece by piece while acknowledgements come in and packets go out in between. */
module MapHandover {
  import opened Arithmetic
  import opened Sockbufs
  import opened PacketCodec
  import opened Connections
  import RS = ReliableStream

  /** The system, how much of the setup structure has been handed over, and what it began with. */
  datatype Setting = Setting(s: RS.System, setup: nat, first: seq<byte>)

  /** A turn of the server in CONN_SETUP, or anything else that happens to the connection.  Nobody
      else appends to the stream or sets the state meanwhile. */
  datatype Turn = Handle | Other(step: RS.Step)

  ghost predicate Allowed(x: Setting, turn: Turn) {
    match turn
    case Handle => x.s.k.state != RS.Free
    case Other(step) => RS.Enabled(x.s, step) && !step.Append? && !step.Enter?
  }

  predicate Within(setup: nat, mapData: seq<byte>) {
    setup == 0 || MAP_DATA_OFFSET <= setup <= MAP_DATA_OFFSET + |mapData|
  }

  ghost function After(x: Setting, turn: Turn, header: seq<Value>, mapData: seq<byte>, fps: int): (y: Setting)
    requires Allowed(x, turn) && Matches(SETUP_FORMAT, header) && Within(x.setup, mapData)
    ensures Within(y.setup, mapData)
  {
    match turn
    case Handle =>
      var h := HandOver(x.s.k, x.setup, header, mapData);
      Setting(x.s.(k := h.k, stream := x.s.stream + h.added), h.setup,
              if x.setup == 0 then HeaderOf(header, |x.s.k.c|) else x.first)
    case Other(step) =>
      x.(s := RS.Next(x.s, step, fps))
  }

  /** The header as it was printed into a buffer that held at most so many bytes. */
  ghost predicate IsHeader(first: seq<byte>, header: seq<Value>, most: nat)
    requires Matches(SETUP_FORMAT, header)
  {
    exists len: nat :: len <= most && first == HeaderOf(header, len)
  }

  /** What was appended since the setup began is the header and then the map data in order, and
      draining starts exactly when the last of it has been handed over. */
  ghost predicate Handed(x: Setting, before: seq<byte>, most: nat, header: seq<Value>, mapData: seq<byte>)
    requires Matches(SETUP_FORMAT, header)
  {
    && Within(x.setup, mapData)
    && if x.setup == 0 then
         x.s.k.state == RS.Setup && x.s.stream == before && |x.s.k.c| <= most
       else
         && x.first != [] && IsHeader(x.first, header, most)
         && x.s.stream == before + x.first + mapData[..x.setup - MAP_DATA_OFFSET]
         && (if x.setup < MAP_DATA_OFFSET + |mapData| then x.s.k.state == RS.Setup
             else x.s.k.state in {RS.Drain, RS.Login})
         && (x.s.k.state == RS.Drain ==> x.s.k.drainState == RS.Login)
  }

  ghost predicate Going(x: Setting, before: seq<byte>, most: nat, header: seq<Value>, mapData: seq<byte>, fps: int)
    requires Matches(SETUP_FORMAT, header)
  {
    && RS.Inv(x.s, fps) && Within(x.setup, mapData)
    && (x.s.k.state != RS.Free ==> Handed(x, before, most, header, mapData))
  }

  /** The header is printed whole when it is shorter than the room. */
  lemma HeaderWhole(first: seq<byte>, header: seq<Value>, most: nat)
    requires Representable(SETUP_FORMAT, header) && IsHeader(first, header, most)
    requires |Wire(SETUP_FORMAT, header, 0)| < Room(RS.MAX_SOCKBUF_SIZE, most, false)
    ensures first == Wire(SETUP_FORMAT, header, 0)
  {
    hide Print, Wire;
    var len: nat :| len <= most && first == HeaderOf(header, len);
    PrintsWhole(SETUP_FORMAT, header, 0, Room(RS.MAX_SOCKBUF_SIZE, len, false));
  }

  lemma HeaderFits(header: seq<Value>, len: nat)
    requires Matches(SETUP_FORMAT, header)
    ensures HeaderOf(header, len) != [] ==> len + |HeaderOf(header, len)| <= RS.MAX_SOCKBUF_SIZE
  {
    hide Print;
    PrintNeverTooLong(SETUP_FORMAT, header, 0, Room(RS.MAX_SOCKBUF_SIZE, len, false));
  }

  /** The bytes of one call and where it leaves the connection. */
  lemma OneCall(x: Setting, before: seq<byte>, most: nat, header: seq<Value>, mapData: seq<byte>, fps: int)
    requires Matches(SETUP_FORMAT, header) && Handed(x, before, most, header, mapData) && x.s.k.state == RS.Setup
    requires HandOver(x.s.k, x.setup, header, mapData).k.state != RS.Free
    ensures var h := HandOver(x.s.k, x.setup, header, mapData);
            && Within(h.setup, mapData)
            && (|x.s.k.c| <= RS.MAX_SOCKBUF_SIZE ==> |x.s.k.c| + |h.added| <= RS.MAX_SOCKBUF_SIZE)
            && Handed(After(x, Handle, header, mapData, fps), before, most, header, mapData)
            && h.k == if h.k.state == RS.Drain
                      then x.s.k.(c := x.s.k.c + h.added, state := RS.Drain, drainState := RS.Login)
                      else x.s.k.(c := x.s.k.c + h.added)
  {
    hide HeaderOf, Print;
    HeaderFits(header, |x.s.k.c|);
  }

  lemma CallKeeps(x: Setting, before: seq<byte>, most: nat, header: seq<Value>, mapData: seq<byte>, fps: int)
    requires fps >= 2 && Matches(SETUP_FORMAT, header) && Going(x, before, most, header, mapData, fps)
    requires Allowed(x, Handle)
    ensures Going(After(x, Handle, header, mapData, fps), before, most, header, mapData, fps)
  {
    hide RS.Inv, HeaderOf, Print, Handed, HandOver;
    var h := HandOver(x.s.k, x.setup, header, mapData);
    OverOrGone(x.s.k, x.setup, header, mapData);
    if h.k.state != RS.Free {
      OneCall(x, before, most, header, mapData, fps);
      NotOverfull(x.s, fps);
      AppendedKeeps(x.s, h, fps);
    } else {
      RS.StepKeeps(x.s, RS.Destroy, fps);
      assert x.s.stream + [] == x.s.stream;
    }
  }

  lemma OverOrGone(k: RS.Conn, setup: nat, header: seq<Value>, mapData: seq<byte>)
    requires Matches(SETUP_FORMAT, header) && Within(setup, mapData) && k.state != RS.Free
    ensures var h := HandOver(k, setup, header, mapData);
            h.k.state == RS.Free ==> h == Handing(RS.DEAD, 0, [])
    ensures HandOver(k, setup, header, mapData).k.state != RS.Free ==> k.state == RS.Setup
  {
    hide HeaderOf;
  }

  lemma NotOverfull(s: RS.System, fps: int)
    requires RS.Inv(s, fps) && s.k.state != RS.Free
    ensures |s.k.c| <= RS.MAX_SOCKBUF_SIZE
  {
  }

  lemma AppendedKeeps(s: RS.System, h: Handing, fps: int)
    requires fps >= 2 && RS.Inv(s, fps) && s.k.state == RS.Setup && |s.k.c| + |h.added| <= RS.MAX_SOCKBUF_SIZE
    requires h.k == if h.k.state == RS.Drain
                    then s.k.(c := s.k.c + h.added, state := RS.Drain, drainState := RS.Login)
                    else s.k.(c := s.k.c + h.added)
    ensures RS.Inv(s.(k := h.k, stream := s.stream + h.added), fps)
  {
    hide RS.Inv;
    RS.StepKeeps(s, RS.Append(h.added), fps);
    var t := RS.Next(s, RS.Append(h.added), fps);
    if h.k.state == RS.Drain {
      RS.StepKeeps(t, RS.Enter(RS.Drain, RS.Login), fps);
    }
  }

  /** Steps of the stream append nothing, and lead from draining to the login or to the end. */
  lemma StepLeaves(s: RS.System, step: RS.Step, fps: int)
    requires RS.Enabled(s, step) && s.k.state != RS.Free && !step.Append? && !step.Enter?
    ensures var k := RS.Next(s, step, fps).k;
            || k.state == RS.Free
            || (k.state == s.k.state && k.drainState == s.k.drainState && |k.c| <= |s.k.c|)
            || (s.k.state in {RS.Drain, RS.Ready} && k.state == k.drainState == s.k.drainState)
    ensures RS.Next(s, step, fps).stream == s.stream
  {
    hide RS.Emit, RS.Estimate;
    if step.TakeAck? {
      RS.EstimateFields(s.k, s.now - s.acks[step.i].loops, fps);
    }
  }

  lemma OtherKeeps(x: Setting, step: RS.Step, before: seq<byte>, most: nat, header: seq<Value>, mapData: seq<byte>,
                   fps: int)
    requires fps >= 2 && Matches(SETUP_FORMAT, header) && Going(x, before, most, header, mapData, fps)
    requires Allowed(x, Other(step))
    ensures Going(After(x, Other(step), header, mapData, fps), before, most, header, mapData, fps)
  {
    hide RS.Inv, RS.Next, RS.Enabled, IsHeader;
    RS.StepKeeps(x.s, step, fps);
    if x.s.k.state == RS.Free {
      DeadStays(x.s, step, fps);
    } else {
      StepLeaves(x.s, step, fps);
    }
  }

  lemma DeadStays(s: RS.System, step: RS.Step, fps: int)
    requires RS.Enabled(s, step) && s.k.state == RS.Free
    ensures RS.Next(s, step, fps).k == s.k
  {
  }

  // ---- whole runs

  ghost predicate Legal(x: Setting, turns: seq<Turn>, header: seq<Value>, mapData: seq<byte>, fps: int)
    requires Matches(SETUP_FORMAT, header) && Within(x.setup, mapData)
    decreases |turns|
  {
    turns != [] ==>
        Allowed(x, turns[0]) && Legal(After(x, turns[0], header, mapData, fps), turns[1..], header, mapData, fps)
  }

  ghost function Outcome(x: Setting, turns: seq<Turn>, header: seq<Value>, mapData: seq<byte>, fps: int): (y: Setting)
    requires Matches(SETUP_FORMAT, header) && Within(x.setup, mapData) && Legal(x, turns, header, mapData, fps)
    ensures Within(y.setup, mapData)
    decreases |turns|
  {
    if turns == [] then x
    else Outcome(After(x, turns[0], header, mapData, fps), turns[1..], header, mapData, fps)
  }

  lemma {:induction false} HandoverKeeps(x: Setting, turns: seq<Turn>, before: seq<byte>, most: nat,
                                         header: seq<Value>, mapData: seq<byte>, fps: int)
    requires fps >= 2 && Matches(SETUP_FORMAT, header) && Going(x, before, most, header, mapData, fps)
    requires Legal(x, turns, header, mapData, fps)
    ensures Going(Outcome(x, turns, header, mapData, fps), before, most, header, mapData, fps)
    decreases |turns|
  {
    hide RS.Next, RS.Enabled, RS.Inv, Handed, HandOver;
    if turns != [] {
      if turns[0].Handle? {
        CallKeeps(x, before, most, header, mapData, fps);
      } else {
        OtherKeeps(x, turns[0].step, before, most, header, mapData, fps);
      }
      HandoverKeeps(After(x, turns[0], header, mapData, fps), turns[1..], before, most, header, mapData, fps);
    }
  }

  /** Over any number of calls, with acknowledgements, losses and retransmissions in between: as
      long as the connection lives, the bytes appended are the header, as it was printed, and then
      the map data in order, draining starts exactly when the last of it is handed over, and what
      the client holds is a prefix of all that. */
  lemma MapIsHandedOver(s: RS.System, turns: seq<Turn>, header: seq<Value>, mapData: seq<byte>, fps: int)
    requires fps >= 2 && RS.Inv(s, fps) && s.k.state == RS.Setup && Matches(SETUP_FORMAT, header)
    requires Legal(Setting(s, 0, []), turns, header, mapData, fps)
    ensures var y := Outcome(Setting(s, 0, []), turns, header, mapData, fps);
            y.s.got <= y.s.stream && (y.s.k.state != RS.Free ==> Handed(y, s.stream, |s.k.c|, header, mapData))
  {
    hide RS.Linked, RS.Timed, Outcome, Legal, HeaderOf;
    assert Handed(Setting(s, 0, []), s.stream, |s.k.c|, header, mapData);
    HandoverKeeps(Setting(s, 0, []), turns, s.stream, |s.k.c|, header, mapData, fps);
  }

  /** And the header is there whole if it is representable and shorter than the room there was. */
  lemma HeaderIsWhole(s: RS.System, turns: seq<Turn>, header: seq<Value>, mapData: seq<byte>, fps: int)
    requires fps >= 2 && RS.Inv(s, fps) && s.k.state == RS.Setup && Representable(SETUP_FORMAT, header)
    requires |Wire(SETUP_FORMAT, header, 0)| < Room(RS.MAX_SOCKBUF_SIZE, |s.k.c|, false)
    requires Legal(Setting(s, 0, []), turns, header, mapData, fps)
    ensures var y := Outcome(Setting(s, 0, []), turns, header, mapData, fps);
            y.s.k.state != RS.Free && y.setup > 0 ==> y.first == Wire(SETUP_FORMAT, header, 0)
  {
    hide RS.Inv, Outcome, Legal, HeaderOf, Wire, IsHeader;
    MapIsHandedOver(s, turns, header, mapData, fps);
    var y := Outcome(Setting(s, 0, []), turns, header, mapData, fps);
    if y.s.k.state != RS.Free && y.setup > 0 {
      HeaderWhole(y.first, header, |s.k.c|);
    }
  }

  // ---- the map arrives

  /** A call in the middle of the setup hands over as much of the map as 4096 bytes of buffer leave room for,
      and the last of it begins the draining. */
  lemma CallAppends(x: Setting, header: seq<Value>, mapData: seq<byte>, fps: int)
    requires Matches(SETUP_FORMAT, header) && Within(x.setup, mapData) && x.setup > 0 && x.s.k.state == RS.Setup
    ensures var n := MAP_DATA_OFFSET + |mapData| - x.setup;
            var m := Min(n, Max(0, 4096 - |x.s.k.c|));
            var piece := mapData[x.setup - MAP_DATA_OFFSET..x.setup - MAP_DATA_OFFSET + m];
            var y := After(x, Handle, header, mapData, fps);
            && y.s.k.c == x.s.k.c + piece && y.s.stream == x.s.stream + piece && y.setup == x.setup + m
            && y.s.k.state == (if m == n then RS.Drain else RS.Setup) && y.s.now == x.s.now && y.first == x.first
  {
    hide HeaderOf, Piece, Matches;
    PieceIs(x.s.k, x.setup - MAP_DATA_OFFSET, mapData);
  }

  lemma PieceIs(k: RS.Conn, at: nat, mapData: seq<byte>)
    requires at <= |mapData| && k.state == RS.Setup
    ensures var m := Min(|mapData| - at, Max(0, 4096 - |k.c|));
            var h := Piece(k, at, mapData);
            && h.added == mapData[at..at + m] && h.setup == MAP_DATA_OFFSET + at + m
            && h.k.c == k.c + mapData[at..at + m]
            && h.k.state == (if at + m == |mapData| then RS.Drain else RS.Setup)
  {
  }

  /** The first call puts the header before that. */
  lemma FirstCallAppends(x: Setting, header: seq<Value>, mapData: seq<byte>, fps: int)
    requires Matches(SETUP_FORMAT, header) && x.setup == 0 && x.s.k.state == RS.Setup
    requires HeaderOf(header, |x.s.k.c|) != []
    ensures var first := HeaderOf(header, |x.s.k.c|);
            var m := Min(|mapData|, Max(0, 4096 - |x.s.k.c| - |first|));
            var y := After(x, Handle, header, mapData, fps);
            && y.s.k.c == x.s.k.c + (first + mapData[..m]) && y.s.stream == x.s.stream + (first + mapData[..m])
            && y.setup == MAP_DATA_OFFSET + m
            && y.s.k.state == (if m == |mapData| then RS.Drain else RS.Setup) && y.s.now == x.s.now && y.first == first
  {
    hide HeaderOf, Piece, Matches;
    var first := HeaderOf(header, |x.s.k.c|);
    PieceIs(x.s.k.(c := x.s.k.c + first), 0, mapData);
    var m := Min(|mapData|, Max(0, 4096 - |x.s.k.c| - |first|));
    assert x.s.k.c + first + mapData[0..m] == x.s.k.c + (first + mapData[..m]);
  }

  function Others(steps: seq<RS.Step>): seq<Turn> {
    if steps == [] then [] else [Other(steps[0])] + Others(steps[1..])
  }

  lemma {:induction false} OthersAre(x: Setting, steps: seq<RS.Step>, header: seq<Value>, mapData: seq<byte>, fps: int)
    requires Matches(SETUP_FORMAT, header) && Within(x.setup, mapData)
    requires RS.Feasible(x.s, steps, fps) && forall step <- steps :: RS.Bystanding(step)
    ensures Legal(x, Others(steps), header, mapData, fps)
    ensures Outcome(x, Others(steps), header, mapData, fps) == x.(s := RS.Exec(x.s, steps, fps))
    decreases |steps|
  {
    hide RS.Next, RS.Enabled, HandOver;
    if steps != [] {
      assert steps[0] in steps;
      var turns := Others(steps);
      assert turns[0] == Other(steps[0]) && turns[1..] == Others(steps[1..]);
      OthersAre(x.(s := RS.Next(x.s, steps[0], fps)), steps[1..], header, mapData, fps);
    }
  }

  lemma {:induction false} TurnsJoin(x: Setting, a: seq<Turn>, b: seq<Turn>, header: seq<Value>, mapData: seq<byte>,
                                     fps: int)
    requires Matches(SETUP_FORMAT, header) && Within(x.setup, mapData) && Legal(x, a, header, mapData, fps)
    requires Legal(Outcome(x, a, header, mapData, fps), b, header, mapData, fps)
    ensures Legal(x, a + b, header, mapData, fps)
    ensures Outcome(x, a + b, header, mapData, fps)
            == Outcome(Outcome(x, a, header, mapData, fps), b, header, mapData, fps)
    decreases |a|
  {
    hide After, Allowed;
    if a == [] {
      assert a + b == b;
    } else {
      assert (a + b)[1..] == a[1..] + b;
      TurnsJoin(After(x, a[0], header, mapData, fps), a[1..], b, header, mapData, fps);
    }
  }

  /** The client holds everything that has been appended so far. */
  lemma AllDelivered(x: Setting, before: seq<byte>, most: nat, header: seq<Value>, mapData: seq<byte>, fps: int)
      returns (turns: seq<Turn>)
    requires fps >= 2 && Matches(SETUP_FORMAT, header) && Going(x, before, most, header, mapData, fps)
    requires x.s.k.state != RS.Free
    ensures Legal(x, turns, header, mapData, fps)
    ensures var y := Outcome(x, turns, header, mapData, fps);
            && Going(y, before, most, header, mapData, fps) && y.s.k.state != RS.Free
            && y.setup == x.setup && y.first == x.first && y.s.stream == y.s.got == x.s.stream && y.s.k.c == []
            && y.s.now <= x.s.now + RS.Fills(|x.s.k.c|) * (fps + 2)
  {
    hide RS.Inv, RS.Next, RS.Enabled, Handed, Legal, Outcome;
    var steps := RS.EventuallyDelivered(x.s, fps);
    turns := Others(steps);
    OthersAre(x, steps, header, mapData, fps);
    HandoverKeeps(x, turns, before, most, header, mapData, fps);
    RS.BufferIsRest(RS.Exec(x.s, steps, fps), fps);
  }

  lemma FillsAdd(n: nat, m: nat)
    requires m == Min(n, 4096)
    ensures RS.Fills(m) + RS.Fills(n - m) == RS.Fills(n)
  {
  }

  lemma HandedState(x: Setting, before: seq<byte>, most: nat, header: seq<Value>, mapData: seq<byte>, fps: int)
    requires Matches(SETUP_FORMAT, header) && Going(x, before, most, header, mapData, fps)
    requires x.s.k.state != RS.Free && x.setup > 0
    ensures x.s.stream == before + x.first + mapData[..x.setup - MAP_DATA_OFFSET]
    ensures if x.setup < MAP_DATA_OFFSET + |mapData| then x.s.k.state == RS.Setup
            else x.s.k.state in {RS.Drain, RS.Login}
  {
    hide RS.Inv, IsHeader;
  }

  /** From every state of the setup the server can hand over the rest of the map and the client get it all, within
      fps + 2 loops for each packet that fills, by calls of Handle_setup and retransmissions that get through. */
  lemma {:induction false} RestArrives(x: Setting, before: seq<byte>, most: nat, header: seq<Value>, mapData: seq<byte>,
                                       fps: int) returns (turns: seq<Turn>)
    requires fps >= 2 && Matches(SETUP_FORMAT, header) && Going(x, before, most, header, mapData, fps)
    requires x.s.k.state != RS.Free && x.setup > 0
    ensures Legal(x, turns, header, mapData, fps)
    ensures var y := Outcome(x, turns, header, mapData, fps);
            && y.s.k.state in {RS.Drain, RS.Login} && y.s.got == before + x.first + mapData && y.s.k.c == []
            && y.s.now <= x.s.now
               + (RS.Fills(|x.s.k.c|) + RS.Fills(MAP_DATA_OFFSET + |mapData| - x.setup)) * (fps + 2)
    decreases MAP_DATA_OFFSET + |mapData| - x.setup
  {
    hide RS.Inv, Handed, Legal, Outcome, After, RS.Fills;
    turns := AllDelivered(x, before, most, header, mapData, fps);
    var y := Outcome(x, turns, header, mapData, fps);
    HandedState(y, before, most, header, mapData, fps);
    var n := MAP_DATA_OFFSET + |mapData| - x.setup;
    if n > 0 {
      var m := Min(n, 4096);
      CallAppends(y, header, mapData, fps);
      CallKeeps(y, before, most, header, mapData, fps);
      var z := After(y, Handle, header, mapData, fps);
      var rest := RestArrives(z, before, most, header, mapData, fps);
      OneTurn(y, rest, header, mapData, fps);
      TurnsJoin(x, turns, [Handle] + rest, header, mapData, fps);
      FillsAdd(n, m);
      Distribute(RS.Fills(|x.s.k.c|), RS.Fills(m), RS.Fills(n - m), fps + 2);
      turns := turns + ([Handle] + rest);
    } else {
      assert mapData[..|mapData|] == mapData;
    }
  }

  lemma Distribute(a: nat, b: nat, c: nat, m: int)
    ensures a * m + (b + c) * m == (a + (b + c)) * m
  {
  }

  lemma OneTurn(x: Setting, rest: seq<Turn>, header: seq<Value>, mapData: seq<byte>, fps: int)
    requires Matches(SETUP_FORMAT, header) && Within(x.setup, mapData) && Allowed(x, Handle)
    requires Legal(After(x, Handle, header, mapData, fps), rest, header, mapData, fps)
    ensures Legal(x, [Handle] + rest, header, mapData, fps)
    ensures Outcome(x, [Handle] + rest, header, mapData, fps)
            == Outcome(After(x, Handle, header, mapData, fps), rest, header, mapData, fps)
  {
    assert ([Handle] + rest)[1..] == rest;
  }

  lemma FillsSplit(a: nat, b: nat)
    ensures RS.Fills(a) + RS.Fills(b) <= RS.Fills(a + b) + 1
  {
  }

  lemma Scale(a: nat, b: nat, m: nat)
    requires a <= b
    ensures a * m <= b * m
  {
    assert b * m == a * m + (b - a) * m;
  }

  /** From the beginning of the setup the whole map can get to the client, behind the header. */
  lemma MapArrives(s: RS.System, header: seq<Value>, mapData: seq<byte>, fps: int) returns (turns: seq<Turn>)
    requires fps >= 2 && RS.Inv(s, fps) && s.k.state == RS.Setup && Matches(SETUP_FORMAT, header)
    requires HeaderOf(header, |s.k.c|) != []
    ensures Legal(Setting(s, 0, []), turns, header, mapData, fps)
    ensures var y, first := Outcome(Setting(s, 0, []), turns, header, mapData, fps), HeaderOf(header, |s.k.c|);
            && y.s.k.state in {RS.Drain, RS.Login} && y.s.got == s.stream + first + mapData && y.s.k.c == []
            && y.s.now <= s.now + (RS.Fills(|s.k.c| + |first| + |mapData|) + 1) * (fps + 2)
  {
    hide RS.Inv, HeaderOf, Legal, Outcome, After, RS.Fills;
    var x := Setting(s, 0, []);
    assert Handed(x, s.stream, |s.k.c|, header, mapData);
    FirstCallAppends(x, header, mapData, fps);
    CallKeeps(x, s.stream, |s.k.c|, header, mapData, fps);
    var y := After(x, Handle, header, mapData, fps);
    var rest := RestArrives(y, s.stream, |s.k.c|, header, mapData, fps);
    OneTurn(x, rest, header, mapData, fps);
    turns := [Handle] + rest;
    var n := MAP_DATA_OFFSET + |mapData| - y.setup;
    FillsSplit(|y.s.k.c|, n);
    Scale(RS.Fills(|y.s.k.c|) + RS.Fills(n), RS.Fills(|y.s.k.c| + n) + 1, fps + 2);
  }

  // ---- the acknowledgements that a call finds are turns of their own

  function AckValues(a: RS.Ack): (args: seq<Value>)
    ensures Matches(ACK_FORMAT, args)
  {
    [Num(PKT_ACK), Num(a.rel), Num(a.loops)]
  }

  /** A datagram of acknowledgements. */
  function AckWire(acks: seq<RS.Ack>): seq<byte> {
    if acks == [] then [] else Wire(ACK_FORMAT, AckValues(acks[0]), 0) + AckWire(acks[1..])
  }

  ghost predicate InWord(acks: seq<RS.Ack>) {
    forall a <- acks :: InRange(LD, a.rel) && InRange(LD, a.loops)
  }

  /** What those acknowledgements do one after the other. */
  function Received(k: RS.Conn, acks: seq<RS.Ack>, now: int, fps: int): RS.Conn
    decreases |acks|
  {
    if acks == [] then k
    else
      var e := RS.ReceiveAck(k, acks[0].rel, acks[0].loops, now, fps);
      if e.ret == -1 then RS.DEAD else Received(e.k, acks[1..], now, fps)
  }

  /** None of them tells of bytes that were never sent. */
  predicate NoneBad(k: RS.Conn, acks: seq<RS.Ack>, now: int, fps: int)
    decreases |acks|
  {
    acks != [] ==>
      var e := RS.ReceiveAck(k, acks[0].rel, acks[0].loops, now, fps);
      e.ret != -1 && NoneBad(e.k, acks[1..], now, fps)
  }

  lemma AckWireIs(a: RS.Ack)
    requires InRange(LD, a.rel) && InRange(LD, a.loops)
    ensures Representable(ACK_FORMAT, AckValues(a))
    ensures |Wire(ACK_FORMAT, AckValues(a), 0)| == 9 && Wire(ACK_FORMAT, AckValues(a), 0)[0] as int == PKT_ACK
  {
    hide EncodeInt;
    var args := AckValues(a);
    assert Wire(ACK_FORMAT, args, 3) == [];
    assert Wire(ACK_FORMAT, args, 2) == EncodeInt(a.loops, 4) + [];
    assert Wire(ACK_FORMAT, args, 1) == EncodeInt(a.rel, 4) + (EncodeInt(a.loops, 4) + []);
    assert Wire(ACK_FORMAT, args, 0) == EncodeInt(PKT_ACK, 1) + Wire(ACK_FORMAT, args, 1);
    OneByte(PKT_ACK);
  }

  lemma OneByte(v: int)
    requires 0 <= v < 256
    ensures EncodeInt(v, 1) == [v as byte]
  {
    assert EncodeInt(v / 256, 0) == [];
  }

  /** One of them, wherever it stands. */
  lemma OneHeard(k: RS.Conn, data: seq<byte>, at: nat, a: RS.Ack, now: int, fps: int)
    requires InRange(LD, a.rel) && InRange(LD, a.loops) && at <= |data|
    requires Wire(ACK_FORMAT, AckValues(a), 0) <= data[at..]
    ensures at + 9 <= |data| && data[at] as int == PKT_ACK
    ensures var e := RS.ReceiveAck(k, a.rel, a.loops, now, fps);
            AckHeard(k, data, at, now, fps) == if e.ret == -1 then Gone else Alive(e.k, 9)
  {
    hide Wire, Scan, RS.ReceiveAck, Representable;
    AckWireIs(a);
    assert data[at..][0] == data[at];
    ScanUndoesPrint(ACK_FORMAT, AckValues(a), 0, data, at);
    assert AckValues(a)[0..] == AckValues(a);
  }

  /** The input loop reads them all, and then what comes behind them. */
  lemma {:induction false} AllHeard(k: RS.Conn, before: seq<byte>, acks: seq<RS.Ack>, tail: seq<byte>, now: int,
                                     fps: int)
    requires InWord(acks) && NoneBad(k, acks, now, fps)
    ensures Heard(k, before + AckWire(acks) + tail, |before|, now, fps)
            == Heard(Received(k, acks, now, fps), before + AckWire(acks) + tail, |before| + |AckWire(acks)|, now, fps)
    decreases |acks|
  {
    hide Wire, AckHeard, RS.ReceiveAck;
    var data := before + AckWire(acks) + tail;
    if acks != [] {
      var wire := Wire(ACK_FORMAT, AckValues(acks[0]), 0);
      assert acks[0] in acks;
      assert data[|before|..] == wire + AckWire(acks[1..]) + tail;
      AckWireIs(acks[0]);
      OneHeard(k, data, |before|, acks[0], now, fps);
      var e := RS.ReceiveAck(k, acks[0].rel, acks[0].loops, now, fps);
      assert data == (before + wire) + AckWire(acks[1..]) + tail;
      AllHeard(e.k, before + wire, acks[1..], tail, now, fps);
    }
  }

  /** Behind acknowledgements PKT_VERIFY, PKT_PLAY and PKT_SHAPE are ignored with all that follows, and any other
      packet ends the connection. */
  lemma HeardThen(k: RS.Conn, acks: seq<RS.Ack>, tail: seq<byte>, now: int, fps: int)
    requires InWord(acks) && NoneBad(k, acks, now, fps)
    requires tail != [] && tail[0] != 43
    ensures Heard(k, AckWire(acks) + tail, 0, now, fps)
            == if tail[0] in {1, 3, 57} then Received(k, acks, now, fps) else RS.DEAD
  {
    hide AckWire, Received, AckHeard;
    AllHeard(k, [], acks, tail, now, fps);
    assert [] + AckWire(acks) + tail == AckWire(acks) + tail;
  }

  lemma {:induction false} AckWireSize(acks: seq<RS.Ack>)
    requires InWord(acks)
    ensures |AckWire(acks)| == 9 * |acks|
  {
    hide Wire;
    if acks != [] {
      assert acks[0] in acks;
      AckWireIs(acks[0]);
      AckWireSize(acks[1..]);
    }
  }

  /** Those at the front of the queue arrive. */
  lemma {:induction false} ReceivedArrive(s: RS.System, n: nat, fps: int)
    requires fps >= 2 && RS.Inv(s, fps) && s.k.state != RS.Free && n <= |s.acks|
    ensures Received(s.k, s.acks[..n], s.now, fps) == RS.Arrived(s, n, fps).k
    ensures NoneBad(s.k, s.acks[..n], s.now, fps)
    decreases n
  {
    hide RS.Inv, RS.ReceiveAck;
    if n > 0 {
      var t := RS.Next(s, RS.TakeAck(0), fps);
      RS.StepKeeps(s, RS.TakeAck(0), fps);
      RS.StreamStays(s, 0, fps);
      RS.NeverBadAck(s, s.acks[0], fps);
      ReceivedArrive(t, n - 1, fps);
      assert t.acks == s.acks[1..] && s.acks[..n][1..] == t.acks[..n - 1];
    }
  }

  function Taking(n: nat): seq<Turn> {
    if n == 0 then [Handle] else [Other(RS.TakeAck(0))] + Taking(n - 1)
  }

  lemma {:induction false} TakingIs(x: Setting, n: nat, header: seq<Value>, mapData: seq<byte>, fps: int)
    requires fps >= 2 && RS.Inv(x.s, fps) && x.s.k.state != RS.Free && n <= |x.s.acks|
    requires Matches(SETUP_FORMAT, header) && Within(x.setup, mapData)
    ensures Legal(x, Taking(n), header, mapData, fps)
    ensures Outcome(x, Taking(n), header, mapData, fps)
            == After(x.(s := RS.Arrived(x.s, n, fps)), Handle, header, mapData, fps)
    decreases n
  {
    hide RS.Inv, RS.ReceiveAck, HandOver;
    if n == 0 {
      assert Taking(0)[1..] == [];
    } else {
      var turns := Taking(n);
      assert turns[0] == Other(RS.TakeAck(0)) && turns[1..] == Taking(n - 1);
      RS.StepKeeps(x.s, RS.TakeAck(0), fps);
      RS.StreamStays(x.s, 0, fps);
      var y := After(x, turns[0], header, mapData, fps);
      assert y.s.acks == x.s.acks[1..];
      TakingIs(y, n - 1, header, mapData, fps);
    }
  }

  /** A call of Handle_setup in the middle of the setup, with bytes unacknowledged, that finds a datagram with the
      next n acknowledgements does what those n would do as turns of their own, and then hands over. */
  lemma CallFindsAcks(x: Setting, n: nat, header: seq<Value>, mapData: seq<byte>, fps: int)
    requires fps >= 2 && RS.Inv(x.s, fps) && x.s.k.state == RS.Setup && x.s.k.c != []
    requires 0 < x.setup < MAP_DATA_OFFSET + |mapData|
    requires n <= |x.s.acks| && InWord(x.s.acks[..n]) && 9 * n <= SERVER_RECV_SIZE
    requires Matches(SETUP_FORMAT, header) && Within(x.setup, mapData)
    ensures Legal(x, Taking(n), header, mapData, fps)
    ensures var y := Outcome(x, Taking(n), header, mapData, fps);
            var h := SetupCall(x.s.k, x.setup, header, mapData, Got(AckWire(x.s.acks[..n])), x.s.now, fps);
            y.s.k == h.k && y.setup == h.setup
  {
    hide RS.Inv, HandOver, Heard, AckWire, Received, NoneBad, RS.Arrived, Legal, Outcome, Input, Matches;
    var acks := x.s.acks[..n];
    ReceivedArrive(x.s, n, fps);
    InputReadsAcks(x.s.k, acks, x.s.now, fps);
    TakingIs(x, n, header, mapData, fps);
  }

  lemma InputReadsAcks(k: RS.Conn, acks: seq<RS.Ack>, now: int, fps: int)
    requires InWord(acks) && NoneBad(k, acks, now, fps) && 9 * |acks| <= SERVER_RECV_SIZE
    ensures Input(k, Got(AckWire(acks)), now, fps) == Received(k, acks, now, fps)
  {
    hide Heard, AckWire, Received, NoneBad;
    AckWireSize(acks);
    assert Sockbuf.Cut(AckWire(acks), SERVER_RECV_SIZE) == AckWire(acks) == [] + AckWire(acks) + [];
    AllHeard(k, [], acks, [], now, fps);
    HeardEnd(Received(k, acks, now, fps), AckWire(acks), now, fps);
  }

  /** Otherwise it does not look. */
  lemma CallLooksNot(k: RS.Conn, setup: nat, header: seq<Value>, mapData: seq<byte>, receipt: ReadOutcome, now: int,
                     fps: int)
    requires Matches(SETUP_FORMAT, header) && Within(setup, mapData)
    requires k.state != RS.Setup || k.c == [] || setup == 0 || setup == MAP_DATA_OFFSET + |mapData|
    ensures SetupCall(k, setup, header, mapData, receipt, now, fps) == HandOver(k, setup, header, mapData)
  {
    hide HandOver, Input;
  }
}
