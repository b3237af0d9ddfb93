/** When the reliable stream of src/server/netserver.cpp sends, how much, and what the round trip
    estimator settles at, told from what appears on the wire. */
module StreamTiming {
  import opened Arithmetic
  import opened Sockbufs
  import opened ReliableStream

  // ---- the timer

  /** After a send, whatever is appended meanwhile, the server is silent in every loop without a frame
      until the timeout it was given is over, and then it sends. */
  lemma SilentUntil(k: Conn, wlen: nat, now: int, fps: int, net: nat -> SendOutcome,
                    more: seq<byte>, t: int, net': nat -> SendOutcome)
    requires fps >= 2 && Timed(k, now, fps) && Send(k, wlen, now, fps, net).ret > 0
    requires t > now && NetworkWorks(net')
    ensures var sent := Send(k, wlen, now, fps, net).k;
            Send(sent.(c := sent.c + more), 0, t, fps, net').packets == []
            <==> t < now + Min(k.retransmit, fps + 1)
  {
    hide Emit;
    var sent := Send(k, wlen, now, fps, net).k;
    EmitAcks(OnTimeout(k, now), 0, MaxTodo(k, wlen), 0, now, net);
    var u := sent.(c := sent.c + more);
    if t >= u.retransmitAt {
      StartsWhereAcked(u, 0, t, fps, net');
    }
  }

  lemma {:induction false} EmitAcks(k: Conn, at: nat, todo: nat, i: nat, now: int, net: nat -> SendOutcome)
    requires at + todo <= |k.c|
    ensures var e := Emit(k, at, todo, i, now, net); e.acks == k.acks || e.acks == 0
    decreases todo
  {
    if i <= k.acks && todo > 0 && net(i) == Sent {
      var len := Min(todo, MAX_RELIABLE_DATA_PACKET_SIZE);
      EmitAcks(k, at + len, todo - len, i + 1, now, net);
    }
  }

  function Pow2(n: nat): (p: nat)
    ensures p > 0
  {
    if n == 0 then 1 else 2 * Pow2(n - 1)
  }

  /** How long the server waits after its i-th retransmission: doubled each time, up to a little over a second. */
  function Gap(first: int, fps: int, i: nat): int {
    Min(Pow2(i) * first, fps + 1)
  }

  /** The loop of the i-th retransmission. */
  function DueAt(from: int, first: int, fps: int, i: nat): int {
    if i == 0 then from else DueAt(from, first, fps, i - 1) + Gap(first, fps, i - 1)
  }

  /** The server alone: one call of Send_reliable without a frame in each of n loops, and no acknowledgement. */
  function Rolled(k: Conn, from: int, n: nat, fps: int, net: int -> nat -> SendOutcome): Conn {
    if n == 0 then k else Send(Rolled(k, from, n - 1, fps, net), 0, from + n - 1, fps, net(from + n - 1)).k
  }

  ghost predicate Appears(k: Conn, from: int, t: int, fps: int, net: int -> nat -> SendOutcome)
    requires from <= t
  {
    Send(Rolled(k, from, t - from, fps, net), 0, t, fps, net(t)).packets != []
  }

  lemma DoubleGap(first: int, fps: int, i: nat)
    requires first >= 1 && fps >= 2
    ensures Min(2 * Gap(first, fps, i), fps + 1) == Gap(first, fps, i + 1) && 1 <= Gap(first, fps, i) <= fps + 1
  {
    var x := Pow2(i) * first;
    assert Pow2(i + 1) * first == 2 * x;
    MulSign(Pow2(i), first);
  }

  /** What one call does that is due. */
  lemma DueSends(k: Conn, t: int, fps: int, net: nat -> SendOutcome)
    requires fps >= 2 && MayRetransmit(k, t) && NetworkWorks(net) && k.state != Free
    ensures var r := Send(k, 0, t, fps, net);
            var timeout := Min(k.retransmit, fps + 1);
            && r.packets != []
            && r.k.c == k.c && r.k.retransmitAt == t + timeout && r.k.retransmit == 2 * timeout
            && r.k.lastSend == t && r.k.acks >= 0 && r.k.state == k.state && r.k.timeouts == k.timeouts + 1
  {
    hide Emit;
    StartsWhereAcked(k, 0, t, fps, net);
    EmitAcks(OnTimeout(k, t), 0, MaxTodo(k, 0), 0, t, net);
    EmitSucceeds(OnTimeout(k, t), 0, MaxTodo(k, 0), 0, t, net);
  }

  lemma NotDueIsSilent(k: Conn, t: int, fps: int, net: nat -> SendOutcome)
    requires k.c != [] && k.retransmitAt > t && k.lastSend != t
    ensures Send(k, 0, t, fps, net) == SendResult(k, 0, [], false)
  {
  }

  ghost predicate Waiting(k: Conn, u: Conn, t: int, from: int, fps: int, i: nat) {
    && u.c == k.c && u.state == k.state && u.acks >= 0 && u.lastSend < t
    && u.timeouts == k.timeouts + i
    && Min(u.retransmit, fps + 1) == Gap(k.retransmit, fps, i)
    && DueAt(from, k.retransmit, fps, i) >= t
    && (if i == 0 then u.retransmitAt <= from && from == t
        else u.retransmitAt == DueAt(from, k.retransmit, fps, i) && DueAt(from, k.retransmit, fps, i - 1) < t)
  }

  /** After n silent or sending loops the server waits for its i-th retransmission. */
  lemma {:induction false} Rolls(k: Conn, from: int, n: nat, fps: int, net: int -> nat -> SendOutcome) returns (i: nat)
    requires fps >= 2 && k.retransmit >= 1 && k.state != Free && forall t :: NetworkWorks(net(t))
    requires k.c != [] && k.retransmitAt <= from && k.lastSend < from && k.acks >= 0
    ensures Waiting(k, Rolled(k, from, n, fps, net), from + n, from, fps, i)
    ensures Appears(k, from, from + n, fps, net) <==> DueAt(from, k.retransmit, fps, i) == from + n
  {
    hide Send;
    if n == 0 {
      i := 0;
      assert Gap(k.retransmit, fps, 0) == Min(k.retransmit, fps + 1);
    } else {
      var j := Rolls(k, from, n - 1, fps, net);
      var u := Rolled(k, from, n - 1, fps, net);
      DoubleGap(k.retransmit, fps, j);
      if DueAt(from, k.retransmit, fps, j) == from + n - 1 {
        DueSends(u, from + n - 1, fps, net(from + n - 1));
        i := j + 1;
      } else {
        NotDueIsSilent(u, from + n - 1, fps, net(from + n - 1));
        i := j;
      }
    }
    var v := Rolled(k, from, n, fps, net);
    if DueAt(from, k.retransmit, fps, i) == from + n {
      DueSends(v, from + n, fps, net(from + n));
    } else {
      NotDueIsSilent(v, from + n, fps, net(from + n));
    }
  }

  lemma {:induction false} DueLater(from: int, first: int, fps: int, i: nat, j: nat)
    requires first >= 1 && fps >= 2 && i < j
    ensures DueAt(from, first, fps, i) < DueAt(from, first, fps, j)
    decreases j
  {
    DoubleGap(first, fps, j - 1);
    if i < j - 1 {
      DueLater(from, first, fps, i, j - 1);
    }
  }

  /** As long as no acknowledgement comes, packets appear on the wire in exactly those loops: the first at
      once, and each further one after twice the time, up to fps + 1 loops. */
  lemma RetransmitsBackOff(k: Conn, from: int, t: int, fps: int, net: int -> nat -> SendOutcome)
    requires fps >= 2 && k.retransmit >= 1 && k.state != Free && forall u :: NetworkWorks(net(u))
    requires k.c != [] && k.retransmitAt <= from && k.lastSend < from && k.acks >= 0 && from <= t
    ensures Appears(k, from, t, fps, net) <==> exists i: nat :: t == DueAt(from, k.retransmit, fps, i)
  {
    hide Appears, Waiting, DueAt;
    var i := Rolls(k, from, t - from, fps, net);
    WaitingIs(k, Rolled(k, from, t - from, fps, net), t, from, fps, i);
    if j: nat :| t == DueAt(from, k.retransmit, fps, j) {
      if j < i {
        if j < i - 1 { DueLater(from, k.retransmit, fps, j, i - 1); }
      } else if j > i {
        DueLater(from, k.retransmit, fps, i, j);
      }
    }
  }

  lemma WaitingIs(k: Conn, u: Conn, t: int, from: int, fps: int, i: nat)
    requires Waiting(k, u, t, from, fps, i)
    ensures DueAt(from, k.retransmit, fps, i) >= t && (i > 0 ==> DueAt(from, k.retransmit, fps, i - 1) < t)
  {
  }

  /** What a new connection does with its first bytes: the timeout starts at half a second. */
  lemma FirstTimeouts(began: nat, bytes: seq<byte>, from: int, t: int, fps: int, net: int -> nat -> SendOutcome)
    requires fps >= 2 && bytes != [] && 0 < from <= t && forall u :: NetworkWorks(net(u))
    ensures Appears(Start(began, fps).k.(c := bytes), from, t, fps, net)
            <==> exists i: nat :: t == DueAt(from, fps / 2, fps, i)
  {
    hide Appears, DueAt;
    RetransmitsBackOff(Start(began, fps).k.(c := bytes), from, t, fps, net);
  }

  // ---- the burst

  /** How much of the buffer goes behind a frame of so many bytes. */
  function Limit(k: Conn, wlen: nat): int {
    if wlen == 0 then |k.c| else Min(|k.c|, 1024 - wlen)
  }

  /** How many packets may follow the first; half as many after a timeout. */
  function Burst(k: Conn, now: int): int {
    if k.retransmitAt != 0 && k.retransmitAt <= now then k.acks / 2 else k.acks
  }

  /** The i-th packet of those that carry n bytes of the buffer from `at` on: all are full but the last. */
  function Share(k: Conn, at: nat, n: nat, now: int, i: nat): Packet
    requires at + n <= |k.c| && 1024 * i < n
  {
    Packet(k.offset + at + 1024 * i, now, k.c[at + 1024 * i..at + Min(n, 1024 * (i + 1))])
  }

  ghost predicate Cuts(packets: seq<Packet>, k: Conn, at: nat, n: nat, now: int)
    requires at + n <= |k.c|
  {
    && |packets| == Fills(n)
    && forall i :: 0 <= i < |packets| ==> packets[i] == Share(k, at, n, now, i)
  }

  /** How far the sending loop gets from the i-th packet on when the network takes all before `stop`. */
  function Reach(k: Conn, todo: nat, i: nat, stop: nat): (n: nat)
    requires i <= stop && i <= k.acks + 1
    ensures n <= todo
  {
    Min(todo, 1024 * (Min(stop, k.acks + 1) - i))
  }

  lemma {:induction false} EmitReaches(k: Conn, at: nat, todo: nat, i: nat, now: int, net: nat -> SendOutcome,
                                        stop: nat)
    requires at + todo <= |k.c| && i <= stop && i <= k.acks + 1 && forall j :: i <= j < stop ==> net(j) == Sent
    requires net(stop) != Sent || stop > k.acks
    ensures var e := Emit(k, at, todo, i, now, net);
            && e.todo == todo - Reach(k, todo, i, stop)
            && (if e.todo == 0 || stop > k.acks then e.acks == k.acks && !e.failed
                else if net(stop) == WouldBlock then e.acks == 0 && !e.failed
                else e.failed)
    decreases todo
  {
    if i <= k.acks && todo > 0 && net(i) == Sent {
      var len := Min(todo, 1024);
      EmitReaches(k, at + len, todo - len, i + 1, now, net, stop);
    }
  }

  lemma CutsNothing(k: Conn, at: nat, now: int)
    requires at <= |k.c|
    ensures Cuts([], k, at, 0, now)
  {
  }

  lemma FirstShare(k: Conn, at: nat, len: nat, n: nat, now: int)
    requires at + len + n <= |k.c| && 0 < len <= 1024 && (len < 1024 ==> n == 0)
    ensures Share(k, at, len + n, now, 0) == Packet(k.offset + at, now, k.c[at..at + len])
    ensures Fills(len + n) == Fills(n) + 1
  {
  }

  lemma NextShare(k: Conn, at: nat, n: nat, now: int, i: nat)
    requires at + 1024 + n <= |k.c| && 1024 * i < n
    ensures Share(k, at, 1024 + n, now, i + 1) == Share(k, at + 1024, n, now, i)
  {
  }

  lemma CutsMore(rest: seq<Packet>, k: Conn, at: nat, len: nat, n: nat, now: int)
    requires at + len + n <= |k.c| && 0 < len <= 1024 && (len < 1024 ==> n == 0) && Cuts(rest, k, at + len, n, now)
    ensures Cuts([Packet(k.offset + at, now, k.c[at..at + len])] + rest, k, at, len + n, now)
  {
    hide Share;
    var all := [Packet(k.offset + at, now, k.c[at..at + len])] + rest;
    FirstShare(k, at, len, n, now);
    forall i | 0 <= i < |all|
      ensures all[i] == Share(k, at, len + n, now, i)
    {
      if i > 0 {
        NextShare(k, at, n, now, i - 1);
      }
    }
  }

  /** The packets of a burst. */
  lemma {:induction false} EmitCuts(k: Conn, at: nat, todo: nat, i: nat, now: int, net: nat -> SendOutcome, stop: nat)
    requires at + todo <= |k.c| && i <= stop && i <= k.acks + 1 && forall j :: i <= j < stop ==> net(j) == Sent
    requires net(stop) != Sent || stop > k.acks
    ensures Cuts(Emit(k, at, todo, i, now, net).packets, k, at, Reach(k, todo, i, stop), now)
    decreases todo
  {
    hide Cuts;
    if i <= k.acks && todo > 0 && net(i) == Sent {
      var len := Min(todo, 1024);
      EmitCuts(k, at + len, todo - len, i + 1, now, net, stop);
      CutsMore(Emit(k, at + len, todo - len, i + 1, now, net).packets, k, at, len,
               Reach(k, todo - len, i + 1, stop), now);
    } else {
      CutsNothing(k, at, now);
    }
  }

  lemma CutsSame(packets: seq<Packet>, u: Conn, k: Conn, n: nat, now: int)
    requires n <= |u.c| && u.c == k.c && u.offset == k.offset && Cuts(packets, u, 0, n, now)
    ensures Cuts(packets, k, 0, n, now)
  {
  }

  lemma ArmIsTimer(k: Conn, now: int, fps: int)
    ensures var u := Arm(k, now, fps);
            u == k.(retransmitAt := u.retransmitAt, retransmit := u.retransmit, timeouts := u.timeouts)
  {
  }

  /** What one call puts on the wire, when the network takes all packets before `stop`: nothing, unless there is
      unacknowledged data, it is the first call of the loop, the frame leaves room, and either the timer is over or
      there is a frame and something new to go with it; and otherwise consecutive full packets from the acknowledged
      position on, as many as the burst and the network allow. */
  lemma SendsBurst(k: Conn, wlen: nat, now: int, fps: int, net: nat -> SendOutcome, stop: nat)
    requires k.acks >= 0 && (forall j :: 0 <= j < stop ==> net(j) == Sent) && (net(stop) != Sent || stop > k.acks)
    ensures var r, limit, burst := Send(k, wlen, now, fps, net), Limit(k, wlen), Burst(k, now);
            var go := && k.c != [] && k.lastSend != now && wlen < 1023
                      && (k.retransmitAt <= now || (wlen > 0 && limit > k.unsent - k.offset + 1));
            var n := if go then Min(limit, 1024 * Min(stop, burst + 1)) else 0;
            && 0 <= n <= |k.c| && Cuts(r.packets, k, 0, n, now)
            && (go && n < limit && stop <= burst && net(stop) != WouldBlock <==> r.ret == -1)
            && (r.ret == -1 ==> r.k == DEAD)
            && (r.ret != -1 ==>
                  && r.ret == n && r.flushed == go
                  && r.k == k.(unsent := if n > 0 then Max(k.unsent, k.offset + n) else k.unsent,
                               acks := if !go then k.acks else if n < limit && stop <= burst then 0 else burst,
                               lastSend := if go || k.c == [] then now else k.lastSend,
                               retransmitAt := r.k.retransmitAt, retransmit := r.k.retransmit,
                               timeouts := r.k.timeouts)
                  && (n == 0 ==> r.k.retransmitAt == k.retransmitAt && r.k.retransmit == k.retransmit
                                 && r.k.timeouts == k.timeouts))
  {
    hide Emit, Cuts, Arm;
    if GoesAhead(k, wlen, now) {
      var u := OnTimeout(k, now);
      var limit := MaxTodo(k, wlen);
      EmitReaches(u, 0, limit, 0, now, net, stop);
      EmitCuts(u, 0, limit, 0, now, net, stop);
      CutsSame(Emit(u, 0, limit, 0, now, net).packets, u, k, Reach(u, limit, 0, stop), now);
      ArmIsTimer(u.(acks := Emit(u, 0, limit, 0, now, net).acks, lastSend := now), now, fps);
    } else {
      CutsNothing(k, 0, now);
    }
  }

  /** A good acknowledgement lets the burst grow: to one more packet, or as far as two packets for each
      full one of the acknowledged bytes if that is more. */
  lemma BurstGrows(k: Conn, rel: int, loops: int, now: int, fps: int)
    requires k.acks >= 0 && k.offset < rel <= k.offset + |k.c|
    ensures var u := ReceiveAck(k, rel, loops, now, fps).k;
            && u.acks > k.acks && 512 * u.acks >= rel - k.offset
            && forall a: int :: a > k.acks && 512 * a >= rel - k.offset ==> a >= u.acks
  {
    hide Estimate;
    EstimateFields(k, now - loops, fps);
  }

  // ---- the estimator

  /** The smoothed time, scaled by eight, shows this time. */
  predicate Shows(k: Conn, rtt: int) {
    8 * rtt <= k.smoothed <= 8 * rtt + 7
  }

  /** How far the estimator is from having settled. */
  function Unsettled(k: Conn, rtt: int): int {
    if k.smoothed == 0 then 0
    else if k.smoothed < 8 * rtt then 8 * rtt - k.smoothed
    else if k.smoothed > 8 * rtt + 7 then k.smoothed - 8 * rtt - 7
    else 0
  }

  /** One more sample of the same time. */
  lemma Sampled(k: Conn, now: int, fps: int, rtt: int)
    requires fps >= 2 && Timed(k, now, fps) && 0 < rtt <= fps + 1
    ensures var u := Estimate(k, rtt, fps);
            && Timed(u, now, fps) && u.smoothed > 0
            && (Unsettled(k, rtt) == 0 ==> Shows(u, rtt) && u.dev == k.dev - k.dev / 4)
            && (Unsettled(k, rtt) > 0 ==> 0 <= Unsettled(u, rtt) < Unsettled(k, rtt))
  {
  }

  /** The estimator after n samples of the same time. */
  function Samples(k: Conn, rtt: int, fps: int, n: nat): Conn {
    if n == 0 then k else Estimate(Samples(k, rtt, fps, n - 1), rtt, fps)
  }

  lemma {:induction false} Settles(k: Conn, now: int, fps: int, rtt: int, n: nat)
    requires fps >= 2 && Timed(k, now, fps) && 0 < rtt <= fps + 1
    ensures var u := Samples(k, rtt, fps, n);
            && Timed(u, now, fps)
            && 0 <= Unsettled(u, rtt) <= Max(0, 8 * (fps + 1) - n)
            && (n > 0 ==> u.smoothed > 0)
            && (n > 8 * (fps + 1) ==> Shows(u, rtt) && u.dev <= Max(3, 12 * (fps + 1) - n))
  {
    hide Estimate;
    if n > 0 {
      Settles(k, now, fps, rtt, n - 1);
      Sampled(Samples(k, rtt, fps, n - 1), now, fps, rtt);
    }
  }

  /** When the round trip time is steady the timeout becomes that time, within two loops, or the least
      timeout if that is more. */
  lemma TimeoutSettles(k: Conn, now: int, fps: int, rtt: int, n: nat)
    requires fps >= 2 && Timed(k, now, fps) && 0 < rtt <= fps + 1 && n > 12 * (fps + 1)
    ensures var u := Samples(k, rtt, fps, n);
            && u.smoothed / 8 == rtt
            && (u.retransmit == fps / 8 + 1 || rtt <= u.retransmit <= rtt + 2)
            && u.retransmit >= rtt && u.retransmit >= fps / 8 + 1
  {
    hide Samples, Timed;
    var v := Samples(k, rtt, fps, n - 1);
    assert Samples(k, rtt, fps, n) == Estimate(v, rtt, fps) by {
      OneSample(k, rtt, fps, n);
    }
    Settles(k, now, fps, rtt, n - 1);
    Positive(v, now, fps);
  }

  lemma OneSample(k: Conn, rtt: int, fps: int, n: nat)
    requires n > 0
    ensures Samples(k, rtt, fps, n) == Estimate(Samples(k, rtt, fps, n - 1), rtt, fps)
  {
  }

  lemma Positive(k: Conn, now: int, fps: int)
    requires Timed(k, now, fps)
    ensures k.dev >= 0
  {
  }

  /** A sample counts only if it took between one loop and a little over a second. */
  lemma OtherSamplesDoNot(k: Conn, rtt: int, fps: int)
    requires rtt <= 0 || rtt > fps + 1
    ensures Estimate(k, rtt, fps) == k
  {
  }
}
