/** The queue of players that wait to log in, of src/server/contact.cpp: a linked list that requests, the main loop
    and operators relink. */
module LoginQueue {
  import opened Names
  import opened Sequences

  const MAX_TEAMS: int := 10
  const MAX_NAME_LEN: nat := 16

  /** One queued player. The ticket is the number of its first request, which only the model has. */
  datatype Queued = Queued(ticket: nat, user: Name, nick: Name, disp: Name, host: Name, addr: Name, port: int,
                           team: Maybe<nat>, version: int, loginPort: int, lastSent: int, lastRecv: int)

  predicate Waiting(q: Queued) {
    q.loginPort == -1
  }

  ghost predicate PortsFirst(s: seq<Queued>) {
    && (forall q <- s :: q.loginPort == -1 || q.loginPort > 0)
    && forall i, j :: 0 <= i < j < |s| ==> Waiting(s[i]) ==> Waiting(s[j])
  }

  ghost predicate NicksDiffer(s: seq<Queued>) {
    forall i, j :: 0 <= i < |s| && 0 <= j < |s| && i != j ==> s[i].nick != s[j].nick
  }

  ghost predicate HostsBounded(s: seq<Queued>) {
    forall i, j, k :: 0 <= i < |s| && 0 <= j < |s| && 0 <= k < |s| && i != j && i != k && j != k ==>
      !(s[i].addr == s[j].addr == s[k].addr)
  }

  /** All came before the next ticket. */
  ghost predicate Sound(s: seq<Queued>, max: nat, next: nat) {
    PortsFirst(s) && NicksDiffer(s) && HostsBounded(s) && |s| <= max && forall q <- s :: q.ticket < next
  }

  /** In order of arrival, and those that wait came after `served`. */
  ghost predicate InOrder(s: seq<Queued>, served: int) {
    && (forall i, j :: 0 <= i < j < |s| ==> s[i].ticket < s[j].ticket)
    && (forall q <- s :: Waiting(q) ==> served < q.ticket)
  }

  // ---- leaving the queue

  ghost function Without(s: seq<Queued>, k: nat): seq<Queued>
    requires k < |s|
  {
    s[..k] + s[k + 1..]
  }

  /** Nicks still differ and hosts are still bounded among some of the queued, in any order. */
  lemma NamesTaken(s: seq<Queued>, t: seq<Queued>, from: seq<nat>)
    requires |from| == |t| && (forall i :: 0 <= i < |t| ==> from[i] < |s| && t[i] == s[from[i]])
    requires forall i, j :: 0 <= i < |t| && 0 <= j < |t| && i != j ==> from[i] != from[j]
    ensures NicksDiffer(s) ==> NicksDiffer(t)
    ensures HostsBounded(s) ==> HostsBounded(t)
  {
  }

  lemma WithoutSound(s: seq<Queued>, k: nat, max: nat, served: int, next: nat)
    requires k < |s|
    ensures Sound(s, max, next) ==> Sound(Without(s, k), max, next)
    ensures InOrder(s, served) ==> InOrder(Without(s, k), served)
  {
    hide NicksDiffer, HostsBounded, PortsFirst, InOrder, Without;
    WithoutAt(s, k);
    if PortsFirst(s) { WithoutPorts(s, k); }
    if InOrder(s, served) { WithoutOrder(s, k, served); }
    var t := Without(s, k);
    NamesTaken(s, t, seq(|t|, i requires 0 <= i < |t| => if i < k then i else i + 1));
  }

  lemma WithoutAt(s: seq<Queued>, k: nat)
    requires k < |s|
    ensures var t := Without(s, k); |t| == |s| - 1 && forall i :: 0 <= i < |t| ==> t[i] == s[if i < k then i else i + 1]
  {
  }

  lemma WithoutPorts(s: seq<Queued>, k: nat)
    requires k < |s| && PortsFirst(s)
    ensures PortsFirst(Without(s, k))
  {
    WithoutAt(s, k);
    hide Without;
  }

  lemma WithoutOrder(s: seq<Queued>, k: nat, served: int)
    requires k < |s| && InOrder(s, served)
    ensures InOrder(Without(s, k), served)
  {
    WithoutAt(s, k);
    hide Without;
  }

  // ---- one pass of the main loop

  /** What a pass finds: the time, how the connections stand, and what room and teams there are. */
  datatype World = World(now: int, fps: nat, lastUnqueued: int, connected: Queued -> bool, room: bool, teamPlay: bool,
                         usable: nat -> bool, available: Maybe<nat>, setup: int)

  datatype Ack = Ack(who: Name, position: nat)

  function Expired(q: Queued, w: World): bool {
    q.lastRecv + 30 * w.fps < w.now
  }

  /** Of a client that has a port: its time is up, or its connection is gone. */
  predicate Out(q: Queued, w: World) {
    Expired(q, w) || (q.lastSent + 2 < w.now && !w.connected(q))
  }

  /** Or it is to be told its port again. */
  predicate Due(q: Queued, w: World) {
    q.lastSent + 2 + w.fps / 4 < w.now
  }

  function Acked(q: Queued, w: World): Queued {
    q.(lastSent := w.now)
  }

  /** The clients that have a login port, up to the first that is sent it again. */
  datatype Entered = Entered(kept: seq<Queued>, rest: seq<Queued>, ack: Maybe<Ack>, stop: bool)

  function Entering(s: seq<Queued>, w: World): Entered {
    if s == [] || s[0].loginPort <= 0 then
      Entered([], s, Nothing, false)
    else if Out(s[0], w) then
      Entering(s[1..], w)
    else if Due(s[0], w) then
      Entered([Acked(s[0], w)], s[1..], Just(Ack(s[0].nick, 0)), true)
    else
      var r := Entering(s[1..], w);
      r.(kept := [s[0]] + r.kept)
  }

  function TeamFor(team: Maybe<nat>, w: World): Maybe<nat> {
    if !w.teamPlay then team
    else if team.Nothing? || !w.usable(team.value) then w.available
    else team
  }

  /** The first client without a port may get one. */
  datatype Served = Served(queue: seq<Queued>, ack: Maybe<Ack>, stop: bool, ticket: Maybe<nat>)

  function Serving(s: seq<Queued>, w: World): Served {
    if s == [] then Served(s, Nothing, false, Nothing)
    else if Expired(s[0], w) then Served(s[1..], Nothing, true, Nothing)
    else if w.lastUnqueued + 2 + w.fps / 4 < w.now && w.room then
      var team := TeamFor(s[0].team, w);
      if team.Nothing? then Served([s[0].(team := team)] + s[1..], Nothing, false, Nothing)
      else if w.setup == -1 then Served(s[1..], Nothing, true, Nothing)
      else Served([Acked(s[0], w).(team := team, loginPort := w.setup)] + s[1..], Just(Ack(s[0].nick, 0)), true,
                  Just(s[0].ticket))
    else
      Served(s, Nothing, false, Nothing)
  }

  /** The others are told their position, one at a time. */
  function Reminding(s: seq<Queued>, w: World, position: nat): (seq<Queued>, Maybe<Ack>) {
    if s == [] then (s, Nothing)
    else if Expired(s[0], w) then (s[1..], Nothing)
    else if s[0].lastSent + 3 * w.fps <= w.now then
      ([Acked(s[0], w)] + s[1..], Just(Ack(s[0].nick, position + 1)))
    else
      var (t, ack) := Reminding(s[1..], w, position + 1);
      ([s[0]] + t, ack)
  }

  datatype Pass = Pass(queue: seq<Queued>, ack: Maybe<Ack>, ticket: Maybe<nat>)

  /** Queue_loop */
  function Looped(s: seq<Queued>, w: World): Pass {
    var e := Entering(s, w);
    if e.stop then Pass(e.kept + e.rest, e.ack, Nothing)
    else
      var v := Serving(e.rest, w);
      if v.stop then Pass(e.kept + v.queue, v.ack, v.ticket)
      else
        var (t, ack) := Reminding(v.queue, w, 0);
        Pass(e.kept + t, ack, Nothing)
  }

  // ---- what a pass keeps

  /** Only the team, the port of the client and the times differ. */
  predicate Same(a: Queued, b: Queued) {
    a.ticket == b.ticket && a.nick == b.nick && a.addr == b.addr && a.user == b.user && a.disp == b.disp
    && a.host == b.host
  }

  lemma SameNames(s: seq<Queued>, k: nat, q: Queued)
    requires k < |s| && Same(s[k], q)
    ensures NicksDiffer(s) ==> NicksDiffer(s[k := q])
    ensures HostsBounded(s) ==> HostsBounded(s[k := q])
  {
    var t := s[k := q];
    assert forall i :: 0 <= i < |s| ==> t[i].nick == s[i].nick && t[i].addr == s[i].addr;
  }

  lemma TouchedSound(s: seq<Queued>, k: nat, q: Queued, max: nat, served: int, next: nat)
    requires k < |s| && Same(s[k], q) && q.loginPort == s[k].loginPort
    ensures Sound(s, max, next) ==> Sound(s[k := q], max, next)
    ensures InOrder(s, served) ==> InOrder(s[k := q], served)
  {
    hide NicksDiffer, HostsBounded;
    SameNames(s, k, q);
    var t := s[k := q];
    assert forall i :: 0 <= i < |s| ==> t[i].ticket == s[i].ticket && t[i].loginPort == s[i].loginPort;
  }

  lemma ServedPorts(s: seq<Queued>, k: nat, q: Queued)
    requires k < |s| && PortsFirst(s) && Waiting(s[k]) && q.loginPort > 0 && forall i :: 0 <= i < k ==> !Waiting(s[i])
    ensures PortsFirst(s[k := q])
  {
  }

  /** The first that waits gets a port: then those with ports still come first, and all served before came earlier. */
  lemma ServedSound(s: seq<Queued>, k: nat, q: Queued, max: nat, served: int, next: nat)
    requires k < |s| && Same(s[k], q) && Waiting(s[k]) && q.loginPort > 0 && forall i :: 0 <= i < k ==> !Waiting(s[i])
    requires Sound(s, max, next)
    ensures Sound(s[k := q], max, next)
    ensures InOrder(s, served) ==> served < s[k].ticket && InOrder(s[k := q], s[k].ticket)
  {
    hide NicksDiffer, HostsBounded, PortsFirst;
    SameNames(s, k, q);
    ServedPorts(s, k, q);
    var t := s[k := q];
    assert forall i :: 0 <= i < |s| ==> t[i].ticket == s[i].ticket && (i != k ==> t[i] == s[i]);
  }

  lemma {:induction false} EnteringKeeps(before: seq<Queued>, s: seq<Queued>, w: World, max: nat, served: int,
                                         next: nat)
    requires Sound(before + s, max, next) && forall q <- before :: !Waiting(q)
    ensures var e := Entering(s, w);
            && Sound(before + e.kept + e.rest, max, next)
            && (InOrder(before + s, served) ==> InOrder(before + e.kept + e.rest, served))
            && (forall q <- e.kept :: !Waiting(q)) && (e.rest != [] && !e.stop ==> Waiting(e.rest[0]))
    decreases |s|
  {
    hide Sound, InOrder;
    if s == [] || s[0].loginPort <= 0 {
      assert before + [] + s == before + s;
      assert s != [] ==> s[0] == (before + s)[|before|];
      Ported(before + s, max, next, |before|);
    } else {
      var n := |before|;
      assert s[0] == (before + s)[n];
      WithoutSound(before + s, n, max, served, next);
      assert Without(before + s, n) == before + s[1..];
      assert (before + [s[0]]) + s[1..] == before + s;
      if Out(s[0], w) {
        EnteringKeeps(before, s[1..], w, max, served, next);
      } else if Due(s[0], w) {
        TouchedSound(before + s, n, Acked(s[0], w), max, served, next);
        assert (before + s)[n := Acked(s[0], w)] == before + [Acked(s[0], w)] + s[1..];
      } else {
        EnteringKeeps(before + [s[0]], s[1..], w, max, served, next);
        var e := Entering(s[1..], w);
        assert (before + [s[0]]) + e.kept + e.rest == before + ([s[0]] + e.kept) + e.rest;
      }
    }
  }

  lemma Ported(s: seq<Queued>, max: nat, next: nat, k: nat)
    requires Sound(s, max, next)
    ensures k < |s| ==>
              (s[k].loginPort <= 0 <==> Waiting(s[k])) && (Waiting(s[k]) ==> forall j :: k <= j < |s| ==> Waiting(s[j]))
  {
  }

  /** Nobody that waits is served before one that came earlier. */
  lemma ServingKeeps(before: seq<Queued>, s: seq<Queued>, w: World, max: nat, served: int, next: nat)
    requires Sound(before + s, max, next) && (w.setup == -1 || w.setup > 0)
    requires (forall q <- before :: !Waiting(q)) && (s != [] ==> Waiting(s[0]))
    ensures var v := Serving(s, w);
            && Sound(before + v.queue, max, next)
            && (v.ticket.Just? ==> v.ticket.value < next)
            && (InOrder(before + s, served) && v.ticket.Nothing? ==> InOrder(before + v.queue, served))
            && (InOrder(before + s, served) && v.ticket.Just? ==>
                  served < v.ticket.value && InOrder(before + v.queue, v.ticket.value))
  {
    hide Sound, InOrder;
    if s != [] {
      var n, v := |before|, Serving(s, w);
      assert s[0] == (before + s)[n];
      WithoutSound(before + s, n, max, served, next);
      assert Without(before + s, n) == before + s[1..];
      if v.queue != s && v.queue != s[1..] {
        assert (before + s)[n := v.queue[0]] == before + v.queue;
        if v.ticket.Just? {
          TicketBelow(before + s, n, max, next);
          ServedSound(before + s, n, v.queue[0], max, served, next);
        } else {
          TouchedSound(before + s, n, v.queue[0], max, served, next);
        }
      }
    }
  }

  lemma TicketBelow(s: seq<Queued>, k: nat, max: nat, next: nat)
    requires Sound(s, max, next) && k < |s|
    ensures s[k].ticket < next
  {
  }

  lemma {:induction false} RemindingKeeps(before: seq<Queued>, s: seq<Queued>, w: World, position: nat, max: nat,
                                          served: int, next: nat)
    requires Sound(before + s, max, next)
    ensures Sound(before + Reminding(s, w, position).0, max, next)
    ensures InOrder(before + s, served) ==> InOrder(before + Reminding(s, w, position).0, served)
    decreases |s|
  {
    hide Sound, InOrder;
    if s != [] {
      var n := |before|;
      WithoutSound(before + s, n, max, served, next);
      assert Without(before + s, n) == before + s[1..];
      assert (before + [s[0]]) + s[1..] == before + s;
      if Expired(s[0], w) {
      } else if s[0].lastSent + 3 * w.fps <= w.now {
        TouchedSound(before + s, n, Acked(s[0], w), max, served, next);
        assert (before + s)[n := Acked(s[0], w)] == before + ([Acked(s[0], w)] + s[1..]);
      } else {
        var t := Reminding(s[1..], w, position + 1).0;
        RemindingKeeps(before + [s[0]], s[1..], w, position + 1, max, served, next);
        assert (before + [s[0]]) + t == before + ([s[0]] + t);
      }
    }
  }

  /** The one that is reminded of its place in a list is at that place. */
  lemma {:induction false} RemindedAt(s: seq<Queued>, w: World, position: nat)
    requires Reminding(s, w, position).1.Just?
    ensures var (t, ack) := Reminding(s, w, position);
            && position < ack.value.position <= position + |s|
            && var k := ack.value.position - position - 1;
               s[k].nick == ack.value.who && t == s[k := Acked(s[k], w)]
    decreases |s|
  {
    if !(s[0].lastSent + 3 * w.fps <= w.now) {
      RemindedAt(s[1..], w, position + 1);
      var k := Reminding(s, w, position).1.value.position - position - 1;
      assert s == [s[0]] + s[1..];
    }
  }

  function CountWaiting(s: seq<Queued>, n: nat): nat
    requires n <= |s|
  {
    if n == 0 then 0 else CountWaiting(s, n - 1) + if Waiting(s[n - 1]) then 1 else 0
  }

  lemma {:induction false} CountBehind(kept: seq<Queued>, rest: seq<Queued>, n: nat)
    requires n <= |kept| + |rest| && (forall q <- kept :: !Waiting(q)) && forall q <- rest :: Waiting(q)
    ensures CountWaiting(kept + rest, n) == if n <= |kept| then 0 else n - |kept|
  {
    if n > 0 {
      CountBehind(kept, rest, n - 1);
      assert n <= |kept| ==> (kept + rest)[n - 1] in kept;
      assert n > |kept| ==> (kept + rest)[n - 1] in rest;
    }
  }

  lemma AllWait(kept: seq<Queued>, rest: seq<Queued>, max: nat, next: nat)
    requires Sound(kept + rest, max, next) && (rest != [] ==> Waiting(rest[0]))
    ensures forall q <- rest :: Waiting(q)
  {
    if rest != [] {
      Ported(kept + rest, max, next, |kept|);
      forall q | q in rest
        ensures Waiting(q)
      {
        var i :| 0 <= i < |rest| && rest[i] == q;
        assert (kept + rest)[|kept| + i] == q;
      }
    }
  }

  /** Whom an acknowledgement of the first loop goes to. */
  lemma {:induction false} EnteredAt(s: seq<Queued>, w: World)
    requires Entering(s, w).stop
    ensures var e := Entering(s, w);
            && e.kept != [] && var q := e.kept[|e.kept| - 1];
            && e.ack == Just(Ack(q.nick, 0)) && q.loginPort > 0
    decreases |s|
  {
    if Out(s[0], w) || !Due(s[0], w) {
      EnteredAt(s[1..], w);
    }
  }

  /** What a pass tells a client is true of the queue it leaves behind: 0 if it has a port, and otherwise
      its position among those that wait. */
  lemma PositionIsTrue(s: seq<Queued>, w: World, max: nat, next: nat) returns (i: nat)
    requires Sound(s, max, next) && (w.setup == -1 || w.setup > 0) && Looped(s, w).ack.Just?
    ensures var p := Looped(s, w);
            && i < |p.queue| && p.queue[i].nick == p.ack.value.who
            && p.ack.value.position == (if Waiting(p.queue[i]) then CountWaiting(p.queue, i + 1) else 0)
  {
    hide Sound, Entering, Serving, Reminding, Out, Due, Expired;
    assert [] + s == s;
    EnteringKeeps([], s, w, max, 0, next);
    var e := Entering(s, w);
    assert [] + e.kept + e.rest == e.kept + e.rest;
    if e.stop {
      EnteredAt(s, w);
      i := |e.kept| - 1;
    } else {
      AllWait(e.kept, e.rest, max, next);
      ServedAt(e.rest, w);
      var v := Serving(e.rest, w);
      if v.stop {
        i := |e.kept|;
      } else {
        RemindedAt(v.queue, w, 0);
        var (t, ack) := Reminding(v.queue, w, 0);
        i := |e.kept| + ack.value.position - 1;
        assert v.queue[ack.value.position - 1] in v.queue;
        StillWait(v.queue, ack.value.position - 1, Acked(v.queue[ack.value.position - 1], w));
        CountBehind(e.kept, t, i + 1);
        assert t[ack.value.position - 1] in t;
      }
    }
  }

  lemma ServedAt(s: seq<Queued>, w: World)
    requires (forall q <- s :: Waiting(q)) && (w.setup == -1 || w.setup > 0)
    ensures var v := Serving(s, w);
            if v.stop then
              v.ack.Just? ==> v.queue != [] && v.ack == Just(Ack(v.queue[0].nick, 0)) && !Waiting(v.queue[0])
            else
              v.ack.Nothing? && forall q <- v.queue :: Waiting(q)
  {
    var v := Serving(s, w);
    if !v.stop && v.queue != s {
      assert v.queue == s[0 := v.queue[0]] && s[0] in s;
      StillWait(s, 0, v.queue[0]);
    }
  }

  lemma StillWait(s: seq<Queued>, k: nat, q: Queued)
    requires k < |s| && (forall p <- s :: Waiting(p)) && Waiting(q)
    ensures forall p <- s[k := q] :: Waiting(p)
  {
    forall p | p in s[k := q]
      ensures Waiting(p)
    {
      var i :| 0 <= i < |s| && s[k := q][i] == p;
      assert s[i] in s;
    }
  }

  // ---- what a pass does, told of the clients

  /** Nothing was heard of it for thirty seconds. */
  predicate Silent(q: Queued, w: World) {
    q.lastRecv + 30 * w.fps < w.now
  }

  /** A client with a port that goes: silent, or found without a connection when it is looked for. */
  predicate Goes(q: Queued, w: World) {
    Silent(q, w) || (q.lastSent + 2 < w.now && !w.connected(q))
  }

  /** One that is told again that it may enter, which ends the pass. */
  predicate ToldAgain(q: Queued, w: World) {
    !Goes(q, w) && q.lastSent + 2 + w.fps / 4 < w.now
  }

  /** Those that do not go. */
  function Still(s: seq<Queued>, w: World): seq<Queued> {
    if s == [] then [] else (if Goes(s[0], w) then [] else [s[0]]) + Still(s[1..], w)
  }

  /** The first n clients have a port, and no other. */
  predicate WithPort(s: seq<Queued>, n: nat) {
    && n <= |s|
    && (forall j :: 0 <= j < n ==> s[j].loginPort > 0) && forall j :: n <= j < |s| ==> s[j].loginPort == -1
  }

  /** The j-th is the first that is told again. */
  predicate FirstTold(s: seq<Queued>, j: nat, w: World) {
    j < |s| && ToldAgain(s[j], w) && forall i :: 0 <= i < j ==> !ToldAgain(s[i], w)
  }

  lemma {:induction false} EnteringAll(s: seq<Queued>, n: nat, w: World)
    requires WithPort(s, n) && forall i :: 0 <= i < n ==> !ToldAgain(s[i], w)
    ensures Entering(s, w) == Entered(Still(s[..n], w), s[n..], Nothing, false)
    decreases n
  {
    if n > 0 {
      assert s[..n][0] == s[0] && s[..n][1..] == s[1..][..n - 1] && s[1..][n - 1..] == s[n..];
      EnteringAll(s[1..], n - 1, w);
    } else {
      assert s[0..] == s;
    }
  }

  lemma {:induction false} EnteringTold(s: seq<Queued>, n: nat, j: nat, w: World)
    requires WithPort(s, n) && j < n && FirstTold(s, j, w)
    ensures Entering(s, w) == Entered(Still(s[..j], w) + [s[j].(lastSent := w.now)], s[j + 1..],
                                      Just(Ack(s[j].nick, 0)), true)
    decreases j
  {
    if j > 0 {
      EnteringTold(s[1..], n - 1, j - 1, w);
      TailParts(s, j);
      var r := Entering(s[1..], w);
      assert [s[0]] + (Still(s[1..][..j - 1], w) + [s[j].(lastSent := w.now)])
             == [s[0]] + Still(s[1..][..j - 1], w) + [s[j].(lastSent := w.now)];
      assert [] + Still(s[1..][..j - 1], w) == Still(s[1..][..j - 1], w);
    } else {
      assert Still(s[..0], w) + [s[0].(lastSent := w.now)] == [s[0].(lastSent := w.now)];
    }
  }

  lemma TailParts(s: seq<Queued>, j: nat)
    requires 0 < j < |s|
    ensures s[..j][0] == s[0] && s[..j][1..] == s[1..][..j - 1] && s[1..][j..] == s[j + 1..] && s[1..][j - 1] == s[j]
  {
  }

  /** Its suggestion if there is room in that team, and any that has room otherwise. */
  function TeamOf(q: Queued, w: World): Maybe<nat> {
    if w.teamPlay && (q.team == Nothing || !w.usable(q.team.value)) then w.available else q.team
  }

  /** The n-th client, the first that has no port, gets one in this pass. */
  predicate Admits(s: seq<Queued>, n: nat, w: World) {
    && WithPort(s, n) && n < |s| && (forall j :: 0 <= j < n ==> !ToldAgain(s[j], w))
    && !Silent(s[n], w) && w.lastUnqueued + 2 + w.fps / 4 < w.now && w.room
    && TeamOf(s[n], w) != Nothing && w.setup != -1
  }

  /** Somebody who waited now has a port. */
  ghost predicate PortGiven(s: seq<Queued>, t: seq<Queued>) {
    exists a <- s, b <- t :: a.nick == b.nick && a.loginPort == -1 && b.loginPort > 0
  }

  /** Of those that wait, one whose turn comes: it is silent, or it was last told its position three seconds ago. */
  predicate Up(q: Queued, w: World) {
    Silent(q, w) || q.lastSent + 3 * w.fps <= w.now
  }

  predicate FirstUp(r: seq<Queued>, m: nat, w: World) {
    m < |r| && Up(r[m], w) && forall i :: 0 <= i < m ==> !Up(r[i], w)
  }

  lemma {:induction false} RemindingNone(r: seq<Queued>, w: World, position: nat)
    requires forall i :: 0 <= i < |r| ==> !Up(r[i], w)
    ensures Reminding(r, w, position) == (r, Nothing)
    decreases |r|
  {
    if r != [] {
      RemindingNone(r[1..], w, position + 1);
      assert r == [r[0]] + r[1..];
    }
  }

  function Reminded(r: seq<Queued>, m: nat, w: World, position: nat): (seq<Queued>, Maybe<Ack>)
    requires m < |r|
  {
    if Silent(r[m], w) then (r[..m] + r[m + 1..], Nothing)
    else (r[m := r[m].(lastSent := w.now)], Just(Ack(r[m].nick, position + m + 1)))
  }

  lemma {:induction false} RemindingUp(r: seq<Queued>, m: nat, w: World, position: nat)
    requires FirstUp(r, m, w)
    ensures Reminding(r, w, position) == Reminded(r, m, w, position)
    decreases m
  {
    if m > 0 {
      RemindingUp(r[1..], m - 1, w, position + 1);
      RemindedTail(r, m, w, position);
    } else {
      assert r[..0] + r[1..] == r[1..] && r[0 := r[0].(lastSent := w.now)] == [r[0].(lastSent := w.now)] + r[1..];
    }
  }

  lemma RemindedTail(r: seq<Queued>, m: nat, w: World, position: nat)
    requires 0 < m < |r|
    ensures var (t, ack) := Reminded(r[1..], m - 1, w, position + 1);
            Reminded(r, m, w, position) == ([r[0]] + t, ack)
  {
    assert r[1..][m - 1] == r[m];
    assert [r[0]] + (r[1..][..m - 1] + r[1..][m..]) == r[..m] + r[m + 1..];
    assert [r[0]] + r[1..][m - 1 := r[m].(lastSent := w.now)] == r[m := r[m].(lastSent := w.now)];
  }

  /** It is tried to find a team for the first that waits. */
  predicate Tries(q: Queued, w: World) {
    !Silent(q, w) && w.lastUnqueued + 2 + w.fps / 4 < w.now && w.room
  }

  /** Those that wait, when the first of them could not be let in. */
  function LeftWaiting(s: seq<Queued>, n: nat, w: World): seq<Queued>
    requires n < |s|
  {
    if Tries(s[n], w) && TeamOf(s[n], w) == Nothing then s[n..][0 := s[n].(team := Nothing)] else s[n..]
  }

  /** Nobody with a port is told again and nobody can be let in: those that wait are told their position, one at a
      time, or one that is silent leaves. */
  lemma Waits(s: seq<Queued>, n: nat, w: World)
    requires WithPort(s, n) && (forall j :: 0 <= j < n ==> !ToldAgain(s[j], w)) && n < |s|
    requires !Silent(s[n], w) && !(Tries(s[n], w) && TeamOf(s[n], w) != Nothing)
    ensures var (t, ack) := Reminding(LeftWaiting(s, n, w), w, 0);
            Looped(s, w) == Pass(Still(s[..n], w) + t, ack, Nothing)
  {
    EnteringAll(s, n, w);
    var rest := s[n..];
    assert rest[0] == s[n] && rest == [rest[0]] + rest[1..];
    assert LeftWaiting(s, n, w) == Serving(rest, w).queue;
    hide Entering, Reminding;
  }

  lemma NobodyUp(s: seq<Queued>, n: nat, w: World)
    requires WithPort(s, n) && (forall j :: 0 <= j < n ==> !ToldAgain(s[j], w)) && n < |s|
    requires !Silent(s[n], w) && !(Tries(s[n], w) && TeamOf(s[n], w) != Nothing)
    requires forall i :: 0 <= i < |s| - n ==> !Up(LeftWaiting(s, n, w)[i], w)
    ensures Looped(s, w) == Pass(Still(s[..n], w) + LeftWaiting(s, n, w), Nothing, Nothing)
  {
    hide Looped;
    Waits(s, n, w);
    RemindingNone(LeftWaiting(s, n, w), w, 0);
  }

  lemma SomebodyUp(s: seq<Queued>, n: nat, m: nat, w: World)
    requires WithPort(s, n) && (forall j :: 0 <= j < n ==> !ToldAgain(s[j], w)) && n < |s|
    requires !Silent(s[n], w) && !(Tries(s[n], w) && TeamOf(s[n], w) != Nothing)
    requires FirstUp(LeftWaiting(s, n, w), m, w)
    ensures var r := LeftWaiting(s, n, w);
            Looped(s, w)
            == if Silent(r[m], w) then Pass(Still(s[..n], w) + (r[..m] + r[m + 1..]), Nothing, Nothing)
               else Pass(Still(s[..n], w) + r[m := r[m].(lastSent := w.now)], Just(Ack(r[m].nick, m + 1)), Nothing)
  {
    hide Looped;
    Waits(s, n, w);
    RemindingUp(LeftWaiting(s, n, w), m, w, 0);
  }

  /** A client with a port is told again that it may enter, and the pass ends. */
  lemma TellsAgain(s: seq<Queued>, n: nat, j: nat, w: World)
    requires WithPort(s, n) && j < n && FirstTold(s, j, w)
    ensures Looped(s, w) == Pass(Still(s[..j], w) + [s[j].(lastSent := w.now)] + s[j + 1..],
                                 Just(Ack(s[j].nick, 0)), Nothing)
  {
    hide Entering;
    EnteringTold(s, n, j, w);
  }

  /** Or nobody waits, or the first that does leaves. */
  lemma EndsEarly(s: seq<Queued>, n: nat, w: World)
    requires WithPort(s, n) && forall j :: 0 <= j < n ==> !ToldAgain(s[j], w)
    ensures n == |s| ==> Looped(s, w) == Pass(Still(s, w), Nothing, Nothing)
    ensures n < |s| && (Silent(s[n], w) || (Tries(s[n], w) && TeamOf(s[n], w) != Nothing && w.setup == -1)) ==>
              Looped(s, w) == Pass(Still(s[..n], w) + s[n + 1..], Nothing, Nothing)
  {
    hide Entering;
    EnteringAll(s, n, w);
    if n < |s| {
      assert s[n..][0] == s[n] && s[n..][1..] == s[n + 1..];
    } else {
      assert s[..n] == s && s[n..] == [];
      assert Still(s, w) + [] == Still(s, w);
    }
  }

  lemma {:induction false} StillIn(s: seq<Queued>, w: World)
    ensures forall q <- Still(s, w) :: q in s && !Goes(q, w)
    ensures forall q <- s :: !Goes(q, w) ==> q in Still(s, w)
  {
    if s != [] {
      StillIn(s[1..], w);
    }
  }

  lemma AdmittedIs(s: seq<Queued>, n: nat, w: World)
    requires Admits(s, n, w)
    ensures var team := TeamOf(s[n], w);
            Looped(s, w) == Pass(Still(s[..n], w) + [s[n].(team := team, loginPort := w.setup, lastSent := w.now)]
                                 + s[n + 1..],
                                 Just(Ack(s[n].nick, 0)), Just(s[n].ticket))
  {
    hide Entering;
    EnteringAll(s, n, w);
    assert s[n..][0] == s[n] && s[n..][1..] == s[n + 1..];
    var q := s[n].(team := TeamOf(s[n], w), loginPort := w.setup, lastSent := w.now);
    assert Still(s[..n], w) + ([q] + s[n + 1..]) == Still(s[..n], w) + [q] + s[n + 1..];
  }

  lemma {:induction false} PortsEnd(s: seq<Queued>) returns (n: nat)
    requires PortsFirst(s)
    ensures WithPort(s, n)
  {
    if s == [] || Waiting(s[0]) {
      n := 0;
      assert forall q <- s :: q.loginPort == -1 || q.loginPort > 0;
    } else {
      assert s[0] in s;
      var m := PortsEnd(s[1..]);
      n := m + 1;
      assert forall j :: 0 < j < |s| ==> s[j] == s[1..][j - 1];
    }
  }

  /** All ports in the new queue are ports of the old one. */
  ghost predicate OldPorts(s: seq<Queued>, t: seq<Queued>) {
    forall b <- t :: b.loginPort > 0 ==> exists c <- s :: c.nick == b.nick && c.loginPort > 0
  }

  lemma NoNewPort(s: seq<Queued>, t: seq<Queued>)
    requires NicksDiffer(s) && OldPorts(s, t)
    ensures !PortGiven(s, t)
  {
  }

  lemma {:induction false} RemindingWaits(r: seq<Queued>, w: World, position: nat)
    requires forall q <- r :: Waiting(q)
    ensures forall q <- Reminding(r, w, position).0 :: Waiting(q)
    decreases |r|
  {
    if r != [] {
      assert r[0] in r;
      RemindingWaits(r[1..], w, position + 1);
    }
  }

  lemma OldPortsJoin(s: seq<Queued>, a: seq<Queued>, b: seq<Queued>)
    requires OldPorts(s, a) && OldPorts(s, b)
    ensures OldPorts(s, a + b)
  {
  }

  lemma PartPorts(s: seq<Queued>, t: seq<Queued>)
    requires forall q <- t :: q in s || Waiting(q)
    ensures OldPorts(s, t)
  {
  }

  lemma StillPorts(s: seq<Queued>, n: nat, w: World)
    requires n <= |s|
    ensures OldPorts(s, Still(s[..n], w))
  {
    StillIn(s[..n], w);
    PartPorts(s, Still(s[..n], w));
  }

  lemma ToldPorts(s: seq<Queued>, n: nat, j: nat, w: World)
    requires WithPort(s, n) && j < n && FirstTold(s, j, w)
    ensures OldPorts(s, Looped(s, w).queue)
  {
    hide Looped, OldPorts;
    TellsAgain(s, n, j, w);
    StillPorts(s, j, w);
    OnePort(s, j, w);
    OldPortsJoin(s, Still(s[..j], w), [s[j].(lastSent := w.now)]);
    PartPorts(s, s[j + 1..]);
    OldPortsJoin(s, Still(s[..j], w) + [s[j].(lastSent := w.now)], s[j + 1..]);
  }

  lemma OnePort(s: seq<Queued>, j: nat, w: World)
    requires j < |s|
    ensures OldPorts(s, [s[j].(lastSent := w.now)])
  {
    assert s[j] in s;
  }

  lemma NotAdmittedPorts(s: seq<Queued>, n: nat, w: World)
    requires WithPort(s, n) && (forall j :: 0 <= j < n ==> !ToldAgain(s[j], w)) && !Admits(s, n, w)
    ensures OldPorts(s, Looped(s, w).queue)
  {
    hide Looped, OldPorts, Still;
    StillPorts(s, n, w);
    if n == |s| {
      assert s[..n] == s;
      EndsEarly(s, n, w);
    } else if Silent(s[n], w) || (Tries(s[n], w) && TeamOf(s[n], w) != Nothing && w.setup == -1) {
      EndsEarly(s, n, w);
      PartPorts(s, s[n + 1..]);
      OldPortsJoin(s, Still(s[..n], w), s[n + 1..]);
    } else {
      Waits(s, n, w);
      var r := LeftWaiting(s, n, w);
      LeftWait(s, n, w);
      RemindingWaits(r, w, 0);
      var t := Reminding(r, w, 0).0;
      PartPorts(s, t);
      OldPortsJoin(s, Still(s[..n], w), t);
    }
  }

  lemma LeftWait(s: seq<Queued>, n: nat, w: World)
    requires WithPort(s, n) && n < |s|
    ensures forall q <- LeftWaiting(s, n, w) :: Waiting(q)
  {
  }

  /** A port is given exactly in a pass that no client with a port ends, if somebody waits and the first of those was
      heard of, the last one was let in long enough ago, there is room, his own or another team takes him, and a
      connection can be set up for him; it is he who gets it, with that team. */
  lemma PortIsGiven(s: seq<Queued>, w: World, max: nat, next: nat)
    requires Sound(s, max, next) && (w.setup == -1 || w.setup > 0)
    ensures PortGiven(s, Looped(s, w).queue) <==> exists n :: Admits(s, n, w)
    ensures forall n: nat :: Admits(s, n, w) ==>
              var team := TeamOf(s[n], w);
              Looped(s, w) == Pass(Still(s[..n], w) + [s[n].(team := team, loginPort := w.setup, lastSent := w.now)]
                                   + s[n + 1..],
                                   Just(Ack(s[n].nick, 0)), Just(s[n].ticket))
  {
    hide Looped;
    var n := PortsEnd(s);
    forall m: nat | Admits(s, m, w)
      ensures var team := TeamOf(s[m], w);
              Looped(s, w) == Pass(Still(s[..m], w) + [s[m].(team := team, loginPort := w.setup, lastSent := w.now)]
                                   + s[m + 1..],
                                   Just(Ack(s[m].nick, 0)), Just(s[m].ticket))
      ensures PortGiven(s, Looped(s, w).queue)
    {
      AdmittedIs(s, m, w);
      var b := s[m].(team := TeamOf(s[m], w), loginPort := w.setup, lastSent := w.now);
      assert b in Looped(s, w).queue && s[m] in s;
    }
    if !exists m :: Admits(s, m, w) {
      if j :| 0 <= j < n && ToldAgain(s[j], w) {
        var first := FirstOf(s, j, w);
        ToldPorts(s, n, first, w);
      } else {
        NotAdmittedPorts(s, n, w);
      }
      NoNewPort(s, Looped(s, w).queue);
    }
  }

  lemma {:induction false} FirstOf(s: seq<Queued>, j: nat, w: World) returns (i: nat)
    requires j < |s| && ToldAgain(s[j], w)
    ensures i <= j && FirstTold(s, i, w)
    decreases j
  {
    if k :| 0 <= k < j && ToldAgain(s[k], w) {
      i := FirstOf(s, k, w);
    } else {
      i := j;
    }
  }

  /** Every pass keeps the queue in shape, and serves in the order of arrival. */
  lemma LoopedKeeps(s: seq<Queued>, w: World, max: nat, served: int, next: nat)
    requires Sound(s, max, next) && (w.setup == -1 || w.setup > 0)
    ensures var p := Looped(s, w);
            && Sound(p.queue, max, next)
            && (p.ticket.Just? ==> p.ticket.value < next)
            && (InOrder(s, served) && p.ticket.Nothing? ==> InOrder(p.queue, served))
            && (InOrder(s, served) && p.ticket.Just? ==> served < p.ticket.value && InOrder(p.queue, p.ticket.value))
  {
    hide Sound, InOrder, Entering, Serving, Reminding;
    assert [] + s == s;
    EnteringKeeps([], s, w, max, served, next);
    var e := Entering(s, w);
    assert [] + e.kept + e.rest == e.kept + e.rest;
    if !e.stop {
      ServingKeeps(e.kept, e.rest, w, max, served, next);
      var v := Serving(e.rest, w);
      if !v.stop {
        NotServed(e.rest, w);
        RemindingKeeps(e.kept, v.queue, w, 0, max, served, next);
      }
    }
  }

  lemma NotServed(s: seq<Queued>, w: World)
    ensures !Serving(s, w).stop ==> Serving(s, w).ticket.Nothing?
  {
  }

  // ---- requests

  datatype Request = Request(user: Name, nick: Name, disp: Name, team: int, addr: Name, host: Name, version: int,
                             port: int)

  datatype Status = Refreshed | Success | InUse | GameFull | GameLocked | BadName

  function Suggested(team: int): Maybe<nat> {
    if 0 <= team < MAX_TEAMS then Just(team) else Nothing
  }

  predicate SameScreen(q: Queued, r: Request) {
    r.addr == q.addr && r.user == q.user && r.disp == q.disp
  }

  function Refresh(q: Queued, r: Request, now: int): Queued {
    q.(lastRecv := now, port := r.port, version := r.version,
       team := if Suggested(r.team).Just? then Suggested(r.team) else q.team)
  }

  function Newcomer(r: Request, ticket: nat, now: int): Queued {
    Queued(ticket, r.user, r.nick, r.disp, r.host, r.addr, r.port, Suggested(r.team), r.version, -1, now, now)
  }

  /** The first of the given nick among the first n, or -1. */
  function Find(s: seq<Queued>, nick: Name, n: nat): (j: int)
    requires n <= |s|
    ensures -1 <= j < n && (j >= 0 ==> s[j].nick == nick)
  {
    if n == 0 then -1
    else if Find(s, nick, n - 1) >= 0 then Find(s, nick, n - 1)
    else if s[n - 1].nick == nick then n - 1
    else -1
  }

  lemma {:induction false} FindsNone(s: seq<Queued>, nick: Name, n: nat)
    requires n <= |s|
    ensures Find(s, nick, n) == -1 <==> forall i :: 0 <= i < n ==> s[i].nick != nick
  {
    if n > 0 {
      FindsNone(s, nick, n - 1);
    }
  }

  function SameHosts(s: seq<Queued>, addr: Name, n: nat): nat
    requires n <= |s|
  {
    if n == 0 then 0 else SameHosts(s, addr, n - 1) + if s[n - 1].addr == addr then 1 else 0
  }

  lemma {:induction false} HostsFound(s: seq<Queued>, addr: Name, n: nat)
    requires n <= |s|
    ensures SameHosts(s, addr, n) >= 1 <==> exists i :: 0 <= i < n && s[i].addr == addr
    ensures SameHosts(s, addr, n) >= 2 <==> exists i, j :: 0 <= i < j < n && s[i].addr == addr && s[j].addr == addr
  {
    if n > 0 {
      HostsFound(s, addr, n - 1);
    }
  }

  /** Queue_player, when the names are in order */
  function Asked(s: seq<Queued>, r: Request, now: int, locked: bool, max: nat, ticket: nat): (Status, seq<Queued>) {
    var j := Find(s, r.nick, |s|);
    if j >= 0 then
      if SameScreen(s[j], r) then (Refreshed, s[j := Refresh(s[j], r, now)]) else (InUse, s)
    else if SameHosts(s, r.addr, |s|) >= 2 then (InUse, s)
    else if |s| >= max then (GameFull, s)
    else if locked then (GameLocked, s)
    else (Success, s + [Newcomer(r, ticket, now)])
  }

  /** A client that is queued and asks again is always refreshed, whoever else is in the queue. */
  lemma RepeatIsRefreshed(s: seq<Queued>, r: Request, now: int, locked: bool, max: nat, next: nat, ticket: nat, j: nat)
    requires Sound(s, max, next) && j < |s| && s[j].nick == r.nick && SameScreen(s[j], r)
    ensures Asked(s, r, now, locked, max, ticket) == (Refreshed, s[j := Refresh(s[j], r, now)])
  {
    FindsNone(s, r.nick, |s|);
  }

  /** What becomes of any request, told of the clients in the queue: one of the same nick is refreshed if it asks from
      the same screen, and refused otherwise; a new one needs a host that fewer than two are queued from, a place and
      an unlocked game, and joins at the end. */
  lemma AskedIs(s: seq<Queued>, r: Request, now: int, locked: bool, max: nat, next: nat, ticket: nat)
    requires Sound(s, max, next)
    ensures var (status, t) := Asked(s, r, now, locked, max, ticket);
            var crowded := exists i, j :: 0 <= i < j < |s| && s[i].addr == s[j].addr == r.addr;
            && (forall j :: 0 <= j < |s| && s[j].nick == r.nick ==>
                  if s[j].addr == r.addr && s[j].user == r.user && s[j].disp == r.disp then
                    && status == Refreshed
                    && t == s[j := s[j].(lastRecv := now, port := r.port, version := r.version,
                                         team := if 0 <= r.team < 10 then Just(r.team) else s[j].team)]
                  else status == InUse && t == s)
            && ((forall j :: 0 <= j < |s| ==> s[j].nick != r.nick) ==>
                  && (status == InUse <==> crowded)
                  && (status == GameFull <==> !crowded && |s| == max)
                  && (status == GameLocked <==> !crowded && |s| < max && locked)
                  && (status == Success <==> !crowded && |s| < max && !locked)
                  && t == if status != Success then s
                          else s + [Queued(ticket, r.user, r.nick, r.disp, r.host, r.addr, r.port,
                                           if 0 <= r.team < 10 then Just(r.team) else Nothing, r.version, -1,
                                           now, now)])
  {
    hide HostsBounded;
    FindsNone(s, r.nick, |s|);
    HostsFound(s, r.addr, |s|);
  }

  /** Before its own entry, at most one other comes from its host, so the search never stops short of it. */
  lemma HostNotInTheWay(s: seq<Queued>, max: nat, next: nat, j: nat)
    requires Sound(s, max, next) && j < |s|
    ensures SameHosts(s, s[j].addr, j) <= 1
  {
    HostsFound(s, s[j].addr, j);
  }

  lemma AppendedHosts(s: seq<Queued>, q: Queued)
    requires HostsBounded(s) && SameHosts(s, q.addr, |s|) < 2
    ensures HostsBounded(s + [q])
  {
    HostsFound(s, q.addr, |s|);
  }

  lemma AppendedNames(s: seq<Queued>, q: Queued)
    requires NicksDiffer(s) && HostsBounded(s) && SameHosts(s, q.addr, |s|) < 2
    requires forall i :: 0 <= i < |s| ==> s[i].nick != q.nick
    ensures NicksDiffer(s + [q]) && HostsBounded(s + [q])
  {
    hide HostsBounded;
    AppendedHosts(s, q);
  }

  lemma AskedKeeps(s: seq<Queued>, r: Request, now: int, locked: bool, max: nat, served: int, next: nat)
    requires Sound(s, max, next) && served < next
    ensures var (status, t) := Asked(s, r, now, locked, max, next);
            && Sound(t, max, if status == Success then next + 1 else next)
            && (InOrder(s, served) ==> InOrder(t, served))
  {
    hide NicksDiffer, HostsBounded, Find, SameHosts;
    var (status, t) := Asked(s, r, now, locked, max, next);
    if status == Refreshed {
      var j := Find(s, r.nick, |s|);
      TouchedSound(s, j, t[j], max, served, next);
    } else if status == Success {
      FindsNone(s, r.nick, |s|);
      AppendedNames(s, Newcomer(r, next, now));
    }
  }

  // ---- operators

  /** The first whose nick is like the name, but for case, or -1. */
  function FindAlike(s: seq<Queued>, name: Name, n: nat): (j: int)
    requires n <= |s|
    ensures -1 <= j < n
  {
    if n == 0 then -1
    else if FindAlike(s, name, n - 1) >= 0 then FindAlike(s, name, n - 1)
    else if Fold(s[n - 1].nick) == Fold(name) then n - 1
    else -1
  }

  /** How many, of the first n, come up to the last one that has a port. */
  function UpToPorted(s: seq<Queued>, n: nat): (p: nat)
    requires n <= |s|
    ensures p <= n
  {
    if n == 0 then 0 else if s[n - 1].loginPort != -1 then n else UpToPorted(s, n - 1)
  }

  lemma {:induction false} PortedAre(s: seq<Queued>, n: nat)
    requires n <= |s| && PortsFirst(s)
    ensures forall i :: 0 <= i < n ==> (s[i].loginPort != -1 <==> i < UpToPorted(s, n))
  {
    if n > 0 && s[n - 1].loginPort == -1 {
      PortedAre(s, n - 1);
    }
  }

  function MovedUp<T>(s: seq<T>, p: nat, j: nat): seq<T>
    requires p <= j < |s|
  {
    s[..p] + [s[j]] + s[p..j] + s[j + 1..]
  }

  /** Queue_advance_player */
  function Advanced(s: seq<Queued>, name: Name): seq<Queued> {
    var j := FindAlike(s, name, |s|);
    if |name| >= MAX_NAME_LEN || j <= 0 || s[j].loginPort != -1 then s else MovedUp(s, UpToPorted(s, j), j)
  }

  /** An operator only changes the order of those that wait. */
  lemma AdvancedKeeps(s: seq<Queued>, name: Name, max: nat, next: nat)
    requires Sound(s, max, next)
    ensures Sound(Advanced(s, name), max, next) && multiset(Advanced(s, name)) == multiset(s)
  {
    hide NicksDiffer, HostsBounded, PortsFirst, MovedUp;
    var j := FindAlike(s, name, |s|);
    if !(|name| >= MAX_NAME_LEN || j <= 0 || s[j].loginPort != -1) {
      var p := UpToPorted(s, j);
      PortedAre(s, j);
      MovedUpKeeps(s, p, j);
    }
  }

  function Source(p: nat, j: nat, i: nat): nat
    requires p <= j
  {
    if i < p || i > j then i else if i == p then j else i - 1
  }

  lemma MovedUpNames(s: seq<Queued>, p: nat, j: nat)
    requires p <= j < |s|
    ensures NicksDiffer(s) ==> NicksDiffer(MovedUp(s, p, j))
    ensures HostsBounded(s) ==> HostsBounded(MovedUp(s, p, j))
    ensures forall q <- MovedUp(s, p, j) :: q in s
  {
    NamesTaken(s, MovedUp(s, p, j), seq(|s|, i requires 0 <= i < |s| => Source(p, j, i)));
  }

  lemma MovedUpPorts(s: seq<Queued>, p: nat, j: nat)
    requires p <= j < |s| && Waiting(s[j]) && (forall i :: 0 <= i < j ==> (s[i].loginPort != -1 <==> i < p))
    requires PortsFirst(s)
    ensures PortsFirst(MovedUp(s, p, j))
  {
    var t := MovedUp(s, p, j);
    assert forall i :: 0 <= i < |t| ==> t[i] == s[Source(p, j, i)];
    assert forall i :: 0 <= i < |t| ==> (Waiting(t[i]) <==> i >= p);
  }

  lemma MovedUpKeeps(s: seq<Queued>, p: nat, j: nat)
    requires p <= j < |s| && Waiting(s[j]) && forall i :: 0 <= i < j ==> (s[i].loginPort != -1 <==> i < p)
    ensures multiset(MovedUp(s, p, j)) == multiset(s)
    ensures PortsFirst(s) ==> PortsFirst(MovedUp(s, p, j))
    ensures NicksDiffer(s) ==> NicksDiffer(MovedUp(s, p, j))
    ensures HostsBounded(s) ==> HostsBounded(MovedUp(s, p, j))
    ensures |MovedUp(s, p, j)| == |s| && forall q <- MovedUp(s, p, j) :: q in s
  {
    hide NicksDiffer, HostsBounded, PortsFirst;
    MovedUpNames(s, p, j);
    if PortsFirst(s) {
      MovedUpPorts(s, p, j);
    }
    assert s == s[..p] + s[p..j] + [s[j]] + s[j + 1..];
  }

  // ---- the linked list

  class Node {
    var data: Queued
    var next: Node?

    constructor (data: Queued)
      ensures this.data == data && next == null
    {
      this.data, next := data, null;
    }
  }

  ghost function At(nodes: seq<Node>, k: int): Node?
    requires -1 <= k <= |nodes|
  {
    if 0 <= k < |nodes| then nodes[k] else null
  }

  ghost predicate Linked(nodes: seq<Node>, head: Node?)
    reads nodes`next
  {
    && head == At(nodes, 0)
    && (forall k :: 0 <= k < |nodes| ==> nodes[k].next == At(nodes, k + 1))
    && Distinct(nodes)
  }

  ghost function Data(nodes: seq<Node>): (s: seq<Queued>)
    reads nodes
    ensures |s| == |nodes|
  {
    seq(|nodes|, i requires 0 <= i < |nodes| reads nodes => nodes[i].data)
  }

  class Queue {
    var head: Node?
    var numQueued: int
    var lastUnqueued: int
    const max: nat
    ghost var nodes: seq<Node>
    ghost var repr: set<Node>
    var next: nat
    ghost var served: int

    ghost function Contents(): seq<Queued>
      reads this`nodes, nodes
    {
      Data(nodes)
    }

    ghost predicate Chained()
      reads this`head, this`nodes, this`repr, nodes`next
    {
      Linked(nodes, head) && forall k :: 0 <= k < |nodes| ==> nodes[k] in repr
    }

    ghost predicate Listed()
      reads this`head, this`nodes, this`repr, this`numQueued, nodes`next
    {
      Chained() && numQueued == |nodes|
    }

    ghost predicate Valid()
      reads this, nodes
    {
      Listed() && Sound(Contents(), max, next) && served < next
    }

    constructor ()
      ensures Valid() && Contents() == [] && max == 20 && InOrder(Contents(), served)
    {
      head, numQueued, lastUnqueued, max := null, 0, 0, 20;
      nodes, repr, next, served := [], {}, 0, -1;
    }

    /** Node number k is no longer on the list. */
    static lemma RestIs(all: seq<Node>, rest: seq<Node>, k: nat)
      requires k < |all| && rest == all[..k] + all[k + 1..]
      ensures |rest| == |all| - 1 && forall i :: 0 <= i < |rest| ==> rest[i] == all[if i < k then i else i + 1]
    {
    }

    /** What is left is a list again, once the links lead around the k-th node. */
    static lemma RestLinked(all: seq<Node>, k: nat, first: Node?)
      requires k < |all| && Distinct(all) && first == if k == 0 then At(all, 1) else all[0]
      requires forall i :: 0 <= i < |all| && i != k ==> all[i].next == At(all, if i == k - 1 then i + 2 else i + 1)
      ensures Linked(all[..k] + all[k + 1..], first) && all[k] !in all[..k] + all[k + 1..]
    {
      var rest := all[..k] + all[k + 1..];
      RestIs(all, rest, k);
      assert forall i :: 0 <= i < |rest| ==> rest[i].next == At(rest, i + 1);
    }

    method Unlink(qp: Node, prev: Node?, ghost k: nat)
      requires Chained() && k < |nodes| && qp == nodes[k] && prev == At(nodes, k - 1)
      modifies this`head, this`nodes, repr`next
      ensures Chained() && nodes == old(nodes[..k] + nodes[k + 1..]) && qp !in nodes
    {
      hide Linked;
      ghost var rest := nodes[..k] + nodes[k + 1..];
      Bypass(qp, prev, k);
      RestLinked(nodes, k, head);
      RestIs(nodes, rest, k);
      nodes := rest;
    }

    /** The links lead around the k-th node. */
    method Bypass(qp: Node, prev: Node?, ghost k: nat)
      requires Chained() && k < |nodes| && qp == nodes[k] && prev == At(nodes, k - 1)
      modifies this`head, repr`next
      ensures Distinct(nodes) && head == if k == 0 then At(nodes, 1) else nodes[0]
      ensures forall i :: 0 <= i < |nodes| && i != k ==> nodes[i].next == At(nodes, if i == k - 1 then i + 2 else i + 1)
    {
      assert k > 0 ==> nodes[0] != nodes[k] && forall i :: 0 <= i < |nodes| && i != k - 1 ==> nodes[i] != nodes[k - 1];
      if qp == head {
        head := qp.next;
      } else {
        prev.next := qp.next;
      }
    }

    /** Queue_remove, of node number k */
    method Remove(qp: Node, prev: Node?, ghost k: nat)
      requires Listed() && k < |nodes| && qp == nodes[k] && prev == At(nodes, k - 1)
      modifies this`head, this`nodes, this`numQueued, repr`next
      ensures Listed() && nodes == old(nodes[..k] + nodes[k + 1..])
    {
      hide Chained;
      Unlink(qp, prev, k);
      numQueued := numQueued - 1;
    }

    /** Queue_remove keeps what the other nodes hold. */
    method Drop(qp: Node, prev: Node?, ghost k: nat)
      requires Listed() && k < |nodes| && qp == nodes[k] && prev == At(nodes, k - 1)
      modifies this`head, this`nodes, this`numQueued, repr`next
      ensures Listed() && nodes == old(nodes[..k] + nodes[k + 1..])
      ensures Contents() == Without(old(Contents()), k)
    {
      hide Linked;
      Remove(qp, prev, k);
    }

    /** One client that has a port: out of the queue, told its port again, or passed by. */
    method EnterTurn(qp: Node, prev: Node?, ghost k: nat, w: World) returns (out: bool, ack: Maybe<Ack>)
      requires Listed() && k < |nodes| && qp == nodes[k] && prev == At(nodes, k - 1)
      modifies this`head, this`nodes, this`numQueued, repr
      ensures Listed() && nodes == if out then old(nodes[..k] + nodes[k + 1..]) else old(nodes)
      ensures var s := old(Contents());
              && (out <==> Out(s[k], w)) && (ack.Just? <==> !out && Due(s[k], w))
              && (ack.Just? ==> ack == Just(Ack(s[k].nick, 0)))
              && Contents() == if out then Without(s, k) else if ack.Just? then s[k := Acked(s[k], w)] else s
    {
      hide Linked;
      if Expired(qp.data, w) {
        Drop(qp, prev, k);
        return true, Nothing;
      }
      if qp.data.lastSent + 2 < w.now {
        if !w.connected(qp.data) {
          Drop(qp, prev, k);
          return true, Nothing;
        }
        if qp.data.lastSent + 2 + w.fps / 4 < w.now {
          ack := Just(Ack(qp.data.nick, 0));
          Touch(qp, k, Acked(qp.data, w));
          return false, ack;
        }
      }
      return false, Nothing;
    }

    method Touch(qp: Node, ghost k: nat, q: Queued)
      requires Listed() && k < |nodes| && qp == nodes[k]
      modifies qp`data
      ensures Listed() && Contents() == old(Contents())[k := q]
    {
      qp.data := q;
    }

    lemma NodesAre(k: nat)
      requires Listed() && k <= |nodes|
      ensures |Contents()| == |nodes| && head == At(nodes, 0)
      ensures k < |nodes| ==> nodes[k] in repr
      ensures k < |nodes| ==> nodes[k].next == At(nodes, k + 1) && Contents()[k] == nodes[k].data
    {
    }

    /** The first loop of Queue_loop */
    method EnterPart(w: World) returns (qp: Node?, prev: Node?, ack: Maybe<Ack>, stop: bool, ghost k: nat)
      requires Listed()
      modifies this`head, this`nodes, this`numQueued, repr
      ensures Listed()
      ensures k <= |nodes| && Entered(Contents()[..k], Contents()[k..], ack, stop) == Entering(old(Contents()), w)
      ensures !stop ==> qp == At(nodes, k) && prev == At(nodes, k - 1)
    {
      hide Linked, Data, Entering, EnteringFrom, Out, Due, Acked, Without;
      k := 0;
      NodesAre(0);
      qp, prev, ack, stop := head, null, Nothing, false;
      ghost var s := Contents();
      EnteringStarts(s, w);
      while qp != null && qp.data.loginPort > 0
        invariant Listed() && ack.Nothing? && !stop
        invariant 0 <= k <= |nodes| == |Contents()| && qp == At(nodes, k) && prev == At(nodes, k - 1)
        invariant EnteringFrom(Contents(), k, w) == Entering(s, w)
        decreases |nodes| - k
      {
        ghost var t := Contents();
        NodesAre(k);
        EnteringStep(t, k, w);
        var next := qp.next;
        var out;
        out, ack := EnterTurn(qp, prev, k, w);
        if out {
          qp := next;
          continue;
        }
        if ack.Just? {
          AckedParts(t, k, w);
          k, stop := k + 1, true;
          return;
        }
        prev := qp;
        qp := next;
        k := k + 1;
      }
      NodesAre(k);
      EnteringEnds(Contents(), k, w);
    }

    /** The second part of Queue_loop, on the first client without a port */
    method ServePart(qp: Node?, prev: Node?, ghost k: nat, w: World) returns (ack: Maybe<Ack>, stop: bool,
            ghost ticket: Maybe<nat>)
      requires Listed() && k <= |nodes| && qp == At(nodes, k)
      requires prev == At(nodes, k - 1) && w.lastUnqueued == lastUnqueued
      modifies this`head, this`nodes, this`numQueued, this`lastUnqueued, repr
      ensures Listed() && k <= |nodes| && (!stop ==> nodes == old(nodes))
      ensures Contents()[..k] == old(Contents()[..k])
      ensures Served(Contents()[k..], ack, stop, ticket) == Serving(old(Contents()[k..]), w)
      ensures lastUnqueued == if ticket.Just? then w.now else old(lastUnqueued)
    {
      hide Linked, Data;
      NodesAre(k);
      ack, stop, ticket := Nothing, false, Nothing;
      if qp == null {
        return;
      }
      ghost var s := Contents();
      Slices(s, k);
      if Expired(qp.data, w) {
        Drop(qp, prev, k);
        stop := true;
        return;
      }
      if lastUnqueued + 2 + w.fps / 4 < w.now {
        if w.room {
          var team := qp.data.team;
          if w.teamPlay {
            if team.Just? {
              if !w.usable(team.value) {
                team := Nothing;
              }
            }
            if team.Nothing? {
              team := w.available;
            }
          }
          if team.Just? {
            if w.setup == -1 {
              Drop(qp, prev, k);
              stop := true;
              return;
            }
            ack, stop, ticket := Just(Ack(qp.data.nick, 0)), true, Just(s[k].ticket);
            Touch(qp, k, Acked(qp.data, w).(team := team, loginPort := w.setup));
            lastUnqueued := w.now;
          } else {
            Touch(qp, k, qp.data.(team := team));
          }
        }
      }
    }

    /** One client that waits: out of the queue, told its position, or passed by. */
    method RemindTurn(qp: Node, prev: Node?, ghost k: nat, w: World, position: nat) returns (out: bool, ack: Maybe<Ack>)
      requires Listed() && k < |nodes| && qp == nodes[k] && prev == At(nodes, k - 1)
      modifies this`head, this`nodes, this`numQueued, repr
      ensures Listed() && nodes == if out then old(nodes[..k] + nodes[k + 1..]) else old(nodes)
      ensures var s := old(Contents());
              && (out <==> Expired(s[k], w)) && (ack.Just? <==> !out && s[k].lastSent + 3 * w.fps <= w.now)
              && (ack.Just? ==> ack == Just(Ack(s[k].nick, position)))
              && Contents() == if out then Without(s, k) else if ack.Just? then s[k := Acked(s[k], w)] else s
    {
      hide Linked;
      if Expired(qp.data, w) {
        Drop(qp, prev, k);
        return true, Nothing;
      }
      if qp.data.lastSent + 3 * w.fps <= w.now {
        ack := Just(Ack(qp.data.nick, position));
        Touch(qp, k, Acked(qp.data, w));
        return false, ack;
      }
      return false, Nothing;
    }

    /** The last loop of Queue_loop */
    method RemindPart(first: Node?, before: Node?, ghost start: nat, w: World) returns (ack: Maybe<Ack>)
      requires Listed() && start <= |nodes| && first == At(nodes, start) && before == At(nodes, start - 1)
      modifies this`head, this`nodes, this`numQueued, repr
      ensures Listed()
      ensures (Contents(), ack) == RemindingFrom(old(Contents()), start, w, 0)
    {
      hide Listed, Data, RemindingFrom, Expired, Without, Acked;
      ghost var k := start;
      NodesAre(k);
      var qp, prev, position := first, before, 0;
      ack := Nothing;
      ghost var s := Contents();
      while qp != null
        invariant Listed() && Contents() == s && ack.Nothing? && position == k - start
        invariant 0 <= start <= k <= |nodes| == |Contents()| && qp == At(nodes, k) && prev == At(nodes, k - 1)
        invariant RemindingFrom(s, k, w, position) == RemindingFrom(s, start, w, 0)
        decreases |nodes| - k
      {
        NodesAre(k);
        RemindingStep(s, k, w, position);
        var next := qp.next;
        position := position + 1;
        var out;
        out, ack := RemindTurn(qp, prev, k, w, position);
        if out || ack.Just? {
          return;
        }
        prev := qp;
        qp := next;
        k := k + 1;
      }
      NodesAre(k);
      RemindingEnds(s, w, position);
    }

    /** Queue_loop */
    method Loop(w: World) returns (ack: Maybe<Ack>)
      requires Valid() && w.lastUnqueued == lastUnqueued && (w.setup == -1 || w.setup > 0)
      modifies this`head, this`nodes, this`numQueued, this`lastUnqueued, this`served, repr
      ensures Valid()
      ensures var p := Looped(old(Contents()), w);
              && Contents() == p.queue && ack == p.ack
              && lastUnqueued == (if p.ticket.Just? then w.now else old(lastUnqueued))
              && served == (if p.ticket.Just? then p.ticket.value else old(served))
      ensures next == old(next) && (old(InOrder(Contents(), served)) ==> InOrder(Contents(), served))
    {
      hide Listed, Data, Sound, InOrder, Entering, Serving, Reminding;
      ghost var s := Contents();
      var qp, prev, stop;
      ghost var k, ticket;
      qp, prev, ack, stop, k := EnterPart(w);
      ghost var e := Entering(s, w);
      LoopedKeeps(s, w, max, served, next);
      Rejoined(Contents(), k);
      if stop {
        return;
      }
      ack, stop, ticket := ServePart(qp, prev, k, w);
      NotServed(e.rest, w);
      Rejoined(Contents(), k);
      if ticket.Just? {
        served := ticket.value;
      }
      if stop {
        return;
      }
      ack := RemindPart(qp, prev, k, w);
    }

    // ---- requests

    method Link(qp: Node, last: Node?)
      requires Listed() && last == At(nodes, |nodes| - 1) && qp !in repr && qp.next == null
      modifies this`head, this`nodes, this`numQueued, this`repr, repr`next
      ensures Listed() && nodes == old(nodes) + [qp]
    {
      if head == null {
        head := qp;
      } else {
        last.next := qp;
      }
      assert forall i :: 0 <= i < |nodes| ==> nodes[i].next == At(nodes + [qp], i + 1);
      nodes := nodes + [qp];
      repr := repr + {qp};
      numQueued := numQueued + 1;
    }

    method Append(last: Node?, q: Queued)
      requires Listed() && last == At(nodes, |nodes| - 1)
      modifies this`head, this`nodes, this`numQueued, this`repr, repr`next
      ensures Listed() && Contents() == old(Contents()) + [q]
    {
      hide Linked;
      var qp := new Node(q);
      Link(qp, last);
    }

    /** Queue_player */
    method Ask(r: Request, namesInOrder: bool, now: int, locked: bool) returns (status: Status, position: nat)
      requires Valid()
      modifies this`head, this`nodes, this`numQueued, this`repr, this`next, repr
      ensures Valid() && served == old(served)
      ensures !namesInOrder ==> status == BadName && Contents() == old(Contents())
      ensures namesInOrder ==> (status, Contents()) == Asked(old(Contents()), r, now, locked, max, old(next))
      ensures next == old(next) + (if status == Success then 1 else 0)
      ensures status == Success ==> position == CountWaiting(old(Contents()), |old(Contents())|)
      ensures old(InOrder(Contents(), served)) ==> InOrder(Contents(), served)
    {
      hide Linked, Data, Sound, InOrder, Asked, Find, SameHosts;
      position := 0;
      if !namesInOrder {
        return BadName, position;
      }
      ghost var s, k := Contents(), 0;
      AskedKeeps(s, r, now, locked, max, served, next);
      NodesAre(0);
      Nobody(s, r);
      var qp, prev, numQueuedHere, numSameHosts := head, null, 0, 0;
      while qp != null
        invariant 0 <= k <= |nodes| == |s| && qp == At(nodes, k) && prev == At(nodes, k - 1)
        invariant Listed() && Contents() == s && next == old(next) && repr == old(repr)
        invariant numQueuedHere == k && numSameHosts == SameHosts(s, r.addr, k) <= 1 && position == CountWaiting(s, k)
        invariant forall i :: 0 <= i < k ==> s[i].nick != r.nick
        decreases |nodes| - k
      {
        NodesAre(k);
        OneMoreHost(s, r.addr, k);
        numQueuedHere := numQueuedHere + 1;
        if qp.data.loginPort == -1 {
          position := position + 1;
        }
        if r.nick == qp.data.nick {
          FoundAt(s, r, now, locked, max, next, k);
          if SameScreen(qp.data, r) {
            Touch(qp, k, Refresh(qp.data, r, now));
            return Refreshed, position;
          }
          return InUse, position;
        }
        if r.addr == qp.data.addr {
          numSameHosts := numSameHosts + 1;
          if numSameHosts > 1 {
            TwoHostsRefuse(s, r, now, locked, max, next, k);
            return InUse, position;
          }
        }
        prev := qp;
        qp := qp.next;
        k := k + 1;
      }
      NotFound(s, r, now, locked, max, next);
      numQueued := numQueuedHere;
      if numQueued >= max {
        return GameFull, position;
      }
      if locked {
        return GameLocked, position;
      }
      Append(prev, Newcomer(r, next, now));
      next := next + 1;
      return Success, position;
    }

    // ---- operators

    method InsertFirst(qp: Node)
      requires Chained() && qp !in nodes && qp in repr
      modifies this`head, this`nodes, qp`next
      ensures Chained() && nodes == old([qp] + nodes)
    {
      ghost var more := [qp] + nodes;
      assert forall i :: 0 < i < |more| ==> more[i] == nodes[i - 1];
      qp.next := head;
      head := qp;
      nodes := more;
    }

    method InsertAfter(qp: Node, first: Node, ghost p: nat)
      requires Chained() && 0 < p <= |nodes| && qp !in nodes && qp in repr && first == nodes[p - 1]
      modifies this`nodes, qp`next, first`next
      ensures Chained() && nodes == old(nodes[..p] + [qp] + nodes[p..])
    {
      hide Linked, Distinct;
      ghost var ns := nodes;
      Links(ns, head);
      Inserted(ns, qp, p, repr);
      qp.next := first.next;
      first.next := qp;
      nodes := ns[..p] + [qp] + ns[p..];
      Relinked(ns, qp, p, head);
    }

    /** A node comes back on the list, behind the first p. */
    method Insert(qp: Node, first: Node?, ghost p: nat)
      requires Chained() && p <= |nodes| && qp !in nodes && qp in repr && first == At(nodes, p - 1)
      modifies this`head, this`nodes, repr`next
      ensures Chained() && nodes == old(nodes[..p] + [qp] + nodes[p..])
    {
      if first != null {
        InsertAfter(qp, first, p);
      } else {
        InsertFirst(qp);
      }
    }

    /** Node number j goes behind the first p. */
    method Relink(qp: Node, prev: Node, first: Node?, ghost p: nat, ghost j: nat)
      requires Listed() && p <= j < |nodes| && j > 0 && qp == nodes[j]
      requires prev == nodes[j - 1] && first == At(nodes, p - 1)
      modifies this`head, this`nodes, repr`next
      ensures Listed() && nodes == MovedUp(old(nodes), p, j)
    {
      hide Linked;
      Unlink(qp, prev, j);
      Insert(qp, first, p);
    }

    method MoveNode(qp: Node, prev: Node, first: Node?, ghost p: nat, ghost j: nat)
      requires Listed() && p <= j < |nodes| && j > 0 && qp == nodes[j]
      requires prev == nodes[j - 1] && first == At(nodes, p - 1)
      modifies this`head, this`nodes, repr`next
      ensures Listed() && Contents() == MovedUp(old(Contents()), p, j)
    {
      hide Linked;
      Relink(qp, prev, first, p, j);
    }

    /** The search of Queue_advance_player: the node, the one before it and the last before it that has a port. */
    method FindNode(name: Name) returns (qp: Node?, prev: Node?, first: Node?, ghost k: nat)
      requires Listed()
      ensures k <= |nodes| == |Contents()| && qp == At(nodes, k) && prev == At(nodes, k - 1)
      ensures first == At(nodes, UpToPorted(Contents(), k) - 1)
      ensures forall i :: 0 <= i < k ==> Fold(Contents()[i].nick) != Fold(name)
      ensures qp != null ==> Fold(Contents()[k].nick) == Fold(name)
    {
      hide Linked, Data, UpToPorted, Fold;
      ghost var s := Contents();
      NodesAre(0);
      NothingYet(s, name);
      k := 0;
      prev, qp, first := null, head, null;
      while qp != null
        invariant 0 <= k <= |nodes| == |s| && qp == At(nodes, k) && prev == At(nodes, k - 1)
        invariant first == At(nodes, UpToPorted(s, k) - 1)
        invariant forall i :: 0 <= i < k ==> Fold(s[i].nick) != Fold(name)
        decreases |nodes| - k
      {
        NodesAre(k);
        OneMorePorted(s, k);
        if Fold(qp.data.nick) == Fold(name) {
          return;
        } else if qp.data.loginPort != -1 {
          first := qp;
        }
        prev := qp;
        qp := qp.next;
        k := k + 1;
      }
    }

    /** Queue_advance_player */
    method AdvancePlayer(name: Name)
      requires Valid()
      modifies this`head, this`nodes, repr`next
      ensures Valid() && Contents() == Advanced(old(Contents()), name)
    {
      hide Listed, Data, Sound, Advanced, UpToPorted, Fold;
      ghost var s := Contents();
      AdvancedKeeps(s, name, max, next);
      NothingYet(s, name);
      if |name| >= MAX_NAME_LEN {
        return;
      }
      var qp, prev, first;
      ghost var k;
      qp, prev, first, k := FindNode(name);
      if qp == null {
        AlikeNowhere(s, name);
        return;
      }
      AlikeAt(s, name, k);
      NodesAre(k);
      if prev != null {
        if qp.data.loginPort == -1 {
          MoveNode(qp, prev, first, UpToPorted(s, k), k);
        }
      }
    }
  }

  lemma Links(ns: seq<Node>, head: Node?)
    requires Linked(ns, head)
    ensures head == At(ns, 0) && Distinct(ns) && forall k :: 0 <= k < |ns| ==> ns[k].next == At(ns, k + 1)
  {
  }

  lemma Inserted(ns: seq<Node>, qp: Node, p: nat, repr: set<Node>)
    requires Distinct(ns) && 0 < p <= |ns| && qp !in ns && qp in repr && forall k :: 0 <= k < |ns| ==> ns[k] in repr
    ensures var more := ns[..p] + [qp] + ns[p..];
            Distinct(more) && forall k :: 0 <= k < |more| ==> more[k] in repr
    ensures forall i :: 0 <= i < |ns| && i != p - 1 ==> ns[i] != ns[p - 1]
  {
  }

  lemma Relinked(ns: seq<Node>, qp: Node, p: nat, head: Node?)
    requires 0 < p <= |ns| && Distinct(ns[..p] + [qp] + ns[p..]) && head == At(ns, 0)
    requires forall k :: 0 <= k < |ns| && k != p - 1 ==> ns[k].next == At(ns, k + 1)
    requires qp.next == At(ns, p) && ns[p - 1].next == qp
    ensures Linked(ns[..p] + [qp] + ns[p..], head)
  {
    hide Distinct;
    var more := ns[..p] + [qp] + ns[p..];
    forall k | 0 <= k < |more|
      ensures more[k].next == At(more, k + 1)
    {
      if k < p {
        assert more[k] == ns[k];
      } else if k > p {
        assert more[k] == ns[k - 1];
      }
    }
  }

  lemma Nobody(s: seq<Queued>, r: Request)
    ensures SameHosts(s, r.addr, 0) == 0
  {
  }

  lemma OneMoreHost(s: seq<Queued>, addr: Name, k: nat)
    requires k < |s|
    ensures SameHosts(s, addr, k + 1) == SameHosts(s, addr, k) + if s[k].addr == addr then 1 else 0
  {
  }

  lemma {:induction false} FindIs(s: seq<Queued>, nick: Name, k: nat, n: nat)
    requires k < n <= |s| && s[k].nick == nick && forall i :: 0 <= i < k ==> s[i].nick != nick
    ensures Find(s, nick, n) == k
  {
    if n == k + 1 {
      FindsNone(s, nick, k);
    } else {
      FindIs(s, nick, k, n - 1);
    }
  }

  lemma FoundAt(s: seq<Queued>, r: Request, now: int, locked: bool, max: nat, next: nat, k: nat)
    requires k < |s| && s[k].nick == r.nick && forall i :: 0 <= i < k ==> s[i].nick != r.nick
    ensures Asked(s, r, now, locked, max, next)
            == if SameScreen(s[k], r) then (Refreshed, s[k := Refresh(s[k], r, now)]) else (InUse, s)
  {
    FindIs(s, r.nick, k, |s|);
  }

  lemma {:induction false} MoreHosts(s: seq<Queued>, addr: Name, k: nat, n: nat)
    requires k <= n <= |s|
    ensures SameHosts(s, addr, k) <= SameHosts(s, addr, n)
  {
    if k < n {
      MoreHosts(s, addr, k, n - 1);
    }
  }

  /** The search may stop at the second client of the host: the nick cannot come later from the same screen. */
  lemma TwoHostsRefuse(s: seq<Queued>, r: Request, now: int, locked: bool, max: nat, next: nat, k: nat)
    requires Sound(s, max, next) && k < |s| && SameHosts(s, r.addr, k + 1) >= 2
    requires forall i :: 0 <= i <= k ==> s[i].nick != r.nick
    ensures Asked(s, r, now, locked, max, next) == (InUse, s)
  {
    hide PortsFirst, NicksDiffer;
    HostsFound(s, r.addr, k + 1);
    MoreHosts(s, r.addr, k + 1, |s|);
  }

  lemma NotFound(s: seq<Queued>, r: Request, now: int, locked: bool, max: nat, next: nat)
    requires (forall i :: 0 <= i < |s| ==> s[i].nick != r.nick) && SameHosts(s, r.addr, |s|) < 2
    ensures Asked(s, r, now, locked, max, next)
            == if |s| >= max then (GameFull, s)
               else if locked then (GameLocked, s)
               else (Success, s + [Newcomer(r, next, now)])
  {
    FindsNone(s, r.nick, |s|);
  }

  lemma NothingYet(s: seq<Queued>, name: Name)
    ensures UpToPorted(s, 0) == 0 && (|name| >= MAX_NAME_LEN ==> Advanced(s, name) == s)
  {
  }

  lemma OneMorePorted(s: seq<Queued>, k: nat)
    requires k < |s|
    ensures UpToPorted(s, k + 1) == if s[k].loginPort != -1 then k + 1 else UpToPorted(s, k)
  {
  }

  lemma {:induction false} AlikeNone(s: seq<Queued>, name: Name, n: nat)
    requires n <= |s|
    ensures FindAlike(s, name, n) == -1 <==> forall i :: 0 <= i < n ==> Fold(s[i].nick) != Fold(name)
  {
    hide Fold;
    if n > 0 {
      AlikeNone(s, name, n - 1);
    }
  }

  lemma {:induction false} AlikeIs(s: seq<Queued>, name: Name, k: nat, n: nat)
    requires k < n <= |s| && Fold(s[k].nick) == Fold(name) && forall i :: 0 <= i < k ==> Fold(s[i].nick) != Fold(name)
    ensures FindAlike(s, name, n) == k
  {
    hide Fold;
    if n == k + 1 {
      AlikeNone(s, name, k);
    } else {
      AlikeIs(s, name, k, n - 1);
    }
  }

  lemma AlikeAt(s: seq<Queued>, name: Name, k: nat)
    requires k < |s| && |name| < MAX_NAME_LEN
    requires Fold(s[k].nick) == Fold(name) && forall i :: 0 <= i < k ==> Fold(s[i].nick) != Fold(name)
    ensures Advanced(s, name) == if k == 0 || s[k].loginPort != -1 then s else MovedUp(s, UpToPorted(s, k), k)
  {
    AlikeIs(s, name, k, |s|);
  }

  lemma AlikeNowhere(s: seq<Queued>, name: Name)
    requires forall i :: 0 <= i < |s| ==> Fold(s[i].nick) != Fold(name)
    ensures Advanced(s, name) == s
  {
    AlikeNone(s, name, |s|);
  }

  lemma Slices(s: seq<Queued>, k: nat)
    requires k < |s|
    ensures s[k..][0] == s[k] && Without(s, k)[k..] == s[k..][1..] && Without(s, k)[..k] == s[..k]
    ensures forall q :: s[k := q][k..] == [q] + s[k..][1..] && s[k := q][..k] == s[..k]
  {
  }

  lemma Rejoined(s: seq<Queued>, k: nat)
    requires k <= |s|
    ensures s[..k] + s[k..] == s
  {
  }

  /** What Reminding makes of a queue, from client number k on. */
  function RemindingFrom(s: seq<Queued>, k: nat, w: World, position: nat): (seq<Queued>, Maybe<Ack>)
    requires k <= |s|
  {
    var (t, ack) := Reminding(s[k..], w, position);
    (s[..k] + t, ack)
  }

  lemma RemindingStep(s: seq<Queued>, k: nat, w: World, position: nat)
    requires k < |s|
    ensures Expired(s[k], w) ==> RemindingFrom(s, k, w, position) == (Without(s, k), Nothing)
    ensures !Expired(s[k], w) && s[k].lastSent + 3 * w.fps <= w.now ==>
              RemindingFrom(s, k, w, position) == (s[k := Acked(s[k], w)], Just(Ack(s[k].nick, position + 1)))
    ensures !Expired(s[k], w) && !(s[k].lastSent + 3 * w.fps <= w.now) ==>
              RemindingFrom(s, k, w, position) == RemindingFrom(s, k + 1, w, position + 1)
  {
    assert s[k..][1..] == s[k + 1..] && s[..k + 1] == s[..k] + [s[k]];
    assert s[k := Acked(s[k], w)] == s[..k] + ([Acked(s[k], w)] + s[k + 1..]);
    var t := Reminding(s[k + 1..], w, position + 1).0;
    assert s[..k] + ([s[k]] + t) == s[..k + 1] + t;
  }

  lemma RemindingEnds(s: seq<Queued>, w: World, position: nat)
    ensures RemindingFrom(s, |s|, w, position) == (s, Nothing)
  {
    assert s[..|s|] + s[|s|..] == s;
  }

  lemma EnteringEnds(s: seq<Queued>, k: nat, w: World)
    requires k <= |s| && (k < |s| ==> s[k].loginPort <= 0)
    ensures EnteringFrom(s, k, w) == Entered(s[..k], s[k..], Nothing, false)
  {
  }

  /** What Entering makes of a queue whose first k clients it has passed by. */
  function EnteringFrom(s: seq<Queued>, k: nat, w: World): Entered
    requires k <= |s|
  {
    var e := Entering(s[k..], w);
    e.(kept := s[..k] + e.kept)
  }

  lemma EnteringStarts(s: seq<Queued>, w: World)
    ensures EnteringFrom(s, 0, w) == Entering(s, w)
  {
    assert s[0..] == s;
  }

  lemma AckedParts(s: seq<Queued>, k: nat, w: World)
    requires k < |s|
    ensures var t := s[k := Acked(s[k], w)]; t[..k + 1] == s[..k] + [Acked(s[k], w)] && t[k + 1..] == s[k + 1..]
  {
  }

  lemma EnteringStep(s: seq<Queued>, k: nat, w: World)
    requires k < |s| && s[k].loginPort > 0
    ensures Out(s[k], w) ==> EnteringFrom(s, k, w) == EnteringFrom(Without(s, k), k, w)
    ensures !Out(s[k], w) && Due(s[k], w) ==>
              EnteringFrom(s, k, w) == Entered(s[..k] + [Acked(s[k], w)], s[k + 1..], Just(Ack(s[k].nick, 0)), true)
              && s[..k] + [Acked(s[k], w)] + s[k + 1..] == s[k := Acked(s[k], w)]
    ensures !Out(s[k], w) && !Due(s[k], w) ==> EnteringFrom(s, k, w) == EnteringFrom(s, k + 1, w)
  {
    assert s[k..][1..] == s[k + 1..] == Without(s, k)[k..] && Without(s, k)[..k] == s[..k];
    assert s[..k] + ([s[k]] + Entering(s[k + 1..], w).kept) == s[..k + 1] + Entering(s[k + 1..], w).kept;
  }

  // ---- whole runs

  datatype Event = Asks(r: Request, now: int, locked: bool) | Passes(w: World) | Moves(name: Name)

  /** The queue, how many have joined it, the tickets of those that got a port, in that order, and when. */
  datatype State = State(queue: seq<Queued>, next: nat, log: seq<nat>, times: seq<int>)

  /** The static variable of Queue_loop: when a port was last given. */
  function LastTime(times: seq<int>): int {
    if times == [] then 0 else times[|times| - 1]
  }

  /** The world as a pass finds it after those times. */
  function Found(w: World, times: seq<int>): World {
    w.(lastUnqueued := LastTime(times))
  }

  function Step(s: State, e: Event, max: nat): State {
    match e
    case Asks(r, now, locked) =>
      var (status, t) := Asked(s.queue, r, now, locked, max, s.next);
      s.(queue := t, next := if status == Success then s.next + 1 else s.next)
    case Passes(w) =>
      var p := Looped(s.queue, Found(w, s.times));
      if p.ticket.Just? then State(p.queue, s.next, s.log + [p.ticket.value], s.times + [w.now])
      else s.(queue := p.queue)
    case Moves(name) => s.(queue := Advanced(s.queue, name))
  }

  function Run(es: seq<Event>, max: nat): State {
    if es == [] then State([], 0, [], []) else Step(Run(es[..|es| - 1], max), es[|es| - 1], max)
  }

  predicate Possible(e: Event) {
    e.Passes? ==> e.w.setup == -1 || e.w.setup > 0
  }

  function Latest(log: seq<nat>): int {
    if log == [] then -1 else log[|log| - 1]
  }

  ghost predicate Increasing(log: seq<nat>) {
    forall i, j :: 0 <= i < j < |log| ==> log[i] < log[j]
  }

  lemma StepKeeps(s: State, e: Event, max: nat)
    requires Sound(s.queue, max, s.next) && Latest(s.log) < s.next && Possible(e)
    ensures var t := Step(s, e, max);
            && Sound(t.queue, max, t.next) && Latest(t.log) < t.next
            && (!e.Moves? && InOrder(s.queue, Latest(s.log)) && Increasing(s.log) ==>
                  InOrder(t.queue, Latest(t.log)) && Increasing(t.log))
  {
    hide Sound, InOrder, Asked, Looped, Advanced;
    match e {
      case Asks(r, now, locked) => AskedKeeps(s.queue, r, now, locked, max, Latest(s.log), s.next);
      case Passes(w) =>
        LoopedKeeps(s.queue, Found(w, s.times), max, Latest(s.log), s.next);
      case Moves(name) => AdvancedKeeps(s.queue, name, max, s.next);
    }
  }

  /** In every run the queue is sound; and unless an operator interferes, ports are given in the order of arrival. */
  lemma {:induction false} RunKeeps(es: seq<Event>, max: nat)
    requires forall e <- es :: Possible(e)
    ensures var s := Run(es, max);
            && Sound(s.queue, max, s.next) && Latest(s.log) < s.next
            && ((forall e <- es :: !e.Moves?) ==> InOrder(s.queue, Latest(s.log)) && Increasing(s.log))
    decreases |es|
  {
    if es != [] {
      hide Step, Sound, InOrder;
      var n := |es| - 1;
      RunKeeps(es[..n], max);
      StepKeeps(Run(es[..n], max), es[n], max);
    }
  }

  /** In every run: a pass that lets nobody in gives no port, and one that can let in the first who waits gives it to
      him. So without room nobody is served, and the first who waits is served by the first pass that can. */
  lemma PassInRun(es: seq<Event>, w: World, max: nat)
    requires (forall e <- es :: Possible(e)) && Possible(Passes(w))
    ensures var s, t := Run(es, max), Run(es + [Passes(w)], max);
            && ((!exists n :: Admits(s.queue, n, Found(w, s.times))) ==>
                  t.log == s.log && t.times == s.times && !PortGiven(s.queue, t.queue))
            && (forall n: nat :: Admits(s.queue, n, Found(w, s.times)) ==>
                  t.log == s.log + [s.queue[n].ticket] && t.times == s.times + [w.now]
                  && PortGiven(s.queue, t.queue))
            && (!w.room ==> t.log == s.log)
  {
    var all := es + [Passes(w)];
    assert all[..|all| - 1] == es && all[|all| - 1] == Passes(w);
    hide Looped, PortGiven, Sound;
    var s := Run(es, max);
    RunKeeps(es, max);
    PortIsGiven(s.queue, Found(w, s.times), max, s.next);
    NoTicket(s.queue, Found(w, s.times), max, s.next);
  }

  lemma NoTicket(s: seq<Queued>, w: World, max: nat, next: nat)
    requires Sound(s, max, next)
    ensures Looped(s, w).ticket.Just? ==> exists n :: Admits(s, n, w)
  {
    hide Looped;
    var n := PortsEnd(s);
    if j :| 0 <= j < n && ToldAgain(s[j], w) {
      var first := FirstOf(s, j, w);
      TellsAgain(s, n, first, w);
    } else if !Admits(s, n, w) {
      if n == |s| || Silent(s[n], w) || (Tries(s[n], w) && TeamOf(s[n], w) != Nothing && w.setup == -1) {
        EndsEarly(s, n, w);
      } else {
        Waits(s, n, w);
      }
    }
  }

  /** Ports are given more than a quarter of a second apart. */
  ghost predicate Spaced(times: seq<int>, fps: nat) {
    forall i :: 0 <= i < |times| ==> LastTime(times[..i]) + 2 + fps / 4 < times[i]
  }

  lemma SpacedMore(times: seq<int>, t: int, fps: nat)
    requires Spaced(times, fps) && LastTime(times) + 2 + fps / 4 < t
    ensures Spaced(times + [t], fps)
  {
    var more := times + [t];
    forall i | 0 <= i < |more|
      ensures LastTime(more[..i]) + 2 + fps / 4 < more[i]
    {
      if i < |times| {
        assert more[..i] == times[..i];
      } else {
        assert more[..i] == times;
      }
    }
  }

  lemma StepIsSlow(s: State, e: Event, max: nat, fps: nat)
    requires Sound(s.queue, max, s.next) && Spaced(s.times, fps) && (e.Passes? ==> e.w.fps == fps)
    ensures Spaced(Step(s, e, max).times, fps)
  {
    hide Looped, Asked, Advanced, Spaced, Sound, LastTime;
    if e.Passes? && Looped(s.queue, Found(e.w, s.times)).ticket.Just? {
      NoTicket(s.queue, Found(e.w, s.times), max, s.next);
      SpacedMore(s.times, e.w.now, fps);
    }
  }

  lemma {:induction false} RunIsSlow(es: seq<Event>, max: nat, fps: nat)
    requires (forall e <- es :: Possible(e)) && forall e <- es :: e.Passes? ==> e.w.fps == fps
    ensures Spaced(Run(es, max).times, fps)
    decreases |es|
  {
    hide Step, Spaced, Sound;
    if es == [] {
      NoneSpaced(fps);
    } else {
      var n := |es| - 1;
      RunIsSlow(es[..n], max, fps);
      RunKeeps(es[..n], max);
      StepIsSlow(Run(es[..n], max), es[n], max, fps);
    }
  }

  lemma NoneSpaced(fps: nat)
    ensures Spaced([], fps)
  {
  }
}
