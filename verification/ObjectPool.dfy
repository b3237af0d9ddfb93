/** The object pool of src/server/object.cpp and src/server/shot.cpp: balls, shots and scrap live in the first
    NumObjs slots of one array, are removed by swapping, and are pointed at by players and treasures. */
module ObjectPool {
  import opened Sequences

  const MAX_OBJECT_LIFE: int := 0x7FFF_FFFF

  datatype Kind = None | Spark | Debris | Wreckage | Ball | Shot

  class Treasure {
    const team: int
    var have: bool

    constructor (team: int)
      ensures this.team == team && !have
    {
      this.team, have := team, false;
    }
  }

  /** The fields of a player that have to do with objects. */
  datatype Crew = Crew(shots: int, shotTime: int, hasBall: bool, usesConnector: bool, ballTmp: GameObject?)

  class Player {
    var shots: int
    var shotTime: int
    var hasBall: bool
    var usesConnector: bool
    var ballTmp: GameObject?

    constructor ()
      ensures Now() == Crew(0, 0, false, false, null)
    {
      shots, shotTime, hasBall, usesConnector, ballTmp := 0, 0, false, false, null;
    }

    ghost function Now(): Crew
      reads this`shots, this`shotTime, this`hasBall, this`usesConnector, this`ballTmp
    {
      Crew(shots, shotTime, hasBall, usesConnector, ballTmp)
    }
  }

  /** The fields of an object other than its place. */
  datatype View = View(kind: Kind, life: int, owner: Player?, attached: bool, treasure: Treasure?, looseCount: int,
                       looseTicks: int)

  const BLANK := View(None, 0, null, false, null, 0, 0)

  class GameObject {
    var id: nat
    var kind: Kind
    var life: int
    var owner: Player?
    var attached: bool
    var treasure: Treasure?
    var looseCount: int
    var looseTicks: int

    constructor (id: nat)
      ensures this.id == id && Now() == BLANK
    {
      this.id := id;
      kind, life, owner, attached, treasure, looseCount, looseTicks := None, 0, null, false, null, 0, 0;
    }

    ghost function Now(): View
      reads this`kind, this`life, this`owner, this`attached, this`treasure, this`looseCount, this`looseTicks
    {
      View(kind, life, owner, attached, treasure, looseCount, looseTicks)
    }

    /** memset: everything but the place is wiped. */
    method Wipe()
      modifies this`kind, this`life, this`owner, this`attached, this`treasure, this`looseCount, this`looseTicks
      ensures Now() == BLANK
    {
      kind, life, owner, attached, treasure, looseCount, looseTicks := None, 0, null, false, null, 0, 0;
    }
  }

  // ---- what the live objects, players and treasures say about each other

  type Objects = map<GameObject, View>

  datatype State = State(objs: Objects, players: map<Player, Crew>, have: map<Treasure, bool>,
                         ballOf: map<Treasure, GameObject>)

  ghost function ShotsOf(objs: Objects, p: Player): set<GameObject> {
    set o | o in objs && objs[o].kind == Shot && objs[o].owner == p
  }

  ghost function HeldBy(objs: Objects, p: Player): set<GameObject> {
    set o | o in objs && objs[o].attached && objs[o].owner == p
  }

  ghost predicate Owned(objs: Objects, players: set<Player>) {
    forall o <- objs ::
      && objs[o].kind != None
      && (objs[o].owner == null || objs[o].owner in players)
      && (objs[o].attached ==> objs[o].kind == Ball && objs[o].owner != null)
  }

  /** Exactly one ball for each treasure, and nobody owns a ball that is in its box. */
  ghost predicate OneBallEach(objs: Objects, have: map<Treasure, bool>, ballOf: map<Treasure, GameObject>) {
    && (forall t <- ballOf ::
          && t in have && ballOf[t] in objs && objs[ballOf[t]].kind == Ball && objs[ballOf[t]].treasure == t
          && (have[t] ==> objs[ballOf[t]].owner == null))
    && (forall o <- objs :: objs[o].kind == Ball ==>
          objs[o].treasure != null && objs[o].treasure in ballOf && ballOf[objs[o].treasure] == o)
  }

  ghost predicate Counted(objs: Objects, players: map<Player, Crew>) {
    forall p <- players :: players[p].shots == |ShotsOf(objs, p)|
  }

  ghost predicate Holding(objs: Objects, players: map<Player, Crew>) {
    forall p <- players :: players[p].hasBall <==> HeldBy(objs, p) != {}
  }

  ghost predicate LiveBall(objs: Objects, ball: GameObject?) {
    ball in objs && objs[ball].kind == Ball
  }

  /** A player may be connecting to a ball; gone is a ball on its way out. */
  ghost predicate Connecting(objs: Objects, players: map<Player, Crew>, gone: GameObject?) {
    forall p <- players ::
      players[p].ballTmp == null || players[p].ballTmp == gone || LiveBall(objs, players[p].ballTmp)
  }

  ghost predicate Sound(s: State, gone: GameObject?) {
    && Owned(s.objs, s.players.Keys) && OneBallEach(s.objs, s.have, s.ballOf)
    && Counted(s.objs, s.players) && Holding(s.objs, s.players) && Connecting(s.objs, s.players, gone)
  }

  // ---- the steps, on states

  function FreshBall(t: Treasure?): View {
    View(Ball, MAX_OBJECT_LIFE, null, false, t, 0, 0)
  }

  ghost function BallAdded(s: State, t: Treasure, ball: GameObject): State {
    State(s.objs[ball := FreshBall(t)], s.players, s.have[t := true], s.ballOf[t := ball])
  }

  lemma BallAddedSound(s: State, t: Treasure, ball: GameObject, gone: GameObject?)
    requires Sound(s, gone) && ball !in s.objs && t in s.have && t !in s.ballOf && (gone == null || gone == ball)
    ensures Sound(BallAdded(s, t, ball), null)
  {
    var objs := s.objs[ball := FreshBall(t)];
    assert OneBallEach(objs, s.have[t := true], s.ballOf[t := ball]);
    hide OneBallEach;
    assert Owned(objs, s.players.Keys);
    assert Connecting(objs, s.players, null);
    hide Owned, Connecting;
    forall p <- s.players
      ensures ShotsOf(objs, p) == ShotsOf(s.objs, p) && HeldBy(objs, p) == HeldBy(s.objs, p)
    {
    }
    hide ShotsOf, HeldBy;
  }

  ghost function Freed(objs: Objects, p: Player, ball: GameObject?): Objects {
    map o | o in objs ::
      if objs[o].attached && objs[o].owner == p && (ball == null || ball == o) then objs[o].(attached := false)
      else objs[o]
  }

  ghost function Unhanded(objs: Objects, players: map<Player, Crew>, p: Player, ball: GameObject?): map<Player, Crew>
    requires p in players
  {
    var c := players[p];
    var hit := ball == null || ball == c.ballTmp;
    players[p := c.(
      hasBall := HeldBy(Freed(objs, p, ball), p) != {},
      ballTmp := if hit then null else c.ballTmp,
      usesConnector := c.usesConnector && !hit)]
  }

  /** Ball_detach: the given ball of a player, or all of them. */
  ghost function Detached(s: State, p: Player, ball: GameObject?): State
    requires p in s.players
  {
    s.(objs := Freed(s.objs, p, ball), players := Unhanded(s.objs, s.players, p, ball))
  }

  lemma FreedOwned(objs: Objects, players: map<Player, Crew>, p: Player, ball: GameObject?)
    requires p in players && Owned(objs, players.Keys)
    ensures Owned(Freed(objs, p, ball), Unhanded(objs, players, p, ball).Keys)
  {
    assert Unhanded(objs, players, p, ball).Keys == players.Keys;
  }

  lemma FreedOneBall(s: State, p: Player, ball: GameObject?)
    requires OneBallEach(s.objs, s.have, s.ballOf)
    ensures OneBallEach(Freed(s.objs, p, ball), s.have, s.ballOf)
  {
  }

  lemma FreedConnecting(objs: Objects, players: map<Player, Crew>, p: Player, ball: GameObject?, gone: GameObject?)
    requires p in players && Connecting(objs, players, gone)
    ensures Connecting(Freed(objs, p, ball), Unhanded(objs, players, p, ball), gone)
  {
  }

  lemma FreedCounted(objs: Objects, players: map<Player, Crew>, p: Player, ball: GameObject?)
    requires p in players && Counted(objs, players)
    ensures Counted(Freed(objs, p, ball), Unhanded(objs, players, p, ball))
  {
    forall q <- players
      ensures |ShotsOf(Freed(objs, p, ball), q)| == |ShotsOf(objs, q)|
    {
      assert ShotsOf(Freed(objs, p, ball), q) == ShotsOf(objs, q);
    }
  }

  lemma FreedHolding(objs: Objects, players: map<Player, Crew>, p: Player, ball: GameObject?)
    requires p in players && Holding(objs, players)
    ensures Holding(Freed(objs, p, ball), Unhanded(objs, players, p, ball))
  {
    forall q <- players | q != p
      ensures HeldBy(Freed(objs, p, ball), q) == HeldBy(objs, q)
    {
    }
  }

  lemma DetachedSound(s: State, p: Player, ball: GameObject?, gone: GameObject?)
    requires p in s.players && Sound(s, gone)
    ensures Sound(Detached(s, p, ball), gone)
  {
    hide Owned, OneBallEach, Counted, Holding, Connecting, Freed, Unhanded;
    FreedOwned(s.objs, s.players, p, ball);
    FreedOneBall(s, p, ball);
    FreedCounted(s.objs, s.players, p, ball);
    FreedHolding(s.objs, s.players, p, ball);
    FreedConnecting(s.objs, s.players, p, ball, gone);
  }

  /** Nobody is connecting to the ball any more. */
  ghost function Forgotten(players: map<Player, Crew>, ball: GameObject): map<Player, Crew> {
    map p | p in players :: if players[p].ballTmp == ball then players[p].(ballTmp := null) else players[p]
  }

  /** Object_remove, before the slot is given up. */
  ghost function LetGo(s: State, obj: GameObject): State
    requires obj in s.objs && Owned(s.objs, s.players.Keys) && OneBallEach(s.objs, s.have, s.ballOf)
  {
    var v := s.objs[obj];
    if v.kind == Ball then
      var u := if v.attached then Detached(s, v.owner, obj) else s.(players := Forgotten(s.players, obj));
      u.(have := u.have[v.treasure := false])
    else if v.kind == Shot && v.owner != null then
      s.(players := OneLess(s.players, v.owner))
    else
      s
  }

  ghost function OneLess(players: map<Player, Crew>, p: Player): map<Player, Crew>
    requires p in players
  {
    var c := players[p];
    players[p := c.(shots := if c.shots - 1 <= 0 then 0 else c.shots - 1)]
  }

  ghost function Removed(s: State, obj: GameObject): State
    requires obj in s.objs && Owned(s.objs, s.players.Keys) && OneBallEach(s.objs, s.have, s.ballOf)
  {
    Without(LetGo(s, obj), obj)
  }

  ghost function Without(s: State, obj: GameObject): State
    requires obj in s.objs
  {
    s.(objs := s.objs - {obj},
       ballOf := if s.objs[obj].kind == Ball then s.ballOf - {s.objs[obj].treasure} else s.ballOf)
  }

  ghost predicate CountedBut(objs: Objects, players: map<Player, Crew>, obj: GameObject) {
    forall p <- players :: players[p].shots == |ShotsOf(objs, p) - {obj}|
  }

  /** What is left to take out of the live objects after LetGo. */
  ghost predicate Leaving(s: State, obj: GameObject) {
    && obj in s.objs && !s.objs[obj].attached
    && Owned(s.objs, s.players.Keys) && OneBallEach(s.objs, s.have, s.ballOf)
    && Holding(s.objs, s.players) && Connecting(s.objs, s.players, null) && CountedBut(s.objs, s.players, obj)
  }

  lemma NotShot(objs: Objects, players: map<Player, Crew>, obj: GameObject)
    requires obj in objs && Counted(objs, players) && (objs[obj].kind != Shot || objs[obj].owner == null)
    ensures CountedBut(objs, players, obj)
  {
    forall p <- players
      ensures players[p].shots == |ShotsOf(objs, p) - {obj}|
    {
      assert ShotsOf(objs, p) - {obj} == ShotsOf(objs, p);
    }
  }

  lemma BoxEmptied(s: State, obj: GameObject)
    requires obj in s.objs && OneBallEach(s.objs, s.have, s.ballOf) && s.objs[obj].kind == Ball
    ensures OneBallEach(s.objs, s.have[s.objs[obj].treasure := false], s.ballOf)
  {
  }

  lemma HeldBallLeaves(s: State, obj: GameObject)
    requires obj in s.objs && Sound(s, null) && s.objs[obj].attached
    ensures Leaving(LetGo(s, obj), obj)
  {
    var v := s.objs[obj];
    var u := Detached(s, v.owner, obj);
    assert v.kind == Ball && v.owner in s.players && u.objs[obj] == v.(attached := false);
    hide Owned, OneBallEach, Counted, Holding, Connecting, Freed, Unhanded, CountedBut;
    DetachedSound(s, v.owner, obj, null);
    NotShot(u.objs, u.players, obj);
    BoxEmptied(u, obj);
  }

  lemma ForgottenKeeps(objs: Objects, players: map<Player, Crew>, ball: GameObject)
    requires Counted(objs, players) && Holding(objs, players) && Connecting(objs, players, null)
    ensures Counted(objs, Forgotten(players, ball)) && Holding(objs, Forgotten(players, ball))
    ensures Connecting(objs, Forgotten(players, ball), null) && Forgotten(players, ball).Keys == players.Keys
  {
    hide ShotsOf, HeldBy, LiveBall;
  }

  lemma LooseBallLeaves(s: State, obj: GameObject)
    requires obj in s.objs && Sound(s, null) && s.objs[obj].kind == Ball && !s.objs[obj].attached
    ensures Leaving(LetGo(s, obj), obj)
  {
    hide Owned, OneBallEach, Counted, Holding, Connecting, Forgotten, CountedBut;
    ForgottenKeeps(s.objs, s.players, obj);
    NotShot(s.objs, Forgotten(s.players, obj), obj);
    BoxEmptied(s, obj);
  }

  lemma OneLessKeeps(objs: Objects, players: map<Player, Crew>, p: Player)
    requires p in players && Holding(objs, players) && Connecting(objs, players, null)
    ensures Holding(objs, OneLess(players, p)) && Connecting(objs, OneLess(players, p), null)
    ensures OneLess(players, p).Keys == players.Keys
  {
    hide HeldBy, LiveBall;
  }

  lemma OneLessCounted(objs: Objects, players: map<Player, Crew>, obj: GameObject, p: Player)
    requires p in players && Counted(objs, players) && obj in ShotsOf(objs, p)
    ensures CountedBut(objs, OneLess(players, p), obj)
  {
    forall q <- players
      ensures OneLess(players, p)[q].shots == |ShotsOf(objs, q) - {obj}|
    {
      if q != p {
        assert ShotsOf(objs, q) - {obj} == ShotsOf(objs, q);
      }
    }
  }

  lemma ShotLeaves(s: State, obj: GameObject)
    requires obj in s.objs && Sound(s, null) && s.objs[obj].kind == Shot && s.objs[obj].owner != null
    ensures Leaving(LetGo(s, obj), obj)
  {
    var p := s.objs[obj].owner;
    assert obj in ShotsOf(s.objs, p) && p in s.players && !s.objs[obj].attached;
    hide Owned, OneBallEach, Counted, Holding, Connecting, CountedBut, OneLess;
    OneLessKeeps(s.objs, s.players, p);
    OneLessCounted(s.objs, s.players, obj, p);
  }

  lemma WithoutCounted(objs: Objects, players: map<Player, Crew>, obj: GameObject)
    requires obj in objs && CountedBut(objs, players, obj)
    ensures Counted(objs - {obj}, players)
  {
    hide ShotsOf;
    forall p <- players
      ensures players[p].shots == |ShotsOf(objs - {obj}, p)|
    {
      WithoutShots(objs, obj, p);
    }
  }

  lemma WithoutShots(objs: Objects, obj: GameObject, p: Player)
    ensures ShotsOf(objs - {obj}, p) == ShotsOf(objs, p) - {obj}
  {
  }

  lemma WithoutHolding(objs: Objects, players: map<Player, Crew>, obj: GameObject)
    requires obj in objs && !objs[obj].attached && Holding(objs, players)
    ensures Holding(objs - {obj}, players)
  {
    forall p <- players
      ensures players[p].hasBall <==> HeldBy(objs - {obj}, p) != {}
    {
      assert HeldBy(objs - {obj}, p) == HeldBy(objs, p);
    }
  }

  lemma WithoutConnecting(objs: Objects, players: map<Player, Crew>, obj: GameObject)
    requires obj in objs && Connecting(objs, players, null)
    ensures Connecting(objs - {obj}, players, if objs[obj].kind == Ball then obj else null)
  {
  }

  lemma WithoutOneBall(s: State, obj: GameObject)
    requires obj in s.objs && OneBallEach(s.objs, s.have, s.ballOf)
    ensures OneBallEach(Without(s, obj).objs, s.have, Without(s, obj).ballOf)
  {
  }

  lemma LeavingSound(s: State, obj: GameObject)
    requires Leaving(s, obj)
    ensures Sound(Without(s, obj), if s.objs[obj].kind == Ball then obj else null)
  {
    assert Owned(s.objs - {obj}, s.players.Keys);
    hide Owned, OneBallEach, Counted, Holding, Connecting, CountedBut;
    WithoutCounted(s.objs, s.players, obj);
    WithoutHolding(s.objs, s.players, obj);
    WithoutConnecting(s.objs, s.players, obj);
    WithoutOneBall(s, obj);
  }

  lemma RemovedSound(s: State, obj: GameObject)
    requires obj in s.objs && Sound(s, null)
    ensures Sound(Removed(s, obj), if s.objs[obj].kind == Ball then obj else null)
  {
    if s.objs[obj].kind == Ball {
      if s.objs[obj].attached { HeldBallLeaves(s, obj); } else { LooseBallLeaves(s, obj); }
    } else if s.objs[obj].kind == Shot && s.objs[obj].owner != null {
      ShotLeaves(s, obj);
    } else {
      NotShot(s.objs, s.players, obj);
    }
    LeavingSound(LetGo(s, obj), obj);
  }

  /** Only lives and counters differ. */
  ghost predicate SameLinks(a: Objects, b: Objects) {
    && a.Keys == b.Keys
    && forall o <- a :: a[o].kind == b[o].kind && a[o].owner == b[o].owner && a[o].attached == b[o].attached
                        && a[o].treasure == b[o].treasure
  }

  lemma SameCounted(a: Objects, b: Objects, players: map<Player, Crew>)
    requires SameLinks(a, b) && Counted(a, players) && Holding(a, players)
    ensures Counted(b, players) && Holding(b, players)
  {
    forall p <- players
      ensures ShotsOf(a, p) == ShotsOf(b, p) && HeldBy(a, p) == HeldBy(b, p)
    {
      assert forall o :: o in a <==> o in b;
    }
    hide ShotsOf, HeldBy;
  }

  lemma SameOneBall(s: State, b: Objects)
    requires SameLinks(s.objs, b) && OneBallEach(s.objs, s.have, s.ballOf)
    ensures OneBallEach(b, s.have, s.ballOf)
  {
    assert forall o :: o in s.objs <==> o in b;
  }

  lemma SameSound(s: State, b: Objects, gone: GameObject?)
    requires Sound(s, gone) && SameLinks(s.objs, b)
    ensures Sound(s.(objs := b), gone)
  {
    assert forall o :: o in s.objs <==> o in b;
    assert Owned(b, s.players.Keys) && Connecting(b, s.players, gone);
    hide Owned, OneBallEach, Counted, Holding, Connecting, SameLinks;
    SameCounted(s.objs, b, s.players);
    SameOneBall(s, b);
  }

  // ---- Objects_remove_timed_out

  function Older(v: View, have: bool, onTick: bool): View {
    var loose := v.kind == Ball && !have;
    v.(life := v.life - 1, looseCount := v.looseCount + (if loose then 1 else 0),
       looseTicks := v.looseTicks + (if loose && onTick then 1 else 0))
  }

  /** What one call of Objects_remove_timed_out does with an object. */
  datatype Fate = Kept(v: View) | Gone | Recreated

  function Aged(v: View, have: bool, onTick: bool): Fate {
    if !onTick && (v.kind == Spark || v.kind == Debris) then Kept(v)
    else if v.life - 1 > 0 then Kept(Older(v, have, onTick))
    else if v.kind == Ball then Recreated
    else Gone
  }

  ghost function FateOf(s: State, o: GameObject, onTick: bool): Fate
    requires o in s.objs
  {
    Aged(s.objs[o], BoxHas(s, o), onTick)
  }

  ghost predicate BoxHas(s: State, o: GameObject)
    requires o in s.objs
  {
    s.objs[o].treasure != null && s.objs[o].treasure in s.have && s.have[s.objs[o].treasure]
  }

  ghost function Ticked(s: State, o: GameObject, onTick: bool): State
    requires o in s.objs
  {
    s.(objs := s.objs[o := Older(s.objs[o], BoxHas(s, o), onTick)])
  }

  lemma TickedSound(s: State, o: GameObject, onTick: bool)
    requires o in s.objs && Sound(s, null)
    ensures Sound(Ticked(s, o, onTick), null)
  {
    hide Sound;
    SameSound(s, Ticked(s, o, onTick).objs, null);
  }

  /** The turn of one object. */
  ghost function Stepped(s: State, o: GameObject, onTick: bool): State
    requires o in s.objs && Sound(s, null)
  {
    TickedSound(s, o, onTick);
    match FateOf(s, o, onTick)
    case Kept(v) => s.(objs := s.objs[o := v])
    case Gone => Removed(Ticked(s, o, onTick), o)
    case Recreated => BallAdded(Removed(Ticked(s, o, onTick), o), s.objs[o].treasure, o)
  }

  /** The rest of the objects are left alone when one is removed. */
  lemma RemovedShape(s: State, o: GameObject)
    requires o in s.objs && Sound(s, null)
    ensures var r := Removed(s, o);
            && r.objs == s.objs - {o} && r.players.Keys == s.players.Keys
            && (s.objs[o].kind == Ball ==> s.objs[o].treasure != null && s.objs[o].treasure in s.have
                                           && r.ballOf == s.ballOf - {s.objs[o].treasure}
                                           && r.have == s.have[s.objs[o].treasure := false])
            && (s.objs[o].kind != Ball ==> r.ballOf == s.ballOf && r.have == s.have)
  {
    hide Counted, Holding, Connecting;
    assert LetGo(s, o).objs - {o} == s.objs - {o};
    assert LetGo(s, o).players.Keys == s.players.Keys;
  }

  lemma RecreatedSound(s: State, o: GameObject)
    requires o in s.objs && Sound(s, null) && s.objs[o].kind == Ball
    ensures s.objs[o].treasure != null && Sound(BallAdded(Removed(s, o), s.objs[o].treasure, o), null)
  {
    RemovedSound(s, o);
    RemovedShape(s, o);
    hide Sound, Removed, Owned, OneBallEach;
    BallAddedSound(Removed(s, o), s.objs[o].treasure, o, o);
  }

  lemma SteppedSound(s: State, o: GameObject, onTick: bool)
    requires o in s.objs && Sound(s, null)
    ensures Sound(Stepped(s, o, onTick), null)
  {
    hide Sound;
    var u := Ticked(s, o, onTick);
    SameSound(s, u.objs, null);
    match FateOf(s, o, onTick) {
      case Kept(v) => SameSound(s, s.objs[o := v], null);
      case Gone => RemovedSound(u, o);
      case Recreated => RecreatedSound(u, o);
    }
  }

  lemma RecreatedShape(s: State, o: GameObject)
    requires o in s.objs && Sound(s, null) && s.objs[o].kind == Ball
    ensures var t := s.objs[o].treasure;
            && t != null
            && var r := BallAdded(Removed(s, o), t, o);
               && r.objs == s.objs[o := FreshBall(t)] && r.have == s.have[t := true] && r.ballOf == s.ballOf
               && r.players.Keys == s.players.Keys
  {
    RemovedShape(s, o);
    BallsBack(s, o);
    hide Sound, Removed, Owned, OneBallEach;
  }

  /** All but the players' part of a turn. */
  lemma SteppedShape(s: State, o: GameObject, onTick: bool)
    requires o in s.objs && Sound(s, null)
    ensures var r, f := Stepped(s, o, onTick), FateOf(s, o, onTick);
            && r.objs == Turned(s.objs, o, f)
            && r.have == (if f == Recreated && s.objs[o].treasure != null then s.have[s.objs[o].treasure := true]
                          else s.have)
            && r.ballOf == s.ballOf && r.players.Keys == s.players.Keys
  {
    hide Owned, OneBallEach, Counted, Holding, Connecting, Removed, BallAdded;
    var u := Ticked(s, o, onTick);
    TickedSound(s, o, onTick);
    match FateOf(s, o, onTick) {
      case Kept(v) =>
      case Gone => RemovedShape(u, o);
      case Recreated => RecreatedShape(u, o);
    }
  }

  lemma BallsBack(s: State, o: GameObject)
    requires o in s.objs && Sound(s, null) && s.objs[o].kind == Ball
    ensures s.objs[o].treasure != null && s.objs[o].treasure in s.have
    ensures (s.ballOf - {s.objs[o].treasure})[s.objs[o].treasure := o] == s.ballOf
  {
  }

  ghost function Turned(objs: Objects, o: GameObject, f: Fate): Objects
    requires o in objs
  {
    match f
    case Kept(v) => objs[o := v]
    case Gone => objs - {o}
    case Recreated => objs[o := FreshBall(objs[o].treasure)]
  }

  ghost function Settled(s: State, o: GameObject, onTick: bool): View
    requires o in s.objs
  {
    match FateOf(s, o, onTick)
    case Kept(v) => v
    case Gone => BLANK
    case Recreated => FreshBall(s.objs[o].treasure)
  }

  ghost function SweptObjs(s: State, done: set<GameObject>, onTick: bool): Objects {
    map o | o in s.objs && (o !in done || FateOf(s, o, onTick) != Gone) ::
      if o in done then Settled(s, o, onTick) else s.objs[o]
  }

  ghost predicate Reset(s: State, o: GameObject?, done: set<GameObject>, onTick: bool) {
    o in s.objs && o in done && FateOf(s, o, onTick) == Recreated
  }

  ghost function SweptHave(s: State, done: set<GameObject>, onTick: bool): map<Treasure, bool> {
    map t | t in s.have :: s.have[t] || (t in s.ballOf && Reset(s, s.ballOf[t], done, onTick))
  }

  /** The counts are those of what is left; a string to a ball that was reset is cut, unless the ball was another
      player's. */
  ghost function SweptCrew(s: State, p: Player, done: set<GameObject>, onTick: bool): Crew
    requires p in s.players
  {
    var objs, c := SweptObjs(s, done, onTick), s.players[p];
    var lost := Reset(s, c.ballTmp, done, onTick) && (!s.objs[c.ballTmp].attached || s.objs[c.ballTmp].owner == p);
    Crew(|ShotsOf(objs, p)|, c.shotTime, HeldBy(objs, p) != {},
         c.usesConnector && !(lost && s.objs[c.ballTmp].attached), if lost then null else c.ballTmp)
  }

  /** Objects_remove_timed_out, as far as the objects in done. */
  ghost function Swept(s: State, done: set<GameObject>, onTick: bool): State {
    State(SweptObjs(s, done, onTick), map p | p in s.players :: SweptCrew(s, p, done, onTick),
          SweptHave(s, done, onTick), s.ballOf)
  }

  /** Sparks and debris are only counted down on ticks. */
  ghost predicate Resting(v: View, onTick: bool) {
    !onTick && (v.kind == Spark || v.kind == Debris)
  }

  /** What a sweep does to the objects: one is gone exactly if it is no ball and its life was over; a ball whose life
      was over lies in its box; all others are one turn older. */
  ghost predicate AgedByOne(s: State, u: State, onTick: bool) {
    && u.objs.Keys <= s.objs.Keys
    && forall o <- s.objs ::
         var v := s.objs[o];
         if Resting(v, onTick) then o in u.objs && u.objs[o] == v
         else if v.life <= 1 then
           if v.kind == Ball then
             && o in u.objs && u.objs[o] == View(Ball, 0x7FFF_FFFF, null, false, v.treasure, 0, 0)
             && v.treasure != null && v.treasure in u.have && u.have[v.treasure]
           else o !in u.objs
         else
           var loose := v.kind == Ball && !BoxHas(s, o);
           && o in u.objs
           && u.objs[o] == v.(life := v.life - 1,
                              looseCount := if loose then v.looseCount + 1 else v.looseCount,
                              looseTicks := if loose && onTick then v.looseTicks + 1 else v.looseTicks)
  }

  lemma SweptAged(s: State, onTick: bool)
    requires Sound(s, null)
    ensures AgedByOne(s, Swept(s, s.objs.Keys, onTick), onTick)
  {
    hide Counted, Holding, Connecting, Owned;
    var u := Swept(s, s.objs.Keys, onTick);
    assert u.have.Keys == s.have.Keys;
  }

  lemma SweptNothing(s: State, onTick: bool)
    requires Sound(s, null)
    ensures Swept(s, {}, onTick) == s
  {
    assert SweptObjs(s, {}, onTick) == s.objs;
    assert SweptHave(s, {}, onTick) == s.have;
    assert Swept(s, {}, onTick).players == s.players;
  }

  lemma SweptMore(s: State, done: set<GameObject>, o: GameObject, onTick: bool)
    requires o in s.objs && o !in done
    ensures o in SweptObjs(s, done, onTick) && SweptObjs(s, done, onTick)[o] == s.objs[o]
    ensures SweptObjs(s, done + {o}, onTick) == Turned(SweptObjs(s, done, onTick), o, FateOf(s, o, onTick))
  {
  }

  lemma SweptMoreHave(s: State, done: set<GameObject>, o: GameObject, onTick: bool)
    requires o in s.objs && o !in done && OneBallEach(s.objs, s.have, s.ballOf)
    ensures var f, t := FateOf(s, o, onTick), s.objs[o].treasure;
            && SweptHave(s, done + {o}, onTick)
               == (if f == Recreated && t != null then SweptHave(s, done, onTick)[t := true]
                   else SweptHave(s, done, onTick))
  {
  }

  lemma SameFate(s: State, done: set<GameObject>, o: GameObject, onTick: bool)
    requires o in s.objs && o !in done && OneBallEach(s.objs, s.have, s.ballOf)
    ensures o in Swept(s, done, onTick).objs && FateOf(Swept(s, done, onTick), o, onTick) == FateOf(s, o, onTick)
  {
  }

  lemma StepShape(s: State, done: set<GameObject>, o: GameObject, onTick: bool)
    requires Sound(s, null) && Sound(Swept(s, done, onTick), null) && o in s.objs && o !in done
    ensures o in Swept(s, done, onTick).objs
    ensures var r, w := Stepped(Swept(s, done, onTick), o, onTick), Swept(s, done + {o}, onTick);
            r.objs == w.objs && r.have == w.have && r.ballOf == w.ballOf && r.players.Keys == w.players.Keys
  {
    SameFate(s, done, o, onTick);
    SweptMore(s, done, o, onTick);
    SweptMoreHave(s, done, o, onTick);
    var w := Swept(s, done, onTick);
    assert w.players.Keys == s.players.Keys == Swept(s, done + {o}, onTick).players.Keys;
    SteppedShape(w, o, onTick);
    hide Sound, Stepped, SweptObjs, SweptHave, FateOf;
  }

  lemma RemovedString(s: State, o: GameObject, p: Player)
    requires o in s.objs && Owned(s.objs, s.players.Keys) && OneBallEach(s.objs, s.have, s.ballOf) && p in s.players
    ensures p in Removed(s, o).players
    ensures var c, d := s.players[p], Removed(s, o).players[p];
            var lost := s.objs[o].kind == Ball && c.ballTmp == o && (!s.objs[o].attached || s.objs[o].owner == p);
            && d.shotTime == c.shotTime && d.ballTmp == (if lost then null else c.ballTmp)
            && d.usesConnector == (c.usesConnector && !(lost && s.objs[o].attached))
  {
    hide OneBallEach;
  }

  /** Who loses the string to a ball when it is reset. */
  lemma SteppedString(s: State, o: GameObject, onTick: bool, p: Player)
    requires o in s.objs && Sound(s, null) && p in s.players
    ensures p in Stepped(s, o, onTick).players
    ensures var c, d := s.players[p], Stepped(s, o, onTick).players[p];
            var lost := FateOf(s, o, onTick) == Recreated && c.ballTmp == o
                        && (!s.objs[o].attached || s.objs[o].owner == p);
            && d.shotTime == c.shotTime && d.ballTmp == (if lost then null else c.ballTmp)
            && d.usesConnector == (c.usesConnector && !(lost && s.objs[o].attached))
  {
    hide Owned, OneBallEach, Counted, Holding, Connecting, Removed;
    TickedSound(s, o, onTick);
    RemovedString(Ticked(s, o, onTick), o, p);
  }

  lemma SteppedCounts(s: State, o: GameObject, onTick: bool, p: Player)
    requires o in s.objs && Sound(s, null) && p in Stepped(s, o, onTick).players
    ensures var r := Stepped(s, o, onTick);
            r.players[p].shots == |ShotsOf(r.objs, p)| && (r.players[p].hasBall <==> HeldBy(r.objs, p) != {})
  {
    SteppedSound(s, o, onTick);
    hide Stepped, Owned, OneBallEach, Connecting, ShotsOf, HeldBy;
  }

  lemma SweptString(s: State, done: set<GameObject>, o: GameObject, onTick: bool, p: Player)
    requires o in s.objs && o !in done && p in s.players
    ensures var c, d := SweptCrew(s, p, done, onTick), SweptCrew(s, p, done + {o}, onTick);
            var lost := FateOf(s, o, onTick) == Recreated && c.ballTmp == o
                        && (!s.objs[o].attached || s.objs[o].owner == p);
            && d.shotTime == c.shotTime && d.ballTmp == (if lost then null else c.ballTmp)
            && d.usesConnector == (c.usesConnector && !(lost && s.objs[o].attached))
  {
    hide SweptObjs, FateOf, ShotsOf, HeldBy;
  }

  lemma StepPlayer(s: State, done: set<GameObject>, o: GameObject, onTick: bool, p: Player)
    requires Sound(s, null) && Sound(Swept(s, done, onTick), null) && o in s.objs && o !in done && p in s.players
    ensures o in Swept(s, done, onTick).objs && p in Stepped(Swept(s, done, onTick), o, onTick).players
    ensures Stepped(Swept(s, done, onTick), o, onTick).players[p] == SweptCrew(s, p, done + {o}, onTick)
  {
    StepShape(s, done, o, onTick);
    SameFate(s, done, o, onTick);
    SweptMore(s, done, o, onTick);
    var w := Swept(s, done, onTick);
    assert p in w.players && w.players[p] == SweptCrew(s, p, done, onTick) && w.objs[o] == s.objs[o];
    SteppedCounts(w, o, onTick, p);
    SteppedString(w, o, onTick, p);
    SweptString(s, done, o, onTick, p);
    var d := SweptCrew(s, p, done + {o}, onTick);
    var objs := SweptObjs(s, done + {o}, onTick);
    assert d.shots == |ShotsOf(objs, p)| && (d.hasBall <==> HeldBy(objs, p) != {});
    hide Sound, Stepped, SweptObjs, SweptHave, SweptCrew, FateOf, ShotsOf, HeldBy;
  }

  lemma StepSweeps(s: State, done: set<GameObject>, o: GameObject, onTick: bool)
    requires Sound(s, null) && Sound(Swept(s, done, onTick), null) && o in s.objs && o !in done
    ensures o in Swept(s, done, onTick).objs
    ensures Stepped(Swept(s, done, onTick), o, onTick) == Swept(s, done + {o}, onTick)
  {
    StepShape(s, done, o, onTick);
    var r, w := Stepped(Swept(s, done, onTick), o, onTick), Swept(s, done + {o}, onTick);
    forall p <- s.players
      ensures p in r.players && r.players[p] == w.players[p]
    {
      StepPlayer(s, done, o, onTick, p);
    }
    hide Stepped, SweptObjs, SweptHave, SweptCrew, Sound;
    assert r.players == w.players;
  }

  ghost function Ended(objs: Objects): Objects {
    map o | o in objs :: objs[o].(life := 0)
  }

  lemma EndedSound(s: State)
    requires Sound(s, null)
    ensures Sound(s.(objs := Ended(s.objs)), null)
  {
    hide Sound;
    SameSound(s, Ended(s.objs), null);
  }

  // ---- firing, scrap, catching balls, leaving

  ghost function ShotAdded(s: State, p: Player, shot: GameObject, now: int, life: int): State
    requires p in s.players
  {
    var c := s.players[p];
    s.(objs := s.objs[shot := View(Shot, life, p, false, null, 0, 0)],
       players := s.players[p := c.(shots := c.shots + 1, shotTime := now)])
  }

  lemma ExtraCounted(objs: Objects, players: map<Player, Crew>, o: GameObject, v: View)
    requires Counted(objs, players) && o !in objs && (v.kind == Shot ==> v.owner == null)
    ensures Counted(objs[o := v], players)
  {
    forall p <- players
      ensures players[p].shots == |ShotsOf(objs[o := v], p)|
    {
      assert ShotsOf(objs[o := v], p) == ShotsOf(objs, p);
    }
  }

  lemma ExtraHolding(objs: Objects, players: map<Player, Crew>, o: GameObject, v: View)
    requires Holding(objs, players) && o !in objs && !v.attached
    ensures Holding(objs[o := v], players)
  {
    forall p <- players
      ensures HeldBy(objs[o := v], p) == HeldBy(objs, p)
    {
    }
  }

  lemma ExtraRest(s: State, o: GameObject, v: View)
    requires Owned(s.objs, s.players.Keys) && OneBallEach(s.objs, s.have, s.ballOf)
    requires Connecting(s.objs, s.players, null)
    requires o !in s.objs && v.kind != None && v.kind != Ball
    requires (v.owner == null || v.owner in s.players) && !v.attached
    ensures Owned(s.objs[o := v], s.players.Keys) && OneBallEach(s.objs[o := v], s.have, s.ballOf)
    ensures Connecting(s.objs[o := v], s.players, null)
  {
  }

  lemma ScrapSound(s: State, o: GameObject, v: View)
    requires Sound(s, null) && o !in s.objs && v.kind in {Spark, Debris, Wreckage}
    requires (v.owner == null || v.owner in s.players) && !v.attached
    ensures Sound(s.(objs := s.objs[o := v]), null)
  {
    hide Owned, OneBallEach, Counted, Holding, Connecting;
    ExtraCounted(s.objs, s.players, o, v);
    ExtraHolding(s.objs, s.players, o, v);
    ExtraRest(s, o, v);
  }

  lemma ShotCounted(s: State, p: Player, shot: GameObject, now: int, life: int)
    requires p in s.players && shot !in s.objs && Counted(s.objs, s.players)
    ensures Counted(ShotAdded(s, p, shot, now, life).objs, ShotAdded(s, p, shot, now, life).players)
  {
    var u := ShotAdded(s, p, shot, now, life);
    forall q <- u.players
      ensures u.players[q].shots == |ShotsOf(u.objs, q)|
    {
      if q == p {
        assert ShotsOf(u.objs, q) == ShotsOf(s.objs, q) + {shot};
      } else {
        assert ShotsOf(u.objs, q) == ShotsOf(s.objs, q);
      }
    }
  }

  lemma ShotAddedKeeps(objs: Objects, players: map<Player, Crew>, p: Player, c: Crew)
    requires p in players && c.hasBall == players[p].hasBall && c.ballTmp == players[p].ballTmp
    requires Holding(objs, players) && Connecting(objs, players, null)
    ensures Holding(objs, players[p := c]) && Connecting(objs, players[p := c], null)
    ensures players[p := c].Keys == players.Keys
  {
    hide HeldBy, LiveBall;
  }

  lemma Fired(s: State, p: Player, shot: GameObject, now: int, life: int)
    requires p in s.players
    ensures var c, u := s.players[p], s.(objs := s.objs[shot := View(Shot, life, p, false, null, 0, 0)]);
            ShotAdded(s, p, shot, now, life) == u.(players := u.players[p := c.(shots := c.shots + 1, shotTime := now)])
  {
  }

  lemma ShotAddedSound(s: State, p: Player, shot: GameObject, now: int, life: int)
    requires p in s.players && shot !in s.objs && Sound(s, null)
    ensures Sound(ShotAdded(s, p, shot, now, life), null)
  {
    hide Owned, OneBallEach, Counted, Holding, Connecting;
    var u := ShotAdded(s, p, shot, now, life);
    ExtraHolding(s.objs, s.players, shot, u.objs[shot]);
    ExtraRest(s, shot, u.objs[shot]);
    ShotCounted(s, p, shot, now, life);
    ShotAddedKeeps(u.objs, s.players, p, u.players[p]);
  }

  /** Collision_player_attach_ball, when the string is long enough. */
  ghost function Caught(s: State, p: Player, ball: GameObject): State
    requires p in s.players && ball in s.objs && s.objs[ball].treasure != null
  {
    var v := s.objs[ball];
    var t, full := v.treasure, BoxHas(s, ball);
    State(s.objs[ball := v.(attached := true, owner := p, life := if full then MAX_OBJECT_LIFE else v.life)],
          s.players[p := s.players[p].(hasBall := true, ballTmp := null)],
          if full then s.have[t := false] else s.have, s.ballOf)
  }

  lemma CaughtSound(s: State, p: Player, ball: GameObject)
    requires p in s.players && LiveBall(s.objs, ball) && !s.objs[ball].attached && Sound(s, null)
    ensures s.objs[ball].treasure != null && Sound(Caught(s, p, ball), null)
  {
    hide Counted, Holding, Connecting, ShotsOf, HeldBy;
    var u := Caught(s, p, ball);
    assert u.players.Keys == s.players.Keys;
    CaughtCounted(s, p, ball);
    CaughtHolding(s, p, ball);
    CaughtConnecting(s, p, ball);
  }

  lemma CaughtCounted(s: State, p: Player, ball: GameObject)
    requires p in s.players && LiveBall(s.objs, ball) && s.objs[ball].treasure != null && Counted(s.objs, s.players)
    ensures Counted(Caught(s, p, ball).objs, Caught(s, p, ball).players)
  {
    forall q <- s.players
      ensures |ShotsOf(Caught(s, p, ball).objs, q)| == |ShotsOf(s.objs, q)|
    {
      assert ShotsOf(Caught(s, p, ball).objs, q) == ShotsOf(s.objs, q);
    }
  }

  lemma CaughtHolding(s: State, p: Player, ball: GameObject)
    requires p in s.players && LiveBall(s.objs, ball) && s.objs[ball].treasure != null && Holding(s.objs, s.players)
    requires !s.objs[ball].attached
    ensures Holding(Caught(s, p, ball).objs, Caught(s, p, ball).players)
  {
    var u := Caught(s, p, ball);
    assert ball in HeldBy(u.objs, p);
    forall q <- s.players | q != p
      ensures HeldBy(u.objs, q) == HeldBy(s.objs, q)
    {
    }
  }

  lemma CaughtConnecting(s: State, p: Player, ball: GameObject)
    requires p in s.players && LiveBall(s.objs, ball) && s.objs[ball].treasure != null
    requires Connecting(s.objs, s.players, null)
    ensures Connecting(Caught(s, p, ball).objs, Caught(s, p, ball).players, null)
  {
  }

  function Abandoned(v: View, p: Player, keepShots: bool): View {
    if v.owner != p then v
    else v.(owner := null, attached := false,
            life := if (v.kind == Ball && v.attached) || (v.kind == Shot && !keepShots) then 0 else v.life)
  }

  ghost function AbandonedObjs(objs: Objects, done: set<GameObject>, p: Player, keepShots: bool): Objects {
    map o | o in objs :: if o in done then Abandoned(objs[o], p, keepShots) else objs[o]
  }

  /** Player_remove: attached balls and, unless they are kept, shots are to go; nothing is owned by the player
      any more. */
  ghost function Left(s: State, p: Player, keepShots: bool): State {
    s.(objs := AbandonedObjs(s.objs, s.objs.Keys, p, keepShots), players := s.players - {p})
  }

  lemma LeftCounted(s: State, p: Player, keepShots: bool)
    requires Counted(s.objs, s.players) && Holding(s.objs, s.players)
    ensures Counted(Left(s, p, keepShots).objs, Left(s, p, keepShots).players)
    ensures Holding(Left(s, p, keepShots).objs, Left(s, p, keepShots).players)
  {
    var u := Left(s, p, keepShots);
    forall q <- u.players
      ensures |ShotsOf(u.objs, q)| == |ShotsOf(s.objs, q)| && HeldBy(u.objs, q) == HeldBy(s.objs, q)
    {
      assert ShotsOf(u.objs, q) == ShotsOf(s.objs, q);
    }
  }

  lemma LeftOneBall(s: State, p: Player, keepShots: bool)
    requires OneBallEach(s.objs, s.have, s.ballOf)
    ensures OneBallEach(Left(s, p, keepShots).objs, s.have, s.ballOf)
  {
  }

  lemma LeftSound(s: State, p: Player, keepShots: bool)
    requires Sound(s, null)
    ensures Sound(Left(s, p, keepShots), null)
  {
    hide Counted, Holding, OneBallEach;
    LeftCounted(s, p, keepShots);
    LeftOneBall(s, p, keepShots);
  }

  lemma FreedAt(objs: Objects, p: Player, o: GameObject, v: View)
    requires o in objs
    ensures Freed(objs, p, o)[o := v] == objs[o := v]
    ensures Freed(objs, p, o)[o] == objs[o].(attached := objs[o].attached && objs[o].owner != p)
  {
  }

  lemma AttachedIsBall(s: State, o: GameObject)
    requires o in s.objs && Owned(s.objs, s.players.Keys)
    ensures s.objs[o].attached ==> s.objs[o].kind == Ball
  {
  }

  ghost function AbandonedOne(s: State, o: GameObject, p: Player, keepShots: bool): State
    requires p in s.players && o in s.objs
  {
    var u := if s.objs[o].attached && s.objs[o].owner == p then Detached(s, p, o) else s;
    u.(objs := s.objs[o := Abandoned(s.objs[o], p, keepShots)])
  }

  lemma AbandonedOneKeeps(s: State, o: GameObject, p: Player, keepShots: bool)
    requires p in s.players && o in s.objs && Owned(s.objs, s.players.Keys) && Holding(s.objs, s.players)
    ensures var u := AbandonedOne(s, o, p, keepShots);
            Owned(u.objs, u.players.Keys) && u.players.Keys == s.players.Keys
  {
    assert AbandonedOne(s, o, p, keepShots).players.Keys == s.players.Keys;
  }

  lemma AbandonedOneHolding(s: State, o: GameObject, p: Player, keepShots: bool)
    requires p in s.players && o in s.objs && Holding(s.objs, s.players)
    ensures Holding(AbandonedOne(s, o, p, keepShots).objs, AbandonedOne(s, o, p, keepShots).players)
  {
    var u := AbandonedOne(s, o, p, keepShots);
    forall q <- u.players
      ensures u.players[q].hasBall <==> HeldBy(u.objs, q) != {}
    {
      if s.objs[o].attached && s.objs[o].owner == p {
        assert HeldBy(u.objs, q) == HeldBy(Freed(s.objs, p, o), q);
        FreedHolding(s.objs, s.players, p, o);
      } else {
        assert HeldBy(u.objs, q) == HeldBy(s.objs, q);
      }
    }
  }

  lemma AbandonedNone(objs: Objects, p: Player, keepShots: bool)
    ensures AbandonedObjs(objs, {}, p, keepShots) == objs
  {
  }

  lemma AbandonedMore(before: State, s: State, done: set<GameObject>, o: GameObject, p: Player, keepShots: bool)
    requires o in before.objs && o !in done && p in before.players && p in s.players
    requires s == before.(objs := AbandonedObjs(before.objs, done, p, keepShots),
                          players := before.players[p := s.players[p]])
    ensures o in s.objs
    ensures var u := AbandonedOne(s, o, p, keepShots);
            && p in u.players
            && u == before.(objs := AbandonedObjs(before.objs, done + {o}, p, keepShots),
                            players := before.players[p := u.players[p]])
  {
  }

  lemma JoinedSound(s: State, p: Player)
    requires Sound(s, null) && p !in s.players
    ensures Sound(s.(players := s.players[p := Crew(0, 0, false, false, null)]), null)
  {
    hide OneBallEach;
    assert ShotsOf(s.objs, p) == {} && HeldBy(s.objs, p) == {};
    hide ShotsOf, HeldBy;
  }

  lemma StrungSound(s: State, p: Player, ball: GameObject?)
    requires Sound(s, null) && p in s.players && (ball == null || LiveBall(s.objs, ball))
    ensures Sound(s.(players := s.players[p := s.players[p].(ballTmp := ball)]), null)
  {
    hide OneBallEach, ShotsOf, HeldBy, LiveBall;
    assert s.players[p := s.players[p].(ballTmp := ball)].Keys == s.players.Keys;
  }

  /** A removed ball is forgotten by everybody exactly when it was loose, or nobody but its owner was
      connecting to it. */
  lemma RemovedForgotten(s: State, obj: GameObject)
    requires obj in s.objs && Sound(s, null) && s.objs[obj].kind == Ball
    ensures Connecting(Removed(s, obj).objs, Removed(s, obj).players, null) <==>
              !s.objs[obj].attached
              || forall q <- s.players :: q != s.objs[obj].owner ==> s.players[q].ballTmp != obj
  {
    RemovedSound(s, obj);
    RemovedShape(s, obj);
    forall q <- s.players
      ensures q in Removed(s, obj).players
      ensures Removed(s, obj).players[q].ballTmp ==
              if s.players[q].ballTmp == obj && (!s.objs[obj].attached || s.objs[obj].owner == q) then null
              else s.players[q].ballTmp
    {
      RemovedString(s, obj, q);
    }
    hide Removed, Owned, OneBallEach, Counted, Holding;
  }

  lemma NothingSound(s: State)
    requires s.objs == map[] && s.ballOf == map[]
    requires forall p <- s.players :: s.players[p].shots == 0 && !s.players[p].hasBall && s.players[p].ballTmp == null
    ensures Sound(s, null)
  {
    assert forall p <- s.players :: ShotsOf(s.objs, p) == {} && HeldBy(s.objs, p) == {};
  }

  lemma TreasureSound(s: State, t: Treasure)
    requires Sound(s, null) && t !in s.have
    ensures t !in s.ballOf && Sound(s.(have := s.have[t := false]), null)
  {
    hide Owned, Counted, Holding, Connecting;
  }

  lemma KeySound(s: State, p: Player, down: bool)
    requires Sound(s, null) && p in s.players
    ensures Sound(s.(players := s.players[p := s.players[p].(usesConnector := down)]), null)
  {
    hide OneBallEach, ShotsOf, HeldBy, LiveBall;
    assert s.players[p := s.players[p].(usesConnector := down)].Keys == s.players.Keys;
  }

  /** Player_go_home clears what the player has: that is right just when no ball is on a string. */
  lemma GoHomeSound(s: State, p: Player)
    requires Sound(s, null) && p in s.players
    ensures Sound(s.(players := s.players[p := s.players[p].(hasBall := false)]), null) <==> HeldBy(s.objs, p) == {}
  {
    hide OneBallEach, ShotsOf, HeldBy, LiveBall;
    var players := s.players[p := s.players[p].(hasBall := false)];
    assert players.Keys == s.players.Keys;
    assert players[p].hasBall == false;
  }

  // ---- the pool

  class Pool {
    const Obj: array<GameObject>
    var numObjs: nat
    var players: seq<Player>
    ghost const all: set<GameObject>
    ghost var live: set<GameObject>
    ghost var treasures: set<Treasure>
    ghost var ballOf: map<Treasure, GameObject>

    /** The array is a permutation of the allocated objects, each knows its place, and the live ones come first. */
    ghost predicate Slots()
      reads this`numObjs, this`live, Obj, all`id
    {
      && numObjs <= Obj.Length && live <= all
      && (forall k :: 0 <= k < Obj.Length ==> Obj[k] in all && Obj[k].id == k)
      && (forall o <- all :: o.id < Obj.Length && Obj[o.id] == o && (o in live <==> o.id < numObjs))
    }

    ghost predicate FreeBlank()
      reads this`live, (all - live)`kind, (all - live)`life, (all - live)`owner, (all - live)`attached,
            (all - live)`treasure, (all - live)`looseCount, (all - live)`looseTicks
    {
      forall o <- all - live :: o.Now() == BLANK
    }

    ghost function ObjsNow(): Objects
      reads this`live, live`kind, live`life, live`owner, live`attached, live`treasure, live`looseCount, live`looseTicks
    {
      map o | o in live :: o.Now()
    }

    ghost function PlayersNow(): map<Player, Crew>
      reads this`players, players`shots, players`shotTime, players`hasBall, players`usesConnector, players`ballTmp
    {
      map p | p in players :: p.Now()
    }

    ghost function HaveNow(): map<Treasure, bool>
      reads this`treasures, treasures`have
    {
      map t | t in treasures :: t.have
    }

    ghost function Now(): State
      reads this`live, this`players, this`treasures, this`ballOf, treasures`have
      reads live`kind, live`life, live`owner, live`attached, live`treasure, live`looseCount, live`looseTicks
      reads players`shots, players`shotTime, players`hasBall, players`usesConnector, players`ballTmp
    {
      State(ObjsNow(), PlayersNow(), HaveNow(), ballOf)
    }

    ghost predicate Valid()
      reads this, Obj, all, live, players, treasures
    {
      Slots() && FreeBlank() && Distinct(players) && Sound(Now(), null)
    }

    /** Shots_allocate */
    constructor (number: nat)
      ensures Valid() && Now() == State(map[], map[], map[], map[]) && Obj.Length == number && fresh(Obj) && fresh(all)
      ensures numObjs == 0 && players == []
    {
      hide Valid, Now;
      var objs: seq<GameObject> := [];
      while |objs| < number
        invariant |objs| <= number && fresh(set o | o in objs)
        invariant forall k :: 0 <= k < |objs| ==> objs[k].id == k && objs[k].Now() == BLANK
      {
        var obj := new GameObject(|objs|);
        objs := objs + [obj];
      }
      Obj := new GameObject[number](i requires 0 <= i < |objs| => objs[i]);
      all := set o | o in objs;
      numObjs, players, live, treasures, ballOf := 0, [], {}, {}, map[];
      new;
      StartsValid();
    }

    lemma StartsValid()
      requires (forall k :: 0 <= k < Obj.Length ==> Obj[k] in all && Obj[k].id == k && Obj[k].Now() == BLANK)
      requires forall o <- all :: o.id < Obj.Length && Obj[o.id] == o
      requires numObjs == 0 && players == [] && live == {} && treasures == {} && ballOf == map[]
      ensures Valid() && Now() == State(map[], map[], map[], map[])
    {
      hide Slots, Sound;
      NowIs(State(map[], map[], map[], map[]));
      NothingSound(Now());
      assert Slots() by {
        StartSlots();
      }
    }

    lemma StartSlots()
      requires (forall k :: 0 <= k < Obj.Length ==> Obj[k] in all && Obj[k].id == k)
      requires forall o <- all :: o.id < Obj.Length && Obj[o.id] == o
      requires numObjs == 0 && live == {}
      ensures Slots()
    {
    }

    /** The next free slot, or null when all are taken. */
    ghost function Next(): GameObject?
      requires numObjs <= Obj.Length
      reads this`numObjs, Obj
    {
      if numObjs < Obj.Length then Obj[numObjs] else null
    }

    ghost function Vacant(): set<GameObject>
      requires numObjs <= Obj.Length
      reads this`numObjs, Obj
    {
      if numObjs < Obj.Length then {Obj[numObjs]} else {}
    }

    /** Object_add */
    method Add() returns (obj: GameObject?)
      requires Slots()
      modifies this`numObjs, this`live
      ensures Slots() && obj == old(Next())
      ensures obj == null ==> numObjs == old(numObjs) && live == old(live)
      ensures obj != null ==> numObjs == old(numObjs) + 1 && live == old(live) + {obj} && obj !in old(live)
    {
      if numObjs >= Obj.Length {
        return null;
      }
      obj := Obj[numObjs];
      numObjs := numObjs + 1;
      live := live + {obj};
    }

    /** The next slot is filled. */
    method Place(v: View) returns (obj: GameObject?)
      requires Slots() && FreeBlank() && v.looseCount == v.looseTicks == 0
      modifies this`numObjs, this`live
      modifies Vacant()`kind, Vacant()`life, Vacant()`owner, Vacant()`attached, Vacant()`treasure
      ensures Slots() && FreeBlank() && obj == old(Next()) && old(numObjs) <= Obj.Length
      ensures obj == null ==> numObjs == old(numObjs) && live == old(live)
      ensures obj != null ==>
                numObjs == old(numObjs) + 1 && live == old(live) + {obj} && obj !in old(live) && obj.Now() == v
      ensures forall o <- old(live) :: o.Now() == old(o.Now())
    {
      assert Next() != null ==> Next() in all - live;
      obj := Add();
      if obj == null {
        return;
      }
      obj.life := v.life;
      obj.owner := v.owner;
      obj.kind := v.kind;
      obj.attached := v.attached;
      obj.treasure := v.treasure;
    }

    /** What is new is the object; the counters were wiped when the slot was given up. */
    method NewObject(v: View) returns (obj: GameObject?)
      requires Slots() && FreeBlank() && v.looseCount == v.looseTicks == 0
      modifies this`numObjs, this`live
      modifies Vacant()`kind, Vacant()`life, Vacant()`owner, Vacant()`attached, Vacant()`treasure
      ensures Slots() && FreeBlank() && obj == old(Next()) && old(numObjs) <= Obj.Length
      ensures obj == null <==> old(numObjs) == Obj.Length
      ensures obj == null ==> numObjs == old(numObjs) && live == old(live) && Now() == old(Now())
      ensures obj != null ==> numObjs == old(numObjs) + 1 && live == old(live) + {obj} && obj !in old(ObjsNow())
      ensures obj != null ==> Now() == old(Now()).(objs := old(ObjsNow())[obj := v])
    {
      hide Slots, FreeBlank, Now, ObjsNow, PlayersNow, HaveNow;
      ghost var before := Now();
      BeforeNow(before);
      Seen();
      obj := Place(v);
      if obj == null {
        NowIs(before);
      } else {
        ObjectIn(before, obj);
      }
    }

    method FillBox(t: Treasure, ball: GameObject)
      requires Slots() && FreeBlank() && t in treasures
      modifies t`have, this`ballOf
      ensures Slots() && FreeBlank()
      ensures Now() == old(Now()).(have := old(HaveNow())[t := true], ballOf := old(ballOf)[t := ball])
    {
      hide Slots, FreeBlank, ObjsNow, PlayersNow, HaveNow;
      ghost var before := Now();
      BeforeNow(before);
      t.have := true;
      ballOf := ballOf[t := ball];
      NowIs(before.(have := before.have[t := true], ballOf := before.ballOf[t := ball]));
    }

    /** Ball_treasure_add: puts a ball in the box of a treasure, unless all slots are taken. */
    method BallTreasureAdd(t: Treasure, ghost gone: GameObject?) returns (ball: GameObject?)
      requires Slots() && FreeBlank() && Distinct(players) && Sound(Now(), gone) && t in treasures && t !in ballOf
      requires gone == null || gone == Next()
      modifies this`numObjs, this`live, this`ballOf, t`have
      modifies Vacant()`kind, Vacant()`life, Vacant()`owner, Vacant()`attached, Vacant()`treasure
      ensures Valid() && ball == old(Next())
      ensures ball == null ==> numObjs == old(numObjs) && Now() == old(Now())
      ensures ball != null ==> numObjs == old(numObjs) + 1 && live == old(live) + {ball}
      ensures ball != null ==> Now() == BallAdded(old(Now()), t, ball)
    {
      hide Slots, FreeBlank, Owned, OneBallEach, Counted, Holding, Connecting, ObjsNow, PlayersNow, HaveNow, Distinct;
      BeforeNow(Now());
      ball := NewObject(FreshBall(t));
      if ball == null {
        return;
      }
      FillBox(t, ball);
      BallAddedSound(old(Now()), t, ball, gone);
    }

    /** The loop of Ball_detach: frees the ball, or all, and says whether the player still holds another. */
    method FreeBalls(p: Player, ball: GameObject?) returns (left: bool)
      requires Slots() && forall o <- live :: o.attached ==> o.kind == Ball
      modifies live`attached
      ensures forall o <- live :: o.attached == (old(o.attached) && !(o.owner == p && (ball == null || ball == o)))
      ensures left <==> exists o <- live :: o.attached && o.owner == p
    {
      var cnt, i := 0, 0;
      while i < numObjs
        invariant 0 <= i <= numObjs && cnt >= 0 && forall o <- live :: o.attached ==> o.kind == Ball
        invariant forall o <- live ::
                    o.attached == (old(o.attached) && !(o.id < i && o.owner == p && (ball == null || ball == o)))
        invariant cnt == 0 <==> forall k :: 0 <= k < i ==> !(Obj[k].attached && Obj[k].owner == p)
      {
        var obj := Obj[i];
        if obj.kind == Ball && obj.attached && obj.owner == p {
          if ball == null || ball == obj {
            obj.attached := false;
          } else {
            cnt := cnt + 1;
          }
        }
        i := i + 1;
      }
      left := cnt != 0;
      assert forall o <- live :: Obj[o.id] == o;
      assert left <==> exists o <- live :: o.attached && o.owner == p;
    }

    lemma FreedNow(before: Objects, p: Player, ball: GameObject?)
      requires before.Keys == live
      requires forall o <- live ::
                 o.Now() == before[o].(attached :=
                   before[o].attached && !(before[o].owner == p && (ball == null || ball == o)))
      ensures ObjsNow() == Freed(before, p, ball)
    {
    }

    lemma PlayerChanged(before: map<Player, Crew>, p: Player)
      requires p in players && before.Keys == (set q | q in players)
      requires forall q <- players :: q != p ==> q.Now() == before[q]
      ensures PlayersNow() == before[p := p.Now()]
    {
    }

    lemma HeldNow(p: Player)
      ensures HeldBy(ObjsNow(), p) != {} <==> exists o <- live :: o.attached && o.owner == p
    {
      if o :| o in live && o.attached && o.owner == p {
        assert o in HeldBy(ObjsNow(), p);
      }
    }

    lemma HandIs(p: Player)
      requires p in players && Holding(ObjsNow(), PlayersNow())
      ensures p.hasBall <==> exists o <- live :: o.attached && o.owner == p
    {
      HeldNow(p);
      assert p in PlayersNow();
    }

    lemma AttachedAreBalls()
      requires Owned(ObjsNow(), PlayersNow().Keys)
      ensures forall o <- live :: o.attached ==> o.kind == Ball
    {
      assert forall o <- live :: o in ObjsNow();
    }

    /** What Ball_detach writes. */
    method Unhand(p: Player, ball: GameObject?)
      requires Slots() && forall o <- live :: o.attached ==> o.kind == Ball
      requires p.hasBall <==> exists o <- live :: o.attached && o.owner == p
      modifies p`hasBall, p`usesConnector, p`ballTmp, live`attached
      ensures var hit, c := ball == null || ball == old(p.ballTmp), old(p.Now());
              p.Now() == c.(ballTmp := if hit then null else c.ballTmp, usesConnector := c.usesConnector && !hit,
                            hasBall := p.hasBall)
      ensures forall o <- live :: var v := old(o.Now());
                o.Now() == v.(attached := v.attached && !(v.owner == p && (ball == null || ball == o)))
      ensures p.hasBall <==> exists o <- live :: o.attached && o.owner == p
      ensures forall q <- players :: q != p ==> q.Now() == old(q.Now())
      ensures forall t <- treasures :: t.have == old(t.have)
    {
      if ball == null || ball == p.ballTmp {
        p.ballTmp := null;
        p.usesConnector := false;
      }
      if p.hasBall {
        var left := FreeBalls(p, ball);
        if !left {
          p.hasBall := false;
        }
      }
    }

    /** Ball_detach */
    method BallDetach(p: Player, ball: GameObject?)
      requires Slots() && FreeBlank() && p in players
      requires Owned(ObjsNow(), PlayersNow().Keys) && Holding(ObjsNow(), PlayersNow())
      modifies p`hasBall, p`usesConnector, p`ballTmp, live`attached
      ensures Slots() && FreeBlank() && Now() == Detached(old(Now()), p, ball)
    {
      hide Slots, FreeBlank, Owned, Holding, ObjsNow, PlayersNow, HaveNow, Freed, HeldBy, Detached;
      ghost var before := Now();
      BeforeNow(before);
      AttachedAreBalls();
      HandIs(p);
      Unhand(p, ball);
      DetachedNow(before, p, ball);
    }

    lemma DetachedNow(before: State, p: Player, ball: GameObject?)
      requires p in players && before.players.Keys == (set q | q in players) && before.objs.Keys == live
      requires before.have.Keys == treasures && before.ballOf == ballOf
      requires var hit, c := ball == null || ball == before.players[p].ballTmp, before.players[p];
              p.Now() == c.(ballTmp := if hit then null else c.ballTmp, usesConnector := c.usesConnector && !hit,
                            hasBall := p.hasBall)
      requires forall o <- live :: var v := before.objs[o];
                o.Now() == v.(attached := v.attached && !(v.owner == p && (ball == null || ball == o)))
      requires p.hasBall <==> exists o <- live :: o.attached && o.owner == p
      requires forall q <- players :: q != p ==> q.Now() == before.players[q]
      requires forall t <- treasures :: t.have == before.have[t]
      ensures Now() == Detached(before, p, ball)
    {
      hide ObjsNow, PlayersNow, HaveNow, Freed, HeldBy;
      FreedNow(before.objs, p, ball);
      HeldNow(p);
      PlayerChanged(before.players, p);
      HaveSame(before.have);
    }

    lemma Whole()
      requires Valid()
      ensures Slots() && FreeBlank() && Distinct(players) && Sound(Now(), null) && numObjs <= Obj.Length && live <= all
      ensures live != {} ==> numObjs > 0 && Obj[numObjs - 1] in all
    {
    }

    lemma Keys()
      ensures Now().objs.Keys == live && Now().have.Keys == treasures && Now().ballOf == ballOf
      ensures Now().players.Keys == (set p | p in players)
    {
    }

    lemma Seen()
      ensures Now().objs == ObjsNow() && Now().players == PlayersNow() && Now().have == HaveNow()
    {
    }

    lemma BeforeNow(before: State)
      requires before == Now()
      ensures before.objs.Keys == live && forall o <- live :: before.objs[o] == o.Now()
      ensures before.players.Keys == (set p | p in players) && forall p <- players :: before.players[p] == p.Now()
      ensures before.have.Keys == treasures && forall t <- treasures :: before.have[t] == t.have
      ensures before.ballOf == ballOf
    {
    }

    lemma HaveSame(before: map<Treasure, bool>)
      requires before.Keys == treasures && forall t <- treasures :: before[t] == t.have
      ensures HaveNow() == before
    {
    }

    lemma NowIs(s: State)
      requires s.objs.Keys == live && forall o <- live :: s.objs[o] == o.Now()
      requires s.players.Keys == (set p | p in players) && forall p <- players :: s.players[p] == p.Now()
      requires s.have.Keys == treasures && forall t <- treasures :: s.have[t] == t.have
      requires s.ballOf == ballOf
      ensures Now() == s
    {
      assert ObjsNow() == s.objs && PlayersNow() == s.players && HaveNow() == s.have;
    }

    lemma ObjectIs(s: State, obj: GameObject)
      requires s.objs.Keys == live && obj in live && forall o <- live :: o != obj ==> s.objs[o] == o.Now()
      requires s.players.Keys == (set p | p in players) && forall p <- players :: s.players[p] == p.Now()
      requires s.have.Keys == treasures && forall t <- treasures :: s.have[t] == t.have
      requires s.ballOf == ballOf
      ensures Now() == s.(objs := s.objs[obj := obj.Now()])
    {
      NowIs(s.(objs := s.objs[obj := obj.Now()]));
    }

    // ---- Object_remove

    /** Nobody may stay busy connecting to a ball that goes. */
    method Forget(ball: GameObject)
      requires Distinct(players)
      modifies players`ballTmp
      ensures forall q <- players ::
                q.Now() == (if old(q.ballTmp) == ball then old(q.Now()).(ballTmp := null) else old(q.Now()))
    {
      var i := 0;
      while i < |players|
        invariant 0 <= i <= |players|
        invariant forall k :: 0 <= k < |players| ==>
                    players[k].ballTmp == if k < i && old(players[k].ballTmp) == ball then null
                                          else old(players[k].ballTmp)
      {
        if players[i].ballTmp == ball {
          players[i].ballTmp := null;
        }
        i := i + 1;
      }
    }

    method ForgetBall(ball: GameObject)
      requires Slots() && FreeBlank() && Distinct(players)
      modifies players`ballTmp
      ensures Slots() && FreeBlank() && Now() == old(Now()).(players := Forgotten(old(PlayersNow()), ball))
    {
      hide Slots, FreeBlank, ObjsNow, PlayersNow, HaveNow, Distinct;
      ghost var before := Now();
      BeforeNow(before);
      Forget(ball);
      NowIs(before.(players := Forgotten(before.players, ball)));
    }

    method SetBox(t: Treasure, full: bool)
      requires Slots() && FreeBlank() && t in treasures
      modifies t`have
      ensures Slots() && FreeBlank() && Now() == old(Now()).(have := old(HaveNow())[t := full])
    {
      hide Slots, FreeBlank, ObjsNow, PlayersNow, HaveNow;
      ghost var before := Now();
      BeforeNow(before);
      t.have := full;
      NowIs(before.(have := before.have[t := full]));
    }

    lemma BallIs(obj: GameObject)
      requires Valid() && obj in live && obj.kind == Ball
      ensures Now().objs[obj] == obj.Now() && obj.treasure != null && obj.treasure in treasures
      ensures (obj.attached ==> obj.owner in players)
    {
      assert obj in Now().objs;
    }

    /** The OBJ_BALL case of Object_remove. */
    method LetGoBall(obj: GameObject)
      requires Valid() && obj in live && obj.kind == Ball
      modifies players`ballTmp, players`hasBall, players`usesConnector, live`attached, treasures`have
      ensures Slots() && FreeBlank() && Now() == LetGo(old(Now()), obj)
    {
      hide Slots, FreeBlank, Distinct, Owned, OneBallEach, Counted, Connecting, Holding, ObjsNow, PlayersNow, HaveNow,
           Detached, Forgotten;
      BallIs(obj);
      if obj.attached {
        BallDetach(obj.owner, obj);
      } else {
        ForgetBall(obj);
      }
      SetBox(obj.treasure, false);
    }

    /** The OBJ_SHOT case. */
    method LetGoShot(p: Player)
      requires p in players && p in PlayersNow() && Slots() && FreeBlank()
      modifies p`shots
      ensures Slots() && FreeBlank() && Now() == old(Now()).(players := OneLess(old(PlayersNow()), p))
    {
      hide Slots, FreeBlank, ObjsNow, PlayersNow, HaveNow;
      ghost var before := Now();
      BeforeNow(before);
      p.shots := p.shots - 1;
      if p.shots <= 0 {
        p.shots := 0;
      }
      PlayerIs(before, p);
    }

    ghost function Last(): GameObject
      requires 0 < numObjs <= Obj.Length
      reads this`numObjs, Obj
    {
      Obj[numObjs - 1]
    }

    /** The last live object takes the place of this one. */
    method Exchange(obj: GameObject)
      requires Slots() && obj in live
      modifies this`numObjs, this`live, Obj, obj`id, Last()`id
      ensures Slots() && numObjs == old(numObjs) - 1 && live == old(live) - {obj} && obj == Obj[numObjs]
      ensures forall o <- live :: o.id == if old(o.id) == numObjs then old(obj.id) else old(o.id)
    {
      numObjs := numObjs - 1;
      live := live - {obj};
      Obj[obj.id] := Obj[numObjs];
      Obj[numObjs] := obj;
      Obj[obj.id].id := obj.id;
      Obj[numObjs].id := numObjs;
    }

    method Swap(obj: GameObject)
      requires Slots() && FreeBlank() && obj in live
      modifies this`numObjs, this`live, Obj, Last()`id
      modifies obj`id, obj`kind, obj`life, obj`owner, obj`attached, obj`treasure, obj`looseCount, obj`looseTicks
      ensures Slots() && FreeBlank() && numObjs == old(numObjs) - 1 == obj.id
      ensures numObjs < Obj.Length && obj == Obj[numObjs]
      ensures live == old(live) - {obj}
      ensures forall o <- live ::
                o.id == (if old(o.id) == numObjs then old(obj.id) else old(o.id)) && o.Now() == old(o.Now())
    {
      Exchange(obj);
      obj.Wipe();
      obj.id := numObjs;
    }

    method Drop(obj: GameObject)
      requires Slots() && FreeBlank() && obj in live
      modifies this`numObjs, this`live, Obj, Last()`id
      modifies obj`id, obj`kind, obj`life, obj`owner, obj`attached, obj`treasure, obj`looseCount, obj`looseTicks
      ensures Slots() && FreeBlank() && numObjs == old(numObjs) - 1 == obj.id
      ensures numObjs < Obj.Length && obj == Obj[numObjs]
      ensures forall o <- live :: o.id == if old(o.id) == numObjs then old(obj.id) else old(o.id)
      ensures live == old(live) - {obj} && Now() == old(Now()).(objs := old(ObjsNow()) - {obj})
    {
      hide ObjsNow, PlayersNow, HaveNow, Slots, FreeBlank;
      ghost var before := Now();
      BeforeNow(before);
      Swap(obj);
      NowIs(before.(objs := before.objs - {obj}));
    }

    ghost method Unlist(t: Treasure?)
      requires Slots() && FreeBlank()
      modifies this`ballOf
      ensures Slots() && FreeBlank() && Now() == old(Now()).(ballOf := old(ballOf) - {t})
    {
      ballOf := ballOf - {t};
    }

    method Vacate(obj: GameObject)
      requires Slots() && FreeBlank() && obj in live
      modifies this`numObjs, this`live, this`ballOf, Obj, Last()`id
      modifies obj`id, obj`kind, obj`life, obj`owner, obj`attached, obj`treasure, obj`looseCount, obj`looseTicks
      ensures Slots() && FreeBlank() && numObjs == old(numObjs) - 1 == obj.id
      ensures numObjs < Obj.Length && obj == Obj[numObjs]
      ensures forall o <- live :: o.id == if old(o.id) == numObjs then old(obj.id) else old(o.id)
      ensures live == old(live) - {obj} && obj in old(ObjsNow()) && Now() == Without(old(Now()), obj)
    {
      hide ObjsNow, PlayersNow, HaveNow, Slots, FreeBlank;
      ghost var v := obj.Now();
      BeforeNow(Now());
      Drop(obj);
      if v.kind == Ball {
        Unlist(v.treasure);
      }
    }

    lemma OwnerIs(obj: GameObject)
      requires Valid() && obj in live
      ensures obj in ObjsNow() && ObjsNow()[obj] == obj.Now()
      ensures obj.owner != null ==> obj.owner in players && obj.owner in PlayersNow()
    {
    }

    /** Object_remove before the swap. */
    method LetObjGo(obj: GameObject)
      requires Valid() && obj in live
      modifies players`shots, players`ballTmp, players`hasBall, players`usesConnector, live`attached, treasures`have
      ensures Now() == LetGo(old(Now()), obj) && Slots() && FreeBlank()
    {
      hide ObjsNow, PlayersNow, HaveNow, Slots, FreeBlank, Owned, OneBallEach, Counted, Holding, Connecting, Detached,
           Forgotten;
      OwnerIs(obj);
      if obj.kind == Ball {
        LetGoBall(obj);
      } else if obj.kind == Shot && obj.owner != null {
        LetGoShot(obj.owner);
      }
    }

    /** Object_remove */
    method Remove(obj: GameObject)
      requires Valid() && obj in live
      modifies this`numObjs, this`live, this`ballOf, Obj, Last()`id
      modifies players`shots, players`ballTmp, players`hasBall, players`usesConnector, live`attached, treasures`have
      modifies obj`id, obj`kind, obj`life, obj`owner, obj`attached, obj`treasure, obj`looseCount, obj`looseTicks
      ensures Slots() && FreeBlank() && numObjs == old(numObjs) - 1 == obj.id && numObjs < Obj.Length
      ensures Next() == obj && Vacant() == {obj}
      ensures forall o <- live :: o.id == if old(o.id) == numObjs then old(obj.id) else old(o.id)
      ensures live == old(live) - {obj} && Now() == Removed(old(Now()), obj)
      ensures Sound(Now(), if old(obj.kind) == Ball then obj else null)
    {
      hide ObjsNow, PlayersNow, HaveNow, Slots, FreeBlank, Owned, OneBallEach, Counted, Holding, Connecting, LetGo;
      ghost var before := Now();
      OwnerIs(obj);
      RemovedSound(before, obj);
      LetObjGo(obj);
      Vacate(obj);
    }

    // ---- Objects_remove_timed_out

    method Tick(obj: GameObject, onTick: bool)
      requires obj.kind == Ball ==> obj.treasure != null
      modifies obj`life, obj`looseCount, obj`looseTicks
      ensures obj.Now() == Older(old(obj.Now()), obj.treasure != null && obj.treasure.have, onTick)
      ensures obj.life == old(obj.life) - 1
    {
      obj.life := obj.life - 1;
      if obj.kind == Ball && !obj.treasure.have {
        obj.looseCount := obj.looseCount + 1;
        if onTick {
          obj.looseTicks := obj.looseTicks + 1;
        }
      }
    }

    method TickObject(obj: GameObject, onTick: bool)
      requires Valid() && obj in live
      modifies obj`life, obj`looseCount, obj`looseTicks
      ensures Valid() && obj in old(ObjsNow()) && Now() == Ticked(old(Now()), obj, onTick)
      ensures obj.life == old(obj.life) - 1
    {
      hide Slots, FreeBlank, Sound, Now, ObjsNow, PlayersNow, HaveNow, Older, BoxHas;
      ghost var before := Now();
      BeforeNow(before);
      Seen();
      TickedSound(before, obj, onTick);
      TickIs(obj, onTick);
      Tick(obj, onTick);
      ObjectIs(before, obj);
    }

    lemma TickIs(obj: GameObject, onTick: bool)
      requires Valid() && obj in live
      ensures obj in Now().objs && Now().objs[obj] == obj.Now() && (obj.kind == Ball ==> obj.treasure != null)
      ensures Older(obj.Now(), obj.treasure != null && obj.treasure.have, onTick)
              == Older(obj.Now(), BoxHas(Now(), obj), onTick)
    {
      if obj.kind == Ball { BallIs(obj); }
      BeforeNow(Now());
    }

    /** A removed ball frees the very slot that its successor takes. */
    method Expunge(obj: GameObject)
      requires Valid() && obj in live
      modifies this`numObjs, this`live, this`ballOf, Obj, Last()`id
      modifies players`shots, players`ballTmp, players`hasBall, players`usesConnector, live`attached, treasures`have
      modifies obj`id, obj`kind, obj`life, obj`owner, obj`attached, obj`treasure, obj`looseCount, obj`looseTicks
      ensures Valid() && old(numObjs) - 1 <= numObjs
      ensures obj in old(ObjsNow()) && old(ObjsNow())[obj] == old(obj.Now())
      ensures var u := Removed(old(Now()), obj);
              Now() == if old(obj.kind) == Ball then BallAdded(u, old(obj.treasure), obj) else u
      ensures forall o <- live :: o in old(live)
      ensures forall o <- live :: o != obj ==> o.id == if old(o.id) == old(numObjs) - 1 then old(obj.id) else old(o.id)
      ensures forall o <- old(live) :: o in live || o == obj
      ensures obj in live ==> obj.id == old(numObjs) - 1
    {
      hide Sound, Distinct, ObjsNow, PlayersNow, HaveNow, Slots, FreeBlank, Removed, BallAdded;
      OwnerIs(obj);
      if obj.kind == Ball {
        BallIs(obj);
        RemovedShape(Now(), obj);
      }
      var kind, t := obj.kind, obj.treasure;
      Remove(obj);
      if kind == Ball {
        var ball := BallTreasureAdd(t, obj);
      }
    }

    /** One pass of the loop of Objects_remove_timed_out. */
    method Turn(i: nat, onTick: bool)
      requires Valid() && i < numObjs
      modifies this`numObjs, this`live, this`ballOf, Obj, all
      modifies players`shots, players`ballTmp, players`hasBall, players`usesConnector, treasures`have
      ensures Valid() && i <= numObjs && old(Obj[i]) in old(ObjsNow())
      ensures Now() == Stepped(old(Now()), old(Obj[i]), onTick)
      ensures forall o <- old(live) :: old(o.id) < i ==> o in live && o.id == old(o.id)
      ensures forall o <- live :: o in old(live) && (o.id < i ==> old(o.id) < i)
    {
      hide Sound, Distinct, FreeBlank, ObjsNow, PlayersNow, HaveNow, Removed, BallAdded;
      var obj := Obj[i];
      OwnerIs(obj);
      if !onTick && (obj.kind == Spark || obj.kind == Debris) {
        return;
      }
      TickObject(obj, onTick);
      if obj.life <= 0 {
        Expunge(obj);
      }
    }

    /** Objects_remove_timed_out: every object has its turn exactly once. */
    method RemoveTimedOut(onTick: bool)
      requires Valid()
      modifies this`numObjs, this`live, this`ballOf, Obj, all
      modifies players`shots, players`ballTmp, players`hasBall, players`usesConnector, treasures`have
      ensures Valid() && Now() == Swept(old(Now()), old(live), onTick) && AgedByOne(old(Now()), Now(), onTick)
    {
      hide Sound, Distinct, FreeBlank, ObjsNow, PlayersNow, HaveNow, Stepped, Swept, AgedByOne;
      ghost var before, done := Now(), {};
      SweptAged(before, onTick);
      SweptNothing(before, onTick);
      BeforeNow(before);
      var i := numObjs - 1;
      while i >= 0
        invariant -1 <= i < numObjs && Valid() && Now() == Swept(before, done, onTick)
        invariant done <= old(live) && forall o <- old(live) :: o !in done ==> o in live && o.id <= i
        invariant forall o <- live :: o in old(live) && (o in done ==> o.id > i)
      {
        ghost var obj := Obj[i];
        Turn(i, onTick);
        StepSweeps(before, done, obj, onTick);
        done := done + {obj};
        i := i - 1;
      }
      assert done == old(live);
    }

    // ---- firing, scrap, catching balls, leaving

    lemma PlayerIs(s: State, p: Player)
      requires s.objs.Keys == live && forall o <- live :: s.objs[o] == o.Now()
      requires s.players.Keys == (set q | q in players) && p in players
      requires forall q <- players :: q != p ==> s.players[q] == q.Now()
      requires s.have.Keys == treasures && forall t <- treasures :: s.have[t] == t.have
      requires s.ballOf == ballOf
      ensures Now() == s.(players := s.players[p := p.Now()])
    {
      NowIs(s.(players := s.players[p := p.Now()]));
    }

    method CountShot(p: Player, now: int)
      requires Slots() && FreeBlank() && p in players
      modifies p`shots, p`shotTime
      ensures Slots() && FreeBlank() && p in old(PlayersNow())
      ensures var c := old(p.Now());
              Now() == old(Now()).(players := old(PlayersNow())[p := c.(shots := c.shots + 1, shotTime := now)])
    {
      hide Slots, FreeBlank, ObjsNow, PlayersNow, HaveNow;
      ghost var before := Now();
      BeforeNow(before);
      p.shotTime := now;
      p.shots := p.shots + 1;
      PlayerIs(before, p);
    }

    /** Shot_add behind its guards. */
    method Fire(p: Player, now: int, life: int) returns (shot: GameObject?)
      requires Slots() && FreeBlank() && p in players
      modifies this`numObjs, this`live, p`shots, p`shotTime
      modifies Vacant()`kind, Vacant()`life, Vacant()`owner, Vacant()`attached, Vacant()`treasure
      ensures Slots() && FreeBlank() && p in old(PlayersNow())
      ensures shot != null <==> old(numObjs) < Obj.Length
      ensures shot == null ==> Now() == old(Now())
      ensures shot != null ==> shot !in old(ObjsNow()) && Now() == ShotAdded(old(Now()), p, shot, now, life)
    {
      hide Slots, FreeBlank, ObjsNow, PlayersNow, HaveNow, Now, ShotAdded;
      ghost var before := Now();
      PlayerSeen(before, p);
      shot := NewObject(View(Shot, life, p, false, null, 0, 0));
      if shot != null {
        PlayerSeen(Now(), p);
        CountShot(p, now);
        Fired(before, p, shot, now, life);
      }
    }

    lemma ObjectIn(s: State, obj: GameObject)
      requires s.objs.Keys + {obj} == live && obj !in s.objs && forall o <- s.objs :: s.objs[o] == o.Now()
      requires s.players.Keys == (set p | p in players) && forall p <- players :: s.players[p] == p.Now()
      requires s.have.Keys == treasures && forall t <- treasures :: s.have[t] == t.have
      requires s.ballOf == ballOf
      ensures Now() == s.(objs := s.objs[obj := obj.Now()])
    {
      NowIs(s.(objs := s.objs[obj := obj.Now()]));
    }

    lemma PlayerSeen(s: State, p: Player)
      requires s == Now() && p in players
      ensures s.players == PlayersNow() && s.objs == ObjsNow() && p in PlayersNow() && PlayersNow()[p] == p.Now()
    {
    }

    /** Shot_add */
    method ShotAdd(p: Player, now: int, repeatRate: int, shotMax: int, shield: bool,
                   life: int) returns (shot: GameObject?)
      requires Valid() && p in players
      modifies this`numObjs, this`live, p`shots, p`shotTime
      modifies Vacant()`kind, Vacant()`life, Vacant()`owner, Vacant()`attached, Vacant()`treasure
      ensures Valid() && p in old(PlayersNow())
      ensures shot != null <==>
                old(p.shotTime) + repeatRate <= now && old(p.shots) < shotMax && !shield && old(numObjs) < Obj.Length
      ensures shot == null ==> Now() == old(Now())
      ensures shot != null ==> shot !in old(ObjsNow()) && Now() == ShotAdded(old(Now()), p, shot, now, life)
    {
      hide Slots, Sound, Distinct, FreeBlank, ObjsNow, PlayersNow, HaveNow, ShotAdded;
      BeforeNow(Now());
      PlayerSeen(Now(), p);
      if now < p.shotTime + repeatRate {
        return null;
      }
      if p.shots >= shotMax || shield {
        return null;
      }
      shot := Fire(p, now, life);
      if shot != null {
        ShotAddedSound(old(Now()), p, shot, now, life);
      }
    }

    /** One spark, piece of debris or wreckage of src/server/ship.cpp. */
    method ScrapAdd(kind: Kind, owner: Player?, life: int) returns (scrap: GameObject?)
      requires Valid() && kind in {Spark, Debris, Wreckage} && (owner == null || owner in players)
      modifies this`numObjs, this`live
      modifies Vacant()`kind, Vacant()`life, Vacant()`owner, Vacant()`attached, Vacant()`treasure
      ensures Valid() && (scrap == null <==> old(numObjs) == Obj.Length)
      ensures scrap == null ==> Now() == old(Now())
      ensures scrap != null ==> scrap !in old(live)
      ensures scrap != null ==>
                Now() == old(Now()).(objs := old(ObjsNow())[scrap := View(kind, life, owner, false, null, 0, 0)])
    {
      hide Sound, Distinct, FreeBlank, ObjsNow, PlayersNow, HaveNow;
      BeforeNow(Now());
      scrap := NewObject(View(kind, life, owner, false, null, 0, 0));
      if scrap != null {
        ScrapSound(old(Now()), scrap, View(kind, life, owner, false, null, 0, 0));
      }
    }

    /** Object_expire */
    method Expire(obj: GameObject)
      requires Valid() && obj in live
      modifies obj`life
      ensures Valid() && obj in old(ObjsNow())
      ensures Now() == old(Now()).(objs := old(ObjsNow())[obj := old(obj.Now()).(life := 0)])
    {
      hide Slots, Sound, Distinct, FreeBlank, ObjsNow, PlayersNow, HaveNow;
      ghost var before := Now();
      BeforeNow(before);
      obj.life := 0;
      ObjectIs(before, obj);
      SameSound(before, before.objs[obj := obj.Now()], null);
    }

    /** Objects_time_out: everything is to go with the next sweep. */
    method TimeOut()
      requires Valid()
      modifies live`life
      ensures Valid() && Now() == old(Now()).(objs := Ended(old(ObjsNow())))
    {
      hide Slots, Sound, Distinct, FreeBlank, ObjsNow, PlayersNow, HaveNow, Ended;
      EndedSound(Now());
      EndLives();
    }

    method EndLives()
      requires Slots() && FreeBlank()
      modifies live`life
      ensures Slots() && FreeBlank() && Now() == old(Now()).(objs := Ended(old(ObjsNow())))
    {
      hide Slots, FreeBlank, ObjsNow, PlayersNow, HaveNow;
      ghost var before := Now();
      BeforeNow(before);
      EndLoop();
      NowIs(before.(objs := Ended(before.objs)));
    }

    method EndLoop()
      requires Slots() && FreeBlank()
      modifies live`life
      ensures Slots() && FreeBlank() && forall o <- live :: o.life == 0
    {
      hide FreeBlank;
      var i := 0;
      while i < numObjs
        invariant 0 <= i <= numObjs && Slots()
        invariant forall o <- live :: o.id < i ==> o.life == 0
      {
        Obj[i].life := 0;
        i := i + 1;
      }
    }

    /** A player that the index already lists: the memory of a player is wiped when it leaves. */
    method PlayerJoins(p: Player)
      requires Valid() && p !in players && p.Now() == Crew(0, 0, false, false, null)
      modifies this`players
      ensures Valid() && p !in old(PlayersNow())
      ensures Now() == old(Now()).(players := old(PlayersNow())[p := Crew(0, 0, false, false, null)])
    {
      hide Slots, FreeBlank, Sound, ObjsNow, PlayersNow, HaveNow;
      ghost var before := Now();
      BeforeNow(before);
      DistinctAppend(players, p);
      players := players + [p];
      NowIs(before.(players := before.players[p := p.Now()]));
      JoinedSound(before, p);
    }

    /** The key that drops all balls. */
    method DropBalls(p: Player)
      requires Valid() && p in players
      modifies p`hasBall, p`usesConnector, p`ballTmp, live`attached
      ensures Valid() && p in old(PlayersNow()) && Now() == Detached(old(Now()), p, null)
    {
      hide Slots, FreeBlank, Now, Owned, OneBallEach, Counted, Holding, Connecting, ObjsNow, PlayersNow, HaveNow,
           Distinct, Detached;
      PlayerSeen(Now(), p);
      DetachedSound(Now(), p, null, null);
      BallDetach(p, null);
    }

    /** A treasure of the map; its box is empty. */
    method TreasureJoins(t: Treasure)
      requires Valid() && t !in treasures && !t.have
      modifies this`treasures
      ensures Valid() && t !in old(HaveNow()) && t !in ballOf
      ensures Now() == old(Now()).(have := old(HaveNow())[t := false])
    {
      hide Slots, FreeBlank, Sound, Distinct, ObjsNow, PlayersNow, HaveNow;
      ghost var before := Now();
      BeforeNow(before);
      TreasureSound(before, t);
      treasures := treasures + {t};
      NowIs(before.(have := before.have[t := false]));
    }

    /** The connector key is pressed. */
    method Connects(p: Player)
      requires Valid() && p in players
      modifies p`usesConnector
      ensures Valid() && p in old(PlayersNow())
      ensures Now() == old(Now()).(players := old(PlayersNow())[p := old(p.Now()).(usesConnector := true)])
    {
      hide Slots, FreeBlank, Sound, Distinct, ObjsNow, PlayersNow, HaveNow;
      ghost var before := Now();
      BeforeNow(before);
      p.usesConnector := true;
      PlayerIs(before, p);
      KeySound(before, p, true);
    }

    /** And released. */
    method Releases(p: Player)
      requires Valid() && p in players
      modifies p`usesConnector
      ensures Valid() && p in old(PlayersNow())
      ensures Now() == old(Now()).(players := old(PlayersNow())[p := old(p.Now()).(usesConnector := false)])
    {
      hide Slots, FreeBlank, Sound, Distinct, ObjsNow, PlayersNow, HaveNow;
      ghost var before := Now();
      BeforeNow(before);
      p.usesConnector := false;
      PlayerIs(before, p);
      KeySound(before, p, false);
    }

    /** Player_go_home, as to balls. */
    method GoHome(p: Player)
      requires Valid() && p in players && HeldBy(ObjsNow(), p) == {}
      modifies p`hasBall
      ensures Valid() && p in old(PlayersNow())
      ensures Now() == old(Now()).(players := old(PlayersNow())[p := old(p.Now()).(hasBall := false)])
    {
      hide Slots, FreeBlank, Sound, Distinct, ObjsNow, PlayersNow, HaveNow;
      ghost var before := Now();
      BeforeNow(before);
      p.hasBall := false;
      PlayerIs(before, p);
      GoHomeSound(before, p);
    }

    /** A ball a player may start to connect to. */
    predicate Catchable(o: GameObject, team: int)
      reads o, o.treasure
    {
      o.life > 0 && o.kind == Ball && !o.attached && o.treasure != null && !(o.treasure.team == team && o.treasure.have)
    }

    /** The first of the nearest such balls within reach, if there is one. */
    ghost predicate Nearest(best: GameObject?, team: int, distance: GameObject -> real, reach: int)
      reads this`live, live, set o | o in live :: o.treasure
    {
      if best == null then
        forall o <- live :: Catchable(o, team) ==> distance(o).Floor >= reach
      else
        && best in live && Catchable(best, team) && distance(best).Floor < reach
        && forall o <- live :: Catchable(o, team) ==>
             distance(best).Floor < distance(o).Floor || (distance(best).Floor == distance(o).Floor && best.id <= o.id)
    }

    /** The search of Collision_player_attach_ball */
    method Search(team: int, distance: GameObject -> real, reach: int) returns (best: GameObject?)
      requires Slots() && forall o <- live :: o.kind == Ball ==> o.treasure != null
      ensures Nearest(best, team, distance, reach)
    {
      best := null;
      var minDist, j := reach, 0;
      while j < numObjs
        invariant 0 <= j <= numObjs
        invariant if best == null then minDist == reach
                  else best in live && best.id < j && Catchable(best, team) && distance(best).Floor == minDist < reach
        invariant forall o <- live :: o.id < j && Catchable(o, team) ==>
                    minDist < distance(o).Floor || (minDist == distance(o).Floor && (best != null ==> best.id <= o.id))
      {
        var ball := Obj[j];
        if ball.life > 0 && ball.kind == Ball && !ball.attached {
          var dist := distance(ball).Floor;
          if dist < minDist && !(ball.treasure.team == team && ball.treasure.have) {
            best := ball;
            minDist := dist;
          }
        }
        j := j + 1;
      }
    }

    lemma BallsHaveTreasures()
      requires Valid()
      ensures forall o <- live :: o.kind == Ball ==> o.treasure != null && o.treasure in treasures
    {
      forall o | o in live && o.kind == Ball
        ensures o.treasure != null && o.treasure in treasures
      {
        BallIs(o);
      }
    }

    method SetBallTmp(p: Player, ball: GameObject?)
      requires Valid() && p in players && (ball != null ==> ball in live && ball.kind == Ball)
      modifies p`ballTmp
      ensures Valid() && p in old(PlayersNow())
      ensures p.ballTmp == ball
      ensures Now() == old(Now()).(players := old(PlayersNow())[p := old(p.Now()).(ballTmp := ball)])
    {
      hide Slots, FreeBlank, Sound, Distinct, ObjsNow, PlayersNow, HaveNow;
      ghost var before := Now();
      BeforeNow(before);
      p.ballTmp := ball;
      PlayerIs(before, p);
      StrungSound(before, p, ball);
    }

    method Take(p: Player, ball: GameObject)
      requires ball.treasure != null
      modifies p`ballTmp, p`hasBall, ball`attached, ball`owner, ball`life, ball.treasure`have
      ensures p.Now() == old(p.Now()).(hasBall := true, ballTmp := null) && !ball.treasure.have
      ensures ball.Now() == old(ball.Now()).(attached := true, owner := p,
                                             life := if old(ball.treasure.have) then MAX_OBJECT_LIFE
                                                     else old(ball.life))
      ensures forall o <- live :: o != ball ==> o.Now() == old(o.Now())
      ensures forall q <- players :: q != p ==> q.Now() == old(q.Now())
      ensures forall t <- treasures :: t.have == (old(t.have) && t != ball.treasure)
    {
      ball.attached := true;
      ball.owner := p;
      if ball.treasure != null && ball.treasure.have {
        ball.life := MAX_OBJECT_LIFE;
        ball.treasure.have := false;
      }
      p.hasBall := true;
      p.ballTmp := null;
    }

    /** The string has become long enough. */
    method Catch(p: Player, ball: GameObject)
      requires Valid() && p in players && ball in live && ball.kind == Ball && !ball.attached
      modifies p`ballTmp, p`hasBall, ball`attached, ball`owner, ball`life, treasures`have
      ensures Valid() && p in old(PlayersNow()) && ball in old(ObjsNow()) && old(ball.treasure) != null
      ensures old(ObjsNow())[ball] == old(ball.Now()) && Now() == Caught(old(Now()), p, ball)
    {
      hide Slots, FreeBlank, Sound, Distinct, ObjsNow, PlayersNow, HaveNow, Caught;
      ghost var before := Now();
      BeforeNow(before);
      BallIs(ball);
      CaughtSound(before, p, ball);
      Take(p, ball);
      CaughtNow(before, p, ball);
    }

    lemma CaughtNow(s: State, p: Player, ball: GameObject)
      requires p in players && ball in live && s.players.Keys == (set q | q in players) && s.objs.Keys == live
      requires s.have.Keys == treasures && s.ballOf == ballOf && s.objs[ball].treasure != null
      requires s.objs[ball].treasure in treasures
      requires p.Now() == s.players[p].(hasBall := true, ballTmp := null)
      requires ball.Now() == s.objs[ball].(attached := true, owner := p,
                                           life := if s.have[s.objs[ball].treasure] then MAX_OBJECT_LIFE
                                                   else s.objs[ball].life)
      requires forall o <- live :: o != ball ==> o.Now() == s.objs[o]
      requires forall q <- players :: q != p ==> q.Now() == s.players[q]
      requires forall t <- treasures :: t.have == (s.have[t] && t != s.objs[ball].treasure)
      ensures Now() == Caught(s, p, ball)
    {
      NowIs(Caught(s, p, ball));
    }

    /** Collision_player_attach_ball */
    method AttachBall(p: Player, team: int, distance: GameObject -> real, reach: int) returns (caught: bool)
      requires Valid() && p in players
      modifies p`ballTmp, p`hasBall, live`attached, live`owner, live`life, treasures`have
      ensures Valid() && p in old(PlayersNow()) && old(PlayersNow())[p] == old(p.Now())
      ensures var ball := old(p.ballTmp);
              && (caught <==>
                   old(p.usesConnector) && ball != null && !old(ball.attached) && distance(ball) >= reach as real)
              && (caught ==> ball in old(ObjsNow()) && old(ObjsNow())[ball].treasure != null)
              && (caught ==> Now() == Caught(old(Now()), p, ball))
              && (!caught ==>
                   Now() == old(Now()).(players := old(PlayersNow())[p := old(p.Now()).(ballTmp := p.ballTmp)]))
              && (!old(p.usesConnector) ==> p.ballTmp == null)
              && (old(p.usesConnector) && ball != null && !caught ==>
                   p.ballTmp == if old(ball.attached) then null else ball)
              && (old(p.usesConnector) && ball == null ==> Nearest(p.ballTmp, team, distance, reach))
    {
      hide Sound, Distinct, FreeBlank, ObjsNow, PlayersNow, HaveNow;
      BeforeNow(Now());
      BallTmpIs(p);
      if !p.usesConnector {
        SetBallTmp(p, null);
      } else if p.ballTmp != null {
        var ball := p.ballTmp;
        if ball.attached {
          SetBallTmp(p, null);
        } else if distance(ball) >= reach as real {
          BallIs(ball);
          Catch(p, ball);
          return true;
        } else {
          SetBallTmp(p, ball);
        }
      } else {
        BallsHaveTreasures();
        var best := Search(team, distance, reach);
        SetBallTmp(p, best);
      }
      return false;
    }

    lemma BallTmpIs(p: Player)
      requires Valid() && p in players
      ensures p.ballTmp != null ==> p.ballTmp in live && p.ballTmp.kind == Ball
    {
      assert p in PlayersNow();
    }

    // ---- Player_remove

    method Unown(obj: GameObject, expire: bool)
      requires Slots() && FreeBlank() && obj in live
      modifies obj`life, obj`owner
      ensures Slots() && FreeBlank() && obj in old(ObjsNow())
      ensures Now() == old(Now()).(objs := old(ObjsNow())[obj :=
                old(obj.Now()).(owner := null, life := if expire then 0 else old(obj.life))])
    {
      hide Slots, FreeBlank, ObjsNow, PlayersNow, HaveNow;
      ghost var before := Now();
      BeforeNow(before);
      if expire {
        obj.life := 0;
      }
      obj.owner := null;
      ObjectIs(before, obj);
    }

    /** What Player_remove does with one object. */
    method Disown(obj: GameObject, p: Player, keepShots: bool)
      requires Slots() && FreeBlank() && obj in live && p in players
      requires Owned(ObjsNow(), PlayersNow().Keys) && Holding(ObjsNow(), PlayersNow())
      modifies p`hasBall, p`usesConnector, p`ballTmp, live`attached, obj`life, obj`owner
      ensures Slots() && FreeBlank() && p in old(PlayersNow()) && obj in old(ObjsNow())
      ensures Now() == AbandonedOne(old(Now()), obj, p, keepShots)
    {
      hide Slots, FreeBlank, ObjsNow, PlayersNow, HaveNow, Owned, Holding, HeldBy, Unhanded;
      ghost var before := Now();
      BeforeNow(before);
      FreedAt(before.objs, p, obj, Abandoned(obj.Now(), p, keepShots));
      if obj.owner == p {
        var expire := false;
        if obj.kind == Ball {
          if obj.attached {
            BallDetach(p, obj);
            BeforeNow(Now());
            expire := true;
          }
        } else if obj.kind == Shot && !keepShots {
          expire := true;
        }
        AttachedIsBall(before, obj);
        Unown(obj, expire);
      }
    }

    /** The loop of Player_remove over the objects, newest slot first. */
    lemma Fits()
      requires Slots()
      ensures numObjs <= Obj.Length && forall o <- live :: o.id < numObjs
    {
    }

    lemma Here(i: nat)
      requires Slots() && i < numObjs
      ensures i < Obj.Length && Obj[i] in live && forall o <- live :: o.id == i <==> o == Obj[i]
    {
    }

    method DisownAll(p: Player, keepShots: bool)
      requires Valid() && p in players
      modifies p`hasBall, p`usesConnector, p`ballTmp, live`attached, live`life, live`owner
      ensures Slots() && FreeBlank()
      ensures Now() == old(Now()).(objs := Left(old(Now()), p, keepShots).objs, players := PlayersNow())
      ensures p in old(PlayersNow()) && PlayersNow() == old(PlayersNow())[p := p.Now()]
    {
      hide Slots, FreeBlank, Now, ObjsNow, PlayersNow, HaveNow, Owned, OneBallEach, Counted, Holding, Connecting,
           AbandonedOne, AbandonedObjs;
      ghost var before, done: set<GameObject> := Now(), {};
      BeforeNow(before);
      Seen();
      Fits();
      AbandonedNone(before.objs, p, keepShots);
      var i := numObjs - 1;
      while i >= 0
        invariant -1 <= i < numObjs && Slots() && FreeBlank()
        invariant Owned(ObjsNow(), PlayersNow().Keys) && Holding(ObjsNow(), PlayersNow())
        invariant done <= live && forall o <- live :: o in done <==> o.id > i
        invariant Now() == before.(objs := AbandonedObjs(before.objs, done, p, keepShots),
                                   players := before.players[p := p.Now()])
      {
        Here(i);
        var obj := Obj[i];
        ghost var s := Now();
        Seen();
        Disown(obj, p, keepShots);
        AbandonedOneKeeps(s, obj, p, keepShots);
        AbandonedOneHolding(s, obj, p, keepShots);
        AbandonedMore(before, s, done, obj, p, keepShots);
        BeforeNow(Now());
        Seen();
        done := done + {obj};
        i := i - 1;
      }
      assert done == live == before.objs.Keys;
      Seen();
    }

    lemma SwappedOut(ind: nat, rest: seq<Player>)
      requires Distinct(players) && ind < |players| && rest == players[ind := players[|players| - 1]][..|players| - 1]
      ensures Distinct(rest) && forall q :: q in rest <==> q in players && q != players[ind]
    {
      var last := |players| - 1;
      forall q | q in players && q != players[ind]
        ensures q in rest
      {
        var k :| 0 <= k < |players| && players[k] == q;
        assert rest[if k == last then ind else k] == q;
      }
    }

    /** The last player takes the place of the one that leaves. */
    method DropPlayer(ind: nat)
      requires Slots() && FreeBlank() && Distinct(players) && ind < |players|
      modifies this`players
      ensures Slots() && FreeBlank() && Distinct(players)
      ensures players == old(players[ind := players[|players| - 1]][..|players| - 1])
      ensures Now() == old(Now()).(players := old(PlayersNow()) - {old(players[ind])})
    {
      hide Slots, FreeBlank, ObjsNow, PlayersNow, HaveNow, Distinct;
      ghost var before := Now();
      BeforeNow(before);
      var p, last := players[ind], |players| - 1;
      SwappedOut(ind, players[ind := players[last]][..last]);
      players := players[ind := players[last]][..last];
      NowIs(before.(players := before.players - {p}));
    }

    /** Player_remove, as to objects */
    method PlayerLeaves(ind: nat, keepShots: bool)
      requires Valid() && ind < |players|
      modifies this`players, players`hasBall, players`usesConnector, players`ballTmp, live`attached
      modifies live`life, live`owner
      ensures Valid() && Now() == Left(old(Now()), old(players[ind]), keepShots)
      ensures players == old(players[ind := players[|players| - 1]][..|players| - 1])
    {
      hide Slots, FreeBlank, ObjsNow, PlayersNow, HaveNow, Sound, Distinct;
      ghost var before, p := Now(), players[ind];
      DisownAll(players[ind], keepShots);
      DropPlayer(ind);
      assert before.players[p := p.Now()] - {p} == before.players - {p};
      LeftSound(before, p, keepShots);
    }
  }
}
