/** The object pool over whole games: everything that happens to balls, shots and scrap from the empty
    pool on, and who may take which ball. */
module PoolRuns {
  import opened ObjectPool

  /** The pool and the team of each player. */
  datatype Game = Game(s: State, team: map<Player, int>)

  /** One operation of the pool, as its contract describes it. */
  datatype Event =
    | NewTreasure(t: Treasure)
    | Fills(t: Treasure, ball: GameObject)
    | Joins(p: Player, team: int)
    | Leaves(p: Player, keepShots: bool)
    | Swaps(p: Player, team: int)
    | GoesHome(p: Player)
    | Presses(p: Player, down: bool)
    | Strings(p: Player, ball: GameObject)
    | Cuts(p: Player)
    | Catches(p: Player, ball: GameObject)
    | Drops(p: Player, which: GameObject?)
    | Fires(p: Player, shot: GameObject, now: int, life: int)
    | Scraps(scrap: GameObject, v: View)
    | Expires(obj: GameObject)
    | TimesOut
    | Sweeps(onTick: bool)

  /** A ball is not to be taken by the team it belongs to while it is in its box. */
  ghost predicate Allowed(s: State, ball: GameObject, team: int) {
    && ball in s.objs && s.objs[ball].treasure != null
    && !(s.objs[ball].treasure.team == team && BoxHas(s, ball))
  }

  ghost predicate Loose(s: State, ball: GameObject) {
    LiveBall(s.objs, ball) && s.objs[ball].life > 0 && !s.objs[ball].attached
  }

  ghost predicate Possible(g: Game, e: Event) {
    var s := g.s;
    match e
    case NewTreasure(t) => t !in s.have && t !in s.ballOf
    case Fills(t, ball) => t in s.have && t !in s.ballOf && ball !in s.objs
    case Joins(p, _) => p !in s.players
    case Leaves(p, _) => p in s.players
    case Swaps(p, _) => p in s.players
    case GoesHome(p) => p in s.players
    case Presses(p, _) => p in s.players
    case Strings(p, ball) =>
      && p in s.players && p in g.team && s.players[p].usesConnector && s.players[p].ballTmp == null
      && Loose(s, ball) && Allowed(s, ball, g.team[p])
    case Cuts(p) => p in s.players
    case Catches(p, ball) =>
      && p in s.players && s.players[p].usesConnector && s.players[p].ballTmp == ball
      && LiveBall(s.objs, ball) && !s.objs[ball].attached && s.objs[ball].treasure != null
    case Drops(p, _) => p in s.players
    case Fires(p, shot, _, _) => p in s.players && shot !in s.objs
    case Scraps(scrap, v) =>
      && scrap !in s.objs && v.kind in {Spark, Debris, Wreckage} && !v.attached
      && (v.owner == null || v.owner in s.players)
    case Expires(obj) => obj in s.objs
    case TimesOut => true
    case Sweeps(_) => true
  }

  ghost function SetCrew(s: State, p: Player, c: Crew): State {
    s.(players := s.players[p := c])
  }

  ghost function After(g: Game, e: Event): Game
    requires Possible(g, e)
  {
    var s := g.s;
    match e
    case NewTreasure(t) => g.(s := s.(have := s.have[t := false]))
    case Fills(t, ball) => g.(s := BallAdded(s, t, ball))
    case Joins(p, team) => Game(SetCrew(s, p, Crew(0, 0, false, false, null)), g.team[p := team])
    case Leaves(p, keepShots) => Game(Left(s, p, keepShots), g.team - {p})
    case Swaps(p, team) => Game(Detached(s, p, null), g.team[p := team])
    case GoesHome(p) => g.(s := SetCrew(s, p, s.players[p].(hasBall := false)))
    case Presses(p, down) => g.(s := SetCrew(s, p, s.players[p].(usesConnector := down)))
    case Strings(p, ball) => g.(s := SetCrew(s, p, s.players[p].(ballTmp := ball)))
    case Cuts(p) => g.(s := SetCrew(s, p, s.players[p].(ballTmp := null)))
    case Catches(p, ball) => g.(s := Caught(s, p, ball))
    case Drops(p, which) => g.(s := Detached(s, p, which))
    case Fires(p, shot, now, life) => g.(s := ShotAdded(s, p, shot, now, life))
    case Scraps(scrap, v) => g.(s := s.(objs := s.objs[scrap := v]))
    case Expires(obj) => g.(s := s.(objs := s.objs[obj := s.objs[obj].(life := 0)]))
    case TimesOut => g.(s := s.(objs := Ended(s.objs)))
    case Sweeps(onTick) => g.(s := Swept(s, s.objs.Keys, onTick))
  }

  // ---- the invariant

  /** A sweep, whatever the order of the turns. */
  lemma {:induction false} SweptSound(s: State, done: set<GameObject>, onTick: bool)
    requires Sound(s, null) && done <= s.objs.Keys
    ensures Sound(Swept(s, done, onTick), null)
    decreases |done|
  {
    hide Sound, Swept, Stepped;
    if done == {} {
      SweptNothing(s, onTick);
    } else {
      var o :| o in done;
      var rest := done - {o};
      assert done == rest + {o};
      SweptSound(s, rest, onTick);
      StepSweeps(s, rest, o, onTick);
      SteppedSound(Swept(s, rest, onTick), o, onTick);
    }
  }

  /** Going home is right for those only who hold no ball, and everything else always. */
  ghost predicate EmptyHanded(s: State, e: Event) {
    e.GoesHome? ==> HeldBy(s.objs, e.p) == {}
  }

  lemma AfterSound(g: Game, e: Event)
    requires Sound(g.s, null) && Possible(g, e)
    ensures Sound(After(g, e).s, null) <==> EmptyHanded(g.s, e)
  {
    hide Sound, Caught, Swept, Left, Detached, ShotAdded, BallAdded, Ended, HeldBy;
    var s := g.s;
    match e
    case NewTreasure(t) => TreasureSound(s, t);
    case Fills(t, ball) => BallAddedSound(s, t, ball, null);
    case Joins(p, _) => JoinedSound(s, p);
    case Leaves(p, keepShots) => LeftSound(s, p, keepShots);
    case Swaps(p, _) => DetachedSound(s, p, null, null);
    case GoesHome(p) => GoHomeSound(s, p);
    case Presses(p, down) => KeySound(s, p, down);
    case Strings(p, ball) => StrungSound(s, p, ball);
    case Cuts(p) => StrungSound(s, p, null);
    case Catches(p, ball) => CaughtSound(s, p, ball);
    case Drops(p, which) => DetachedSound(s, p, which, null);
    case Fires(p, shot, now, life) => ShotAddedSound(s, p, shot, now, life);
    case Scraps(scrap, v) => ScrapSound(s, scrap, v);
    case Expires(obj) => SameSound(s, s.objs[obj := s.objs[obj].(life := 0)], null);
    case TimesOut => EndedSound(s);
    case Sweeps(onTick) => SweptSound(s, s.objs.Keys, onTick);
  }

  ghost predicate Legal(g: Game, es: seq<Event>)
    decreases |es|
  {
    es != [] ==> Possible(g, es[0]) && Legal(After(g, es[0]), es[1..])
  }

  ghost function Final(g: Game, es: seq<Event>): Game
    requires Legal(g, es)
    decreases |es|
  {
    if es == [] then g else Final(After(g, es[0]), es[1..])
  }

  ghost predicate AlwaysSound(g: Game, es: seq<Event>)
    requires Legal(g, es)
    decreases |es|
  {
    Sound(g.s, null) && (es != [] ==> AlwaysSound(After(g, es[0]), es[1..]))
  }

  ghost predicate AllEmptyHanded(g: Game, es: seq<Event>)
    requires Legal(g, es)
    decreases |es|
  {
    es != [] ==> EmptyHanded(g.s, es[0]) && AllEmptyHanded(After(g, es[0]), es[1..])
  }

  /** In every state of a run shots are counted, HAS_BALL tells who holds a ball, strings lead to balls
      and every treasure that has a ball has just one, exactly when nobody goes home with a ball. */
  lemma {:induction false} RunSound(g: Game, es: seq<Event>)
    requires Sound(g.s, null) && Legal(g, es)
    ensures AlwaysSound(g, es) <==> AllEmptyHanded(g, es)
    decreases |es|
  {
    hide Sound, Possible, After, EmptyHanded;
    if es != [] {
      AfterSound(g, es[0]);
      if Sound(After(g, es[0]).s, null) {
        RunSound(After(g, es[0]), es[1..]);
      } else {
        NotAlways(After(g, es[0]), es[1..]);
      }
    }
  }

  lemma NotAlways(g: Game, es: seq<Event>)
    requires Legal(g, es) && !Sound(g.s, null)
    ensures !AlwaysSound(g, es)
  {
  }

  /** The live balls of a treasure. */
  ghost function BallsOf(objs: Objects, t: Treasure): set<GameObject> {
    set o | o in objs && objs[o].kind == Ball && objs[o].treasure == t
  }

  lemma AfterBalls(g: Game, e: Event)
    requires Possible(g, e)
    ensures g.s.ballOf.Keys <= After(g, e).s.ballOf.Keys
  {
    hide SweptObjs, SweptHave, SweptCrew, AbandonedObjs, Freed, Unhanded, BoxHas, HeldBy;
  }

  lemma OneBall(s: State, t: Treasure)
    requires OneBallEach(s.objs, s.have, s.ballOf) && t in s.ballOf
    ensures BallsOf(s.objs, t) == {s.ballOf[t]}
  {
  }

  /** A box once filled: however often its ball is caught, lost, cashed or timed out, there is exactly
      one live ball of that treasure after any run. */
  lemma {:induction false} RunBalls(g: Game, es: seq<Event>, t: Treasure)
    requires Sound(g.s, null) && Legal(g, es) && AllEmptyHanded(g, es) && t in g.s.ballOf
    ensures var u := Final(g, es).s;
            Sound(u, null) && t in u.ballOf && BallsOf(u.objs, t) == {u.ballOf[t]}
    decreases |es|
  {
    hide Possible, After, EmptyHanded, Owned, OneBallEach, Counted, Holding, Connecting, BallsOf;
    if es == [] {
      OneBall(g.s, t);
    } else {
      AfterSound(g, es[0]);
      AfterBalls(g, es[0]);
      RunBalls(After(g, es[0]), es[1..], t);
    }
  }

  /** The empty pool. */
  ghost function Start(): Game {
    Game(State(map[], map[], map[], map[]), map[])
  }

  lemma StartSound()
    ensures Sound(Start().s, null)
  {
    NothingSound(Start().s);
  }

  /** What every game from the empty pool comes to. */
  lemma GamesAreSound(es: seq<Event>)
    requires Legal(Start(), es) && AllEmptyHanded(Start(), es)
    ensures var u := Final(Start(), es).s;
            && Sound(u, null)
            && (forall p <- u.players :: u.players[p].hasBall <==> exists o <- u.objs :: o in HeldBy(u.objs, p))
            && (forall p <- u.players :: u.players[p].shots == |ShotsOf(u.objs, p)|)
            && (forall t <- u.ballOf :: BallsOf(u.objs, t) == {u.ballOf[t]})
  {
    hide Legal, Final, AllEmptyHanded;
    StartSound();
    FinalSound(Start(), es);
    var u := Final(Start(), es).s;
    forall t <- u.ballOf
      ensures BallsOf(u.objs, t) == {u.ballOf[t]}
    {
      OneBall(u, t);
    }
    forall p <- u.players
      ensures u.players[p].hasBall <==> exists o <- u.objs :: o in HeldBy(u.objs, p)
    {
      if u.players[p].hasBall {
        var o :| o in HeldBy(u.objs, p);
        assert o in u.objs;
      }
    }
  }

  lemma {:induction false} FinalSound(g: Game, es: seq<Event>)
    requires Sound(g.s, null) && Legal(g, es) && AllEmptyHanded(g, es)
    ensures Sound(Final(g, es).s, null)
    decreases |es|
  {
    hide Sound, Possible, After, EmptyHanded;
    if es != [] {
      AfterSound(g, es[0]);
      FinalSound(After(g, es[0]), es[1..]);
    }
  }

  // ---- how long an object lives

  /** One sweep after the other, each on a tick or not. */
  ghost function SweptBy(s: State, ticks: seq<bool>): State
    decreases |ticks|
  {
    if ticks == [] then s else SweptBy(Swept(s, s.objs.Keys, ticks[0]), ticks[1..])
  }

  /** The sweeps that count for an object. */
  function Turns(kind: Kind, ticks: seq<bool>): nat
    decreases |ticks|
  {
    if ticks == [] then 0
    else (if ticks[0] || (kind != Spark && kind != Debris) then 1 else 0) + Turns(kind, ticks[1..])
  }

  /** What is no ball lives for as many sweeps as its life says, and is gone with the last of them; for sparks and
      debris only those on a tick count. */
  lemma {:induction false} LivesAsLong(s: State, ticks: seq<bool>, o: GameObject)
    requires Sound(s, null) && o in s.objs && s.objs[o].kind != Ball
    ensures var m, u := Turns(s.objs[o].kind, ticks), SweptBy(s, ticks);
            && Sound(u, null)
            && (o in u.objs <==> m == 0 || m < s.objs[o].life)
            && (o in u.objs ==> u.objs[o] == s.objs[o].(life := s.objs[o].life - m))
    decreases |ticks|
  {
    hide Sound, Swept;
    if ticks != [] {
      var t := Swept(s, s.objs.Keys, ticks[0]);
      SweptSound(s, s.objs.Keys, ticks[0]);
      SweptAged(s, ticks[0]);
      if o in t.objs {
        LivesAsLong(t, ticks[1..], o);
      } else {
        NeverBack(t, ticks[1..], o);
      }
    }
  }

  lemma {:induction false} NeverBack(s: State, ticks: seq<bool>, o: GameObject)
    requires Sound(s, null) && o !in s.objs
    ensures Sound(SweptBy(s, ticks), null) && o !in SweptBy(s, ticks).objs
    decreases |ticks|
  {
    hide Sound, Swept;
    if ticks != [] {
      SweptSound(s, s.objs.Keys, ticks[0]);
      SweptAged(s, ticks[0]);
      NeverBack(Swept(s, s.objs.Keys, ticks[0]), ticks[1..], o);
    }
  }

  /** A shot of life L is there after n sweeps exactly when n < L, and is counted just as long. */
  lemma ShotLives(s: State, ticks: seq<bool>, shot: GameObject)
    requires Sound(s, null) && shot in s.objs && s.objs[shot].kind == Shot && s.objs[shot].life >= 1
    ensures shot in SweptBy(s, ticks).objs <==> |ticks| < s.objs[shot].life
    ensures Sound(SweptBy(s, ticks), null)
  {
    LivesAsLong(s, ticks, shot);
    AllTurns(Shot, ticks);
  }

  lemma {:induction false} AllTurns(kind: Kind, ticks: seq<bool>)
    requires kind != Spark && kind != Debris
    ensures Turns(kind, ticks) == |ticks|
    decreases |ticks|
  {
    if ticks != [] {
      AllTurns(kind, ticks[1..]);
    }
  }

  /** What becomes of an object in the sweep after a player has left: a ball the player held is back in its box, the
      player's shots are gone unless they are kept, and everything else grows older as ever, owned by whoever owned it
      but for what was the player's. */
  lemma LeaverSwept(s: State, p: Player, keepShots: bool, onTick: bool, o: GameObject)
    requires Sound(s, null) && p in s.players && o in s.objs
    ensures var l := Left(s, p, keepShots);
            var u, v := Swept(l, l.objs.Keys, onTick), s.objs[o];
            var held, fired := v.owner == p && v.kind == Ball && v.attached, v.owner == p && v.kind == Shot;
            && p !in u.players
            && (held ==>
                  o in u.objs && u.objs[o].life == 0x7FFF_FFFF && u.objs[o].owner == null && !u.objs[o].attached
                  && BoxHas(u, o))
            && (fired && !keepShots ==> o !in u.objs)
            && (!held && !(fired && !keepShots) && v.life > 1 && !Resting(v, onTick) ==>
                  o in u.objs && u.objs[o].life == v.life - 1 && u.objs[o].kind == v.kind
                  && u.objs[o].owner == (if v.owner == p then null else v.owner)
                  && u.objs[o].attached == (v.attached && v.owner != p))
  {
    hide Sound, Swept;
    var l := Left(s, p, keepShots);
    LeftSound(s, p, keepShots);
    SweptAged(l, onTick);
    SweptPlayers(l, onTick);
  }

  lemma SweptPlayers(s: State, onTick: bool)
    ensures Swept(s, s.objs.Keys, onTick).players.Keys == s.players.Keys
  {
  }

  // ---- who may take which ball

  /** Nobody's string leads to a ball of the own team in its box. */
  ghost predicate Fair(g: Game) {
    forall p <- g.s.players :: p in g.team && FairString(g.s, g.s.players[p].ballTmp, g.team[p])
  }

  ghost predicate FairString(s: State, ball: GameObject?, team: int) {
    ball == null || Allowed(s, ball, team)
  }

  /** The sweep puts a ball back into its box that another player was holding, while somebody of the
      ball's own team connects to it. */
  ghost predicate Strands(g: Game, e: Event) {
    e.Sweeps? && exists p <- g.s.players :: p in g.team && Stranded(g.s, p, g.team[p])
  }

  ghost predicate Stranded(s: State, p: Player, team: int)
    requires p in s.players
  {
    var ball := s.players[p].ballTmp;
    && ball in s.objs && s.objs[ball].attached && s.objs[ball].owner != p && s.objs[ball].life <= 1
    && s.objs[ball].treasure != null && s.objs[ball].treasure.team == team
  }

  /** What becomes of one string in a sweep. */
  lemma SweptString(s: State, p: Player, team: int, onTick: bool)
    requires Sound(s, null) && p in s.players && FairString(s, s.players[p].ballTmp, team)
    ensures var u := Swept(s, s.objs.Keys, onTick);
            p in u.players && (FairString(u, u.players[p].ballTmp, team) <==> !Stranded(s, p, team))
  {
    hide Owned, Counted, Holding, ShotsOf, HeldBy;
    var ball := s.players[p].ballTmp;
    if ball != null {
      assert LiveBall(s.objs, ball);
      var t := s.objs[ball].treasure;
      assert t in s.ballOf && s.ballOf[t] == ball && t in s.have;
      SweptBall(s, ball, onTick);
    }
  }

  lemma SweptBall(s: State, ball: GameObject, onTick: bool)
    requires LiveBall(s.objs, ball)
    ensures var u := Swept(s, s.objs.Keys, onTick);
            ball in u.objs && u.objs[ball].treasure == s.objs[ball].treasure
    ensures FateOf(s, ball, onTick) == Recreated <==> s.objs[ball].life <= 1
  {
  }

  /** A string stays fair as long as its ball does and the box is not filled. */
  lemma StringStays(s: State, u: State, ball: GameObject?, team: int)
    requires FairString(s, ball, team)
    requires ball != null ==> ball in u.objs && u.objs[ball].treasure == s.objs[ball].treasure
    requires ball != null && BoxHas(u, ball) ==> BoxHas(s, ball)
    ensures FairString(u, ball, team)
  {
  }

  lemma FilledFair(g: Game, t: Treasure, ball: GameObject)
    requires Sound(g.s, null) && Fair(g) && Possible(g, Fills(t, ball))
    ensures Fair(After(g, Fills(t, ball)))
  {
    hide Owned, Counted, Holding;
    var u := After(g, Fills(t, ball)).s;
    forall p <- u.players
      ensures p in g.team && FairString(u, u.players[p].ballTmp, g.team[p])
    {
      assert u.players[p] == g.s.players[p];
      StringStays(g.s, u, u.players[p].ballTmp, g.team[p]);
    }
  }

  /** Events that fill no box and give nobody a string but a null one keep strings fair. */
  lemma OthersFair(g: Game, e: Event)
    requires Sound(g.s, null) && Fair(g) && Possible(g, e) && !e.Fills? && !e.Sweeps? && !e.Strings?
    ensures Fair(After(g, e))
  {
    hide Owned, OneBallEach, Counted, Holding, Unhanded, HeldBy, ShotsOf;
    var h := After(g, e);
    forall p <- h.s.players
      ensures p in h.team && FairString(h.s, h.s.players[p].ballTmp, h.team[p])
    {
      OtherString(g, e, p);
    }
  }

  lemma OtherString(g: Game, e: Event, p: Player)
    requires Sound(g.s, null) && Fair(g) && Possible(g, e) && !e.Fills? && !e.Sweeps? && !e.Strings?
    requires p in After(g, e).s.players
    ensures p in After(g, e).team && FairString(After(g, e).s, After(g, e).s.players[p].ballTmp, After(g, e).team[p])
  {
    hide Owned, OneBallEach, Counted, Holding, HeldBy, ShotsOf;
    var h := After(g, e);
    var ball := h.s.players[p].ballTmp;
    if ball != null {
      assert p in g.s.players && g.s.players[p].ballTmp == ball && h.team[p] == g.team[p];
      assert LiveBall(g.s.objs, ball);
      StringStays(g.s, h.s, ball, g.team[p]);
    }
  }

  lemma StrungFair(g: Game, p: Player, ball: GameObject)
    requires Fair(g) && Possible(g, Strings(p, ball))
    ensures Fair(After(g, Strings(p, ball)))
  {
    var h := After(g, Strings(p, ball));
    forall q <- h.s.players
      ensures q in h.team && FairString(h.s, h.s.players[q].ballTmp, h.team[q])
    {
    }
  }

  lemma SweptFair(g: Game, onTick: bool)
    requires Sound(g.s, null) && Fair(g)
    ensures Fair(After(g, Sweeps(onTick))) <==> !Strands(g, Sweeps(onTick))
  {
    hide Sound, FairString, Stranded;
    var u := Swept(g.s, g.s.objs.Keys, onTick);
    assert u.players.Keys == g.s.players.Keys;
    forall p <- g.s.players
      ensures p in u.players && (FairString(u, u.players[p].ballTmp, g.team[p]) <==> !Stranded(g.s, p, g.team[p]))
    {
      SweptString(g.s, p, g.team[p], onTick);
    }
    hide Swept;
  }

  lemma AfterFair(g: Game, e: Event)
    requires Sound(g.s, null) && Fair(g) && Possible(g, e)
    ensures Fair(After(g, e)) <==> !Strands(g, e)
  {
    hide Sound, Fair, After;
    match e
    case Fills(t, ball) => FilledFair(g, t, ball);
    case Strings(p, ball) => StrungFair(g, p, ball);
    case Sweeps(onTick) => SweptFair(g, onTick);
    case _ => OthersFair(g, e);
  }

  ghost predicate AlwaysFair(g: Game, es: seq<Event>)
    requires Legal(g, es)
    decreases |es|
  {
    Fair(g) && (es != [] ==> AlwaysFair(After(g, es[0]), es[1..]))
  }

  ghost predicate NeverStrands(g: Game, es: seq<Event>)
    requires Legal(g, es)
    decreases |es|
  {
    es != [] ==> !Strands(g, es[0]) && NeverStrands(After(g, es[0]), es[1..])
  }

  /** Strings are fair in every state of a run exactly when no sweep strands one. */
  lemma {:induction false} RunFair(g: Game, es: seq<Event>)
    requires Sound(g.s, null) && Fair(g) && Legal(g, es) && AllEmptyHanded(g, es)
    ensures AlwaysFair(g, es) <==> NeverStrands(g, es)
    decreases |es|
  {
    hide Sound, Fair, Possible, After, EmptyHanded, Strands;
    if es != [] {
      AfterSound(g, es[0]);
      AfterFair(g, es[0]);
      if Fair(After(g, es[0])) {
        RunFair(After(g, es[0]), es[1..]);
      } else {
        NotFair(After(g, es[0]), es[1..]);
      }
    }
  }

  lemma NotFair(g: Game, es: seq<Event>)
    requires Legal(g, es) && !Fair(g)
    ensures !AlwaysFair(g, es)
  {
  }

  ghost predicate OnlyAllowed(g: Game, es: seq<Event>)
    requires Legal(g, es)
    decreases |es|
  {
    es != [] ==>
      && (es[0].Catches? ==> es[0].p in g.team && Allowed(g.s, es[0].ball, g.team[es[0].p]))
      && OnlyAllowed(After(g, es[0]), es[1..])
  }

  /** Then nobody ever takes a ball of the own team out of its box. */
  lemma {:induction false} FairCatches(g: Game, es: seq<Event>)
    requires Legal(g, es) && AlwaysFair(g, es)
    ensures OnlyAllowed(g, es)
    decreases |es|
  {
    if es != [] {
      hide After, Allowed;
      FairCatches(After(g, es[0]), es[1..]);
    }
  }

  /** And a player whose string a sweep has stranded can do just that. */
  lemma StrandedTakes(g: Game, p: Player, onTick: bool)
    requires Sound(g.s, null) && Fair(g) && p in g.s.players && Stranded(g.s, p, g.team[p])
    requires g.s.players[p].usesConnector
    ensures var ball, h := g.s.players[p].ballTmp, After(g, Sweeps(onTick));
            ball != null && Possible(h, Catches(p, ball)) && !Allowed(h.s, ball, g.team[p])
  {
    hide Owned, Counted, Holding, ShotsOf, HeldBy;
    var ball := g.s.players[p].ballTmp;
    assert LiveBall(g.s.objs, ball);
    SweptBall(g.s, ball, onTick);
    SweptString(g.s, p, g.team[p], onTick);
  }

  // ---- the same, by the operations of the pool

  function Near(o: GameObject): real { 0.0 }

  function Far(o: GameObject): real { 9.0 }

  const REACH: int := 5

  /** What the search looks for is what the event asks for. */
  lemma CatchableIs(pool: Pool, ball: GameObject, team: int)
    requires pool.Valid() && ball in pool.live
    ensures pool.Catchable(ball, team) <==> Loose(pool.Now(), ball) && Allowed(pool.Now(), ball, team)
  {
    hide Pool.Slots, Pool.FreeBlank, Pool.Now, Sound;
    pool.BeforeNow(pool.Now());
    if ball.kind == Ball {
      pool.BallIs(ball);
    }
  }

  lemma OnlyNearest(pool: Pool, best: GameObject?, ball: GameObject, team: int)
    requires pool.live == {ball} && pool.Catchable(ball, team) && pool.Nearest(best, team, Near, REACH)
    ensures best == ball
  {
  }

  /** A player presses the key near the only ball, and a string leads there. */
  method Hook(pool: Pool, p: Player, team: int, ball: GameObject)
    requires pool.Valid() && p in pool.players && p.ballTmp == null && pool.live == {ball}
    requires Loose(pool.Now(), ball) && Allowed(pool.Now(), ball, team)
    modifies p`ballTmp, p`hasBall, p`usesConnector
    modifies pool.live`attached, pool.live`owner, pool.live`life, pool.treasures`have
    ensures pool.Valid() && p in old(pool.Now()).players
    ensures pool.Now() == SetCrew(old(pool.Now()), p, old(p.Now()).(usesConnector := true, ballTmp := ball))
  {
    hide Pool.Valid, Pool.Now, Pool.PlayersNow, Pool.ObjsNow, Pool.HaveNow, Pool.Nearest, Pool.Catchable, Caught, Loose,
         Allowed, Near, Far;
    ghost var before := pool.Now();
    pool.Seen();
    pool.PlayerSeen(before, p);
    pool.Connects(p);
    pool.Seen();
    pool.PlayerSeen(pool.Now(), p);
    LooseStays(before, pool.Now(), ball, team);
    Press(pool, p, team, ball);
  }

  lemma LooseStays(s: State, u: State, ball: GameObject, team: int)
    requires u.objs == s.objs && u.have == s.have && Loose(s, ball) && Allowed(s, ball, team)
    ensures Loose(u, ball) && Allowed(u, ball, team)
  {
  }

  method Press(pool: Pool, p: Player, team: int, ball: GameObject)
    requires pool.Valid() && p in pool.players && p.ballTmp == null && p.usesConnector && pool.live == {ball}
    requires Loose(pool.Now(), ball) && Allowed(pool.Now(), ball, team)
    modifies p`ballTmp, p`hasBall, pool.live`attached, pool.live`owner, pool.live`life, pool.treasures`have
    ensures pool.Valid() && p in old(pool.Now()).players
    ensures pool.Now() == SetCrew(old(pool.Now()), p, old(p.Now()).(ballTmp := ball))
  {
    hide Pool.Valid, Pool.Now, Pool.PlayersNow, Pool.ObjsNow, Pool.HaveNow, Pool.Nearest, Pool.Catchable, Caught, Loose,
         Allowed, Near, Far;
    ghost var before := pool.Now();
    pool.Seen();
    var caught := pool.AttachBall(p, team, Near, REACH);
    LooseStays(before, pool.Now(), ball, team);
    CatchableIs(pool, ball, team);
    OnlyNearest(pool, p.ballTmp, ball, team);
  }

  /** The string gets long enough. */
  method Pull(pool: Pool, p: Player, team: int, ball: GameObject)
    requires pool.Valid() && p in pool.players && p.usesConnector && p.ballTmp == ball && !ball.attached
    modifies p`ballTmp, p`hasBall, pool.live`attached, pool.live`owner, pool.live`life, pool.treasures`have
    ensures pool.Valid() && p in old(pool.Now()).players
    ensures ball in old(pool.Now()).objs && old(pool.Now()).objs[ball].treasure != null
    ensures pool.Now() == Caught(old(pool.Now()), p, ball)
  {
    hide Pool.Valid, Pool.Now, Pool.PlayersNow, Pool.ObjsNow, Pool.HaveNow, Pool.Nearest, Caught;
    pool.Seen();
    var caught := pool.AttachBall(p, team, Far, REACH);
  }

  /** A game of one ball, its treasure and two players. */
  datatype Scene = Scene(t: Treasure, full: bool, ball: GameObject, v: View, p: Player, cp: Crew, q: Player, cq: Crew)

  ghost function Shown(c: Scene): State {
    State(map[c.ball := c.v], map[c.p := c.cp][c.q := c.cq], map[c.t := c.full], map[c.t := c.ball])
  }

  /** The pool is in that state. */
  ghost predicate Shows(pool: Pool, c: Scene)
    reads pool, pool.Obj, pool.all, pool.live, pool.players, pool.treasures
  {
    pool.Valid() && pool.Now() == Shown(c) && c.p != c.q && c.v.kind == Ball && c.v.treasure == c.t
  }

  lemma ShowsFields(pool: Pool, c: Scene)
    requires Shows(pool, c)
    ensures pool.Valid() && pool.live == {c.ball} && pool.treasures == {c.t} && pool.ballOf == map[c.t := c.ball]
    ensures c.p in pool.players && c.q in pool.players
    ensures forall i :: 0 <= i < |pool.players| ==> pool.players[i] in {c.p, c.q}
    ensures c.p.Now() == c.cp && c.q.Now() == c.cq && c.ball.Now() == c.v && c.t.have == c.full
    ensures Loose(pool.Now(), c.ball) <==> c.v.life > 0 && !c.v.attached
    ensures forall team: int :: Allowed(pool.Now(), c.ball, team) <==> !(c.t.team == team && c.full)
  {
    hide Pool.Valid, Pool.Now, Pool.PlayersNow, Pool.ObjsNow, Pool.HaveNow;
    pool.Keys();
    pool.BeforeNow(pool.Now());
    assert c.p in pool.Now().players && c.q in pool.Now().players;
    assert forall i :: 0 <= i < |pool.players| ==> pool.players[i] in pool.Now().players.Keys;
  }

  lemma CrewShown(c: Scene, cp: Crew, cq: Crew)
    requires c.p != c.q
    ensures SetCrew(Shown(c), c.p, cp) == Shown(c.(cp := cp)) && SetCrew(Shown(c), c.q, cq) == Shown(c.(cq := cq))
  {
  }

  lemma CaughtShown(c: Scene)
    requires c.p != c.q && c.v.treasure == c.t
    ensures Caught(Shown(c), c.p, c.ball)
            == Shown(c.(full := false,
                        v := c.v.(attached := true, owner := c.p, life := if c.full then MAX_OBJECT_LIFE else c.v.life),
                        cp := c.cp.(hasBall := true, ballTmp := null)))
  {
  }

  lemma DroppedShown(c: Scene)
    requires c.p != c.q && c.v.attached && c.v.owner == c.p
    ensures Detached(Shown(c), c.p, null)
            == Shown(c.(v := c.v.(attached := false),
                        cp := c.cp.(hasBall := false, ballTmp := null, usesConnector := false)))
  {
    var u := Detached(Shown(c), c.p, null);
    assert HeldBy(u.objs, c.p) == {};
  }

  function Other(c: Scene): Scene {
    Scene(c.t, c.full, c.ball, c.v, c.q, c.cq, c.p, c.cp)
  }

  lemma OtherShown(c: Scene)
    requires c.p != c.q
    ensures Shown(Other(c)) == Shown(c)
  {
  }

  method HookScene(pool: Pool, team: int, p: Player, ball: GameObject, ghost c: Scene) returns (ghost d: Scene)
    requires Shows(pool, c) && p == c.p && ball == c.ball && c.cp.ballTmp == null
    requires c.v.life > 0 && !c.v.attached && !(c.t.team == team && c.full)
    modifies p, ball, c.t
    ensures d == c.(cp := c.cp.(usesConnector := true, ballTmp := ball)) && Shows(pool, d)
  {
    hide Pool.Valid, Pool.Now, Shown, Loose, Allowed;
    ShowsFields(pool, c);
    d := c.(cp := c.cp.(usesConnector := true, ballTmp := ball));
    Hook(pool, p, team, ball);
    CrewShown(c, d.cp, c.cq);
  }

  method PullScene(pool: Pool, team: int, p: Player, ball: GameObject, ghost c: Scene) returns (ghost d: Scene)
    requires Shows(pool, c) && p == c.p && ball == c.ball && c.cp.ballTmp == ball && c.cp.usesConnector
    requires !c.v.attached
    modifies p, ball, c.t
    ensures d == c.(full := false,
                    v := c.v.(attached := true, owner := p, life := if c.full then MAX_OBJECT_LIFE else c.v.life),
                    cp := c.cp.(hasBall := true, ballTmp := null))
    ensures Shows(pool, d)
  {
    hide Pool.Valid, Pool.Now, Shown, Loose, Allowed, Caught;
    ShowsFields(pool, c);
    d := c.(full := false,
            v := c.v.(attached := true, owner := p, life := if c.full then MAX_OBJECT_LIFE else c.v.life),
            cp := c.cp.(hasBall := true, ballTmp := null));
    Pull(pool, p, team, ball);
    CaughtShown(c);
  }

  method DropScene(pool: Pool, p: Player, ghost c: Scene) returns (ghost d: Scene)
    requires Shows(pool, c) && p == c.p && c.v.attached && c.v.owner == p
    modifies p, c.ball
    ensures d == c.(v := c.v.(attached := false),
                    cp := c.cp.(hasBall := false, ballTmp := null, usesConnector := false))
    ensures Shows(pool, d)
  {
    hide Pool.Valid, Pool.Now, Shown, Loose, Allowed, Detached;
    ShowsFields(pool, c);
    d := c.(v := c.v.(attached := false), cp := c.cp.(hasBall := false, ballTmp := null, usesConnector := false));
    pool.DropBalls(p);
    DroppedShown(c);
  }

  lemma OtherShows(pool: Pool, c: Scene)
    requires Shows(pool, c)
    ensures Shows(pool, Other(c))
  {
    hide Shown, Pool.Valid, Pool.Now;
    OtherShown(c);
  }

  /** A pool with one treasure, whose ball lies in its box. */
  method Boxed(team: int) returns (pool: Pool, t: Treasure, ball: GameObject)
    ensures pool.Valid() && fresh(pool) && fresh(pool.all) && fresh(pool.Obj) && fresh(t) && fresh(ball)
    ensures t.team == team
    ensures pool.players == [] && pool.Now() == State(map[ball := FreshBall(t)], map[], map[t := true], map[t := ball])
  {
    hide Pool.Valid, Pool.Now, Pool.PlayersNow, Pool.ObjsNow, Pool.HaveNow, Pool.Slots, Sound, Pool.FreeBlank;
    pool := new Pool(1);
    pool.Seen();
    t := new Treasure(team);
    pool.TreasureJoins(t);
    pool.Keys();
    pool.Whole();
    ball := pool.BallTreasureAdd(t, null);
  }

  const NEWCOMER := Crew(0, 0, false, false, null)

  method Opening(team: int) returns (pool: Pool, p: Player, q: Player, ball: GameObject, ghost c: Scene)
    ensures Shows(pool, c) && c.t.team == team && c.p == p && c.q == q && c.ball == ball
    ensures c.full && c.v == FreshBall(c.t) && c.cp == c.cq == NEWCOMER
    ensures fresh(pool) && fresh(pool.all) && fresh(pool.Obj) && fresh(p) && fresh(q) && fresh(ball) && fresh(c.t)
  {
    hide Pool.Valid, Pool.Now, Pool.PlayersNow, Pool.ObjsNow, Pool.HaveNow;
    var t;
    pool, t, ball := Boxed(team);
    p := new Player();
    pool.Seen();
    pool.PlayerJoins(p);
    q := new Player();
    pool.Seen();
    pool.PlayerJoins(q);
    c := Scene(t, true, ball, FreshBall(t), p, NEWCOMER, q, NEWCOMER);
  }

  /** A player of another team takes the ball out of its box and drops it; he and one of the ball's own
      team connect to it, and he is the first to pull. */
  method Strand(team: int) returns (pool: Pool, p: Player, q: Player, ball: GameObject, ghost c: Scene)
    ensures Shows(pool, c) && c.t.team == team && c.p == p && c.q == q && c.ball == ball && !c.full
    ensures c.v.attached && c.v.owner == p && c.cp.ballTmp == null && c.cq.ballTmp == ball && c.cq.usesConnector
    ensures fresh(pool) && fresh(pool.all) && fresh(pool.Obj) && fresh(p) && fresh(q) && fresh(ball) && fresh(c.t)
  {
    hide Shows;
    pool, p, q, ball, c := Opening(team);
    c := HookScene(pool, team + 1, p, ball, c);
    c := PullScene(pool, team + 1, p, ball, c);
    c := DropScene(pool, p, c);
    c := HookScene(pool, team + 1, p, ball, c);
    OtherShows(pool, c);
    c := HookScene(pool, team, q, ball, Other(c));
    OtherShows(pool, c);
    c := PullScene(pool, team + 1, p, ball, Other(c));
  }

  /** Object_remove then leaves a string to a ball that is gone. */
  method StrandedString() returns (pool: Pool, ball: GameObject)
    ensures Sound(pool.Now(), ball) && !Connecting(pool.Now().objs, pool.Now().players, null)
  {
    hide Shown, Pool.Valid, Pool.Now, Pool.Slots, Pool.FreeBlank, Owned, OneBallEach, Counted, Holding, Connecting,
         Removed;
    var p, q;
    ghost var c;
    pool, p, q, ball, c := Strand(1);
    ShowsFields(pool, c);
    pool.Whole();
    ghost var s := pool.Now();
    pool.BeforeNow(s);
    assert s.objs[ball] == c.v && s.players[q] == c.cq && q in s.players;
    RemovedForgotten(s, ball);
    assert forall i :: 0 <= i < |pool.players| ==> pool.players[i] in {p, q};
    pool.Remove(ball);
  }

  lemma EndedShown(c: Scene)
    ensures Shown(c).(objs := Ended(Shown(c).objs)) == Shown(c.(v := c.v.(life := 0)))
  {
  }

  /** The ball comes back, and the string that leads to it stays. */
  lemma SweptShown(c: Scene)
    requires c.p != c.q && c.v.kind == Ball && c.v.treasure == c.t && c.v.life <= 0
    requires c.v.attached && c.v.owner == c.p && c.cp.ballTmp == null && c.cq.ballTmp == c.ball
    ensures Swept(Shown(c), Shown(c).objs.Keys, true)
            == Shown(c.(full := true, v := FreshBall(c.t),
                        cp := c.cp.(shots := 0, hasBall := false), cq := c.cq.(shots := 0, hasBall := false)))
  {
    hide SweptObjs, SweptHave;
    SweptBallShown(c);
    var s := Shown(c);
    var u := Swept(s, s.objs.Keys, true);
    assert ShotsOf(u.objs, c.p) == {} && ShotsOf(u.objs, c.q) == {};
    assert HeldBy(u.objs, c.p) == {} && HeldBy(u.objs, c.q) == {};
    assert Reset(s, c.ball, s.objs.Keys, true);
  }

  lemma SweptBallShown(c: Scene)
    requires c.p != c.q && c.v.kind == Ball && c.v.treasure == c.t && c.v.life <= 0
    ensures SweptObjs(Shown(c), Shown(c).objs.Keys, true) == map[c.ball := FreshBall(c.t)]
    ensures SweptHave(Shown(c), Shown(c).objs.Keys, true) == map[c.t := true]
  {
  }

  /** And so a player takes the ball of its own team out of its box. */
  method TakesOwn(team: int) returns (pool: Pool, q: Player, ball: GameObject)
    ensures pool.Valid() && ball in pool.Now().objs
    ensures var v := pool.Now().objs[ball];
            v.kind == Ball && v.attached && v.owner == q && v.treasure != null && v.treasure.team == team
  {
    hide Shown, Pool.Valid, Pool.Now, Pool.Slots, Pool.FreeBlank, Ended, Swept;
    var p;
    ghost var c;
    pool, p, q, ball, c := Strand(team);
    ShowsFields(pool, c);
    pool.Seen();
    pool.TimeOut();
    EndedShown(c);
    c := c.(v := c.v.(life := 0));
    ShowsFields(pool, c);
    pool.Keys();
    SweptShown(c);
    assert forall i :: 0 <= i < |pool.players| ==> pool.players[i] in {p, q};
    pool.RemoveTimedOut(true);
    c := c.(full := true, v := FreshBall(c.t),
            cp := c.cp.(shots := 0, hasBall := false), cq := c.cq.(shots := 0, hasBall := false));
    OtherShows(pool, c);
    c := PullScene(pool, team, q, ball, Other(c));
    ShowsFields(pool, c);
    pool.BeforeNow(pool.Now());
  }
}
