/** The table of players of src/server/player.cpp, with their ids, teams and home bases, and the choice of a free
    base in src/server/team.cpp. Play is in teams: every player listed is on one. */
module PlayerTable {
  import opened Sequences
  import IdAllocator

  datatype Count = Count(members: int, robots: int)

  class Team {
    var numMembers: int
    var numRobots: int

    constructor ()
      ensures Now() == Count(0, 0)
    {
      numMembers, numRobots := 0, 0;
    }

    ghost function Now(): Count
      reads this`numMembers, this`numRobots
    {
      Count(numMembers, numRobots)
    }
  }

  class Base {
    const id: nat
    const team: Team

    constructor (id: nat, team: Team)
      ensures this.id == id && this.team == team
    {
      this.id, this.team := id, team;
    }
  }

  /** How it ends for somebody who wants to join. */
  datatype Joining = Seated | TurnedAway | Broken

  datatype Info = Info(id: int, robot: bool, team: Team?, home: Base?)

  class Player {
    var id: int
    var robot: bool
    var team: Team?
    var homeBase: Base?

    constructor ()
      ensures Now() == Info(0, false, null, null)
    {
      id, robot, team, homeBase := 0, false, null, null;
    }

    ghost function Now(): Info
      reads this`id, this`robot, this`team, this`homeBase
    {
      Info(id, robot, team, homeBase)
    }
  }

  // ---- who is listed, and what the counters say

  type Listed = map<Player, Info>

  datatype State = State(players: Listed, teams: map<Team, Count>, robots: int)

  ghost function Members(ps: Listed, t: Team?): set<Player> {
    set p | p in ps && ps[p].team == t
  }

  ghost function RobotsOn(ps: Listed, t: Team?): set<Player> {
    set p | p in ps && ps[p].team == t && ps[p].robot
  }

  ghost function AllRobots(ps: Listed): set<Player> {
    set p | p in ps && ps[p].robot
  }

  ghost function IdsOf(ps: Listed): set<int> {
    set p | p in ps :: ps[p].id
  }

  /** No two players share a home base or an id. */
  ghost predicate Apart(ps: Listed) {
    forall p <- ps, q <- ps :: p != q ==> ps[p].id != ps[q].id && (ps[p].home != null ==> ps[p].home != ps[q].home)
  }

  /** Every player is on a team, and its home base is one of that team. */
  ghost predicate AtHome(ps: Listed, teams: set<Team>, bases: set<Base>) {
    forall p <- ps ::
      && ps[p].team != null && ps[p].team in teams
      && (ps[p].home != null ==> ps[p].home in bases && ps[p].home.team == ps[p].team)
  }

  ghost predicate Counted(ps: Listed, teams: map<Team, Count>) {
    forall t <- teams :: teams[t].members == |Members(ps, t)|
  }

  /** Only pausers are without a base, and whoever is just about to get one. */
  ghost predicate Housed(ps: Listed, pause: Team, but: Player?) {
    forall p <- ps :: p == but || ps[p].home != null || ps[p].team == pause
  }

  ghost predicate Sound(s: State, bases: set<Base>, pause: Team, but: Player?) {
    && Apart(s.players) && AtHome(s.players, s.teams.Keys, bases) && Counted(s.players, s.teams)
    && s.robots == |AllRobots(s.players)| && Housed(s.players, pause, but)
  }

  /** How far the count of robots of a team is from their number. */
  ghost function Drift(s: State, t: Team): int
    requires t in s.teams
  {
    s.teams[t].robots - |RobotsOn(s.players, t)|
  }

  // ---- bases

  ghost predicate Unowned(ps: Listed, b: Base) {
    forall p <- ps :: ps[p].home != b
  }

  ghost function BasesOf(bases: set<Base>, t: Team): set<Base> {
    set b | b in bases && b.team == t
  }

  lemma {:induction false} ImageIsSmaller(ps: Listed, who: set<Player>, homes: set<Base>)
    requires who <= ps.Keys && forall b <- homes :: exists p <- who :: ps[p].home == b
    ensures |homes| <= |who|
    decreases |who|
  {
    if homes != {} {
      var b :| b in homes;
      var p :| p in who && ps[p].home == b;
      forall c | c in homes - {b}
        ensures exists q <- who - {p} :: ps[q].home == c
      {
        var q :| q in who && ps[q].home == c;
        assert q in who - {p};
      }
      ImageIsSmaller(ps, who - {p}, homes - {b});
    }
  }

  /** A team with fewer members than bases has a free base, so those who ask for one after comparing the two counts
      never fail. */
  lemma RoomMeansBase(s: State, bases: set<Base>, pause: Team, but: Player?, t: Team)
    requires Sound(s, bases, pause, but) && t in s.teams && s.teams[t].members < |BasesOf(bases, t)|
    ensures exists b <- BasesOf(bases, t) :: Unowned(s.players, b)
  {
    if forall b <- BasesOf(bases, t) :: !Unowned(s.players, b) {
      forall b | b in BasesOf(bases, t)
        ensures exists p <- Members(s.players, t) :: s.players[p].home == b
      {
        assert !Unowned(s.players, b);
        var p :| p in s.players && s.players[p].home == b;
        assert p in Members(s.players, t);
      }
      ImageIsSmaller(s.players, Members(s.players, t), BasesOf(bases, t));
    }
  }

  // ---- the steps, on states

  function OneMore(c: Count, robot: bool): Count {
    Count(c.members + 1, c.robots + if robot then 1 else 0)
  }

  function OneLess(c: Count, robot: bool): Count {
    Count(c.members - 1, c.robots - if robot then 1 else 0)
  }

  ghost function Joined(s: State, p: Player, i: Info): State
    requires i.team in s.teams
  {
    State(s.players[p := i], s.teams[i.team := OneMore(s.teams[i.team], i.robot)], s.robots + if i.robot then 1 else 0)
  }

  lemma JoinedIds(ps: Listed, p: Player, i: Info)
    requires p !in ps
    ensures IdsOf(ps[p := i]) == IdsOf(ps) + {i.id}
  {
    assert forall q <- ps :: ps[q].id == ps[p := i][q].id;
    forall id | id in IdsOf(ps) + {i.id}
      ensures id in IdsOf(ps[p := i])
    {
      if id == i.id {
        assert p in ps[p := i];
      } else {
        var q :| q in ps && ps[q].id == id;
        assert q in ps[p := i];
      }
    }
  }

  lemma GoneIds(ps: Listed, p: Player)
    requires Apart(ps) && p in ps
    ensures IdsOf(ps - {p}) == IdsOf(ps) - {ps[p].id}
  {
    forall id | id in IdsOf(ps) - {ps[p].id}
      ensures id in IdsOf(ps - {p})
    {
      var q :| q in ps && ps[q].id == id;
      assert q in ps - {p};
    }
  }

  lemma UnownedStays(ps: Listed, p: Player, i: Info)
    requires p !in ps && i.home == null
    ensures forall b: Base :: Unowned(ps[p := i], b) <==> Unowned(ps, b)
  {
    assert forall q <- ps :: q in ps[p := i] && ps[p := i][q] == ps[q];
  }

  lemma JoinedIs(s: State, p: Player, i: Info)
    requires i.team in s.teams
    ensures Joined(s, p, i).players == s.players[p := i]
  {
  }

  lemma JoinedGone(s: State, p: Player, i: Info)
    requires p !in s.players && i.team in s.teams
    ensures Gone(Joined(s, p, i), p) == s
  {
    var u := Gone(Joined(s, p, i), p);
    assert u.players == s.players && u.teams == s.teams;
  }

  /** The player may be given its base after it is listed. */
  lemma HousedSound(s: State, bases: set<Base>, pause: Team, p: Player, i: Info, home: Base)
    requires Sound(s, bases, pause, null) && p !in s.players
    requires i.team in s.teams && i.id !in IdsOf(s.players) && i.home == null
    requires home in bases && home.team == i.team && Unowned(s.players, home)
    ensures var u, w := Joined(s, p, i), Joined(s, p, i.(home := home));
            && u.players[p] == i && u.(players := u.players[p := i.(home := home)]) == w
            && Sound(w, bases, pause, null) && IdsOf(w.players) == IdsOf(u.players)
  {
    assert s.players[p := i][p := i.(home := home)] == s.players[p := i.(home := home)];
    hide Sound, IdsOf, Unowned;
    JoinedSound(s, bases, pause, p, i.(home := home));
    JoinedIds(s.players, p, i);
    JoinedIds(s.players, p, i.(home := home));
  }

  lemma SameIds(ps: Listed, us: Listed)
    requires ps.Keys == us.Keys && forall p <- ps :: us[p].id == ps[p].id
    ensures IdsOf(us) == IdsOf(ps)
  {
    assert forall p :: p in ps <==> p in us;
  }

  lemma MovedIds(s: State, p: Player, team: Team, home: Base?)
    requires p in s.players && s.players[p].team in s.teams && team in s.teams
    ensures IdsOf(Moved(s, p, team, home).players) == IdsOf(s.players)
  {
    SameIds(s.players, Moved(s, p, team, home).players);
  }

  lemma ExchangedIds(s: State, p: Player, q: Player)
    requires p in s.players && q in s.players
    ensures IdsOf(Exchanged(s, p, q).players) == IdsOf(s.players)
  {
    SameIds(s.players, Exchanged(s, p, q).players);
  }

  lemma RehomedIds(s: State, p: Player, owner: Player?, base: Base)
    requires p in s.players && (owner != null ==> owner in s.players)
    ensures IdsOf(Rehomed(s, p, owner, base).players) == IdsOf(s.players)
  {
    SameIds(s.players, Rehomed(s, p, owner, base).players);
  }

  lemma JoinedApart(ps: Listed, teams: set<Team>, bases: set<Base>, p: Player, i: Info)
    requires Apart(ps) && AtHome(ps, teams, bases) && p !in ps && i.team in teams && i.id !in IdsOf(ps)
    requires i.home != null ==> i.home in bases && i.home.team == i.team && Unowned(ps, i.home)
    ensures Apart(ps[p := i]) && AtHome(ps[p := i], teams, bases)
  {
    assert forall q <- ps :: ps[q].id in IdsOf(ps);
  }

  lemma JoinedMembers(s: State, p: Player, i: Info, t: Team)
    requires Counted(s.players, s.teams) && p !in s.players && i.team in s.teams && t in s.teams
    ensures Joined(s, p, i).teams[t].members == |Members(Joined(s, p, i).players, t)|
  {
    var u := Joined(s, p, i);
    if t == i.team {
      assert Members(u.players, t) == Members(s.players, t) + {p};
    } else {
      assert Members(u.players, t) == Members(s.players, t);
    }
  }

  lemma JoinedSound(s: State, bases: set<Base>, pause: Team, p: Player, i: Info)
    requires Sound(s, bases, pause, null) && p !in s.players && i.team in s.teams && i.id !in IdsOf(s.players)
    requires i.home != null ==> i.home in bases && i.home.team == i.team && Unowned(s.players, i.home)
    ensures Sound(Joined(s, p, i), bases, pause, p)
    ensures i.home != null || i.team == pause ==> Sound(Joined(s, p, i), bases, pause, null)
  {
    hide Apart, AtHome, Members, Unowned, IdsOf;
    var u := Joined(s, p, i);
    assert u.teams.Keys == s.teams.Keys;
    assert AllRobots(u.players) == if i.robot then AllRobots(s.players) + {p} else AllRobots(s.players);
    JoinedApart(s.players, s.teams.Keys, bases, p, i);
    forall t <- u.teams
      ensures u.teams[t].members == |Members(u.players, t)|
    {
      JoinedMembers(s, p, i, t);
    }
  }

  lemma JoinedDrift(s: State, p: Player, i: Info, t: Team)
    requires p !in s.players && i.team in s.teams && t in s.teams
    ensures Drift(Joined(s, p, i), t) == Drift(s, t)
  {
    var u := Joined(s, p, i);
    assert RobotsOn(u.players, t)
           == if t == i.team && i.robot then RobotsOn(s.players, t) + {p} else RobotsOn(s.players, t);
  }

  ghost function Gone(s: State, p: Player): State
    requires p in s.players && s.players[p].team in s.teams
  {
    var i := s.players[p];
    State(s.players - {p}, s.teams[i.team := OneLess(s.teams[i.team], i.robot)], s.robots - if i.robot then 1 else 0)
  }

  lemma GoneSound(s: State, bases: set<Base>, pause: Team, but: Player?, p: Player)
    requires Sound(s, bases, pause, but) && p in s.players && (but == null || but == p)
    ensures Sound(Gone(s, p), bases, pause, null)
  {
    var i, u := s.players[p], Gone(s, p);
    assert u.teams.Keys == s.teams.Keys;
    assert AllRobots(u.players) == AllRobots(s.players) - {p};
    assert i.robot ==> p in AllRobots(s.players);
    GoneCounted(s, p);
  }

  lemma GoneCounted(s: State, p: Player)
    requires Counted(s.players, s.teams) && p in s.players && s.players[p].team in s.teams
    ensures Counted(Gone(s, p).players, Gone(s, p).teams)
  {
    var u := Gone(s, p);
    forall t <- u.teams
      ensures u.teams[t].members == |Members(u.players, t)|
    {
      assert Members(u.players, t) == Members(s.players, t) - {p};
      assert t == s.players[p].team ==> p in Members(s.players, t);
    }
  }

  lemma GoneDrift(s: State, p: Player, t: Team)
    requires p in s.players && s.players[p].team in s.teams && t in s.teams
    ensures Drift(Gone(s, p), t) == Drift(s, t)
  {
    assert RobotsOn(Gone(s, p).players, t) == RobotsOn(s.players, t) - {p};
    assert t == s.players[p].team && s.players[p].robot ==> p in RobotsOn(s.players, t);
  }

  /** Player_swap_team, when it succeeds. */
  ghost function Moved(s: State, p: Player, team: Team, home: Base?): State
    requires p in s.players && s.players[p].team in s.teams && team in s.teams
  {
    Joined(Gone(s, p), p, s.players[p].(team := team, home := home))
  }

  lemma MovedSound(s: State, bases: set<Base>, pause: Team, p: Player, team: Team, home: Base?)
    requires Sound(s, bases, pause, null) && p in s.players && team in s.teams
    requires if home == null then team == pause else home in bases && home.team == team && Unowned(s.players, home)
    ensures Sound(Moved(s, p, team, home), bases, pause, null)
  {
    var u := Gone(s, p);
    GoneSound(s, bases, pause, null, p);
    assert s.players[p].id !in IdsOf(u.players);
    assert home != null ==> Unowned(u.players, home);
    JoinedSound(u, bases, pause, p, s.players[p].(team := team, home := home));
  }

  lemma MovedDrift(s: State, p: Player, team: Team, home: Base?, t: Team)
    requires p in s.players && s.players[p].team in s.teams && team in s.teams && t in s.teams
    ensures t in Moved(s, p, team, home).teams && Drift(Moved(s, p, team, home), t) == Drift(s, t)
  {
    GoneDrift(s, p, t);
    JoinedDrift(Gone(s, p), p, s.players[p].(team := team, home := home), t);
  }

  /** Players_swap_teams: teams and bases change hands, the counters stay. */
  ghost function Exchanged(s: State, p: Player, q: Player): State
    requires p in s.players && q in s.players
  {
    s.(players := Traded(s.players, p, q))
  }

  ghost function Traded(ps: Listed, p: Player, q: Player): Listed
    requires p in ps && q in ps
  {
    var i, j := ps[p], ps[q];
    ps[q := j.(team := i.team, home := i.home)][p := i.(team := j.team, home := j.home)]
  }

  lemma ExchangedSound(s: State, bases: set<Base>, pause: Team, p: Player, q: Player)
    requires Sound(s, bases, pause, null) && p in s.players && q in s.players
    ensures Sound(Exchanged(s, p, q), bases, pause, null)
  {
    hide Members, Apart, AtHome, Housed;
    var u := Exchanged(s, p, q);
    assert AllRobots(u.players) == AllRobots(s.players);
    ExchangedCounted(s, p, q);
    TradedApart(s.players, p, q);
    TradedHoused(s.players, s.teams.Keys, bases, pause, p, q);
  }

  lemma TradedApart(ps: Listed, p: Player, q: Player)
    requires Apart(ps) && p in ps && q in ps
    ensures Apart(Traded(ps, p, q))
  {
  }

  lemma TradedHoused(ps: Listed, teams: set<Team>, bases: set<Base>, pause: Team, p: Player, q: Player)
    requires AtHome(ps, teams, bases) && Housed(ps, pause, null) && p in ps && q in ps
    ensures AtHome(Traded(ps, p, q), teams, bases) && Housed(Traded(ps, p, q), pause, null)
  {
  }

  lemma ExchangedMembers(ps: Listed, p: Player, q: Player, t: Team)
    requires p in ps && q in ps
    ensures |Members(Traded(ps, p, q), t)| == |Members(ps, t)|
  {
    var us := Traded(ps, p, q);
    if ps[p].team == t != ps[q].team {
      Handed(Members(ps, t), Members(us, t), p, q, true, true);
    } else if ps[q].team == t != ps[p].team {
      Handed(Members(ps, t), Members(us, t), q, p, true, true);
    } else {
      assert Members(us, t) == Members(ps, t);
    }
  }

  lemma ExchangedCounted(s: State, p: Player, q: Player)
    requires Counted(s.players, s.teams) && p in s.players && q in s.players
    ensures Counted(Exchanged(s, p, q).players, s.teams)
  {
    hide Members;
    forall t <- s.teams
      ensures |Members(Exchanged(s, p, q).players, t)| == |Members(s.players, t)|
    {
      ExchangedMembers(s.players, p, q, t);
    }
  }

  function Bit(b: bool): int {
    if b then 1 else 0
  }

  function Taken(i: Info, j: Info, t: Team): int {
    if i.team == t != j.team then Bit(i.robot) - Bit(j.robot) else 0
  }

  /** What an exchange does to the counts of robots, which it leaves alone. */
  lemma ExchangedDrift(s: State, p: Player, q: Player, t: Team)
    requires p in s.players && q in s.players && t in s.teams
    ensures var i, j := s.players[p], s.players[q];
            Drift(Exchanged(s, p, q), t) == Drift(s, t) + Taken(i, j, t) + Taken(j, i, t)
  {
    var u, i, j := Exchanged(s, p, q), s.players[p], s.players[q];
    var a, b := RobotsOn(s.players, t), RobotsOn(u.players, t);
    if i.team == t != j.team {
      Handed(a, b, p, q, i.robot, j.robot);
    } else if j.team == t != i.team {
      Handed(a, b, q, p, j.robot, i.robot);
    } else {
      assert a == b;
    }
  }

  lemma Handed(a: set<Player>, b: set<Player>, p: Player, q: Player, given: bool, got: bool)
    requires p != q && (p in a <==> given) && q !in a && p !in b && (q in b <==> got)
    requires forall r :: r != p && r != q ==> (r in a <==> r in b)
    ensures |b| == |a| - Bit(given) + Bit(got)
  {
    var rest := a - {p};
    assert a == if given then rest + {p} else rest;
    assert b == if got then rest + {q} else rest;
  }

  /** The counts stay exact just when both are robots, or neither is, or they are on the same team. */
  lemma ExchangeKeepsRobots(s: State, p: Player, q: Player)
    requires p in s.players && q in s.players && (forall t <- s.teams :: Drift(s, t) == 0)
    requires s.players[p].team in s.teams && s.players[q].team in s.teams
    ensures (forall t <- s.teams :: Drift(Exchanged(s, p, q), t) == 0) <==>
              (s.players[p].robot == s.players[q].robot || s.players[p].team == s.players[q].team)
  {
    hide Drift;
    var i, j := s.players[p], s.players[q];
    forall t <- s.teams
      ensures Drift(Exchanged(s, p, q), t) == Taken(i, j, t) + Taken(j, i, t)
    {
      ExchangedDrift(s, p, q, t);
    }
    var t := i.team;
    assert t in s.teams && Drift(Exchanged(s, p, q), t) == Taken(i, j, t) + Taken(j, i, t);
  }

  /** A robot and a human of two teams change places: each team now has a wrong count of robots. */
  lemma ExchangeMiscounts(p: Player, q: Player, pause: Team, c: Base, d: Base)
    requires p != q && c.team != d.team
    ensures var a, b := c.team, d.team;
            var s := State(map[p := Info(1, true, a, c), q := Info(2, false, b, d)],
                           map[a := Count(1, 1), b := Count(1, 0)], 1);
            && Sound(s, {c, d}, pause, null) && Drift(s, a) == Drift(s, b) == 0
            && Drift(Exchanged(s, p, q), a) == 1 && Drift(Exchanged(s, p, q), b) == -1
  {
    var a, b := c.team, d.team;
    var s := State(map[p := Info(1, true, a, c), q := Info(2, false, b, d)],
                   map[a := Count(1, 1), b := Count(1, 0)], 1);
    assert Members(s.players, a) == {p} && Members(s.players, b) == {q} && AllRobots(s.players) == {p};
    assert RobotsOn(s.players, a) == {p} && RobotsOn(s.players, b) == {};
    ExchangedDrift(s, p, q, a);
    ExchangedDrift(s, p, q, b);
  }

  /** Player_change_home: the base is taken over, if somebody else has it. */
  ghost function Rehomed(s: State, p: Player, owner: Player?, base: Base): State
    requires p in s.players && (owner != null ==> owner in s.players)
  {
    var ps := if owner == null then s.players else s.players[owner := s.players[owner].(home := s.players[p].home)];
    s.(players := ps[p := s.players[p].(home := base)])
  }

  lemma RehomedApart(s: State, bases: set<Base>, p: Player, owner: Player?, base: Base)
    requires Apart(s.players) && AtHome(s.players, s.teams.Keys, bases)
    requires p in s.players && base in bases && base.team == s.players[p].team
    requires if owner == null then Unowned(s.players, base)
             else owner in s.players && owner != p && s.players[owner].home == base
    ensures Apart(Rehomed(s, p, owner, base).players) && AtHome(Rehomed(s, p, owner, base).players, s.teams.Keys, bases)
  {
  }

  lemma RehomedHoused(s: State, bases: set<Base>, pause: Team, p: Player, owner: Player?, base: Base)
    requires AtHome(s.players, s.teams.Keys, bases) && Housed(s.players, pause, null)
    requires p in s.players && base.team == s.players[p].team
    requires owner != null ==> owner in s.players && owner != p && s.players[owner].home == base
    ensures Housed(Rehomed(s, p, owner, base).players, pause, null)
  {
    if owner != null {
      assert s.players[owner].team == base.team;
    }
  }

  lemma RehomedSound(s: State, bases: set<Base>, pause: Team, p: Player, owner: Player?, base: Base)
    requires Sound(s, bases, pause, null) && p in s.players && base in bases && base.team == s.players[p].team
    requires if owner == null then Unowned(s.players, base)
             else owner in s.players && owner != p && s.players[owner].home == base
    ensures Sound(Rehomed(s, p, owner, base), bases, pause, null)
  {
    hide Apart, AtHome, Unowned, Housed;
    var u := Rehomed(s, p, owner, base);
    RehomedApart(s, bases, p, owner, base);
    RehomedHoused(s, bases, pause, p, owner, base);
    assert AllRobots(u.players) == AllRobots(s.players);
    forall t <- s.teams
      ensures Members(u.players, t) == Members(s.players, t)
    {
    }
  }

  lemma RehomedDrift(s: State, p: Player, owner: Player?, base: Base, t: Team)
    requires p in s.players && (owner != null ==> owner in s.players) && t in s.teams
    ensures Drift(Rehomed(s, p, owner, base), t) == Drift(s, t)
  {
    assert RobotsOn(Rehomed(s, p, owner, base).players, t) == RobotsOn(s.players, t);
  }

  // ---- free bases

  ghost predicate Free(b: Base, team: Team, homes: set<Base>) {
    b.team == team && b !in homes
  }

  ghost function FreeCount(bases: seq<Base>, team: Team, homes: set<Base>, n: nat): (c: nat)
    requires n <= |bases|
  {
    if n == 0 then 0 else FreeCount(bases, team, homes, n - 1) + if Free(bases[n - 1], team, homes) then 1 else 0
  }

  ghost predicate Ids(bases: seq<Base>) {
    forall i :: 0 <= i < |bases| ==> bases[i].id == i
  }

  lemma {:induction false} FreeCountZero(bases: seq<Base>, team: Team, homes: set<Base>, n: nat)
    requires n <= |bases|
    ensures FreeCount(bases, team, homes, n) == 0 <==> forall i :: 0 <= i < n ==> !Free(bases[i], team, homes)
  {
    if n > 0 {
      FreeCountZero(bases, team, homes, n - 1);
    }
  }

  lemma {:induction false} FreeCountTaken(bases: seq<Base>, team: Team, homes: set<Base>, b: Base, n: nat)
    requires Ids(bases) && n <= |bases| && b in bases
    ensures FreeCount(bases, team, homes + {b}, n)
            == FreeCount(bases, team, homes, n) - if b.id < n && Free(b, team, homes) then 1 else 0
  {
    if n > 0 {
      FreeCountTaken(bases, team, homes, b, n - 1);
    }
  }

  method NewPlayers(number: nat) returns (objs: seq<Player>)
    ensures |objs| == number && Distinct(objs) && fresh(set p | p in objs)
  {
    objs := [];
    while |objs| < number
      invariant |objs| <= number && fresh(set p | p in objs) && Distinct(objs)
    {
      var p := new Player();
      DistinctAppend(objs, p);
      objs := objs + [p];
    }
  }

  // ---- the table

  class Table {
    const players: array<Player>
    const getInd: array<int>
    const ids: IdAllocator.Ids
    const bases: seq<Base>
    const teams: seq<Team>
    var numPlayers: nat
    var numRobots: int
    ghost const all: set<Player>
    ghost var live: set<Player>

    /** The listed players come first; the index of a player is found by its id. */
    ghost predicate Slots()
      reads this`numPlayers, this`live, players, getInd, live`id
    {
      && getInd.Length == IdAllocator.NUM_IDS + 1 && getInd != ids.queue && getInd != ids.inUse
      && numPlayers <= players.Length
      && (forall i, j :: 0 <= i < j < players.Length ==> players[i] != players[j])
      && (forall k :: 0 <= k < players.Length ==> players[k] in all)
      && (forall k :: 0 <= k < players.Length ==> (players[k] in live <==> k < numPlayers))
      && (forall p <- live ::
            && 0 < p.id <= IdAllocator.NUM_IDS
            && 0 <= getInd[p.id] < numPlayers && players[getInd[p.id]] == p)
    }

    ghost function PlayersNow(): Listed
      reads this`live, live`id, live`robot, live`team, live`homeBase
    {
      map p | p in live :: p.Now()
    }

    ghost function TeamsNow(): map<Team, Count>
      reads teams`numMembers, teams`numRobots
    {
      map t | t in teams :: t.Now()
    }

    ghost function Now(): State
      reads this`live, this`numRobots, live`id, live`robot, live`team, live`homeBase, teams`numMembers, teams`numRobots
    {
      State(PlayersNow(), TeamsNow(), numRobots)
    }

    ghost function BaseSet(): set<Base> {
      set b | b in bases
    }

    ghost predicate Fixed() {
      Ids(bases) && |teams| > 0 && forall b <- bases :: b.team in teams
    }

    /** The team of the pausers is the first. */
    ghost function Pause(): Team
      requires Fixed()
    {
      teams[0]
    }

    ghost predicate Valid()
      reads this, players, getInd, live, teams, ids, ids.queue, ids.inUse
    {
      ValidBut(null)
    }

    /** All is well, but for a player that is about to get its base. */
    ghost predicate ValidBut(but: Player?)
      reads this, players, getInd, live, teams, ids, ids.queue, ids.inUse
    {
      && Fixed() && ids.Valid() && Slots() && Sound(Now(), BaseSet(), Pause(), but)
      && IdAllocator.Used(ids.free) == IdsOf(PlayersNow())
    }

    /** Players_allocate */
    constructor (number: nat, bases: seq<Base>, teams: seq<Team>)
      requires Ids(bases) && |teams| > 0 && (forall b <- bases :: b.team in teams)
      requires forall t <- teams :: t.Now() == Count(0, 0)
      ensures Valid() && numPlayers == 0 && players.Length == number && this.bases == bases && this.teams == teams
      ensures Now() == State(map[], map t | t in teams :: Count(0, 0), 0)
      ensures fresh(players) && fresh(getInd) && fresh(ids) && fresh(ids.queue) && fresh(ids.inUse) && fresh(all)
    {
      hide IdAllocator.Ids.Valid, IdAllocator.Ids.AllInOrder, Valid, Ids;
      var objs := NewPlayers(number);
      players := new Player[number](i requires 0 <= i < |objs| => objs[i]);
      getInd := new int[IdAllocator.NUM_IDS + 1](_ => 0);
      ids := new IdAllocator.Ids();
      this.bases, this.teams, numPlayers, numRobots, live := bases, teams, 0, 0, {};
      all := set p | p in objs;
      new;
      StartsValid();
    }

    lemma StartsValid()
      requires Fixed() && ids.Valid() && ids.free == IdAllocator.Ids.AllInOrder()
      requires getInd.Length == IdAllocator.NUM_IDS + 1 && getInd != ids.queue && getInd != ids.inUse
      requires live == {} && numPlayers == 0 && numRobots == 0 && forall t <- teams :: t.Now() == Count(0, 0)
      requires forall i, j :: 0 <= i < j < players.Length ==> players[i] != players[j]
      requires forall k :: 0 <= k < players.Length ==> players[k] in all
      ensures Valid() && Now() == State(map[], map t | t in teams :: Count(0, 0), 0)
    {
      hide IdAllocator.Ids.Valid, Sound, IdsOf, IdAllocator.Used, IdAllocator.Ids.AllInOrder, PlayersNow, TeamsNow;
      ghost var s := State(map[], map t | t in teams :: Count(0, 0), 0);
      NobodySound(s, BaseSet(), Pause());
      NowIs(s);
      NobodyHasId();
      IdAllocator.AllFree();
    }

    lemma NobodyHasId()
      requires live == {}
      ensures IdsOf(PlayersNow()) == {}
    {
    }

    lemma Seen()
      ensures Now().players == PlayersNow() && Now().teams == TeamsNow() && Now().players.Keys == live
    {
    }

    lemma BeforeNow(s: State)
      requires s == Now()
      ensures s.players.Keys == live && forall p <- live :: s.players[p] == p.Now()
      ensures s.teams.Keys == (set t | t in teams) && forall t <- teams :: s.teams[t] == t.Now()
      ensures s.robots == numRobots
    {
    }

    lemma NowIs(s: State)
      requires s.players.Keys == live && forall p <- live :: s.players[p] == p.Now()
      requires s.teams.Keys == (set t | t in teams) && forall t <- teams :: s.teams[t] == t.Now()
      requires s.robots == numRobots
      ensures Now() == s
    {
      assert PlayersNow() == s.players && TeamsNow() == s.teams;
    }

    ghost function Homes(n: nat): set<Base>
      requires n <= players.Length
      reads players, set k | 0 <= k < n :: players[k]
    {
      set k | 0 <= k < n && players[k].homeBase != null :: players[k].homeBase
    }

    /** The bases of the team */
    method MarkTeam(team: Team) returns (free: array<bool>, numFree: nat)
      ensures fresh(free) && free.Length == |bases|
      ensures forall i :: 0 <= i < |bases| ==> free[i] == Free(bases[i], team, {})
      ensures numFree == FreeCount(bases, team, {}, |bases|)
    {
      free := new bool[|bases|];
      numFree := 0;
      var i := 0;
      while i < |bases|
        invariant 0 <= i <= |bases| && numFree == FreeCount(bases, team, {}, i)
        invariant forall k :: 0 <= k < i ==> free[k] == Free(bases[k], team, {})
      {
        if bases[i].team == team {
          numFree := numFree + 1;
          free[i] := true;
        } else {
          free[i] := false;
        }
        i := i + 1;
      }
    }

    /** One player's home base is not free. */
    method Strike(free: array<bool>, numFree: nat, home: Base, team: Team, ghost homes: set<Base>) returns (left: nat)
      requires Ids(bases) && home in bases && free.Length == |bases|
      requires forall k :: 0 <= k < |bases| ==> free[k] == Free(bases[k], team, homes)
      requires numFree == FreeCount(bases, team, homes, |bases|)
      modifies free
      ensures forall k :: 0 <= k < |bases| ==> free[k] == Free(bases[k], team, homes + {home})
      ensures left == FreeCount(bases, team, homes + {home}, |bases|)
    {
      FreeCountTaken(bases, team, homes, home, |bases|);
      FreeCountZero(bases, team, homes, |bases|);
      left := numFree;
      if free[home.id] {
        free[home.id] := false;
        left := numFree - 1;
      }
    }

    lemma NoHomes()
      requires Slots()
      ensures Homes(0) == {} && numPlayers <= players.Length
    {
    }

    lemma ListedAt(i: nat)
      requires Slots() && i < numPlayers
      ensures players[i] in live
    {
    }

    lemma HomesGrow(i: nat)
      requires i < players.Length
      ensures Homes(i + 1) == if players[i].homeBase == null then Homes(i) else Homes(i) + {players[i].homeBase}
    {
    }

    /** The counting loops of Team_pick_free_base */
    method MarkFree(team: Team) returns (free: array<bool>, numFree: nat)
      requires Slots() && Ids(bases) && forall p <- live :: p.homeBase != null ==> p.homeBase in bases
      ensures fresh(free) && free.Length == |bases|
      ensures forall i :: 0 <= i < |bases| ==> free[i] == Free(bases[i], team, Homes(numPlayers))
      ensures numFree == FreeCount(bases, team, Homes(numPlayers), |bases|)
    {
      hide FreeCount, Free, Slots, Homes, Ids;
      free, numFree := MarkTeam(team);
      var i := 0;
      NoHomes();
      while i < numPlayers
        invariant 0 <= i <= numPlayers && numFree == FreeCount(bases, team, Homes(i), |bases|)
        invariant forall k :: 0 <= k < |bases| ==> free[k] == Free(bases[k], team, Homes(i))
      {
        HomesGrow(i);
        ListedAt(i);
        if players[i].homeBase != null {
          numFree := Strike(free, numFree, players[i].homeBase, team, Homes(i));
        }
        i := i + 1;
      }
    }

    /** Team_pick_free_base: free base number `pick` of the team, if it has one, where `pick` is drawn at random. */
    method PickFreeBase(team: Team, rfrac: real) returns (base: Base?)
      requires Slots() && Ids(bases) && (forall p <- live :: p.homeBase != null ==> p.homeBase in bases)
      requires 0.0 <= rfrac < 1.0
      ensures base == null <==> forall b <- bases :: !Free(b, team, Homes(numPlayers))
      ensures base != null ==> base in bases && Free(base, team, Homes(numPlayers))
      ensures base != null ==> FreeCount(bases, team, Homes(numPlayers), base.id)
                               == (rfrac * FreeCount(bases, team, Homes(numPlayers), |bases|) as real).Floor
    {
      hide Slots, Homes, FreeCount, Free;
      var free, numFree := MarkFree(team);
      var pick := (rfrac * numFree as real).Floor;
      PickInRange(rfrac, numFree);
      NoHomes();
      base := Choose(free, pick, team, Homes(numPlayers));
    }

    /** The free base of that number in the order of the map. */
    method Choose(free: array<bool>, pick: int, team: Team, ghost homes: set<Base>) returns (base: Base?)
      requires Ids(bases) && free.Length == |bases|
      requires forall k :: 0 <= k < |bases| ==> free[k] == Free(bases[k], team, homes)
      requires 0 <= pick
      requires pick < FreeCount(bases, team, homes, |bases|) || FreeCount(bases, team, homes, |bases|) == 0
      ensures base == null <==> forall b <- bases :: !Free(b, team, homes)
      ensures base != null ==> base in bases && Free(base, team, homes)
      ensures base != null ==> FreeCount(bases, team, homes, base.id) == pick
    {
      hide Free;
      FreeCountZero(bases, team, homes, |bases|);
      var seen, i := 0, 0;
      while i < |bases|
        invariant 0 <= i <= |bases| && 0 <= seen <= pick && seen == FreeCount(bases, team, homes, i)
      {
        if free[i] {
          if seen < pick {
            seen := seen + 1;
          } else {
            return bases[i];
          }
        }
        i := i + 1;
      }
      return null;
    }

    lemma HomesAre()
      requires Slots()
      ensures forall b: Base :: b !in Homes(numPlayers) <==> Unowned(PlayersNow(), b)
    {
      forall b: Base
        ensures b !in Homes(numPlayers) <==> Unowned(PlayersNow(), b)
      {
        if p :| p in PlayersNow() && PlayersNow()[p].home == b {
          assert players[getInd[p.id]].homeBase == b;
        }
        if k :| 0 <= k < numPlayers && players[k].homeBase == b {
          assert players[k] in PlayersNow();
        }
      }
    }

    lemma HomesInBases(but: Player?)
      requires ValidBut(but)
      ensures Slots() && Ids(bases) && forall p <- live :: p.homeBase != null ==> p.homeBase in bases
    {
      assert forall p <- live :: p in PlayersNow();
    }

    ghost predicate HasFree(ps: Listed, team: Team) {
      exists b <- bases :: b.team == team && Unowned(ps, b)
    }

    lemma HasFreeStays(ps: Listed, p: Player, i: Info, team: Team)
      requires p !in ps && i.home == null
      ensures HasFree(ps[p := i], team) <==> HasFree(ps, team)
    {
      UnownedStays(ps, p, i);
    }

    /** Whoever compares the two counts first, as commands do, never fails to find a base. */
    lemma RoomMeansFree(team: Team)
      requires Valid() && team in teams && team.numMembers < |BasesOf(BaseSet(), team)|
      ensures HasFree(PlayersNow(), team)
    {
      BeforeNow(Now());
      RoomMeansBase(Now(), BaseSet(), Pause(), null, team);
    }

    /** A free base of the team, if it has one. */
    method FindHome(team: Team, rfrac: real, ghost but: Player?) returns (base: Base?)
      requires ValidBut(but) && 0.0 <= rfrac < 1.0
      ensures base == null <==> !HasFree(PlayersNow(), team)
      ensures base != null ==> base in bases && base.team == team && Unowned(PlayersNow(), base)
    {
      hide ValidBut, Now, Homes, FreeCount, IdsOf, PlayersNow, Slots, Ids;
      HomesInBases(but);
      HomesAre();
      base := PickFreeBase(team, rfrac);
    }

    // ---- joining

    ghost function NextSlot(): Player
      requires numPlayers < players.Length
      reads this`numPlayers, players
    {
      players[numPlayers]
    }

    /** Player_add: the next free slot is wiped and gets the id that has been free the longest. It does not look
        whether there was one: without, the player is listed under 0. */
    method Enlist(robot: bool) returns (p: Player)
      requires ids.Valid() && Slots() && numPlayers < players.Length
      requires forall q <- live :: q.id in IdAllocator.Used(ids.free)
      modifies this`numPlayers, this`live, getInd, ids, ids.queue, ids.inUse
      modifies NextSlot()`id, NextSlot()`robot, NextSlot()`team, NextSlot()`homeBase
      ensures ids.Valid() && numPlayers == old(numPlayers) + 1
      ensures p == old(NextSlot()) && p !in old(live) && live == old(live) + {p}
      ensures p.Now() == Info(p.id, robot, null, null)
      ensures 0 <= p.id < getInd.Length && getInd[p.id] == old(numPlayers) && players[old(numPlayers)] == p
      ensures p.id == 0 <==> IdAllocator.Used(old(ids.free)) == IdAllocator.FirstIds(IdAllocator.NUM_IDS)
      ensures p.id == 0 ==> ids.free == old(ids.free)
      ensures p.id != 0 ==>
                && Slots() && p.id !in IdAllocator.Used(old(ids.free))
                && IdAllocator.Used(ids.free) == IdAllocator.Used(old(ids.free)) + {p.id}
    {
      hide IdAllocator.Used, IdAllocator.FirstIds, IdAllocator.Ids.Valid;
      p := players[numPlayers];
      p.robot, p.team, p.homeBase := robot, null, null;
      var id := ids.Request();
      IdAllocator.UsedAreIds(ids.free);
      p.id := id;
      getInd[id] := numPlayers;
      numPlayers := numPlayers + 1;
      live := live + {p};
    }

    /** Player_add_to_team */
    method AddToTeam(p: Player, team: Team)
      modifies p`team, team`numMembers, team`numRobots
      ensures p.team == team && team.Now() == OneMore(old(team.Now()), p.robot)
    {
      p.team := team;
      team.numMembers := team.numMembers + 1;
      if p.robot {
        p.team.numRobots := p.team.numRobots + 1;
      }
    }

    /** Player_remove_from_team */
    method RemoveFromTeam(p: Player)
      requires p.team != null
      modifies p`team, p.team`numMembers, p.team`numRobots
      ensures p.team == null && old(p.team).Now() == OneLess(old(p.team.Now()), p.robot)
    {
      if p.robot {
        p.team.numRobots := p.team.numRobots - 1;
      }
      p.team.numMembers := p.team.numMembers - 1;
      p.team := null;
    }

    method EnlistOn(team: Team, robot: bool) returns (p: Player)
      requires ids.Valid() && Slots() && numPlayers < players.Length
      requires forall q <- live :: q.id in IdAllocator.Used(ids.free)
      modifies this`numPlayers, this`numRobots, this`live, getInd, ids, ids.queue, ids.inUse
      modifies NextSlot()`id, NextSlot()`robot, NextSlot()`team, NextSlot()`homeBase, team`numMembers, team`numRobots
      ensures ids.Valid() && p == old(NextSlot()) && p !in old(live) && live == old(live) + {p}
      ensures numPlayers == old(numPlayers) + 1
      ensures p.Now() == Info(p.id, robot, team, null) && forall q <- old(live) :: q.Now() == old(q.Now())
      ensures team.Now() == OneMore(old(team.Now()), robot)
      ensures forall t <- teams :: t != team ==> t.Now() == old(t.Now())
      ensures numRobots == old(numRobots) + if robot then 1 else 0
      ensures p.id == 0 <==> IdAllocator.Used(old(ids.free)) == IdAllocator.FirstIds(IdAllocator.NUM_IDS)
      ensures p.id != 0 ==>
                && Slots() && p.id !in IdAllocator.Used(old(ids.free))
                && IdAllocator.Used(ids.free) == IdAllocator.Used(old(ids.free)) + {p.id}
    {
      hide IdAllocator.Used, IdAllocator.FirstIds, IdAllocator.Ids.Valid, Slots;
      p := Enlist(robot);
      if robot {
        numRobots := numRobots + 1;
      }
      AddToTeam(p, team);
    }

    lemma IdsNow()
      ensures forall id :: id in IdsOf(PlayersNow()) <==> exists p <- live :: p.id == id
    {
      forall id
        ensures id in IdsOf(PlayersNow()) <==> exists p <- live :: p.id == id
      {
        if p :| p in live && p.id == id {
          assert p in PlayersNow();
        }
      }
    }

    lemma JoinedNow(s: State, p: Player)
      requires p.team != null && p.team in teams && p !in s.players && live == s.players.Keys + {p}
      requires s.teams.Keys == (set t | t in teams) && (forall q <- s.players :: q.Now() == s.players[q])
      requires p.team.Now() == OneMore(s.teams[p.team], p.robot)
      requires forall t <- teams :: t != p.team ==> t.Now() == s.teams[t]
      requires numRobots == s.robots + if p.robot then 1 else 0
      ensures Now() == Joined(s, p, p.Now())
    {
      NowIs(Joined(s, p, p.Now()));
    }

    /** A new player is on its team, but without a base. */
    method Enter(team: Team, robot: bool) returns (p: Player)
      requires Valid() && team in teams && numPlayers < players.Length
      modifies this`numPlayers, this`numRobots, this`live, getInd, ids, ids.queue, ids.inUse
      modifies NextSlot()`id, NextSlot()`robot, NextSlot()`team, NextSlot()`homeBase, team`numMembers, team`numRobots
      ensures p == old(NextSlot()) && p !in old(live) && p in live && p.team == team && team in old(TeamsNow())
      ensures numPlayers == old(numPlayers) + 1
      ensures p.id == 0 <==> IdAllocator.Used(old(ids.free)) == IdAllocator.FirstIds(IdAllocator.NUM_IDS)
      ensures p.id != 0 ==> ValidBut(p) && p.id !in IdsOf(old(PlayersNow()))
      ensures Now() == Joined(old(Now()), p, Info(p.id, robot, team, null))
    {
      hide IdAllocator.Used, IdAllocator.FirstIds, IdAllocator.Ids.Valid, Sound, PlayersNow, TeamsNow, Slots, IdsOf,
           Fixed;
      ghost var before := Now();
      BeforeNow(before);
      IdsNow();
      p := EnlistOn(team, robot);
      JoinedNow(before, p);
      if p.id != 0 {
        JoinedSound(before, BaseSet(), Pause(), p, Info(p.id, robot, team, null));
        JoinedIds(before.players, p, p.Now());
      }
    }

    lemma HomeIs(s: State, p: Player)
      requires p in live && s.players.Keys == live && forall q <- live :: q != p ==> s.players[q] == q.Now()
      requires s.teams.Keys == (set t | t in teams) && forall t <- teams :: s.teams[t] == t.Now()
      requires s.robots == numRobots
      ensures Now() == s.(players := s.players[p := p.Now()])
    {
      NowIs(s.(players := s.players[p := p.Now()]));
    }

    method SetHome(p: Player, home: Base?)
      requires ids.Valid() && Slots() && p in live
      modifies p`homeBase
      ensures ids.Valid() && Slots() && p.homeBase == home && p in old(PlayersNow())
      ensures Now() == old(Now()).(players := old(PlayersNow())[p := old(p.Now()).(home := home)])
    {
      hide IdAllocator.Ids.Valid, PlayersNow, TeamsNow, Slots;
      ghost var before := Now();
      BeforeNow(before);
      p.homeBase := home;
      HomeIs(before, p);
    }

    // ---- leaving

    /** The last listed player takes the place of the one that leaves. */
    method Unlist(p: Player)
      requires Slots() && p in live
      modifies this`numPlayers, this`live, players, getInd
      ensures Slots() && numPlayers == old(numPlayers) - 1 && live == old(live) - {p}
    {
      numPlayers := numPlayers - 1;
      live := live - {p};
      var ind := getInd[p.id];
      var q := players[numPlayers];
      players[numPlayers] := p;
      players[ind] := q;
      getInd[q.id] := ind;
      getInd[p.id] := numPlayers;
    }

    /** release_ID on an id that is in use */
    method Release(p: Player) returns (ok: bool)
      requires ids.Valid() && Slots() && p.id in IdAllocator.Used(ids.free)
      modifies ids, ids.queue, ids.inUse
      ensures ok && ids.Valid() && Slots() && IdAllocator.Used(ids.free) == IdAllocator.Used(old(ids.free)) - {p.id}
    {
      hide IdAllocator.Used;
      ok := ids.Release(p.id);
    }

    method Delist(p: Player)
      requires ids.Valid() && Slots() && p in live && p.team != null && p.id in IdAllocator.Used(ids.free)
      modifies this`numPlayers, this`numRobots, this`live, players, getInd, ids, ids.queue, ids.inUse
      modifies p`id, p`robot, p`team, p`homeBase, p.team`numMembers, p.team`numRobots
      ensures ids.Valid() && Slots() && live == old(live) - {p}
      ensures p.Now() == Info(0, false, null, null) && forall q <- live :: q.Now() == old(q.Now())
      ensures old(p.team).Now() == OneLess(old(p.team.Now()), old(p.robot))
      ensures forall t <- teams :: t != old(p.team) ==> t.Now() == old(t.Now())
      ensures numRobots == old(numRobots) - if old(p.robot) then 1 else 0
      ensures IdAllocator.Used(ids.free) == IdAllocator.Used(old(ids.free)) - {old(p.id)}
    {
      hide IdAllocator.Used, IdAllocator.Ids.Valid, Slots;
      if p.robot {
        numRobots := numRobots - 1;
      }
      RemoveFromTeam(p);
      Unlist(p);
      var ok := Release(p);
      p.id, p.robot, p.team, p.homeBase := 0, false, null, null;
    }

    lemma GoneNow(s: State, p: Player)
      requires p in s.players && live == s.players.Keys - {p} && s.players[p].team != null && s.players[p].team in teams
      requires s.teams.Keys == (set t | t in teams) && (forall q <- live :: q.Now() == s.players[q])
      requires s.players[p].team.Now() == OneLess(s.teams[s.players[p].team], s.players[p].robot)
      requires forall t <- teams :: t != s.players[p].team ==> t.Now() == s.teams[t]
      requires numRobots == s.robots - if s.players[p].robot then 1 else 0
      ensures Now() == Gone(s, p)
    {
      NowIs(Gone(s, p));
    }

    lemma Room()
      requires Valid() && |Now().players.Keys| < IdAllocator.NUM_IDS && numPlayers < players.Length
      ensures IdAllocator.Used(ids.free) != IdAllocator.FirstIds(IdAllocator.NUM_IDS) && NextSlot() in all
    {
      IdsCounted(PlayersNow());
      FewUsed(IdsOf(PlayersNow()));
    }

    lemma LiveAreAll()
      requires Valid()
      ensures live <= all
    {
    }

    lemma TeamsSeen()
      requires ValidBut(null)
      ensures Fixed() && forall t <- teams :: t in TeamsNow()
    {
    }

    lemma ListedIs(p: Player, but: Player? := null)
      requires ValidBut(but) && p in live
      ensures p in PlayersNow() && PlayersNow()[p] == p.Now()
      ensures p.team != null && p.team in teams && p.team in TeamsNow()
      ensures p.id in IdAllocator.Used(ids.free) && p.id in IdsOf(PlayersNow())
    {
      assert p in PlayersNow();
    }

    /** Player_remove */
    method Remove(p: Player, ghost but: Player? := null)
      requires ValidBut(but) && (but == null || but == p) && p in live && p.team != null
      modifies this`numPlayers, this`numRobots, this`live, players, getInd, ids, ids.queue, ids.inUse
      modifies p`id, p`robot, p`team, p`homeBase, p.team`numMembers, p.team`numRobots
      ensures Valid() && old(p.team) in old(TeamsNow())
      ensures p in old(PlayersNow()) && old(PlayersNow())[p] == old(p.Now())
      ensures p.Now() == Info(0, false, null, null) && Now() == Gone(old(Now()), p)
    {
      hide IdAllocator.Used, IdAllocator.Ids.Valid, Sound, PlayersNow, TeamsNow, Slots, IdsOf, Fixed, Apart;
      ghost var before := Now();
      BeforeNow(before);
      ListedIs(p, but);
      GoneIdsHere(p, but);
      Delist(p);
      GoneNow(before, p);
      GoneSound(before, BaseSet(), Pause(), but, p);
    }

    lemma GoneIdsHere(p: Player, but: Player?)
      requires ValidBut(but) && p in live
      ensures p in PlayersNow() && IdsOf(PlayersNow() - {p}) == IdsOf(PlayersNow()) - {p.id}
    {
      GoneIds(PlayersNow(), p);
    }

    // ---- the requests of players and of the server

    /** Whether there is an id left, which a robot is asked first. */
    method HasId() returns (yes: bool)
      requires ids.Valid() && Slots()
      modifies ids`inited, ids`get, ids`put, ids.queue, ids.inUse
      ensures ids.Valid() && Slots() && ids.free == old(ids.free)
      ensures yes <==> IdAllocator.Used(ids.free) != IdAllocator.FirstIds(IdAllocator.NUM_IDS)
    {
      var id := ids.Peek();
      ids.NoneFree();
      yes := id != 0;
    }

    /** Handle_login or Robot_add. A robot that finds no id or no base leaves no trace. A human is not asked: without
        an id it is listed under 0, and without a base its connection is destroyed before it has one, so the program
        follows a null pointer. */
    method Join(team: Team, robot: bool, rfrac: real) returns (p: Player?, joining: Joining)
      requires Valid() && team in teams && numPlayers < players.Length && 0.0 <= rfrac < 1.0
      modifies this`numPlayers, this`numRobots, this`live, players, getInd, ids, ids.queue, ids.inUse
      modifies NextSlot()`id, NextSlot()`robot, NextSlot()`team, NextSlot()`homeBase, team`numMembers, team`numRobots
      ensures team in old(TeamsNow())
      ensures var fits := IdAllocator.Used(old(ids.free)) != IdAllocator.FirstIds(IdAllocator.NUM_IDS)
                          && HasFree(old(PlayersNow()), team);
              joining == if fits then Seated else if robot then TurnedAway else Broken
      ensures joining == TurnedAway ==> Valid() && p == null && Now() == old(Now())
      ensures joining == Broken ==> p != null && p in live && (p.id == 0 || p.homeBase == null)
      ensures joining == Seated ==> Valid() && p != null && p !in old(PlayersNow()) && p.id !in IdsOf(old(PlayersNow()))
      ensures joining == Seated ==> p.homeBase != null && p.homeBase in bases && p.homeBase.team == team
      ensures joining == Seated ==> Unowned(old(PlayersNow()), p.homeBase) && p in live
      ensures joining == Seated ==> numPlayers == old(numPlayers) + 1
      ensures joining == Seated ==> Now() == Joined(old(Now()), p, Info(p.id, robot, team, p.homeBase))
    {
      hide IdAllocator.Used, IdAllocator.FirstIds, IdAllocator.Ids.Valid, Sound, PlayersNow, TeamsNow, Slots, IdsOf,
           Unowned, Fixed, HasFree;
      ghost var before := Now();
      BeforeNow(before);
      if robot {
        var yes := HasId();
        if !yes {
          return null, TurnedAway;
        }
      }
      p := Enter(team, robot);
      if p.id == 0 {
        return p, Broken;
      }
      var found := Seat(before, p, team, robot, rfrac);
      if found {
        return p, Seated;
      } else if robot {
        return null, TurnedAway;
      } else {
        return p, Broken;
      }
    }

    method LeaveAgain(ghost before: State, p: Player, ghost i: Info)
      requires ValidBut(p) && p in live && i.team != null && i.team == p.team && p !in before.players
      requires i.team in before.teams && Now() == Joined(before, p, i)
      modifies this`numPlayers, this`numRobots, this`live, players, getInd, ids, ids.queue, ids.inUse
      modifies p`id, p`robot, p`team, p`homeBase, p.team`numMembers, p.team`numRobots
      ensures Valid() && Now() == before
    {
      hide Now, Valid, ValidBut, PlayersNow, TeamsNow, Gone, Joined;
      JoinedGone(before, p, i);
      Remove(p, p);
    }

    /** What follows once a player is on its team: it gets a base, or a robot leaves again. */
    method Seat(ghost before: State, p: Player, team: Team, robot: bool, rfrac: real) returns (found: bool)
      requires ValidBut(p) && team in teams && 0.0 <= rfrac < 1.0 && p in live && p.team == team
      requires Sound(before, BaseSet(), Pause(), null) && p !in before.players && p.id !in IdsOf(before.players)
      requires team in before.teams && Now() == Joined(before, p, Info(p.id, robot, team, null))
      modifies this`numPlayers, this`numRobots, this`live, players, getInd, ids, ids.queue, ids.inUse
      modifies p`id, p`robot, p`team, p`homeBase, team`numMembers, team`numRobots
      ensures found <==> HasFree(before.players, team)
      ensures found ==>
                Valid() && p.id == old(p.id) && p.homeBase != null && p.homeBase in bases && p.homeBase.team == team
      ensures found ==> Unowned(before.players, p.homeBase) && numPlayers == old(numPlayers) && p in live
      ensures found ==> Now() == Joined(before, p, Info(p.id, robot, team, p.homeBase))
      ensures !found && robot ==> Valid() && Now() == before
      ensures !found && !robot ==> p in live && p.homeBase == null
    {
      hide Now, IdAllocator.Used, IdAllocator.FirstIds, IdAllocator.Ids.Valid, Sound, PlayersNow, TeamsNow, Slots,
           IdsOf, Unowned, Fixed, HasFree, Joined;
      BeforeNow(Now());
      Seen();
      JoinedIs(before, p, Info(p.id, robot, team, null));
      HasFreeStays(before.players, p, Info(p.id, robot, team, null), team);
      UnownedStays(before.players, p, Info(p.id, robot, team, null));
      var home := FindHome(team, rfrac, p);
      if home == null {
        if robot {
          LeaveAgain(before, p, Info(p.id, robot, team, null));
        }
        return false;
      }
      HousedSound(before, BaseSet(), Pause(), p, Info(p.id, robot, team, null), home);
      SetHome(p, home);
      Seen();
      return true;
    }

    method Transfer(p: Player, team: Team, home: Base?)
      requires p.team != null
      modifies p`team, p`homeBase, p.team`numMembers, p.team`numRobots, team`numMembers, team`numRobots
      ensures p.Now() == old(p.Now()).(team := team, home := home)
      ensures forall t <- teams :: t.Now() == Counts(old(t.Now()), t, old(p.team), team, p.robot)
    {
      p.homeBase := home;
      RemoveFromTeam(p);
      AddToTeam(p, team);
    }

    static function Counts(c: Count, t: Team, from: Team?, to: Team, robot: bool): Count {
      var d := if t == from then OneLess(c, robot) else c;
      if t == to then OneMore(d, robot) else d
    }

    lemma MovedNow(s: State, p: Player, team: Team, home: Base?)
      requires p in s.players && s.players.Keys == live && s.players[p].team in s.teams && team in s.teams
      requires s.teams.Keys == (set t | t in teams) && s.robots == numRobots
      requires p.Now() == s.players[p].(team := team, home := home)
      requires forall q <- live :: q != p ==> q.Now() == s.players[q]
      requires forall t <- teams :: t.Now() == Counts(s.teams[t], t, s.players[p].team, team, p.robot)
      ensures Now() == Moved(s, p, team, home)
    {
      NowIs(Moved(s, p, team, home));
    }

    method Move(p: Player, team: Team, home: Base?)
      requires Valid() && p in live && team in teams && p.team != null
      requires if home == null then team == teams[0]
               else home in bases && home.team == team && Unowned(PlayersNow(), home)
      modifies p`team, p`homeBase, p.team`numMembers, p.team`numRobots, team`numMembers, team`numRobots
      ensures Valid() && p in old(PlayersNow())
      ensures old(PlayersNow())[p].team in old(TeamsNow()) && team in old(TeamsNow())
      ensures Now() == Moved(old(Now()), p, team, home)
    {
      hide Now, IdAllocator.Used, IdAllocator.Ids.Valid, Sound, PlayersNow, TeamsNow, Slots, IdsOf, Unowned, Fixed,
           Moved;
      ghost var before := Now();
      BeforeNow(before);
      Seen();
      ListedIs(p);
      MovedSound(before, BaseSet(), Pause(), p, team, home);
      MovedIds(before, p, team, home);
      Relocate(p, team, home);
      Seen();
    }

    method Relocate(p: Player, team: Team, home: Base?)
      requires Slots() && p in live && team in teams && p.team != null && p.team in teams
      modifies p`team, p`homeBase, p.team`numMembers, p.team`numRobots, team`numMembers, team`numRobots
      ensures Slots() && p in old(PlayersNow())
      ensures old(PlayersNow())[p].team in old(TeamsNow()) && team in old(TeamsNow())
      ensures Now() == Moved(old(Now()), p, team, home)
    {
      hide Now, PlayersNow, TeamsNow, Slots, Moved, Counts;
      ghost var before := Now();
      BeforeNow(before);
      Seen();
      Transfer(p, team, home);
      MovedNow(before, p, team, home);
    }

    /** Player_swap_team: pausers give up their base; anyone else needs a free one, and is out of the game without. */
    method SwapTeam(p: Player, team: Team, rfrac: real) returns (ok: bool)
      requires Valid() && p in live && team in teams && 0.0 <= rfrac < 1.0 && p.team != null
      modifies this`numPlayers, this`numRobots, this`live, players, getInd, ids, ids.queue, ids.inUse
      modifies p`id, p`robot, p`team, p`homeBase, p.team`numMembers, p.team`numRobots, team`numMembers, team`numRobots
      ensures Valid() && p in old(PlayersNow())
      ensures old(PlayersNow())[p].team in old(TeamsNow()) && team in old(TeamsNow())
      ensures ok <==> team == teams[0] || HasFree(old(PlayersNow()), team)
      ensures ok && team == teams[0] ==> Now() == Moved(old(Now()), p, team, null)
      ensures ok && team != teams[0] ==> p.homeBase != null && p.homeBase in bases && p.homeBase.team == team
      ensures ok && team != teams[0] ==>
                Unowned(old(PlayersNow()), p.homeBase) && Now() == Moved(old(Now()), p, team, p.homeBase)
      ensures !ok ==> Now() == Gone(old(Now()), p)
    {
      hide Now, ValidBut, IdAllocator.Used, IdsOf, PlayersNow, TeamsNow, Unowned, Moved, HasFree, Gone;
      TeamsSeen();
      ListedIs(p);
      Seen();
      var home: Base? := null;
      if team != teams[0] {
        home := FindHome(team, rfrac, null);
        if home == null {
          Remove(p);
          return false;
        }
      }
      Move(p, team, home);
      HomeNow(p, old(Now()), team, home);
      return true;
    }

    lemma HomeNow(p: Player, s: State, team: Team, home: Base?)
      requires p in s.players && s.players[p].team in s.teams && team in s.teams && Now() == Moved(s, p, team, home)
      ensures p.homeBase == home
    {
      assert p in PlayersNow();
    }

    /** Players_swap_teams */
    method Exchange(p: Player, q: Player)
      requires Valid() && p in live && q in live
      modifies p`team, p`homeBase, q`team, q`homeBase
      ensures Valid() && p in old(PlayersNow()) && q in old(PlayersNow()) && Now() == Exchanged(old(Now()), p, q)
    {
      hide Now, IdAllocator.Used, IdAllocator.Ids.Valid, Sound, PlayersNow, TeamsNow, Slots, IdsOf, Fixed, Exchanged;
      ghost var before := Now();
      BeforeNow(before);
      Seen();
      ExchangedSound(before, BaseSet(), Pause(), p, q);
      ExchangedIds(before, p, q);
      Trade(p, q);
      ExchangedNow(before, p, q);
      Seen();
    }

    method Trade(p: Player, q: Player)
      modifies p`team, p`homeBase, q`team, q`homeBase
      ensures p.Now() == old(p.Now()).(team := old(q.team), home := old(q.homeBase))
      ensures q.Now() == old(q.Now()).(team := old(p.team), home := old(p.homeBase))
    {
      var base, team := q.homeBase, q.team;
      q.team := p.team;
      p.team := team;
      q.homeBase := p.homeBase;
      p.homeBase := base;
    }

    lemma ExchangedNow(s: State, p: Player, q: Player)
      requires p in s.players && q in s.players && s.players.Keys == live
      requires p.Now() == s.players[p].(team := s.players[q].team, home := s.players[q].home)
      requires q.Now() == s.players[q].(team := s.players[p].team, home := s.players[p].home)
      requires forall r <- live :: r != p && r != q ==> r.Now() == s.players[r]
      requires s.teams.Keys == (set t | t in teams) && s.robots == numRobots
      requires forall t <- teams :: t.Now() == s.teams[t]
      ensures Now() == Exchanged(s, p, q)
    {
      NowIs(Exchanged(s, p, q));
    }

    /** Player_owns_base */
    method Owner(base: Base) returns (owner: Player?)
      requires Slots()
      ensures owner == null ==> Unowned(PlayersNow(), base)
      ensures owner != null ==> owner in live && owner.homeBase == base
    {
      var i := 0;
      while i < numPlayers
        invariant 0 <= i <= numPlayers && forall k :: 0 <= k < i ==> players[k].homeBase != base
      {
        if players[i].homeBase == base {
          return players[i];
        }
        i := i + 1;
      }
      HomesAre();
      return null;
    }

    method TakeOver(p: Player, owner: Player?, base: Base)
      requires p in live && (owner != null ==> owner in live)
      modifies live`homeBase
      ensures forall q <- live :: q.Now() ==
                if q == p then old(q.Now()).(home := base)
                else if q == owner then old(q.Now()).(home := old(p.homeBase))
                else old(q.Now())
    {
      if owner != null && owner != p {
        owner.homeBase := p.homeBase;
      }
      p.homeBase := base;
    }

    /** Player_change_home: another player's base may be taken, and then the two change places. */
    method ChangeHome(p: Player, base: Base) returns (owner: Player?)
      requires Valid() && p in live && base in bases
      modifies live`homeBase
      ensures Valid() && p in old(PlayersNow())
      ensures old(p.homeBase) == base || base.team != p.team ==> owner == null && Now() == old(Now())
      ensures old(p.homeBase) != base && base.team == p.team ==>
                && (if owner == null then Unowned(old(PlayersNow()), base)
                    else owner in old(PlayersNow()) && old(PlayersNow())[owner].home == base)
                && Now() == Rehomed(old(Now()), p, owner, base)
    {
      hide Now, IdAllocator.Used, IdAllocator.Ids.Valid, Sound, PlayersNow, TeamsNow, IdsOf, Unowned, Fixed, Rehomed;
      BeforeNow(Now());
      Seen();
      if base == p.homeBase {
        return null;
      }
      if base.team != p.team {
        return null;
      }
      owner := Owner(base);
      Rehome(p, owner, base);
    }

    method Rehome(p: Player, owner: Player?, base: Base)
      requires Valid() && p in live && p in PlayersNow() && base in bases && base.team == p.team
      requires if owner == null then Unowned(PlayersNow(), base)
               else owner in PlayersNow() && owner != p && PlayersNow()[owner].home == base
      modifies live`homeBase
      ensures Valid() && p in old(PlayersNow()) && (owner != null ==> owner in old(PlayersNow()))
      ensures Now() == Rehomed(old(Now()), p, owner, base)
    {
      hide Now, IdAllocator.Used, IdAllocator.Ids.Valid, Sound, PlayersNow, TeamsNow, Slots, IdsOf, Unowned, Fixed,
           Rehomed;
      ghost var before := Now();
      BeforeNow(before);
      Seen();
      RehomedSound(before, BaseSet(), Pause(), p, owner, base);
      RehomedIds(before, p, owner, base);
      TakeOver(p, owner, base);
      RehomedNow(before, p, owner, base);
      Seen();
    }

    lemma RehomedNow(s: State, p: Player, owner: Player?, base: Base)
      requires p in s.players && s.players.Keys == live && (owner != null ==> owner in live && owner != p)
      requires s.teams.Keys == (set t | t in teams) && s.robots == numRobots
      requires forall t <- teams :: t.Now() == s.teams[t]
      requires forall q <- live :: q.Now() ==
                 if q == p then s.players[q].(home := base)
                 else if q == owner then s.players[q].(home := s.players[p].home)
                 else s.players[q]
      ensures Now() == Rehomed(s, p, owner, base)
    {
      NowIs(Rehomed(s, p, owner, base));
    }
  }

  lemma NobodySound(s: State, bases: set<Base>, pause: Team)
    requires s.players == map[] && s.robots == 0 && forall t <- s.teams :: s.teams[t] == Count(0, 0)
    ensures Sound(s, bases, pause, null)
  {
    assert forall t <- s.teams :: Members(s.players, t) == {};
    assert AllRobots(s.players) == {};
  }

  lemma PickInRange(rfrac: real, n: nat)
    requires 0.0 <= rfrac < 1.0
    ensures n > 0 ==> 0 <= (rfrac * n as real).Floor < n
    ensures n == 0 ==> (rfrac * n as real).Floor == 0
  {
    if n > 0 {
      assert rfrac * n as real < 1.0 * n as real;
    }
  }

  // ---- whole runs

  datatype Event =
    | Joins(p: Player, i: Info)
    | Leaves(p: Player)
    | Moves(p: Player, team: Team, home: Base?)
    | Exchanges(p: Player, q: Player)
    | Rehomes(p: Player, owner: Player?, base: Base)

  /** What the operations of the table may do to a state. */
  ghost predicate Possible(s: State, bases: set<Base>, pause: Team, e: Event) {
    match e
    case Joins(p, i) =>
      && p !in s.players && i.team != null && i.team in s.teams && i.id !in IdsOf(s.players)
      && i.home != null && i.home in bases && i.home.team == i.team && Unowned(s.players, i.home)
    case Leaves(p) => p in s.players
    case Moves(p, team, home) =>
      && p in s.players && team in s.teams
      && (if home == null then team == pause else home in bases && home.team == team && Unowned(s.players, home))
    case Exchanges(p, q) => p in s.players && q in s.players
    case Rehomes(p, owner, base) =>
      && p in s.players && base in bases && base.team == s.players[p].team
      && (if owner == null then Unowned(s.players, base)
          else owner in s.players && owner != p && s.players[owner].home == base)
  }

  ghost function After(s: State, bases: set<Base>, pause: Team, e: Event): State
    requires Sound(s, bases, pause, null) && Possible(s, bases, pause, e)
  {
    match e
    case Joins(p, i) => Joined(s, p, i)
    case Leaves(p) => Gone(s, p)
    case Moves(p, team, home) => Moved(s, p, team, home)
    case Exchanges(p, q) => Exchanged(s, p, q)
    case Rehomes(p, owner, base) => Rehomed(s, p, owner, base)
  }

  lemma AfterSound(s: State, bases: set<Base>, pause: Team, e: Event)
    requires Sound(s, bases, pause, null) && Possible(s, bases, pause, e)
    ensures Sound(After(s, bases, pause, e), bases, pause, null)
    ensures After(s, bases, pause, e).teams.Keys == s.teams.Keys
  {
    hide Sound;
    TeamsIn(s, bases, pause);
    match e
    case Joins(p, i) => JoinedSound(s, bases, pause, p, i);
    case Leaves(p) => GoneSound(s, bases, pause, null, p);
    case Moves(p, team, home) => MovedSound(s, bases, pause, p, team, home);
    case Exchanges(p, q) => ExchangedSound(s, bases, pause, p, q);
    case Rehomes(p, owner, base) => RehomedSound(s, bases, pause, p, owner, base);
  }

  lemma TeamsIn(s: State, bases: set<Base>, pause: Team)
    requires Sound(s, bases, pause, null)
    ensures forall p <- s.players :: s.players[p].team in s.teams
  {
  }

  /** What an event adds to the drift of a team. */
  ghost function Given(s: State, e: Event, t: Team): int {
    if e.Exchanges? && e.p in s.players && e.q in s.players then
      Taken(s.players[e.p], s.players[e.q], t) + Taken(s.players[e.q], s.players[e.p], t)
    else 0
  }

  lemma AfterDrift(s: State, bases: set<Base>, pause: Team, e: Event, t: Team)
    requires Sound(s, bases, pause, null) && Possible(s, bases, pause, e) && t in s.teams
    ensures t in After(s, bases, pause, e).teams
    ensures Drift(After(s, bases, pause, e), t) == Drift(s, t) + Given(s, e, t)
  {
    hide Sound, Drift, Taken;
    TeamsIn(s, bases, pause);
    match e
    case Joins(p, i) => JoinedDrift(s, p, i, t);
    case Leaves(p) => GoneDrift(s, p, t);
    case Moves(p, team, home) => MovedDrift(s, p, team, home, t);
    case Exchanges(p, q) => ExchangedDrift(s, p, q, t);
    case Rehomes(p, owner, base) => RehomedDrift(s, p, owner, base, t);
  }

  ghost predicate Legal(s: State, bases: set<Base>, pause: Team, es: seq<Event>)
    requires Sound(s, bases, pause, null)
    decreases |es|
  {
    es != [] ==>
      && Possible(s, bases, pause, es[0])
      && (AfterSound(s, bases, pause, es[0]); Legal(After(s, bases, pause, es[0]), bases, pause, es[1..]))
  }

  ghost function Final(s: State, bases: set<Base>, pause: Team, es: seq<Event>): State
    requires Sound(s, bases, pause, null) && Legal(s, bases, pause, es)
    decreases |es|
  {
    if es == [] then s
    else
      AfterSound(s, bases, pause, es[0]);
      Final(After(s, bases, pause, es[0]), bases, pause, es[1..])
  }

  ghost function AllGiven(s: State, bases: set<Base>, pause: Team, es: seq<Event>, t: Team): int
    requires Sound(s, bases, pause, null) && Legal(s, bases, pause, es)
    decreases |es|
  {
    if es == [] then 0
    else
      AfterSound(s, bases, pause, es[0]);
      Given(s, es[0], t) + AllGiven(After(s, bases, pause, es[0]), bases, pause, es[1..], t)
  }

  /** After any run the count of robots of a team is off by what its exchanges took, and by nothing else. */
  lemma {:induction false} RunDrift(s: State, bases: set<Base>, pause: Team, es: seq<Event>, t: Team)
    requires Sound(s, bases, pause, null) && Legal(s, bases, pause, es) && t in s.teams
    ensures var u := Final(s, bases, pause, es);
            && Sound(u, bases, pause, null) && t in u.teams
            && Drift(u, t) == Drift(s, t) + AllGiven(s, bases, pause, es, t)
    decreases |es|
  {
    hide Sound, Possible, After, Drift, Given;
    if es != [] {
      AfterSound(s, bases, pause, es[0]);
      AfterDrift(s, bases, pause, es[0], t);
      RunDrift(After(s, bases, pause, es[0]), bases, pause, es[1..], t);
    }
  }

  ghost predicate Exact(s: State) {
    forall t <- s.teams :: Drift(s, t) == 0
  }

  ghost predicate AlwaysExact(s: State, bases: set<Base>, pause: Team, es: seq<Event>)
    requires Sound(s, bases, pause, null) && Legal(s, bases, pause, es)
    decreases |es|
  {
    && Exact(s)
    && (es != [] ==>
          (AfterSound(s, bases, pause, es[0]); AlwaysExact(After(s, bases, pause, es[0]), bases, pause, es[1..])))
  }

  /** An exchange between two robots, two humans or two of a team. */
  ghost predicate Even(s: State, e: Event) {
    e.Exchanges? && e.p in s.players && e.q in s.players ==>
      s.players[e.p].robot == s.players[e.q].robot || s.players[e.p].team == s.players[e.q].team
  }

  ghost predicate AllEven(s: State, bases: set<Base>, pause: Team, es: seq<Event>)
    requires Sound(s, bases, pause, null) && Legal(s, bases, pause, es)
    decreases |es|
  {
    es != [] ==>
      && Even(s, es[0])
      && (AfterSound(s, bases, pause, es[0]); AllEven(After(s, bases, pause, es[0]), bases, pause, es[1..]))
  }

  lemma AfterExact(s: State, bases: set<Base>, pause: Team, e: Event)
    requires Sound(s, bases, pause, null) && Possible(s, bases, pause, e) && Exact(s)
    ensures Exact(After(s, bases, pause, e)) <==> Even(s, e)
  {
    hide Sound, Drift;
    AfterSound(s, bases, pause, e);
    TeamsIn(s, bases, pause);
    if e.Exchanges? {
      ExchangeKeepsRobots(s, e.p, e.q);
    } else {
      forall t <- s.teams
        ensures t in After(s, bases, pause, e).teams && Drift(After(s, bases, pause, e), t) == 0
      {
        AfterDrift(s, bases, pause, e, t);
      }
    }
  }

  /** The counts of robots are exact in every state of a run exactly when no robot ever changes places with a human of
      another team. */
  lemma {:induction false} RunExact(s: State, bases: set<Base>, pause: Team, es: seq<Event>)
    requires Sound(s, bases, pause, null) && Legal(s, bases, pause, es) && Exact(s)
    ensures AlwaysExact(s, bases, pause, es) <==> AllEven(s, bases, pause, es)
    decreases |es|
  {
    hide Sound, Possible, After, Exact, Even;
    if es != [] {
      AfterSound(s, bases, pause, es[0]);
      AfterExact(s, bases, pause, es[0]);
      if Exact(After(s, bases, pause, es[0])) {
        RunExact(After(s, bases, pause, es[0]), bases, pause, es[1..]);
      } else {
        NotAlways(After(s, bases, pause, es[0]), bases, pause, es[1..]);
      }
    }
  }

  lemma NotAlways(s: State, bases: set<Base>, pause: Team, es: seq<Event>)
    requires Sound(s, bases, pause, null) && Legal(s, bases, pause, es) && !Exact(s)
    ensures !AlwaysExact(s, bases, pause, es)
  {
  }

  lemma {:induction false} IdsCounted(ps: Listed)
    ensures |IdsOf(ps)| <= |ps.Keys|
    decreases |ps.Keys|
  {
    if ps.Keys == {} {
      assert IdsOf(ps) == {};
    } else {
      var p :| p in ps;
      var rest := ps - {p};
      IdsCounted(rest);
      assert rest.Keys == ps.Keys - {p};
      assert IdsOf(ps) <= IdsOf(rest) + {ps[p].id} by {
        assert forall q <- ps :: q == p || q in rest;
      }
      Subset(IdsOf(ps), IdsOf(rest) + {ps[p].id});
    }
  }

  lemma FewUsed(ids: set<int>)
    requires |ids| < IdAllocator.NUM_IDS
    ensures ids != IdAllocator.FirstIds(IdAllocator.NUM_IDS)
  {
    IdAllocator.FirstIdsCounted(IdAllocator.NUM_IDS);
  }

  /** From the empty table, a robot of one team and a human of another: after the exchange both counts are off. */
  lemma MiscountDrift(s: State, p: Player, q: Player, i: Info, j: Info)
    requires s.players == map[] && forall t <- s.teams :: s.teams[t] == Count(0, 0)
    requires p != q && i.team in s.teams && j.team in s.teams && i.team != j.team && i.robot && !j.robot
    ensures var u := Joined(Joined(s, p, i), q, j);
            && p in u.players && q in u.players && i.team in u.teams && j.team in u.teams
            && Exchanged(u, p, q).teams == u.teams
            && Drift(Exchanged(u, p, q), i.team) == 1 && Drift(Exchanged(u, p, q), j.team) == -1
  {
    var v := Joined(s, p, i);
    var u := Joined(v, q, j);
    assert p in u.players && q in u.players && u.players[p] == i && u.players[q] == j;
    forall t | t == i.team || t == j.team
      ensures t in u.teams && Drift(u, t) == 0
    {
      assert RobotsOn(s.players, t) == {};
      JoinedDrift(s, p, i, t);
      JoinedDrift(v, q, j, t);
    }
    hide Drift, Joined;
    ExchangedDrift(u, p, q, i.team);
    ExchangedDrift(u, p, q, j.team);
  }

  /** The operations of a table get there: a robot joins one team, a human the other, and they change places. */
  method Miscount() returns (t: Table, a: Team, b: Team)
    ensures t.Valid() && a in t.Now().teams && b in t.Now().teams
    ensures Drift(t.Now(), a) == 1 && Drift(t.Now(), b) == -1
  {
    var pause := new Team();
    a := new Team();
    b := new Team();
    var c := new Base(0, a);
    var d := new Base(1, b);
    t := new Table(2, [c, d], [pause, a, b]);
    Misplace(t, a, b, c, d);
  }

  method Misplace(t: Table, a: Team, b: Team, ghost c: Base, ghost d: Base)
    requires t.Valid() && t.numPlayers == 0 && t.players.Length == 2 && t.Now().players == map[]
    requires a in t.teams && b in t.teams && a != b && t.bases == [c, d] && c.team == a && d.team == b
    requires a in t.Now().teams && b in t.Now().teams && forall u <- t.Now().teams :: t.Now().teams[u] == Count(0, 0)
    modifies t, t.all, t.players, t.getInd, t.ids, t.ids.queue, t.ids.inUse, a, b
    ensures t.Valid() && a in t.Now().teams && b in t.Now().teams
    ensures Drift(t.Now(), a) == 1 && Drift(t.Now(), b) == -1
  {
    hide Table.Valid, Table.Now, Table.PlayersNow, Table.TeamsNow, Table.HasFree, Joined, Exchanged, Drift, Unowned,
         IdsOf, IdAllocator.Used, IdAllocator.FirstIds;
    ghost var s := t.Now();
    t.Seen();
    assert s.players.Keys == {};
    t.Room();
    FirstFree(s.players, t, c);
    var p, joining := t.Join(a, true, 0.0);
    t.Seen();
    ghost var i := Info(p.id, true, a, p.homeBase);
    OtherFree(s, p, i, t, d);
    t.Room();
    var q, joined := t.Join(b, false, 0.0);
    t.Seen();
    ghost var j := Info(q.id, false, b, q.homeBase);
    MiscountDrift(s, p, q, i, j);
    t.LiveAreAll();
    t.Exchange(p, q);
  }

  lemma FirstFree(ps: Listed, t: Table, c: Base)
    requires ps == map[] && c in t.bases
    ensures t.HasFree(ps, c.team)
  {
    assert Unowned(ps, c);
  }

  lemma OtherFree(s: State, p: Player, i: Info, t: Table, d: Base)
    requires s.players == map[] && d in t.bases && i.team in s.teams && i.home != null && i.home.team != d.team
    ensures t.HasFree(Joined(s, p, i).players, d.team) && Joined(s, p, i).players.Keys == {p}
  {
    assert Joined(s, p, i).players.Keys == {p};
    assert Unowned(Joined(s, p, i).players, d);
  }
}
