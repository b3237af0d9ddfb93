/** How the map gets from the tags of a map file to the bytes a client is sent: the numbering pass of
    src/server/map.cpp and Init_setup of src/server/netserver.cpp, which numbers bases and treasures
    once more on its own. */
module MapSetup {
  import opened Names
  import opened Sockbufs
  import RunLength

  const MAX_TEAMS: nat := 10

  const SETUP_SPACE: byte := 0
  const SETUP_FILLED: byte := 1
  const SETUP_FUEL: byte := 3
  const SETUP_REC_RU: byte := 4
  const SETUP_REC_RD: byte := 5
  const SETUP_REC_LU: byte := 6
  const SETUP_REC_LD: byte := 7
  const SETUP_TREASURE: byte := 20
  const SETUP_BASE_UP: byte := 30
  const SETUP_BASE_RIGHT: byte := 40
  const SETUP_BASE_DOWN: byte := 50
  const SETUP_BASE_LEFT: byte := 60

  datatype Block = Space | Base | Filled | RecLU | RecLD | RecRU | RecRD | Fuel | Treasure | BaseAttractor

  /** A map cell holds its tag until the numbering pass turns it into a block. */
  datatype Cell = Tag(tag: char) | Is(block: Block)

  type TeamNum = t: nat | t < MAX_TEAMS witness 0

  datatype Dir = Up | Right | Down | Left

  datatype BaseInfo = BaseInfo(x: nat, y: nat, team: Maybe<TeamNum>, dir: Dir)

  datatype TreasureInfo = TreasureInfo(x: nat, y: nat, team: Maybe<TeamNum>)

  /** The tags of a map, how teams are played on it, and the team next to each place. */
  datatype Chart = Chart(tags: seq<seq<char>>, w: nat, h: nat, teamPlay: bool, wrap: bool,
                         closest: (int, int) -> TeamNum) {
    ghost predicate Valid() {
      && |tags| == w && (forall x :: 0 <= x < w ==> |tags[x]| == h)
      // without team play the first pass has blanked all treasures
      && (!teamPlay ==> forall x, y :: 0 <= x < w && 0 <= y < h ==> tags[x][y] != '*')
    }

    /** A place in the column by column order, or just past a column. */
    predicate Place(x: int, y: int) {
      (0 <= x < w && 0 <= y <= h) || (x == w && y == 0)
    }

    function At(x: int, y: int): Block
      requires Valid() && 0 <= x < w && 0 <= y < h
    {
      BlockOf(tags[x][y])
    }

    /** The place one step off in some direction, around the edge if the map wraps. */
    function Towards(x: nat, y: nat, dir: Dir): Maybe<(nat, nat)>
      requires x < w && y < h
    {
      match dir
      case Up => if y + 1 < h then Just((x, y + 1)) else if wrap then Just((x, 0)) else Nothing
      case Down => if y > 0 then Just((x, y - 1)) else if wrap then Just((x, h - 1)) else Nothing
      case Right => if x + 1 < w then Just((x + 1, y)) else if wrap then Just((0, y)) else Nothing
      case Left => if x > 0 then Just((x - 1, y)) else if wrap then Just((w - 1, y)) else Nothing
    }

    predicate Attracts(x: nat, y: nat, dir: Dir)
      requires Valid() && x < w && y < h
    {
      var p := Towards(x, y, dir);
      p.Just? && At(p.value.0, p.value.1) == BaseAttractor
    }

    /** A base points to an attractor next to it: up, down, right and left are tried in turn. */
    function DirAt(x: nat, y: nat): Dir
      requires Valid() && x < w && y < h
    {
      if Attracts(x, y, Up) then Up
      else if Attracts(x, y, Down) then Down
      else if Attracts(x, y, Right) then Right
      else if Attracts(x, y, Left) then Left
      else Up
    }

    /** It points to an attractor whenever there is one, to none that comes later in that order than another, and up
        when there is none. */
    lemma DirIsFirst(x: nat, y: nat)
      requires Valid() && x < w && y < h
      ensures var dirs := [Up, Down, Right, Left];
              if exists k :: 0 <= k < 4 && Attracts(x, y, dirs[k]) then
                exists k :: 0 <= k < 4 && dirs[k] == DirAt(x, y) && Attracts(x, y, dirs[k])
                            && forall j :: 0 <= j < k ==> !Attracts(x, y, dirs[j])
              else DirAt(x, y) == Up
    {
      hide Attracts;
      var dirs := [Up, Down, Right, Left];
      if exists k :: 0 <= k < 4 && Attracts(x, y, dirs[k]) {
        var i := if Attracts(x, y, Up) then 0 else if Attracts(x, y, Down) then 1
                 else if Attracts(x, y, Right) then 2 else 3;
        assert 0 <= i < 4 && dirs[i] == DirAt(x, y) && Attracts(x, y, dirs[i])
               && forall j :: 0 <= j < i ==> !Attracts(x, y, dirs[j]);
      } else {
        assert !Attracts(x, y, dirs[0]) && !Attracts(x, y, dirs[1]);
        assert !Attracts(x, y, dirs[2]) && !Attracts(x, y, dirs[3]);
      }
    }

    /** The place the direction of a base leads to is next to it, around the edge if the map wraps. */
    lemma TowardsIsNext(x: nat, y: nat, dir: Dir)
      requires x < w && y < h
      ensures var p := Towards(x, y, dir);
              var dx := match dir case Right => 1 case Left => -1 case _ => 0;
              var dy := match dir case Up => 1 case Down => -1 case _ => 0;
              && (p.Just? <==> wrap || (0 <= x + dx < w && 0 <= y + dy < h))
              && (p.Just? ==> p.value == (Folded(x + dx, w), Folded(y + dy, h)))
    {
    }

    /** A direction attracts when the tag of an attractor is there. */
    lemma AttractsIsTag(x: nat, y: nat, dir: Dir)
      requires Valid() && x < w && y < h
      ensures var dx := match dir case Right => 1 case Left => -1 case _ => 0;
              var dy := match dir case Up => 1 case Down => -1 case _ => 0;
              Attracts(x, y, dir) <==>
                && (wrap || (0 <= x + dx < w && 0 <= y + dy < h))
                && tags[Folded(x + dx, w)][Folded(y + dy, h)] == '$'
    {
      TowardsIsNext(x, y, dir);
    }

    /** The byte for each tag of a map file, by the numbers of src/common/setup.h. */
    lemma TagCodes(x: nat, y: nat)
      requires Valid() && x < w && y < h
      ensures var tag, code := tags[x][y], CodeAt(x, y) as int;
              && (tag == 'x' ==> code == 1) && (tag == '#' ==> code == 3)
              && (tag == 'a' ==> code == 4) && (tag == 'q' ==> code == 5)
              && (tag == 's' ==> code == 6) && (tag == 'w' ==> code == 7)
              && (tag == '*' ==> code == 20 + closest(x, y))
              && ('0' <= tag <= '9' || tag == '_' ==>
                    && 30 <= code < 70
                    && (code - 30) % 10 == (if teamPlay && tag != '_' then (tag - '0') as int else 0)
                    && [Up, Right, Down, Left][(code - 30) / 10] == DirAt(x, y))
              && (tag !in {'x', '#', 'a', 'q', 's', 'w', '*', '_'} && !('0' <= tag <= '9') ==> code == 0)
    {
      hide DirAt;
    }

    function TeamAt(x: nat, y: nat): Maybe<TeamNum>
      requires Valid() && x < w && y < h
    {
      if teamPlay then Just(TeamOf(tags[x][y])) else Nothing
    }

    /** The byte for one place, told from its own tag and surroundings alone. */
    function CodeAt(x: nat, y: nat): byte
      requires Valid() && x < w && y < h
    {
      match At(x, y)
      case Space | BaseAttractor => SETUP_SPACE
      case Filled => SETUP_FILLED
      case Fuel => SETUP_FUEL
      case RecRU => SETUP_REC_RU
      case RecRD => SETUP_REC_RD
      case RecLU => SETUP_REC_LU
      case RecLD => SETUP_REC_LD
      case Treasure => SETUP_TREASURE + closest(x, y) as byte
      case Base => BaseCode(DirAt(x, y), TeamAt(x, y))
    }

    /** The codes of everything before (x, y): column by column, each from bottom to top. */
    function Codes(x: nat, y: nat): seq<byte>
      requires Valid() && Place(x, y)
      decreases x, y
    {
      if y > 0 then Codes(x, y - 1) + [CodeAt(x, y - 1)]
      else if x > 0 then Codes(x - 1, h)
      else []
    }

    /** Where the code of a place stands: the cells of the columns before it and those below it come first. */
    function Index(x: nat, y: nat): nat {
      x * h + y
    }

    /** How many blocks of a kind come before (x, y). */
    function Before(what: Block, x: nat, y: nat): nat
      requires Valid() && Place(x, y)
      decreases x, y
    {
      if y > 0 then Before(what, x, y - 1) + (if At(x, y - 1) == what then 1 else 0)
      else if x > 0 then Before(what, x - 1, h)
      else 0
    }
  }

  /** A cell of the map stands in the codes at the number of cells before it. */
  lemma {:induction false} CodeStandsAt(m: Chart, x: nat, y: nat, u: nat, v: nat)
    requires m.Valid() && m.Place(x, y) && u < m.w && v < m.h && Earlier(u, v, x, y)
    ensures m.Index(u, v) < |m.Codes(x, y)| && m.Codes(x, y)[m.Index(u, v)] == m.CodeAt(u, v)
    decreases x, y
  {
    hide Chart.CodeAt;
    CodesLength(m, x, y);
    if y == 0 {
      CodeStandsAt(m, x - 1, m.h, u, v);
    } else {
      CodesLength(m, x, y - 1);
      if (u, v) != (x, y - 1) {
        CodeStandsAt(m, x, y - 1, u, v);
      }
    }
  }

  lemma {:induction false} CodesLength(m: Chart, x: nat, y: nat)
    requires m.Valid() && m.Place(x, y)
    ensures |m.Codes(x, y)| == x * m.h + y
    decreases x, y
  {
    hide Chart.CodeAt;
    if y > 0 {
      CodesLength(m, x, y - 1);
    } else if x > 0 {
      CodesLength(m, x - 1, m.h);
      assert x * m.h == (x - 1) * m.h + m.h;
    }
  }

  /** The codes of the whole map: each of the w * h places has its own. */
  predicate CodesEach(m: Chart, d: seq<byte>)
    requires m.Valid()
  {
    && |d| == m.w * m.h
    && forall x: nat, y: nat :: x < m.w && y < m.h ==> m.Index(x, y) < |d| && d[m.Index(x, y)] == m.CodeAt(x, y)
  }

  lemma CodesOfAll(m: Chart)
    requires m.Valid()
    ensures CodesEach(m, m.Codes(m.w, 0))
  {
    hide Chart.Codes, Chart.CodeAt, Chart.Index;
    CodesLength(m, m.w, 0);
    forall x: nat, y: nat | x < m.w && y < m.h
      ensures m.Index(x, y) < m.w * m.h && m.Codes(m.w, 0)[m.Index(x, y)] == m.CodeAt(x, y)
    {
      CodeStandsAt(m, m.w, 0, x, y);
    }
  }

  predicate IsSite(m: Chart, what: Block, u: int, v: int)
    requires m.Valid()
  {
    0 <= u < m.w && 0 <= v < m.h && m.At(u, v) == what
  }

  /** The places of a kind before (x, y). */
  function Sites(m: Chart, what: Block, x: nat, y: nat): set<(int, int)>
    requires m.Valid() && m.Place(x, y)
  {
    set u, v | 0 <= u < m.w && 0 <= v < m.h && IsSite(m, what, u, v) && Earlier(u, v, x, y) :: (u, v)
  }

  lemma SitesUp(m: Chart, what: Block, x: nat, y: nat)
    requires m.Valid() && x < m.w && y < m.h
    ensures Sites(m, what, x, y + 1) == Sites(m, what, x, y) + (if IsSite(m, what, x, y) then {(x, y)} else {})
    ensures (x, y) !in Sites(m, what, x, y)
  {
    hide IsSite;
  }

  lemma SitesOver(m: Chart, what: Block, x: nat)
    requires m.Valid() && x < m.w
    ensures Sites(m, what, x + 1, 0) == Sites(m, what, x, m.h)
  {
    hide IsSite;
  }

  /** Each base, and each treasure, is numbered by how many there are before it. */
  lemma {:induction false} BeforeCounts(m: Chart, what: Block, x: nat, y: nat)
    requires m.Valid() && m.Place(x, y)
    ensures m.Before(what, x, y) == |Sites(m, what, x, y)|
    decreases x, y
  {
    hide Sites, BlockOf;
    if y > 0 {
      BeforeCounts(m, what, x, y - 1);
      SitesUp(m, what, x, y - 1);
    } else if x > 0 {
      BeforeCounts(m, what, x - 1, m.h);
      SitesOver(m, what, x - 1);
    } else {
      NoSites(m, what);
    }
  }

  lemma NoSites(m: Chart, what: Block)
    requires m.Valid()
    ensures Sites(m, what, 0, 0) == {}
  {
  }

  /** A place one step off at most, folded over the edge. */
  function Folded(v: int, size: nat): int {
    if v == size then 0 else if v == -1 then size - 1 else v
  }

  function BaseCode(dir: Dir, team: Maybe<TeamNum>): byte {
    var t := if team.Just? then team.value as byte else 0;
    match dir
    case Up => SETUP_BASE_UP + t
    case Right => SETUP_BASE_RIGHT + t
    case Down => SETUP_BASE_DOWN + t
    case Left => SETUP_BASE_LEFT + t
  }

  predicate IsBaseTag(c: char) {
    c == '_' || '0' <= c <= '9'
  }

  function BlockOf(c: char): Block {
    if IsBaseTag(c) then Base
    else match c
      case 'x' => Filled
      case 's' => RecLU
      case 'a' => RecRU
      case 'w' => RecLD
      case 'q' => RecRD
      case '#' => Fuel
      case '*' => Treasure
      case '$' => BaseAttractor
      case _ => Space
  }

  function TeamOf(c: char): TeamNum {
    if '0' <= c <= '9' then (c - '0') as int else 0
  }

  predicate Earlier(u: int, v: int, x: int, y: int) {
    u < x || (u == x && v < y)
  }

  lemma CodeIsPlain(m: Chart, x: nat, y: nat)
    requires m.Valid() && x < m.w && y < m.h
    ensures m.CodeAt(x, y) < RunLength.SETUP_COMPRESSED
  {
    hide Chart.DirAt, Chart.TeamAt;
  }

  /** Every code leaves the high bit to the run-length coder. */
  lemma {:induction false} CodesArePlain(m: Chart, x: nat, y: nat)
    requires m.Valid() && m.Place(x, y)
    ensures RunLength.Plain(m.Codes(x, y))
    decreases x, y
  {
    hide Chart.CodeAt;
    if y > 0 {
      CodeIsPlain(m, x, y - 1);
      CodesArePlain(m, x, y - 1);
    } else if x > 0 {
      CodesArePlain(m, x - 1, m.h);
    }
  }

  lemma IndexBound(x: nat, y: nat, w: nat, h: nat)
    requires x < w && y < h
    ensures x * h + y < w * h
  {
    var d := w - x - 1;
    assert w * h == (x + 1 + d) * h == x * h + h + d * h;
    NatProduct(d, h);
  }

  lemma NatProduct(a: nat, b: nat)
    ensures a * b >= 0
  {
  }

  class World {
    const m: Chart
    const block: array2<Cell>
    const itemID: array2<int>
    var bases: seq<BaseInfo>
    var treasures: seq<TreasureInfo>

    ghost predicate Valid()
      reads this
    {
      && m.Valid()
      && block.Length0 == itemID.Length0 == m.w && block.Length1 == itemID.Length1 == m.h
    }

    ghost predicate BlocksDone(x: nat, y: nat)
      requires Valid() && m.Place(x, y)
      reads this, block
    {
      forall u, v :: 0 <= u < m.w && 0 <= v < m.h && Earlier(u, v, x, y) ==> block[u, v] == Is(m.At(u, v))
    }

    ghost predicate BasesDone(x: nat, y: nat)
      requires Valid() && m.Place(x, y)
      reads this, itemID
    {
      && |bases| == m.Before(Base, x, y)
      && (forall b <- bases :: b.x < m.w && b.y < m.h)
      && (forall u: nat, v: nat :: u < m.w && v < m.h && Earlier(u, v, x, y) && m.At(u, v) == Base ==>
            && m.Before(Base, u, v) < |bases|
            && itemID[u, v] == m.Before(Base, u, v)
            && bases[m.Before(Base, u, v)] == BaseInfo(u, v, m.TeamAt(u, v), Up))
    }

    ghost predicate TreasuresDone(x: nat, y: nat)
      requires Valid() && m.Place(x, y)
      reads this, itemID
    {
      && |treasures| == m.Before(Treasure, x, y)
      && (forall u: nat, v: nat :: u < m.w && v < m.h && Earlier(u, v, x, y) && m.At(u, v) == Treasure ==>
            && m.Before(Treasure, u, v) < |treasures|
            && itemID[u, v] == m.Before(Treasure, u, v)
            && treasures[m.Before(Treasure, u, v)] == TreasureInfo(u, v, Nothing))
    }

    /** The cells before (x, y) have become blocks, and each base and treasure among them stands in
        its list at the number of its kind before it. */
    ghost predicate Parsed(x: nat, y: nat)
      requires Valid() && m.Place(x, y)
      reads this, block, itemID
    {
      BlocksDone(x, y) && BasesDone(x, y) && TreasuresDone(x, y)
    }

    constructor (m: Chart)
      requires m.Valid()
      ensures Valid() && this.m == m && fresh(block) && fresh(itemID)
      ensures forall x, y :: 0 <= x < m.w && 0 <= y < m.h ==> block[x, y] == Tag(m.tags[x][y])
    {
      this.m := m;
      block := new Cell[m.w, m.h]((x, y) requires 0 <= x < m.w && 0 <= y < m.h => Tag(m.tags[x][y]));
      itemID := new int[m.w, m.h]((_, _) => -1);
      bases, treasures := [], [];
    }

    method ParseCell(x: nat, y: nat)
      requires Valid() && x < m.w && y < m.h && Parsed(x, y) && block[x, y] == Tag(m.tags[x][y])
      modifies this, block, itemID
      ensures Valid() && Parsed(x, y + 1)
      ensures forall u, v :: 0 <= u < m.w && 0 <= v < m.h && (u, v) != (x, y) ==> block[u, v] == old(block[u, v])
    {
      hide Chart.Before, BasesDone, TreasuresDone, TeamOf;
      var c := block[x, y].tag;
      var kind := BlockOf(c);
      block[x, y] := Is(kind);
      AddBase(x, y, c);
      AddTreasure(x, y, c);
    }

    method AddBase(x: nat, y: nat, c: char)
      requires Valid() && x < m.w && y < m.h && c == m.tags[x][y] && BasesDone(x, y) && TreasuresDone(x, y)
      modifies this`bases, itemID
      ensures BasesDone(x, y + 1) && TreasuresDone(x, y)
    {
      hide TeamOf, BlockOf;
      if BlockOf(c) == Base {
        itemID[x, y] := |bases|;
        bases := bases + [BaseInfo(x, y, if m.teamPlay then Just(TeamOf(c)) else Nothing, Up)];
      }
    }

    method AddTreasure(x: nat, y: nat, c: char)
      requires Valid() && x < m.w && y < m.h && c == m.tags[x][y] && BasesDone(x, y + 1) && TreasuresDone(x, y)
      modifies this`treasures, itemID
      ensures BasesDone(x, y + 1) && TreasuresDone(x, y + 1)
    {
      hide TeamOf, BlockOf;
      if BlockOf(c) == Treasure {
        itemID[x, y] := |treasures|;
        treasures := treasures + [TreasureInfo(x, y, Nothing)];
      }
    }

    method Parse()
      requires Valid()
      requires forall x, y :: 0 <= x < m.w && 0 <= y < m.h ==> block[x, y] == Tag(m.tags[x][y])
      modifies this, block, itemID
      ensures Valid() && Parsed(m.w, 0)
    {
      bases, treasures := [], [];
      NothingParsed();
      hide Parsed;
      var x := 0;
      while x < m.w
        invariant 0 <= x <= m.w && Valid() && Parsed(x, 0)
        invariant forall u, v :: x <= u < m.w && 0 <= v < m.h ==> block[u, v] == Tag(m.tags[u][v])
      {
        var y := 0;
        while y < m.h
          invariant 0 <= y <= m.h && Valid() && Parsed(x, y)
          invariant forall u, v :: 0 <= u < m.w && 0 <= v < m.h && !Earlier(u, v, x, y) ==>
                      block[u, v] == Tag(m.tags[u][v])
        {
          ParseCell(x, y);
          y := y + 1;
        }
        ColumnParsed(x);
        x := x + 1;
      }
    }

    lemma NothingParsed()
      requires Valid() && bases == [] && treasures == []
      ensures Parsed(0, 0)
    {
    }

    lemma ColumnParsed(x: nat)
      requires Valid() && x < m.w && Parsed(x, m.h)
      ensures Parsed(x + 1, 0)
    {
    }

    /** World.block[..] == BASE_ATTRACTOR one step off, the edges taken one by one as the source does. */
    method Adjacent(x: nat, y: nat, dir: Dir) returns (found: bool)
      requires Valid() && x < m.w && y < m.h
      requires forall u, v :: 0 <= u < m.w && 0 <= v < m.h ==> block[u, v] == Is(m.At(u, v))
      ensures found == m.Attracts(x, y, dir)
    {
      match dir
      case Up =>
        found := (y == m.h - 1 && block[x, 0].block == BaseAttractor && m.wrap)
                 || (y < m.h - 1 && block[x, y + 1].block == BaseAttractor);
      case Down =>
        found := (y == 0 && block[x, m.h - 1].block == BaseAttractor && m.wrap)
                 || (y > 0 && block[x, y - 1].block == BaseAttractor);
      case Right =>
        found := (x == m.w - 1 && block[0, y].block == BaseAttractor && m.wrap)
                 || (x < m.w - 1 && block[x + 1, y].block == BaseAttractor);
      case Left =>
        found := (x == 0 && block[m.w - 1, y].block == BaseAttractor && m.wrap)
                 || (x > 0 && block[x - 1, y].block == BaseAttractor);
    }

    /** Everything is parsed, directions may be set, attractors may be gone. */
    ghost predicate Settled()
      requires Valid()
      reads this, block, itemID
    {
      && |bases| == m.Before(Base, m.w, 0) && |treasures| == m.Before(Treasure, m.w, 0)
      && (forall u: nat, v: nat :: u < m.w && v < m.h ==>
            block[u, v] == Is(if m.At(u, v) == BaseAttractor then Space else m.At(u, v)))
      && (forall u: nat, v: nat :: u < m.w && v < m.h && m.At(u, v) == Base ==>
            && m.Before(Base, u, v) < |bases|
            && itemID[u, v] == m.Before(Base, u, v)
            && bases[m.Before(Base, u, v)] == BaseInfo(u, v, m.TeamAt(u, v), m.DirAt(u, v)))
      && (forall u: nat, v: nat :: u < m.w && v < m.h && m.At(u, v) == Treasure ==>
            && m.Before(Treasure, u, v) < |treasures|
            && itemID[u, v] == m.Before(Treasure, u, v)
            && treasures[m.Before(Treasure, u, v)] == TreasureInfo(u, v, Just(m.closest(u, v))))
    }

    method BaseDirection(x: nat, y: nat) returns (dir: Dir)
      requires Valid() && x < m.w && y < m.h
      requires forall u, v :: 0 <= u < m.w && 0 <= v < m.h ==> block[u, v] == Is(m.At(u, v))
      ensures dir == m.DirAt(x, y)
    {
      hide Chart.Attracts;
      var att: Maybe<Dir> := Nothing;
      dir := Up;
      var up := Adjacent(x, y, Up);
      if up && (att == Nothing || dir == Up) { att := Just(Up); }
      var down := Adjacent(x, y, Down);
      if down && (att == Nothing || dir == Down) { att := Just(Down); }
      var right := Adjacent(x, y, Right);
      if right && (att == Nothing || dir == Right) { att := Just(Right); }
      var left := Adjacent(x, y, Left);
      if left && (att == Nothing || dir == Left) { att := Just(Left); }
      if att.Just? {
        dir := att.value;
      }
    }

    method SetTreasureTeams()
      requires Valid()
      modifies this`treasures
      ensures |treasures| == |old(treasures)|
      ensures m.teamPlay ==> forall k :: 0 <= k < |treasures| ==>
                treasures[k] == old(treasures)[k].(team := Just(m.closest(old(treasures)[k].x, old(treasures)[k].y)))
    {
      if m.teamPlay {
        var i := 0;
        while i < |treasures|
          invariant 0 <= i <= |treasures| == |old(treasures)|
          invariant forall k :: 0 <= k < |treasures| ==>
                      treasures[k] == if k < i
                                      then old(treasures)[k].(team :=
                                             Just(m.closest(old(treasures)[k].x, old(treasures)[k].y)))
                                      else old(treasures)[k]
        {
          var t := treasures[i];
          treasures := treasures[i := t.(team := Just(m.closest(t.x, t.y)))];
          i := i + 1;
        }
      }
    }

    method SetDirections()
      requires Valid()
      requires forall u, v :: 0 <= u < m.w && 0 <= v < m.h ==> block[u, v] == Is(m.At(u, v))
      requires forall b <- bases :: b.x < m.w && b.y < m.h
      modifies this`bases
      ensures |bases| == |old(bases)|
      ensures forall k :: 0 <= k < |bases| ==>
                old(bases)[k].x < m.w && old(bases)[k].y < m.h
                && bases[k] == old(bases)[k].(dir := m.DirAt(old(bases)[k].x, old(bases)[k].y))
    {
      hide Chart.DirAt;
      var i := 0;
      while i < |bases|
        invariant 0 <= i <= |bases| == |old(bases)|
        invariant forall k :: 0 <= k < |bases| ==>
                    && old(bases)[k].x < m.w && old(bases)[k].y < m.h
                    && bases[k] == if k < i then old(bases)[k].(dir := m.DirAt(old(bases)[k].x, old(bases)[k].y))
                                   else old(bases)[k]
      {
        var b := bases[i];
        var dir := BaseDirection(b.x, b.y);
        bases := bases[i := b.(dir := dir)];
        i := i + 1;
      }
    }

    method ClearAttractors()
      requires Valid()
      modifies block
      ensures forall u, v :: 0 <= u < m.w && 0 <= v < m.h ==>
                block[u, v] == if old(block[u, v]) == Is(BaseAttractor) then Is(Space) else old(block[u, v])
    {
      var i := 0;
      while i < m.w
        invariant 0 <= i <= m.w
        invariant forall u, v :: 0 <= u < m.w && 0 <= v < m.h ==>
                    block[u, v] == if u < i && old(block[u, v]) == Is(BaseAttractor) then Is(Space)
                                   else old(block[u, v])
      {
        var j := 0;
        while j < m.h
          invariant 0 <= j <= m.h
          invariant forall u, v :: 0 <= u < m.w && 0 <= v < m.h ==>
                      block[u, v] == if Earlier(u, v, i, j) && old(block[u, v]) == Is(BaseAttractor) then Is(Space)
                                     else old(block[u, v])
        {
          if block[i, j] == Is(BaseAttractor) {
            block[i, j] := Is(Space);
          }
          j := j + 1;
        }
        i := i + 1;
      }
    }

    /** Treasures get the team next to them, bases the direction of an attractor next to them, and
        the attractors are cleared away. */
    method Settle()
      requires Valid() && Parsed(m.w, 0)
      modifies this, block
      ensures Valid() && Settled()
    {
      hide Chart.Before, Chart.DirAt;
      SetTreasureTeams();
      SetDirections();
      ClearAttractors();
    }

    /** The code of one cell, with the running numbers of treasures and bases. */
    method EncodeCell(x: nat, y: nat, treasure: nat, base: nat) returns (code: byte, treasure': nat, base': nat)
      requires Valid() && Settled() && x < m.w && y < m.h
      requires treasure == m.Before(Treasure, x, y) && base == m.Before(Base, x, y)
      ensures code == m.CodeAt(x, y)
      ensures treasure' == m.Before(Treasure, x, y + 1) && base' == m.Before(Base, x, y + 1)
    {
      treasure', base' := treasure, base;
      match block[x, y].block
      case Space => code := SETUP_SPACE;
      case Filled => code := SETUP_FILLED;
      case RecRU => code := SETUP_REC_RU;
      case RecRD => code := SETUP_REC_RD;
      case RecLU => code := SETUP_REC_LU;
      case RecLD => code := SETUP_REC_LD;
      case Fuel => code := SETUP_FUEL;
      case Treasure =>
        code := SETUP_TREASURE + treasures[treasure].team.value as byte;
        treasure' := treasure + 1;
      case Base =>
        code := BaseCode(bases[base].dir, bases[base].team);
        base' := base + 1;
    }

    /** Init_setup: whatever the map, the byte for each place tells that very place. */
    method InitSetup() returns (mapdata: array<byte>)
      requires Valid() && Settled()
      ensures fresh(mapdata) && mapdata.Length == m.w * m.h && mapdata[..] == m.Codes(m.w, 0)
    {
      hide Settled, Chart.CodeAt, Chart.Before;
      mapdata := new byte[m.w * m.h](_ => SETUP_SPACE);
      var x, treasure, base, mapptr := 0, 0, 0, 0;
      NoneBefore();
      while x < m.w
        invariant 0 <= x <= m.w
        invariant treasure == m.Before(Treasure, x, 0) && base == m.Before(Base, x, 0)
        invariant mapptr == x * m.h <= mapdata.Length && mapdata[..mapptr] == m.Codes(x, 0)
      {
        var y := 0;
        while y < m.h
          invariant 0 <= y <= m.h
          invariant treasure == m.Before(Treasure, x, y) && base == m.Before(Base, x, y)
          invariant mapptr == x * m.h + y <= mapdata.Length && mapdata[..mapptr] == m.Codes(x, y)
        {
          IndexBound(x, y, m.w, m.h);
          var code;
          code, treasure, base := EncodeCell(x, y, treasure, base);
          mapdata[mapptr] := code;
          mapptr := mapptr + 1;
          y := y + 1;
        }
        NextColumn(x);
        x := x + 1;
      }
    }

    lemma NoneBefore()
      requires Valid()
      ensures m.Before(Treasure, 0, 0) == 0 && m.Before(Base, 0, 0) == 0
    {
    }

    lemma NextColumn(x: nat)
      requires Valid() && x < m.w
      ensures m.Before(Treasure, x + 1, 0) == m.Before(Treasure, x, m.h)
      ensures m.Before(Base, x + 1, 0) == m.Before(Base, x, m.h)
      ensures m.Codes(x + 1, 0) == m.Codes(x, m.h)
      ensures (x + 1) * m.h == x * m.h + m.h
    {
    }
  }

  /** From tags to the packed bytes a client gets: unpacking them gives, for every place in turn, the
      code its own tag asks for. */
  method MapForClient(m: Chart) returns (packed: seq<byte>)
    requires m.Valid()
    ensures CodesEach(m, RunLength.Unpack(packed))
    ensures |packed| <= m.w * m.h
  {
    hide World.Parsed, World.Settled, Chart.Codes, CodesEach;
    var world := new World(m);
    world.Parse();
    world.Settle();
    var mapdata := world.InitSetup();
    CodesArePlain(m, m.w, 0);
    assert mapdata[..mapdata.Length] == mapdata[..];
    var size := RunLength.PackAndUnpack(mapdata, mapdata.Length);
    packed := mapdata[..size];
    CodesOfAll(m);
  }
}
