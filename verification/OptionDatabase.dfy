/** The option database of src/server/option.cpp: a hash table from names, in either case, to values that remember
    where they came from. */
module OptionDatabase {
  import opened Names

  const HASH_SIZE: nat := 317
  const WORD: nat := 0x1_0000_0000

  // ---- names and their hash values

  function Xor(a: nat, b: nat): (r: nat)
    requires a < WORD && b < WORD
    ensures r < WORD
  {
    ((a as bv32) ^ (b as bv32)) as int
  }

  function Mixed(h: nat, c: Byte, i: nat): (r: nat)
    ensures r < WORD
  {
    Xor((h * 8 + c) % WORD, i % WORD)
  }

  function Reduced(h: nat): (r: nat)
    ensures r <= HASH_SIZE
    decreases h
  {
    if h > HASH_SIZE then Reduced(h % HASH_SIZE + h / HASH_SIZE) else h
  }

  /** The hash value after the first n characters. */
  function HashOf(name: Name, n: nat): (h: nat)
    requires n <= |name|
    ensures h <= HASH_SIZE
  {
    if n == 0 then 0 else Reduced(Mixed(HashOf(name, n - 1), Upper(name[n - 1]), n - 1))
  }

  function Hash(name: Name): (h: nat)
    ensures h < HASH_SIZE
  {
    HashOf(name, |name|) % HASH_SIZE
  }

  /** What is added up to fit the table keeps its remainder by 316, and only 0 gives 0. */
  lemma {:induction false} ReducedIs(h: nat) returns (k: nat)
    ensures h == (HASH_SIZE - 1) * k + Reduced(h)
    ensures (h <= HASH_SIZE ==> k == 0) && (h > 0 ==> Reduced(h) > 0)
    decreases h
  {
    k := 0;
    if h > HASH_SIZE {
      k := ReducedIs(h % HASH_SIZE + h / HASH_SIZE);
      k := k + h / HASH_SIZE;
    }
  }

  lemma Bits()
    ensures Xor(65, 0) == 65 && Xor(586, 1) == 587 && Xor(2235, 2) == 2233
  {
    assert (65 as bv32) ^ (0 as bv32) == 65;
    assert (586 as bv32) ^ (1 as bv32) == 587;
    assert (2235 as bv32) ^ (2 as bv32) == 2233;
  }

  /** The chain of "abc", worked out by hand. */
  lemma HashOfAbc()
    ensures Hash([0x61, 0x62, 0x63]) == 21
  {
    hide Xor;
    Bits();
    var name: Name := [0x61, 0x62, 0x63];
    assert HashOf(name, 0) == 0;
    assert HashOf(name, 1) == Reduced(65) == 65;
    assert HashOf(name, 2) == Reduced(587) == Reduced(271) == 271;
    assert HashOf(name, 3) == Reduced(2233) == Reduced(21) == 21;
  }

  /** Option_hash_string */
  method HashString(name: Name) returns (ix: nat)
    ensures ix == Hash(name)
  {
    hide Mixed;
    var h: nat, i := 0, 0;
    while i < |name|
      invariant 0 <= i <= |name| && h == HashOf(name, i)
    {
      var c := name[i];
      if 0x61 <= c <= 0x7A {
        c := c - 0x20;
      }
      h := Mixed(h, c, i);
      while h > HASH_SIZE
        invariant Reduced(h) == HashOf(name, i + 1)
        decreases h
      {
        h := h % HASH_SIZE + h / HASH_SIZE;
      }
      i := i + 1;
    }
    return h % HASH_SIZE;
  }

  lemma {:induction false} SameHashOf(a: Name, b: Name, n: nat)
    requires Fold(a) == Fold(b) && n <= |a| == |b|
    ensures HashOf(a, n) == HashOf(b, n)
  {
    hide Mixed, Reduced;
    if n > 0 {
      assert Fold(a)[n - 1] == Fold(b)[n - 1];
      SameHashOf(a, b, n - 1);
    }
  }

  /** Names that differ only in case are looked for on the same chain. */
  lemma SameHash(a: Name, b: Name)
    requires Fold(a) == Fold(b)
    ensures Hash(a) == Hash(b)
  {
    assert |a| == |Fold(a)| == |b|;
    SameHashOf(a, b, |a|);
  }

  // ---- precedence

  datatype Origin = Init | Map | Defaults | Command | Password

  /** What a value cell holds, and what is written to it. */
  datatype Cell = Cell(value: Maybe<string>, override: bool, origin: Origin)

  function Rank(c: Cell): nat {
    match c.origin
    case Init => 0
    case Defaults => if c.override then 4 else 1
    case Map => if c.override then 3 else 2
    case Password => if c.override then 6 else 5
    case Command => 7
  }

  /** Of two writes that rank alike, the first stays if it overrides, except on the command line. */
  predicate Sticky(c: Cell) {
    c.override && c.origin != Command
  }

  /** The tests of Option_change_node */
  function Allows(c: Cell, w: Cell): bool {
    match w.origin
    case Command => true
    case Defaults => (
      match c.origin
      case Command => false
      case Defaults => !c.override
      case Map => w.override
      case Password => false
      case Init => true)
    case Map => (
      match c.origin
      case Command => false
      case Defaults => !c.override
      case Map => !c.override
      case Password => false
      case Init => true)
    case Password => (
      match c.origin
      case Command => false
      case Defaults => true
      case Map => true
      case Password => !c.override
      case Init => true)
    case Init => false
  }

  /** A write succeeds just when it outranks what is there, or equals it in rank and that is not sticky. */
  lemma AllowsIsRank(c: Cell, w: Cell)
    requires w.origin != Init
    ensures Allows(c, w) <==> Rank(c) < Rank(w) || (Rank(c) == Rank(w) && !Sticky(c))
  {
  }

  function After(c: Cell, w: Cell): Cell {
    if Allows(c, w) then w else c
  }

  function Run(c: Cell, ws: seq<Cell>): Cell {
    if ws == [] then c else After(Run(c, ws[..|ws| - 1]), ws[|ws| - 1])
  }

  /** Number i of the writes, or the first value if i is -1. */
  function Nth(c: Cell, ws: seq<Cell>, i: int): Cell
    requires -1 <= i < |ws|
  {
    if i == -1 then c else ws[i]
  }

  /** Write number i has the highest rank; of those that share it, it is the first if sticky and else the last. */
  ghost predicate Wins(c: Cell, ws: seq<Cell>, i: int) {
    && -1 <= i < |ws|
    && forall j {:trigger Nth(c, ws, j)} :: -1 <= j < |ws| ==>
         && Rank(Nth(c, ws, j)) <= Rank(Nth(c, ws, i))
         && (Rank(Nth(c, ws, j)) == Rank(Nth(c, ws, i)) ==> if Sticky(Nth(c, ws, i)) then i <= j else j <= i)
  }

  ghost predicate Writable(ws: seq<Cell>) {
    forall w <- ws :: w.origin != Init
  }

  /** Rank says all but the override of a command line option. */
  lemma RankTells(a: Cell, b: Cell)
    requires Rank(a) == Rank(b)
    ensures a.origin == b.origin && (a.origin != Init && a.origin != Command ==> a.override == b.override)
    ensures a.origin != Init ==> Sticky(a) == Sticky(b)
  {
  }

  /** Whatever is written, in whatever order, what a cell holds is the winner of all writes. */
  lemma {:induction false} RunWins(c: Cell, ws: seq<Cell>) returns (i: int)
    requires Writable(ws)
    ensures Wins(c, ws, i) && Run(c, ws) == Nth(c, ws, i)
    decreases |ws|
  {
    if ws == [] {
      i := -1;
    } else {
      var n := |ws| - 1;
      var vs, w := ws[..n], ws[n];
      i := RunWins(c, vs);
      hide Rank, Sticky, Allows;
      AllowsIsRank(Run(c, vs), w);
      forall j | -1 <= j < n
        ensures Nth(c, ws, j) == Nth(c, vs, j)
      {
      }
      assert Nth(c, ws, n) == w;
      if Allows(Run(c, vs), w) {
        if Rank(Run(c, vs)) == Rank(w) {
          RankTells(Run(c, vs), w);
        }
        i := n;
      }
    }
  }

  lemma RunIsWinner(c: Cell, ws: seq<Cell>)
    requires Writable(ws)
    ensures exists i :: Wins(c, ws, i) && Run(c, ws) == Nth(c, ws, i)
  {
    var i := RunWins(c, ws);
  }

  lemma WinnerIsOne(c: Cell, ws: seq<Cell>, i: int, j: int)
    requires Writable(ws) && Wins(c, ws, i) && Wins(c, ws, j)
    ensures i == j
  {
    var a, b := Nth(c, ws, i), Nth(c, ws, j);
    assert Rank(a) == Rank(b);
    RankTells(a, b);
  }

  /** Origin and override of the outcome do not depend on the order of the writes. */
  lemma OrderIsNoMatter(c: Cell, ws: seq<Cell>, vs: seq<Cell>)
    requires Writable(ws) && multiset(ws) == multiset(vs)
    ensures Rank(Run(c, ws)) == Rank(Run(c, vs)) && Run(c, ws).origin == Run(c, vs).origin
  {
    assert forall w :: w in ws <==> w in multiset(ws);
    assert forall w :: w in vs <==> w in multiset(vs);
    RankIsBound(c, ws, vs);
    RankIsBound(c, vs, ws);
    RankTells(Run(c, ws), Run(c, vs));
  }

  lemma RankIsBound(c: Cell, ws: seq<Cell>, vs: seq<Cell>)
    requires Writable(ws) && Writable(vs) && forall w :: w in vs ==> w in ws
    ensures Rank(Run(c, vs)) <= Rank(Run(c, ws))
  {
    var i := RunWins(c, ws);
    var j := RunWins(c, vs);
    if j >= 0 {
      assert vs[j] in vs && vs[j] in ws;
      var k :| 0 <= k < |ws| && ws[k] == vs[j];
      assert Nth(c, ws, k) == Nth(c, vs, j);
    } else {
      assert Nth(c, ws, -1) == Nth(c, vs, -1);
    }
  }

  // ---- the table

  datatype Desc = Desc(name: Name, commandLineOption: Name, defaultValue: Maybe<string>, flags: set<Origin>)

  class HashValue {
    var cell: Cell
    const desc: Maybe<Desc>
    ghost const first: Cell
    ghost var writes: seq<Cell>

    constructor (cell: Cell, desc: Maybe<Desc>)
      ensures this.cell == cell && this.desc == desc && first == cell && writes == [] && Valid()
    {
      this.cell, this.desc, first, writes := cell, desc, cell, [];
    }

    /** The cell is what the permitted writes, in their order, have left. */
    ghost predicate Valid()
      reads this
    {
      Writable(writes) && cell == Run(first, writes)
    }

    predicate Permits(origin: Origin) {
      desc.Just? ==> origin in desc.value.flags
    }

    /** Option_change_node */
    method Change(w: Cell)
      requires Valid() && w.origin != Init
      modifies this
      ensures Valid() && writes == (if Permits(w.origin) then old(writes) + [w] else old(writes))
      ensures Permits(w.origin) ==> cell == After(old(cell), w)
    {
      if desc.Just? && w.origin !in desc.value.flags {
        return;
      }
      if Allows(cell, w) {
        cell := w;
      }
      writes := writes + [w];
      assert writes[..|writes| - 1] == old(writes);
    }
  }

  class HashNode {
    const name: Name
    const value: HashValue
    var next: HashNode?

    constructor (name: Name, value: HashValue)
      ensures this.name == name && this.value == value && next == null
    {
      this.name, this.value, next := name, value, null;
    }
  }

  ghost function At(chain: seq<HashNode>, k: int): HashNode?
    requires 0 <= k <= |chain|
  {
    if k < |chain| then chain[k] else null
  }

  /** The nodes of a chain, from its head. */
  ghost predicate Linked(chain: seq<HashNode>, head: HashNode?)
    reads chain`next
  {
    head == At(chain, 0) && forall k :: 0 <= k < |chain| ==> chain[k].next == At(chain, k + 1)
  }

  type Index = map<Name, HashNode>

  /** Every node of a chain has its hash value, and is the one its folded name stands for. */
  ghost predicate Placed(ix: nat, chain: seq<HashNode>, nodeOf: Index) {
    forall n <- chain :: Hash(n.name) == ix && Fold(n.name) in nodeOf && nodeOf[Fold(n.name)] == n
  }

  ghost predicate Indexed(chains: seq<seq<HashNode>>, nodeOf: Index)
    requires |chains| == HASH_SIZE
  {
    forall f <- nodeOf :: Fold(nodeOf[f].name) == f && nodeOf[f] in chains[Hash(nodeOf[f].name)]
  }

  method Search(head: HashNode?, name: Name, ghost chain: seq<HashNode>) returns (np: HashNode?)
    requires Linked(chain, head)
    ensures np == null ==> forall n <- chain :: Fold(n.name) != Fold(name)
    ensures np != null ==> np in chain && Fold(np.name) == Fold(name)
  {
    hide Fold;
    np := head;
    ghost var k := 0;
    while np != null
      invariant 0 <= k <= |chain| && np == At(chain, k)
      invariant forall j :: 0 <= j < k ==> Fold(chain[j].name) != Fold(name)
      decreases |chain| - k
    {
      if Fold(name) == Fold(np.name) {
        return;
      }
      np := np.next;
      k := k + 1;
    }
  }

  class Database {
    const heads: array<HashNode?>
    ghost var chains: seq<seq<HashNode>>
    ghost var nodes: set<HashNode>
    ghost var nodeOf: Index

    ghost predicate Chained()
      reads this`chains, this`nodes, heads, nodes`next
    {
      && heads.Length == |chains| == HASH_SIZE
      && forall ix :: 0 <= ix < HASH_SIZE ==> (forall n <- chains[ix] :: n in nodes) && Linked(chains[ix], heads[ix])
    }

    ghost predicate Valid()
      reads this, heads, nodes`next
    {
      && Chained() && Indexed(chains, nodeOf)
      && forall ix :: 0 <= ix < HASH_SIZE ==> Placed(ix, chains[ix], nodeOf)
    }

    constructor ()
      ensures Valid() && nodeOf == map[] && nodes == {} && fresh(heads)
    {
      heads := new HashNode?[HASH_SIZE](_ => null);
      chains := seq(HASH_SIZE, _ => []);
      nodes, nodeOf := {}, map[];
    }

    /** Get_hash_node_by_name */
    method Lookup(name: Name) returns (np: HashNode?)
      requires Valid()
      ensures np == if Fold(name) in nodeOf then nodeOf[Fold(name)] else null
    {
      hide Fold, Hash, Linked;
      var ix := HashString(name);
      assert Linked(chains[ix], heads[ix]) && Placed(ix, chains[ix], nodeOf);
      np := Search(heads[ix], name, chains[ix]);
      if Fold(name) in nodeOf {
        SameHash(name, nodeOf[Fold(name)].name);
      }
    }

    lemma PushedPlaces(ix: nat, node: HashNode)
      requires |chains| == HASH_SIZE && ix == Hash(node.name) && Fold(node.name) !in nodeOf && Indexed(chains, nodeOf)
      requires forall i :: 0 <= i < HASH_SIZE ==> Placed(i, chains[i], nodeOf)
      ensures var c, m := chains[ix := [node] + chains[ix]], nodeOf[Fold(node.name) := node];
              Indexed(c, m) && forall i :: 0 <= i < HASH_SIZE ==> Placed(i, c[i], m)
    {
      hide Fold, Hash;
    }

    /** A node becomes the first of its chain. */
    method Push(node: HashNode)
      requires Valid() && Fold(node.name) !in nodeOf && node !in nodes
      modifies this, heads, node`next
      ensures Valid() && nodes == old(nodes) + {node} && nodeOf == old(nodeOf)[Fold(node.name) := node]
    {
      hide Fold, Hash, Indexed, Placed;
      var ix := HashString(node.name);
      PushedPlaces(ix, node);
      node.next := heads[ix];
      heads[ix] := node;
      chains := chains[ix := [node] + chains[ix]];
      nodes := nodes + {node};
      nodeOf := nodeOf[Fold(node.name) := node];
    }

    ghost function Values(): set<HashValue>
      reads this`nodeOf
    {
      set f | f in nodeOf :: nodeOf[f].value
    }

    /** Every value cell is what its writes have left. */
    ghost predicate Settled()
      reads this`nodeOf, Values()
    {
      forall v <- Values() :: v.Valid()
    }

    /** Option_set_value: a name that is not known is added, unless there is no value. */
    method SetValue(name: Name, value: Maybe<string>, override: bool, origin: Origin)
      requires Valid() && Settled() && origin != Init
      modifies this, heads, Values()
      ensures Valid() && Settled()
      ensures Fold(name) in old(nodeOf) ==> nodeOf == old(nodeOf)
      ensures Fold(name) in old(nodeOf) ==> var v := nodeOf[Fold(name)].value;
                v.writes == if v.Permits(origin) then old(v.writes) + [Cell(value, override, origin)] else old(v.writes)
      ensures forall u <- old(Values()) :: Fold(name) !in old(nodeOf) || u != old(nodeOf)[Fold(name)].value ==>
                u.cell == old(u.cell) && u.writes == old(u.writes)
      ensures Fold(name) !in old(nodeOf) && value.Nothing? ==> nodeOf == old(nodeOf)
      ensures Fold(name) !in old(nodeOf) && value.Just? ==>
                && Fold(name) in nodeOf && nodeOf == old(nodeOf)[Fold(name) := nodeOf[Fold(name)]]
                && nodeOf[Fold(name)].value !in old(Values()) && nodeOf[Fold(name)].value.desc.Nothing?
                && nodeOf[Fold(name)].value.first == Cell(value, override, origin)
                && nodeOf[Fold(name)].value.writes == []
    {
      hide Fold, Hash, Chained, Indexed, Placed;
      var np := Lookup(name);
      if np != null {
        np.value.Change(Cell(value, override, origin));
        return;
      }
      if value.Nothing? {
        return;
      }
      var vp := new HashValue(Cell(value, override, origin), Nothing);
      np := new HashNode(name, vp);
      Push(np);
    }

    /** At any time, what an option holds is the winner of the permitted writes to it, under either name. */
    lemma HeldIsWinner(name: Name)
      requires Settled() && Fold(name) in nodeOf
      ensures var v := nodeOf[Fold(name)].value;
              exists i :: Wins(v.first, v.writes, i) && v.cell == Nth(v.first, v.writes, i)
    {
      var v := nodeOf[Fold(name)].value;
      assert v in Values();
      RunIsWinner(v.first, v.writes);
    }

    /** Option_get_value */
    method GetValue(name: Name) returns (value: Maybe<string>, origin: Maybe<Origin>)
      requires Valid()
      ensures Fold(name) !in nodeOf ==> value.Nothing? && origin.Nothing?
      ensures Fold(name) in nodeOf ==>
                value == nodeOf[Fold(name)].value.cell.value && origin == Just(nodeOf[Fold(name)].value.cell.origin)
    {
      var np := Lookup(name);
      if np != null {
        return np.value.cell.value, Just(np.value.cell.origin);
      }
      return Nothing, Nothing;
    }

    /** Option_add_node: the program exits if there is a node of that name. */
    method AddNode(name: Name, value: HashValue) returns (ok: bool)
      requires Valid()
      modifies this, heads
      ensures Valid() && (ok <==> Fold(name) !in old(nodeOf))
      ensures !ok ==> nodeOf == old(nodeOf)
      ensures ok ==>
                && Fold(name) in nodeOf && nodeOf == old(nodeOf)[Fold(name) := nodeOf[Fold(name)]]
                && nodeOf[Fold(name)].value == value
    {
      hide Fold, Hash, Chained, Indexed, Placed;
      var np := Lookup(name);
      if np != null {
        return false;
      }
      var node := new HashNode(name, value);
      Push(node);
      return true;
    }

    /** Option_add_desc: an option may have two names for one value. */
    method AddDesc(desc: Desc) returns (ok: bool)
      requires Valid() && Settled()
      modifies this, heads
      ensures Valid() && Settled()
      ensures ok <==> Fold(desc.name) !in old(nodeOf) && Fold(desc.commandLineOption) !in old(nodeOf)
      ensures ok ==> nodeOf.Keys == old(nodeOf).Keys + {Fold(desc.name), Fold(desc.commandLineOption)}
      ensures ok ==> forall f <- old(nodeOf) :: nodeOf[f] == old(nodeOf)[f]
      ensures ok ==> var v := nodeOf[Fold(desc.name)].value;
                && v == nodeOf[Fold(desc.commandLineOption)].value && v.desc == Just(desc)
                && v.first == Cell(desc.defaultValue, false, Init) && v.writes == []
    {
      hide Fold, Hash, Chained, Indexed, Placed;
      var val := new HashValue(Cell(desc.defaultValue, false, Init), Just(desc));
      ok := AddNode(desc.name, val);
      if ok && Fold(desc.name) != Fold(desc.commandLineOption) {
        ok := AddNode(desc.commandLineOption, val);
      }
    }
  }
}
