/** The circular queue of player ids of src/server/id.cpp, with its two 32-bit counters. */
module IdAllocator {
  import opened Sequences

  const NUM_IDS: nat := 256
  const WORD: nat := 0x1_0000_0000

  predicate IsId(id: int) { UpTo(id, NUM_IDS) }

  predicate UpTo(id: int, n: nat) { 0 < id <= n }

  ghost function FirstIds(n: nat): set<int> {
    set id | 0 < id <= n && UpTo(id, n)
  }

  lemma {:induction false} FirstIdsCounted(n: nat)
    ensures |FirstIds(n)| == n
  {
    if n > 0 {
      FirstIdsCounted(n - 1);
      assert FirstIds(n) == FirstIds(n - 1) + {n};
    }
  }

  lemma {:induction false} DistinctCounted(ids: seq<int>)
    requires Distinct(ids)
    ensures |Elements(ids)| == |ids|
  {
    if ids != [] {
      var n := |ids| - 1;
      DistinctCounted(ids[..n]);
      assert Elements(ids) == Elements(ids[..n]) + {ids[n]};
    } else {
      assert Elements(ids) == {};
    }
  }

  /** Ids handed out and not yet returned, when the free ones are these. */
  ghost function Used(free: seq<int>): set<int> {
    FirstIds(NUM_IDS) - Elements(free)
  }

  lemma UsedAfterRequest(free: seq<int>)
    requires free != [] && Distinct(free) && IsId(free[0])
    ensures Used(free[1..]) == Used(free) + {free[0]} && free[0] !in Used(free)
    ensures Used(free) != FirstIds(NUM_IDS)
  {
    assert free == [free[0]] + free[1..];
    assert free[0] in FirstIds(NUM_IDS) && free[0] in Elements(free);
  }

  lemma UsedAfterRelease(free: seq<int>, id: int)
    ensures Used(free + [id]) == Used(free) - {id}
  {
    assert Elements(free + [id]) == Elements(free) + {id};
  }

  lemma RoomForUsed(free: seq<int>, id: int)
    requires Distinct(free) && id in Used(free) && forall k :: 0 <= k < |free| ==> IsId(free[k])
    ensures |free| < NUM_IDS
  {
    DistinctCounted(free);
    FirstIdsCounted(NUM_IDS);
    Subset(Elements(free), FirstIds(NUM_IDS));
  }

  /** The counters wrap at 2^32, which the number of ids divides, so slots follow each other. */
  function Slot(counter: nat): (slot: nat)
    ensures slot < NUM_IDS
  {
    counter % NUM_IDS
  }

  lemma SlotSurvivesWrap(counter: nat)
    ensures Slot(counter % WORD) == Slot(counter)
  {
    var q, r := counter / WORD, counter % WORD;
    assert counter == NUM_IDS * (0x100_0000 * q) + r;
    var a, b := r / NUM_IDS, r % NUM_IDS;
    assert counter == NUM_IDS * (0x100_0000 * q + a) + b;
  }

  lemma NearSlotsDiffer(a: nat, b: nat)
    requires a < b < a + NUM_IDS
    ensures Slot(a) != Slot(b)
  {
  }

  lemma SlotsDiffer(base: nat, n: nat)
    requires n < NUM_IDS
    ensures forall a: nat :: base <= a < base + n ==> Slot(a) != Slot(base + n)
  {
    hide Slot;
    forall a: nat | base <= a < base + n
      ensures Slot(a) != Slot(base + n)
    {
      NearSlotsDiffer(a, base + n);
    }
  }

  lemma WrapAdds(base: nat, k: nat)
    ensures (base % WORD + k) % WORD == (base + k) % WORD
  {
  }

  lemma WrapDifference(base: nat, k: nat)
    requires k < WORD
    ensures ((base + k) % WORD - base % WORD) % WORD == k
  {
  }

  class Ids {
    const queue: array<int>
    const inUse: array<int>
    var inited: bool
    var get: nat
    var put: nat
    ghost var free: seq<int>
    ghost var base: nat

    /** `base` is what the 32-bit counter get would be if it never wrapped. */
    ghost predicate Valid()
      reads this, queue, inUse
    {
      && queue.Length == NUM_IDS && inUse.Length == NUM_IDS + 1 && queue != inUse
      && |free| <= NUM_IDS && Distinct(free)
      && (!inited ==> free == AllInOrder() && base == 0)
      && (inited ==>
            && get == base % WORD && put == (base + |free|) % WORD
            && (forall k :: 0 <= k < |free| ==> IsId(free[k]) && free[k] == queue[Slot(base + k)])
            && (forall id :: IsId(id) ==> inUse[id] == if id in free then 0 else 1))
    }

    static function AllInOrder(): seq<int> {
      seq(NUM_IDS, i => i + 1)
    }

    constructor ()
      ensures Valid() && fresh(queue) && fresh(inUse) && free == AllInOrder()
    {
      queue := new int[NUM_IDS](_ => 0);
      inUse := new int[NUM_IDS + 1](_ => 0);
      inited, get, put := false, 0, 0;
      free, base := AllInOrder(), 0;
    }

    method Init()
      requires Valid()
      modifies this`inited, this`get, this`put, queue, inUse
      ensures Valid() && inited
    {
      if !inited {
        var i, id := 0, 1;
        while i < NUM_IDS
          invariant 0 <= i <= NUM_IDS && id == i + 1
          invariant forall k :: 0 <= k < i ==> queue[k] == k + 1
          invariant forall k :: 0 < k <= i ==> inUse[k] == 0
          modifies queue, inUse
        {
          queue[i] := id;
          inUse[id] := 0;
          i, id := i + 1, id + 1;
        }
        get := 0;
        put := NUM_IDS;
        inited := true;
        assert forall id :: IsId(id) ==> free[id - 1] == id;
      }
      WrapDifference(base, |free|);
      if (put - get) % WORD > NUM_IDS {
        assert false;  // "ID queue corruption": exit(1)
      }
    }

    method Peek() returns (id: int)
      requires Valid()
      modifies this`inited, this`get, this`put, queue, inUse
      ensures Valid() && inited
      ensures id == if free == [] then 0 else free[0]
      ensures id == 0 <==> free == []
    {
      hide Slot;
      Init();
      WrapDifference(base, |free|);
      SlotSurvivesWrap(base);
      if get == put {
        id := 0;
      } else {
        id := queue[Slot(get)];
        assert free[0] == queue[Slot(base + 0)];
      }
    }

    lemma NoneFree()
      requires Valid() && inited
      ensures free == [] <==> Used(free) == FirstIds(NUM_IDS)
    {
      if free == [] {
        NothingUsed();
      } else {
        UsedAfterRequest(free);
      }
    }

    /** Takes the id that has been free the longest; 0 says that all are in use. */
    method Request() returns (id: int)
      requires Valid()
      modifies this, queue, inUse
      ensures Valid()
      ensures id == 0 <==> Used(old(free)) == FirstIds(NUM_IDS)
      ensures id == 0 ==> free == old(free) == []
      ensures id != 0 ==> old(free) == [id] + free && Used(free) == Used(old(free)) + {id} && id !in Used(old(free))
    {
      hide Valid, Slot, Used, FirstIds, Distinct, IsId, Elements;
      id := Peek();
      NoneFree();
      if id != 0 {
        Issue(id);
      }
    }

    method Issue(id: int)
      requires Valid() && inited && free != [] && id == free[0]
      modifies this`get, this`base, this`free, inUse
      ensures Valid() && old(free) == [id] + free && Used(free) == Used(old(free)) + {id} && id !in Used(old(free))
    {
      hide Slot, Used, FirstIds, Distinct, IsId, Elements;
      Taken(id);
      get := (get + 1) % WORD;
      inUse[id] := 1;
      base, free := base + 1, free[1..];
    }

    /** What taking the head of the queue does to the free ids and the slots. */
    lemma Taken(id: int)
      requires Valid() && inited && free != [] && id == free[0]
      ensures IsId(id) && 0 < id <= NUM_IDS && free == [id] + free[1..] && Distinct(free[1..])
      ensures Used(free[1..]) == Used(free) + {id} && id !in Used(free)
      ensures forall k :: 0 <= k < |free| - 1 ==> IsId(free[1..][k]) && free[1..][k] == queue[Slot(base + 1 + k)]
      ensures forall i :: IsId(i) && i != id ==> (i in free[1..] <==> i in free)
      ensures id !in free[1..]
      ensures (get + 1) % WORD == (base + 1) % WORD
    {
      hide Slot;
      UsedAfterRequest(free);
      WrapAdds(base, 1);
      forall k | 0 <= k < |free| - 1
        ensures IsId(free[1..][k]) && free[1..][k] == queue[Slot(base + 1 + k)]
      {
        assert free[k + 1] == queue[Slot(base + (k + 1))];
      }
    }

    /** Returns an id; the program exits if it was not handed out. */
    method Release(id: int) returns (ok: bool)
      requires Valid()
      modifies this, queue, inUse
      ensures Valid()
      ensures ok <==> id in Used(old(free))
      ensures free == if ok then old(free) + [id] else old(free)
      ensures ok ==> Used(free) == Used(old(free)) - {id}
    {
      hide Slot, Used, FirstIds, Distinct, IsId;
      Init();
      Refused(id);
      if (put - get) % WORD == NUM_IDS || id <= 0 || id > NUM_IDS || inUse[id] != 1 {
        return false;
      }
      UsedAfterRelease(free, id);
      Enqueue(id);
      return true;
    }

    /** The id goes to the end of the queue. */
    method Enqueue(id: int)
      requires Valid() && inited && |free| < NUM_IDS && IsId(id) && id !in free
      modifies this`put, this`free, queue, inUse
      ensures Valid() && free == old(free) + [id]
    {
      hide Slot, Distinct;
      SlotSurvivesWrap(base + |free|);
      WrapAdds(base + |free|, 1);
      SlotsDiffer(base, |free|);
      DistinctAppend(free, id);
      queue[Slot(put)] := id;
      put := (put + 1) % WORD;
      inUse[id] := 0;
      free := free + [id];
    }

    lemma Refused(id: int)
      requires Valid() && inited
      ensures id in Used(free) <==>
              (put - get) % WORD != NUM_IDS && 0 < id <= NUM_IDS && inUse[id] == 1
      ensures id in Used(free) ==> |free| < NUM_IDS && IsId(id) && id !in free
    {
      hide Slot;
      WrapDifference(base, |free|);
      assert IsId(id) ==> id in FirstIds(NUM_IDS);
      if id in Used(free) {
        RoomForUsed(free, id);
      }
    }
  }

  lemma AllFree()
    ensures Used(Ids.AllInOrder()) == {}
  {
    var free := Ids.AllInOrder();
    forall id | id in FirstIds(NUM_IDS)
      ensures id in Elements(free)
    {
      assert free[id - 1] == id;
    }
  }

  lemma UsedAreIds(free: seq<int>)
    ensures forall id <- Used(free) :: 0 < id <= NUM_IDS
  {
  }

  lemma NothingUsed()
    ensures Used([]) == FirstIds(NUM_IDS)
  {
    assert Elements<int>([]) == {};
  }

  // ---- whole runs

  datatype Op = Ask | Return(id: int)

  /** The free ids, oldest first, and all ids issued so far, a repeated one as often as it was. */
  datatype Ledger = Ledger(free: seq<int>, issued: seq<int>)

  function Step(l: Ledger, op: Op): Ledger {
    match op
    case Ask => if l.free == [] then l else Ledger(l.free[1..], l.issued + [l.free[0]])
    case Return(id) => l.(free := l.free + [id])
  }

  function Run(l: Ledger, ops: seq<Op>): Ledger
    decreases |ops|
  {
    if ops == [] then l else Step(Run(l, ops[..|ops| - 1]), ops[|ops| - 1])
  }

  /** Whether the program survives these operations: it exits when an id comes back that is not used. */
  ghost predicate Legal(l: Ledger, ops: seq<Op>)
    decreases |ops|
  {
    ops != [] ==>
      var most, last := ops[..|ops| - 1], ops[|ops| - 1];
      Legal(l, most) && (last.Return? ==> last.id in Used(Run(l, most).free))
  }

  function Returned(ops: seq<Op>): seq<int>
    decreases |ops|
  {
    if ops == [] then []
    else Returned(ops[..|ops| - 1]) + (if ops[|ops| - 1].Ask? then [] else [ops[|ops| - 1].id])
  }

  ghost predicate AreIds(free: seq<int>) {
    Distinct(free) && forall k :: 0 <= k < |free| ==> IsId(free[k])
  }

  /** First in, first out: what was issued, followed by what is still free, is what was free at the
      start followed by what was returned, in that order; and no id is ever free twice. */
  lemma {:induction false} ReissuedInOrder(l: Ledger, ops: seq<Op>)
    requires AreIds(l.free) && Legal(l, ops)
    ensures var m := Run(l, ops);
            m.issued + m.free == l.issued + l.free + Returned(ops) && AreIds(m.free)
    decreases |ops|
  {
    hide Used;
    if ops == [] {
      assert l.issued + l.free + [] == l.issued + l.free;
    } else {
      var most, last := ops[..|ops| - 1], ops[|ops| - 1];
      ReissuedInOrder(l, most);
      var m := Run(l, most);
      if last.Return? {
        UsedIsNotFree(m.free, last.id);
        assert m.issued + (m.free + [last.id]) == m.issued + m.free + [last.id];
        assert l.issued + l.free + (Returned(most) + [last.id]) == l.issued + l.free + Returned(most) + [last.id];
      } else if m.free != [] {
        assert m.issued + [m.free[0]] + m.free[1..] == m.issued + m.free;
      }
    }
  }

  lemma UsedIsNotFree(free: seq<int>, id: int)
    requires id in Used(free)
    ensures id !in free && IsId(id)
  {
  }

  lemma {:induction false} OnceEach(ids: seq<int>)
    requires Distinct(ids)
    ensures forall id :: multiset(ids)[id] == if id in ids then 1 else 0
  {
    if ids != [] {
      var n := |ids| - 1;
      OnceEach(ids[..n]);
      assert ids == ids[..n] + [ids[n]];
    }
  }

  lemma CountAdds(a: seq<int>, b: seq<int>, id: int)
    ensures multiset(a + b)[id] == multiset(a)[id] + multiset(b)[id]
  {
  }

  /** In every run that begins with all ids free, an id is used exactly when it was issued once more
      often than it was returned, and was returned as often as issued otherwise: no two ever hold
      the same one. */
  lemma HeldOnce(ops: seq<Op>, id: int)
    requires IsId(id) && Legal(Ledger(Ids.AllInOrder(), []), ops)
    ensures var m := Run(Ledger(Ids.AllInOrder(), []), ops);
            multiset(m.issued)[id] == multiset(Returned(ops))[id] + if id in Used(m.free) then 1 else 0
  {
    hide Run, Legal;
    var all := Ids.AllInOrder();
    var m := Run(Ledger(all, []), ops);
    assert all[id - 1] == id;
    assert id in FirstIds(NUM_IDS);
    ReissuedInOrder(Ledger(all, []), ops);
    assert m.issued + m.free == all + Returned(ops);
    CountAdds(m.issued, m.free, id);
    CountAdds(all, Returned(ops), id);
    OnceEach(m.free);
    OnceEach(all);
    assert id in Elements(m.free) <==> id in m.free;
    assert id in Used(m.free) <==> id !in m.free;
    assert multiset(all)[id] == 1;
    assert multiset(m.free)[id] == if id in m.free then 1 else 0;
  }

  lemma RunStep(l: Ledger, ops: seq<Op>, n: nat)
    requires n < |ops|
    ensures Run(l, ops[..n + 1]) == Step(Run(l, ops[..n]), ops[n])
    ensures Legal(l, ops[..n + 1]) <==>
              Legal(l, ops[..n]) && (ops[n].Return? ==> ops[n].id in Used(Run(l, ops[..n]).free))
  {
    assert ops[..n + 1][..n] == ops[..n];
  }

  lemma RunNothing(l: Ledger)
    ensures Legal(l, []) && Run(l, []) == l
  {
  }

  /** An allocator does in any run what the ledger says, and stops at the first return of an id that
      is not used. */
  method Serve(ids: Ids, ops: seq<Op>) returns (issued: seq<int>, n: nat)
    requires ids.Valid()
    modifies ids, ids.queue, ids.inUse
    ensures ids.Valid() && n <= |ops|
    ensures Legal(Ledger(old(ids.free), []), ops[..n])
    ensures Run(Ledger(old(ids.free), []), ops[..n]) == Ledger(ids.free, issued)
    ensures n < |ops| ==> ops[n].Return? && ops[n].id !in Used(ids.free)
  {
    hide Used, Ids.Valid, Run, Legal;
    issued, n := [], 0;
    ghost var l := Ledger(ids.free, []);
    RunNothing(l);
    while n < |ops|
      invariant ids.Valid() && n <= |ops|
      invariant Legal(l, ops[..n]) && Run(l, ops[..n]) == Ledger(ids.free, issued)
    {
      RunStep(l, ops, n);
      if ops[n].Ask? {
        ghost var free := ids.free;
        var id := ids.Request();
        assert id != 0 ==> free[0] == id && free[1..] == ids.free;
        if id != 0 {
          issued := issued + [id];
        }
      } else {
        var ok := ids.Release(ops[n].id);
        if !ok {
          return;
        }
      }
      n := n + 1;
    }
  }
}
