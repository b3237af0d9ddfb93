/** The per-block index of src/server/collision.cpp: every frame each unexpired object is put on the
    chain of its block, objects near a block are collected, and the chains are taken down again. */
module CollisionCells {
  import opened Arithmetic
  import opened Sequences

  const MAX_TOTAL_OBJECTS: nat := 16384

  class Obj {
    var x: int
    var y: int
    var life: int
    var cellPrev: Obj?
    var cellNext: Obj?

    constructor (x: int, y: int, life: int)
      ensures this.x == x && this.y == y && this.life == life && cellPrev == null && cellNext == null
    {
      this.x, this.y, this.life := x, y, life;
      cellPrev, cellNext := null, null;
    }
  }

  type Block = (int, int)

  ghost predicate Clean(o: Obj)
    reads o
  {
    o.cellPrev == null && o.cellNext == null
  }

  /** The last of the first n places that is block b, or -1. */
  ghost function Last(at: seq<Block>, n: nat, b: Block): (j: int)
    requires n <= |at|
    ensures -1 <= j < n
  {
    if n == 0 then -1 else if at[n - 1] == b then n - 1 else Last(at, n - 1, b)
  }

  lemma {:induction false} LastIsLast(at: seq<Block>, n: nat, b: Block)
    requires n <= |at|
    ensures var j := Last(at, n, b);
            (j >= 0 ==> at[j] == b) && forall i :: j < i < n ==> at[i] != b
  {
    if n > 0 && at[n - 1] != b {
      LastIsLast(at, n - 1, b);
    }
  }

  lemma {:induction false} LastOfPrefix(at: seq<Block>, more: seq<Block>, n: nat, b: Block)
    requires n <= |at|
    ensures Last(at + more, n, b) == Last(at, n, b)
  {
    if n > 0 {
      LastOfPrefix(at, more, n - 1, b);
    }
  }

  ghost function Ref(placed: seq<Obj>, j: int): Obj?
    requires -1 <= j < |placed|
  {
    if j == -1 then null else placed[j]
  }

  /** The number of the object before the k-th in its block. */
  ghost function PrevOf(at: seq<Block>, k: nat): (j: int)
    requires k < |at|
    ensures -1 <= j < k
  {
    Last(at, k, at[k])
  }

  /** Each object is linked to the one before it in its block. */
  ghost predicate Prevs(placed: seq<Obj>, at: seq<Block>)
    requires |placed| == |at|
    reads placed
  {
    forall k: nat {:trigger PrevOf(at, k)} :: k < |placed| ==> placed[k].cellPrev == Ref(placed, PrevOf(at, k))
  }

  /** And that one is linked to it; the newest of a block is linked to none. */
  ghost predicate Nexts(placed: seq<Obj>, at: seq<Block>)
    requires |placed| == |at|
    reads placed
  {
    && (forall k: nat {:trigger PrevOf(at, k)} :: k < |placed| && PrevOf(at, k) >= 0 ==>
         placed[PrevOf(at, k)].cellNext == placed[k])
    && (forall b: Block :: Last(at, |at|, b) >= 0 ==> placed[Last(at, |at|, b)].cellNext == null)
  }

  lemma PrevOfPrefix(at: seq<Block>, b: Block, k: nat)
    requires k < |at|
    ensures PrevOf(at + [b], k) == PrevOf(at, k)
  {
    LastOfPrefix(at, [b], k, at[k]);
  }

  lemma LastAppended(at: seq<Block>, b: Block)
    ensures forall c: Block :: Last(at + [b], |at| + 1, c) == if c == b then |at| else Last(at, |at|, c)
    ensures PrevOf(at + [b], |at|) == Last(at, |at|, b)
  {
    forall c: Block
      ensures Last(at + [b], |at| + 1, c) == if c == b then |at| else Last(at, |at|, c)
    {
      LastOfPrefix(at, [b], |at|, c);
    }
    LastOfPrefix(at, [b], |at|, b);
  }

  class Cells {
    const w: nat
    const h: nat
    const cells: array2<Obj?>
    var used: seq<Block>
    ghost var placed: seq<Obj>
    ghost var at: seq<Block>

    predicate OnMap(b: Block) {
      0 <= b.0 < w && 0 <= b.1 < h
    }

    /** The objects put on chains, in order, and the block each was in. */
    ghost predicate Shape()
      reads this
    {
      && cells.Length0 == w && cells.Length1 == h
      && |at| == |placed| && Distinct(placed)
      && (forall b <- at :: OnMap(b))
    }

    /** A cell refers to the newest object of its block. */
    ghost predicate Heads()
      requires Shape()
      reads this, cells
    {
      forall b: Block :: OnMap(b) ==> cells[b.0, b.1] == Ref(placed, Last(at, |at|, b))
    }

    ghost predicate UsedOnce()
      requires Shape()
      reads this
    {
      && (forall b: Block :: OnMap(b) ==> (b in used <==> Last(at, |at|, b) >= 0))
      && Distinct(used) && (forall b <- used :: OnMap(b))
    }

    ghost predicate Valid()
      reads this, cells, placed
    {
      Shape() && Heads() && Prevs(placed, at) && Nexts(placed, at) && UsedOnce()
    }

    /** Collision_cells_allocate */
    constructor (w: nat, h: nat)
      ensures Valid() && fresh(cells) && this.w == w && this.h == h && placed == []
    {
      this.w, this.h := w, h;
      cells := new Obj?[w, h]((_, _) => null);
      used, placed, at := [], [], [];
    }

    method SetLinks(obj: Obj)
      requires Valid() && OnMap((obj.x, obj.y)) && obj !in placed
      modifies this`used, cells, placed`cellNext, obj`cellPrev
      ensures Shape()
      ensures var j := Last(at, |at|, (obj.x, obj.y));
              && obj.cellPrev == Ref(placed, j)
              && used == (if j == -1 then old(used) + [(obj.x, obj.y)] else old(used))
              && (forall k :: 0 <= k < |placed| ==>
                   placed[k].cellNext == if k == j then obj else old(placed[k].cellNext))
      ensures forall b: Block :: OnMap(b) ==>
                cells[b.0, b.1] == if b == (obj.x, obj.y) then obj else old(cells[b.0, b.1])
    {
      hide Last;
      obj.cellPrev := cells[obj.x, obj.y];
      if obj.cellPrev != null {
        obj.cellPrev.cellNext := obj;
      } else {
        used := used + [(obj.x, obj.y)];
      }
      cells[obj.x, obj.y] := obj;
    }

    /** The links, before the object is counted as placed. */
    method Chain(obj: Obj)
      requires Valid() && OnMap((obj.x, obj.y)) && obj !in placed && Clean(obj)
      modifies this`used, cells, placed`cellNext, obj`cellPrev
      ensures Shape() && Prevs(placed + [obj], at + [(obj.x, obj.y)]) && Nexts(placed + [obj], at + [(obj.x, obj.y)])
      ensures used == if Last(at, |at|, (obj.x, obj.y)) == -1 then old(used) + [(obj.x, obj.y)] else old(used)
      ensures forall b: Block :: OnMap(b) ==>
                cells[b.0, b.1] == if b == (obj.x, obj.y) then obj else old(cells[b.0, b.1])
    {
      hide Last, PrevOf, Distinct;
      ghost var b, p, a := (obj.x, obj.y), placed, at;
      LastDistinct(b);
      LastAppended(a, b);
      assert forall k: nat {:trigger PrevOf(a, k)} :: k < |a| ==> p[k].cellPrev == Ref(p, PrevOf(a, k));
      assert forall k: nat {:trigger PrevOf(a, k)} :: k < |a| && PrevOf(a, k) >= 0 ==> p[PrevOf(a, k)].cellNext == p[k];
      SetLinks(obj);
      LinkedOn(p, a, obj, b);
      LinkedBack(p, a, obj, b);
    }

    /** Puts an object at the end of the chain of its block. */
    method Insert(obj: Obj)
      requires Valid() && OnMap((obj.x, obj.y)) && obj !in placed && Clean(obj)
      modifies this`used, this`placed, this`at, cells, placed`cellNext, obj`cellPrev
      ensures Valid() && placed == old(placed) + [obj] && at == old(at) + [(obj.x, obj.y)]
    {
      hide Last, PrevOf, Distinct, Prevs, Nexts;
      ghost var b, p, a := (obj.x, obj.y), placed, at;
      LastAppended(a, b);
      Chain(obj);
      placed, at := p + [obj], a + [b];
      DistinctAppend(p, obj);
      UsedAppended(old(used), a, b);
    }

    lemma LinkedOn(p: seq<Obj>, a: seq<Block>, obj: Obj, b: Block)
      requires |p| == |a| && Prevs(p, a) && obj.cellPrev == Ref(p, Last(a, |a|, b))
      ensures Prevs(p + [obj], a + [b])
    {
      hide Last, PrevOf;
      LastAppended(a, b);
      forall k: nat | k < |p| + 1
        ensures (p + [obj])[k].cellPrev == Ref(p + [obj], PrevOf(a + [b], k))
      {
        if k < |p| {
          PrevOfPrefix(a, b, k);
          assert p[k].cellPrev == Ref(p, PrevOf(a, k));
        }
      }
    }

    lemma LinkedBack(p: seq<Obj>, a: seq<Block>, obj: Obj, b: Block)
      requires |p| == |a| && obj.cellNext == null
      requires forall k: nat {:trigger PrevOf(a, k)} :: k < |a| && PrevOf(a, k) >= 0 ==>
                 p[PrevOf(a, k)].cellNext == p[k]
      requires forall c: Block :: Last(a, |a|, c) >= 0 ==> p[Last(a, |a|, c)].cellNext == if c == b then obj else null
      ensures Nexts(p + [obj], a + [b])
    {
      hide Last, PrevOf;
      LastAppended(a, b);
      forall k: nat | k < |p| + 1 && PrevOf(a + [b], k) >= 0
        ensures (p + [obj])[PrevOf(a + [b], k)].cellNext == (p + [obj])[k]
      {
        if k < |p| {
          PrevOfPrefix(a, b, k);
        } else {
          assert p[Last(a, |a|, b)].cellNext == obj;
        }
      }
      var q, t := p + [obj], a + [b];
      forall c: Block | Last(t, |t|, c) >= 0
        ensures q[Last(t, |t|, c)].cellNext == null
      {
        if c != b {
          assert q[Last(t, |t|, c)] == p[Last(a, |a|, c)];
        }
      }
    }

    lemma UsedAppended(before: seq<Block>, a: seq<Block>, b: Block)
      requires Shape() && OnMap(b) && at == a + [b] && Distinct(before) && (forall c <- before :: OnMap(c))
      requires forall c: Block :: OnMap(c) ==> (c in before <==> Last(a, |a|, c) >= 0)
      requires forall c: Block :: OnMap(c) ==> Last(at, |at|, c) == if c == b then |a| else Last(a, |a|, c)
      requires used == if Last(a, |a|, b) == -1 then before + [b] else before
      ensures UsedOnce()
    {
      hide Last;
      if b !in before { DistinctAppend(before, b); }
    }

    /** Different blocks have different newest objects, and those come before no other. */
    lemma LastDistinct(b: Block)
      requires Shape()
      ensures forall c: Block :: c != b && Last(at, |at|, c) >= 0 ==> Last(at, |at|, c) != Last(at, |at|, b)
      ensures forall k: nat {:trigger PrevOf(at, k)} :: k < |at| && Last(at, |at|, b) >= 0 ==>
                PrevOf(at, k) != Last(at, |at|, b)
    {
      LastIsLast(at, |at|, b);
      forall c: Block
        ensures c != b && Last(at, |at|, c) >= 0 ==> Last(at, |at|, c) != Last(at, |at|, b)
      {
        LastIsLast(at, |at|, c);
      }
      forall k: nat | k < |at|
        ensures Last(at, |at|, b) >= 0 ==> PrevOf(at, k) != Last(at, |at|, b)
      {
        LastIsLast(at, k, at[k]);
      }
    }

    // ---- filling the index

    /** Collision_cells_init: every unexpired object is put on the chain of its block. */
    method Init(objs: seq<Obj>)
      requires Valid() && placed == [] && Distinct(objs)
      requires forall o <- objs :: Clean(o) && (o.life > 0 ==> OnMap((o.x, o.y)))
      modifies this`used, this`placed, this`at, cells, objs`cellPrev, objs`cellNext
      ensures Valid()
      ensures forall o :: o in placed <==> o in objs && o.life > 0
      ensures forall k :: 0 <= k < |placed| ==> at[k] == (placed[k].x, placed[k].y)
      ensures |placed| <= |objs| && forall o <- objs :: o.life <= 0 ==> Clean(o)
    {
      hide Valid, Last, Distinct, OnMap;
      PlacedOnce();
      var i := 0;
      while i < |objs|
        invariant 0 <= i <= |objs| && Valid() && |at| == |placed| <= i
        invariant forall o :: o in placed <==> o in objs[..i] && o.life > 0
        invariant forall k :: 0 <= k < |placed| ==> at[k] == (placed[k].x, placed[k].y)
        invariant forall o <- objs :: o !in placed ==> Clean(o)
      {
        var obj := objs[i];
        NotYet(objs, i);
        if obj.life > 0 {
          Insert(obj);
        }
        i := i + 1;
      }
    }

    lemma NotYet(objs: seq<Obj>, i: nat)
      requires Distinct(objs) && i < |objs|
      ensures objs[i] in objs && objs[i] !in objs[..i] && objs[..i + 1] == objs[..i] + [objs[i]]
      ensures forall o <- objs[..i] :: o in objs
    {
    }

    // ---- taking it down

    ghost predicate Standing(b: Block)
      requires Shape() && OnMap(b)
      reads this, cells, placed
    {
      && cells[b.0, b.1] == Ref(placed, Last(at, |at|, b))
      && (Last(at, |at|, b) >= 0 ==> placed[Last(at, |at|, b)].cellNext == null)
      && (forall k: nat {:trigger PrevOf(at, k)} :: k < |at| && at[k] == b ==>
           placed[k].cellPrev == Ref(placed, PrevOf(at, k)))
    }

    ghost predicate Gone(b: Block)
      requires Shape()
      reads this, placed
    {
      forall k :: 0 <= k < |placed| && at[k] == b ==> Clean(placed[k])
    }

    /** Unlinks the objects of one block, newest first. */
    method Unlink(b: Block)
      requires Shape() && OnMap(b) && Standing(b)
      modifies placed`cellPrev, placed`cellNext
      ensures Gone(b)
      ensures forall k :: 0 <= k < |placed| && at[k] != b ==>
                placed[k].cellPrev == old(placed[k].cellPrev) && placed[k].cellNext == old(placed[k].cellNext)
    {
      hide Last, PrevOf, Distinct;
      var obj := cells[b.0, b.1];
      ghost var j := Last(at, |at|, b);
      LastIsLast(at, |at|, b);
      if obj != null {
        while obj.cellPrev != null
          invariant 0 <= j < |placed| && at[j] == b && obj == placed[j] && obj.cellNext == null
          invariant forall k :: j < k < |placed| && at[k] == b ==> Clean(placed[k])
          invariant forall k: nat {:trigger PrevOf(at, k)} :: k <= j && at[k] == b ==>
                    placed[k].cellPrev == Ref(placed, PrevOf(at, k))
          invariant forall k :: 0 <= k < |placed| && at[k] != b ==>
                      placed[k].cellPrev == old(placed[k].cellPrev) && placed[k].cellNext == old(placed[k].cellNext)
          decreases j
        {
          ghost var i := PrevOf(at, j);
          PrevIsLast(j);
          OthersDiffer(i);
          OthersDiffer(j);
          var prev := obj.cellPrev;
          obj.cellPrev.cellNext := null;
          obj.cellPrev := null;
          obj := prev;
          j := i;
        }
        PrevIsLast(j);
      }
    }

    lemma OthersDiffer(j: int)
      requires Shape()
      ensures 0 <= j < |placed| ==> forall k :: 0 <= k < |placed| && k != j ==> placed[k] != placed[j]
    {
    }

    /** Takes down one block and leaves the others as they are. */
    method TakeDown(b: Block)
      requires Shape() && OnMap(b) && Standing(b)
      modifies cells, placed`cellPrev, placed`cellNext
      ensures Gone(b) && cells[b.0, b.1] == null
      ensures forall c: Block :: OnMap(c) && c != b ==>
                && cells[c.0, c.1] == old(cells[c.0, c.1])
                && (old(Standing(c)) ==> Standing(c)) && (old(Gone(c)) ==> Gone(c))
    {
      hide Last, PrevOf, Distinct;
      Unlink(b);
      cells[b.0, b.1] := null;
      forall c: Block | OnMap(c) && c != b
        ensures (old(Standing(c)) ==> Standing(c)) && (old(Gone(c)) ==> Gone(c))
      {
        LastIsLast(at, |at|, c);
      }
    }

    lemma PrevIsLast(k: nat)
      requires Shape() && k < |at|
      ensures var j := PrevOf(at, k);
              (j >= 0 ==> at[j] == at[k]) && forall i :: j < i < k ==> at[i] != at[k]
    {
      LastIsLast(at, k, at[k]);
    }

    lemma StandsAtFirst(b: Block)
      requires Valid() && OnMap(b)
      ensures if b in used then Standing(b) else cells[b.0, b.1] == null && Gone(b)
    {
      LastIsLast(at, |at|, b);
    }

    /** Collision_cells_cleanup: all cells and links are as before the frame. */
    method Cleanup()
      requires Valid()
      modifies this`used, this`placed, this`at, cells, placed`cellPrev, placed`cellNext
      ensures Valid() && placed == [] && used == []
      ensures forall o <- old(placed) :: Clean(o)
    {
      forall b: Block | OnMap(b)
        ensures if b in used then Standing(b) else cells[b.0, b.1] == null && Gone(b)
      {
        StandsAtFirst(b);
      }
      hide Standing, Gone, Last, Heads, UsedOnce, PrevOf;
      while used != []
        invariant Shape() && placed == old(placed) && at == old(at)
        invariant Distinct(used) && forall b <- used :: OnMap(b)
        invariant forall b: Block :: OnMap(b) ==> if b in used then Standing(b) else cells[b.0, b.1] == null && Gone(b)
        decreases |used|
      {
        var n := |used| - 1;
        var b := used[n];
        TakeDown(b);
        DropLast(used);
        used := used[..n];
      }
      Emptied();
      placed, at := [], [];
      NothingPlaced();
    }

    lemma Emptied()
      requires Shape() && forall b: Block :: OnMap(b) ==> Gone(b)
      ensures forall o <- placed :: Clean(o)
    {
      forall o | o in placed
        ensures Clean(o)
      {
        var k :| 0 <= k < |placed| && placed[k] == o;
        assert at[k] in at && Gone(at[k]);
      }
    }

    lemma NothingPlaced()
      requires cells.Length0 == w && cells.Length1 == h && placed == [] && at == [] && used == []
      requires forall b: Block :: OnMap(b) ==> cells[b.0, b.1] == null
      ensures Valid()
    {
    }

    lemma DropLast(xs: seq<Block>)
      requires Distinct(xs) && xs != []
      ensures Distinct(xs[..|xs| - 1])
      ensures forall b :: b in xs[..|xs| - 1] <==> b in xs && b != xs[|xs| - 1]
    {
      assert xs == xs[..|xs| - 1] + [xs[|xs| - 1]];
    }

    // ---- asking it

    /** The radius that is searched when r is asked for. */
    function Effective(r: nat, wrap: bool): nat {
      if wrap then
        var r1 := if 2 * r > w then w / 2 else r;
        if 2 * r1 > h then h / 2 else r1
      else
        var r1 := if r > w then w else r;
        if r1 > h then h else r1
    }

    /** No column or row comes twice. */
    predicate Exact(r: nat, wrap: bool) {
      wrap ==> 2 * r < w && 2 * r < h
    }

    ghost predicate Near(b: Block, x: nat, y: nat, r: nat, wrap: bool)
    {
      Distance(b.0, x, w, wrap) <= r && Distance(b.1, y, h, wrap) <= r
    }

    predicate Fits(r: nat, wrap: bool) {
      if wrap then 2 * r <= w && 2 * r <= h else r <= w && r <= h
    }

    /** The radius searched is the greatest up to the one asked for that fits the map, so it is the one asked for
        exactly when that fits. */
    lemma RadiusFits(r: nat, wrap: bool)
      ensures var rr := Effective(r, wrap);
              && rr <= r && Fits(rr, wrap) && (forall k: nat :: k <= r && Fits(k, wrap) ==> k <= rr)
              && (rr == r <==> Fits(r, wrap))
    {
    }

    predicate SameFold(i: nat, j: nat, size: nat)
      requires size > 0 && i <= j
    {
      (j - i) % size == 0
    }

    lemma FoldsOnce(r: nat, size: nat)
      requires size > 0
      ensures 2 * r < size <==> forall i: nat, j: nat :: i < j <= 2 * r ==> !SameFold(i, j, size)
    {
      if 2 * r < size {
        forall i: nat, j: nat | i < j <= 2 * r
          ensures !SameFold(i, j, size)
        {
          assert 0 < j - i < size;
        }
      } else {
        assert SameFold(0, size, size);
      }
    }

    /** On a map that wraps, the search comes to no column and no row twice exactly when twice the radius is less than
        either side. */
    lemma ExactIsOnce(r: nat)
      requires w > 0 && h > 0
      ensures Exact(r, true) <==> forall i: nat, j: nat :: i < j <= 2 * r ==> !SameFold(i, j, w) && !SameFold(i, j, h)
    {
      hide SameFold;
      FoldsOnce(r, w);
      FoldsOnce(r, h);
    }

    /** What is searched are the blocks within the radius asked for, exactly when on both axes the search
        goes as far as the radius or the farthest place of the map. */
    lemma RadiusIsEnough(x: nat, y: nat, r: nat, wrap: bool)
      requires OnMap((x, y))
      ensures (forall b: Block | OnMap(b) :: Near(b, x, y, Effective(r, wrap), wrap) <==> Near(b, x, y, r, wrap))
              <==>
              && Min(r, Farthest(x, w, wrap)) <= Effective(r, wrap)
              && Min(r, Farthest(y, h, wrap)) <= Effective(r, wrap)
    {
      hide Effective, Distance, Farthest;
      var rr := Effective(r, wrap);
      RadiusFits(r, wrap);
      DistanceAtMost(x, w, wrap);
      DistanceAtMost(y, h, wrap);
      SomePlaceAt(x, w, wrap, Min(r, Farthest(x, w, wrap)));
      SomePlaceAt(y, h, wrap, Min(r, Farthest(y, h, wrap)));
      var u :| 0 <= u < w && Distance(u, x, w, wrap) == Min(r, Farthest(x, w, wrap));
      var v :| 0 <= v < h && Distance(v, y, h, wrap) == Min(r, Farthest(y, h, wrap));
      NoDistance(x, w, wrap);
      NoDistance(y, h, wrap);
      assert OnMap((u, y)) && OnMap((x, v));
      assert Near((u, y), x, y, r, wrap) && Near((x, v), x, y, r, wrap);
    }

    /** One newest-to-oldest walk along the chain of a block. */
    method Collect(b: Block, list: seq<Obj>, ghost picked: seq<int>, ghost exact: bool)
        returns (list': seq<Obj>, ghost picked': seq<int>)
      requires Valid() && OnMap(b) && |placed| <= MAX_TOTAL_OBJECTS
      requires exact ==> Picks(list, picked) && forall k <- picked :: at[k] != b
      ensures exact ==> Picks(list', picked')
      ensures exact ==> forall k :: 0 <= k < |placed| ==> (k in picked' <==> k in picked || at[k] == b)
    {
      hide Last, PrevOf, Distinct, UsedOnce, Nexts;
      list', picked' := list, picked;
      ghost var j := Last(at, |at|, b);
      LastIsLast(at, |at|, b);
      var obj := cells[b.0, b.1];
      while obj != null
        invariant -1 <= j < |placed| && obj == Ref(placed, j) && (j >= 0 ==> at[j] == b)
        invariant exact ==> Picks(list', picked')
        invariant exact ==> forall k :: 0 <= k < |placed| ==> (k in picked' <==> k in picked || (at[k] == b && k > j))
        decreases j
      {
        if |list'| >= MAX_TOTAL_OBJECTS {
          if exact {
            FitsOneMore(list', picked', j);
            assert false;  // the overflow branch
          }
          return;
        }
        if exact {
          DistinctAppend(picked', j);
        }
        list' := list' + [obj];
        picked' := picked' + [j];
        PrevIsLast(j);
        obj := obj.cellPrev;
        j := PrevOf(at, j);
      }
    }

    /** One column of blocks. */
    method CollectColumn(xw: int, miny: int, maxy: int, list: seq<Obj>, ghost picked: seq<int>, ghost exact: bool)
        returns (list': seq<Obj>, ghost picked': seq<int>)
      requires Valid() && |placed| <= MAX_TOTAL_OBJECTS && 0 <= xw < w
      requires 0 <= miny < h && maxy <= miny + h && (exact ==> maxy < miny + h)
      requires exact ==> Picks(list, picked) && forall k <- picked :: at[k].0 != xw
      ensures exact ==> Picks(list', picked')
      ensures exact ==> forall k :: 0 <= k < |placed| ==>
                (k in picked' <==> k in picked || (at[k].0 == xw && InSpan(at[k].1, miny, maxy + 1, h)))
    {
      AllOnMap();
      hide Valid, Distinct;
      list', picked' := list, picked;
      var yr, yw := miny, miny;
      while yr <= maxy
        invariant miny <= yr && (yr <= maxy + 1 || yr == miny)
        invariant 0 <= yw <= h && (yw == yr || yw == yr - h)
        invariant exact ==> Picks(list', picked')
        invariant exact ==> forall k :: 0 <= k < |placed| ==>
                    (k in picked' <==> k in picked || (at[k].0 == xw && InSpan(at[k].1, miny, yr, h)))
      {
        if yw >= h {
          yw := yw - h;
        }
        NewPlace(yw, miny, yr, h);
        if exact {
          assert forall k <- picked' :: at[k] != (xw, yw);
        }
        list', picked' := Collect((xw, yw), list', picked', exact);
        yr, yw := yr + 1, yw + 1;
      }
    }

    ghost predicate Picks(list: seq<Obj>, picked: seq<int>)
      reads this
    {
      && |list| == |picked| && Distinct(picked) && |at| == |placed|
      && forall i :: 0 <= i < |picked| ==> 0 <= picked[i] < |placed| && list[i] == placed[picked[i]]
    }

    /** The columns one after the other. */
    method CollectArea(minx: int, maxx: int, miny: int, maxy: int, ghost exact: bool)
        returns (list: seq<Obj>, ghost picked: seq<int>)
      requires Valid() && |placed| <= MAX_TOTAL_OBJECTS
      requires 0 <= minx < w && maxx <= minx + w && (exact ==> maxx < minx + w)
      requires 0 <= miny < h && maxy <= miny + h && (exact ==> maxy < miny + h)
      ensures exact ==> Picks(list, picked)
      ensures exact ==> forall k :: 0 <= k < |placed| ==>
                (k in picked <==> InSpan(at[k].0, minx, Max(minx, maxx + 1), w) && InSpan(at[k].1, miny, maxy + 1, h))
    {
      AllOnMap();
      hide Valid, Distinct;
      list, picked := [], [];
      var xr, xw := minx, minx;
      NothingPicked();
      while xr <= maxx
        invariant minx <= xr && (xr <= maxx + 1 || xr == minx)
        invariant 0 <= xw <= w && (xw == xr || xw == xr - w)
        invariant exact ==> Picks(list, picked)
        invariant exact ==> forall k :: 0 <= k < |placed| ==>
                    (k in picked <==> InSpan(at[k].0, minx, xr, w) && InSpan(at[k].1, miny, maxy + 1, h))
      {
        if xw >= w {
          xw := xw - w;
        }
        NewPlace(xw, minx, xr, w);
        list, picked := CollectColumn(xw, miny, maxy, list, picked, exact);
        xr, xw := xr + 1, xw + 1;
      }
    }

    lemma NothingPicked()
      requires Valid()
      ensures Picks([], [])
    {
    }

    lemma AllOnMap()
      requires Valid()
      ensures |at| == |placed| && forall k :: 0 <= k < |at| ==> OnMap(at[k])
    {
    }

    /** Collision_cells_objects_get: the objects near block (x, y), each once. */
    method ObjectsGet(x: nat, y: nat, r: nat, wrap: bool) returns (list: seq<Obj>)
      requires Valid() && OnMap((x, y)) && |placed| <= MAX_TOTAL_OBJECTS
      ensures |at| == |placed|
      ensures var rr := Effective(r, wrap);
              Exact(rr, wrap) ==>
                && Distinct(list) && (forall o <- list :: o in placed)
                && forall k :: 0 <= k < |placed| ==> (placed[k] in list <==> Near(at[k], x, y, rr, wrap))
    {
      hide Valid, Picks, Distance, InSpan, Distinct;
      AllOnMap();
      PlacedOnce();
      ghost var picked;
      var rr := r;
      if wrap {
        if 2 * rr > w { rr := w / 2; }
        if 2 * rr > h { rr := h / 2; }
      } else {
        if rr > w { rr := w; }
        if rr > h { rr := h; }
      }
      var minx, maxx := Clip(x, rr, w, wrap);
      var miny, maxy := Clip(y, rr, h, wrap);
      list, picked := CollectArea(minx, maxx, miny, maxy, Exact(rr, wrap));
      if Exact(rr, wrap) {
        forall k | 0 <= k < |placed|
          ensures InSpan(at[k].0, minx, Max(minx, maxx + 1), w) && InSpan(at[k].1, miny, maxy + 1, h)
             <==> Near(at[k], x, y, rr, wrap)
        {
          assert OnMap(at[k]);
        }
        PickedOnce(list, picked);
      }
    }

    lemma PickedOnce(list: seq<Obj>, picked: seq<int>)
      requires Picks(list, picked) && Distinct(placed)
      ensures Distinct(list) && (forall o <- list :: o in placed)
      ensures forall k :: 0 <= k < |placed| ==> (placed[k] in list <==> k in picked)
    {
      forall k | 0 <= k < |placed|
        ensures placed[k] in list <==> k in picked
      {
        if k in picked {
          var i :| 0 <= i < |picked| && picked[i] == k;
          assert list[i] == placed[k];
        }
      }
    }

    /** One frame: whatever objects there are, asking for those near a block gives each unexpired one
        within the radius exactly once and nothing else, and the frame leaves no trace. */
    method Frame(objs: seq<Obj>, x: nat, y: nat, r: nat, wrap: bool) returns (list: seq<Obj>)
      requires Valid() && placed == [] && Distinct(objs) && |objs| <= MAX_TOTAL_OBJECTS
      requires forall o <- objs :: Clean(o) && (o.life > 0 ==> OnMap((o.x, o.y)))
      requires OnMap((x, y))
      modifies this`used, this`placed, this`at, cells, objs`cellPrev, objs`cellNext
      ensures Valid() && placed == [] && forall o <- objs :: Clean(o)
      ensures var rr := Effective(r, wrap);
              Exact(rr, wrap) ==>
                && Distinct(list)
                && forall o :: o in list <==> o in objs && o.life > 0 && Near((o.x, o.y), x, y, rr, wrap)
    {
      hide Valid, Near, Exact, Effective;
      Init(objs);
      list := ObjectsGet(x, y, r, wrap);
      var rr := Effective(r, wrap);
      if Exact(rr, wrap) {
        NearOnes(list, x, y, rr, wrap);
      }
      ghost var members := placed;
      Cleanup();
      forall o | o in objs
        ensures Clean(o)
      {
        assert o in members || o.life <= 0;
      }
    }

    lemma PlacedOnce()
      requires Valid()
      ensures Distinct(placed) && |at| == |placed|
    {
    }

    lemma NearOnes(list: seq<Obj>, x: nat, y: nat, r: nat, wrap: bool)
      requires |at| == |placed| && forall o <- list :: o in placed
      requires forall k :: 0 <= k < |placed| ==> (placed[k] in list <==> Near(at[k], x, y, r, wrap))
      requires forall k :: 0 <= k < |placed| ==> at[k] == (placed[k].x, placed[k].y)
      ensures forall o :: o in list <==> o in placed && Near((o.x, o.y), x, y, r, wrap)
    {
      hide Near;
      forall o
        ensures o in list <==> o in placed && Near((o.x, o.y), x, y, r, wrap)
      {
        if o in placed {
          var k :| 0 <= k < |placed| && placed[k] == o;
        }
      }
    }

    lemma FitsOneMore(list: seq<Obj>, picked: seq<int>, j: nat)
      requires Picks(list, picked) && j !in picked && j < |placed| <= MAX_TOTAL_OBJECTS
      ensures |list| < MAX_TOTAL_OBJECTS
    {
      DistinctAppend(picked, j);
      Pigeonhole(picked + [j], |placed|);
    }
  }

  /** Block distance along one axis, the shorter way round if the map wraps. */
  function Distance(a: int, b: int, size: nat, wrap: bool): int {
    var d := if a < b then b - a else a - b;
    if wrap && size - d < d then size - d else d
  }

  /** How far the farthest place is. */
  function Farthest(x: nat, size: nat, wrap: bool): (d: int)
    requires x < size
    ensures d >= 0
  {
    if wrap then size / 2 else Max(x, size - 1 - x)
  }

  lemma DistanceAtMost(x: nat, size: nat, wrap: bool)
    requires x < size
    ensures forall v :: 0 <= v < size ==> 0 <= Distance(v, x, size, wrap) <= Farthest(x, size, wrap)
  {
  }

  lemma NoDistance(x: nat, size: nat, wrap: bool)
    requires x < size
    ensures Distance(x, x, size, wrap) == 0
  {
  }

  lemma SomePlaceAt(x: nat, size: nat, wrap: bool, d: int)
    requires x < size && 0 <= d <= Farthest(x, size, wrap)
    ensures exists v :: 0 <= v < size && Distance(v, x, size, wrap) == d
  {
    var v := if x >= d then x - d else if x + d < size then x + d else x - d + size;
    assert 0 <= v < size && Distance(v, x, size, wrap) == d;
  }

  /** Place v is visited between lo and hi, the edge folded over. */
  predicate InSpan(v: int, lo: int, hi: int, size: nat) {
    lo <= v < hi || lo <= v + size < hi
  }

  /** First and last column (or row) to visit; the last may lie past the edge of a map that wraps. */
  method Clip(x: nat, r: nat, size: nat, wrap: bool) returns (lo: int, hi: int)
    requires x < size && (wrap ==> 2 * r <= size)
    ensures 0 <= lo < size && lo <= hi <= lo + size && ((wrap && 2 * r == size) || hi < lo + size)
    ensures (wrap ==> 2 * r < size) ==>
              forall v :: 0 <= v < size ==> (InSpan(v, lo, hi + 1, size) <==> Distance(v, x, size, wrap) <= r)
  {
    lo, hi := x - r, x + r;
    if wrap {
      if lo < 0 {
        lo, hi := lo + size, hi + size;
      }
    } else {
      if lo < 0 {
        lo := 0;
      }
      if hi >= size {
        hi := size - 1;
      }
    }
  }

  /** The next place in a span is a new one, and joins the span. */
  lemma NewPlace(v: int, lo: int, hi: int, size: nat)
    requires 0 <= v < size && (v == hi || v == hi - size) && 0 <= lo <= hi
    ensures hi < lo + size ==> !InSpan(v, lo, hi, size)
    ensures forall u :: 0 <= u < size ==> (InSpan(u, lo, hi + 1, size) <==> InSpan(u, lo, hi, size) || u == v)
  {
  }
}
