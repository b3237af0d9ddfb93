/** The grid on which src/common/shipshape.cpp finds out what is outside a ship: blank cells are
    marked from the border inwards with a work queue. */
module ShipFill {
  import opened Sequences

  const LIMIT: int := 15
  const SIDE: nat := 31
  const CELLS: nat := SIDE * SIDE

  type Cell = (int, int)

  predicate Inside(c: Cell) {
    -LIMIT <= c.0 <= LIMIT && -LIMIT <= c.1 <= LIMIT
  }

  predicate Border(c: Cell) {
    Inside(c) && (c.0 == -LIMIT || c.0 == LIMIT || c.1 == -LIMIT || c.1 == LIMIT)
  }

  predicate Neighbours(c: Cell, d: Cell) {
    (c.0 == d.0 && (c.1 == d.1 + 1 || d.1 == c.1 + 1)) || (c.1 == d.1 && (c.0 == d.0 + 1 || d.0 == c.0 + 1))
  }

  /** A path of blank cells from the border, each a neighbour of the one before. */
  ghost predicate Path(p: seq<Cell>, blank: set<Cell>) {
    && p != [] && Border(p[0])
    && (forall i :: 0 <= i < |p| ==> Inside(p[i]) && p[i] in blank)
    && (forall i :: 0 < i < |p| ==> Neighbours(p[i - 1], p[i]))
  }

  ghost predicate Outside(c: Cell, blank: set<Cell>) {
    exists p :: Path(p, blank) && p[|p| - 1] == c
  }

  lemma BorderIsOutside(c: Cell, blank: set<Cell>)
    requires Border(c) && c in blank
    ensures Outside(c, blank)
  {
    assert Path([c], blank) && [c][0] == c;
  }

  lemma NeighbourIsOutside(c: Cell, d: Cell, blank: set<Cell>)
    requires Outside(c, blank) && Neighbours(c, d) && Inside(d) && d in blank
    ensures Outside(d, blank)
  {
    var p :| Path(p, blank) && p[|p| - 1] == c;
    var q := p + [d];
    assert Path(q, blank) && q[|q| - 1] == d;
  }

  lemma FourOutside(x: int, y: int, blank: set<Cell>)
    requires Outside((x, y), blank)
    ensures x < LIMIT && Inside((x + 1, y)) && (x + 1, y) in blank ==> Outside((x + 1, y), blank)
    ensures x > -LIMIT && Inside((x - 1, y)) && (x - 1, y) in blank ==> Outside((x - 1, y), blank)
    ensures y < LIMIT && Inside((x, y + 1)) && (x, y + 1) in blank ==> Outside((x, y + 1), blank)
    ensures y > -LIMIT && Inside((x, y - 1)) && (x, y - 1) in blank ==> Outside((x, y - 1), blank)
  {
    hide Outside;
    if Inside((x + 1, y)) && (x + 1, y) in blank { NeighbourIsOutside((x, y), (x + 1, y), blank); }
    if Inside((x - 1, y)) && (x - 1, y) in blank { NeighbourIsOutside((x, y), (x - 1, y), blank); }
    if Inside((x, y + 1)) && (x, y + 1) in blank { NeighbourIsOutside((x, y), (x, y + 1), blank); }
    if Inside((x, y - 1)) && (x, y - 1) in blank { NeighbourIsOutside((x, y), (x, y - 1), blank); }
  }

  /** Cells that contain the blank border and all blank neighbours of their own contain everything
      that is outside. */
  ghost predicate Closed(q: set<Cell>, blank: set<Cell>) {
    && (forall c: Cell :: Border(c) && c in blank ==> c in q)
    && (forall c: Cell, d: Cell :: c in q && Neighbours(c, d) && Inside(d) && d in blank ==> d in q)
  }

  lemma {:induction false} PathStays(p: seq<Cell>, q: set<Cell>, blank: set<Cell>)
    requires Path(p, blank) && Closed(q, blank)
    ensures p[|p| - 1] in q
  {
    if |p| > 1 {
      var shorter := p[..|p| - 1];
      assert Path(shorter, blank);
      PathStays(shorter, q, blank);
      assert Neighbours(p[|p| - 2], p[|p| - 1]);
    }
  }

  lemma ClosedHasOutside(q: set<Cell>, blank: set<Cell>)
    requires Closed(q, blank)
    ensures forall c :: Outside(c, blank) ==> c in q
  {
    forall c | Outside(c, blank)
      ensures c in q
    {
      var p :| Path(p, blank) && p[|p| - 1] == c;
      PathStays(p, q, blank);
    }
  }

  // ---- the queue has room

  function Number(c: Cell): int {
    (c.0 + LIMIT) * SIDE + (c.1 + LIMIT)
  }

  lemma NumbersDiffer(c: Cell, d: Cell)
    requires Inside(c) && Inside(d)
    ensures 0 <= Number(c) < CELLS
    ensures Number(c) == Number(d) ==> c == d
  {
  }

  /** Cells queued at most once never overrun the queue. */
  lemma AtMostAllCells(queue: seq<Cell>)
    requires Distinct(queue) && forall i :: 0 <= i < |queue| ==> Inside(queue[i])
    ensures |queue| <= CELLS
  {
    hide Number;
    var numbers := seq(|queue|, i requires 0 <= i < |queue| => Number(queue[i]));
    forall i, j | 0 <= i < j < |numbers|
      ensures numbers[i] != numbers[j]
    {
      NumbersDiffer(queue[i], queue[j]);
    }
    forall i | 0 <= i < |numbers|
      ensures 0 <= numbers[i] < CELLS
    {
      NumbersDiffer(queue[i], queue[i]);
    }
    Pigeonhole(numbers, CELLS);
  }

  class Grid {
    const pt: array2<int>
    const chk: array<Cell>
    var todo: nat
    var done: nat
    ghost var queue: seq<Cell>
    ghost var blank: set<Cell>

    /** The macros shift coordinates by 15; chk holds shifted ones. */
    ghost predicate Valid()
      reads this, pt, chk
    {
      && pt.Length0 == pt.Length1 == 32 && chk.Length == 32 * 32
      && done <= todo == |queue|
      && Distinct(queue)
      && (forall k :: 0 <= k < |queue| ==>
            k < chk.Length && chk[k] == (queue[k].0 + LIMIT, queue[k].1 + LIMIT)
            && Inside(queue[k]) && queue[k] in blank && Outside(queue[k], blank))
      && (forall c: Cell :: Inside(c) ==>
            && (At(c) == 0 <==> c in blank && c !in queue)
            && (At(c) == 1 <==> c !in blank)
            && (At(c) == 2 <==> c in queue))
    }

    function At(c: Cell): int
      requires Inside(c) && pt.Length0 == pt.Length1 == 32
      reads pt
    {
      pt[c.0 + LIMIT, c.1 + LIMIT]
    }

    constructor ()
      ensures fresh(pt) && fresh(chk)
      ensures Valid() && queue == [] && done == 0
      ensures forall c: Cell :: c in blank <==> Inside(c)
    {
      pt := new int[32, 32]((_, _) => 0);
      chk := new Cell[32 * 32](_ => (0, 0));
      todo, done := 0, 0;
      queue := [];
      blank := set x, y | -LIMIT <= x <= LIMIT && -LIMIT <= y <= LIMIT :: (x, y);
    }

    /** GRID_ADD: marks a blank cell and queues it. */
    method Add(x: int, y: int)
      requires Valid() && Inside((x, y)) && At((x, y)) == 0 && Outside((x, y), blank)
      modifies this`todo, this`queue, pt, chk
      ensures Valid() && queue == old(queue) + [(x, y)]
    {
      hide Outside;
      AtMostAllCells(queue + [(x, y)]);
      pt[x + LIMIT, y + LIMIT] := 2;
      chk[todo] := (x + LIMIT, y + LIMIT);
      todo := todo + 1;
      queue := queue + [(x, y)];
    }

    method AddIfBlank(x: int, y: int)
      requires Valid() && Inside((x, y))
      requires (x, y) in blank ==> Outside((x, y), blank)
      modifies this`todo, this`queue, pt, chk
      ensures Valid() && old(queue) <= queue
      ensures (x, y) in blank ==> (x, y) in queue
    {
      hide Outside;
      assert At((x, y)) == pt[x + LIMIT, y + LIMIT];
      if pt[x + LIMIT, y + LIMIT] == 0 {
        Add(x, y);
      }
    }

    /** Blank points on the borders of the grid. */
    method AddBorders()
      requires Valid() && done == 0
      modifies this`todo, this`queue, pt, chk
      ensures Valid()
      ensures forall c: Cell :: Border(c) && c in blank ==> c in queue
    {
      hide Outside, Valid;
      var y := -LIMIT;
      while y <= LIMIT
        invariant -LIMIT <= y <= LIMIT + 1 && Valid()
        invariant forall c: Cell :: Border(c) && c in blank && c.1 < y ==> c in queue
      {
        var x := -LIMIT;
        while x <= LIMIT
          invariant -LIMIT <= x && Valid()
          invariant if y == -LIMIT || y == LIMIT then x <= LIMIT + 1 else x == -LIMIT || x == LIMIT || x == 3 * LIMIT
          invariant forall c: Cell :: Border(c) && c in blank && (c.1 < y || (c.1 == y && c.0 < x)) ==> c in queue
          decreases LIMIT - x
        {
          if (x, y) in blank {
            BorderIsOutside((x, y), blank);
          }
          ghost var before := queue;
          AddIfBlank(x, y);
          assert forall c :: c in before ==> c in queue;
          x := x + (if y == -LIMIT || y == LIMIT then 1 else 2 * LIMIT);
        }
        y := y + 1;
      }
    }

    ghost predicate Processed(k: nat)
      reads this
    {
      forall i, d: Cell :: 0 <= i < k && i < |queue| && Neighbours(queue[i], d) && Inside(d) && d in blank ==>
          d in queue
    }

    lemma Bounds()
      requires Valid()
      ensures done <= todo == |queue| <= CELLS
    {
      AtMostAllCells(queue);
    }

    /** GRID_GET: the next cell of the queue. */
    method Get() returns (x: int, y: int)
      requires Valid() && done < todo
      modifies this`done
      ensures Valid() && done == old(done) + 1 <= |queue|
      ensures (x, y) == queue[done - 1] && Inside((x, y)) && Outside((x, y), blank)
    {
      hide Outside, Distinct;
      assert Inside(queue[done]) && queue[done] in queue && Outside(queue[done], blank);
      x, y := chk[done].0 - LIMIT, chk[done].1 - LIMIT;
      done := done + 1;
    }

    /** The four tests. */
    method AddNeighbours(x: int, y: int)
      requires Valid() && Inside((x, y)) && Outside((x, y), blank)
      modifies this`todo, this`queue, pt, chk
      ensures Valid() && old(queue) <= queue
      ensures forall d: Cell :: Neighbours((x, y), d) && Inside(d) && d in blank ==> d in queue
    {
      hide Outside, Valid, Neighbours;
      FourOutside(x, y, blank);
      if x < LIMIT { AddIfBlank(x + 1, y); }
      ghost var q1 := queue;
      if x > -LIMIT { AddIfBlank(x - 1, y); }
      ghost var q2 := queue;
      if y < LIMIT { AddIfBlank(x, y + 1); }
      ghost var q3 := queue;
      if y > -LIMIT { AddIfBlank(x, y - 1); }
      Grown((x, y), q1, q2, q3);
    }

    lemma Grown(c: Cell, q1: seq<Cell>, q2: seq<Cell>, q3: seq<Cell>)
      requires q1 <= q2 <= q3 <= queue
      requires c.0 < LIMIT && (c.0 + 1, c.1) in blank ==> (c.0 + 1, c.1) in q1
      requires c.0 > -LIMIT && (c.0 - 1, c.1) in blank ==> (c.0 - 1, c.1) in q2
      requires c.1 < LIMIT && (c.0, c.1 + 1) in blank ==> (c.0, c.1 + 1) in q3
      requires c.1 > -LIMIT && (c.0, c.1 - 1) in blank ==> (c.0, c.1 - 1) in queue
      ensures forall d: Cell :: Neighbours(c, d) && Inside(d) && d in blank ==> d in queue
    {
    }

    /** One cell off the queue, its blank neighbours onto it. */
    method Step()
      requires Valid() && done < todo && Processed(done)
      modifies this, pt, chk
      ensures Valid() && Processed(done) && done == old(done) + 1 && blank == old(blank)
      ensures forall c :: c in old(queue) ==> c in queue
    {
      hide Outside, Valid, Neighbours;
      Bounds();
      var x, y := Get();
      ghost var before := queue;
      AddNeighbours(x, y);
      forall i, d: Cell | 0 <= i < done && i < |queue| && Neighbours(queue[i], d) && Inside(d) && d in blank
        ensures d in queue
      {
        if i < done - 1 {
          assert before[i] == queue[i] && d in before;
        } else {
          assert queue[i] == (x, y);
        }
      }
    }

    lemma Filled()
      requires Valid() && done == todo && Processed(done)
      requires forall c: Cell :: Border(c) && c in blank ==> c in queue
      ensures forall c: Cell :: Inside(c) ==>
                At(c) == if c !in blank then 1 else if Outside(c, blank) then 2 else 0
    {
      hide Outside, Distinct;
      var q := set c | c in queue;
      forall c: Cell, d: Cell | c in q && Neighbours(c, d) && Inside(d) && d in blank
        ensures d in q
      {
        var i :| 0 <= i < |queue| && queue[i] == c;
        assert Neighbours(queue[i], d);
      }
      ClosedHasOutside(q, blank);
    }

    /** Marks with 2 exactly the blank cells that a path of blank cells joins to the border; the
        outline keeps its 1 and whatever is inside stays 0. */
    method Fill()
      requires Valid() && queue == [] && done == 0
      modifies this, pt, chk
      ensures Valid() && blank == old(blank) && done == todo <= CELLS
      ensures forall c: Cell :: Inside(c) ==>
                At(c) == if c !in blank then 1 else if Outside(c, blank) then 2 else 0
    {
      hide Outside, Valid;
      AddBorders();
      while done < todo
        invariant Valid() && Processed(done) && blank == old(blank)
        invariant forall c: Cell :: Border(c) && c in blank ==> c in queue
        decreases CELLS - done
      {
        Bounds();
        Step();
      }
      Bounds();
      Filled();
    }
  }
}
