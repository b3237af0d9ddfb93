/** The outline of a ship on the grid of src/common/shipshape.cpp: between consecutive points one cell
    per step of the longer axis, the other coordinate by truncating division. */
module ShipOutline {
  import opened Arithmetic
  import opened ShipFill

  function Abs(n: int): nat { if n < 0 then -n else n }

  /** C division: towards zero. */
  function Trunc(n: int, d: int): int
    requires d != 0
  {
    if (n >= 0) == (d > 0) then Abs(n) / Abs(d) else -(Abs(n) / Abs(d))
  }

  predicate Flat(a: Cell, b: Cell) {
    Abs(b.0 - a.0) >= Abs(b.1 - a.1)
  }

  /** y for a given x on a segment that is longer in x. */
  function RowAt(a: Cell, b: Cell, x: int): int
    requires b.0 != a.0
  {
    if b.0 > a.0 then a.1 + Trunc((b.1 - a.1) * (x - a.0), b.0 - a.0)
    else b.1 + Trunc((b.1 - a.1) * (x - b.0), b.0 - a.0)
  }

  /** x for a given y on a segment that is longer in y. */
  function ColumnAt(a: Cell, b: Cell, y: int): int
    requires b.1 != a.1
  {
    if b.1 > a.1 then a.0 + Trunc((b.0 - a.0) * (y - a.1), b.1 - a.1)
    else b.0 + Trunc((b.0 - a.0) * (y - b.1), b.1 - a.1)
  }

  predicate Between(x: int, a: int, b: int) {
    a < x < b || b < x < a
  }

  /** The cells drawn for a segment: its first point and one cell for each place strictly between. */
  predicate Drawn(c: Cell, a: Cell, b: Cell) {
    c == a
    || (if Flat(a, b) then Between(c.0, a.0, b.0) && c.1 == RowAt(a, b, c.0)
        else Between(c.1, a.1, b.1) && c.0 == ColumnAt(a, b, c.1))
  }

  // ---- a segment is a chain of touching cells

  function Steps(a: Cell, b: Cell): nat {
    Max(Abs(b.0 - a.0), Abs(b.1 - a.1))
  }

  function Toward(a: int, b: int, t: int): int {
    if a < b then a + t else a - t
  }

  /** The cell t steps from a on the way to b. */
  function Point(a: Cell, b: Cell, t: nat): Cell {
    if a == b then a
    else if Flat(a, b) then var x := Toward(a.0, b.0, t); (x, RowAt(a, b, x))
    else var y := Toward(a.1, b.1, t); (ColumnAt(a, b, y), y)
  }

  predicate Touch(c: Cell, d: Cell) {
    -1 <= c.0 - d.0 <= 1 && -1 <= c.1 - d.1 <= 1
  }

  predicate InBox(c: Cell, a: Cell, b: Cell) {
    && (a.0 <= c.0 <= b.0 || b.0 <= c.0 <= a.0)
    && (a.1 <= c.1 <= b.1 || b.1 <= c.1 <= a.1)
  }

  lemma QuotientStep(m: nat, k: nat, n: nat)
    requires n > 0 && k <= n
    ensures m / n <= (m + k) / n <= m / n + 1
  {
    var q := m / n;
    QuotientLe(m, m + k, n);
    QuotientLe(m + k, m + n, n);
    assert n * (q + 1) == n * q + n && m == n * q + m % n;
    QuotientIs(m + n, n, q + 1);
  }

  /** A line of slope k/n with k <= n: one step along it is at most one up, t steps at most k. */
  lemma DivideStep(k: nat, t: nat, n: nat)
    requires n > 0 && k <= n
    ensures k * t / n <= k * (t + 1) / n <= k * t / n + 1
  {
    MulSuccessor(k, t);
    QuotientStep(k * t, k, n);
  }

  lemma DivideRange(k: nat, t: nat, n: nat)
    requires n > 0 && t <= n
    ensures 0 <= k * t / n <= k
  {
    MulLe(k, t, n);
    QuotientLe(k * t, k * n, n);
    WholeSlope(k, n);
  }

  lemma MulSuccessor(k: nat, t: nat)
    ensures k * (t + 1) == k * t + k
  {
  }

  lemma WholeSlope(k: nat, n: nat)
    requires n > 0
    ensures k * n / n == k && k * 0 / n == 0
  {
    assert n * k == k * n;
    QuotientIs(k * n, n, k);
  }

  lemma MulLe(k: nat, t: nat, n: nat)
    requires t <= n
    ensures k * t <= k * n
  {
    assert k * (n - t) >= 0;
    assert k * n == k * t + k * (n - t);
  }

  lemma QuotientIs(m: nat, n: nat, q: nat)
    requires n > 0 && n * q <= m < n * q + n
    ensures m / n == q
  {
    var d := m / n - q;
    assert m == n * (m / n) + m % n;
    assert n * (m / n) == n * q + n * d;
    MulSign(n, d);
  }

  lemma QuotientLe(a: nat, b: nat, n: nat)
    requires n > 0 && a <= b
    ensures a / n <= b / n
  {
    var d := a / n - b / n;
    assert a == n * (a / n) + a % n && b == n * (b / n) + b % n;
    assert n * (a / n) == n * (b / n) + n * d;
    MulSign(n, d);
  }

  /** Truncation only loses the sign: the slope moves by at most one a step, and away from zero. */
  lemma SlopeParts(d: int, t: nat, m: int)
    requires m != 0
    ensures Trunc(d * t, m) == if (d >= 0) == (m > 0) then Abs(d) * t / Abs(m) else -(Abs(d) * t / Abs(m))
  {
    if d >= 0 {
      assert d * t >= 0;
    } else if t == 0 {
      assert d * t == 0 && Abs(d) * t == 0;
    } else {
      assert (-d) * t >= 1 * t by { MulLe(t, 1, -d); }
      assert d * t == -((-d) * t);
    }
  }

  /** Offsets across a segment of length |m|, t steps along it. */
  lemma SlopeStep(d: int, t: nat, m: int)
    requires m != 0 && t < Abs(m) && Abs(d) <= Abs(m)
    ensures -1 <= Trunc(d * (t + 1), m) - Trunc(d * t, m) <= 1
  {
    hide Trunc;
    SlopeParts(d, t, m);
    SlopeParts(d, t + 1, m);
    DivideStep(Abs(d), t, Abs(m));
  }

  lemma SlopeRange(d: int, t: nat, m: int)
    requires m != 0 && t <= Abs(m) && Abs(d) <= Abs(m)
    ensures Abs(Trunc(d * t, m)) <= Abs(d)
    ensures d != 0 && (d > 0) == (m > 0) ==> Trunc(d * t, m) >= 0
    ensures d != 0 && (d > 0) != (m > 0) ==> Trunc(d * t, m) <= 0
  {
    hide Trunc;
    SlopeParts(d, t, m);
    DivideRange(Abs(d), t, Abs(m));
  }

  lemma SlopeEnds(d: int, m: int)
    requires m != 0
    ensures Trunc(d * 0, m) == 0
    ensures m > 0 ==> Trunc(d * m, m) == d
    ensures m < 0 ==> Trunc(d * -m, m) == -d
  {
    hide Trunc;
    SlopeParts(d, 0, m);
    SlopeParts(d, Abs(m), m);
    WholeSlope(Abs(d), Abs(m));
  }

  function Swap(c: Cell): Cell { (c.1, c.0) }

  /** Segments longer in x: the other case is its mirror image. */
  lemma FlatChain(a: Cell, b: Cell, t: nat)
    requires Flat(a, b) && a.0 != b.0 && t <= Abs(b.0 - a.0)
    ensures var x := Toward(a.0, b.0, t);
            && InBox((x, RowAt(a, b, x)), a, b)
            && (t < Abs(b.0 - a.0) ==> -1 <= RowAt(a, b, Toward(a.0, b.0, t + 1)) - RowAt(a, b, x) <= 1)
    ensures RowAt(a, b, a.0) == a.1 && RowAt(a, b, b.0) == b.1
  {
    hide Trunc;
    var dx, dy := b.0 - a.0, b.1 - a.1;
    SlopeEnds(dy, dx);
    if dx > 0 {
      SlopeRange(dy, t, dx);
      if t < dx { SlopeStep(dy, t, dx); }
    } else {
      var s := -dx - t;
      assert Toward(a.0, b.0, t) - b.0 == s;
      SlopeRange(dy, s, dx);
      if t < -dx {
        SlopeStep(dy, s - 1, dx);
        assert Toward(a.0, b.0, t + 1) - b.0 == s - 1;
      }
    }
  }

  lemma SteepIsFlatMirrored(a: Cell, b: Cell, y: int)
    requires !Flat(a, b)
    ensures Flat(Swap(a), Swap(b)) && a.1 != b.1 && ColumnAt(a, b, y) == RowAt(Swap(a), Swap(b), y)
  {
  }

  /** From a to b, cell by cell, each touching the next and none outside the box of a and b. */
  lemma SegmentIsChain(a: Cell, b: Cell, t: nat)
    requires t <= Steps(a, b)
    ensures InBox(Point(a, b, t), a, b)
    ensures t < Steps(a, b) ==> Touch(Point(a, b, t), Point(a, b, t + 1))
    ensures Point(a, b, 0) == a && Point(a, b, Steps(a, b)) == b
  {
    hide RowAt, ColumnAt;
    if a == b {
    } else if Flat(a, b) {
      FlatChain(a, b, t);
    } else {
      SteepIsFlatMirrored(a, b, Toward(a.1, b.1, t));
      SteepIsFlatMirrored(a, b, Toward(a.1, b.1, t + 1));
      SteepIsFlatMirrored(a, b, a.1);
      SteepIsFlatMirrored(a, b, b.1);
      FlatChain(Swap(a), Swap(b), t);
    }
  }

  /** What is drawn for a segment is that chain without its last cell. */
  lemma DrawnIsChain(c: Cell, a: Cell, b: Cell)
    ensures Drawn(c, a, b) <==> c == a || exists t :: 0 <= t < Steps(a, b) && Point(a, b, t) == c
  {
    SegmentIsChain(a, b, 0);
    hide RowAt, ColumnAt;
    if Drawn(c, a, b) && c != a {
      var t := if Flat(a, b) then Abs(c.0 - a.0) else Abs(c.1 - a.1);
      assert Point(a, b, t) == c;
    }
    if t :| 0 <= t < Steps(a, b) && Point(a, b, t) == c {
      if t > 0 {
        assert Drawn(c, a, b);
      }
    }
  }

  // ---- the whole outline

  /** The chain of one segment, both ends included. */
  function Chain(a: Cell, b: Cell): seq<Cell> {
    seq(Steps(a, b) + 1, t requires 0 <= t <= Steps(a, b) => Point(a, b, t))
  }

  function NextIndex(points: seq<Cell>, i: nat): nat
    requires i < |points|
  {
    if i + 1 == |points| then 0 else i + 1
  }

  /** The chains of the segments from the i-th on, one behind the other. */
  function Loop(points: seq<Cell>, i: nat): seq<Cell>
    requires i <= |points|
    decreases |points| - i
  {
    if i == |points| then []
    else Chain(points[i], points[NextIndex(points, i)]) + Loop(points, i + 1)
  }

  ghost predicate Connected(cells: seq<Cell>) {
    forall k :: 0 < k < |cells| ==> Touch(cells[k - 1], cells[k])
  }

  lemma ChainConnected(a: Cell, b: Cell)
    ensures var c := Chain(a, b); c != [] && c[0] == a && c[|c| - 1] == b && Connected(c)
  {
    hide Point;
    SegmentIsChain(a, b, 0);
    forall k | 0 < k < |Chain(a, b)|
      ensures Touch(Chain(a, b)[k - 1], Chain(a, b)[k])
    {
      SegmentIsChain(a, b, k - 1);
    }
  }

  lemma ConnectedJoin(p: seq<Cell>, q: seq<Cell>)
    requires Connected(p) && Connected(q) && p != []
    requires q != [] ==> p[|p| - 1] == q[0]
    ensures Connected(p + q)
  {
    forall k | 0 < k < |p + q|
      ensures Touch((p + q)[k - 1], (p + q)[k])
    {
      if k > |p| {
        assert Touch(q[k - |p| - 1], q[k - |p|]);
      }
    }
  }

  /** The segments in turn make one connected chain that comes back to where it started. */
  lemma {:induction false} LoopIsClosed(points: seq<Cell>, i: nat)
    requires i < |points|
    ensures var loop := Loop(points, i);
            loop != [] && Connected(loop) && loop[0] == points[i] && loop[|loop| - 1] == points[0]
    decreases |points| - i
  {
    hide Chain, Connected;
    var a, b := points[i], points[NextIndex(points, i)];
    ChainConnected(a, b);
    if i + 1 < |points| {
      LoopIsClosed(points, i + 1);
      ConnectedJoin(Chain(a, b), Loop(points, i + 1));
    } else {
      assert Chain(a, b) + [] == Chain(a, b);
    }
  }

  /** Drawn for the i-th segment. */
  predicate DrawnFor(points: seq<Cell>, i: nat, c: Cell)
    requires i < |points|
  {
    Drawn(c, points[i], points[NextIndex(points, i)])
  }

  /** Drawn for one of the segments from the i-th up to the n-th. */
  ghost predicate OnOutline(points: seq<Cell>, i: nat, n: nat, c: Cell)
    requires n <= |points|
  {
    exists k :: i <= k < n && DrawnFor(points, k, c)
  }

  lemma OnOutlineFirst(points: seq<Cell>, i: nat, c: Cell)
    requires i < |points|
    ensures OnOutline(points, i, |points|, c) <==> DrawnFor(points, i, c) || OnOutline(points, i + 1, |points|, c)
  {
    hide DrawnFor;
  }

  /** The drawn cells are the cells of that closed chain, so a repeated point does no harm. */
  lemma {:induction false} OutlineIsLoop(points: seq<Cell>, i: nat, c: Cell)
    requires i <= |points|
    ensures c in Loop(points, i) <==> OnOutline(points, i, |points|, c) || (0 < i < |points| && c == points[0])
    decreases |points| - i
  {
    hide Drawn, OnOutline, Chain;
    if i < |points| {
      var a, b := points[i], points[NextIndex(points, i)];
      OutlineIsLoop(points, i + 1, c);
      InChain(c, a, b);
      assert c in Loop(points, i) <==> c in Chain(a, b) || c in Loop(points, i + 1);
      OnOutlineFirst(points, i, c);
      StartDrawn(a, b);
      if i + 1 < |points| {
        StartDrawn(points[i + 1], points[NextIndex(points, i + 1)]);
        OnOutlineFirst(points, i + 1, c);
      } else {
        NothingFrom(points, c);
      }
    } else {
      NothingFrom(points, c);
    }
  }

  lemma NothingFrom(points: seq<Cell>, c: Cell)
    ensures !OnOutline(points, |points|, |points|, c)
  {
  }

  lemma StartDrawn(a: Cell, b: Cell)
    ensures Drawn(a, a, b)
  {
  }

  lemma InChain(c: Cell, a: Cell, b: Cell)
    ensures c in Chain(a, b) <==> Drawn(c, a, b) || c == b
  {
    hide Point, Drawn;
    DrawnIsChain(c, a, b);
    SegmentIsChain(a, b, 0);
    if c in Chain(a, b) {
      var t :| 0 <= t <= Steps(a, b) && Chain(a, b)[t] == c;
      assert Point(a, b, t) == c;
    }
    if t :| 0 <= t < Steps(a, b) && Point(a, b, t) == c {
      assert Chain(a, b)[t] == c;
    }
    assert Chain(a, b)[0] == a && Chain(a, b)[Steps(a, b)] == b;
  }

  // ---- drawing it

  /** GRID_PT(x, y) = 1 */
  method Plot(g: Grid, c: Cell)
    requires g.Valid() && g.queue == [] && Inside(c)
    modifies g.pt, g`blank
    ensures g.Valid() && g.blank == old(g.blank) - {c}
  {
    g.pt[c.0 + LIMIT, c.1 + LIMIT] := 1;
    g.blank := g.blank - {c};
  }

  method DrawFlat(g: Grid, a: Cell, b: Cell)
    requires g.Valid() && g.queue == [] && Inside(a) && Inside(b) && Flat(a, b)
    modifies g.pt, g`blank
    ensures g.Valid()
    ensures forall c: Cell :: c in g.blank <==>
              c in old(g.blank) && !(Between(c.0, a.0, b.0) && c.1 == RowAt(a, b, c.0))
  {
    hide g.Valid, Trunc;
    var dx, dy := b.0 - a.0, b.1 - a.1;
    if dx > 0 {
      var x := a.0 + 1;
      while x < b.0
        invariant a.0 < x <= b.0 && g.Valid()
        invariant forall c: Cell :: c in g.blank <==> c in old(g.blank) && !(a.0 < c.0 < x && c.1 == RowAt(a, b, c.0))
      {
        FlatChain(a, b, x - a.0);
        Plot(g, (x, a.1 + Trunc(dy * (x - a.0), dx)));
        x := x + 1;
      }
    } else {
      var x := b.0 + 1;
      while x < a.0
        invariant b.0 < x && (x <= a.0 || a.0 == b.0) && g.Valid()
        invariant forall c: Cell :: c in g.blank <==>
                    c in old(g.blank) && !(b.0 < c.0 < x && c.0 < a.0 && c.1 == RowAt(a, b, c.0))
      {
        FlatChain(a, b, a.0 - x);
        Plot(g, (x, b.1 + Trunc(dy * (x - b.0), dx)));
        x := x + 1;
      }
    }
  }

  method DrawSteep(g: Grid, a: Cell, b: Cell)
    requires g.Valid() && g.queue == [] && Inside(a) && Inside(b) && !Flat(a, b)
    modifies g.pt, g`blank
    ensures g.Valid()
    ensures forall c: Cell :: c in g.blank <==>
              c in old(g.blank) && !(Between(c.1, a.1, b.1) && c.0 == ColumnAt(a, b, c.1))
  {
    hide g.Valid, Trunc;
    var dx, dy := b.0 - a.0, b.1 - a.1;
    if dy > 0 {
      var y := a.1 + 1;
      while y < b.1
        invariant a.1 < y <= b.1 && g.Valid()
        invariant forall c: Cell :: c in g.blank <==>
                    c in old(g.blank) && !(a.1 < c.1 < y && c.0 == ColumnAt(a, b, c.1))
      {
        SteepIsFlatMirrored(a, b, y);
        FlatChain(Swap(a), Swap(b), y - a.1);
        Plot(g, (a.0 + Trunc(dx * (y - a.1), dy), y));
        y := y + 1;
      }
    } else {
      var y := b.1 + 1;
      while y < a.1
        invariant b.1 < y <= a.1 && g.Valid()
        invariant forall c: Cell :: c in g.blank <==>
                    c in old(g.blank) && !(b.1 < c.1 < y && c.0 == ColumnAt(a, b, c.1))
      {
        SteepIsFlatMirrored(a, b, y);
        FlatChain(Swap(a), Swap(b), a.1 - y);
        Plot(g, (b.0 + Trunc(dx * (y - b.1), dy), y));
        y := y + 1;
      }
    }
  }

  method DrawSegment(g: Grid, a: Cell, b: Cell)
    requires g.Valid() && g.queue == [] && Inside(a) && Inside(b)
    modifies g.pt, g`blank
    ensures g.Valid()
    ensures forall c: Cell :: c in g.blank <==> c in old(g.blank) && !Drawn(c, a, b)
  {
    hide RowAt, ColumnAt, g.Valid;
    Plot(g, a);
    if Flat(a, b) {
      DrawFlat(g, a, b);
    } else {
      DrawSteep(g, a, b);
    }
  }

  method DrawOutline(g: Grid, points: seq<Cell>)
    requires g.Valid() && g.queue == [] && forall i :: 0 <= i < |points| ==> Inside(points[i])
    modifies g.pt, g`blank
    ensures g.Valid()
    ensures forall c: Cell :: c in g.blank <==> c in old(g.blank) && !OnOutline(points, 0, |points|, c)
  {
    hide g.Valid, Drawn;
    var i := 0;
    while i < |points|
      invariant 0 <= i <= |points| && g.Valid()
      invariant forall c: Cell :: c in g.blank <==> c in old(g.blank) && !OnOutline(points, 0, i, c)
    {
      var j := if i + 1 == |points| then 0 else i + 1;
      DrawSegment(g, points[i], points[j]);
      forall c: Cell
        ensures OnOutline(points, 0, i + 1, c) <==> OnOutline(points, 0, i, c) || Drawn(c, points[i], points[j])
      {
        assert DrawnFor(points, i, c) == Drawn(c, points[i], points[j]);
      }
      i := i + 1;
    }
  }

  /** The cells of the grid that the outline leaves blank. */
  ghost function Blanks(points: seq<Cell>): set<Cell> {
    set x, y | -LIMIT <= x <= LIMIT && -LIMIT <= y <= LIMIT && (x, y) !in Loop(points, 0) :: (x, y)
  }

  /** Which cells lie outside a ship: 1 on the closed chain through its points, 2 where blank cells
      lead to the border of the grid, 0 inside. */
  method MarkOutside(points: seq<Cell>) returns (g: Grid)
    requires forall i :: 0 <= i < |points| ==> Inside(points[i])
    ensures g.pt.Length0 == g.pt.Length1 == 32 && g.todo <= CELLS
    ensures forall c: Cell :: Inside(c) ==>
              g.At(c) == if c in Loop(points, 0) then 1 else if Outside(c, Blanks(points)) then 2 else 0
  {
    hide OnOutline, Outside;
    g := new Grid();
    DrawOutline(g, points);
    forall c: Cell
      ensures c in Loop(points, 0) <==> OnOutline(points, 0, |points|, c)
    {
      OutlineIsLoop(points, 0, c);
    }
    hide Loop;
    assert g.blank == Blanks(points);
    g.Fill();
  }
}
