/** The hit test of src/server/collision.cpp for two objects that move in straight lines during a
    frame, on a map that does not wrap, with exact arithmetic. */
module SweptCircle {

  /** Where the objects were (1) and are (2); r is the distance at which they touch. */
  datatype Motion = Motion(p1x: int, p1y: int, p2x: int, p2y: int, q1x: int, q1y: int, q2x: int, q2y: int, r: int)

  /** The squared distance of the objects after a share s of the frame. */
  function Distance2(m: Motion, s: real): real {
    SquareR(Along(m.q1x - m.p1x, (m.q2x - m.q1x) - (m.p2x - m.p1x), s))
    + SquareR(Along(m.q1y - m.p1y, (m.q2y - m.q1y) - (m.p2y - m.p1y), s))
  }

  function Square(a: int): int { a * a }

  function SquareR(a: real): real { a * a }

  function Along(a: int, f: int, t: real): real { a as real + f as real * t }

  function Dot(a: int, b: int, c: int, d: int): int { a * c + b * d }

  /** At some time during the frame they are closer than r. */
  ghost predicate Touch(m: Motion) {
    exists s: real :: TouchAt(m, s)
  }

  ghost predicate TouchAt(m: Motion, s: real) {
    0.0 <= s <= 1.0 && Distance2(m, s) < (m.r * m.r) as real
  }

  /** Not closer at the end, and going apart: the exit the source takes when top > bot. */
  predicate MissesTheStart(m: Motion) {
    var dx, dy := m.q2x - m.p2x, m.q2y - m.p2y;
    var fx, fy := (m.q1x - m.p1x) - dx, (m.q1y - m.p1y) - dy;
    var start2 := Square(m.q1x - m.p1x) + Square(m.q1y - m.p1y);
    Square(dx) + Square(dy) >= m.r * m.r
    && -Dot(fx, fy, dx, dy) > Square(fx) + Square(fy)
    && start2 < m.r * m.r
  }

  function Occured(m: Motion): bool {
    if Square(m.p2x - m.q2x) + Square(m.p2y - m.q2y) < m.r * m.r then true
    else
      var fac1 := -m.p1x + m.p2x + m.q1x - m.q2x;
      var fac2 := -m.p1y + m.p2y + m.q1y - m.q2y;
      var top := -Dot(fac1, fac2, -m.p2x + m.q2x, -m.p2y + m.q2y);
      var bot := Square(fac1) + Square(fac2);
      if top < 0 || bot < 1 || top > bot then false
      else
        var tmin := top as real / bot as real;
        var fminx := Along(-m.p2x + m.q2x, fac1, tmin);
        var fminy := Along(-m.p2y + m.q2y, fac2, tmin);
        SquareR(fminx) + SquareR(fminy) < (m.r * m.r) as real
  }

  // ---- the squared distance as a parabola in the time t still to go

  /** e - 2 top t + bot t^2 */
  function Parabola(e: real, top: real, bot: real, t: real): real {
    e - 2.0 * (top * t) + bot * (t * t)
  }

  lemma SquareOfSum(a: real, b: real, t: real)
    ensures (a + b * t) * (a + b * t) == a * a + 2.0 * (a * b * t) + b * b * (t * t)
  {
  }

  lemma DistanceIsParabola(m: Motion, s: real)
    ensures var (e, top, bot) := Coefficients(m);
            Distance2(m, s) == Parabola(e as real, top as real, bot as real, 1.0 - s)
  {
    hide Parabola, Square, SquareR, Dot, Along;
    FromTheEnd(m.q1x - m.p1x, m.q2x - m.p2x, s);
    FromTheEnd(m.q1y - m.p1y, m.q2y - m.p2y, s);
    assert (m.q2x - m.q1x) - (m.p2x - m.p1x) == (m.q2x - m.p2x) - (m.q1x - m.p1x);
    assert (m.q2y - m.q1y) - (m.p2y - m.p1y) == (m.q2y - m.p2y) - (m.q1y - m.p1y);
    ParabolaAt(m, 1.0 - s);
  }

  /** The way from the start, or back from the end. */
  lemma FromTheEnd(start: int, end: int, s: real)
    ensures Along(start, end - start, s) == Along(end, start - end, 1.0 - s)
  {
    assert (end - start) as real * s == (start - end) as real * (1.0 - s) + (end - start) as real;
  }

  /** Squared end distance, top and bot. */
  function Coefficients(m: Motion): (int, int, int) {
    var dx, dy := m.q2x - m.p2x, m.q2y - m.p2y;
    var fx, fy := (m.q1x - m.p1x) - dx, (m.q1y - m.p1y) - dy;
    (Square(dx) + Square(dy), -Dot(fx, fy, dx, dy), Square(fx) + Square(fy))
  }

  lemma RisesFromEnd(e: real, top: real, bot: real, t: real)
    requires top <= 0.0 && bot >= 0.0 && t >= 0.0
    ensures Parabola(e, top, bot, t) >= e
  {
    assert top * t <= 0.0;
    assert bot * (t * t) >= 0.0;
  }

  lemma FallsToStart(e: real, top: real, bot: real, t: real)
    requires top >= bot >= 0.0 && 0.0 <= t <= 1.0
    ensures Parabola(e, top, bot, t) >= Parabola(e, top, bot, 1.0)
  {
    var u := 1.0 - t;
    assert Parabola(e, top, bot, t) - Parabola(e, top, bot, 1.0) == 2.0 * ((top - bot) * u) + bot * (u * u);
    assert (top - bot) * u >= 0.0;
    assert bot * (u * u) >= 0.0;
  }

  lemma LowestInside(e: real, top: real, bot: real, t: real, tmin: real)
    requires bot > 0.0 && tmin * bot == top
    ensures Parabola(e, top, bot, t) >= Parabola(e, top, bot, tmin)
  {
    var u := t - tmin;
    assert Parabola(e, top, bot, t) - Parabola(e, top, bot, tmin) == bot * (u * u);
    assert u * u >= 0.0;
  }

  lemma ParabolaAt(m: Motion, t: real)
    ensures var (e, top, bot) := Coefficients(m);
            var x := Along(m.q2x - m.p2x, (m.q1x - m.p1x) - (m.q2x - m.p2x), t);
            var y := Along(m.q2y - m.p2y, (m.q1y - m.p1y) - (m.q2y - m.p2y), t);
            SquareR(x) + SquareR(y) == Parabola(e as real, top as real, bot as real, t)
  {
    hide Along, Square, SquareR, Parabola;
    var dx, dy := m.q2x - m.p2x, m.q2y - m.p2y;
    var fx, fy := (m.q1x - m.p1x) - dx, (m.q1y - m.p1y) - dy;
    SquareAlong(dx, fx, t);
    SquareAlong(dy, fy, t);
    AddParabolas(Square(dx), Square(dy), fx * dx, fy * dy, Square(fx), Square(fy), t);
  }

  lemma SquareAlong(a: int, f: int, t: real)
    ensures SquareR(Along(a, f, t)) == Parabola(Square(a) as real, -(f * a) as real, Square(f) as real, t)
  {
    SquareOfSum(a as real, f as real, t);
  }

  lemma AddParabolas(e1: int, e2: int, p1: int, p2: int, b1: int, b2: int, t: real)
    ensures Parabola(e1 as real, -p1 as real, b1 as real, t) + Parabola(e2 as real, -p2 as real, b2 as real, t)
            == Parabola((e1 + e2) as real, -(p1 + p2) as real, (b1 + b2) as real, t)
  {
  }

  /** The test in terms of the parabola. */
  lemma OccuredByParabola(m: Motion)
    ensures var (e, top, bot) := Coefficients(m);
            Occured(m) <==>
            || e < m.r * m.r
            || (0 <= top <= bot && bot > 0
                && Parabola(e as real, top as real, bot as real, top as real / bot as real) < (m.r * m.r) as real)
  {
    hide Parabola, Square, SquareR, Dot, Along;
    var (e, top, bot) := Coefficients(m);
    var dx, dy := m.q2x - m.p2x, m.q2y - m.p2y;
    SquareEven(dx);
    SquareEven(dy);
    assert m.p2x - m.q2x == -dx && m.p2y - m.q2y == -dy;
    assert -m.p1x + m.p2x + m.q1x - m.q2x == (m.q1x - m.p1x) - dx;
    assert -m.p1y + m.p2y + m.q1y - m.q2y == (m.q1y - m.p1y) - dy;
    if bot > 0 {
      ParabolaAt(m, top as real / bot as real);
    }
  }

  lemma SquareEven(a: int)
    ensures Square(-a) == Square(a) && SquareR(a as real) == Square(a) as real
  {
  }

  lemma MissesByParabola(m: Motion)
    ensures var (e, top, bot) := Coefficients(m);
            MissesTheStart(m) <==>
            e >= m.r * m.r && top > bot && Parabola(e as real, top as real, bot as real, 1.0) < (m.r * m.r) as real
  {
    hide Parabola, Square, SquareR, Dot;
    ParabolaAt(m, 1.0);
    SquareEven(m.q1x - m.p1x);
    SquareEven(m.q1y - m.p1y);
  }

  lemma TouchByParabola(m: Motion, s: real)
    ensures var (e, top, bot) := Coefficients(m);
            TouchAt(m, s) <==>
            0.0 <= s <= 1.0 && Parabola(e as real, top as real, bot as real, 1.0 - s) < (m.r * m.r) as real
  {
    hide Parabola;
    DistanceIsParabola(m, s);
  }

  /** No motion towards each other at all. */
  lemma StillMeansNoTop(m: Motion)
    ensures var (_, top, bot) := Coefficients(m); bot >= 0 && (bot == 0 ==> top == 0)
  {
    var fx, fy := (m.q1x - m.p1x) - (m.q2x - m.p2x), (m.q1y - m.p1y) - (m.q2y - m.p2y);
    SquareSign(fx);
    SquareSign(fy);
  }

  lemma SquareSign(a: int)
    ensures a * a >= 0 && (a * a == 0 ==> a == 0)
  {
    if a > 0 { assert a * a >= a; }
    if a < 0 { assert a * a == -a * -a >= -a; }
  }

  /** Reported means that they touch at some time of the frame. */
  lemma ReportedTouches(m: Motion)
    requires Occured(m)
    ensures Touch(m) && !MissesTheStart(m)
  {
    hide Occured, MissesTheStart, Parabola, Coefficients, TouchAt;
    var (e, top, bot) := Coefficients(m);
    OccuredByParabola(m);
    MissesByParabola(m);
    if e < m.r * m.r {
      TouchByParabola(m, 1.0);
      AtEnd(e as real, top as real, bot as real);
      assert TouchAt(m, 1.0);
    } else {
      var t := top as real / bot as real;
      Share(top, bot);
      TouchByParabola(m, 1.0 - t);
      assert TouchAt(m, 1.0 - t);
    }
  }

  lemma AtEnd(e: real, top: real, bot: real)
    ensures Parabola(e, top, bot, 0.0) == e
  {
  }

  lemma Share(top: int, bot: int)
    requires 0 <= top <= bot && bot > 0
    ensures 0.0 <= top as real / bot as real <= 1.0
    ensures top as real / bot as real * bot as real == top as real
  {
  }

  /** Not reported means that they touch at no time, unless the start was missed. */
  lemma TouchIsReported(m: Motion, s: real)
    requires TouchAt(m, s) && !Occured(m)
    ensures MissesTheStart(m)
  {
    hide Occured, MissesTheStart, Parabola, Coefficients, TouchAt;
    var (e, top, bot) := Coefficients(m);
    var t := 1.0 - s;
    OccuredByParabola(m);
    MissesByParabola(m);
    TouchByParabola(m, s);
    StillMeansNoTop(m);
    if top <= 0 {
      RisesFromEnd(e as real, top as real, bot as real, t);
      assert false;
    } else if top > bot {
      FallsToStart(e as real, top as real, bot as real, t);
    } else {
      Share(top, bot);
      LowestInside(e as real, top as real, bot as real, t, top as real / bot as real);
      assert false;
    }
  }

  /** The test reports a hit exactly when the objects come closer than r at some time of the frame,
      but for one case: they start closer than r and fly apart without getting closer still. */
  lemma OccuredExactly(m: Motion)
    ensures Occured(m) <==> Touch(m) && !MissesTheStart(m)
  {
    hide Occured, MissesTheStart, TouchAt;
    if Occured(m) {
      ReportedTouches(m);
    } else if Touch(m) {
      var s :| TouchAt(m, s);
      TouchIsReported(m, s);
    }
  }

  /** Objects that start at least r apart are never missed. */
  lemma NeverMissedFromOutside(m: Motion)
    requires (m.q1x - m.p1x) * (m.q1x - m.p1x) + (m.q1y - m.p1y) * (m.q1y - m.p1y) >= m.r * m.r
    ensures Occured(m) <==> Touch(m)
  {
    hide Occured, TouchAt;
    OccuredExactly(m);
  }

  /** The missed case is real: side by side at the start, four apart at the end, r of two. */
  lemma StartIsMissed()
    ensures exists m :: Touch(m) && !Occured(m)
  {
    var m := Motion(0, 0, 0, 0, 1, 0, 4, 0, 2);
    assert TouchAt(m, 0.0);
    assert !Occured(m);
  }
}
