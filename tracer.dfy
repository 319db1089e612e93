/** The field-line tracer run on every redraw (src/lib.rs, the loops of `Game::on_update`):
    sixteen lines per positive charge, each a fixed-step walk along the field that stops
    when it enters the capture radius of a negative charge or after `MAX_LINE_ITERS` steps. */
module Tracer {
  import opened Prelude
  import opened Particles
  import opened FieldModel

  /** `PARTICLE_RADIUS as f64 * 1.1`, the seed offset and the capture radius (exactly 11.0 in f64). */
  const CAPTURE_RADIUS: real := 11.0
  const LINES_PER_CHARGE: nat := 16
  const MAX_LINE_ITERS: nat := 4096

  /** `sdl2::rect::Point`. */
  datatype Point = Point(x: Int32, y: Int32)

  /** The floating-point maths the tracer calls, kept abstract:
      `term(q, c)`  the Coulomb contribution of charge `c` at point `q`;
      `hypot(a, b)` `f64::hypot`;
      `unit(f)`     `(f.x / |f|, f.y / |f|)`, the unit step along the field;
      `cos`, `sin`, `pi` the starting-angle trigonometry;
      `toInt(r)`    the `as i32` conversion. */
  datatype Numerics = Numerics(
    term: (Vec, Charge) -> Vec,
    hypot: (real, real) -> real,
    unit: Vec -> Vec,
    cos: real -> real,
    sin: real -> real,
    pi: real,
    toInt: real -> Int32)

  /** One Euler step of length one along the field at `p`. */
  function Step(ps: seq<Charge>, num: Numerics, p: Vec): Vec {
    Add(p, num.unit(Field(ps, p, num.term)))
  }

  /** The capture test: `p` lies within the capture radius of some negative charge. */
  predicate Captured(p: Vec, ps: seq<Charge>, num: Numerics) {
    exists k :: 0 <= k < |ps| && IsSink(ps[k]) && Near(p, ps[k], num)
  }

  predicate Near(p: Vec, c: Charge, num: Numerics) {
    num.hypot(p.x - c.x, p.y - c.y) <= CAPTURE_RADIUS
  }

  /** A point is captured exactly when it is near one of the sinks: positive and
      neutral charges never capture. */
  lemma CapturedBySink(p: Vec, ps: seq<Charge>, num: Numerics)
    ensures Captured(p, ps, num) <==> exists s :: s in Sinks(ps) && Near(p, s, num)
  {
    if Captured(p, ps, num) {
      var k :| 0 <= k < |ps| && IsSink(ps[k]) && Near(p, ps[k], num);
      FilterMembers(ps, IsSink, ps[k]);
    }
    if s :| s in Sinks(ps) && Near(p, s, num) {
      FilterMembers(ps, IsSink, s);
      var k :| 0 <= k < |ps| && ps[k] == s;
    }
  }

  /** The starting point of line `i` around charge `c`: offset by the capture radius
      along angle `i * pi / 8`. */
  function Seed(c: Charge, i: nat, num: Numerics): Vec {
    var angle := i as real * num.pi / 8.0;
    Vec(c.x + CAPTURE_RADIUS * num.cos(angle), c.y + CAPTURE_RADIUS * num.sin(angle))
  }

  /** The positions accepted after `p` within a budget of `fuel` steps: each step is
      taken, and the walk ends at the first step that lands in a sink's capture radius,
      without keeping that step. */
  function Walk(ps: seq<Charge>, num: Numerics, p: Vec, fuel: nat): seq<Vec>
    decreases fuel
  {
    if fuel == 0 then []
    else
      var next := Step(ps, num, p);
      if Captured(next, ps, num) then [] else [next] + Walk(ps, num, next, fuel - 1)
  }

  /** `Point::new(p.0 as i32, p.1 as i32)`. */
  function ToPoint(num: Numerics, p: Vec): Point {
    Point(num.toInt(p.x), num.toInt(p.y))
  }

  /** Every position of a walk, converted with `as i32`. */
  function Rasterize(num: Numerics, s: seq<Vec>): seq<Point> {
    seq(|s|, k requires 0 <= k < |s| => ToPoint(num, s[k]))
  }

  /** The polyline traced from `seed`: the seed and then every accepted step. */
  function Line(ps: seq<Charge>, num: Numerics, seed: Vec): seq<Point> {
    Rasterize(num, [seed] + Walk(ps, num, seed, MAX_LINE_ITERS))
  }

  /** The sixteen lines around one emitter, in angle order. */
  function LinesFor(ps: seq<Charge>, num: Numerics, c: Charge): seq<seq<Point>> {
    seq(LINES_PER_CHARGE, i requires 0 <= i < LINES_PER_CHARGE => Line(ps, num, Seed(c, i, num)))
  }

  lemma LinesForPrefix(ps: seq<Charge>, num: Numerics, c: Charge, i: nat)
    requires i < LINES_PER_CHARGE
    ensures LinesFor(ps, num, c)[..i + 1] == LinesFor(ps, num, c)[..i] + [Line(ps, num, Seed(c, i, num))]
  {
  }

  /** The lines of every charge in `es`, emitter after emitter. */
  function LinesOver(ps: seq<Charge>, num: Numerics, es: seq<Charge>): seq<seq<Point>> {
    if es == [] then []
    else LinesOver(ps, num, es[..|es| - 1]) + LinesFor(ps, num, es[|es| - 1])
  }

  lemma LinesOverSnoc(ps: seq<Charge>, num: Numerics, es: seq<Charge>, c: Charge)
    ensures LinesOver(ps, num, es + [c]) == LinesOver(ps, num, es) + LinesFor(ps, num, c)
  {
  }

  /** Everything one redraw traces for the charge list `ps`. */
  function FieldLines(ps: seq<Charge>, num: Numerics): seq<seq<Point>> {
    LinesOver(ps, num, Emitters(ps))
  }

  function Last(p: Vec, w: seq<Vec>): Vec {
    if w == [] then p else w[|w| - 1]
  }

  /** An accepted step extends the part of a walk already taken by one point. */
  lemma WalkAdvance(ps: seq<Charge>, num: Numerics, path: seq<Vec>, p: Vec, fuel: nat, whole: seq<Vec>)
    requires fuel > 0 && path + Walk(ps, num, p, fuel) == whole
    requires !Captured(Step(ps, num, p), ps, num)
    ensures (path + [Step(ps, num, p)]) + Walk(ps, num, Step(ps, num, p), fuel - 1) == whole
  {
  }

  /** A captured step ends the walk: what was taken so far is all of it. */
  lemma WalkCaptured(ps: seq<Charge>, num: Numerics, path: seq<Vec>, p: Vec, fuel: nat, whole: seq<Vec>)
    requires fuel > 0 && path + Walk(ps, num, p, fuel) == whole
    requires Captured(Step(ps, num, p), ps, num)
    ensures path == whole
  {
  }

  lemma RasterizeSnoc(num: Numerics, s: seq<Vec>, v: Vec)
    ensures Rasterize(num, s + [v]) == Rasterize(num, s) + [ToPoint(num, v)]
  {
  }

  /** A walk takes at most its budget of steps, never keeps a captured point, and ends
      before its budget only because the next step would have been captured. */
  lemma {:induction false} WalkBounds(ps: seq<Charge>, num: Numerics, p: Vec, fuel: nat)
    ensures |Walk(ps, num, p, fuel)| <= fuel
    ensures forall k :: 0 <= k < |Walk(ps, num, p, fuel)| ==> !Captured(Walk(ps, num, p, fuel)[k], ps, num)
    ensures |Walk(ps, num, p, fuel)| < fuel ==> Captured(Step(ps, num, Last(p, Walk(ps, num, p, fuel))), ps, num)
    decreases fuel
  {
    if fuel > 0 {
      var next := Step(ps, num, p);
      if !Captured(next, ps, num) {
        var rest := Walk(ps, num, next, fuel - 1);
        WalkBounds(ps, num, next, fuel - 1);
        assert Walk(ps, num, p, fuel) == [next] + rest;
        assert Last(p, [next] + rest) == Last(next, rest);
      }
    }
  }

  /** Every accepted point is one field step from the point before it. */
  lemma {:induction false} WalkFollowsField(ps: seq<Charge>, num: Numerics, p: Vec, fuel: nat)
    ensures forall k :: 0 <= k < |Walk(ps, num, p, fuel)| ==>
      Walk(ps, num, p, fuel)[k] == Step(ps, num, Last(p, Walk(ps, num, p, fuel)[..k]))
    decreases fuel
  {
    if fuel > 0 {
      var next := Step(ps, num, p);
      if !Captured(next, ps, num) {
        var rest := Walk(ps, num, next, fuel - 1);
        var w := [next] + rest;
        assert Walk(ps, num, p, fuel) == w;
        WalkFollowsField(ps, num, next, fuel - 1);
        forall k | 1 <= k < |w| ensures w[k] == Step(ps, num, Last(p, w[..k])) {
          assert w[k] == rest[k - 1] == Step(ps, num, Last(next, rest[..k - 1]));
          assert w[..k] == [next] + rest[..k - 1];
        }
      }
    }
  }

  /** A traced line holds the rasterized seed and then between 0 and `MAX_LINE_ITERS`
      further points. */
  lemma LineBounds(ps: seq<Charge>, num: Numerics, seed: Vec)
    ensures 1 <= |Line(ps, num, seed)| <= MAX_LINE_ITERS + 1
    ensures Line(ps, num, seed)[0] == ToPoint(num, seed)
  {
    WalkBounds(ps, num, seed, MAX_LINE_ITERS);
  }

  /** The seed itself is never tested for capture: when the first step is already
      captured, the line is the seed alone, wherever the seed lies. */
  lemma SeedOnlyLine(ps: seq<Charge>, num: Numerics, seed: Vec)
    requires Captured(Step(ps, num, seed), ps, num)
    ensures Line(ps, num, seed) == [ToPoint(num, seed)]
  {
  }

  /** Each emitter contributes exactly `LINES_PER_CHARGE` lines. */
  lemma {:induction false} LinesOverLength(ps: seq<Charge>, num: Numerics, es: seq<Charge>)
    ensures |LinesOver(ps, num, es)| == LINES_PER_CHARGE * |es|
    decreases |es|
  {
    if es != [] {
      LinesOverLength(ps, num, es[..|es| - 1]);
    }
  }

  /** Line `i` of the `j`-th emitter sits at position `16 * j + i`. */
  lemma {:induction false} LinesOverAt(ps: seq<Charge>, num: Numerics, es: seq<Charge>, j: nat, i: nat)
    requires j < |es| && i < LINES_PER_CHARGE
    ensures LINES_PER_CHARGE * j + i < |LinesOver(ps, num, es)|
    ensures LinesOver(ps, num, es)[LINES_PER_CHARGE * j + i] == Line(ps, num, Seed(es[j], i, num))
    decreases |es|
  {
    var init, last := es[..|es| - 1], es[|es| - 1];
    LinesOverLength(ps, num, init);
    var before := LinesOver(ps, num, init);
    assert LinesOver(ps, num, es) == before + LinesFor(ps, num, last);
    var k := LINES_PER_CHARGE * j + i;
    if j < |init| {
      LinesOverAt(ps, num, init, j, i);
      assert es[j] == init[j];
      assert (before + LinesFor(ps, num, last))[k] == before[k];
    } else {
      assert j == |init|;
      assert k == |before| + i;
      assert (before + LinesFor(ps, num, last))[k] == LinesFor(ps, num, last)[i];
    }
  }

  /** The line count of a redraw: sixteen per positive charge, none for neutral or
      negative ones. */
  lemma FieldLinesCount(ps: seq<Charge>, num: Numerics)
    ensures |FieldLines(ps, num)| == LINES_PER_CHARGE * |Emitters(ps)|
    ensures (forall c :: c in ps ==> c.charge <= 0.0) ==> FieldLines(ps, num) == []
  {
    LinesOverLength(ps, num, Emitters(ps));
    if forall c :: c in ps ==> c.charge <= 0.0 {
      if Emitters(ps) != [] {
        FilterMembers(ps, IsEmitter, Emitters(ps)[0]);
      }
    }
  }

  /** Every line of a redraw has between 1 and `MAX_LINE_ITERS + 1` points. */
  lemma FieldLinesSizes(ps: seq<Charge>, num: Numerics)
    ensures forall l :: l in FieldLines(ps, num) ==> 1 <= |l| <= MAX_LINE_ITERS + 1
  {
    var es := Emitters(ps);
    LinesOverLength(ps, num, es);
    forall l | l in FieldLines(ps, num) ensures 1 <= |l| <= MAX_LINE_ITERS + 1 {
      var m :| 0 <= m < |FieldLines(ps, num)| && FieldLines(ps, num)[m] == l;
      var j, i := m / LINES_PER_CHARGE, m % LINES_PER_CHARGE;
      assert m == LINES_PER_CHARGE * j + i;
      LinesOverAt(ps, num, es, j, i);
      LineBounds(ps, num, Seed(es[j], i, num));
    }
  }
}
