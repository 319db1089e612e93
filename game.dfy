/** The charge set and the charge selector (src/lib.rs, `Game`), with the field query
    and the tracing loops of a redraw as methods over the stored charges. */
module GameState {
  import opened Prelude
  import opened Particles
  import opened FieldModel
  import opened Tracer

  /** One elementary charge, added or removed by a key press. */
  const CHARGE_STEP: real := 1.602176634e-19
  /** Selected charges of smaller magnitude are snapped to exactly zero. */
  const SNAP_LIMIT: real := 1e-30

  /** The keys `handle_keydown` distinguishes. */
  datatype Key = Equals | Minus | N | OtherKey

  function Abs(r: real): real {
    if r < 0.0 then -r else r
  }

  /** A charge `handle_keydown` can leave behind: zero or at least the snap limit in size. */
  predicate Snapped(q: real) {
    q == 0.0 || Abs(q) >= SNAP_LIMIT
  }

  /** The selected charge after pressing `key` with `q` selected. */
  function NextCharge(q: real, key: Key): (r: real)
    ensures Snapped(r)
    ensures key == N ==> r == 0.0
    ensures key == OtherKey ==> r == if Snapped(q) then q else 0.0
    ensures key == Equals ==> r == if Abs(q + CHARGE_STEP) < SNAP_LIMIT then 0.0 else q + CHARGE_STEP
    ensures key == Minus ==> r == if Abs(q - CHARGE_STEP) < SNAP_LIMIT then 0.0 else q - CHARGE_STEP
  {
    var adjusted := match key
      case Equals => q + CHARGE_STEP
      case Minus => q - CHARGE_STEP
      case N => 0.0
      case OtherKey => q;
    if Abs(adjusted) < SNAP_LIMIT then 0.0 else adjusted
  }

  /** The number of charge steps selected after pressing `key` with `k` steps selected. */
  function NextSteps(k: int, key: Key): int {
    match key
    case Equals => k + 1
    case Minus => k - 1
    case N => 0
    case OtherKey => k
  }

  /** On charges that are whole numbers of steps the snap never fires: each key moves
      the selection by exactly one step, resets it, or leaves it alone. */
  lemma KeyOnStepGrid(k: int, key: Key)
    ensures NextCharge(k as real * CHARGE_STEP, key) == NextSteps(k, key) as real * CHARGE_STEP
  {
  }

  /** On the step grid `-` undoes `=` and `=` undoes `-`. */
  lemma StepRoundTrip(k: int)
    ensures NextCharge(NextCharge(k as real * CHARGE_STEP, Equals), Minus) == k as real * CHARGE_STEP
    ensures NextCharge(NextCharge(k as real * CHARGE_STEP, Minus), Equals) == k as real * CHARGE_STEP
  {
  }

  /** Pressing `N` a second time changes nothing. */
  lemma ResetIdempotent(q: real)
    ensures NextCharge(NextCharge(q, N), N) == NextCharge(q, N)
  {
  }

  class Game {
    var particles: seq<Charge>
    var currentCharge: real
    /** The selected charge counted in steps. */
    ghost var steps: int

    /** The selected charge is a whole number of charge steps. */
    ghost predicate Valid()
      reads this
    {
      currentCharge == steps as real * CHARGE_STEP
    }

    /** `Game::default`: no charges, zero selected. */
    constructor ()
      ensures Valid()
      ensures particles == [] && currentCharge == 0.0 && steps == 0
    {
      particles := [];
      currentCharge := 0.0;
      steps := 0;
    }

    /** `handle_mouse_down`: place a charge of the selected size at the click. */
    method HandleMouseDown(x: Int32, y: Int32)
      modifies this`particles
      ensures particles == old(particles) + [Charge(x as real, y as real, currentCharge)]
      ensures particles[..|old(particles)|] == old(particles)
    {
      particles := particles + [Charge(x as real, y as real, currentCharge)];
    }

    /** `handle_keydown`: adjust the selected charge, then snap tiny values to zero. */
    method HandleKeydown(key: Key)
      modifies this`currentCharge, this`steps
      ensures currentCharge == NextCharge(old(currentCharge), key)
      ensures old(Valid()) ==> Valid() && steps == NextSteps(old(steps), key)
    {
      match key {
        case Equals => currentCharge := currentCharge + CHARGE_STEP;
        case Minus => currentCharge := currentCharge - CHARGE_STEP;
        case N => currentCharge := 0.0;
        case OtherKey =>
      }
      if Abs(currentCharge) < SNAP_LIMIT {
        currentCharge := 0.0;
      }
      if old(Valid()) {
        KeyOnStepGrid(steps, key);
      }
      steps := NextSteps(steps, key);
    }

    /** `get_field_strength`: the field of all placed charges at `(x, y)`. */
    method FieldStrength(x: real, y: real, term: (Vec, Charge) -> Vec) returns (total: Vec)
      ensures total == Field(particles, Vec(x, y), term)
      ensures particles == [] ==> total == Zero
    {
      total := Zero;
      var k := 0;
      while k < |particles|
        invariant 0 <= k <= |particles|
        invariant total == Field(particles[..k], Vec(x, y), term)
      {
        var contribution := term(Vec(x, y), particles[k]);
        total := Vec(total.x + contribution.x, total.y + contribution.y);
        assert particles[..k + 1][..k] == particles[..k];
        k := k + 1;
      }
      assert particles[..k] == particles;
    }

    /** One field line: push the seed, then up to `budget` times (`MAX_LINE_ITERS` in a
        redraw) step along the field and push the new point, stopping without pushing
        at the first step that lands in a sink's capture radius. */
    method TraceLine(seed: Vec, num: Numerics, budget: nat) returns (line: seq<Point>)
      ensures line == Rasterize(num, [seed] + Walk(particles, num, seed, budget))
      ensures 1 <= |line| <= budget + 1
    {
      var current := seed;
      line := [ToPoint(num, current)];
      ghost var path: seq<Vec> := [];
      var iter := 0;
      while iter < budget
        invariant 0 <= iter <= budget
        invariant path + Walk(particles, num, current, budget - iter) == Walk(particles, num, seed, budget)
        invariant line == Rasterize(num, [seed] + path)
      {
        ghost var before := current;
        var strength := FieldStrength(current.x, current.y, num.term);
        var direction := num.unit(strength);
        current := Vec(current.x + direction.x, current.y + direction.y);
        assert current == Step(particles, num, before);
        if Captured(current, particles, num) {
          WalkCaptured(particles, num, path, before, budget - iter, Walk(particles, num, seed, budget));
          break;
        }
        WalkAdvance(particles, num, path, before, budget - iter, Walk(particles, num, seed, budget));
        RasterizeSnoc(num, [seed] + path, current);
        line := line + [ToPoint(num, current)];
        path := path + [current];
        iter := iter + 1;
      }
      WalkBounds(particles, num, seed, budget);
    }

    /** The tracing part of `on_update`: for each positive charge in placement order,
        sixteen lines at angles `i * pi / 8`, collected in drawing order. */
    method TraceFieldLines(num: Numerics) returns (lines: seq<seq<Point>>)
      ensures lines == FieldLines(particles, num)
      ensures |lines| == LINES_PER_CHARGE * |Emitters(particles)|
    {
      lines := [];
      var k := 0;
      while k < |particles|
        invariant 0 <= k <= |particles|
        invariant lines == LinesOver(particles, num, Emitters(particles[..k]))
      {
        var c := particles[k];
        ghost var done := LinesOver(particles, num, Emitters(particles[..k]));
        FilterPrefix(particles, IsEmitter, k);
        if c.charge > 0.0 {
          var i := 0;
          while i < LINES_PER_CHARGE
            invariant 0 <= i <= LINES_PER_CHARGE
            invariant lines == done + LinesFor(particles, num, c)[..i]
          {
            var seed := Seed(c, i, num);
            var line := TraceLine(seed, num, MAX_LINE_ITERS);
            assert line == Line(particles, num, seed);
            LinesForPrefix(particles, num, c, i);
            lines := lines + [line];
            i := i + 1;
          }
          assert LinesFor(particles, num, c)[..i] == LinesFor(particles, num, c);
          LinesOverSnoc(particles, num, Emitters(particles[..k]), c);
        } else {
          assert Emitters(particles[..k + 1]) == Emitters(particles[..k]);
        }
        k := k + 1;
      }
      assert particles[..k] == particles;
      FieldLinesCount(particles, num);
    }
  }
}
