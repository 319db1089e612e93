# Electric field visualizer: a Dafny model of its core

The program places point charges on a canvas. It redraws the electric field as field
lines, tracing sixteen lines out of every positively charged particle. Each line is a
fixed-step walk along the field direction. A line stops when it enters the capture
radius of a negatively charged particle, or after 4096 steps. A toolbar strip on the
right tenth of the canvas offers the three particle classes (positive, negative,
neutral). Keys adjust the charge that the next click will place.

This project models that core, all of it in `src/lib.rs`:

- `prelude.dfy` (`Prelude`): Rust's `i32`, the `u32` bound and an `Option` type.
- `particles.dfy` (`Particles`): the `Particle` class of a charge, the placed
  `(x, y, charge)` tuples, the sign classification, and the `filter` that selects
  emitters (`charge > 0`) and sinks (`charge < 0`).
- `field.dfy` (`FieldModel`): `get_field_strength` as a left fold that sums
  per-particle contributions, with superposition proved.
- `tracer.dfy` (`Tracer`): the specification of one redraw's tracing. It covers
  - the seed of each line,
  - the unit step along the field,
  - the capture test,
  - the bounded walk,
  - the order in which lines are produced.

  Lemmas give the line count, the line lengths, and why a line stops.
- `toolbar.dfy` (`ToolbarWidget`): `get_option_rect` as unsigned integer geometry, and
  the first-hit search of `Toolbar::handle_mouse_down`, with a closed form of which
  option a click selects. It also holds the `Toolbar` class, whose selection is
  updated in place.
- `game.dfy` (`GameState`): the `Game` class. Its methods are:
  - `handle_mouse_down`, which appends a particle;
  - `handle_keydown`, which updates the selected charge;
  - `get_field_strength`, a loop;
  - the nested tracing loops of `on_update`, which return the lines instead of drawing
    them.

  Each method is proved against the specification functions above.

Floating-point numbers are modelled as exact reals. The model does not compute the
floating-point maths the tracer calls. Instead, each of these functions is a field of
the `Tracer.Numerics` value passed to the tracer:
- the Coulomb contribution of one particle at a point;
- `hypot`;
- the unit direction `F / |F|`;
- `cos`, `sin` and `pi`;
- the `as i32` conversion.

Every result is proved for every choice of these functions. The product
`PARTICLE_RADIUS as f64 * 1.1` is exactly `11.0` in `f64`, so the seed offset and the
capture radius are the real number `11.0`.

Two points about the traced lines:
- The capture test runs before the push and breaks out of the loop
  (src/lib.rs:254-267), so a captured position is never pushed. Every position kept
  after the seed is, before its `as i32` conversion, more than the capture radius (by
  `hypot`) from every sink, and a walk that stops early does so because the step from
  its last kept position lies inside one (`Tracer.WalkBounds`). These facts are about
  the real-valued positions: the truncated `Point` that is pushed can still lie inside
  the radius. A position `(111.5, 100.0)` next to a sink at `(100, 100)` is kept, and
  it is pushed as `(111, 100)`, exactly `11` from the sink.
  The seed itself is never tested: when the first step is already captured, the line
  is the seed alone, even if the seed lies inside a sink's radius
  (`Tracer.SeedOnlyLine`).
- The comment at src/lib.rs:232 speaks of 8 lines per particle, but the loop draws 16,
  at angles `i * pi / 8` once round the circle. The model follows the code.

## Model

| member | source | states |
|---|---|---|
| `Particles.Classify` | src/lib.rs:221-227 | A charge is Positive exactly when it is `> 0`, Negative exactly when `< 0`, and Neutral exactly when `== 0`. So the classification is total and exclusive. |
| `Particles.IsEmitter` | src/lib.rs:233 | The emitter closure `charge > 0.0` of the tracing loop. |
| `Particles.IsSink` | src/lib.rs:257 | The sink closure `charge < 0.0` of the capture test. |
| `Particles.Filter` | src/lib.rs:233 | `iter().filter(keep)`: the charges satisfying `keep`, in list order, defined by recursion on the list; the result is never longer than the list. |
| `Particles.Emitters` | src/lib.rs:233 | The filter with the emitter test `charge > 0`. |
| `Particles.Sinks` | src/lib.rs:257 | The filter with the sink test `charge < 0`. |
| `Particles.FilterMembers` | src/lib.rs:233 | The particle filter keeps a charge exactly when it is in the list and satisfies the predicate. |
| `Particles.FilterAppend` | src/lib.rs:233 | Filtering a concatenation gives the concatenation of the filtered parts, so the filter keeps the list order. |
| `Particles.ClassesAgree` | src/lib.rs:221-257 | The emitter filter selects exactly the charges drawn as Positive, and the sink filter exactly those drawn as Negative. A neutral charge is neither an emitter nor a sink. |
| `FieldModel.Field` | src/lib.rs:164-177 | Left fold of the per-particle contribution `term(q, c)` over the list in order, starting at `(0, 0)` and adding each component with `+=`. |
| `FieldModel.Superposition` | src/lib.rs:164-177 | The field over `ps + qs` is the component-wise sum of the field over `ps` and the field over `qs`. |
| `FieldModel.PlacementOrderIrrelevant` | src/lib.rs:164-177 | The field does not depend on the order in which two groups of charges were placed. |
| `FieldModel.PlacingAddsTerm` | src/lib.rs:164-182 | Appending a particle changes the field at every point by exactly that particle's contribution. This follows directly from the definition of `Field`, and connects the `push` of `handle_mouse_down` to the fold. |
| `GameState.Game.FieldStrength` | src/lib.rs:164-177 | The accumulating loop returns the fold `Field` over all placed particles. It returns `(0, 0)` when there are none. |
| `GameState.Game.constructor` | src/lib.rs:157-161 | A new game has no particles and a selected charge of 0, which is zero steps. |
| `GameState.Game.HandleMouseDown` | src/lib.rs:180-182 | Exactly one particle `(x, y, current charge)` is appended at the end. Every earlier particle is unchanged, and so is the selected charge. |
| `GameState.NextCharge` | src/lib.rs:191-207 | After any key the charge is 0 or at least `1e-30` in size. `N` gives 0. Any other key keeps an already-snapped charge. `=` and `-` add or subtract one `CHARGE_STEP`, followed by the snap to zero. |
| `GameState.Game.HandleKeydown` | src/lib.rs:191-207 | The new charge is `NextCharge` of the old one and the particles are unchanged. The invariant "the charge is a whole number of steps" is preserved, with the step count updated per key. |
| `GameState.KeyOnStepGrid` | src/lib.rs:191-207 | On a whole number of steps the snap never fires. `=` moves to `k + 1` steps, `-` to `k - 1`, `N` to 0, and other keys stay at `k`. |
| `GameState.StepRoundTrip` | src/lib.rs:193-198 | On a whole number of steps, `-` undoes `=` and `=` undoes `-`. |
| `GameState.ResetIdempotent` | src/lib.rs:199-207 | Pressing `N` a second time changes nothing (that `N` gives 0 from any charge is an ensures of `NextCharge`). |
| `ToolbarWidget.OptionRect` | src/lib.rs:88-101 | Option `i`'s rectangle starts at `floor(9w/10)` and ends at the canvas's right edge, so its width is `ceil(w/10)` and at least 1. Its height is `floor(h/n)`, at least 1. It starts at `i * (h/n)` and lies inside the canvas. |
| `ToolbarWidget.OptionsStacked` | src/lib.rs:92-93 | Each option starts `h/n` below the previous one, where the previous one's height ends, in the same column. |
| `ToolbarWidget.Contains` | src/lib.rs:111-114 | The hit test with inclusive bounds on all four edges: `r.x <= x <= r.x + r.w` and `r.y <= y <= r.y + r.h`. |
| `ToolbarWidget.FirstHit` | src/lib.rs:107-119 | The result is the smallest index whose rectangle contains the click, with inclusive bounds on all four edges. It is None when no rectangle contains the click. |
| `ToolbarWidget.FirstHitIsBand` | src/lib.rs:88-119 | A click selects option `(y - 1) / (h/n)` (option 0 for `y == 0`) when it is in the column `w*9/10 ..= w` and at most `n*(h/n)` down. Otherwise it selects nothing. |
| `ToolbarWidget.SharedEdgeSelectsUpper` | src/lib.rs:107-119 | The edge shared by options `i` and `i + 1` lies in both rectangles, and a click on it selects option `i`. |
| `ToolbarWidget.Toolbar.constructor` | src/lib.rs:78-85 | The toolbar starts with nothing selected and the choices Positive, Negative, Neutral in that order. |
| `ToolbarWidget.Toolbar.SelectedOption` | src/lib.rs:103-105 | The current selection is absent or one of the choices. |
| `ToolbarWidget.Toolbar.HandleMouseDown` | src/lib.rs:107-119 | The selection becomes the choice at the first option that contains the click, and stays unchanged when no option does. The choices are unchanged. |
| `Tracer.Seed` | src/lib.rs:239-243 | The start of line `i`: the charge's position offset by `11.0` along angle `i * pi / 8`, through the abstract `cos` and `sin`. |
| `Tracer.Step` | src/lib.rs:248-252 | One step: the current position plus the unit direction of the field of all charges there. |
| `Tracer.Near` | src/lib.rs:258-261 | `hypot` of the offset from a charge is at most `1.1 * PARTICLE_RADIUS`. |
| `Tracer.Captured` | src/lib.rs:254-265 | Some charge in the list is negative and near the point: the `filter` and `find` of the capture test. |
| `Tracer.Walk` | src/lib.rs:247-268 | The accepted positions within a budget: take a step, stop without keeping it if it is captured, else keep it and continue with one step less. |
| `Tracer.ToPoint` | src/lib.rs:245 | `Point::new(x as i32, y as i32)` of one position, through the abstract conversion. |
| `Tracer.Rasterize` | src/lib.rs:245-267 | Every position of the seed and the walk converted to a `Point`, in order, as each is pushed onto `line_points`. |
| `Tracer.Line` | src/lib.rs:245-268 | The rasterized seed followed by the rasterized walk of `MAX_LINE_ITERS` steps. |
| `Tracer.LinesFor` | src/lib.rs:236-272 | The 16 lines of one emitter, in angle order `i = 0..15`. |
| `Tracer.LinesOver` | src/lib.rs:233-273 | The lines of a list of emitters, emitter after emitter, each contributing its 16 lines. |
| `Tracer.FieldLines` | src/lib.rs:233-273 | For every emitter in placement order, its 16 lines in angle order. |
| `Tracer.SeedOnlyLine` | src/lib.rs:245-265 | When the first step is captured, the line is the seed alone; the seed is never tested for capture. |
| `Tracer.CapturedBySink` | src/lib.rs:254-265 | A step is captured exactly when it is within `1.1 * PARTICLE_RADIUS` of some negative particle. Positive and neutral particles never capture. |
| `Tracer.WalkBounds` | src/lib.rs:247-268 | A walk takes at most its budget of steps and never keeps a captured position (tested before the `as i32` conversion). It ends before the budget only when the step from its last kept position would be captured. |
| `Tracer.WalkFollowsField` | src/lib.rs:248-252 | Every accepted point is one unit step along the field from the point before it, the seed for the first. |
| `Tracer.LineBounds` | src/lib.rs:239-268 | Every traced line has between 1 and 4097 points, and its first point is the rasterized seed. |
| `Tracer.LinesOverLength` | src/lib.rs:233-236 | The emitters produce exactly 16 lines each. |
| `Tracer.LinesOverAt` | src/lib.rs:233-245 | Line `i` of emitter `j` is the line traced from emitter `j`'s seed at angle `i * pi / 8`, and it sits at position `16 * j + i`. |
| `Tracer.FieldLinesCount` | src/lib.rs:233-236 | A redraw produces `16 * (number of particles with charge > 0)` lines. It produces none when no particle is positive. |
| `Tracer.FieldLinesSizes` | src/lib.rs:233-268 | Every line of a redraw has between 1 and 4097 points. |
| `GameState.Game.TraceLine` | src/lib.rs:245-268 | The loop pushes the seed and then every non-captured step, which is exactly the rasterized `Walk`. The result has between 1 and `budget + 1` points. |
| `GameState.Game.TraceFieldLines` | src/lib.rs:233-273 | The nested loops produce exactly `FieldLines`: 16 lines per positive particle, in placement order and then angle order. |

## Left out

- Rendering is not modelled: `draw_particle`, `Toolbar::on_update`, and the clear and
  draw calls of `Game::on_update`. `TraceFieldLines` returns the lines it would draw.
- The event loop of `run` is not modelled. This covers event polling, the 16 ms sleep,
  the frame counter, the `Q` and quit handling, the mouse-motion field readout, and the
  routing of a click to the game or the toolbar by `x`. All of this is I/O and timing
  plumbing. The canvas size `(w, h)` is a parameter instead of `canvas.output_size()`.
- `handle_keyup` does nothing in the source and has no counterpart in the model.
- `println!` logging is not modelled.
- `src/main.rs` is only a process-exit wrapper and is not modelled.
- IEEE-754 behaviour is not modelled. Values are exact reals. This leaves out:
  - rounding when `CHARGE_STEP` accumulates, which is what the `1e-30` snap guards
    against in the source;
  - rounding in the `+=` fold of `get_field_strength` (src/lib.rs:173-174): `f64`
    addition is not associative, so in the program `FieldModel.Superposition` and
    `FieldModel.PlacementOrderIrrelevant` hold only up to rounding, and placement
    order can change the low bits of the field;
  - NaN or infinity when a query point coincides with a charge;
  - NaN where the field is exactly zero (the midpoint of two equal positive charges,
    say): `field_strength.0 / field_strength_mag` is then `0 / 0`
    (src/lib.rs:249-252), every later position is NaN, none is captured because
    `NaN <= 11.0` is false, and each is pushed as `(0, 0)` by the cast. The model's
    abstract unit direction is a plain real vector and cannot produce this;
  - the saturating `as i32` cast.
- Physical facts about the field are not modelled: its direction away from positive
  charges, its symmetry, and whether a line actually reaches a sink. They need the
  Coulomb term, `hypot`, `cos` and `sin`, and these are abstract functions here.
- `ToolbarWidget.OptionRect`: requires a canvas of at least 1 by `n` pixels with
  `9 * w` within `u32`, and `h` small enough that `sdl2::rect::Rect::new` does not
  clamp. It also requires an index below the number of choices. Every call in the
  source passes such an index. The zero-size and overflow clamping of the `sdl2`
  library is not part of this model.
- `ToolbarWidget.Toolbar.HandleMouseDown`: requires the same canvas bounds as
  `OptionRect`.
- `GameState.Game.TraceLine`: takes the step budget as a parameter. A redraw always
  passes `MAX_LINE_ITERS = 4096`, which is what `Tracer.Line` and
  `TraceFieldLines` use.
