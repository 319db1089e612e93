/** Placed charges and their visual class (src/lib.rs, `Particle` and the particle tuples of `Game`). */
module Particles {

  /** Visual class of a charge, and the three choices offered by the toolbar. */
  datatype Particle = Positive | Negative | Neutral

  /** One entry of `Game.particles`: canvas position and signed charge in coulombs. */
  datatype Charge = Charge(x: real, y: real, charge: real)

  /** The sign test used when drawing a particle. */
  function Classify(q: real): (p: Particle)
    ensures p == Positive <==> q > 0.0
    ensures p == Negative <==> q < 0.0
    ensures p == Neutral <==> q == 0.0
  {
    if q > 0.0 then Positive
    else if q < 0.0 then Negative
    else Neutral
  }

  /** The tracer's emitter test: only strictly positive charges emit field lines. */
  predicate IsEmitter(c: Charge) {
    c.charge > 0.0
  }

  /** The tracer's sink test: only strictly negative charges capture field lines. */
  predicate IsSink(c: Charge) {
    c.charge < 0.0
  }

  /** `ps.iter().filter(keep)`: the charges satisfying `keep`, in their original order. */
  function Filter(ps: seq<Charge>, keep: Charge -> bool): (r: seq<Charge>)
    ensures |r| <= |ps|
  {
    if ps == [] then []
    else Filter(ps[..|ps| - 1], keep) + (if keep(ps[|ps| - 1]) then [ps[|ps| - 1]] else [])
  }

  /** The filter keeps exactly the charges satisfying `keep`. */
  lemma {:induction false} FilterMembers(ps: seq<Charge>, keep: Charge -> bool, c: Charge)
    ensures c in Filter(ps, keep) <==> c in ps && keep(c)
    decreases |ps|
  {
    if ps != [] {
      var init, last := ps[..|ps| - 1], ps[|ps| - 1];
      assert ps == init + [last];
      FilterMembers(init, keep, c);
    }
  }

  function Emitters(ps: seq<Charge>): seq<Charge> {
    Filter(ps, IsEmitter)
  }

  function Sinks(ps: seq<Charge>): seq<Charge> {
    Filter(ps, IsSink)
  }

  /** The emitter and sink tests agree with the drawing classification, and a neutral
      charge is neither an emitter nor a sink. */
  lemma ClassesAgree(ps: seq<Charge>, c: Charge)
    ensures c in Emitters(ps) <==> c in ps && Classify(c.charge) == Positive
    ensures c in Sinks(ps) <==> c in ps && Classify(c.charge) == Negative
    ensures Classify(c.charge) == Neutral ==> c !in Emitters(ps) && c !in Sinks(ps)
  {
    FilterMembers(ps, IsEmitter, c);
    FilterMembers(ps, IsSink, c);
  }

  /** The filter of a prefix grows by the next element when that one is kept. */
  lemma FilterPrefix(ps: seq<Charge>, keep: Charge -> bool, k: nat)
    requires k < |ps|
    ensures Filter(ps[..k + 1], keep) == Filter(ps[..k], keep) + (if keep(ps[k]) then [ps[k]] else [])
  {
    assert ps[..k + 1][..k] == ps[..k];
  }

  /** Filtering distributes over concatenation, so the filter keeps list order. */
  lemma {:induction false} FilterAppend(a: seq<Charge>, b: seq<Charge>, keep: Charge -> bool)
    ensures Filter(a + b, keep) == Filter(a, keep) + Filter(b, keep)
    decreases |b|
  {
    if b == [] {
      assert a + b == a;
    } else {
      var init, last := b[..|b| - 1], b[|b| - 1];
      assert a + b == (a + init) + [last];
      assert (a + b)[..|a + b| - 1] == a + init;
      assert b[..|b| - 1] == init;
      FilterAppend(a, init, keep);
    }
  }
}
