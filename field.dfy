/** The electric field of the placed charges (src/lib.rs, `Game::get_field_strength`). */
module FieldModel {
  import opened Particles

  /** A 2-D vector of exact reals standing for an `(f64, f64)` pair. */
  datatype Vec = Vec(x: real, y: real)

  const Zero: Vec := Vec(0.0, 0.0)

  function Add(a: Vec, b: Vec): Vec {
    Vec(a.x + b.x, a.y + b.y)
  }

  /** The field at `q`: a left fold over `ps` that adds, with `+=` on each component,
      the contribution `term(q, c)` of every charge `c` in list order. The Coulomb
      term itself (hypot, division by the squared distance) is the abstract `term`. */
  function Field(ps: seq<Charge>, q: Vec, term: (Vec, Charge) -> Vec): Vec {
    if ps == [] then Zero
    else Add(Field(ps[..|ps| - 1], q, term), term(q, ps[|ps| - 1]))
  }

  /** Superposition: the field of a list split in two is the component-wise sum of
      the fields of the two parts. */
  lemma {:induction false} Superposition(ps: seq<Charge>, qs: seq<Charge>, q: Vec, term: (Vec, Charge) -> Vec)
    ensures Field(ps + qs, q, term) == Add(Field(ps, q, term), Field(qs, q, term))
    decreases |qs|
  {
    if qs == [] {
      assert ps + qs == ps;
    } else {
      var init, last := qs[..|qs| - 1], qs[|qs| - 1];
      assert (ps + qs)[..|ps + qs| - 1] == ps + init;
      assert (ps + qs)[|ps + qs| - 1] == last;
      Superposition(ps, init, q, term);
    }
  }

  /** The order in which two groups of charges were placed does not change the field. */
  lemma PlacementOrderIrrelevant(ps: seq<Charge>, qs: seq<Charge>, q: Vec, term: (Vec, Charge) -> Vec)
    ensures Field(ps + qs, q, term) == Field(qs + ps, q, term)
  {
    Superposition(ps, qs, q, term);
    Superposition(qs, ps, q, term);
  }

  /** Placing one more charge adds exactly that charge's contribution to the field. */
  lemma PlacingAddsTerm(ps: seq<Charge>, c: Charge, q: Vec, term: (Vec, Charge) -> Vec)
    ensures Field(ps + [c], q, term) == Add(Field(ps, q, term), term(q, c))
  {
  }
}
