/** The toolbar strip on the right tenth of the canvas (src/lib.rs, `Toolbar`): one
    rectangle per charge class, stacked from the top, and the click that selects one. */
module ToolbarWidget {
  import opened Prelude
  import opened Particles

  /** Largest coordinate `sdl2::rect::Rect::new` keeps without clamping (`i32::MAX / 2`). */
  const RECT_MAX: int := 0x3FFF_FFFF

  /** `sdl2::rect::Rect` as `x, y, w, h`. */
  datatype Rect = Rect(x: int, y: int, w: int, h: int)

  /** A canvas of `w` by `h` pixels with `n` options on which the unsigned arithmetic of
      the layout neither overflows nor yields a size `Rect::new` would clamp. */
  predicate ValidCanvas(w: nat, h: nat, n: nat) {
    1 <= n && 1 <= w && n <= h && w * 9 <= U32_MAX && h <= RECT_MAX
  }

  /** `get_option_rect`: the rectangle of option `i` among `n`, spanning from the
      toolbar's left edge `w * 9 / 10` to the right edge of the canvas, `h / n` tall. */
  function OptionRect(w: nat, h: nat, n: nat, i: nat): (r: Rect)
    requires ValidCanvas(w, h, n) && i < n
    ensures r.x + r.w == w
    ensures r.x * 10 <= w * 9 < (r.x + 1) * 10
    ensures 1 <= r.w && (r.w - 1) * 10 < w <= r.w * 10
    ensures 1 <= r.h && r.h * n <= h < (r.h + 1) * n
    ensures r.y == i * r.h && r.y + r.h <= h
  {
    var left := w * 9 / 10;
    var yInc := h / n;
    DivBounds(w * 9, 10);
    RowsFit(h, n, i);
    Rect(left, i * yInc, w - left, yInc)
  }

  /** `n` rows of height `h / n` fit in `h`, and each is at least one pixel tall. */
  lemma RowsFit(h: nat, n: nat, i: nat)
    requires 1 <= n <= h && i < n
    ensures 1 <= h / n && (h / n) * n <= h < (h / n + 1) * n
    ensures i * (h / n) + h / n <= h
  {
    var yInc := h / n;
    DivBounds(h, n);
    MulMono(i + 1, n, yInc);
    assert (i + 1) * yInc == i * yInc + yInc;
    assert n * yInc == yInc * n;
  }

  lemma DivBounds(a: nat, b: nat)
    requires 1 <= b
    ensures (a / b) * b <= a < (a / b + 1) * b
  {
  }

  lemma MulMono(a: nat, b: nat, c: nat)
    requires a <= b
    ensures a * c <= b * c
  {
  }

  /** Inclusive containment, as `handle_mouse_down` tests it on both edges. */
  predicate Contains(r: Rect, x: int, y: int) {
    x >= r.x && x <= r.x + r.w && y >= r.y && y <= r.y + r.h
  }

  /** The first option at index `from` or later whose rectangle contains `(x, y)`. */
  function FirstHit(w: nat, h: nat, n: nat, x: int, y: int, from: nat): (r: Option<nat>)
    requires ValidCanvas(w, h, n)
    ensures r.Some? ==> from <= r.value < n && Contains(OptionRect(w, h, n, r.value), x, y)
    ensures r.Some? ==> forall j :: from <= j < r.value ==> !Contains(OptionRect(w, h, n, j), x, y)
    ensures r.None? ==> forall j :: from <= j < n ==> !Contains(OptionRect(w, h, n, j), x, y)
    decreases n - from
  {
    if from >= n then None
    else if Contains(OptionRect(w, h, n, from), x, y) then Some(from)
    else FirstHit(w, h, n, x, y, from + 1)
  }

  /** Consecutive options are stacked: each starts `h / n` below the previous one,
      exactly where the previous one's height ends. */
  lemma OptionsStacked(w: nat, h: nat, n: nat, i: nat)
    requires ValidCanvas(w, h, n) && i + 1 < n
    ensures OptionRect(w, h, n, i + 1).y == OptionRect(w, h, n, i).y + OptionRect(w, h, n, i).h
    ensures OptionRect(w, h, n, i + 1).y - OptionRect(w, h, n, i).y == h / n
    ensures OptionRect(w, h, n, i + 1).x == OptionRect(w, h, n, i).x
    ensures OptionRect(w, h, n, i + 1).w == OptionRect(w, h, n, i).w
  {
  }

  /** The edge shared by two neighbouring options belongs to both rectangles, and a
      click on it selects the upper one. */
  lemma SharedEdgeSelectsUpper(w: nat, h: nat, n: nat, x: int, i: nat)
    requires ValidCanvas(w, h, n) && i + 1 < n
    requires w * 9 / 10 <= x <= w
    ensures var y := OptionRect(w, h, n, i + 1).y;
      Contains(OptionRect(w, h, n, i), x, y) && Contains(OptionRect(w, h, n, i + 1), x, y) &&
      FirstHit(w, h, n, x, y, 0) == Some(i)
  {
    var y := OptionRect(w, h, n, i + 1).y;
    var yInc := OptionRect(w, h, n, 0).h;
    assert y == OptionRect(w, h, n, i).y + yInc;
    forall j | 0 <= j < i ensures !Contains(OptionRect(w, h, n, j), x, y) {
      RowBelow(j, i, yInc);
    }
  }

  /** Which option a click selects, stated by band: the toolbar column spans
      `w * 9 / 10 ..= w`; option `k` owns the rows `k * (h / n) + 1 ..= (k + 1) * (h / n)`,
      option 0 also row 0, and the rows below `n * (h / n)` belong to no option. */
  function ClickedBand(w: nat, h: nat, n: nat, x: int, y: int): Option<nat>
    requires ValidCanvas(w, h, n)
  {
    var yInc := h / n;
    if x < w * 9 / 10 || x > w || y < 0 || y > n * yInc then None
    else if y == 0 then Some(0)
    else Some((y - 1) / yInc)
  }

  /** The hit-test loop selects exactly the option given by the band description. */
  lemma FirstHitIsBand(w: nat, h: nat, n: nat, x: int, y: int)
    requires ValidCanvas(w, h, n)
    ensures FirstHit(w, h, n, x, y, 0) == ClickedBand(w, h, n, x, y)
  {
    var band := ClickedBand(w, h, n, x, y);
    if band.None? {
      BandMissesAll(w, h, n, x, y);
    } else {
      BandHitsFirst(w, h, n, x, y, band.value);
    }
  }

  lemma ContainsIff(w: nat, h: nat, n: nat, j: nat, x: int, y: int)
    requires ValidCanvas(w, h, n) && j < n
    ensures Contains(OptionRect(w, h, n, j), x, y) <==>
      w * 9 / 10 <= x <= w && j * (h / n) <= y <= j * (h / n) + h / n
  {
  }

  lemma BandMissesAll(w: nat, h: nat, n: nat, x: int, y: int)
    requires ValidCanvas(w, h, n) && ClickedBand(w, h, n, x, y).None?
    ensures forall j :: 0 <= j < n ==> !Contains(OptionRect(w, h, n, j), x, y)
  {
    var yInc := h / n;
    forall j | 0 <= j < n ensures !Contains(OptionRect(w, h, n, j), x, y) {
      ContainsIff(w, h, n, j, x, y);
      RowBelow(j, n, yInc);
    }
  }

  lemma BandHitsFirst(w: nat, h: nat, n: nat, x: int, y: int, k: nat)
    requires ValidCanvas(w, h, n) && ClickedBand(w, h, n, x, y) == Some(k)
    ensures k < n && Contains(OptionRect(w, h, n, k), x, y)
    ensures forall j :: 0 <= j < k ==> !Contains(OptionRect(w, h, n, j), x, y)
  {
    var yInc := h / n;
    RowsFit(h, n, 0);
    assert 0 <= y <= n * yInc;
    if y == 0 {
      assert k == 0;
    } else {
      assert k == (y - 1) / yInc;
      DivBounds(y - 1, yInc);
      assert k * yInc < y <= k * yInc + yInc;
      if k >= n {
        MulMono(n, k, yInc);
        assert false;
      }
    }
    ContainsIff(w, h, n, k, x, y);
    forall j | 0 <= j < k ensures !Contains(OptionRect(w, h, n, j), x, y) {
      ContainsIff(w, h, n, j, x, y);
      RowBelow(j, k, yInc);
    }
  }

  /** Row `j` ends no lower than row `k` starts, for `j < k`. */
  lemma RowBelow(j: nat, k: nat, yInc: nat)
    requires j < k
    ensures j * yInc + yInc <= k * yInc
  {
    MulMono(j + 1, k, yInc);
    assert (j + 1) * yInc == j * yInc + yInc;
  }

  class Toolbar {
    var selectedPart: Option<Particle>
    var choices: seq<Particle>

    /** The selection, when there is one, is one of the choices. */
    ghost predicate Valid()
      reads this
    {
      |choices| >= 1 && (selectedPart.Some? ==> selectedPart.value in choices)
    }

    /** `Toolbar::default`: nothing selected, the three classes offered in order. */
    constructor ()
      ensures Valid()
      ensures selectedPart == None && choices == [Positive, Negative, Neutral]
    {
      selectedPart := None;
      choices := [Positive, Negative, Neutral];
    }

    /** `get_selected_option`. */
    function SelectedOption(): (p: Option<Particle>)
      reads this
      requires Valid()
      ensures p.Some? ==> p.value in choices
    {
      selectedPart
    }

    /** `handle_mouse_down`: select the first option whose rectangle contains the click;
        a click outside every option keeps the previous selection. */
    method HandleMouseDown(w: nat, h: nat, x: Int32, y: Int32)
      requires Valid() && ValidCanvas(w, h, |choices|)
      modifies this`selectedPart
      ensures Valid()
      ensures selectedPart == match FirstHit(w, h, |choices|, x as int, y as int, 0)
        case Some(i) => Some(choices[i])
        case None => old(selectedPart)
    {
      var i := 0;
      while i < |choices|
        invariant 0 <= i <= |choices|
        invariant FirstHit(w, h, |choices|, x as int, y as int, 0) == FirstHit(w, h, |choices|, x as int, y as int, i)
        invariant selectedPart == old(selectedPart)
      {
        var r := OptionRect(w, h, |choices|, i);
        if x as int >= r.x && x as int <= r.x + r.w && y as int >= r.y && y as int <= r.y + r.h {
          selectedPart := Some(choices[i]);
          break;
        }
        i := i + 1;
      }
    }
  }
}
