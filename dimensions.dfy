/**
 * The master-dimension calculation of `resize`: from the source size, a
 * requested width and/or height and a master mode, the size handed to the
 * image library. PHP computes the proportions in floating point; here they
 * are exact rationals, compared by cross-multiplication and rounded half up.
 */
module Dimensions {
  import opened Wrappers
  import opened Context

  /** The resizing constraints NONE .. PRECISE. */
  datatype Master = NONE | WIDTH | HEIGHT | AUTO | INVERSE | PRECISE

  /** The size resize() hands to the image library, and the master it settled on. */
  datatype Resolved = Resolved(width: nat, height: nat, master: Master)

  /** PHP's round() of the non-negative rational p/q (half away from zero). */
  function RoundDiv(p: nat, q: nat): nat
    requires q > 0
  {
    (2 * p + q) / (2 * q)
  }

  /** max(x, 1) */
  function AtLeastOne(x: nat): nat {
    if x < 1 then 1 else x
  }

  /**
   * resize($width, $height, $master). An absent master (PHP null) means
   * AUTO. A width or height is None when PHP's empty() holds of it.
   */
  function Resize(sw: nat, sh: nat, w: Option<nat>, h: Option<nat>, master: Option<Master>): (r: Result<Resolved, Abort>)
    requires sw > 0 && sh > 0
    requires w.Some? || h.Some?
    requires master == Some(NONE) ==> w.Some? && h.Some?
    ensures r.Ok? ==> r.value.width >= 1 && r.value.height >= 1
    ensures r.Ok? ==> r.value.master != AUTO && r.value.master != INVERSE
    ensures r.Ok? && master != Some(NONE) && master != Some(PRECISE) ==> r.value.master in {WIDTH, HEIGHT}
    ensures r.Err? ==> r.error == RuntimeError
  {
    // the legacy WIDTH and HEIGHT masters clear the other dimension
    var (w1, h1, m1) :=
      if master.None? then (w, h, AUTO)
      else if master.value == WIDTH && w.Some? then (w, None, AUTO)
      else if master.value == HEIGHT && h.Some? then (None, h, AUTO)
      else (w, h, master.value);
    // a missing dimension makes the other one the master
    var m2 := if w1.None? then HEIGHT else m1;
    var m3 := if h1.None? then WIDTH else m2;
    var wv := w1.GetOr(0);
    var hv := h1.GetOr(0);
    if (m3 == AUTO || m3 == INVERSE || m3 == PRECISE) && hv == 0 then Err(RuntimeError)
    else if (m3 == AUTO || m3 == INVERSE) && wv == 0 then Err(RuntimeError)
    else
      // sw / w > sh / h, for positive w and h
      var widthShrinksMore := sw * hv > sh * wv;
      var m4 :=
        if m3 == AUTO then (if widthShrinksMore then WIDTH else HEIGHT)
        else if m3 == INVERSE then (if widthShrinksMore then HEIGHT else WIDTH)
        else m3;
      var (rw, rh) :=
        match m4
        case WIDTH => (wv, RoundDiv(sh * wv, sw))
        case HEIGHT => (RoundDiv(sw * hv, sh), hv)
        case PRECISE =>
          // w / h > sw / sh
          if wv * sh > sw * hv then (wv, RoundDiv(sh * wv, sw)) else (RoundDiv(sw * hv, sh), hv)
        case _ => (wv, hv);
      Ok(Resolved(AtLeastOne(rw), AtLeastOne(rh), m4))
  }

  // ---------------------------------------------------------------------
  // Rounding.

  lemma MulMono(a: int, x: int, y: int)
    requires a >= 0 && x <= y
    ensures a * x <= a * y
  {
  }

  /** round(p/q) is the nearest integer: 2p - q < 2q * round(p/q) <= 2p + q. */
  lemma RoundDivNearest(p: nat, q: nat)
    requires q > 0
    ensures 2 * p - q < 2 * q * RoundDiv(p, q) <= 2 * p + q
  {
    var d := 2 * q;
    var n := 2 * p + q;
    var r := n / d;
    assert n == d * r + n % d && 0 <= n % d < d;
  }

  /** round(p/q) <= k when p/q <= k. */
  lemma RoundDivAtMost(p: nat, q: nat, k: nat)
    requires q > 0 && p <= q * k
    ensures RoundDiv(p, q) <= k
  {
    RoundDivNearest(p, q);
    var r := RoundDiv(p, q);
    if r > k {
      MulMono(2 * q, k + 1, r);
    }
  }

  /** round(p/q) >= k when p/q >= k. */
  lemma RoundDivAtLeast(p: nat, q: nat, k: nat)
    requires q > 0 && p >= q * k
    ensures RoundDiv(p, q) >= k
  {
    RoundDivNearest(p, q);
    var r := RoundDiv(p, q);
    if r < k {
      MulMono(2 * q, r + 1, k);
    }
  }

  /**
   * x is round(p/q) floored at 1: the nearest integer to p/q when that is
   * at least 1, and 1 otherwise.
   */
  predicate IsRoundedRatio(x: nat, p: nat, q: nat)
    requires q > 0
  {
    && (2 * p + q < 2 * q ==> x == 1)
    && (2 * p + q >= 2 * q ==> 2 * p - q < 2 * q * x <= 2 * p + q)
  }

  lemma AtLeastOneRoundDiv(p: nat, q: nat)
    requires q > 0
    ensures IsRoundedRatio(AtLeastOne(RoundDiv(p, q)), p, q)
  {
    RoundDivNearest(p, q);
    var r := RoundDiv(p, q);
    if 2 * p + q < 2 * q {
      assert r < 1 by {
        if r >= 1 {
          MulMono(2 * q, 1, r);
        }
      }
    }
  }

  // ---------------------------------------------------------------------
  // Normalisation of the master.

  /** The WIDTH master with a width is AUTO with the height cleared. */
  lemma WidthHintIsAuto(sw: nat, sh: nat, a: nat, h: Option<nat>)
    requires sw > 0 && sh > 0
    ensures Resize(sw, sh, Some(a), h, Some(WIDTH)) == Resize(sw, sh, Some(a), None, Some(AUTO))
  {
  }

  /** The HEIGHT master with a height is AUTO with the width cleared. */
  lemma HeightHintIsAuto(sw: nat, sh: nat, w: Option<nat>, b: nat)
    requires sw > 0 && sh > 0
    ensures Resize(sw, sh, w, Some(b), Some(HEIGHT)) == Resize(sw, sh, None, Some(b), Some(AUTO))
  {
  }

  /**
   * Without a width the height is the master: the height is kept and the
   * width is derived from it in the source's proportions.
   */
  lemma NoWidthMeansHeightMaster(sw: nat, sh: nat, h: nat, master: Option<Master>)
    requires sw > 0 && sh > 0
    requires master != Some(NONE)
    ensures var r := Resize(sw, sh, None, Some(h), master);
      && r.Ok? && r.value.master == HEIGHT
      && r.value.height == AtLeastOne(h)
      && IsRoundedRatio(r.value.width, sw * h, sh)
  {
    AtLeastOneRoundDiv(sw * h, sh);
  }

  /**
   * Without a height the width is the master: the width is kept and the
   * height is derived from it in the source's proportions.
   */
  lemma NoHeightMeansWidthMaster(sw: nat, sh: nat, w: nat, master: Option<Master>)
    requires sw > 0 && sh > 0
    requires master != Some(NONE)
    ensures var r := Resize(sw, sh, Some(w), None, master);
      && r.Ok? && r.value.master == WIDTH
      && r.value.width == AtLeastOne(w)
      && IsRoundedRatio(r.value.height, sh * w, sw)
  {
    AtLeastOneRoundDiv(sh * w, sw);
  }

  /**
   * Whatever the path to it, a WIDTH result keeps the requested width and
   * derives the height proportionally; a HEIGHT result the other way round.
   */
  lemma MasterAxisKept(sw: nat, sh: nat, w: Option<nat>, h: Option<nat>, master: Option<Master>)
    requires sw > 0 && sh > 0
    requires w.Some? || h.Some?
    requires master == Some(NONE) ==> w.Some? && h.Some?
    ensures var r := Resize(sw, sh, w, h, master);
      && (r.Ok? && r.value.master == WIDTH ==>
            w.Some? && r.value.width == AtLeastOne(w.value) && IsRoundedRatio(r.value.height, sh * w.value, sw))
      && (r.Ok? && r.value.master == HEIGHT ==>
            h.Some? && r.value.height == AtLeastOne(h.value) && IsRoundedRatio(r.value.width, sw * h.value, sh))
  {
    if w.Some? {
      AtLeastOneRoundDiv(sh * w.value, sw);
    }
    if h.Some? {
      AtLeastOneRoundDiv(sw * h.value, sh);
    }
  }

  // ---------------------------------------------------------------------
  // AUTO fits inside the box, INVERSE covers it.

  /**
   * AUTO with both dimensions picks WIDTH exactly when the width needs the
   * greater reduction (sw/w > sh/h), and the result fits inside w x h.
   */
  lemma AutoFitsInside(sw: nat, sh: nat, w: nat, h: nat)
    requires sw > 0 && sh > 0 && w > 0 && h > 0
    ensures var r := Resize(sw, sh, Some(w), Some(h), Some(AUTO));
      && r.Ok?
      && r.value.master == (if sw * h > sh * w then WIDTH else HEIGHT)
      && r.value.width <= w && r.value.height <= h
      && (r.value.master == WIDTH ==> r.value.width == w)
      && (r.value.master == HEIGHT ==> r.value.height == h)
  {
    if sw * h > sh * w {
      RoundDivAtMost(sh * w, sw, h);
    } else {
      RoundDivAtMost(sw * h, sh, w);
    }
  }

  /**
   * INVERSE with both dimensions picks the opposite axis, and the result
   * covers w x h: the overflow is on the larger side.
   */
  lemma InverseCovers(sw: nat, sh: nat, w: nat, h: nat)
    requires sw > 0 && sh > 0 && w > 0 && h > 0
    ensures var r := Resize(sw, sh, Some(w), Some(h), Some(INVERSE));
      && r.Ok?
      && r.value.master == (if sw * h > sh * w then HEIGHT else WIDTH)
      && r.value.width >= w && r.value.height >= h
      && (r.value.master == WIDTH ==> r.value.width == w)
      && (r.value.master == HEIGHT ==> r.value.height == h)
  {
    if sw * h > sh * w {
      RoundDivAtLeast(sw * h, sh, w);
    } else {
      RoundDivAtLeast(sh * w, sw, h);
    }
  }

  /** For the same request, AUTO and INVERSE never settle on the same axis. */
  lemma AutoInverseOpposite(sw: nat, sh: nat, w: nat, h: nat)
    requires sw > 0 && sh > 0 && w > 0 && h > 0
    ensures var a := Resize(sw, sh, Some(w), Some(h), Some(AUTO));
      var i := Resize(sw, sh, Some(w), Some(h), Some(INVERSE));
      && a.Ok? && i.Ok?
      && {a.value.master, i.value.master} == {WIDTH, HEIGHT}
  {
    AutoFitsInside(sw, sh, w, h);
    InverseCovers(sw, sh, w, h);
  }

  /**
   * A dimension that is set but zero (a token such as `w00`, which empty()
   * does not catch) makes the AUTO and INVERSE ratios divide by zero.
   */
  lemma ZeroDimensionDividesByZero(sw: nat, sh: nat, w: nat, h: nat, m: Master)
    requires sw > 0 && sh > 0
    requires m == AUTO || m == INVERSE
    requires w == 0 || h == 0
    ensures Resize(sw, sh, Some(w), Some(h), Some(m)) == Err(RuntimeError)
  {
  }

  /** 800 x 600 asked for width 400 only: 400 x 300. */
  lemma WidthOnlyExample()
    ensures Resize(800, 600, Some(400), None, Some(INVERSE)) == Ok(Resolved(400, 300, WIDTH))
  {
  }

  /** 800 x 600 asked to cover 300 x 300: 400 x 300. */
  lemma CoverExample()
    ensures Resize(800, 600, Some(300), Some(300), Some(INVERSE)) == Ok(Resolved(400, 300, HEIGHT))
  {
  }

  /** 800 x 600 asked to fit in 300 x 600: 300 x 225. */
  lemma FitExample()
    ensures Resize(800, 600, Some(300), Some(600), Some(AUTO)) == Ok(Resolved(300, 225, WIDTH))
  {
  }

  /** A derived size of 0.4 pixels is floored to 1, not rounded to 0. */
  lemma TinyExample()
    ensures Resize(1000, 2, Some(200), None, None) == Ok(Resolved(200, 1, WIDTH))
  {
  }
}
