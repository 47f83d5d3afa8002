/** The rectangle a picture is shown in: as large as the screen allows, centred, with even-ish
    sizes (bit 1 of the scaled side is cleared). */
module Letterbox {
  import opened Wrappers

  datatype Rect = Rect(x: int, y: int, w: int, h: int)

  /** Rounding to the nearest integer, halves to even. */
  function Rint(x: real): int {
    var f := x.Floor;
    var d := x - f as real;
    if d < 0.5 then f else if d > 0.5 then f + 1 else if f % 2 == 0 then f else f + 1
  }

  /** Bitwise "and" with -3, which clears the bit of weight two. */
  function Masked(v: nat): int {
    if v / 2 % 2 == 1 then v - 2 else v
  }

  lemma {:induction false} RintIsNearest(x: real)
    ensures -0.5 <= Rint(x) as real - x <= 0.5
    ensures x == x.Floor as real + 0.5 ==> Rint(x) % 2 == 0
  {
  }

  lemma {:induction false} RintIsMonotone(x: real, n: int)
    requires x <= n as real
    ensures Rint(x) <= n
  {
  }

  lemma {:induction false} MaskedIsClose(v: nat)
    ensures 0 <= Masked(v) && v - 2 <= Masked(v) <= v
    ensures Masked(v) / 2 % 2 == 0 && Masked(v) % 2 == v % 2
  {
  }

  function Quotient(x: real, y: real): real
    requires y != 0.0
  {
    x / y
  }

  /** The aspect ratio of a picture of this size in samples of this ratio. */
  function Stretched(sample: real, width: int, height: int): real
    requires height > 0
  {
    Quotient(sample * width as real, height as real)
  }

  /** The display aspect ratio: the sample aspect ratio when the stream gives a positive one. None
      is the infinite ratio that a positive numerator over zero gives; over a negative one the
      quotient is minus infinity, which is not positive. */
  function AspectRatio(num: int, den: int, width: int, height: int): (r: Option<real>)
    requires width > 0 && height > 0
  {
    var ofCodec := Quotient(width as real, height as real);
    if num == 0 then Some(ofCodec)
    else if den == 0 then (if num > 0 then None else Some(ofCodec))
    else
      var a := Stretched(Quotient(num as real, den as real), width, height);
      Some(if a <= 0.0 then ofCodec else a)
  }

  lemma {:induction false} ProductSign(x: real, y: real)
    requires y > 0.0
    ensures x * y > 0.0 <==> x > 0.0
  {
    if x < 0.0 {
      assert (-x) * y > 0.0;
      assert (-x) * y == -(x * y);
    }
  }

  lemma {:induction false} QuotientSign(x: real, y: real)
    requires y != 0.0
    ensures Quotient(x, y) > 0.0 <==> (x > 0.0 && y > 0.0) || (x < 0.0 && y < 0.0)
  {
    var q := Quotient(x, y);
    assert q * y == x;
    if y > 0.0 {
      ProductSign(q, y);
    } else {
      ProductSign(q, -y);
      assert q * (-y) == -x;
    }
  }

  predicate SameSign(x: int, y: int) {
    (x > 0 && y > 0) || (x < 0 && y < 0)
  }

  lemma {:induction false} StretchedSign(num: int, den: int, width: int, height: int)
    requires den != 0 && width > 0 && height > 0
    ensures Stretched(Quotient(num as real, den as real), width, height) > 0.0 <==> SameSign(num, den)
  {
    var q := Quotient(num as real, den as real);
    QuotientSign(num as real, den as real);
    ProductSign(q, width as real);
    QuotientSign(q * width as real, height as real);
  }

  /** The ratio is infinite exactly when a positive numerator stands over zero. It is positive
      otherwise: the stream's if numerator and denominator have one sign, and else the codec's. */
  lemma {:induction false} AspectRatioIsPositive(num: int, den: int, width: int, height: int)
    requires width > 0 && height > 0
    ensures var r := AspectRatio(num, den, width, height);
            && (r == None <==> num > 0 && den == 0)
            && (r.Some? ==>
                  && r.value > 0.0
                  && r.value == if SameSign(num, den) then Stretched(Quotient(num as real, den as real), width, height)
                                else Quotient(width as real, height as real))
  {
    QuotientSign(width as real, height as real);
    if den != 0 {
      StretchedSign(num, den, width, height);
    }
  }

  method Place(screenW: int, screenH: int, aspect: real) returns (r: Rect)
    requires screenW > 0 && screenH > 0 && aspect > 0.0
    ensures 0 <= r.x && 0 <= r.y && 0 <= r.w && 0 <= r.h
    ensures r.x + r.w <= screenW && r.y + r.h <= screenH
    ensures r.w == screenW || r.h == screenH
    ensures -1 <= screenW - r.w - 2 * r.x <= 1 && -1 <= screenH - r.h - 2 * r.y <= 1
    ensures r.h == screenH ==> r.w as real - screenH as real * aspect <= 0.5
    ensures r.h == screenH && r.w < screenW ==> screenH as real * aspect - r.w as real <= 2.5
    ensures r.h < screenH ==> -0.5 <= screenW as real / aspect - r.h as real <= 2.5
  {
    var h := screenH;
    Scaled(h as real * aspect);
    var w := Masked(Rint(h as real * aspect));
    if w > screenW {
      w := screenW;
      FitsOtherSide(screenW, screenH, aspect);
      Scaled(w as real / aspect);
      h := Masked(Rint(w as real / aspect));
    }
    var x := (screenW - w) / 2;
    var y := (screenH - h) / 2;
    r := Rect(x, y, w, h);
  }

  /** A scaled side is a natural number, at most half above and two and a half below exact. */
  lemma {:induction false} Scaled(v: real)
    requires v > 0.0
    ensures Rint(v) >= 0
    ensures Masked(Rint(v)) >= 0 && -0.5 <= v - Masked(Rint(v)) as real <= 2.5
  {
  }

  lemma {:induction false} QuotientFits(w: real, h: real, a: real)
    requires a > 0.0 && 0.0 < w <= h * a
    ensures 0.0 < w / a <= h
  {
  }

  /** If the scaled width overflows the screen, the height scaled back does not. */
  lemma {:induction false} FitsOtherSide(screenW: int, screenH: int, aspect: real)
    requires screenW > 0 && screenH > 0 && aspect > 0.0
    requires Rint(screenH as real * aspect) >= 0 && Masked(Rint(screenH as real * aspect)) > screenW
    ensures screenW as real / aspect > 0.0
    ensures Rint(screenW as real / aspect) <= screenH
  {
    var exact := screenH as real * aspect;
    RintIsNearest(exact);
    MaskedIsClose(Rint(exact));
    QuotientFits(screenW as real, screenH as real, aspect);
    RintIsMonotone(screenW as real / aspect, screenH);
  }
}
