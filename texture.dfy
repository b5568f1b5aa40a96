/** The diagonal-stripe texture of 004_Texturas.py: a grey-level image of the photograph's size
    whose pixels alternate between a light and a dark value along anti-diagonals. */
module Texture {

  /** A pixel of a `np.uint8` image. */
  newtype Byte = x: int | 0 <= x < 256

  /** intensidad_claro. */
  const Light: Byte := 200

  /** intensidad_oscuro. */
  const Dark: Byte := 50

  /** espaciado: the period of the stripes. */
  const Spacing: nat := 20

  /** The value of every pixel whose coordinates add up to s: light in the first half of each
      period, dark in the second. */
  function Stripe(s: nat): (v: Byte)
    ensures v == Light || v == Dark
    ensures v == Light <==> s % Spacing < Spacing / 2
  {
    if s % Spacing < Spacing / 2 then Light else Dark
  }

  /** The pattern repeats every `espaciado` steps; since a pixel's value depends on x + y only,
      that holds along either axis. */
  lemma StripePeriodic(s: nat)
    ensures Stripe(s + Spacing) == Stripe(s)
  {
    assert (s + Spacing) % Spacing == s % Spacing;
  }

  /** Half a period further along, light and dark swap: the stripes have equal width. */
  lemma StripeHalfShift(s: nat)
    ensures Stripe(s + Spacing / 2) != Stripe(s)
  {
    var r := s % Spacing;
    assert s == (s / Spacing) * Spacing + r;
    if r < 10 {
      assert (s + 10) % Spacing == r + 10;
    } else {
      assert s + 10 == (s / Spacing + 1) * Spacing + (r - 10);
      assert (s + 10) % Spacing == r - 10;
    }
  }

  /** Pixels on one anti-diagonal share their value. */
  lemma AntiDiagonal(y: nat, x: nat, y': nat, x': nat)
    requires x + y == x' + y'
    ensures Stripe(x + y) == Stripe(x' + y')
  {
  }

  /** The nested loops over `alto` rows and `ancho` columns: every pixel (y, x) of the new
      texture is written with the stripe value of x + y. */
  method DiagonalTexture(height: nat, width: nat) returns (t: array2<Byte>)
    ensures fresh(t)
    ensures t.Length0 == height && t.Length1 == width
    ensures forall y, x :: 0 <= y < height && 0 <= x < width ==> t[y, x] == Stripe(x + y)
  {
    t := new Byte[height, width]((_, _) => 0);
    var y := 0;
    while y < height
      invariant y <= height
      invariant forall i, j :: 0 <= i < y && 0 <= j < width ==> t[i, j] == Stripe(j + i)
    {
      var x := 0;
      while x < width
        invariant x <= width
        invariant forall i, j :: 0 <= i < y && 0 <= j < width ==> t[i, j] == Stripe(j + i)
        invariant forall j :: 0 <= j < x ==> t[y, j] == Stripe(j + y)
      {
        if (x + y) % Spacing < Spacing / 2 {
          t[y, x] := Light;
        } else {
          t[y, x] := Dark;
        }
        x := x + 1;
      }
      y := y + 1;
    }
  }
}
