/** The ellipse descriptor, the fixed palette and the sampler that turns
    uniform draws into descriptors.

    The source reads `Math.random()` eight times per descriptor; here the
    draws are an explicit input, each a real in [0, 1). Numbers are exact
    reals: in IEEE-754 double arithmetic a bound such as
    `0.7 + 0.8 * r < 1.5` can round up to equality for the largest double
    below 1, which this model does not capture. */
module Ellipse {

  /** One sampled ellipse: its colour and the parameters of its gradient
      (`fx`) and of its transform chain. */
  datatype EllipseConfig = EllipseConfig(
    color: string,
    fx: real,
    scale: (real, real),
    skew: real,
    rotation: real,
    translation: (real, real))

  /** The palette every colour is drawn from. */
  const Colors: seq<string> := ["#5135FF", "#FF5828", "#F69CFF", "#FFA50F"]

  /** Number of uniform draws one descriptor consumes. */
  const DrawsPerEllipse: nat := 8

  predicate IsDraw(r: real) {
    0.0 <= r < 1.0
  }

  predicate AreDraws(ds: seq<real>) {
    forall i :: 0 <= i < |ds| ==> IsDraw(ds[i])
  }

  /** `Math.floor(r * n)`: the slot a draw selects in a list of length `n`. */
  function PaletteIndex(r: real, n: nat): (k: nat)
    requires IsDraw(r) && n > 0
    ensures k < n
  {
    MulStrict(r, 1.0, n as real);
    (r * n as real).Floor
  }

  /** Every slot of the palette is selected by the draws of one interval of
      width 1/n, so the slots share [0, 1) evenly. */
  lemma PaletteBucket(r: real, n: nat, k: nat)
    requires IsDraw(r) && n > 0
    ensures PaletteIndex(r, n) == k <==> k as real / n as real <= r < (k + 1) as real / n as real
  {
    var c := n as real;
    DivLe(k as real, r, c);
    DivGt((k + 1) as real, r, c);
  }

  /** a/c <= r exactly when a <= r*c, for positive c. */
  lemma DivLe(a: real, r: real, c: real)
    requires c > 0.0
    ensures a / c <= r <==> a <= r * c
  {
    var q := a / c;
    assert q * c == a;
    if q <= r { MulMonotone(q, r, c); } else { MulStrict(r, q, c); }
  }

  /** r < a/c exactly when r*c < a, for positive c. */
  lemma DivGt(a: real, r: real, c: real)
    requires c > 0.0
    ensures r < a / c <==> r * c < a
  {
    var q := a / c;
    assert q * c == a;
    if r < q { MulStrict(r, q, c); } else { MulMonotone(q, r, c); }
  }

  lemma MulMonotone(a: real, b: real, c: real)
    requires a <= b && c > 0.0
    ensures a * c <= b * c
  {
  }

  lemma MulStrict(a: real, b: real, c: real)
    requires a < b && c > 0.0
    ensures a * c < b * c
  {
  }

  /** The documented range of every field, and palette membership of the
      colour. */
  predicate InRange(e: EllipseConfig) {
    && e.color in Colors
    && 0.1 <= e.fx < 0.4
    && 0.7 <= e.scale.0 < 1.5
    && 0.7 <= e.scale.1 < 1.5
    && -10.0 <= e.skew < 10.0
    && 0.0 <= e.rotation < 360.0
    && -250.0 <= e.translation.0 < 250.0
    && -250.0 <= e.translation.1 < 250.0
  }

  /** `generateRandomEllipse`, with its eight `Math.random()` results given
      in evaluation order: colour, fx, the two scale factors, skew,
      rotation, the two translation offsets. */
  function GenerateRandomEllipse(ds: seq<real>): (e: EllipseConfig)
    requires |ds| == DrawsPerEllipse && AreDraws(ds)
    ensures InRange(e)
  {
    EllipseConfig(
      Colors[PaletteIndex(ds[0], |Colors|)],
      0.1 + ds[1] * 0.3,
      (0.7 + ds[2] * 0.8, 0.7 + ds[3] * 0.8),
      -10.0 + ds[4] * 20.0,
      ds[5] * 360.0,
      (-250.0 + ds[6] * 500.0, -250.0 + ds[7] * 500.0))
  }

  /** Position of a palette entry. */
  function IndexOf(s: seq<string>, x: string): (i: nat)
    requires x in s
    ensures i < |s| && s[i] == x
    ensures forall j :: 0 <= j < i ==> s[j] != x
  {
    if s[0] == x then 0 else 1 + IndexOf(s[1..], x)
  }

  /** Draws that make the sampler produce `e`. */
  function DrawsFor(e: EllipseConfig): (ds: seq<real>)
    requires InRange(e)
    ensures |ds| == DrawsPerEllipse && AreDraws(ds)
  {
    [ IndexOf(Colors, e.color) as real / |Colors| as real,
      (e.fx - 0.1) / 0.3,
      (e.scale.0 - 0.7) / 0.8,
      (e.scale.1 - 0.7) / 0.8,
      (e.skew + 10.0) / 20.0,
      e.rotation / 360.0,
      (e.translation.0 + 250.0) / 500.0,
      (e.translation.1 + 250.0) / 500.0 ]
  }

  /** The ranges are exact: every descriptor within them, with any palette
      colour, is produced by some draws. */
  lemma GenerateReachesEveryInRange(e: EllipseConfig)
    requires InRange(e)
    ensures GenerateRandomEllipse(DrawsFor(e)) == e
  {
    var ds := DrawsFor(e);
    var k := IndexOf(Colors, e.color);
    assert ds[0] * |Colors| as real == k as real;
    assert PaletteIndex(ds[0], |Colors|) == k;
  }

  /** `Array.from({ length: count }, generateRandomEllipse)`: `count`
      descriptors, the i-th made from draws 8i .. 8i+7. */
  function Sample(ds: seq<real>, count: nat): (es: seq<EllipseConfig>)
    requires |ds| == DrawsPerEllipse * count && AreDraws(ds)
    ensures |es| == count
    ensures forall i :: 0 <= i < count ==> InRange(es[i])
    decreases count
  {
    if count == 0 then []
    else [GenerateRandomEllipse(ds[..DrawsPerEllipse])] + Sample(ds[DrawsPerEllipse..], count - 1)
  }

  /** The i-th sampled descriptor is made from the i-th block of draws. */
  lemma {:induction false} SampleAt(ds: seq<real>, count: nat, i: nat)
    requires |ds| == DrawsPerEllipse * count && AreDraws(ds)
    requires i < count
    ensures AreDraws(ds[DrawsPerEllipse * i .. DrawsPerEllipse * (i + 1)])
    ensures Sample(ds, count)[i] == GenerateRandomEllipse(ds[DrawsPerEllipse * i .. DrawsPerEllipse * (i + 1)])
    decreases i
  {
    if i > 0 {
      var rest := ds[DrawsPerEllipse..];
      SampleAt(rest, count - 1, i - 1);
      assert rest[DrawsPerEllipse * (i - 1) .. DrawsPerEllipse * i]
          == ds[DrawsPerEllipse * i .. DrawsPerEllipse * (i + 1)];
    }
  }
}
