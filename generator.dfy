/** `generateSVG` as called by the page: twelve sampled descriptors,
    composed into one document. */
module Generator {
  import opened Ellipse
  import opened Svg

  /** `Array.from({ length: 12 }, generateRandomEllipse)`. */
  const EllipseCount: nat := 12

  /** The twelve descriptors one generation samples. */
  function Ellipses(ds: seq<real>): (es: seq<EllipseConfig>)
    requires |ds| == DrawsPerEllipse * EllipseCount && AreDraws(ds)
    ensures |es| == EllipseCount
    ensures forall i :: 0 <= i < |es| ==> InRange(es[i])
  {
    Sample(ds, EllipseCount)
  }

  /** `generateSVG()`: the document for the twelve descriptors drawn from
      `ds`, written out layer by layer. */
  function GenerateSvg(ds: seq<real>, num: NumFormat): (svg: string)
    requires |ds| == DrawsPerEllipse * EllipseCount && AreDraws(ds)
    ensures svg == Flatten(Parts(Ellipses(ds)), num)
  {
    ComposeFlattensParts(Ellipses(ds), num);
    Compose(Ellipses(ds), num)
  }

  /** Every generated document has twelve gradients and twelve overlays,
      linked by position, one background, every gradient's colour from the
      palette and focus in [0.1, 0.4), every overlay's parameters within
      their ranges, and the sampled descriptors can be read back from its layers. */
  lemma GenerateSvgStructure(ds: seq<real>)
    requires |ds| == DrawsPerEllipse * EllipseCount && AreDraws(ds)
    ensures var ps := Parts(Ellipses(ds));
      && |Select(ps, Gradient)| == EllipseCount
      && |Select(ps, OverlayLayer)| == EllipseCount
      && |Select(ps, BackgroundLayer)| == 1
      && (forall k :: 0 <= k < EllipseCount ==>
            && Select(ps, Gradient)[k].GradientDef?
            && Select(ps, OverlayLayer)[k].Overlay?
            && Select(ps, OverlayLayer)[k].ref == Select(ps, Gradient)[k].id == k)
      && (forall k :: 0 <= k < EllipseCount ==>
            && Select(ps, Gradient)[k].GradientDef?
            && Select(ps, Gradient)[k].color in Colors
            && 0.1 <= Select(ps, Gradient)[k].fx < 0.4)
      && (forall k :: 0 <= k < EllipseCount ==>
            && Select(ps, OverlayLayer)[k].Overlay?
            && 0.7 <= Select(ps, OverlayLayer)[k].scale.0 < 1.5
            && 0.7 <= Select(ps, OverlayLayer)[k].scale.1 < 1.5
            && -10.0 <= Select(ps, OverlayLayer)[k].skew < 10.0
            && 0.0 <= Select(ps, OverlayLayer)[k].rotation < 360.0
            && -250.0 <= Select(ps, OverlayLayer)[k].translation.0 < 250.0
            && -250.0 <= Select(ps, OverlayLayer)[k].translation.1 < 250.0)
      && Recover(ps) == Some(Ellipses(ds))
  {
    var es := Ellipses(ds);
    PartsLinkage(es);
    PartsInRange(es);
    RecoverParts(es);
  }
}
