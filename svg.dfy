/** The SVG composer: `generateSVG` without its call to the sampler.

    `Compose` writes the markup exactly as the source's template literals do,
    for any list of descriptors. `Parts` is the same document seen as a list
    of layers (header, one gradient per descriptor, background, one overlay
    rectangle per descriptor, footer); `ComposeFlattensParts` proves that
    writing out those layers gives `Compose`, so the structural facts proved
    about `Parts` are facts about the markup. */
module Svg {
  import opened Ellipse
  import Decimal

  datatype Option<T> = None | Some(value: T)

  /** How the template writes a number (JavaScript's number-to-string
      conversion); deliberately left uninterpreted. */
  type NumFormat = real -> string

  const SvgStart: string := "<svg width=\"600\" height=\"400\" viewBox=\"0 0 600 600\" style=\"width:100%;max-width:600px;height:auto;filter:saturate(125%);-webkit-filter:saturate(125%)\" preserveAspectRatio=\"xMidYMid slice\" xmlns=\"http://www.w3.org/2000/svg\">"
  const DefsStart: string := "<defs>"
  const DefsEnd: string := "</defs>"
  /** The full-canvas base layer; its colour is fixed. */
  const BackgroundRect: string := "<rect x=\"0\" y=\"0\" width=\"100%\" height=\"100%\" fill=\"#5135FF\"/>"
  /** Every overlay rectangle starts like this, up to its fill reference. */
  const RectStart: string := "<rect x=\"0\" y=\"0\" width=\"100%\" height=\"100%\" fill=\""
  const SvgEnd: string := "</svg>"

  /** The id of the gradient of the descriptor at position `i`. */
  function GradId(i: nat): string {
    "grad" + Decimal.NatToDecimal(i)
  }

  /** Positions are told apart by their gradient ids. */
  lemma GradIdInjective(i: nat, j: nat)
    ensures GradId(i) == GradId(j) <==> i == j
  {
    if GradId(i) == GradId(j) {
      assert GradId(i)[4..] == Decimal.NatToDecimal(i);
      assert GradId(j)[4..] == Decimal.NatToDecimal(j);
      Decimal.NatToDecimalInjective(i, j);
    }
  }

  /** One `<radialGradient>`: two stops of the same colour, the second fully
      transparent, focus `fx` from the descriptor and `fy` fixed at 0.5.
      The template's text is written here in pieces split at its line
      breaks. */
  function GradientMarkup(id: nat, fx: real, color: string, num: NumFormat): string {
    GradientOpen(id, fx, num)
      + "\n    " + "<stop offset=\"0%\" stop-color=\"" + color + "\"/>"
      + "\n    " + "<stop offset=\"100%\" stop-color=\"" + color + "\" stop-opacity=\"0\"/>"
      + "\n  " + "</radialGradient>"
  }

  /** The opening tag of a gradient: its id, and its focus (fx, 0.5). */
  function GradientOpen(id: nat, fx: real, num: NumFormat): string {
    "<radialGradient id=\"" + GradId(id) + "\"" + " fx=\"" + num(fx) + "\" fy=\"0.5\">"
  }

  /** One overlay `<rect>`, filled with gradient `ref` and carrying the
      six-step transform. */
  function RectMarkup(ref: nat, scale: (real, real), skew: real, rotation: real, translation: (real, real), num: NumFormat): string {
    RectFill(ref) + "\" transform=\"" + TransformAttr(scale, skew, rotation, translation, num) + "\"/>"
  }

  /** An overlay rectangle up to its fill reference `url(#grad{ref})`. */
  function RectFill(ref: nat): string {
    RectStart + "url(#" + GradId(ref) + ")"
  }

  /** The value of an overlay's `transform` attribute: the template's text,
      written here one transform per parenthesised group. */
  function TransformAttr(scale: (real, real), skew: real, rotation: real, translation: (real, real), num: NumFormat): string {
    "translate(300 300)"
      + " " + ("scale(" + num(scale.0) + " " + num(scale.1) + ")")
      + " " + ("skewX(" + num(skew) + ")")
      + " " + ("rotate(" + num(rotation) + ")")
      + " " + ("translate(" + num(translation.0) + " " + num(translation.1) + ")")
      + " " + "translate(-300 -300)"
  }

  /** `.join('')`. */
  function Concat(ss: seq<string>): string {
    if ss == [] then "" else ss[0] + Concat(ss[1..])
  }

  lemma {:induction false} ConcatAppend(a: seq<string>, b: seq<string>)
    ensures Concat(a + b) == Concat(a) + Concat(b)
  {
    if a != [] {
      assert (a + b)[0] == a[0];
      assert (a + b)[1..] == a[1..] + b;
      ConcatAppend(a[1..], b);
      calc {
        Concat(a + b);
        a[0] + Concat(a[1..] + b);
        a[0] + (Concat(a[1..]) + Concat(b));
        (a[0] + Concat(a[1..])) + Concat(b);
      }
    } else {
      assert a + b == b;
    }
  }

  /** `ellipses.map((ellipse, index) => <radialGradient …>)`. */
  function GradientTexts(es: seq<EllipseConfig>, num: NumFormat): seq<string> {
    seq(|es|, i requires 0 <= i < |es| => GradientMarkup(i, es[i].fx, es[i].color, num))
  }

  /** `ellipses.map((ellipse, index) => <rect …>)`. */
  function RectTexts(es: seq<EllipseConfig>, num: NumFormat): seq<string> {
    seq(|es|, i requires 0 <= i < |es|
      => RectMarkup(i, es[i].scale, es[i].skew, es[i].rotation, es[i].translation, num))
  }

  /** The document `generateSVG` returns for the descriptors `es`. */
  function Compose(es: seq<EllipseConfig>, num: NumFormat): string {
    SvgStart + "\n  " + DefsStart + "\n    " + Concat(GradientTexts(es, num)) + "\n  " + DefsEnd
      + "\n  " + BackgroundRect + "\n  " + Concat(RectTexts(es, num)) + "\n" + SvgEnd
  }

  // ---------------------------------------------------------------------
  // The document as a list of layers.

  datatype Part =
    | Open
    | DefsOpen
    | GradientDef(id: nat, fx: real, color: string)
    | DefsClose
    | Background
    | Overlay(ref: nat, scale: (real, real), skew: real, rotation: real, translation: (real, real))
    | Close

  /** The kinds of layer the structural properties count. */
  datatype Kind = Markup | Gradient | BackgroundLayer | OverlayLayer

  function KindOf(p: Part): Kind {
    match p
    case GradientDef(_, _, _) => Gradient
    case Background => BackgroundLayer
    case Overlay(_, _, _, _, _) => OverlayLayer
    case _ => Markup
  }

  /** The markup of one layer; the whitespace between elements is attached
      to the layer before or after it, exactly as the template places it. */
  function PartText(p: Part, num: NumFormat): string {
    match p
    case Open => SvgStart + "\n  "
    case DefsOpen => DefsStart + "\n    "
    case GradientDef(id, fx, color) => GradientMarkup(id, fx, color, num)
    case DefsClose => "\n  " + DefsEnd + "\n  "
    case Background => BackgroundRect + "\n  "
    case Overlay(ref, scale, skew, rotation, translation) => RectMarkup(ref, scale, skew, rotation, translation, num)
    case Close => "\n" + SvgEnd
  }

  function Texts(ps: seq<Part>, num: NumFormat): seq<string> {
    seq(|ps|, i requires 0 <= i < |ps| => PartText(ps[i], num))
  }

  function Flatten(ps: seq<Part>, num: NumFormat): string {
    Concat(Texts(ps, num))
  }

  function GradientParts(es: seq<EllipseConfig>): seq<Part> {
    seq(|es|, i requires 0 <= i < |es| => GradientDef(i, es[i].fx, es[i].color))
  }

  function OverlayParts(es: seq<EllipseConfig>): seq<Part> {
    seq(|es|, i requires 0 <= i < |es|
      => Overlay(i, es[i].scale, es[i].skew, es[i].rotation, es[i].translation))
  }

  /** The layers of `Compose(es, _)`, in document order. */
  function Parts(es: seq<EllipseConfig>): seq<Part> {
    [Open, DefsOpen] + GradientParts(es) + [DefsClose, Background] + OverlayParts(es) + [Close]
  }

  lemma TextsAppend(a: seq<Part>, b: seq<Part>, num: NumFormat)
    ensures Texts(a + b, num) == Texts(a, num) + Texts(b, num)
  {
  }

  lemma ConcatShort(x: string, y: string)
    ensures Concat([x]) == x
    ensures Concat([x, y]) == x + y
  {
    assert [x][1..] == [];
    assert Concat([x]) == x + Concat([]);
    assert [x, y][1..] == [y];
    assert Concat([y]) == y + Concat([]);
    assert Concat([x, y]) == x + Concat([y]);
  }

  /** Writing out the layers in order gives exactly the composed markup, so
      what is proved about the layers' order, counts and fields holds of the
      markup they are written to. */
  lemma ComposeFlattensParts(es: seq<EllipseConfig>, num: NumFormat)
    ensures Compose(es, num) == Flatten(Parts(es), num)
  {
    var head: seq<Part> := [Open, DefsOpen];
    var mid: seq<Part> := [DefsClose, Background];
    var tail: seq<Part> := [Close];
    var g, o := GradientParts(es), OverlayParts(es);
    TextsAppend(head + g + mid + o, tail, num);
    TextsAppend(head + g + mid, o, num);
    TextsAppend(head + g, mid, num);
    TextsAppend(head, g, num);
    var tHead, tG, tMid, tO, tTail := Texts(head, num), Texts(g, num), Texts(mid, num), Texts(o, num), Texts(tail, num);
    assert tG == GradientTexts(es, num);
    assert tO == RectTexts(es, num);
    assert tHead == [SvgStart + "\n  ", DefsStart + "\n    "];
    assert tMid == ["\n  " + DefsEnd + "\n  ", BackgroundRect + "\n  "];
    assert tTail == ["\n" + SvgEnd];
    ConcatAppend(tHead + tG + tMid + tO, tTail);
    ConcatAppend(tHead + tG + tMid, tO);
    ConcatAppend(tHead + tG, tMid);
    ConcatAppend(tHead, tG);
    ConcatShort(SvgStart + "\n  ", DefsStart + "\n    ");
    ConcatShort("\n  " + DefsEnd + "\n  ", BackgroundRect + "\n  ");
    ConcatShort("\n" + SvgEnd, "");
    var gText, rText := Concat(tG), Concat(tO);
    assert Flatten(Parts(es), num) == Concat(tHead) + gText + Concat(tMid) + rText + Concat(tTail);
    AssocLayout(SvgStart, "\n  ", DefsStart, "\n    ", gText, "\n  ", DefsEnd, "\n  ", BackgroundRect, "\n  ", rText, "\n", SvgEnd);
  }

  lemma AssocLayout(s1: string, s2: string, s3: string, s4: string, g: string, s5: string, s6: string,
                    s7: string, s8: string, s9: string, r: string, s10: string, s11: string)
    ensures s1 + s2 + s3 + s4 + g + s5 + s6 + s7 + s8 + s9 + r + s10 + s11
         == (s1 + s2 + (s3 + s4)) + g + (s5 + s6 + s7 + (s8 + s9)) + r + (s10 + s11)
  {
  }

  // ---------------------------------------------------------------------
  // Selecting the layers of one kind.

  /** The layers of the given kind, in document order. */
  function Select(ps: seq<Part>, kind: Kind): (r: seq<Part>)
    ensures |r| <= |ps|
  {
    if ps == [] then []
    else (if KindOf(ps[0]) == kind then [ps[0]] else []) + Select(ps[1..], kind)
  }

  lemma {:induction false} SelectAppend(a: seq<Part>, b: seq<Part>, kind: Kind)
    ensures Select(a + b, kind) == Select(a, kind) + Select(b, kind)
  {
    if a != [] {
      assert (a + b)[0] == a[0];
      assert (a + b)[1..] == a[1..] + b;
      SelectAppend(a[1..], b, kind);
      var h := if KindOf(a[0]) == kind then [a[0]] else [];
      calc {
        Select(a + b, kind);
        h + Select(a[1..] + b, kind);
        h + (Select(a[1..], kind) + Select(b, kind));
        (h + Select(a[1..], kind)) + Select(b, kind);
      }
    } else {
      assert a + b == b;
    }
  }

  lemma {:induction false} SelectAll(ps: seq<Part>, kind: Kind)
    requires forall i :: 0 <= i < |ps| ==> KindOf(ps[i]) == kind
    ensures Select(ps, kind) == ps
  {
    if ps != [] {
      SelectAll(ps[1..], kind);
    }
  }

  lemma {:induction false} SelectNone(ps: seq<Part>, kind: Kind)
    requires forall i :: 0 <= i < |ps| ==> KindOf(ps[i]) != kind
    ensures Select(ps, kind) == []
  {
    if ps != [] {
      SelectNone(ps[1..], kind);
    }
  }

  /** Selecting from the whole document selects from each of its sections. */
  lemma SelectSections(es: seq<EllipseConfig>, kind: Kind)
    ensures Select(Parts(es), kind)
         == Select([Open, DefsOpen], kind) + Select(GradientParts(es), kind)
          + Select([DefsClose, Background], kind) + Select(OverlayParts(es), kind) + Select([Close], kind)
  {
    var head: seq<Part> := [Open, DefsOpen];
    var mid: seq<Part> := [DefsClose, Background];
    var tail: seq<Part> := [Close];
    var g, o := GradientParts(es), OverlayParts(es);
    SelectAppend(head + g + mid + o, tail, kind);
    SelectAppend(head + g + mid, o, kind);
    SelectAppend(head + g, mid, kind);
    SelectAppend(head, g, kind);
  }

  /** The structural layers around the descriptors' own layers hold no
      layer of a counted kind but the background. */
  lemma SelectFixed(kind: Kind)
    requires kind != Markup
    ensures Select([Open, DefsOpen], kind) == []
    ensures Select([DefsClose, Background], kind) == if kind == BackgroundLayer then [Background] else []
    ensures Select([Close], kind) == []
  {
    assert [Open, DefsOpen][1..] == [DefsOpen];
    assert [DefsClose, Background][1..] == [Background];
  }

  lemma SelectGradientParts(es: seq<EllipseConfig>, kind: Kind)
    ensures Select(GradientParts(es), kind) == if kind == Gradient then GradientParts(es) else []
  {
    if kind == Gradient {
      SelectAll(GradientParts(es), kind);
    } else {
      SelectNone(GradientParts(es), kind);
    }
  }

  lemma SelectOverlayParts(es: seq<EllipseConfig>, kind: Kind)
    ensures Select(OverlayParts(es), kind) == if kind == OverlayLayer then OverlayParts(es) else []
  {
    if kind == OverlayLayer {
      SelectAll(OverlayParts(es), kind);
    } else {
      SelectNone(OverlayParts(es), kind);
    }
  }

  /** The gradients of the document are exactly one per descriptor, in
      descriptor order, the i-th with id i and the i-th descriptor's focus
      and colour. */
  lemma GradientsOfParts(es: seq<EllipseConfig>)
    ensures Select(Parts(es), Gradient) == GradientParts(es)
  {
    SelectSections(es, Gradient);
    SelectFixed(Gradient);
    SelectGradientParts(es, Gradient);
    SelectOverlayParts(es, Gradient);
    assert [] + GradientParts(es) + [] + [] + [] == GradientParts(es);
  }

  /** The overlay rectangles are exactly one per descriptor, in descriptor
      order, the i-th referencing gradient i and carrying the i-th
      descriptor's transform parameters. */
  lemma OverlaysOfParts(es: seq<EllipseConfig>)
    ensures Select(Parts(es), OverlayLayer) == OverlayParts(es)
  {
    SelectSections(es, OverlayLayer);
    SelectFixed(OverlayLayer);
    SelectGradientParts(es, OverlayLayer);
    SelectOverlayParts(es, OverlayLayer);
    assert [] + [] + [] + OverlayParts(es) + [] == OverlayParts(es);
  }

  /** There is exactly one background rectangle, whatever the descriptors. */
  lemma BackgroundOfParts(es: seq<EllipseConfig>)
    ensures Select(Parts(es), BackgroundLayer) == [Background]
  {
    SelectSections(es, BackgroundLayer);
    SelectFixed(BackgroundLayer);
    SelectGradientParts(es, BackgroundLayer);
    SelectOverlayParts(es, BackgroundLayer);
    assert [] + [] + [Background] + [] + [] == [Background];
  }

  /** Counts and linkage: as many gradients as overlay rectangles as
      descriptors, one background; the i-th overlay fills with the i-th
      gradient, whose id no other gradient shares. */
  lemma PartsLinkage(es: seq<EllipseConfig>)
    ensures |Select(Parts(es), Gradient)| == |es|
    ensures |Select(Parts(es), OverlayLayer)| == |es|
    ensures |Select(Parts(es), BackgroundLayer)| == 1
    ensures forall k :: 0 <= k < |es| ==>
      && Select(Parts(es), OverlayLayer)[k].Overlay?
      && Select(Parts(es), Gradient)[k].GradientDef?
      && Select(Parts(es), OverlayLayer)[k].ref == Select(Parts(es), Gradient)[k].id == k
    ensures forall j, k :: 0 <= j < |es| && 0 <= k < |es| && j != k ==>
      && Select(Parts(es), Gradient)[j].GradientDef?
      && Select(Parts(es), Gradient)[k].GradientDef?
      && GradId(Select(Parts(es), Gradient)[j].id) != GradId(Select(Parts(es), Gradient)[k].id)
  {
    GradientsOfParts(es);
    OverlaysOfParts(es);
    BackgroundOfParts(es);
    forall j, k | 0 <= j < |es| && 0 <= k < |es| && j != k
      ensures GradId(j) != GradId(k)
    {
      GradIdInjective(j, k);
    }
  }

  /** Descriptors within their ranges give layers within their ranges:
      every gradient's colour from the palette and focus in [0.1, 0.4),
      every overlay's scale, shear, rotation and offset in theirs. */
  lemma PartsInRange(es: seq<EllipseConfig>)
    requires forall i :: 0 <= i < |es| ==> InRange(es[i])
    ensures forall k :: 0 <= k < |Select(Parts(es), Gradient)| ==>
      && Select(Parts(es), Gradient)[k].GradientDef?
      && Select(Parts(es), Gradient)[k].color in Colors
      && 0.1 <= Select(Parts(es), Gradient)[k].fx < 0.4
    ensures forall k :: 0 <= k < |Select(Parts(es), OverlayLayer)| ==>
      && Select(Parts(es), OverlayLayer)[k].Overlay?
      && 0.7 <= Select(Parts(es), OverlayLayer)[k].scale.0 < 1.5
      && 0.7 <= Select(Parts(es), OverlayLayer)[k].scale.1 < 1.5
      && -10.0 <= Select(Parts(es), OverlayLayer)[k].skew < 10.0
      && 0.0 <= Select(Parts(es), OverlayLayer)[k].rotation < 360.0
      && -250.0 <= Select(Parts(es), OverlayLayer)[k].translation.0 < 250.0
      && -250.0 <= Select(Parts(es), OverlayLayer)[k].translation.1 < 250.0
  {
    GradientsOfParts(es);
    OverlaysOfParts(es);
  }

  /** In the markup itself, the gradient written for position k is
      introduced by `id="grad{k}"` and the rectangle written for position k
      opens with `fill="url(#grad{k})"`. */
  lemma MarkupLinkage(k: nat, e: EllipseConfig, num: NumFormat)
    ensures ("<radialGradient id=\"" + GradId(k) + "\"") <= GradientMarkup(k, e.fx, e.color, num)
    ensures RectFill(k) <= RectMarkup(k, e.scale, e.skew, e.rotation, e.translation, num)
  {
    var id := "<radialGradient id=\"" + GradId(k) + "\"";
    assert GradientOpen(k, e.fx, num) == id + (" fx=\"" + num(e.fx) + "\" fy=\"0.5\">");
    PrefixOfAppend(id, " fx=\"" + num(e.fx) + "\" fy=\"0.5\">",
      GradientMarkup(k, e.fx, e.color, num)[|GradientOpen(k, e.fx, num)|..]);
    PrefixOfAppend(RectFill(k), "",
      RectMarkup(k, e.scale, e.skew, e.rotation, e.translation, num)[|RectFill(k)|..]);
  }

  lemma PrefixOfAppend(a: string, b: string, c: string)
    ensures a <= a + b + c
  {
  }

  /** Layer order: header, `<defs>`, the gradients, `</defs>`, the
      background, the overlays, the footer. */
  lemma PartsLayout(es: seq<EllipseConfig>)
    ensures |Parts(es)| == 2 * |es| + 5
    ensures Parts(es)[0] == Open && Parts(es)[1] == DefsOpen
    ensures forall k :: 0 <= k < |es| ==> Parts(es)[2 + k] == GradientDef(k, es[k].fx, es[k].color)
    ensures Parts(es)[2 + |es|] == DefsClose && Parts(es)[3 + |es|] == Background
    ensures forall k :: 0 <= k < |es| ==>
      Parts(es)[4 + |es| + k] == Overlay(k, es[k].scale, es[k].skew, es[k].rotation, es[k].translation)
    ensures Parts(es)[4 + 2 * |es|] == Close
  {
  }

  /** With no descriptors, the document holds only the background layer and
      does not depend on how numbers are written. */
  lemma ComposeEmpty(num1: NumFormat, num2: NumFormat)
    ensures Parts([]) == [Open, DefsOpen, DefsClose, Background, Close]
    ensures Compose([], num1) == Compose([], num2)
  {
    assert GradientTexts([], num1) == GradientTexts([], num2) == [];
    assert RectTexts([], num1) == RectTexts([], num2) == [];
  }

  // ---------------------------------------------------------------------
  // Resolving fill references, as a renderer does.

  /** The first gradient in `gs` with the given id. */
  function FindGradient(gs: seq<Part>, id: nat): (r: Option<Part>)
    ensures r.Some? ==> r.value.GradientDef? && r.value.id == id && r.value in gs
    ensures r.None? ==> forall p :: p in gs ==> !(p.GradientDef? && p.id == id)
  {
    if gs == [] then None
    else if gs[0].GradientDef? && gs[0].id == id then Some(gs[0])
    else FindGradient(gs[1..], id)
  }

  lemma {:induction false} FindGradientAt(gs: seq<Part>, id: nat, k: nat)
    requires k < |gs| && gs[k].GradientDef? && gs[k].id == id
    requires forall j :: 0 <= j < k ==> !(gs[j].GradientDef? && gs[j].id == id)
    ensures FindGradient(gs, id) == Some(gs[k])
    decreases k
  {
    if k > 0 {
      FindGradientAt(gs[1..], id, k - 1);
    }
  }

  /** Pairs each overlay with the gradient its fill names and rebuilds the
      descriptor they were written from. */
  function Resolve(os: seq<Part>, gs: seq<Part>): (r: Option<seq<EllipseConfig>>)
    ensures r.Some? ==> |r.value| == |os|
  {
    if os == [] then Some([])
    else if !os[0].Overlay? then None
    else
      match FindGradient(gs, os[0].ref)
      case None => None
      case Some(g) =>
        match Resolve(os[1..], gs)
        case None => None
        case Some(rest) =>
          Some([EllipseConfig(g.color, g.fx, os[0].scale, os[0].skew, os[0].rotation, os[0].translation)] + rest)
  }

  /** The descriptors a layer list was built from, read back from its
      layers through the fill references. */
  function Recover(ps: seq<Part>): Option<seq<EllipseConfig>> {
    Resolve(Select(ps, OverlayLayer), Select(ps, Gradient))
  }

  lemma {:induction false} ResolveFrom(es: seq<EllipseConfig>, k: nat)
    requires k <= |es|
    ensures Resolve(OverlayParts(es)[k..], GradientParts(es)) == Some(es[k..])
    decreases |es| - k
  {
    if k < |es| {
      var os := OverlayParts(es)[k..];
      assert os[0] == OverlayParts(es)[k];
      assert os[1..] == OverlayParts(es)[k + 1..];
      FindGradientAt(GradientParts(es), k, k);
      ResolveFrom(es, k + 1);
      assert es[k..] == [es[k]] + es[k + 1..];
    }
  }

  /** The layer list loses nothing: every descriptor, in order, is
      recovered from the layers by following each overlay's fill reference
      to its gradient. (From the markup text alone this holds only for a
      number format that tells distinct numbers apart.) */
  lemma RecoverParts(es: seq<EllipseConfig>)
    ensures Recover(Parts(es)) == Some(es)
  {
    GradientsOfParts(es);
    OverlaysOfParts(es);
    ResolveFrom(es, 0);
    assert OverlayParts(es)[0..] == OverlayParts(es);
    assert es[0..] == es;
  }

  // ---------------------------------------------------------------------
  // The colour stops of a gradient.

  datatype Stop = Stop(offset: string, color: string, transparent: bool)

  /** A gradient's stops: the descriptor's colour, opaque at the centre and
      fully transparent at the rim. */
  function GradientStops(color: string): seq<Stop> {
    [Stop("0%", color, false), Stop("100%", color, true)]
  }

  function StopText(st: Stop): string {
    "<stop offset=\"" + st.offset + "\" stop-color=\"" + st.color + "\""
      + (if st.transparent then " stop-opacity=\"0\"" else "") + "/>"
  }

  lemma StopLiterals()
    ensures "<stop offset=\"0%\" stop-color=\"" == "<stop offset=\"" + "0%" + "\" stop-color=\""
    ensures "<stop offset=\"100%\" stop-color=\"" == "<stop offset=\"" + "100%" + "\" stop-color=\""
    ensures "\"/>" == "\"" + "" + "/>"
    ensures "\" stop-opacity=\"0\"/>" == "\"" + " stop-opacity=\"0\"" + "/>"
  {
  }

  /** The i-th gradient has id `grad{i}`, focus (fx, 0.5) and exactly the
      two stops `GradientStops(color)`, in that order. */
  lemma GradientHasStops(id: nat, fx: real, color: string, num: NumFormat)
    ensures |GradientStops(color)| == 2
    ensures GradientMarkup(id, fx, color, num)
         == GradientOpen(id, fx, num)
            + "\n    " + StopText(GradientStops(color)[0])
            + "\n    " + StopText(GradientStops(color)[1])
            + "\n  " + "</radialGradient>"
  {
    StopLiterals();
    assert StopText(GradientStops(color)[0]) == "<stop offset=\"0%\" stop-color=\"" + color + "\"/>" by {
      AssocStop("<stop offset=\"", "0%", "\" stop-color=\"", color, "\"", "", "/>");
    }
    assert StopText(GradientStops(color)[1])
        == "<stop offset=\"100%\" stop-color=\"" + color + "\" stop-opacity=\"0\"/>" by {
      AssocStop("<stop offset=\"", "100%", "\" stop-color=\"", color, "\"", " stop-opacity=\"0\"", "/>");
    }
  }

  lemma AssocStop(a: string, off: string, b: string, c: string, q: string, o: string, z: string)
    ensures a + off + b + c + q + o + z == (a + off + b) + c + (q + o + z)
  {
  }

  // ---------------------------------------------------------------------
  // The transform attribute.

  datatype Transform =
    | Translate(x: real, y: real)
    | Scale(x: real, y: real)
    | SkewX(angle: real)
    | Rotate(angle: real)

  /** The transform chain of an overlay, in the order SVG applies it from
      the left: to the canvas centre, scale, shear, rotate, offset, back. */
  function TransformChain(scale: (real, real), skew: real, rotation: real, translation: (real, real)): seq<Transform> {
    [ Translate(300.0, 300.0), Scale(scale.0, scale.1), SkewX(skew), Rotate(rotation),
      Translate(translation.0, translation.1), Translate(-300.0, -300.0) ]
  }

  function TransformText(t: Transform, num: NumFormat): string {
    match t
    case Translate(x, y) => "translate(" + num(x) + " " + num(y) + ")"
    case Scale(x, y) => "scale(" + num(x) + " " + num(y) + ")"
    case SkewX(a) => "skewX(" + num(a) + ")"
    case Rotate(a) => "rotate(" + num(a) + ")"
  }

  /** A transform list, space separated. */
  function ChainText(ts: seq<Transform>, num: NumFormat): string {
    if ts == [] then ""
    else if |ts| == 1 then TransformText(ts[0], num)
    else TransformText(ts[0], num) + " " + ChainText(ts[1..], num)
  }

  lemma ChainTextCons(ts: seq<Transform>, k: nat, num: NumFormat)
    requires k + 1 < |ts|
    ensures ChainText(ts[k..], num) == TransformText(ts[k], num) + " " + ChainText(ts[k + 1..], num)
  {
    assert ts[k..][0] == ts[k];
    assert ts[k..][1..] == ts[k + 1..];
  }

  /** The overlay's transform attribute is exactly the six-step chain, in
      that order, when the number format writes the canvas-centre offsets
      as the template's literal `300` and `-300`. */
  lemma TransformAttrIsChain(scale: (real, real), skew: real, rotation: real, translation: (real, real), num: NumFormat)
    requires num(300.0) == "300" && num(-300.0) == "-300"
    ensures TransformAttr(scale, skew, rotation, translation, num)
         == ChainText(TransformChain(scale, skew, rotation, translation), num)
  {
    var ts := TransformChain(scale, skew, rotation, translation);
    var t0, t1, t2, t3, t4, t5 := TransformText(ts[0], num), TransformText(ts[1], num), TransformText(ts[2], num),
      TransformText(ts[3], num), TransformText(ts[4], num), TransformText(ts[5], num);
    assert t0 == "translate(300 300)";
    assert t5 == "translate(-300 -300)";
    assert ChainText(ts[5..], num) == t5 by { assert ts[5..] == [ts[5]]; }
    ChainTextCons(ts, 4, num);
    ChainTextCons(ts, 3, num);
    ChainTextCons(ts, 2, num);
    ChainTextCons(ts, 1, num);
    ChainTextCons(ts, 0, num);
    assert ts[0..] == ts;
    AssocChain(t0, t1, t2, t3, t4, t5, " ");
  }

  lemma AssocChain(t0: string, t1: string, t2: string, t3: string, t4: string, t5: string, sp: string)
    ensures t0 + sp + t1 + sp + t2 + sp + t3 + sp + t4 + sp + t5
         == t0 + sp + (t1 + sp + (t2 + sp + (t3 + sp + (t4 + sp + t5))))
  {
  }

  /** An overlay layer is written as its fill reference followed by its
      six-step transform chain. */
  lemma OverlayHasChain(ref: nat, scale: (real, real), skew: real, rotation: real, translation: (real, real), num: NumFormat)
    requires num(300.0) == "300" && num(-300.0) == "-300"
    ensures PartText(Overlay(ref, scale, skew, rotation, translation), num)
         == RectFill(ref) + "\" transform=\"" + ChainText(TransformChain(scale, skew, rotation, translation), num) + "\"/>"
  {
    TransformAttrIsChain(scale, skew, rotation, translation, num);
  }

  lemma PartsOfTwo(e1: EllipseConfig, e2: EllipseConfig)
    ensures GradientParts([e1, e2]) == [GradientDef(0, e1.fx, e1.color), GradientDef(1, e2.fx, e2.color)]
    ensures OverlayParts([e1, e2])
         == [Overlay(0, e1.scale, e1.skew, e1.rotation, e1.translation), Overlay(1, e2.scale, e2.skew, e2.rotation, e2.translation)]
  {
  }

  /** The two descriptors of the example below. */
  function ScenarioEllipses(c1: string, c2: string): seq<EllipseConfig> {
    [ EllipseConfig(c1, 0.2, (1.0, 1.0), 0.0, 0.0, (0.0, 0.0)),
      EllipseConfig(c2, 0.3, (1.2, 0.9), 5.0, 45.0, (10.0, -10.0)) ]
  }

  /** The two-descriptor example: gradients 0 and 1 with colours c1 and c2,
      overlays carrying the descriptors' parameters, and the second overlay
      written with the chain that scales by (1.2, 0.9), shears by 5 and
      rotates by 45. */
  lemma TwoEllipseScenario(c1: string, c2: string, num: NumFormat)
    requires num(300.0) == "300" && num(-300.0) == "-300"
    ensures Select(Parts(ScenarioEllipses(c1, c2)), Gradient) == [GradientDef(0, 0.2, c1), GradientDef(1, 0.3, c2)]
    ensures Select(Parts(ScenarioEllipses(c1, c2)), OverlayLayer)
         == [Overlay(0, (1.0, 1.0), 0.0, 0.0, (0.0, 0.0)), Overlay(1, (1.2, 0.9), 5.0, 45.0, (10.0, -10.0))]
    ensures PartText(Select(Parts(ScenarioEllipses(c1, c2)), OverlayLayer)[1], num)
         == RectFill(1) + "\" transform=\"" + ChainText(TransformChain((1.2, 0.9), 5.0, 45.0, (10.0, -10.0)), num) + "\"/>"
  {
    var es := ScenarioEllipses(c1, c2);
    GradientsOfParts(es);
    OverlaysOfParts(es);
    PartsOfTwo(es[0], es[1]);
    OverlayHasChain(1, (1.2, 0.9), 5.0, 45.0, (10.0, -10.0), num);
  }
}
