# Gradient generator: the ellipse sampler and the SVG composer

This project models the generation pipeline of the gradient generator's
`src/EllipseGenerator.tsx`. The pipeline has two parts:

- **The sampler.** `generateRandomEllipse` turns uniform draws into one
  ellipse descriptor. The descriptor holds:
  - a palette colour;
  - a gradient focus `fx`;
  - two scale factors;
  - a shear angle;
  - a rotation angle;
  - a translation.
- **The composer.** `generateSVG` samples twelve descriptors. It writes one
  `<radialGradient>` per descriptor inside `<defs>`, then a full-canvas
  background rectangle, then one overlay rectangle per descriptor. Each
  overlay is filled with its descriptor's gradient and carries a six-step
  transform. The whole document is wrapped in a fixed `<svg>` header and
  footer.

The model is pure, like the source. It has four modules:

- **`Decimal`** renders an array index as decimal text, the way `${index}`
  does, and parses that text back.
- **`Ellipse`** holds:
  - the descriptor, `EllipseConfig`;
  - the palette;
  - the sampler, `GenerateRandomEllipse`, over eight injected draws in
    [0, 1). The draws come in JavaScript's evaluation order: colour, fx,
    scale x, scale y, skew, rotation, translation x, translation y;
  - `Sample`, which is `Array.from({ length: n }, generateRandomEllipse)`.
- **`Svg`** holds:
  - `Compose`, the exact template text for any list of descriptors;
  - `Parts`, the same document as a list of layers;
  - `ComposeFlattensParts`, which proves that writing the layers out gives
    `Compose`. Counts, positional linkage, distinct ids and layer order are
    stated on `Parts`. The stops are stated on `GradientMarkup`, and the
    transform chain on `TransformAttr`;
  - `Recover`, which inverts `Parts`. It follows each overlay's fill
    reference to its gradient and rebuilds the descriptors from the layer
    list. The descriptors can be read back from the markup text only when
    the number format tells distinct numbers apart, and the model does not
    assume that.
- **`Generator`** is `generateSVG` itself: twelve sampled descriptors,
  composed.

Numbers are written into the markup by a function parameter
`num: real -> string`, JavaScript's number-to-string conversion. It is left
uninterpreted, so every property except `TransformAttrIsChain` (and the
lemmas built on it) holds for any number formatting.

## Model

| member | source | states |
|---|---|---|
| Decimal.NatToDecimal | src/EllipseGenerator.tsx:34 | The text `${index}` gives is a non-empty run of decimal digits. It has no leading zero unless the index is 0, and it is a single digit exactly when the index is below 10. |
| Decimal.DecimalRoundTrip | src/EllipseGenerator.tsx:34 | Reading the rendered digits back as a number gives the index that was rendered. |
| Decimal.NatToDecimalInjective | src/EllipseGenerator.tsx:34 | Two indices render to the same text if and only if they are equal. |
| Ellipse.PaletteIndex | src/EllipseGenerator.tsx:18 | `Math.floor(r * colors.length)` is a valid palette index for every draw in [0, 1). |
| Ellipse.PaletteBucket | src/EllipseGenerator.tsx:18 | Slot k is chosen if and only if the draw lies in [k/n, (k+1)/n). The slots split [0, 1) into equal intervals. |
| Ellipse.GenerateRandomEllipse | src/EllipseGenerator.tsx:16-28 | For any eight draws, the colour is in the palette, fx is in [0.1, 0.4), both scale factors are in [0.7, 1.5), skew is in [-10, 10), rotation is in [0, 360), and both translation components are in [-250, 250). |
| Ellipse.DrawsFor | src/EllipseGenerator.tsx:16-28 | For every descriptor within those ranges, this gives eight valid draws in [0, 1). |
| Ellipse.GenerateReachesEveryInRange | src/EllipseGenerator.tsx:16-28 | The ranges are exact: the sampler maps the draws from `DrawsFor(e)` back to `e`, for every descriptor `e` within the ranges. |
| Ellipse.Sample | src/EllipseGenerator.tsx:31 | `Array.from({ length: n }, generateRandomEllipse)` gives exactly n descriptors, each within the ranges. |
| Ellipse.SampleAt | src/EllipseGenerator.tsx:31 | The i-th descriptor is the sampler applied to the i-th block of eight draws. |
| Svg.GradIdInjective | src/EllipseGenerator.tsx:34 | Two positions get the same id `grad{i}` if and only if they are equal. |
| Svg.Compose | src/EllipseGenerator.tsx:33-50 | The document `generateSVG` returns for a given descriptor list and number format, written as the source's template literals with their whitespace. It has no contract of its own; `ComposeFlattensParts` ties it to the layer list. |
| Svg.GradientTexts | src/EllipseGenerator.tsx:33-37 | The i-th text is the gradient markup for position i and the i-th descriptor. It has no contract of its own; `ComposeFlattensParts` and `GradientsOfParts` carry it. |
| Svg.RectTexts | src/EllipseGenerator.tsx:40-41 | The i-th text is the overlay markup for position i and the i-th descriptor. It has no contract of its own; `ComposeFlattensParts` and `OverlaysOfParts` carry it. |
| Svg.GradientOpen | src/EllipseGenerator.tsx:34 | The opening `<radialGradient>` tag with id `grad{i}`, the descriptor's `fx` and `fy="0.5"`. It has no contract of its own; `GradientHasStops` and `MarkupLinkage` carry it. |
| Svg.RectFill | src/EllipseGenerator.tsx:41 | An overlay `<rect>` up to its fill reference `url(#grad{i})`. It has no contract of its own; `MarkupLinkage` and `OverlayHasChain` carry it. |
| Svg.GradientMarkup | src/EllipseGenerator.tsx:34-37 | The text of one `<radialGradient>`. It has no contract of its own; `GradientHasStops` and `MarkupLinkage` state its stops, its `fy` and its id. |
| Svg.RectMarkup | src/EllipseGenerator.tsx:41 | The text of one overlay `<rect>`. It has no contract of its own; `MarkupLinkage` states its fill reference and `OverlayHasChain` its transform. |
| Svg.TransformAttr | src/EllipseGenerator.tsx:41 | The value of an overlay's `transform` attribute. It has no contract of its own; `TransformAttrIsChain` states its six steps. |
| Svg.Concat | src/EllipseGenerator.tsx:38-42 | `.join('')` over the mapped texts. It has no contract of its own; `ConcatAppend` states that joining distributes over concatenation of the lists. |
| Svg.ConcatAppend | src/EllipseGenerator.tsx:38-42 | Joining the concatenation of two lists of texts gives the join of the first followed by the join of the second. |
| Svg.ComposeFlattensParts | src/EllipseGenerator.tsx:30-51 | The markup is the layer list written out in order. So the order, number and fields of the layers are those of the layers written into the markup, with numbers appearing as their `num` rendering. |
| Svg.GradientsOfParts | src/EllipseGenerator.tsx:33-38 | The gradients of the document are one per descriptor, in descriptor order. The i-th has id i and the i-th descriptor's fx and colour. |
| Svg.OverlaysOfParts | src/EllipseGenerator.tsx:40-42 | The overlay rectangles are one per descriptor, in descriptor order. The i-th fills with gradient i and carries the i-th descriptor's scale, skew, rotation and translation. |
| Svg.BackgroundOfParts | src/EllipseGenerator.tsx:48 | The document has exactly one background rectangle, whatever the descriptors. |
| Svg.PartsLinkage | src/EllipseGenerator.tsx:33-42 | There are as many gradients and as many overlays as descriptors, and one background. The k-th overlay references the k-th gradient, whose id is k. The gradient ids are pairwise distinct. |
| Svg.PartsInRange | src/EllipseGenerator.tsx:33-42 | For descriptors within their ranges, every gradient's colour is from the palette and its fx is in [0.1, 0.4). Every overlay's scale, skew, rotation and translation lie in their ranges. |
| Svg.MarkupLinkage | src/EllipseGenerator.tsx:34-41 | In the text itself, the gradient written for position k begins `<radialGradient id="grad{k}"`. The rectangle written for position k begins with the full-canvas attributes followed by `fill="url(#grad{k})`. |
| Svg.PartsLayout | src/EllipseGenerator.tsx:44-50 | The layer order is header, `<defs>`, the n gradients, `</defs>`, the background, the n overlays, then `</svg>`. That is 2n + 5 layers. |
| Svg.ComposeEmpty | src/EllipseGenerator.tsx:44-50 | With no descriptors, the document is only the wrapper and the background, and it does not depend on the number format. |
| Svg.FindGradient | src/EllipseGenerator.tsx:41 | Looking up a fill reference returns a gradient with that id from the list. If it returns none, no gradient in the list has that id. |
| Svg.RecoverParts | src/EllipseGenerator.tsx:30-51 | Following each overlay's fill reference to its gradient in the layer list gives back every descriptor, in order, that the layers were built from. |
| Svg.GradientHasStops | src/EllipseGenerator.tsx:34-37 | Each gradient is its opening tag with fy fixed at 0.5, then exactly two stops of the descriptor's colour: opaque at 0% and `stop-opacity="0"` at 100%. |
| Svg.TransformAttrIsChain | src/EllipseGenerator.tsx:41 | Each overlay's transform is exactly the chain translate(300 300), scale, skewX, rotate, translate(tx ty), translate(-300 -300), in that order and space separated. |
| Svg.OverlayHasChain | src/EllipseGenerator.tsx:41 | When the number format writes 300 and -300 as the template does, each overlay layer is written as its `fill="url(#grad{k})` reference followed by its six-step transform chain. |
| Svg.TwoEllipseScenario | src/EllipseGenerator.tsx:33-42 | For two concrete descriptors, the gradients are grad0 and grad1 with their colours, in order. The two overlays carry the descriptors' parameters. The second overlay's text is its fill reference followed by the chain that scales by (1.2, 0.9), shears by 5 and rotates by 45. |
| Generator.Ellipses | src/EllipseGenerator.tsx:31 | One generation samples exactly 12 descriptors, each within the ranges. |
| Generator.GenerateSvg | src/EllipseGenerator.tsx:30-51 | The generated document is the layer list of the 12 sampled descriptors, written out. |
| Generator.GenerateSvgStructure | src/EllipseGenerator.tsx:30-51 | Every generated document has 12 gradients, 12 overlays and one background. The k-th overlay references gradient k. Every field is within its range. The sampled descriptors can be recovered from its layer list. |

## Left out

- The React component, its state and its JSX layout (`src/EllipseGenerator.tsx:53-59`, `102-129`): this is user-interface glue with no logic of its own.
- The SVG download (`src/EllipseGenerator.tsx:61-71`): Blob, object URL and anchor click are browser I/O, and the file name is built from the clock.
- The PNG export (`src/EllipseGenerator.tsx:73-100`): canvas rasterisation through asynchronous image and blob callbacks is a foreign call.
- `Math.random` is not modelled. Its results are an explicit input, each a real in [0, 1). The generator and the uniformity of its distribution are not modelled.
- Numbers are exact reals, not IEEE-754 doubles. In double arithmetic, a bound such as `0.7 + 0.8 * r < 1.5` can round up to equality when `r` is the largest double below 1. The range contracts do not capture that.
- JavaScript's number-to-string conversion is an uninterpreted parameter, so the model does not fix the digits written for fx, scale, skew, rotation or translation.
- Svg.TransformAttrIsChain: this relates the template to the chain only for number formats that write 300 and -300 as the template's literal `300` and `-300`. The template writes those two offsets as fixed text, not through the number format.
- What the transform chain does geometrically, such as matrices or trigonometry, is not modelled. Only its text and its order are.
- The background colour is not a parameter, because the code fixes it at `#5135FF` (`src/EllipseGenerator.tsx:48`).
- There is no error path, because the palette is a non-empty constant (`src/EllipseGenerator.tsx:14`) and the descriptor count is always 12 (`src/EllipseGenerator.tsx:31`).
- Recovering the descriptors from the markup text alone is not proved. `Recover` inverts the layer list, and the text determines the layers only when the number format is injective. For example, a format that writes every number as `0` gives the same text for descriptors that differ only in `fx`.
