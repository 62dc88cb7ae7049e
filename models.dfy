/**
 * The typed records of a footprint: what the codecs produce and consume, and the
 * field constraints the record declarations impose.
 */
module Models {
  import opened Wrappers
  import opened Numbers
  import opened Vocabulary

  /** Font settings of a text. */
  datatype Font = Font(
    face: Option<string>,
    height: Decimal,
    width: Decimal,
    thickness: Option<Decimal>,
    bold: bool,
    italic: bool,
    lineSpacing: Option<Decimal>)
  {
    /** The declared constraints: every size is non-negative. */
    predicate Valid() {
      && NonNegative(height)
      && NonNegative(width)
      && (thickness.Some? ==> NonNegative(thickness.value))
      && (lineSpacing.Some? ==> NonNegative(lineSpacing.value))
    }
  }

  /** Every field at its declared default: no face, 1.0 by 1.0, no thickness, plain. */
  const DefaultFont: Font := Font(None, One, One, None, false, false, None)

  datatype HJustify = Left | Right
  datatype VJustify = Top | Bottom

  function HJustifyName(h: HJustify): string {
    match h
    case Left => "left"
    case Right => "right"
  }

  function VJustifyName(v: VJustify): string {
    match v
    case Top => "top"
    case Bottom => "bottom"
  }

  /** The justification a token names, if it names a horizontal one. */
  function HJustifyOf(s: string): (r: Option<HJustify>)
    ensures r.Some? ==> HJustifyName(r.value) == s
  {
    if s == "left" then Some(Left) else if s == "right" then Some(Right) else None
  }

  /** The justification a token names, if it names a vertical one. */
  function VJustifyOf(s: string): (r: Option<VJustify>)
    ensures r.Some? ==> VJustifyName(r.value) == s
  {
    if s == "top" then Some(Top) else if s == "bottom" then Some(Bottom) else None
  }

  /** The two vocabularies are disjoint, and each name reads back as itself. */
  lemma JustifyNames(h: HJustify, v: VJustify)
    ensures HJustifyOf(HJustifyName(h)) == Some(h) && VJustifyOf(HJustifyName(h)) == None
    ensures VJustifyOf(VJustifyName(v)) == Some(v) && HJustifyOf(VJustifyName(v)) == None
    ensures HJustifyName(h) != "mirror" && VJustifyName(v) != "mirror"
  {
  }

  /** Font and placement of a text. */
  datatype TextEffects = TextEffects(
    font: Font,
    justifyH: Option<HJustify>,
    justifyV: Option<VJustify>,
    mirror: bool,
    hide: bool)
  {
    predicate Valid() {
      font.Valid()
    }
  }

  /** An RGBA colour, one integer per channel. */
  datatype Rgba = Rgba(r: int, g: int, b: int, a: int)

  /** A line style; width carries no constraint. */
  datatype Stroke = Stroke(width: Decimal, kind: StrokeType, color: Option<Rgba>)

  datatype Point = Point(x: Decimal, y: Decimal)

  /** A polyline or polygon outline, in order. */
  datatype Points = Points(points: seq<Point>)

  /** A placement `(at X Y [ANGLE])`. */
  datatype Position = Position(x: Decimal, y: Decimal, angle: Option<Decimal>)

  datatype Property = Property(
    name: string,
    value: string,
    at: (Decimal, Decimal, Decimal),
    layer: Layer,
    effects: Option<TextEffects>,
    unlocked: Option<bool>,
    hide: Option<bool>,
    uuid: Option<string>)
  {
    predicate Valid() {
      effects.Some? ==> effects.value.Valid()
    }
  }

  /** A filled or outlined polygon; `fill` is free text ("solid" by default). */
  datatype Polygon = Polygon(
    points: Points,
    stroke: Option<Stroke>,
    fill: string,
    layer: Layer,
    uuid: Option<string>)

  datatype Line = Line(start: Point, end: Point, stroke: Stroke, layer: Layer, uuid: Option<string>)

  datatype Pad = Pad(
    number: string,
    kind: string,
    shape: string,
    at: (Decimal, Decimal, Decimal),
    size: (Decimal, Decimal),
    layers: seq<Layer>,
    roundrectRratio: Option<Decimal>,
    solderMaskMargin: Option<Decimal>,
    thermalBridgeAngle: Option<Decimal>,
    uuid: Option<string>)

  /** A footprint version is either text or an integer. */
  datatype Version = TextVersion(text: string) | NumberVersion(number: int)

  datatype Footprint = Footprint(
    name: string,
    version: Version,
    generator: string,
    generatorVersion: string,
    layer: Layer,
    description: string,
    properties: seq<Property>,
    polygons: seq<Polygon>,
    lines: seq<Line>,
    pads: seq<Pad>)
  {
    predicate Valid() {
      forall i :: 0 <= i < |properties| ==> properties[i].Valid()
    }
  }
}
