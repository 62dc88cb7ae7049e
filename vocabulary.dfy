/**
 * The two closed vocabularies of the footprint format: board layers and stroke line styles.
 * Each is a string-valued enumeration; a name outside the vocabulary is rejected.
 */
module Vocabulary {
  import opened Wrappers

  datatype Layer = FCu | FPaste | FMask | FSilkS | FFab | FCrtYd | FAdhes

  /** The layer's name as it appears in a file. */
  function LayerName(l: Layer): string {
    match l
    case FCu => "F.Cu"
    case FPaste => "F.Paste"
    case FMask => "F.Mask"
    case FSilkS => "F.SilkS"
    case FFab => "F.Fab"
    case FCrtYd => "F.CrtYd"
    case FAdhes => "F.Adhes"
  }

  /** `Layer(s)`: the layer with name `s`, or `None` where the enumeration raises. */
  function LayerFromName(s: string): (r: Option<Layer>)
    ensures r.Some? ==> LayerName(r.value) == s
  {
    if s == "F.Cu" then Some(FCu)
    else if s == "F.Paste" then Some(FPaste)
    else if s == "F.Mask" then Some(FMask)
    else if s == "F.SilkS" then Some(FSilkS)
    else if s == "F.Fab" then Some(FFab)
    else if s == "F.CrtYd" then Some(FCrtYd)
    else if s == "F.Adhes" then Some(FAdhes)
    else None
  }

  datatype StrokeType = Default | Solid | Dash | Dot | DashDot | DashDotDot

  /** The member's value: the style name as it appears in a file. */
  function StrokeTypeName(t: StrokeType): string {
    match t
    case Default => "default"
    case Solid => "solid"
    case Dash => "dash"
    case Dot => "dot"
    case DashDot => "dash_dot"
    case DashDotDot => "dash_dot_dot"
  }

  /** The member's Python identifier. */
  function StrokeTypeMember(t: StrokeType): string {
    match t
    case Default => "DEFAULT"
    case Solid => "SOLID"
    case Dash => "DASH"
    case Dot => "DOT"
    case DashDot => "DASH_DOT"
    case DashDotDot => "DASH_DOT_DOT"
  }

  /**
   * `str()` of a member of a `(str, Enum)` class: the class and member name, not the value
   * (the enumeration's `__str__` takes precedence over the str mixin's).
   */
  function StrokeTypeStr(t: StrokeType): (s: string)
    ensures |s| > 11 && s[..11] == "StrokeType."
  {
    "StrokeType." + StrokeTypeMember(t)
  }

  /** `StrokeType(s)`, and the `type_ not in [t.value for t in StrokeType]` test. */
  function StrokeTypeFromName(s: string): (r: Option<StrokeType>)
    ensures r.Some? ==> StrokeTypeName(r.value) == s
  {
    if s == "default" then Some(Default)
    else if s == "solid" then Some(Solid)
    else if s == "dash" then Some(Dash)
    else if s == "dot" then Some(Dot)
    else if s == "dash_dot" then Some(DashDot)
    else if s == "dash_dot_dot" then Some(DashDotDot)
    else None
  }

  // ----- lemmas -----

  /** Every layer is found by its name; a name no layer carries is rejected. */
  lemma LayerNames(s: string, l: Layer)
    ensures LayerFromName(LayerName(l)) == Some(l)
    ensures LayerFromName(s).None? <==> (forall k: Layer :: LayerName(k) != s)
  {
    if LayerFromName(s).Some? {
      assert LayerName(LayerFromName(s).value) == s;
    }
  }

  /** Distinct layers have distinct names. */
  lemma LayerNameInjective(a: Layer, b: Layer)
    ensures LayerName(a) == LayerName(b) ==> a == b
  {
    LayerNames(LayerName(a), a);
    LayerNames(LayerName(b), b);
  }

  /** Every style is found by its value; a string that is no style's value is rejected. */
  lemma StrokeTypeNames(s: string, t: StrokeType)
    ensures StrokeTypeFromName(StrokeTypeName(t)) == Some(t)
    ensures StrokeTypeFromName(s).None? <==> (forall k: StrokeType :: StrokeTypeName(k) != s)
  {
    if StrokeTypeFromName(s).Some? {
      assert StrokeTypeName(StrokeTypeFromName(s).value) == s;
    }
  }

  /** The `str()` of a member is never a style value. */
  lemma StrokeTypeStrRejected(t: StrokeType)
    ensures StrokeTypeFromName(StrokeTypeStr(t)) == None
  {
    var s := StrokeTypeStr(t);
    forall k: StrokeType
      ensures StrokeTypeName(k) != s
    {
      assert |StrokeTypeName(k)| <= 11 || StrokeTypeName(k)[0] != 'S';
    }
    StrokeTypeNames(s, t);
  }
}
