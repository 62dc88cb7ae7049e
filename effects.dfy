/**
 * The text-effects codec: `(effects (font ...) [(justify ...)] [hide])`.
 *
 * The decoder scans the elements after the `effects` tag: the last `(font ...)` list wins,
 * `(justify ...)` tokens set the horizontal and vertical justification (the last token of each
 * kind wins) and `mirror`, and a bare `hide` sets hide; everything else is skipped. The font
 * list is then scanned the same way, starting from the defaults, and the result must satisfy
 * the font's constraints. The encoder leaves out every value Python counts as false.
 */
module EffectsCodec {
  import opened Wrappers
  import opened Numbers
  import opened Text
  import opened Nodes
  import opened Models

  datatype EffectsError =
    | MissingFontSettings   // no usable header, no font list, a bare `(font)` or a one-number `(size N)`
    | InvalidFontNumber     // a size, thickness or line spacing is no number: `float()` raises, uncaught
    | InvalidFont           // the font breaks its constraints (a negative size)

  /** The variables the decoder keeps while it scans the elements after the tag. */
  datatype Scan = Scan(
    font: Option<seq<Node>>,
    justifyH: Option<HJustify>,
    justifyV: Option<VJustify>,
    mirror: bool,
    hide: bool)

  const Initial: Scan := Scan(None, None, None, false, false)

  predicate IsFontItem(n: Node) {
    n.List? && |n.items| >= 1 && StrOf(n.items[0]) == "font"
  }

  predicate IsJustifyItem(n: Node) {
    n.List? && |n.items| >= 1 && StrOf(n.items[0]) == "justify"
  }

  predicate IsHideAtom(n: Node) {
    !n.List? && StrOf(n) == "hide"
  }

  /** An element the scan skips. */
  predicate Ignored(n: Node) {
    !IsFontItem(n) && !IsJustifyItem(n) && !IsHideAtom(n)
  }

  predicate IsH(j: Node) {
    HJustifyOf(StrOf(j)).Some?
  }

  predicate IsV(j: Node) {
    VJustifyOf(StrOf(j)).Some?
  }

  /** One token of a `(justify ...)` list. */
  function JustifyStep(st: Scan, j: Node): Scan {
    var s := StrOf(j);
    if HJustifyOf(s).Some? then st.(justifyH := HJustifyOf(s))
    else if VJustifyOf(s).Some? then st.(justifyV := VJustifyOf(s))
    else if s == "mirror" then st.(mirror := true)
    else st
  }

  function JustifyScan(st: Scan, js: seq<Node>): Scan
    decreases |js|
  {
    if js == [] then st else JustifyScan(JustifyStep(st, js[0]), js[1..])
  }

  /** One element after the `effects` tag. */
  function TailStep(st: Scan, item: Node): Result<Scan, EffectsError> {
    if item.List? then
      if |item.items| < 1 then Success(st)
      else if StrOf(item.items[0]) == "font" then
        if |item.items| < 2 then Failure(MissingFontSettings) else Success(st.(font := Some(item.items)))
      else if StrOf(item.items[0]) == "justify" then Success(JustifyScan(st, item.items[1..]))
      else Success(st)
    else if StrOf(item) == "hide" then Success(st.(hide := true))
    else Success(st)
  }

  function TailScan(st: Scan, items: seq<Node>): Result<Scan, EffectsError>
    decreases |items|
  {
    if items == [] then Success(st)
    else
      match TailStep(st, items[0])
      case Failure(e) => Failure(e)
      case Success(next) => TailScan(next, items[1..])
  }

  /** One element of a font list. */
  function FontStep(f: Font, item: Node): Result<Font, EffectsError> {
    if item.List? then
      if |item.items| < 2 then Success(f)
      else
        var tag := StrOf(item.items[0]);
        if tag == "face" then Success(f.(face := Some(StripQuotes(StrOf(item.items[1])))))
        else if tag == "size" then
          if |item.items| < 3 then Failure(MissingFontSettings)
          else
            match (ToFloat(item.items[1]), ToFloat(item.items[2]))
            case (Some(h), Some(w)) => Success(f.(height := h, width := w))
            case _ => Failure(InvalidFontNumber)
        else if tag == "thickness" then
          match ToFloat(item.items[1])
          case Some(t) => Success(f.(thickness := Some(t)))
          case None => Failure(InvalidFontNumber)
        else if tag == "line_spacing" then
          match ToFloat(item.items[1])
          case Some(t) => Success(f.(lineSpacing := Some(t)))
          case None => Failure(InvalidFontNumber)
        else Success(f)
    else if StrOf(item) == "bold" then Success(f.(bold := true))
    else if StrOf(item) == "italic" then Success(f.(italic := true))
    else Success(f)
  }

  function FontScan(f: Font, items: seq<Node>): Result<Font, EffectsError>
    decreases |items|
  {
    if items == [] then Success(f)
    else
      match FontStep(f, items[0])
      case Failure(e) => Failure(e)
      case Success(next) => FontScan(next, items[1..])
  }

  /** The font a `(font ...)` list describes, validated. */
  function FontOf(data: seq<Node>): (r: Result<Font, EffectsError>)
    ensures r.Success? ==> r.value.Valid()
  {
    var f :- FontScan(DefaultFont, Tail(data));
    if f.Valid() then Success(f) else Failure(InvalidFont)
  }

  /** What `TextEffects.from_sexp` returns or raises for `data`. */
  function Decode(data: Node): (r: Result<TextEffects, EffectsError>)
    ensures r.Success? ==> r.value.Valid()
  {
    if !data.List? || |data.items| < 2 then Failure(MissingFontSettings)
    else if !IsSymbol(data.items[0], "effects") then Failure(MissingFontSettings)
    else
      var st :- TailScan(Initial, data.items[1..]);
      if st.font.None? then Failure(MissingFontSettings)
      else
        var font :- FontOf(st.font.value);
        Success(TextEffects(font, st.justifyH, st.justifyV, st.mirror, st.hide))
  }

  /** `TextEffects._parse_font`: the defaults, updated element by element, then validated. */
  method ParseFont(data: seq<Node>) returns (r: Result<Font, EffectsError>)
    ensures r == FontOf(data)
  {
    var items := Tail(data);
    var font := DefaultFont;
    var i := 0;
    while i < |items|
      invariant 0 <= i <= |items|
      invariant FontScan(DefaultFont, items) == FontScan(font, items[i..])
    {
      assert items[i..][1..] == items[i + 1..];
      var step := ApplyFontItem(font, items[i]);
      if step.Failure? {
        return Failure(step.error);
      }
      font := step.value;
      i := i + 1;
    }
    if !font.Valid() {
      return Failure(InvalidFont);
    }
    r := Success(font);
  }

  /** The body of the loop of `_parse_font`: one element updates the settings or raises. */
  method ApplyFontItem(font: Font, item: Node) returns (r: Result<Font, EffectsError>)
    ensures r == FontStep(font, item)
  {
    r := Success(font);
    if item.List? && |item.items| >= 2 {
      var tag := StrOf(item.items[0]);
      if tag == "face" {
        r := Success(font.(face := Some(StripQuotes(StrOf(item.items[1])))));
      } else if tag == "size" {
        if |item.items| < 3 {
          return Failure(MissingFontSettings);
        }
        var h := ToFloat(item.items[1]);
        if h.None? {
          return Failure(InvalidFontNumber);
        }
        var w := ToFloat(item.items[2]);
        if w.None? {
          return Failure(InvalidFontNumber);
        }
        r := Success(font.(height := h.value, width := w.value));
      } else if tag == "thickness" {
        var t := ToFloat(item.items[1]);
        if t.None? {
          return Failure(InvalidFontNumber);
        }
        r := Success(font.(thickness := t));
      } else if tag == "line_spacing" {
        var t := ToFloat(item.items[1]);
        if t.None? {
          return Failure(InvalidFontNumber);
        }
        r := Success(font.(lineSpacing := t));
      }
    } else if !item.List? && StrOf(item) == "bold" {
      r := Success(font.(bold := true));
    } else if !item.List? && StrOf(item) == "italic" {
      r := Success(font.(italic := true));
    }
  }

  /** `TextEffects.from_sexp`: the header checks, the scan of the elements, then the font. */
  method FromSexp(data: Node) returns (r: Result<TextEffects, EffectsError>)
    ensures r == Decode(data)
  {
    if !data.List? || |data.items| < 2 {
      return Failure(MissingFontSettings);
    }
    if !IsSymbol(data.items[0], "effects") {
      return Failure(MissingFontSettings);
    }
    var items := data.items[1..];
    var fontData: Option<seq<Node>> := None;
    var justifyH: Option<HJustify> := None;
    var justifyV: Option<VJustify> := None;
    var mirror := false;
    var hidden := false;
    var i := 0;
    while i < |items|
      invariant 0 <= i <= |items|
      invariant TailScan(Initial, items) == TailScan(Scan(fontData, justifyH, justifyV, mirror, hidden), items[i..])
    {
      var item := items[i];
      assert items[i..][1..] == items[i + 1..];
      if item.List? && |item.items| >= 1 {
        if StrOf(item.items[0]) == "font" {
          if |item.items| < 2 {
            return Failure(MissingFontSettings);
          }
          fontData := Some(item.items);
        } else if StrOf(item.items[0]) == "justify" {
          var js := item.items[1..];
          ghost var start := Scan(fontData, justifyH, justifyV, mirror, hidden);
          var j := 0;
          while j < |js|
            invariant 0 <= j <= |js|
            invariant JustifyScan(start, js) == JustifyScan(Scan(fontData, justifyH, justifyV, mirror, hidden), js[j..])
          {
            assert js[j..][1..] == js[j + 1..];
            var s := StrOf(js[j]);
            if HJustifyOf(s).Some? {
              justifyH := HJustifyOf(s);
            } else if VJustifyOf(s).Some? {
              justifyV := VJustifyOf(s);
            } else if s == "mirror" {
              mirror := true;
            }
            j := j + 1;
          }
        }
      } else if !item.List? && StrOf(item) == "hide" {
        hidden := true;
      }
      i := i + 1;
    }
    if fontData.None? {
      return Failure(MissingFontSettings);
    }
    var font := ParseFont(fontData.value);
    if font.Failure? {
      return Failure(font.error);
    }
    r := Success(TextEffects(font.value, justifyH, justifyV, mirror, hidden));
  }

  // ----- encoder -----

  /** Python's truth value of an optional size: present and not zero. */
  predicate Truthy(d: Option<Decimal>) {
    d.Some? && !IsZero(d.value)
  }

  /** The elements of the font list after its tag; every value Python counts as false is left out. */
  function FontParts(f: Font): seq<Node> {
    FacePart(f) + SizePart(f) + ThicknessPart(f) + FlagPart(f.bold, "bold") + FlagPart(f.italic, "italic") + LineSpacingPart(f)
  }

  function FacePart(f: Font): seq<Node> {
    if f.face.Some? && f.face.value != [] then [List([Str("face"), Str("\"" + f.face.value + "\"")])] else []
  }

  function SizePart(f: Font): seq<Node> {
    [List([Str("size"), Str(FormatNum(f.height)), Str(FormatNum(f.width))])]
  }

  function ThicknessPart(f: Font): seq<Node> {
    if Truthy(f.thickness) then [List([Str("thickness"), Str(FormatNum(f.thickness.value))])] else []
  }

  function FlagPart(b: bool, name: string): seq<Node> {
    if b then [Str(name)] else []
  }

  function LineSpacingPart(f: Font): seq<Node> {
    if Truthy(f.lineSpacing) then [List([Str("line_spacing"), Str(FormatNum(f.lineSpacing.value))])] else []
  }

  lemma FontPartsInOrder(f: Font)
    ensures [Str("font")] + FontParts(f) == [Str("font")] + FacePart(f) + SizePart(f) + ThicknessPart(f)
      + FlagPart(f.bold, "bold") + FlagPart(f.italic, "italic") + LineSpacingPart(f)
  {
  }

  /** The tokens of the justify list after its tag. */
  function JustifyTokens(e: TextEffects): seq<Node> {
    HToken(e.justifyH) + VToken(e.justifyV) + FlagPart(e.mirror, "mirror")
  }

  function HToken(h: Option<HJustify>): seq<Node> {
    if h.Some? then [Str(HJustifyName(h.value))] else []
  }

  function VToken(v: Option<VJustify>): seq<Node> {
    if v.Some? then [Str(VJustifyName(v.value))] else []
  }

  /** The font list `['font', ...]`. */
  function FontNode(f: Font): Node {
    List([Str("font")] + FontParts(f))
  }

  /** The justify list, present when there is something to justify. */
  function JustifyPart(e: TextEffects): seq<Node> {
    if JustifyTokens(e) != [] then [List([Str("justify")] + JustifyTokens(e))] else []
  }

  /** What `TextEffects.to_sexp` returns. */
  function Encode(e: TextEffects): Node {
    List([Str("effects"), FontNode(e.font)] + JustifyPart(e) + FlagPart(e.hide, "hide"))
  }

  /** `TextEffects.to_sexp`: the font list, then the justify list and `hide`, each built by appending. */
  method ToSexp(e: TextEffects) returns (r: Node)
    ensures r == Encode(e)
  {
    var result := [Str("effects")];
    var fontNode := FontToSexp(e.font);
    result := result + [fontNode];
    if e.justifyH.Some? || e.justifyV.Some? || e.mirror {
      var justifyParts := [Str("justify")];
      if e.justifyH.Some? {
        justifyParts := justifyParts + [Str(HJustifyName(e.justifyH.value))];
      }
      if e.justifyV.Some? {
        justifyParts := justifyParts + [Str(VJustifyName(e.justifyV.value))];
      }
      if e.mirror {
        justifyParts := justifyParts + [Str("mirror")];
      }
      assert justifyParts == [Str("justify")] + JustifyTokens(e);
      result := result + [List(justifyParts)];
    }
    assert result == [Str("effects"), FontNode(e.font)] + JustifyPart(e);
    if e.hide {
      result := result + [Str("hide")];
    }
    r := List(result);
  }

  /** The font half of `to_sexp`: the `font` list built part by part. */
  method FontToSexp(f: Font) returns (r: Node)
    ensures r == FontNode(f)
  {
    var fontParts := [Str("font")];
    if f.face.Some? && f.face.value != [] {
      fontParts := fontParts + [List([Str("face"), Str("\"" + f.face.value + "\"")])];
    }
    ghost var upToFace := [Str("font")] + FacePart(f);
    assert fontParts == upToFace;
    fontParts := fontParts + [List([Str("size"), Str(FormatNum(f.height)), Str(FormatNum(f.width))])];
    ghost var upToSize := upToFace + SizePart(f);
    assert fontParts == upToSize;
    if Truthy(f.thickness) {
      fontParts := fontParts + [List([Str("thickness"), Str(FormatNum(f.thickness.value))])];
    }
    ghost var upToThickness := upToSize + ThicknessPart(f);
    assert fontParts == upToThickness;
    if f.bold {
      fontParts := fontParts + [Str("bold")];
    }
    ghost var upToBold := upToThickness + FlagPart(f.bold, "bold");
    assert fontParts == upToBold;
    if f.italic {
      fontParts := fontParts + [Str("italic")];
    }
    ghost var upToItalic := upToBold + FlagPart(f.italic, "italic");
    assert fontParts == upToItalic;
    if Truthy(f.lineSpacing) {
      fontParts := fontParts + [List([Str("line_spacing"), Str(FormatNum(f.lineSpacing.value))])];
    }
    assert fontParts == upToItalic + LineSpacingPart(f);
    FontPartsInOrder(f);
    r := List(fontParts);
  }

  // ----- the justify scan -----

  /** No token is both a horizontal and a vertical justification. */
  lemma JustifyDisjoint(s: string)
    ensures !(HJustifyOf(s).Some? && VJustifyOf(s).Some?)
  {
    if HJustifyOf(s).Some? {
      JustifyNames(HJustifyOf(s).value, Top);
    }
  }

  /** Horizontal justification: the last left/right token wins; without one it is unchanged. */
  lemma JustifyScanH(st: Scan, js: seq<Node>)
    ensures (forall k :: 0 <= k < |js| ==> !IsH(js[k])) ==> JustifyScan(st, js).justifyH == st.justifyH
    ensures forall i :: 0 <= i < |js| && IsH(js[i]) && (forall k :: i < k < |js| ==> !IsH(js[k])) ==>
      JustifyScan(st, js).justifyH == HJustifyOf(StrOf(js[i]))
  {
    JustifyScanNoHCase(st, js);
    JustifyScanLastHCase(st, js);
  }

  lemma JustifyScanNoHCase(st: Scan, js: seq<Node>)
    ensures (forall k :: 0 <= k < |js| ==> !IsH(js[k])) ==> JustifyScan(st, js).justifyH == st.justifyH
  {
    if forall k :: 0 <= k < |js| ==> !IsH(js[k]) {
      JustifyScanNoH(st, js);
    }
  }

  lemma JustifyScanLastHCase(st: Scan, js: seq<Node>)
    ensures forall i :: 0 <= i < |js| && IsH(js[i]) && (forall k :: i < k < |js| ==> !IsH(js[k])) ==>
      JustifyScan(st, js).justifyH == HJustifyOf(StrOf(js[i]))
  {
    forall i | 0 <= i < |js| && IsH(js[i]) && (forall k :: i < k < |js| ==> !IsH(js[k]))
      ensures JustifyScan(st, js).justifyH == HJustifyOf(StrOf(js[i]))
    {
      JustifyScanLastH(st, js, i);
    }
  }

  lemma {:induction false} JustifyScanNoH(st: Scan, js: seq<Node>)
    requires forall k :: 0 <= k < |js| ==> !IsH(js[k])
    ensures JustifyScan(st, js).justifyH == st.justifyH
    decreases |js|
  {
    if js != [] {
      assert !IsH(js[0]);
      assert forall k :: 0 <= k < |js[1..]| ==> js[1..][k] == js[k + 1];
      JustifyScanNoH(JustifyStep(st, js[0]), js[1..]);
    }
  }

  lemma {:induction false} JustifyScanLastH(st: Scan, js: seq<Node>, i: int)
    requires 0 <= i < |js| && IsH(js[i])
    requires forall k :: i < k < |js| ==> !IsH(js[k])
    ensures JustifyScan(st, js).justifyH == HJustifyOf(StrOf(js[i]))
    decreases |js|
  {
    var next := JustifyStep(st, js[0]);
    var rest := js[1..];
    assert JustifyScan(st, js) == JustifyScan(next, rest);
    if i == 0 {
      assert next.justifyH == HJustifyOf(StrOf(js[0])) by {
        JustifyDisjoint(StrOf(js[0]));
      }
      assert forall k :: 0 <= k < |rest| ==> rest[k] == js[k + 1];
      JustifyScanNoH(next, rest);
    } else {
      assert rest[i - 1] == js[i];
      assert forall k :: i - 1 < k < |rest| ==> rest[k] == js[k + 1];
      JustifyScanLastH(next, rest, i - 1);
    }
  }

  /** Vertical justification: the last top/bottom token wins; without one it is unchanged. */
  lemma JustifyScanV(st: Scan, js: seq<Node>)
    ensures (forall k :: 0 <= k < |js| ==> !IsV(js[k])) ==> JustifyScan(st, js).justifyV == st.justifyV
    ensures forall i :: 0 <= i < |js| && IsV(js[i]) && (forall k :: i < k < |js| ==> !IsV(js[k])) ==>
      JustifyScan(st, js).justifyV == VJustifyOf(StrOf(js[i]))
  {
    JustifyScanNoVCase(st, js);
    JustifyScanLastVCase(st, js);
  }

  lemma JustifyScanNoVCase(st: Scan, js: seq<Node>)
    ensures (forall k :: 0 <= k < |js| ==> !IsV(js[k])) ==> JustifyScan(st, js).justifyV == st.justifyV
  {
    if forall k :: 0 <= k < |js| ==> !IsV(js[k]) {
      JustifyScanNoV(st, js);
    }
  }

  lemma JustifyScanLastVCase(st: Scan, js: seq<Node>)
    ensures forall i :: 0 <= i < |js| && IsV(js[i]) && (forall k :: i < k < |js| ==> !IsV(js[k])) ==>
      JustifyScan(st, js).justifyV == VJustifyOf(StrOf(js[i]))
  {
    forall i | 0 <= i < |js| && IsV(js[i]) && (forall k :: i < k < |js| ==> !IsV(js[k]))
      ensures JustifyScan(st, js).justifyV == VJustifyOf(StrOf(js[i]))
    {
      JustifyScanLastV(st, js, i);
    }
  }

  lemma {:induction false} JustifyScanNoV(st: Scan, js: seq<Node>)
    requires forall k :: 0 <= k < |js| ==> !IsV(js[k])
    ensures JustifyScan(st, js).justifyV == st.justifyV
    decreases |js|
  {
    if js != [] {
      assert !IsV(js[0]);
      assert forall k :: 0 <= k < |js[1..]| ==> js[1..][k] == js[k + 1];
      JustifyScanNoV(JustifyStep(st, js[0]), js[1..]);
    }
  }

  lemma {:induction false} JustifyScanLastV(st: Scan, js: seq<Node>, i: int)
    requires 0 <= i < |js| && IsV(js[i])
    requires forall k :: i < k < |js| ==> !IsV(js[k])
    ensures JustifyScan(st, js).justifyV == VJustifyOf(StrOf(js[i]))
    decreases |js|
  {
    var next := JustifyStep(st, js[0]);
    var rest := js[1..];
    assert JustifyScan(st, js) == JustifyScan(next, rest);
    if i == 0 {
      assert next.justifyV == VJustifyOf(StrOf(js[0])) by {
        JustifyDisjoint(StrOf(js[0]));
      }
      assert forall k :: 0 <= k < |rest| ==> rest[k] == js[k + 1];
      JustifyScanNoV(next, rest);
    } else {
      assert rest[i - 1] == js[i];
      assert forall k :: i - 1 < k < |rest| ==> rest[k] == js[k + 1];
      JustifyScanLastV(next, rest, i - 1);
    }
  }

  /** `mirror` is set by any `mirror` token; the font and `hide` are never touched. */
  predicate HasMirror(js: seq<Node>) {
    exists k :: 0 <= k < |js| && StrOf(js[k]) == "mirror"
  }

  /** `mirror` is set by any `mirror` token; the font and `hide` are untouched. */
  lemma JustifyScanMirror(st: Scan, js: seq<Node>)
    ensures JustifyScan(st, js).mirror <==> st.mirror || exists k :: 0 <= k < |js| && StrOf(js[k]) == "mirror"
    ensures JustifyScan(st, js).font == st.font && JustifyScan(st, js).hide == st.hide
  {
    JustifyScanMirrorSet(st, js);
    JustifyScanFrame(st, js);
  }

  lemma {:induction false} JustifyScanMirrorSet(st: Scan, js: seq<Node>)
    ensures JustifyScan(st, js).mirror <==> st.mirror || HasMirror(js)
    decreases |js|
  {
    if js != [] {
      var next := JustifyStep(st, js[0]);
      var rest := js[1..];
      JustifyScanMirrorSet(next, rest);
      assert next.mirror <==> st.mirror || StrOf(js[0]) == "mirror";
      HasMirrorCons(js);
    }
  }

  lemma HasMirrorCons(js: seq<Node>)
    requires js != []
    ensures HasMirror(js) <==> StrOf(js[0]) == "mirror" || HasMirror(js[1..])
  {
    var rest := js[1..];
    if HasMirror(rest) {
      var k :| 0 <= k < |rest| && StrOf(rest[k]) == "mirror";
      assert js[k + 1] == rest[k];
    }
    if HasMirror(js) {
      var k :| 0 <= k < |js| && StrOf(js[k]) == "mirror";
      if k > 0 {
        assert rest[k - 1] == js[k];
      }
    }
  }

  lemma {:induction false} JustifyScanFrame(st: Scan, js: seq<Node>)
    ensures JustifyScan(st, js).font == st.font && JustifyScan(st, js).hide == st.hide
    decreases |js|
  {
    if js != [] {
      JustifyScanFrame(JustifyStep(st, js[0]), js[1..]);
    }
  }

  // ----- the scan of the elements after the tag -----

  predicate IsShortFont(n: Node) {
    IsFontItem(n) && |n.items| < 2
  }

  /** The scan fails exactly when some element is a bare `(font)`, and then with MissingFontSettings. */
  lemma {:induction false} TailScanFailure(st: Scan, items: seq<Node>)
    ensures TailScan(st, items).Failure? <==> exists i :: 0 <= i < |items| && IsShortFont(items[i])
    ensures TailScan(st, items).Failure? ==> TailScan(st, items).error == MissingFontSettings
    decreases |items|
  {
    if items != [] {
      var rest := items[1..];
      if IsShortFont(items[0]) {
        assert TailStep(st, items[0]).Failure?;
      } else {
        var next := TailStep(st, items[0]).value;
        TailScanFailure(next, rest);
        if exists i :: 0 <= i < |rest| && IsShortFont(rest[i]) {
          var i :| 0 <= i < |rest| && IsShortFont(rest[i]);
          assert items[i + 1] == rest[i];
        }
        if exists i :: 0 <= i < |items| && IsShortFont(items[i]) {
          var i :| 0 <= i < |items| && IsShortFont(items[i]);
          assert i > 0 && rest[i - 1] == items[i];
        }
      }
    }
  }

  /** The last `(font ...)` list wins; without one the font is unchanged. */
  lemma {:induction false} TailScanFont(st: Scan, items: seq<Node>)
    requires TailScan(st, items).Success?
    ensures (forall k :: 0 <= k < |items| ==> !IsFontItem(items[k])) ==> TailScan(st, items).value.font == st.font
    ensures forall i :: 0 <= i < |items| && IsFontItem(items[i]) && (forall k :: i < k < |items| ==> !IsFontItem(items[k])) ==>
      TailScan(st, items).value.font == Some(items[i].items)
    decreases |items|
  {
    if items != [] {
      var next := TailStep(st, items[0]).value;
      var rest := items[1..];
      if IsJustifyItem(items[0]) {
        JustifyScanMirror(st, items[0].items[1..]);
      }
      assert next.font == if IsFontItem(items[0]) then Some(items[0].items) else st.font;
      TailScanFont(next, rest);
      assert forall k :: 0 < k < |items| ==> items[k] == rest[k - 1];
      forall i | 0 <= i < |items| && IsFontItem(items[i]) && (forall k :: i < k < |items| ==> !IsFontItem(items[k]))
        ensures TailScan(st, items).value.font == Some(items[i].items)
      {
        if i == 0 {
          assert forall k :: 0 <= k < |rest| ==> !IsFontItem(rest[k]);
        } else {
          assert IsFontItem(rest[i - 1]);
          assert forall k :: i - 1 < k < |rest| ==> !IsFontItem(rest[k]);
        }
      }
    }
  }

  /** `hide` is set by any bare `hide` element. */
  lemma {:induction false} TailScanHide(st: Scan, items: seq<Node>)
    requires TailScan(st, items).Success?
    ensures TailScan(st, items).value.hide <==> st.hide || exists i :: 0 <= i < |items| && IsHideAtom(items[i])
    decreases |items|
  {
    if items != [] {
      var next := TailStep(st, items[0]).value;
      var rest := items[1..];
      if IsJustifyItem(items[0]) {
        JustifyScanMirror(st, items[0].items[1..]);
      }
      assert next.hide <==> st.hide || IsHideAtom(items[0]);
      TailScanHide(next, rest);
      if exists i :: 0 <= i < |rest| && IsHideAtom(rest[i]) {
        var i :| 0 <= i < |rest| && IsHideAtom(rest[i]);
        assert items[i + 1] == rest[i];
      }
      if exists i :: 0 <= i < |items| && IsHideAtom(items[i]) {
        var i :| 0 <= i < |items| && IsHideAtom(items[i]);
        if i > 0 {
          assert rest[i - 1] == items[i];
        }
      }
    }
  }

  lemma {:induction false} TailScanConcat(st: Scan, a: seq<Node>, b: seq<Node>)
    ensures TailScan(st, a + b) ==
      match TailScan(st, a)
      case Success(mid) => TailScan(mid, b)
      case Failure(e) => Failure(e)
    decreases |a|
  {
    if a == [] {
      assert a + b == b;
    } else {
      assert (a + b)[0] == a[0];
      assert (a + b)[1..] == a[1..] + b;
      match TailStep(st, a[0]) {
        case Failure(e) =>
        case Success(next) => TailScanConcat(next, a[1..], b);
      }
    }
  }

  /** The tokens of every `(justify ...)` element, concatenated in order. */
  function AllJustifyTokens(items: seq<Node>): seq<Node>
    decreases |items|
  {
    if items == [] then []
    else (if IsJustifyItem(items[0]) then items[0].items[1..] else []) + AllJustifyTokens(items[1..])
  }

  /** Two scans that agree on the justification and `mirror`. */
  predicate SameJustify(a: Scan, b: Scan) {
    a.justifyH == b.justifyH && a.justifyV == b.justifyV && a.mirror == b.mirror
  }

  /** The justify scan reads only the justification and `mirror` of its starting state. */
  lemma {:induction false} JustifyScanSame(a: Scan, b: Scan, js: seq<Node>)
    requires SameJustify(a, b)
    ensures SameJustify(JustifyScan(a, js), JustifyScan(b, js))
    decreases |js|
  {
    if js != [] {
      JustifyScanSame(JustifyStep(a, js[0]), JustifyStep(b, js[0]), js[1..]);
    }
  }

  /**
   * All `(justify ...)` elements act as one: the justification and `mirror` after the scan are
   * those of one justify scan over the tokens of every justify element, in order.
   */
  lemma {:induction false} TailScanJustify(st: Scan, items: seq<Node>)
    requires TailScan(st, items).Success?
    ensures SameJustify(TailScan(st, items).value, JustifyScan(st, AllJustifyTokens(items)))
    decreases |items|
  {
    if items != [] {
      var next := TailStep(st, items[0]).value;
      var rest := items[1..];
      TailScanJustify(next, rest);
      if IsJustifyItem(items[0]) {
        JustifyScanConcat(st, items[0].items[1..], AllJustifyTokens(rest));
      } else {
        assert AllJustifyTokens(items) == AllJustifyTokens(rest);
        JustifyScanSame(next, st, AllJustifyTokens(rest));
      }
    }
  }

  /** Removing an element the scan skips changes nothing. */
  lemma TailScanSkip(st: Scan, a: seq<Node>, x: Node, b: seq<Node>)
    requires Ignored(x)
    ensures TailScan(st, a + [x] + b) == TailScan(st, a + b)
  {
    assert a + [x] + b == a + ([x] + b);
    TailScanConcat(st, a, [x] + b);
    TailScanConcat(st, a, b);
    if TailScan(st, a).Success? {
      var mid := TailScan(st, a).value;
      assert TailStep(mid, x) == Success(mid);
      assert ([x] + b)[1..] == b;
    }
  }

  // ----- the scan of a font list -----

  predicate IsSizeItem(n: Node) {
    n.List? && |n.items| >= 2 && StrOf(n.items[0]) == "size"
  }

  predicate IsAtom(n: Node, word: string) {
    !n.List? && StrOf(n) == word
  }

  /** An element the font scan skips. */
  predicate FontIgnored(n: Node) {
    if n.List? then |n.items| < 2 || StrOf(n.items[0]) !in {"face", "size", "thickness", "line_spacing"}
    else StrOf(n) != "bold" && StrOf(n) != "italic"
  }

  lemma {:induction false} FontScanConcat(f: Font, a: seq<Node>, b: seq<Node>)
    ensures FontScan(f, a + b) ==
      match FontScan(f, a)
      case Success(mid) => FontScan(mid, b)
      case Failure(e) => Failure(e)
    decreases |a|
  {
    if a == [] {
      assert a + b == b;
    } else {
      assert (a + b)[0] == a[0];
      assert (a + b)[1..] == a[1..] + b;
      match FontStep(f, a[0]) {
        case Failure(e) =>
        case Success(next) => FontScanConcat(next, a[1..], b);
      }
    }
  }

  /** Removing an element the font scan skips changes nothing. */
  lemma FontScanSkip(f: Font, a: seq<Node>, x: Node, b: seq<Node>)
    requires FontIgnored(x)
    ensures FontScan(f, a + [x] + b) == FontScan(f, a + b)
  {
    assert a + [x] + b == a + ([x] + b);
    FontScanConcat(f, a, [x] + b);
    FontScanConcat(f, a, b);
    if FontScan(f, a).Success? {
      var mid := FontScan(f, a).value;
      assert FontStep(mid, x) == Success(mid);
      assert ([x] + b)[1..] == b;
    }
  }

  /** A `(size N)` with one number fails with MissingFontSettings once the scan reaches it. */
  lemma ShortSizeFails(f: Font, a: seq<Node>, n: Node, b: seq<Node>)
    requires FontScan(f, a).Success?
    requires n.List? && |n.items| == 2 && StrOf(n.items[0]) == "size"
    ensures FontScan(f, a + [n] + b) == Failure(MissingFontSettings)
  {
    assert a + [n] + b == a + ([n] + b);
    FontScanConcat(f, a, [n] + b);
    assert FontStep(FontScan(f, a).value, n) == Failure(MissingFontSettings);
  }

  /** An element whose number `float()` cannot read: a size, width, thickness or line spacing. */
  predicate IsBadNumber(n: Node) {
    && n.List? && |n.items| >= 2
    && ((StrOf(n.items[0]) == "size" && |n.items| >= 3 && (ToFloat(n.items[1]).None? || ToFloat(n.items[2]).None?))
        || (StrOf(n.items[0]) in {"thickness", "line_spacing"} && ToFloat(n.items[1]).None?))
  }

  /** One element fails with InvalidFontNumber exactly when its number cannot be read. */
  lemma FontStepNumber(f: Font, x: Node)
    ensures FontStep(f, x) == Failure(InvalidFontNumber) <==> IsBadNumber(x)
  {
  }

  /** A failing font scan fails at its first failing element, after a successful prefix. */
  lemma {:induction false} FontScanFailsAt(f: Font, items: seq<Node>) returns (i: int)
    requires FontScan(f, items).Failure?
    ensures 0 <= i < |items| && FontScan(f, items[..i]).Success?
    ensures FontStep(FontScan(f, items[..i]).value, items[i]) == FontScan(f, items)
    decreases |items|
  {
    assert FontScan(f, items[..0]) == Success(f) by {
      assert items[..0] == [];
    }
    if FontStep(f, items[0]).Failure? {
      i := 0;
    } else {
      var next := FontStep(f, items[0]).value;
      var j := FontScanFailsAt(next, items[1..]);
      i := j + 1;
      assert items[..i][0] == items[0];
      assert items[..i][1..] == items[1..][..j];
      assert items[1..][j] == items[i];
    }
  }

  /**
   * `_parse_font` raises InvalidFontNumber exactly when the scan reaches an element whose number
   * cannot be read, every element before it having been accepted.
   */
  lemma FontOfNumber(data: seq<Node>)
    ensures FontOf(data) == Failure(InvalidFontNumber) <==>
      exists i :: 0 <= i < |Tail(data)| && FontScan(DefaultFont, Tail(data)[..i]).Success? && IsBadNumber(Tail(data)[i])
  {
    if FontOf(data) == Failure(InvalidFontNumber) {
      FontNumberFound(DefaultFont, Tail(data));
    }
    if exists i :: 0 <= i < |Tail(data)| && FontScan(DefaultFont, Tail(data)[..i]).Success? && IsBadNumber(Tail(data)[i]) {
      var i :| 0 <= i < |Tail(data)| && FontScan(DefaultFont, Tail(data)[..i]).Success? && IsBadNumber(Tail(data)[i]);
      FontNumberReached(DefaultFont, Tail(data), i);
    }
  }

  lemma FontNumberFound(f: Font, items: seq<Node>)
    requires FontScan(f, items) == Failure(InvalidFontNumber)
    ensures exists i :: 0 <= i < |items| && FontScan(f, items[..i]).Success? && IsBadNumber(items[i])
  {
    var i := FontScanFailsAt(f, items);
    FontStepNumber(FontScan(f, items[..i]).value, items[i]);
  }

  lemma FontNumberReached(f: Font, items: seq<Node>, i: int)
    requires 0 <= i < |items| && FontScan(f, items[..i]).Success? && IsBadNumber(items[i])
    ensures FontScan(f, items) == Failure(InvalidFontNumber)
  {
    SplitAround(items, i);
    BadNumberFails(f, items[..i], items[i], items[i + 1..]);
  }

  lemma SplitAround(items: seq<Node>, i: int)
    requires 0 <= i < |items|
    ensures items == items[..i] + [items[i]] + items[i + 1..]
  {
  }

  /** An unreadable number fails with InvalidFontNumber once the scan reaches it. */
  lemma BadNumberFails(f: Font, a: seq<Node>, n: Node, b: seq<Node>)
    requires FontScan(f, a).Success? && IsBadNumber(n)
    ensures FontScan(f, a + [n] + b) == Failure(InvalidFontNumber)
  {
    assert a + [n] + b == a + ([n] + b);
    FontScanConcat(f, a, [n] + b);
    FontStepNumber(FontScan(f, a).value, n);
  }

  /** The scan itself never reports InvalidFont: only the closing validation does. */
  lemma {:induction false} FontScanNotInvalid(f: Font, items: seq<Node>)
    ensures FontScan(f, items) != Failure(InvalidFont)
    decreases |items|
  {
    if items != [] && FontStep(f, items[0]).Success? {
      FontScanNotInvalid(FontStep(f, items[0]).value, items[1..]);
    }
  }

  /** InvalidFont is raised exactly when every element is accepted but a size comes out negative. */
  lemma FontOfInvalid(data: seq<Node>)
    ensures FontOf(data) == Failure(InvalidFont) <==>
      FontScan(DefaultFont, Tail(data)).Success? && !FontScan(DefaultFont, Tail(data)).value.Valid()
  {
    FontScanNotInvalid(DefaultFont, Tail(data));
  }

  /** Without a `(size ...)` element height and width keep their values. */
  lemma {:induction false} FontScanSizes(f: Font, items: seq<Node>)
    requires FontScan(f, items).Success?
    requires forall k :: 0 <= k < |items| ==> !IsSizeItem(items[k])
    ensures FontScan(f, items).value.height == f.height && FontScan(f, items).value.width == f.width
    decreases |items|
  {
    if items != [] {
      FontScanUnfold(f, items);
      var next := FontStep(f, items[0]).value;
      assert !IsSizeItem(items[0]);
      FontStepSizes(f, items[0]);
      assert forall k :: 0 <= k < |items[1..]| ==> items[1..][k] == items[k + 1];
      FontScanSizes(next, items[1..]);
    }
  }

  /** An element other than `(size ...)` leaves height and width alone. */
  lemma FontStepSizes(f: Font, x: Node)
    requires FontStep(f, x).Success? && !IsSizeItem(x)
    ensures FontStep(f, x).value.height == f.height && FontStep(f, x).value.width == f.width
  {
  }

  // ----- the settings a font list sets, last element wins -----

  /** The four settings read from a two-or-more element list: face, size, thickness, line spacing. */
  predicate IsSetting(tag: string) {
    tag == "face" || tag == "size" || tag == "thickness" || tag == "line_spacing"
  }

  /** One setting of a font; the size setting is height and width together. */
  datatype FontField =
    | FaceField(face: Option<string>)
    | SizeField(height: Option<Decimal>, width: Option<Decimal>)
    | ThicknessField(thickness: Option<Decimal>)
    | SpacingField(lineSpacing: Option<Decimal>)

  function FieldOf(f: Font, tag: string): FontField
    requires IsSetting(tag)
  {
    if tag == "face" then FaceField(f.face)
    else if tag == "size" then SizeField(Some(f.height), Some(f.width))
    else if tag == "thickness" then ThicknessField(f.thickness)
    else SpacingField(f.lineSpacing)
  }

  /** An element the font scan reads the setting `tag` from. */
  predicate Sets(x: Node, tag: string) {
    x.List? && |x.items| >= 2 && StrOf(x.items[0]) == tag
  }

  /** Element i is the last one of the setting `tag`. */
  predicate LastSetting(items: seq<Node>, i: int, tag: string) {
    0 <= i < |items| && Sets(items[i], tag) && forall k :: i < k < |items| ==> !Sets(items[k], tag)
  }

  /** The value of the setting `tag` that element `x` carries. */
  function ElementField(x: Node, tag: string): FontField
    requires IsSetting(tag) && Sets(x, tag)
  {
    if tag == "face" then FaceField(Some(StripQuotes(StrOf(x.items[1]))))
    else if tag == "size" then SizeField(ToFloat(x.items[1]), if |x.items| >= 3 then ToFloat(x.items[2]) else None)
    else if tag == "thickness" then ThicknessField(ToFloat(x.items[1]))
    else SpacingField(ToFloat(x.items[1]))
  }

  /** An accepted element sets `tag` to its own value when it is that setting, and leaves it otherwise. */
  lemma FontStepField(f: Font, x: Node, tag: string)
    requires IsSetting(tag) && FontStep(f, x).Success?
    ensures FieldOf(FontStep(f, x).value, tag) == if Sets(x, tag) then ElementField(x, tag) else FieldOf(f, tag)
  {
    var g := FontStep(f, x).value;
    if !x.List? || |x.items| < 2 {
      assert !Sets(x, tag);
      assert g.face == f.face && g.height == f.height && g.width == f.width;
      assert g.thickness == f.thickness && g.lineSpacing == f.lineSpacing;
    } else if tag == "face" {
      FontStepFace(f, x);
    } else if tag == "size" {
      FontStepSize(f, x);
    } else if tag == "thickness" {
      FontStepThickness(f, x);
    } else {
      FontStepSpacing(f, x);
    }
  }

  lemma FontStepFace(f: Font, x: Node)
    requires FontStep(f, x).Success? && x.List? && |x.items| >= 2
    ensures FontStep(f, x).value.face == if Sets(x, "face") then Some(StripQuotes(StrOf(x.items[1]))) else f.face
  {
  }

  lemma FontStepSize(f: Font, x: Node)
    requires FontStep(f, x).Success? && x.List? && |x.items| >= 2
    ensures Sets(x, "size") ==>
      && |x.items| >= 3
      && ToFloat(x.items[1]) == Some(FontStep(f, x).value.height)
      && ToFloat(x.items[2]) == Some(FontStep(f, x).value.width)
    ensures !Sets(x, "size") ==> FontStep(f, x).value.height == f.height && FontStep(f, x).value.width == f.width
  {
  }

  lemma FontStepThickness(f: Font, x: Node)
    requires FontStep(f, x).Success? && x.List? && |x.items| >= 2
    ensures FontStep(f, x).value.thickness == if Sets(x, "thickness") then ToFloat(x.items[1]) else f.thickness
  {
  }

  lemma FontStepSpacing(f: Font, x: Node)
    requires FontStep(f, x).Success? && x.List? && |x.items| >= 2
    ensures FontStep(f, x).value.lineSpacing == if Sets(x, "line_spacing") then ToFloat(x.items[1]) else f.lineSpacing
  {
  }

  /** The last element of a setting decides it; without one the setting keeps its value. */
  lemma FontScanLast(f: Font, items: seq<Node>, tag: string)
    requires IsSetting(tag) && FontScan(f, items).Success?
    ensures (forall k :: 0 <= k < |items| ==> !Sets(items[k], tag)) ==>
      FieldOf(FontScan(f, items).value, tag) == FieldOf(f, tag)
    ensures forall i :: LastSetting(items, i, tag) ==>
      FieldOf(FontScan(f, items).value, tag) == ElementField(items[i], tag)
  {
    if forall k :: 0 <= k < |items| ==> !Sets(items[k], tag) {
      FontScanKeeps(f, items, tag);
    }
    forall i | LastSetting(items, i, tag)
      ensures FieldOf(FontScan(f, items).value, tag) == ElementField(items[i], tag)
    {
      FontScanLastWins(f, items, tag, i);
    }
  }

  lemma {:induction false} FontScanKeeps(f: Font, items: seq<Node>, tag: string)
    requires IsSetting(tag) && FontScan(f, items).Success?
    requires forall k :: 0 <= k < |items| ==> !Sets(items[k], tag)
    ensures FieldOf(FontScan(f, items).value, tag) == FieldOf(f, tag)
    decreases |items|
  {
    if items != [] {
      FontScanUnfold(f, items);
      FontStepField(f, items[0], tag);
      assert forall k :: 0 <= k < |items[1..]| ==> items[1..][k] == items[k + 1];
      FontScanKeeps(FontStep(f, items[0]).value, items[1..], tag);
    }
  }

  lemma {:induction false} FontScanLastWins(f: Font, items: seq<Node>, tag: string, i: int)
    requires IsSetting(tag) && FontScan(f, items).Success? && LastSetting(items, i, tag)
    ensures FieldOf(FontScan(f, items).value, tag) == ElementField(items[i], tag)
    decreases |items|
  {
    FontScanUnfold(f, items);
    var next := FontStep(f, items[0]).value;
    var rest := items[1..];
    if i == 0 {
      FontStepField(f, items[0], tag);
      assert forall k :: 0 <= k < |rest| ==> rest[k] == items[k + 1];
      FontScanKeeps(next, rest, tag);
    } else {
      assert rest[i - 1] == items[i];
      assert forall k :: i - 1 < k < |rest| ==> rest[k] == items[k + 1];
      FontScanLastWins(next, rest, tag, i - 1);
    }
  }

  /** What `_parse_font` sets from each element kind, taking the face and size from the last one. */
  lemma FontScanFields(f: Font, items: seq<Node>)
    requires FontScan(f, items).Success?
    ensures (forall k :: 0 <= k < |items| ==> !Sets(items[k], "face")) ==> FontScan(f, items).value.face == f.face
    ensures forall i :: LastSetting(items, i, "face") ==>
      FontScan(f, items).value.face == Some(StripQuotes(StrOf(items[i].items[1])))
    ensures forall i :: LastSetting(items, i, "size") ==>
      && |items[i].items| >= 3
      && ToFloat(items[i].items[1]) == Some(FontScan(f, items).value.height)
      && ToFloat(items[i].items[2]) == Some(FontScan(f, items).value.width)
  {
    FontScanFace(f, items);
    FontScanSize(f, items);
  }

  lemma FontScanFace(f: Font, items: seq<Node>)
    requires FontScan(f, items).Success?
    ensures (forall k :: 0 <= k < |items| ==> !Sets(items[k], "face")) ==> FontScan(f, items).value.face == f.face
    ensures forall i :: LastSetting(items, i, "face") ==>
      FontScan(f, items).value.face == Some(StripQuotes(StrOf(items[i].items[1])))
  {
    FontScanLast(f, items, "face");
  }

  lemma FontScanSize(f: Font, items: seq<Node>)
    requires FontScan(f, items).Success?
    ensures forall i :: LastSetting(items, i, "size") ==>
      && |items[i].items| >= 3
      && ToFloat(items[i].items[1]) == Some(FontScan(f, items).value.height)
      && ToFloat(items[i].items[2]) == Some(FontScan(f, items).value.width)
  {
    FontScanLast(f, items, "size");
  }

  /** Thickness is read from the last thickness element. */
  lemma FontScanThickness(f: Font, items: seq<Node>)
    requires FontScan(f, items).Success?
    ensures (forall k :: 0 <= k < |items| ==> !Sets(items[k], "thickness")) ==> FontScan(f, items).value.thickness == f.thickness
    ensures forall i :: LastSetting(items, i, "thickness") ==>
      FontScan(f, items).value.thickness == ToFloat(items[i].items[1])
  {
    FontScanLast(f, items, "thickness");
  }

  /** Line spacing is read from the last line-spacing element. */
  lemma FontScanSpacing(f: Font, items: seq<Node>)
    requires FontScan(f, items).Success?
    ensures (forall k :: 0 <= k < |items| ==> !Sets(items[k], "line_spacing")) ==> FontScan(f, items).value.lineSpacing == f.lineSpacing
    ensures forall i :: LastSetting(items, i, "line_spacing") ==>
      FontScan(f, items).value.lineSpacing == ToFloat(items[i].items[1])
  {
    FontScanLast(f, items, "line_spacing");
  }

  /** A successful `FontOf` is the scan from the defaults. */
  lemma FontOfScan(data: seq<Node>)
    requires FontOf(data).Success?
    ensures FontScan(DefaultFont, Tail(data)) == FontOf(data)
  {
  }

  /**
   * The settings of the font `_parse_font` returns: each is read from the last element of its
   * kind, and without one it keeps its default (no face, 1.0 by 1.0, no thickness or spacing).
   */
  lemma FontOfFields(data: seq<Node>)
    requires FontOf(data).Success?
    ensures (forall k :: 0 <= k < |Tail(data)| ==> !Sets(Tail(data)[k], "face")) ==> FontOf(data).value.face == None
    ensures forall i :: LastSetting(Tail(data), i, "face") ==>
      FontOf(data).value.face == Some(StripQuotes(StrOf(Tail(data)[i].items[1])))
    ensures forall i :: LastSetting(Tail(data), i, "size") ==>
      && |Tail(data)[i].items| >= 3
      && ToFloat(Tail(data)[i].items[1]) == Some(FontOf(data).value.height)
      && ToFloat(Tail(data)[i].items[2]) == Some(FontOf(data).value.width)
    ensures (forall k :: 0 <= k < |Tail(data)| ==> !Sets(Tail(data)[k], "thickness")) ==> FontOf(data).value.thickness == None
    ensures forall i :: LastSetting(Tail(data), i, "thickness") ==>
      FontOf(data).value.thickness == ToFloat(Tail(data)[i].items[1])
    ensures (forall k :: 0 <= k < |Tail(data)| ==> !Sets(Tail(data)[k], "line_spacing")) ==> FontOf(data).value.lineSpacing == None
    ensures forall i :: LastSetting(Tail(data), i, "line_spacing") ==>
      FontOf(data).value.lineSpacing == ToFloat(Tail(data)[i].items[1])
  {
    FontOfScan(data);
    FontScanFields(DefaultFont, Tail(data));
    FontScanThickness(DefaultFont, Tail(data));
    FontScanSpacing(DefaultFont, Tail(data));
  }

  /** `bold` and `italic` are set by the bare words. */
  lemma FontScanFlags(f: Font, items: seq<Node>)
    requires FontScan(f, items).Success?
    ensures FontScan(f, items).value.bold <==> f.bold || exists k :: 0 <= k < |items| && IsAtom(items[k], "bold")
    ensures FontScan(f, items).value.italic <==> f.italic || exists k :: 0 <= k < |items| && IsAtom(items[k], "italic")
  {
    FontScanBold(f, items);
    FontScanItalic(f, items);
  }

  lemma FontScanUnfold(f: Font, items: seq<Node>)
    requires items != [] && FontScan(f, items).Success?
    ensures FontStep(f, items[0]).Success?
    ensures FontScan(f, items) == FontScan(FontStep(f, items[0]).value, items[1..])
  {
  }

  /** One element sets `bold` or `italic` exactly when it is that bare word. */
  lemma FontStepFlags(f: Font, x: Node)
    requires FontStep(f, x).Success?
    ensures FontStep(f, x).value.bold <==> f.bold || IsAtom(x, "bold")
    ensures FontStep(f, x).value.italic <==> f.italic || IsAtom(x, "italic")
  {
  }

  predicate HasAtom(items: seq<Node>, word: string) {
    exists k :: 0 <= k < |items| && IsAtom(items[k], word)
  }

  lemma HasAtomCons(items: seq<Node>, word: string)
    requires items != []
    ensures HasAtom(items, word) <==> IsAtom(items[0], word) || HasAtom(items[1..], word)
  {
    var rest := items[1..];
    if HasAtom(rest, word) {
      var k :| 0 <= k < |rest| && IsAtom(rest[k], word);
      assert items[k + 1] == rest[k];
    }
    if HasAtom(items, word) {
      var k :| 0 <= k < |items| && IsAtom(items[k], word);
      if k > 0 {
        assert rest[k - 1] == items[k];
      }
    }
  }

  lemma {:induction false} FontScanBold(f: Font, items: seq<Node>)
    requires FontScan(f, items).Success?
    ensures FontScan(f, items).value.bold <==> f.bold || HasAtom(items, "bold")
    decreases |items|
  {
    if items != [] {
      FontScanUnfold(f, items);
      var next := FontStep(f, items[0]).value;
      FontStepFlags(f, items[0]);
      FontScanBold(next, items[1..]);
      HasAtomCons(items, "bold");
    }
  }

  lemma {:induction false} FontScanItalic(f: Font, items: seq<Node>)
    requires FontScan(f, items).Success?
    ensures FontScan(f, items).value.italic <==> f.italic || HasAtom(items, "italic")
    decreases |items|
  {
    if items != [] {
      FontScanUnfold(f, items);
      var next := FontStep(f, items[0]).value;
      FontStepFlags(f, items[0]);
      FontScanItalic(next, items[1..]);
      HasAtomCons(items, "italic");
    }
  }

  /** A font list without a `(size ...)` element gives the default 1.0 by 1.0. */
  lemma DefaultSize(data: seq<Node>)
    requires FontOf(data).Success?
    requires forall k :: 0 <= k < |Tail(data)| ==> !IsSizeItem(Tail(data)[k])
    ensures FontOf(data).value.height == One && FontOf(data).value.width == One
  {
    FontScanSizes(DefaultFont, Tail(data));
  }

  // ----- the whole decoder -----

  /** Every way the decoder reports MissingFontSettings. */
  lemma MissingFontSettingsCases(data: Node)
    ensures !(data.List? && |data.items| >= 2) ==> Decode(data) == Failure(MissingFontSettings)
    ensures data.List? && |data.items| >= 2 && !IsSymbol(data.items[0], "effects") ==>
      Decode(data) == Failure(MissingFontSettings)
    ensures data.List? && |data.items| >= 2 && IsSymbol(data.items[0], "effects") ==>
      && ((exists i :: 1 <= i < |data.items| && IsShortFont(data.items[i])) ==> Decode(data) == Failure(MissingFontSettings))
      && ((forall i :: 1 <= i < |data.items| ==> !IsFontItem(data.items[i])) ==> Decode(data) == Failure(MissingFontSettings))
  {
    if data.List? && |data.items| >= 2 && IsSymbol(data.items[0], "effects") {
      var items := data.items[1..];
      assert forall i :: 1 <= i < |data.items| ==> data.items[i] == items[i - 1];
      TailScanFailure(Initial, items);
      if TailScan(Initial, items).Success? {
        TailScanFont(Initial, items);
      }
    }
  }

  /**
   * A successful decode reads its fields from the last font list, `hide`, and the tokens of all
   * justify elements: the last left/right and the last top/bottom token win, and any `mirror`
   * token sets mirror.
   */
  lemma DecodeFields(data: Node)
    requires Decode(data).Success?
    ensures data.List? && |data.items| >= 2 && IsSymbol(data.items[0], "effects")
    ensures Decode(data).value.hide <==> exists i :: 1 <= i < |data.items| && IsHideAtom(data.items[i])
    ensures exists i ::
      && 1 <= i < |data.items| && IsFontItem(data.items[i])
      && (forall k :: i < k < |data.items| ==> !IsFontItem(data.items[k]))
      && FontOf(data.items[i].items) == Success(Decode(data).value.font)
    ensures var js := AllJustifyTokens(data.items[1..]);
      && ((forall k :: 0 <= k < |js| ==> !IsH(js[k])) ==> Decode(data).value.justifyH == None)
      && (forall i :: 0 <= i < |js| && IsH(js[i]) && (forall k :: i < k < |js| ==> !IsH(js[k])) ==>
            Decode(data).value.justifyH == HJustifyOf(StrOf(js[i])))
      && ((forall k :: 0 <= k < |js| ==> !IsV(js[k])) ==> Decode(data).value.justifyV == None)
      && (forall i :: 0 <= i < |js| && IsV(js[i]) && (forall k :: i < k < |js| ==> !IsV(js[k])) ==>
            Decode(data).value.justifyV == VJustifyOf(StrOf(js[i])))
      && (Decode(data).value.mirror <==> HasMirror(js))
  {
    DecodeFontHide(data);
    DecodeJustifyScan(data);
    var js := AllJustifyTokens(data.items[1..]);
    JustifyScanH(Initial, js);
    JustifyScanV(Initial, js);
    JustifyScanMirrorSet(Initial, js);
  }

  lemma DecodeFontHide(data: Node)
    requires Decode(data).Success?
    ensures data.List? && |data.items| >= 2 && IsSymbol(data.items[0], "effects")
    ensures Decode(data).value.hide <==> exists i :: 1 <= i < |data.items| && IsHideAtom(data.items[i])
    ensures exists i ::
      && 1 <= i < |data.items| && IsFontItem(data.items[i])
      && (forall k :: i < k < |data.items| ==> !IsFontItem(data.items[k]))
      && FontOf(data.items[i].items) == Success(Decode(data).value.font)
  {
    var items := data.items[1..];
    assert forall i :: 1 <= i < |data.items| ==> data.items[i] == items[i - 1];
    TailScanHide(Initial, items);
    TailScanFont(Initial, items);
    var st := TailScan(Initial, items).value;
    if forall i :: 0 <= i < |items| ==> !IsFontItem(items[i]) {
      assert false;
    }
    var i :| 0 <= i < |items| && IsFontItem(items[i]);
    ghost var last := LastFont(items, i);
    assert FontOf(items[last].items) == Success(Decode(data).value.font);
    assert data.items[last + 1] == items[last];
  }

  lemma DecodeJustifyScan(data: Node)
    requires Decode(data).Success?
    ensures data.List? && |data.items| >= 2
    ensures var j := JustifyScan(Initial, AllJustifyTokens(data.items[1..]));
      Decode(data).value.justifyH == j.justifyH && Decode(data).value.justifyV == j.justifyV
      && Decode(data).value.mirror == j.mirror
  {
    TailScanJustify(Initial, data.items[1..]);
  }

  /** The last font element at or after index i. */
  ghost function LastFont(items: seq<Node>, i: int): (last: int)
    requires 0 <= i < |items| && IsFontItem(items[i])
    ensures i <= last < |items| && IsFontItem(items[last])
    ensures forall k :: last < k < |items| ==> !IsFontItem(items[k])
    decreases |items| - i
  {
    if exists k :: i < k < |items| && IsFontItem(items[k]) then
      var k :| i < k < |items| && IsFontItem(items[k]);
      LastFont(items, k)
    else i
  }

  /** Removing an element both scans skip leaves the decoded value unchanged. */
  lemma DecodeSkip(a: seq<Node>, x: Node, b: seq<Node>)
    requires Ignored(x)
    ensures Decode(List([Sym("effects")] + a + [x] + b)) == Decode(List([Sym("effects")] + a + b))
  {
    var l := [Sym("effects")] + a + [x] + b;
    var r := [Sym("effects")] + a + b;
    assert l[1..] == a + [x] + b;
    assert r[1..] == a + b;
    assert l[0] == r[0] == Sym("effects");
    TailScanSkip(Initial, a, x, b);
    if |r| < 2 {
      assert a + b == [];
      TailScanFont(Initial, [x]);
      assert Decode(List(l)) == Failure(MissingFontSettings);
    } else {
      DecodeSameScan(List(l), List(r));
    }
  }

  /** Two effects lists whose elements scan alike decode alike. */
  lemma DecodeSameScan(d1: Node, d2: Node)
    requires d1.List? && |d1.items| >= 2 && IsSymbol(d1.items[0], "effects")
    requires d2.List? && |d2.items| >= 2 && IsSymbol(d2.items[0], "effects")
    requires TailScan(Initial, d1.items[1..]) == TailScan(Initial, d2.items[1..])
    ensures Decode(d1) == Decode(d2)
  {
  }

  // ----- the round trip -----

  /** A face the decoder reads back: absent, empty, or without a double quote at either end. */
  predicate FaceEncodable(face: Option<string>) {
    face.None? || face.value == [] || (face.value[0] != '"' && face.value[|face.value| - 1] != '"')
  }

  /** The font as the encoder sees it: an empty face and zero sizes count as absent. */
  function Normalized(f: Font): Font {
    f.(face := if f.face.Some? && f.face.value != [] then f.face else None,
       thickness := if Truthy(f.thickness) then f.thickness else None,
       lineSpacing := if Truthy(f.lineSpacing) then f.lineSpacing else None)
  }

  lemma FontScanOne(g: Font, x: Node)
    ensures FontScan(g, [x]) == FontStep(g, x)
  {
    assert [x][1..] == [];
  }

  lemma FacePiece(g: Font, f: Font)
    requires FaceEncodable(f.face)
    ensures FontScan(g, SymbolizeAll(FacePart(f))) ==
      Success(if f.face.Some? && f.face.value != [] then g.(face := f.face) else g)
  {
    if f.face.Some? && f.face.value != [] {
      var q := "\"" + f.face.value + "\"";
      var n := List([Str("face"), Str(q)]);
      SymbolizeList([Str("face"), Str(q)]);
      assert Symbolize(n) == List([Sym("face"), Str(q)]);
      assert SymbolizeAll(FacePart(f)) == [Symbolize(n)];
      StripQuotesOfQuoted(f.face.value);
      FontScanOne(g, Symbolize(n));
    }
  }

  /** A number list `[tag, str(d)]`, symbolized. */
  lemma SymbolizedNumber(tag: string, d: Decimal)
    requires tag != [] && tag[0] != '"'
    ensures Symbolize(List([Str(tag), Str(FormatNum(d))])) == List([Sym(tag), Sym(FormatNum(d))])
  {
    NumTextIsWord(FormatNum(d));
    SymbolizeList([Str(tag), Str(FormatNum(d))]);
  }

  lemma SizePiece(g: Font, f: Font)
    ensures FontScan(g, SymbolizeAll(SizePart(f))) == Success(g.(height := f.height, width := f.width))
  {
    var n := List([Str("size"), Str(FormatNum(f.height)), Str(FormatNum(f.width))]);
    NumTextIsWord(FormatNum(f.height));
    NumTextIsWord(FormatNum(f.width));
    SymbolizeList(n.items);
    var m := List([Sym("size"), Sym(FormatNum(f.height)), Sym(FormatNum(f.width))]);
    assert Symbolize(n) == m;
    assert SymbolizeAll(SizePart(f)) == [m];
    ToFloatOfText(f.height);
    ToFloatOfText(f.width);
    FontScanOne(g, m);
  }

  lemma ThicknessPiece(g: Font, f: Font)
    ensures FontScan(g, SymbolizeAll(ThicknessPart(f))) ==
      Success(if Truthy(f.thickness) then g.(thickness := f.thickness) else g)
  {
    if Truthy(f.thickness) {
      var d := f.thickness.value;
      SymbolizedNumber("thickness", d);
      var m := List([Sym("thickness"), Sym(FormatNum(d))]);
      assert SymbolizeAll(ThicknessPart(f)) == [m];
      ToFloatOfText(d);
      FontScanOne(g, m);
    }
  }

  lemma LineSpacingPiece(g: Font, f: Font)
    ensures FontScan(g, SymbolizeAll(LineSpacingPart(f))) ==
      Success(if Truthy(f.lineSpacing) then g.(lineSpacing := f.lineSpacing) else g)
  {
    if Truthy(f.lineSpacing) {
      var d := f.lineSpacing.value;
      SymbolizedNumber("line_spacing", d);
      var m := List([Sym("line_spacing"), Sym(FormatNum(d))]);
      assert SymbolizeAll(LineSpacingPart(f)) == [m];
      ToFloatOfText(d);
      FontScanOne(g, m);
    }
  }

  lemma FlagPiece(g: Font, b: bool, name: string)
    requires name == "bold" || name == "italic"
    ensures FontScan(g, SymbolizeAll(FlagPart(b, name))) ==
      Success(if !b then g else if name == "bold" then g.(bold := true) else g.(italic := true))
  {
    if b {
      SymbolizeWord(name);
      FontScanOne(g, Sym(name));
    }
  }

  /** The symbolized font elements decode, from the defaults, to the normalized font. */
  lemma FontPartsDecode(f: Font)
    requires FaceEncodable(f.face)
    ensures FontScan(DefaultFont, SymbolizeAll(FontParts(f))) == Success(Normalized(f))
  {
    var a, b, c := FacePart(f), SizePart(f), ThicknessPart(f);
    var d, e, l := FlagPart(f.bold, "bold"), FlagPart(f.italic, "italic"), LineSpacingPart(f);
    SymbolizeAllConcat(a + b + c + d + e, l);
    SymbolizeAllConcat(a + b + c + d, e);
    SymbolizeAllConcat(a + b + c, d);
    SymbolizeAllConcat(a + b, c);
    SymbolizeAllConcat(a, b);
    var sa, sb, sc := SymbolizeAll(a), SymbolizeAll(b), SymbolizeAll(c);
    var sd, se, sl := SymbolizeAll(d), SymbolizeAll(e), SymbolizeAll(l);
    assert SymbolizeAll(FontParts(f)) == sa + sb + sc + sd + se + sl;
    var g0 := DefaultFont;
    FacePiece(g0, f);
    var g1 := FontScan(g0, sa).value;
    FontScanConcat(g0, sa, sb);
    SizePiece(g1, f);
    var g2 := FontScan(g1, sb).value;
    FontScanConcat(g0, sa + sb, sc);
    ThicknessPiece(g2, f);
    var g3 := FontScan(g2, sc).value;
    FontScanConcat(g0, sa + sb + sc, sd);
    FlagPiece(g3, f.bold, "bold");
    var g4 := FontScan(g3, sd).value;
    FontScanConcat(g0, sa + sb + sc + sd, se);
    FlagPiece(g4, f.italic, "italic");
    var g5 := FontScan(g4, se).value;
    FontScanConcat(g0, sa + sb + sc + sd + se, sl);
    LineSpacingPiece(g5, f);
    assert FontScan(g5, sl).value == Normalized(f);
  }

  lemma {:induction false} JustifyScanConcat(st: Scan, a: seq<Node>, b: seq<Node>)
    ensures JustifyScan(st, a + b) == JustifyScan(JustifyScan(st, a), b)
    decreases |a|
  {
    if a == [] {
      assert a + b == b;
    } else {
      assert (a + b)[0] == a[0];
      assert (a + b)[1..] == a[1..] + b;
      JustifyScanConcat(JustifyStep(st, a[0]), a[1..], b);
    }
  }

  lemma JustifyScanOne(st: Scan, x: Node)
    ensures JustifyScan(st, [x]) == JustifyStep(st, x)
  {
    assert [x][1..] == [];
  }

  /** The symbolized justify tokens set exactly the encoded justification. */
  lemma JustifyTokensDecode(st: Scan, e: TextEffects)
    ensures JustifyScan(st, SymbolizeAll(JustifyTokens(e))) ==
      st.(justifyH := if e.justifyH.Some? then e.justifyH else st.justifyH,
          justifyV := if e.justifyV.Some? then e.justifyV else st.justifyV,
          mirror := st.mirror || e.mirror)
  {
    var a, b, c := HToken(e.justifyH), VToken(e.justifyV), FlagPart(e.mirror, "mirror");
    SymbolizeAllConcat(a + b, c);
    SymbolizeAllConcat(a, b);
    HTokenDecode(st, e.justifyH);
    var s1 := JustifyScan(st, SymbolizeAll(a));
    VTokenDecode(s1, e.justifyV);
    var s2 := JustifyScan(s1, SymbolizeAll(b));
    MirrorTokenDecode(s2, e.mirror);
    JustifyScanConcat(st, SymbolizeAll(a), SymbolizeAll(b));
    JustifyScanConcat(st, SymbolizeAll(a) + SymbolizeAll(b), SymbolizeAll(c));
  }

  lemma HTokenDecode(st: Scan, h: Option<HJustify>)
    ensures JustifyScan(st, SymbolizeAll(HToken(h))) == st.(justifyH := if h.Some? then h else st.justifyH)
  {
    if h.Some? {
      JustifyNames(h.value, Top);
      SymbolizeWord(HJustifyName(h.value));
      JustifyScanOne(st, Sym(HJustifyName(h.value)));
    }
  }

  lemma VTokenDecode(st: Scan, v: Option<VJustify>)
    ensures JustifyScan(st, SymbolizeAll(VToken(v))) == st.(justifyV := if v.Some? then v else st.justifyV)
  {
    if v.Some? {
      JustifyNames(Left, v.value);
      SymbolizeWord(VJustifyName(v.value));
      JustifyScanOne(st, Sym(VJustifyName(v.value)));
    }
  }

  lemma MirrorTokenDecode(st: Scan, b: bool)
    ensures JustifyScan(st, SymbolizeAll(FlagPart(b, "mirror"))) == st.(mirror := st.mirror || b)
  {
    if b {
      SymbolizeWord("mirror");
      JustifyScanOne(st, Sym("mirror"));
    }
  }

  lemma TailScanOne(st: Scan, x: Node)
    ensures TailScan(st, [x]) == TailStep(st, x)
  {
    assert [x][1..] == [];
  }

  /** The symbolized justify part, read from a scan that has seen no justification. */
  lemma JustifyPartDecode(st: Scan, e: TextEffects)
    requires st.justifyH.None? && st.justifyV.None? && !st.mirror
    ensures TailScan(st, SymbolizeAll(JustifyPart(e))) ==
      Success(st.(justifyH := e.justifyH, justifyV := e.justifyV, mirror := e.mirror))
  {
    if JustifyTokens(e) != [] {
      var n := List([Str("justify")] + JustifyTokens(e));
      SymbolizeList([Str("justify")] + JustifyTokens(e));
      SymbolizeAllConcat([Str("justify")], JustifyTokens(e));
      var m := Symbolize(n);
      assert m == List([Sym("justify")] + SymbolizeAll(JustifyTokens(e)));
      assert m.items[1..] == SymbolizeAll(JustifyTokens(e));
      assert SymbolizeAll(JustifyPart(e)) == [m];
      TailScanOne(st, m);
      JustifyTokensDecode(st, e);
    }
  }

  lemma HidePartDecode(st: Scan, b: bool)
    ensures TailScan(st, SymbolizeAll(FlagPart(b, "hide"))) == Success(if b then st.(hide := true) else st)
  {
    if b {
      SymbolizeWord("hide");
      TailScanOne(st, Sym("hide"));
    }
  }

  /** The symbolized font list is a font element of at least two elements. */
  lemma FontNodeDecode(f: Font)
    ensures Symbolize(FontNode(f)) == List([Sym("font")] + SymbolizeAll(FontParts(f)))
    ensures |Symbolize(FontNode(f)).items| >= 2
  {
    var ps := FontParts(f);
    SymbolizeTagged("font", ps);
    FontPartsNonEmpty(f);
  }

  lemma FontPartsNonEmpty(f: Font)
    ensures |FontParts(f)| >= 1
  {
    assert |SizePart(f)| == 1;
  }

  lemma SymbolizedEncode(e: TextEffects)
    ensures Symbolize(Encode(e)).items ==
      [Sym("effects"), Symbolize(FontNode(e.font))] + SymbolizeAll(JustifyPart(e)) + SymbolizeAll(FlagPart(e.hide, "hide"))
  {
    var head := [Str("effects"), FontNode(e.font)];
    SymbolizeList(head + JustifyPart(e) + FlagPart(e.hide, "hide"));
    SymbolizeAllConcat(head + JustifyPart(e), FlagPart(e.hide, "hide"));
    SymbolizeAllConcat(head, JustifyPart(e));
    assert SymbolizeAll(head) == [Sym("effects"), Symbolize(FontNode(e.font))];
  }

  /** Decoding the symbolized encoding gives the effects back, with the font normalized. */
  lemma EncodeDecode(e: TextEffects)
    requires e.Valid()
    requires FaceEncodable(e.font.face)
    ensures Decode(Symbolize(Encode(e))) == Success(e.(font := Normalized(e.font)))
  {
    var m := Symbolize(Encode(e));
    SymbolizedEncode(e);
    var fnode := Symbolize(FontNode(e.font));
    EncodeScan(e);
    FontNodeDecode(e.font);
    assert Tail(fnode.items) == SymbolizeAll(FontParts(e.font));
    FontPartsDecode(e.font);
    assert FontOf(fnode.items) == Success(Normalized(e.font));
  }

  /** The scan of the symbolized encoding finds its font list, justification and `hide`. */
  lemma EncodeScan(e: TextEffects)
    ensures Symbolize(Encode(e)).List? && |Symbolize(Encode(e)).items| >= 2
    ensures TailScan(Initial, Symbolize(Encode(e)).items[1..]) ==
      Success(Scan(Some(Symbolize(FontNode(e.font)).items), e.justifyH, e.justifyV, e.mirror, e.hide))
  {
    var m := Symbolize(Encode(e));
    SymbolizedEncode(e);
    FontNodeDecode(e.font);
    var fnode := Symbolize(FontNode(e.font));
    var jp := SymbolizeAll(JustifyPart(e));
    var hp := SymbolizeAll(FlagPart(e.hide, "hide"));
    var items := m.items[1..];
    assert items == [fnode] + jp + hp;
    TailScanConcat(Initial, [fnode] + jp, hp);
    TailScanConcat(Initial, [fnode], jp);
    TailScanOne(Initial, fnode);
    var st1 := Initial.(font := Some(fnode.items));
    assert TailScan(Initial, [fnode]) == Success(st1);
    JustifyPartDecode(st1, e);
    var st2 := st1.(justifyH := e.justifyH, justifyV := e.justifyV, mirror := e.mirror);
    HidePartDecode(st2, e.hide);
  }

  /**
   * The round trip: an effects value without an empty face, a quote at either end of its face,
   * or a zero thickness or line spacing decodes from its symbolized encoding unchanged.
   */
  lemma RoundTrip(e: TextEffects)
    requires e.Valid()
    requires e.font.face.None? || (e.font.face.value != [] && FaceEncodable(e.font.face))
    requires e.font.thickness.None? || Truthy(e.font.thickness)
    requires e.font.lineSpacing.None? || Truthy(e.font.lineSpacing)
    ensures Decode(Symbolize(Encode(e))) == Success(e)
  {
    EncodeDecode(e);
    assert Normalized(e.font) == e.font;
  }
}
