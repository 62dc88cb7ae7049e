/**
 * The stroke codec: `(stroke (width W) (type T) [(color R G B A)])`. The decoder checks
 * the outer list, then the `width` and `type` pairs, then the values, then the optional
 * colour, and reports the first check that fails. It reads only the first four elements.
 */
module StrokeCodec {
  import opened Wrappers
  import opened Numbers
  import opened Nodes
  import opened Vocabulary
  import opened Models

  datatype StrokeError =
    | InvalidStrokeDataFormat   // not a list, or fewer than three elements
    | MissingStrokeSymbol       // the head is not `stroke`
    | InvalidWidthFormat        // the second element is not a two-element list
    | InvalidTypeFormat         // the third element is not a two-element list
    | MissingWidthSymbol        // the width pair is not tagged `width`
    | MissingTypeSymbol         // the type pair is not tagged `type`
    | InvalidStrokeValues       // the width is no number, or the type no style
    | InvalidColorFormat        // the fourth element is not a five-element list
    | MissingColorSymbol        // the colour list is not tagged `color`
    | InvalidColorValues        // a channel is no integer

  /** A two-element list whose head prints as `tag`. */
  predicate IsPair(n: Node, tag: string) {
    n.List? && |n.items| == 2 && StrOf(n.items[0]) == tag
  }

  /** The colour list `(color R G B A)`. */
  function ColorFromSexp(n: Node): (r: Result<Rgba, StrokeError>)
    ensures !(n.List? && |n.items| == 5) ==> r == Failure(InvalidColorFormat)
    ensures n.List? && |n.items| == 5 && StrOf(n.items[0]) != "color" ==> r == Failure(MissingColorSymbol)
    ensures (n.List? && |n.items| == 5 && StrOf(n.items[0]) == "color"
             && exists k :: 1 <= k < 5 && ToInt(n.items[k]).None?)
            ==> r == Failure(InvalidColorValues)
    ensures r.Success? <==>
      n.List? && |n.items| == 5 && StrOf(n.items[0]) == "color"
      && (forall k :: 1 <= k < 5 ==> ToInt(n.items[k]).Some?)
    ensures r.Success? ==>
      && ToInt(n.items[1]) == Some(r.value.r) && ToInt(n.items[2]) == Some(r.value.g)
      && ToInt(n.items[3]) == Some(r.value.b) && ToInt(n.items[4]) == Some(r.value.a)
  {
    if !n.List? || |n.items| != 5 then Failure(InvalidColorFormat)
    else if StrOf(n.items[0]) != "color" then Failure(MissingColorSymbol)
    else
      match (ToInt(n.items[1]), ToInt(n.items[2]), ToInt(n.items[3]), ToInt(n.items[4]))
      case (Some(r), Some(g), Some(b), Some(a)) => Success(Rgba(r, g, b, a))
      case _ => Failure(InvalidColorValues)
  }

  /** `Stroke.from_sexp`. */
  function FromSexp(data: Node): (r: Result<Stroke, StrokeError>)
    ensures !(data.List? && |data.items| >= 3) ==> r == Failure(InvalidStrokeDataFormat)
    ensures data.List? && |data.items| >= 3 && StrOf(data.items[0]) != "stroke" ==>
      r == Failure(MissingStrokeSymbol)
    ensures r.Success? ==>
      && data.List? && |data.items| >= 3 && StrOf(data.items[0]) == "stroke"
      && IsPair(data.items[1], "width") && IsPair(data.items[2], "type")
      && ToFloat(data.items[1].items[1]) == Some(r.value.width)
      && StrOf(data.items[2].items[1]) == StrokeTypeName(r.value.kind)
      // the colour is set exactly when a fourth element is present, and is read from it
      && (r.value.color.Some? <==> |data.items| > 3)
      && (|data.items| > 3 ==> ColorFromSexp(data.items[3]) == Success(r.value.color.value))
  {
    if !data.List? || |data.items| < 3 then Failure(InvalidStrokeDataFormat)
    else
      var items := data.items;
      if StrOf(items[0]) != "stroke" then Failure(MissingStrokeSymbol)
      else if !items[1].List? || |items[1].items| != 2 then Failure(InvalidWidthFormat)
      else if !items[2].List? || |items[2].items| != 2 then Failure(InvalidTypeFormat)
      else if StrOf(items[1].items[0]) != "width" then Failure(MissingWidthSymbol)
      else if StrOf(items[2].items[0]) != "type" then Failure(MissingTypeSymbol)
      else
        match (ToFloat(items[1].items[1]), StrokeTypeFromName(StrOf(items[2].items[1])))
        case (Some(width), Some(kind)) =>
          if |items| > 3 then
            var color :- ColorFromSexp(items[3]);
            Success(Stroke(width, kind, Some(color)))
          else Success(Stroke(width, kind, None))
        case _ => Failure(InvalidStrokeValues)
  }

  /** The colour list the encoder appends: `['color'] + [str(c) for c in color]`. */
  function ColorToSexp(c: Rgba): Node {
    List([Str("color"), Str(FormatInt(c.r)), Str(FormatInt(c.g)), Str(FormatInt(c.b)), Str(FormatInt(c.a))])
  }

  /**
   * `Stroke.to_sexp` with the style written as its value, which is what the decoder
   * accepts and what the sample files hold.
   */
  function ToSexp(s: Stroke): (r: Node)
    ensures r.List? && |r.items| == (if s.color.Some? then 4 else 3)
    ensures r.items[0] == Str("stroke")
    ensures r.items[2] == List([Str("type"), Str(StrokeTypeName(s.kind))])
  {
    List([Str("stroke"), List([Str("width"), Str(FormatNum(s.width))]), List([Str("type"), Str(StrokeTypeName(s.kind))])]
      + (if s.color.Some? then [ColorToSexp(s.color.value)] else []))
  }

  /**
   * `Stroke.to_sexp` as written: the style enters the list as the enumeration member,
   * whose `str()` is `StrokeType.MEMBER` and not the style's value.
   */
  function ToSexpAsWritten(s: Stroke): (r: Node)
    ensures r.List? && |r.items| == (if s.color.Some? then 4 else 3)
    ensures r.items[2] == List([Str("type"), Str(StrokeTypeStr(s.kind))])
  {
    List([Str("stroke"), List([Str("width"), Str(FormatNum(s.width))]), List([Str("type"), Str(StrokeTypeStr(s.kind))])]
      + (if s.color.Some? then [ColorToSexp(s.color.value)] else []))
  }

  // ----- lemmas -----

  /** The checks after the header, in the order the decoder makes them. */
  lemma FromSexpFieldErrors(data: Node)
    requires data.List? && |data.items| >= 3 && StrOf(data.items[0]) == "stroke"
    ensures !(data.items[1].List? && |data.items[1].items| == 2) ==>
      FromSexp(data) == Failure(InvalidWidthFormat)
    ensures data.items[1].List? && |data.items[1].items| == 2 && !(data.items[2].List? && |data.items[2].items| == 2) ==>
      FromSexp(data) == Failure(InvalidTypeFormat)
    ensures data.items[1].List? && |data.items[1].items| == 2 && data.items[2].List? && |data.items[2].items| == 2 ==>
      && (StrOf(data.items[1].items[0]) != "width" ==> FromSexp(data) == Failure(MissingWidthSymbol))
      && (IsPair(data.items[1], "width") && StrOf(data.items[2].items[0]) != "type" ==>
           FromSexp(data) == Failure(MissingTypeSymbol))
      && (IsPair(data.items[1], "width") && IsPair(data.items[2], "type") ==>
           (FromSexp(data) == Failure(InvalidStrokeValues) <==>
             ToFloat(data.items[1].items[1]).None? || StrokeTypeFromName(StrOf(data.items[2].items[1])).None?))
  {
  }

  /** With valid width and type, success depends only on the optional fourth element. */
  lemma FromSexpColorErrors(data: Node)
    requires data.List? && |data.items| >= 3 && StrOf(data.items[0]) == "stroke"
    requires IsPair(data.items[1], "width") && IsPair(data.items[2], "type")
    requires ToFloat(data.items[1].items[1]).Some?
    requires StrokeTypeFromName(StrOf(data.items[2].items[1])).Some?
    ensures |data.items| == 3 ==> FromSexp(data).Success? && FromSexp(data).value.color == None
    ensures |data.items| > 3 ==>
      (FromSexp(data).Success? <==> ColorFromSexp(data.items[3]).Success?)
      && (ColorFromSexp(data.items[3]).Failure? ==>
            FromSexp(data) == Failure(ColorFromSexp(data.items[3]).error))
  {
  }

  /** Elements after the fourth are never inspected. */
  lemma FromSexpIgnoresExtra(items: seq<Node>, extra: seq<Node>)
    requires |items| >= 4
    ensures FromSexp(List(items + extra)) == FromSexp(List(items[..4]))
  {
    var a := items + extra;
    assert a[..4] == items[..4];
    assert forall k :: 0 <= k < 4 ==> a[k] == items[..4][k];
  }

  /** A list carrying the right tags, a readable width and the value of the style decodes to them. */
  lemma DecodesTo(n: Node, s: Stroke)
    requires n.List? && |n.items| == (if s.color.Some? then 4 else 3)
    requires StrOf(n.items[0]) == "stroke"
    requires IsPair(n.items[1], "width") && ToFloat(n.items[1].items[1]) == Some(s.width)
    requires IsPair(n.items[2], "type") && StrOf(n.items[2].items[1]) == StrokeTypeName(s.kind)
    requires s.color.Some? ==> ColorFromSexp(n.items[3]) == Success(s.color.value)
    ensures FromSexp(n) == Success(s)
  {
    StrokeTypeNames("", s.kind);
  }

  lemma ColorDecodesTo(n: Node, c: Rgba)
    requires n.List? && |n.items| == 5 && StrOf(n.items[0]) == "color"
    requires ToInt(n.items[1]) == Some(c.r) && ToInt(n.items[2]) == Some(c.g)
    requires ToInt(n.items[3]) == Some(c.b) && ToInt(n.items[4]) == Some(c.a)
    ensures ColorFromSexp(n) == Success(c)
  {
  }

  lemma SymbolizedColor(c: Rgba)
    ensures Symbolize(ColorToSexp(c)) ==
      List([Sym("color"), Sym(FormatInt(c.r)), Sym(FormatInt(c.g)), Sym(FormatInt(c.b)), Sym(FormatInt(c.a))])
  {
    NumTextIsWord(FormatInt(c.r));
    NumTextIsWord(FormatInt(c.g));
    NumTextIsWord(FormatInt(c.b));
    NumTextIsWord(FormatInt(c.a));
    SymbolizeList(ColorToSexp(c).items);
  }

  lemma ColorRoundTrip(c: Rgba)
    ensures ColorFromSexp(ColorToSexp(c)) == Success(c)
    ensures ColorFromSexp(Symbolize(ColorToSexp(c))) == Success(c)
  {
    var n := ColorToSexp(c);
    ToIntOfText(c.r);
    assert ToInt(n.items[1]) == Some(c.r);
    ToIntOfText(c.g);
    assert ToInt(n.items[2]) == Some(c.g);
    ToIntOfText(c.b);
    assert ToInt(n.items[3]) == Some(c.b);
    ToIntOfText(c.a);
    assert ToInt(n.items[4]) == Some(c.a);
    ColorDecodesTo(n, c);
    SymbolizedColor(c);
    var m := Symbolize(n);
    assert ToInt(m.items[1]) == Some(c.r);
    assert ToInt(m.items[2]) == Some(c.g);
    assert ToInt(m.items[3]) == Some(c.b);
    assert ToInt(m.items[4]) == Some(c.a);
    ColorDecodesTo(m, c);
  }

  lemma SymbolizedStroke(s: Stroke)
    ensures Symbolize(ToSexp(s)).items[0] == Sym("stroke")
    ensures Symbolize(ToSexp(s)).items[1] == List([Sym("width"), Sym(FormatNum(s.width))])
    ensures Symbolize(ToSexp(s)).items[2] == List([Sym("type"), Sym(StrokeTypeName(s.kind))])
    ensures s.color.Some? ==> Symbolize(ToSexp(s)).items[3] == Symbolize(ColorToSexp(s.color.value))
  {
    var n := ToSexp(s);
    SymbolizeList(n.items);
    SymbolizeList(n.items[1].items);
    SymbolizeList(n.items[2].items);
    NumTextIsWord(FormatNum(s.width));
    assert StrokeTypeName(s.kind)[0] != '"';
  }

  /** Decoding the encoding gives the stroke back, whether or not its atoms are symbolized. */
  lemma RoundTrip(s: Stroke)
    ensures FromSexp(ToSexp(s)) == Success(s)
    ensures FromSexp(Symbolize(ToSexp(s))) == Success(s)
  {
    ToFloatOfText(s.width);
    var n := ToSexp(s);
    if s.color.Some? {
      ColorRoundTrip(s.color.value);
      assert n.items[3] == ColorToSexp(s.color.value);
    }
    DecodesTo(n, s);
    SymbolizedStroke(s);
    var m := Symbolize(n);
    assert ToFloat(m.items[1].items[1]) == Some(s.width);
    DecodesTo(m, s);
  }

  /** As written, no stroke survives its own encoding: the style is rejected. */
  lemma RoundTripAsWrittenFails(s: Stroke)
    ensures FromSexp(ToSexpAsWritten(s)) == Failure(InvalidStrokeValues)
  {
    StrokeTypeStrRejected(s.kind);
  }
}
