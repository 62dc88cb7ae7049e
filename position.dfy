/**
 * The position-identifier codec, which works on text rather than on a node tree:
 * `(at X Y)` or `(at X Y ANGLE)`, with any run of whitespace counting as one space.
 */
module PositionCodec {
  import opened Wrappers
  import opened Text
  import opened Numbers
  import opened Models

  datatype PositionError =
    | InvalidFormat          // after normalizing, the text does not start with `(at` and end with `)`
    | WrongArity             // there are not two or three components
    | InvalidNumericValues   // a component is no number

  /** The text after stripping and collapsing whitespace. */
  function NormalizeSpace(s: string): string {
    Collapse(Strip(s))
  }

  predicate Framed(n: string) {
    |n| >= 3 && n[..3] == "(at" && n != [] && n[|n| - 1] == ')'
  }

  /** The whitespace-separated words between `(at` and the closing parenthesis. */
  function Components(n: string): seq<string>
    requires Framed(n)
  {
    Split(Strip(n[3..|n| - 1]))
  }

  /** `PositionIdentifier.from_sexpr`. */
  function FromSexpr(s: string): (r: Result<Position, PositionError>)
    ensures !Framed(NormalizeSpace(s)) ==> r == Failure(InvalidFormat)
    ensures Framed(NormalizeSpace(s)) && !(2 <= |Components(NormalizeSpace(s))| <= 3) ==> r == Failure(WrongArity)
    ensures r.Success? <==>
      && Framed(NormalizeSpace(s))
      && var parts := Components(NormalizeSpace(s));
      && 2 <= |parts| <= 3
      && ParseNum(parts[0]).Some? && ParseNum(parts[1]).Some?
      && (|parts| == 3 ==> ParseNum(parts[2]).Some?)
    ensures r.Success? ==>
      && Framed(NormalizeSpace(s))
      && var parts := Components(NormalizeSpace(s));
      && 2 <= |parts| <= 3
      && ParseNum(parts[0]) == Some(r.value.x)
      && ParseNum(parts[1]) == Some(r.value.y)
      // the angle is present exactly when there is a third component, and is read from it
      && (r.value.angle.None? <==> |parts| == 2)
      && (|parts| == 3 ==> ParseNum(parts[2]) == r.value.angle)
    ensures r == Failure(InvalidNumericValues) <==>
      && Framed(NormalizeSpace(s))
      && var parts := Components(NormalizeSpace(s));
      && 2 <= |parts| <= 3
      && (ParseNum(parts[0]).None? || ParseNum(parts[1]).None? || (|parts| == 3 && ParseNum(parts[2]).None?))
  {
    var n := NormalizeSpace(s);
    if !(|n| >= 3 && n[..3] == "(at") || !(n != [] && n[|n| - 1] == ')') then Failure(InvalidFormat)
    else
      var parts := Split(Strip(n[3..|n| - 1]));
      if |parts| < 2 || |parts| > 3 then Failure(WrongArity)
      else
        match (ParseNum(parts[0]), ParseNum(parts[1]), if |parts| == 3 then ParseNum(parts[2]) else Some(Dec(0, 0)))
        case (Some(x), Some(y), Some(a)) => Success(Position(x, y, if |parts| == 3 then Some(a) else None))
        case _ => Failure(InvalidNumericValues)
  }

  /** The components `to_sexpr` writes. */
  function Words(p: Position): seq<string> {
    [FormatNum(p.x), FormatNum(p.y)] + (if p.angle.Some? then [FormatNum(p.angle.value)] else [])
  }

  /** `PositionIdentifier.to_sexpr`. */
  function ToSexpr(p: Position): (s: string)
    ensures |s| >= 4 && s[..4] == "(at " && s[|s| - 1] == ')'
  {
    if p.angle.Some? then "(at " + FormatNum(p.x) + " " + FormatNum(p.y) + " " + FormatNum(p.angle.value) + ")"
    else "(at " + FormatNum(p.x) + " " + FormatNum(p.y) + ")"
  }

  // ----- lemmas -----

  lemma WordsAreWords(p: Position)
    ensures forall i :: 0 <= i < |Words(p)| ==> IsWord(Words(p)[i])
    ensures 2 <= |Words(p)| <= 3
  {
    NumTextIsWord(FormatNum(p.x));
    NumTextIsWord(FormatNum(p.y));
    if p.angle.Some? {
      NumTextIsWord(FormatNum(p.angle.value));
    }
  }

  /** The encoding is the keyword and the space-joined components. */
  lemma ToSexprJoin(p: Position)
    ensures ToSexpr(p) == "(at" + (" " + (JoinWords(Words(p)) + ")"))
  {
    var x, y := FormatNum(p.x), FormatNum(p.y);
    if p.angle.Some? {
      var a := FormatNum(p.angle.value);
      assert Words(p) == [x, y, a];
      JoinThree(x, y, a);
      FrameThree(x, y, a);
    } else {
      assert Words(p) == [x, y];
      JoinTwo(x, y);
      FrameTwo(x, y);
    }
  }

  lemma JoinTwo(x: string, y: string)
    ensures JoinWords([x, y]) == x + " " + y
  {
    assert [x, y][1..] == [y];
  }

  lemma JoinThree(x: string, y: string, a: string)
    ensures JoinWords([x, y, a]) == x + " " + (y + " " + a)
  {
    assert [x, y, a][1..] == [y, a];
    JoinTwo(y, a);
  }

  lemma FrameTwo(x: string, y: string)
    ensures "(at " + x + " " + y + ")" == "(at" + (" " + ((x + " " + y) + ")"))
  {
  }

  lemma FrameThree(x: string, y: string, a: string)
    ensures "(at " + x + " " + y + " " + a + ")" == "(at" + (" " + ((x + " " + (y + " " + a)) + ")"))
  {
  }

  /** The encoding is already normalized. */
  lemma ToSexprNormal(p: Position)
    ensures NormalizeSpace(ToSexpr(p)) == ToSexpr(p)
  {
    var s := ToSexpr(p);
    var ws := Words(p);
    var j := JoinWords(ws);
    WordsAreWords(p);
    ToSexprJoin(p);
    JoinStartsWithWord(ws);
    StripUnchanged(s);
    CollapseWordPrefix("(at", " " + (j + ")"));
    CollapseSpacePrefix(j + ")");
    assert NoSpace(")");
    CollapseJoin(ws, ")");
  }

  /** The text between the keyword and the closing parenthesis strips to the joined words. */
  lemma FramedInner(j: string)
    requires j != [] && !IsSpace(j[0]) && !IsSpace(j[|j| - 1])
    ensures Framed("(at" + (" " + (j + ")")))
    ensures Strip(("(at" + (" " + (j + ")")))[3..|"(at" + (" " + (j + ")"))| - 1]) == j
  {
    var s := "(at" + (" " + (j + ")"));
    assert s[..3] == "(at";
    assert s[3..|s| - 1] == " " + j;
    TrimLeftSpace(j);
    StripUnchanged(j);
  }

  /** Reading the encoding back gives the components that were written. */
  lemma ToSexprComponents(p: Position)
    ensures Framed(NormalizeSpace(ToSexpr(p)))
    ensures Components(NormalizeSpace(ToSexpr(p))) == Words(p)
  {
    ToSexprNormal(p);
    var ws := Words(p);
    WordsAreWords(p);
    ToSexprJoin(p);
    JoinStartsWithWord(ws);
    FramedInner(JoinWords(ws));
    SplitJoin(ws);
  }

  /** Every position survives its own encoding. */
  lemma RoundTrip(p: Position)
    ensures FromSexpr(ToSexpr(p)) == Success(p)
  {
    ToSexprComponents(p);
    ParseFormatNum(p.x);
    ParseFormatNum(p.y);
    if p.angle.Some? {
      ParseFormatNum(p.angle.value);
    }
  }

  lemma GluedNormal()
    ensures NormalizeSpace("(at1 2)") == "(at1 2)"
  {
    GluedStrip();
    GluedCollapse();
  }

  lemma GluedStrip()
    ensures Strip("(at1 2)") == "(at1 2)"
  {
    var n := "(at1 2)";
    assert !IsSpace(n[0]) && !IsSpace(n[|n| - 1]);
    StripUnchanged(n);
  }

  lemma GluedCollapse()
    ensures Collapse("(at1 2)") == "(at1 2)"
  {
    assert NoSpace("(at1") && NoSpace("2)");
    CollapseWordPrefix("(at1", " 2)");
    CollapseSpacePrefix("2)");
    CollapseWordPrefix("2)", []);
    assert "2)" + [] == "2)";
    assert " " + "2)" == " 2)";
    assert "(at1" + " 2)" == "(at1 2)";
  }

  lemma GluedComponents()
    ensures Framed("(at1 2)") && Components("(at1 2)") == ["1", "2"]
  {
    var n := "(at1 2)";
    assert n[3..|n| - 1] == "1 2";
    StripUnchanged("1 2");
    SplitJoin(["1", "2"]);
    assert JoinWords(["1", "2"]) == "1 2";
  }

  /** Two readable components give a position without an angle. */
  lemma FromSexprTwo(s: string, a: string, b: string, x: Decimal, y: Decimal)
    requires Framed(NormalizeSpace(s)) && Components(NormalizeSpace(s)) == [a, b]
    requires ParseNum(a) == Some(x) && ParseNum(b) == Some(y)
    ensures FromSexpr(s) == Success(Position(x, y, None))
  {
  }

  /** The keyword need not be followed by whitespace: the first component may be glued to it. */
  lemma GluedKeywordAccepted()
    ensures FromSexpr("(at1 2)") == Success(Position(One, Dec(2, 0), None))
  {
    GluedNormal();
    GluedComponents();
    ParseWhole("1");
    ParseWhole("2");
    assert DigitsValue("1") == 1 && DigitsValue("2") == 2;
    FromSexprTwo("(at1 2)", "1", "2", One, Dec(2, 0));
  }
}
