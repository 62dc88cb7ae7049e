# kicad-lib-parse tree codec, modelled in Dafny

This project models the core of `kicad-lib-parse`, a Python library that reads and writes
KiCad footprint data. The library's tokenizer turns footprint text into a nested tree of
symbols, strings, numbers and lists. The core modelled here sits on top of that tree:

- the two closed vocabularies, board layers and stroke line styles;
- the typed records of a footprint, with the constraints the record declarations impose;
- the codecs between tree nodes and records for strokes, point lists and text effects;
- a text codec for the position identifier `(at X Y [ANGLE])`.

Each decoder either yields a record or fails with the error the source raises, and it makes
its checks in the source's order. Each encoder yields the node tree the source builds.

Modules:

- `Wrappers`: `Option` and `Result`.
- `Text`: the Python string operations used: `strip()`, `strip('"')`, `split()` and whitespace
  collapsing with `re.sub`, over the whitespace set these share. `JoinWords` lays words out
  with single spaces, as the f-strings of `Position.to_sexpr` do.
- `Numbers`: floats as canonical decimal fractions, with Python's `float()`, `int()`, `str()`.
  `float(str(x)) == x` and `int(str(i)) == i` are proved.
- `Nodes`: the tree (`Sym`, `Str`, `Int`, `Float`, `List`), the conversions `str`, `float` and
  `int` of a node, and the `symbolize` helper of test/test_text_effects.py.
- `Vocabulary`: `Layer` and `StrokeType`, with lookup by name.
- `Models`: the records `Font`, `TextEffects`, `Stroke`, `Point`, `Points`, `Position`,
  `Property`, `Polygon`, `Line`, `Pad`, `Footprint`, each with its validity predicate where the
  declaration has a constraint.
- `StrokeCodec`, `PointsCodec`, `EffectsCodec`: the tree codecs. `PositionCodec`: the text codec.

A decoder whose source runs a loop is a `method` with that loop. It is proved equal to a
specification function (`Decode`, `FontOf`), and the properties are proved about the function.
This covers the text-effects and point-list decoders and the text-effects encoder.
The body of the font loop (`ApplyFontItem`) and of the point loop (`ReadPoint`), and the font half
of the encoder (`FontToSexp`), are methods of their own. Each is proved equal to its
specification function, and the enclosing method calls it in place of the inline code.
Decoders without a loop are functions.

Three facts about the source that the model carries over:

- A point list with no points, `(pts)`, is rejected: `Points.from_sexp` requires `len(data) >= 2` (src/models.py:266).
- A stroke width has no lower bound: `Stroke.width` is declared without a `Field` constraint (src/models.py:178).
- A polygon's `fill` is free text: `Polygon.fill` is a plain `str` (src/models.py:296).

## Model

| member | source | states |
|---|---|---|
| Vocabulary.LayerFromName | src/models.py:7-14 | a name found in the vocabulary is that layer's name |
| Vocabulary.LayerNames | src/models.py:7-14 | every layer is found by its name; lookup fails exactly for strings that are no layer's name |
| Vocabulary.LayerNameInjective | src/models.py:7-14 | distinct layers have distinct names |
| Vocabulary.StrokeTypeFromName | src/models.py:16-22 | a style found by value carries that value |
| Vocabulary.StrokeTypeNames | src/models.py:16-22 | every style is found by its value; lookup fails exactly for strings that are no style's value |
| Vocabulary.StrokeTypeStr | src/models.py:16-22 | for every member, the text `str()` gives is longer than `StrokeType.` and starts with it |
| Vocabulary.StrokeTypeStrRejected | src/models.py:215 | the `str()` of a member is never accepted as a style value |
| Models.HJustifyOf | src/models.py:44 | a token read as horizontal justification is that justification's name |
| Models.VJustifyOf | src/models.py:45 | a token read as vertical justification is that justification's name |
| Models.JustifyNames | src/models.py:44-45 | the horizontal and vertical vocabularies are disjoint, do not contain `mirror`, and read back as themselves |
| Numbers.ParseFormatNum | src/models.py:139 | `float(str(x)) == x` for every float |
| Numbers.ParseFormatInt | src/models.py:248 | `int(str(i)) == i` for every integer |
| Numbers.FormatNum | src/models.py:139 | the text of a float has at least three characters, all digits, `-` or `.` |
| Numbers.ParseWhole | src/models.py:368 | a plain digit string reads as the whole number it spells |
| Numbers.CanonicalUnique | src/models.py:27 | two canonical decimals with the same value are equal, so equality of floats is equality of values |
| Text.Split | src/models.py:362 | every part of `split()` is non-empty and free of whitespace |
| Text.SplitJoin | src/models.py:362 | splitting the space-joined words gives the words back |
| Text.JoinSplit | src/models.py:352-362 | the parts of `split()` laid out with single spaces are the stripped text with its whitespace runs collapsed |
| Text.CollapseJoin | src/models.py:352 | space-joined words followed by whitespace-free text are unchanged by whitespace collapsing |
| Text.StripQuotesOfQuoted | src/models.py:110 | `('"' + f + '"').strip('"') == f` when `f` has no quote at either end |
| Nodes.StrOf | src/models.py:68 | `str()` of a list starts with `[`, so it never equals a keyword |
| Nodes.SymbolizeAtom | src/models.py:194 | symbolizing an atom keeps its `str`, `float` and `int` |
| Nodes.ToFloatOfText | src/models.py:213 | the text of a float reads back as that float, as a string or as a symbol |
| Nodes.ToIntOfText | src/models.py:230-233 | the text of an integer reads back as that integer, as a string or as a symbol |
| StrokeCodec.ColorFromSexp | src/models.py:222-236 | wrong shape gives InvalidColorFormat and a wrong tag gives MissingColorSymbol; a channel `int()` cannot read gives InvalidColorValues; success exactly when every channel reads as an integer, each channel read from its position |
| StrokeCodec.FromSexp | src/models.py:190-238 | fewer than three elements gives InvalidStrokeDataFormat and a wrong head gives MissingStrokeSymbol; on success the width and style are read from the tagged pairs, and a colour is present exactly when a fourth element is |
| StrokeCodec.FromSexpFieldErrors | src/models.py:200-218 | malformed width or type pairs, wrong tags and unreadable values give their errors, in the source's order |
| StrokeCodec.FromSexpColorErrors | src/models.py:220-236 | with valid width and style, three elements succeed without a colour; with four, success is exactly the colour's success, and its error is passed on |
| StrokeCodec.FromSexpIgnoresExtra | src/models.py:190-238 | elements after the fourth never change the result |
| StrokeCodec.ToSexp | src/models.py:240-249 | four elements when there is a colour and three otherwise; the style is written as its value |
| StrokeCodec.ToSexpAsWritten | src/models.py:240-249 | as written, the style element holds the member's `str()`, `StrokeType.MEMBER` |
| StrokeCodec.RoundTrip | src/models.py:183-249 | decoding the (corrected) encoding gives every stroke back, with or without symbolizing |
| StrokeCodec.RoundTripAsWrittenFails | src/models.py:245 | as written, decoding the encoding fails with InvalidStrokeValues for every stroke |
| PointsCodec.PointFromSexp | src/models.py:274-285 | wrong shape gives InvalidPointFormat, a wrong tag MissingXySymbol, and a coordinate `float()` cannot read InvalidPointCoordinates; on success x and y are read from their positions |
| PointsCodec.PointsFrom | src/models.py:272-285 | success exactly when every item is a point, with one point per item in order; otherwise the error of the first item that is not a point |
| PointsCodec.FromSexp | src/models.py:260-287 | the loop returns exactly what the specification `Decode` gives |
| PointsCodec.ReadPoint | src/models.py:274-285 | one pass of the loop body returns exactly what `PointFromSexp` gives for the item |
| PointsCodec.ToSexp | src/models.py:289-291 | `1 + n` elements, `pts` first, and `['xy', str(x), str(y)]` for point `i` at position `i + 1` |
| PointsCodec.FirstFailure | src/models.py:273-285 | the first item that is not a point decides the error |
| PointsCodec.PointsFromAppend | src/models.py:272-287 | decoding a concatenation concatenates the decoded points, so order is kept |
| PointsCodec.PlainEncodingRejected | src/models.py:269-270 | the decoder needs symbol tags: an unsymbolized encoding fails with MissingPtsSymbol |
| PointsCodec.EmptyRejected | src/models.py:266-267 | the encoding of an empty point list is rejected |
| PointsCodec.RoundTrip | src/models.py:260-291 | every non-empty point list decodes from its symbolized encoding unchanged |
| EffectsCodec.ParseFont | src/models.py:91-129 | the loop returns exactly what the specification `FontOf` gives |
| EffectsCodec.ApplyFontItem | src/models.py:105-127 | one pass of the loop body updates the settings, or fails, exactly as the specification `FontStep` says |
| EffectsCodec.FromSexp | src/models.py:50-89 | the two loops return exactly what the specification `Decode` gives |
| EffectsCodec.ToSexp | src/models.py:131-164 | the appends build exactly the specification `Encode` |
| EffectsCodec.FontToSexp | src/models.py:136-148 | the font half of the encoder builds exactly the specification `FontNode` |
| EffectsCodec.JustifyScanH | src/models.py:73-76 | the last `left`/`right` token wins; without one the value is unchanged |
| EffectsCodec.JustifyScanV | src/models.py:73-78 | the last `top`/`bottom` token wins; without one the value is unchanged |
| EffectsCodec.JustifyScanMirror | src/models.py:79-80 | `mirror` is set by any `mirror` token; the font and `hide` are untouched |
| EffectsCodec.TailScanFailure | src/models.py:68-70 | the scan fails exactly when some element is a bare `(font)`, always with MissingFontSettings |
| EffectsCodec.TailScanFont | src/models.py:68-71 | the last `(font ...)` element wins; without one the font stays unset |
| EffectsCodec.TailScanHide | src/models.py:81-82 | `hide` is set exactly when some element is a bare `hide` |
| EffectsCodec.TailScanSkip | src/models.py:64-82 | removing an element the scan skips changes nothing |
| EffectsCodec.TailScanJustify | src/models.py:72-80 | all `(justify ...)` elements act as one: justification and `mirror` come out as one justify scan over the tokens of every justify element, in order |
| EffectsCodec.FontScanSkip | src/models.py:104-127 | removing an element the font scan skips changes nothing |
| EffectsCodec.ShortSizeFails | src/models.py:111-113 | a `(size N)` with one number fails with MissingFontSettings when reached |
| EffectsCodec.FontStepNumber | src/models.py:111-123 | one font element fails with InvalidFontNumber exactly when it is a size, thickness or line spacing whose number `float()` cannot read |
| EffectsCodec.FontScanFailsAt | src/models.py:104-127 | a failing font scan fails at one element, every earlier element having been accepted |
| EffectsCodec.FontOfNumber | src/models.py:104-123 | InvalidFontNumber is raised exactly when the scan reaches an unreadable number after accepting every earlier element |
| EffectsCodec.FontScanNotInvalid | src/models.py:104-127 | the element scan never reports InvalidFont |
| EffectsCodec.FontOfInvalid | src/models.py:27-32 | InvalidFont is raised exactly when every element is accepted but the resulting font breaks a `ge=0` constraint |
| EffectsCodec.FontOf | src/models.py:27-32 | a font `_parse_font` returns satisfies every `ge=0` constraint of the declaration |
| EffectsCodec.Decode | src/models.py:50-89 | a decoded text effects value always holds a font that satisfies its declared constraints |
| EffectsCodec.FontScanLast | src/models.py:104-123 | each of face, size, thickness and line spacing is set by the last element of its kind, and keeps its starting value without one |
| EffectsCodec.FontScanFields | src/models.py:109-115 | the face is the quote-stripped text of the last face element, or unchanged without one; height and width are the two numbers of the last size element |
| EffectsCodec.FontScanThickness | src/models.py:116-119 | the thickness is the number of the last thickness element, or unchanged without one |
| EffectsCodec.FontScanSpacing | src/models.py:120-123 | the line spacing is the number of the last line-spacing element, or unchanged without one |
| EffectsCodec.FontOfFields | src/models.py:91-129 | the font `_parse_font` returns takes its face, height and width, thickness and line spacing from the last element of each kind; without a face, thickness or line-spacing element that setting is unset |
| EffectsCodec.FontScanSizes | src/models.py:111-115 | without a `(size ...)` element height and width keep their values |
| EffectsCodec.FontScanFlags | src/models.py:124-127 | `bold` and `italic` are set exactly by the bare words |
| EffectsCodec.DefaultSize | src/models.py:94-102 | a font list without `(size ...)` gives 1.0 by 1.0 |
| EffectsCodec.MissingFontSettingsCases | src/models.py:52-85 | a short or untagged header, a bare `(font)` anywhere, or no font element all give MissingFontSettings |
| EffectsCodec.DecodeFields | src/models.py:64-89 | a successful decode has its `hide` from a bare `hide`, its font from the last font element, its horizontal and vertical justification from the last `left`/`right` and the last `top`/`bottom` token over all justify elements (unset without one), and `mirror` exactly when some justify element holds `mirror` |
| EffectsCodec.DecodeSkip | src/models.py:64-89 | removing an element that is not a font, justify or `hide` element leaves the decoded value unchanged |
| EffectsCodec.EncodeDecode | src/models.py:50-164 | decoding the symbolized encoding gives the effects back, with an empty face and zero sizes dropped |
| EffectsCodec.RoundTrip | src/models.py:50-164 | without an empty face, a quote at the ends of the face, or a zero thickness or line spacing, the round trip is exact |
| PositionCodec.FromSexpr | src/models.py:338-373 | unframed text gives InvalidFormat and other than two or three components gives WrongArity; InvalidNumericValues exactly when a component is no number; success exactly for framed text with two or three components that all read as numbers, the angle present exactly with three |
| PositionCodec.ToSexpr | src/models.py:375-379 | the text starts with `(at ` and ends with `)` |
| PositionCodec.ToSexprNormal | src/models.py:352 | the encoding is already stripped and collapsed |
| PositionCodec.ToSexprComponents | src/models.py:359-362 | the components read back from the encoding are the ones written |
| PositionCodec.RoundTrip | src/models.py:338-379 | every position survives its own encoding |
| PositionCodec.GluedKeywordAccepted | src/models.py:355-359 | `(at1 2)` is accepted as the position (1, 2): the keyword need not be followed by whitespace |

## Findings

| source | as written | input that shows it | evidently intended | confidence | as-written member | corrected member |
|---|---|---|---|---|---|---|
| src/models.py:245 | `to_sexp` puts the `StrokeType` member itself in the list; `str()` of a `(str, Enum)` member is `StrokeType.SOLID`, which `from_sexp` rejects | `Stroke(width=0.1, type="solid").to_sexp()` decoded with `from_sexp` raises "Invalid stroke values" | the style's value, `"solid"`, so that decoding the encoding gives the stroke back | medium, not executed (depends on the Python version's enum `__str__`) | StrokeCodec.RoundTripAsWrittenFails | StrokeCodec.RoundTrip |

## Left out

- Floats are exact decimal fractions. IEEE rounding, exponent notation (`1e-05`), `inf` and `nan` are not modelled. Numbers are read from ASCII digits only: the digit underscores (`1_000`) and the non-ASCII decimal digits that both `float()` and `int()` accept are not modelled, so a size, coordinate or colour channel written that way is rejected by the model and accepted by the source.
- Nodes.StrOf: `str()` of a list is the constant `[...]`, not Python's rendering of the list. Wherever it is compared with a keyword this changes nothing: both texts start with `[`, and no keyword does. It does change the one place where the text is kept: a list-valued face, as in `(effects (font (face (KiCad)) (size 1 1)))`, becomes the face `[Symbol('KiCad')]` in the source (src/models.py:110) and `[...]` in the model.
- The sexpdata tokenizer and writer (text to tree and back) are not part of this model, so the tree codecs' round trips are stated on trees. The `symbolize` helper of test/test_text_effects.py stands in for the tokenizer's symbols.
- src/io.py, src/main.py, src/__init__.py and the example script are not part of this model.
- The polygon, image, UUID, page-settings, property-with-key and 3D-model codecs named in the repository's test files are not part of this model, because their implementation is not in src/models.py.
- Polygon, Line, Pad, Property and Footprint carry data only: no codec of theirs is in the core.
- Pydantic's coercion and error reporting become validity predicates. Building a `Font` from the parsed fields is checked with `Font.Valid`, which fails with InvalidFont.
- The thickness and line-spacing branches' own `len(item) < 2` checks (src/models.py:117-118, 121-122) cannot fire: shorter lists are skipped first at line 106. The model has no such branch.
- The debugging `print(data)` in `Stroke.from_sexp` is output only and is left out.
- A decoded `Stroke` holds the style as the enumeration member; the model holds it as a `StrokeType` value. Python's equality of a member with its string value is not modelled.
- The error messages' text (which embeds the offending data) is reduced to one error constructor per message the source raises.
- EffectsCodec.FontStepNumber: the `float()` calls of `_parse_font` (src/models.py:114-123) sit in no `try`, so the source has no message of its own there. Unreadable text such as `(size x 1)` raises `float()`'s own `ValueError`, and a list such as `(size (1) 2)` raises a `TypeError`, which is not a `ValueError`. The model merges both exception classes and `float()`'s text into the one constructor InvalidFontNumber.
