/**
 * The generic node tree of the sexpdata tokenizer, which the codecs take in and give
 * out, and the Python conversions the codecs apply to a node: `str`, `float`, `int`.
 */
module Nodes {
  import opened Wrappers
  import opened Numbers

  datatype Node =
    | Sym(name: string)      // a sexpdata Symbol: a bare token
    | Str(text: string)      // a Python str: a quoted token read from text, or what an encoder emits
    | Int(i: int)            // an integer token
    | Float(f: Decimal)      // a float token
    | List(items: seq<Node>) // a parenthesised list

  /** Python's `str(n)`. Of a list only the opening '[' is modelled: no keyword starts with one. */
  function StrOf(n: Node): (s: string)
    ensures n.List? ==> s != [] && s[0] == '['
  {
    match n
    case Sym(s) => s
    case Str(s) => s
    case Int(i) => FormatInt(i)
    case Float(f) => FormatNum(f)
    case List(_) => "[...]"
  }

  /** Python's `float(n)`; `None` where Python raises ValueError or TypeError. */
  function ToFloat(n: Node): Option<Decimal> {
    match n
    case Sym(s) => ParseNum(s)
    case Str(s) => ParseNum(s)
    case Int(i) => Some(FromInt(i))
    case Float(f) => Some(f)
    case List(_) => None
  }

  /** Python's `int(n)`; `None` where Python raises ValueError or TypeError. */
  function ToInt(n: Node): Option<int> {
    match n
    case Sym(s) => ParseInt(s)
    case Str(s) => ParseInt(s)
    case Int(i) => Some(i)
    case Float(f) => Some(Truncate(f))
    case List(_) => None
  }

  /** `isinstance(n, Symbol) and n.value() == name`. */
  predicate IsSymbol(n: Node, name: string) {
    n == Sym(name)
  }

  /** Python's `xs[1:]`. */
  function Tail(xs: seq<Node>): seq<Node> {
    if xs == [] then [] else xs[1..]
  }

  /**
   * The `symbolize` helper the round-trip tests apply to an encoder's output: every plain
   * string that does not start with a double quote becomes a symbol, recursively.
   */
  function Symbolize(n: Node): (r: Node)
    ensures n.List? <==> r.List?
    ensures n.List? ==> |r.items| == |n.items|
  {
    match n
    case Str(s) => if s != [] && s[0] == '"' then n else Sym(s)
    case List(items) => List(seq(|items|, i requires 0 <= i < |items| => Symbolize(items[i])))
    case _ => n
  }

  // ----- lemmas -----

  /** Symbolizing an atom changes neither its `str`, nor its `float`, nor its `int`. */
  lemma SymbolizeAtom(n: Node)
    requires !n.List?
    ensures !Symbolize(n).List?
    ensures StrOf(Symbolize(n)) == StrOf(n)
    ensures ToFloat(Symbolize(n)) == ToFloat(n)
    ensures ToInt(Symbolize(n)) == ToInt(n)
  {
  }

  /** Symbolize applied to each node of a sequence. */
  function SymbolizeAll(xs: seq<Node>): (ys: seq<Node>)
    ensures |ys| == |xs|
  {
    seq(|xs|, i requires 0 <= i < |xs| => Symbolize(xs[i]))
  }

  lemma SymbolizeList(xs: seq<Node>)
    ensures Symbolize(List(xs)).items == SymbolizeAll(xs)
    ensures Symbolize(List(xs)) == List(SymbolizeAll(xs))
  {
  }

  lemma SymbolizeAllConcat(a: seq<Node>, b: seq<Node>)
    ensures SymbolizeAll(a + b) == SymbolizeAll(a) + SymbolizeAll(b)
  {
    assert forall i :: 0 <= i < |a| ==> (a + b)[i] == a[i];
    assert forall i :: |a| <= i < |a| + |b| ==> (a + b)[i] == b[i - |a|];
  }

  /** A list headed by a plain tag symbolizes to the tag's symbol and the symbolized rest. */
  lemma SymbolizeTagged(tag: string, xs: seq<Node>)
    requires tag != [] && tag[0] != '"'
    ensures Symbolize(List([Str(tag)] + xs)) == List([Sym(tag)] + SymbolizeAll(xs))
  {
    SymbolizeList([Str(tag)] + xs);
    SymbolizeAllConcat([Str(tag)], xs);
    SymbolizeWord(tag);
  }

  /** A plain string without a leading quote becomes the symbol of the same text. */
  lemma SymbolizeWord(s: string)
    requires s != [] && s[0] != '"'
    ensures SymbolizeAll([Str(s)]) == [Sym(s)]
  {
  }

  /** Every float is read back from the text `str` gives it, as a plain string or a symbol. */
  lemma ToFloatOfText(d: Decimal)
    ensures ToFloat(Str(FormatNum(d))) == Some(d)
    ensures Symbolize(Str(FormatNum(d))) == Sym(FormatNum(d))
    ensures ToFloat(Sym(FormatNum(d))) == Some(d)
  {
    ParseFormatNum(d);
    NumTextIsWord(FormatNum(d));
  }

  /** Every integer is read back from the text `str` gives it, as a plain string or a symbol. */
  lemma ToIntOfText(i: int)
    ensures ToInt(Str(FormatInt(i))) == Some(i)
    ensures Symbolize(Str(FormatInt(i))) == Sym(FormatInt(i))
    ensures ToInt(Sym(FormatInt(i))) == Some(i)
  {
    ParseFormatInt(i);
    NumTextIsWord(FormatInt(i));
  }
}
