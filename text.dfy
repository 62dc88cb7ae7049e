/**
 * The handful of Python string operations the codecs rely on: `str.strip()`,
 * `str.strip('"')`, `str.split()` and the whitespace-collapsing `re.sub(r'\s+', ' ', s)`,
 * and text laid out as words separated by single spaces.
 */
module Text {

  /** The whitespace set shared by `strip()`, `split()` and the regular expression `\s`. */
  predicate IsSpace(c: char) {
    || c == ' '
    || ('\t' <= c <= '\r')
    || ('\U{1C}' <= c <= '\U{1F}')
    || c == '\U{85}' || c == '\U{A0}' || c == '\U{1680}'
    || ('\U{2000}' <= c <= '\U{200A}')
    || c == '\U{2028}' || c == '\U{2029}' || c == '\U{202F}' || c == '\U{205F}' || c == '\U{3000}'
  }

  predicate NoSpace(s: string) {
    forall i :: 0 <= i < |s| ==> !IsSpace(s[i])
  }

  /** `s` with its maximal whitespace prefix removed. */
  function TrimLeft(s: string): (r: string)
    ensures |r| <= |s|
    ensures r == [] || !IsSpace(r[0])
    ensures forall i :: 0 <= i < |s| - |r| ==> IsSpace(s[i])
  {
    if s != [] && IsSpace(s[0]) then TrimLeft(s[1..]) else s
  }

  /** `s` with its maximal whitespace suffix removed. */
  function TrimRight(s: string): (r: string)
    ensures |r| <= |s| && (r != [] ==> r[0] == s[0])
    ensures r == [] || !IsSpace(r[|r| - 1])
    ensures forall i :: |r| <= i < |s| ==> IsSpace(s[i])
  {
    if s != [] && IsSpace(s[|s| - 1]) then TrimRight(s[..|s| - 1]) else s
  }

  /** Python's `s.strip()`. */
  function Strip(s: string): (r: string)
    ensures r == [] || (!IsSpace(r[0]) && !IsSpace(r[|r| - 1]))
    ensures |r| <= |s|
  {
    TrimRight(TrimLeft(s))
  }

  /** Python's `s.strip('"')`: every leading and trailing double quote goes. */
  function StripQuotes(s: string): (r: string)
    ensures r == [] || (r[0] != '"' && r[|r| - 1] != '"')
  {
    if s != [] && s[0] == '"' then StripQuotes(s[1..])
    else if s != [] && s[|s| - 1] == '"' then StripQuotes(s[..|s| - 1])
    else s
  }

  /** The longest whitespace-free prefix of `s`. */
  function Word(s: string): (w: string)
    ensures |w| <= |s| && w == s[..|w|] && NoSpace(w)
    ensures |w| == |s| || IsSpace(s[|w|])
  {
    if s == [] || IsSpace(s[0]) then [] else [s[0]] + Word(s[1..])
  }

  /** Python's `s.split()`: the maximal whitespace-free runs of `s`, in order. */
  function Split(s: string): (parts: seq<string>)
    ensures forall i :: 0 <= i < |parts| ==> IsWord(parts[i])
    decreases |s|
  {
    var t := TrimLeft(s);
    if t == [] then []
    else
      var w := Word(t);
      assert IsWord(w) && |w| <= |t| <= |s|;
      var rest := Split(t[|w|..]);
      assert forall i :: 0 < i < |rest| + 1 ==> ([w] + rest)[i] == rest[i - 1];
      [w] + rest
  }

  /** Python's `re.sub(r'\s+', ' ', s)`: every maximal whitespace run becomes one space. */
  function Collapse(s: string): (r: string)
    decreases |s|
  {
    if s == [] then []
    else if IsSpace(s[0]) then " " + Collapse(TrimLeft(s))
    else [s[0]] + Collapse(s[1..])
  }

  /** The words separated by single spaces. */
  function JoinWords(ws: seq<string>): string {
    if ws == [] then []
    else if |ws| == 1 then ws[0]
    else ws[0] + " " + JoinWords(ws[1..])
  }

  predicate IsWord(w: string) {
    w != [] && NoSpace(w)
  }

  // ----- lemmas -----

  lemma StripUnchanged(s: string)
    requires s == [] || (!IsSpace(s[0]) && !IsSpace(s[|s| - 1]))
    ensures Strip(s) == s
  {
  }

  lemma TrimLeftSpace(s: string)
    requires s == [] || !IsSpace(s[0])
    ensures TrimLeft(" " + s) == s
  {
    assert (" " + s)[1..] == s;
  }

  /** Surrounding double quotes are removed exactly when the text inside has none at its ends. */
  lemma StripQuotesOfQuoted(f: string)
    requires f != [] && f[0] != '"' && f[|f| - 1] != '"'
    ensures StripQuotes("\"" + f + "\"") == f
  {
    var q := "\"" + f + "\"";
    assert q[1..] == f + "\"";
    var g := f + "\"";
    assert StripQuotes(q) == StripQuotes(g);
    assert g[0] != '"';
    assert g[..|g| - 1] == f;
    assert StripQuotes(g) == StripQuotes(f);
    assert StripQuotes(f) == f;
  }

  lemma {:induction false} WordOfPrefix(w: string, x: string)
    requires NoSpace(w)
    requires x == [] || IsSpace(x[0])
    ensures Word(w + x) == w
  {
    if w == [] {
      assert w + x == x;
    } else {
      assert (w + x)[1..] == w[1..] + x;
      WordOfPrefix(w[1..], x);
    }
  }

  /** Splitting a space-joined list of words gives the words back. */
  lemma {:induction false} SplitJoin(ws: seq<string>)
    requires forall i :: 0 <= i < |ws| ==> IsWord(ws[i])
    ensures Split(JoinWords(ws)) == ws
  {
    if ws == [] {
    } else if |ws| == 1 {
      var w := ws[0];
      WordOfPrefix(w, []);
      assert w + [] == w;
      assert w[|w|..] == [];
    } else {
      var w := ws[0];
      var rest := JoinWords(ws[1..]);
      var j := w + " " + rest;
      assert JoinWords(ws) == j;
      assert j == w + (" " + rest);
      WordOfPrefix(w, " " + rest);
      assert IsWord(ws[1]);
      JoinStartsWithWord(ws[1..]);
      assert j[|w|..] == " " + rest;
      TrimLeftSpace(rest);
      SplitJoin(ws[1..]);
    }
  }

  lemma {:induction false} JoinStartsWithWord(ws: seq<string>)
    requires ws != []
    requires forall i :: 0 <= i < |ws| ==> IsWord(ws[i])
    ensures JoinWords(ws) != [] && !IsSpace(JoinWords(ws)[0]) && !IsSpace(JoinWords(ws)[|JoinWords(ws)| - 1])
  {
    if |ws| > 1 {
      assert IsWord(ws[0]);
      JoinStartsWithWord(ws[1..]);
    } else {
      assert IsWord(ws[0]);
    }
  }

  lemma {:induction false} CollapseWordPrefix(w: string, x: string)
    requires NoSpace(w)
    ensures Collapse(w + x) == w + Collapse(x)
  {
    if w != [] {
      assert (w + x)[1..] == w[1..] + x;
      CollapseWordPrefix(w[1..], x);
    } else {
      assert w + x == x;
    }
  }

  lemma CollapseSpacePrefix(x: string)
    requires x == [] || !IsSpace(x[0])
    ensures Collapse(" " + x) == " " + Collapse(x)
  {
    TrimLeftSpace(x);
  }

  /** A space-joined list of words followed by whitespace-free text is already collapsed. */
  lemma {:induction false} CollapseJoin(ws: seq<string>, tail: string)
    requires forall i :: 0 <= i < |ws| ==> IsWord(ws[i])
    requires NoSpace(tail)
    ensures Collapse(JoinWords(ws) + tail) == JoinWords(ws) + tail
  {
    if ws == [] {
      CollapseWordPrefix(tail, []);
      assert tail + [] == tail;
      assert JoinWords(ws) + tail == tail;
    } else if |ws| == 1 {
      CollapseWordPrefix(ws[0], tail);
      CollapseWordPrefix(tail, []);
      assert tail + [] == tail;
    } else {
      var w := ws[0];
      var rest := JoinWords(ws[1..]);
      assert JoinWords(ws) + tail == w + (" " + (rest + tail));
      assert IsWord(w);
      CollapseWordPrefix(w, " " + (rest + tail));
      JoinStartsWithWord(ws[1..]);
      CollapseSpacePrefix(rest + tail);
      CollapseJoin(ws[1..], tail);
    }
  }

  /** Splitting and joining with single spaces is stripping and collapsing the whitespace. */
  lemma JoinSplit(s: string)
    ensures JoinWords(Split(s)) == Collapse(Strip(s))
  {
    var t := TrimLeft(s);
    assert TrimLeft(t) == t;
    assert Split(s) == Split(t);
    if t != [] {
      var w, r := Decompose(t);
      JoinSplitOf(w, r);
    }
  }

  /** A text that starts with a non-space is a word followed by nothing or by whitespace. */
  lemma Decompose(t: string) returns (w: string, r: string)
    requires t != [] && !IsSpace(t[0])
    ensures IsWord(w) && (r == [] || IsSpace(r[0])) && t == w + r
  {
    w := Word(t);
    r := t[|w|..];
  }

  lemma {:induction false} JoinSplitOf(w: string, r: string)
    requires IsWord(w) && (r == [] || IsSpace(r[0]))
    ensures JoinWords(Split(w + r)) == Collapse(TrimRight(w + r))
    decreases |w + r|
  {
    SplitWord(w, r);
    if TrimLeft(r) == [] {
      JoinSplitLast(w, r);
    } else {
      var sp, u := SpaceRun(r);
      var w', r' := Decompose(u);
      JoinSplitOf(w', r');
      JoinSplitRest(w, r, sp, u);
    }
  }

  /** The inductive case: the word, then the split of the text after the whitespace run. */
  lemma JoinSplitRest(w: string, r: string, sp: string, u: string)
    requires IsWord(w)
    requires sp != [] && forall i :: 0 <= i < |sp| ==> IsSpace(sp[i])
    requires u != [] && !IsSpace(u[0]) && r == sp + u && Split(r) == Split(u)
    requires JoinWords(Split(u)) == Collapse(TrimRight(u))
    ensures JoinWords([w] + Split(r)) == Collapse(TrimRight(w + r))
  {
    JoinSplitStep(w, sp, u);
    ConcatAssoc(w, sp, u);
  }

  /** Stated on its own, associativity costs the solver little. */
  lemma ConcatAssoc(a: string, b: string, c: string)
    ensures a + (b + c) == a + b + c
  {
  }

  /** One more word in front: both sides gain the word and one space. */
  lemma JoinSplitStep(w: string, sp: string, u: string)
    requires IsWord(w)
    requires sp != [] && forall i :: 0 <= i < |sp| ==> IsSpace(sp[i])
    requires u != [] && !IsSpace(u[0])
    requires JoinWords(Split(u)) == Collapse(TrimRight(u))
    ensures JoinWords([w] + Split(u)) == Collapse(TrimRight(w + sp + u))
  {
    JoinWordsCons(w, u);
    CollapseTrimmedRun(w, sp, u);
  }

  /** The last word: only whitespace follows it. */
  lemma JoinSplitLast(w: string, r: string)
    requires IsWord(w) && TrimLeft(r) == []
    ensures JoinWords([w] + Split(r)) == Collapse(TrimRight(w + r))
  {
    assert Split(r) == [];
    TrimRightSpaces(w, r);
    CollapseWordPrefix(w, []);
    assert w + [] == w;
  }

  /** A text that starts with whitespace and holds a non-space: a whitespace run, then the rest. */
  lemma SpaceRun(r: string) returns (sp: string, u: string)
    requires r != [] && IsSpace(r[0]) && TrimLeft(r) != []
    ensures sp != [] && (forall i :: 0 <= i < |sp| ==> IsSpace(sp[i]))
    ensures u != [] && !IsSpace(u[0]) && r == sp + u && Split(r) == Split(u)
  {
    u := TrimLeft(r);
    TrimLeftSuffix(r);
    SplitTrimLeft(r);
    sp := r[..|r| - |u|];
  }

  /** Splitting a word followed by whitespace gives the word, then the split of the rest. */
  lemma SplitWord(w: string, r: string)
    requires IsWord(w) && (r == [] || IsSpace(r[0]))
    ensures Split(w + r) == [w] + Split(r)
  {
    WordOfPrefix(w, r);
    var t := w + r;
    assert TrimLeft(t) == t;
    assert t[|w|..] == r;
  }

  lemma SplitTrimLeft(r: string)
    ensures Split(r) == Split(TrimLeft(r))
  {
    var u := TrimLeft(r);
    assert TrimLeft(u) == u;
  }

  lemma {:induction false} TrimLeftSuffix(s: string)
    ensures TrimLeft(s) == s[|s| - |TrimLeft(s)|..]
    decreases |s|
  {
    if s != [] && IsSpace(s[0]) {
      TrimLeftSuffix(s[1..]);
      assert s[1..][|s| - 1 - |TrimLeft(s)|..] == s[|s| - |TrimLeft(s)|..];
    }
  }

  /** A word in front of a non-empty split is joined with one space. */
  lemma JoinWordsCons(w: string, u: string)
    requires IsWord(w)
    requires u != [] && !IsSpace(u[0])
    ensures JoinWords([w] + Split(u)) == w + " " + JoinWords(Split(u))
  {
    var a, b := Decompose(u);
    SplitWord(a, b);
    var ws := Split(u);
    assert ([w] + ws)[1..] == ws;
  }

  /** A word, a whitespace run and text that starts with a non-space, right-trimmed and collapsed. */
  lemma CollapseTrimmedRun(w: string, sp: string, u: string)
    requires IsWord(w)
    requires sp != [] && forall i :: 0 <= i < |sp| ==> IsSpace(sp[i])
    requires u != [] && !IsSpace(u[0])
    ensures Collapse(TrimRight(w + sp + u)) == w + " " + Collapse(TrimRight(u))
  {
    TrimRightKeep(w + sp, u);
    TrimRightStart(u);
    CollapseWordRun(w, sp, TrimRight(u));
  }
  /** Right-trimming keeps a leading non-space. */
  lemma TrimRightStart(u: string)
    requires u != [] && !IsSpace(u[0])
    ensures TrimRight(u) != [] && !IsSpace(TrimRight(u)[0])
  {
  }
  /** A word and a whitespace run collapse to the word and one space. */
  lemma CollapseWordRun(w: string, sp: string, v: string)
    requires IsWord(w)
    requires sp != [] && forall i :: 0 <= i < |sp| ==> IsSpace(sp[i])
    requires v != [] && !IsSpace(v[0])
    ensures Collapse(w + sp + v) == w + " " + Collapse(v)
  {
    assert (w + sp) + v == w + (sp + v);
    CollapseWordPrefix(w, sp + v);
    CollapseSpaceRun(sp, v);
  }
  /** A whitespace run collapses to one space. */
  lemma CollapseSpaceRun(sp: string, v: string)
    requires sp != [] && forall i :: 0 <= i < |sp| ==> IsSpace(sp[i])
    requires v != [] && !IsSpace(v[0])
    ensures Collapse(sp + v) == " " + Collapse(v)
  {
    TrimLeftSpaces(sp, v);
    assert (sp + v)[0] == sp[0];
  }

  /** Trailing whitespace after a word goes. */
  lemma {:induction false} TrimRightSpaces(w: string, r: string)
    requires w == [] || !IsSpace(w[|w| - 1])
    requires forall i :: 0 <= i < |r| ==> IsSpace(r[i])
    ensures TrimRight(w + r) == w
    decreases |r|
  {
    if r == [] {
      assert w + r == w;
    } else {
      assert (w + r)[..|w + r| - 1] == w + r[..|r| - 1];
      TrimRightSpaces(w, r[..|r| - 1]);
    }
  }

  /** Trimming on the right stops inside a suffix that starts with a non-space. */
  lemma {:induction false} TrimRightKeep(a: string, b: string)
    requires b != [] && !IsSpace(b[0])
    ensures TrimRight(a + b) == a + TrimRight(b)
    decreases |b|
  {
    if IsSpace(b[|b| - 1]) {
      var b' := b[..|b| - 1];
      assert b' != [] && b'[0] == b[0];
      assert (a + b)[..|a + b| - 1] == a + b';
      TrimRightKeep(a, b');
    }
  }

  /** Trimming on the left removes a whole run of whitespace. */
  lemma {:induction false} TrimLeftSpaces(sp: string, v: string)
    requires forall i :: 0 <= i < |sp| ==> IsSpace(sp[i])
    requires v == [] || !IsSpace(v[0])
    ensures TrimLeft(sp + v) == v
    decreases |sp|
  {
    if sp == [] {
      assert sp + v == v;
    } else {
      assert (sp + v)[1..] == sp[1..] + v;
      TrimLeftSpaces(sp[1..], v);
    }
  }
}
