/**
 * The point-list codec: `(pts (xy X1 Y1) (xy X2 Y2) ...)`. Tags must be symbols; the
 * decoder stops at the first item that is not a point.
 */
module PointsCodec {
  import opened Wrappers
  import opened Numbers
  import opened Nodes
  import opened Models

  datatype PointsError =
    | InvalidPointsDataFormat   // not a list, or fewer than two elements
    | MissingPtsSymbol          // the head is not the symbol `pts`
    | InvalidPointFormat        // an item is not a three-element list
    | MissingXySymbol           // an item's head is not the symbol `xy`
    | InvalidPointCoordinates   // a coordinate is no number

  /** One `(xy X Y)` item. */
  function PointFromSexp(item: Node): (r: Result<Point, PointsError>)
    ensures !(item.List? && |item.items| == 3) ==> r == Failure(InvalidPointFormat)
    ensures item.List? && |item.items| == 3 && !IsSymbol(item.items[0], "xy") ==> r == Failure(MissingXySymbol)
    ensures (item.List? && |item.items| == 3 && IsSymbol(item.items[0], "xy")
             && (ToFloat(item.items[1]).None? || ToFloat(item.items[2]).None?))
            ==> r == Failure(InvalidPointCoordinates)
    ensures r.Success? <==>
      item.List? && |item.items| == 3 && IsSymbol(item.items[0], "xy")
      && ToFloat(item.items[1]).Some? && ToFloat(item.items[2]).Some?
    ensures r.Success? ==> ToFloat(item.items[1]) == Some(r.value.x) && ToFloat(item.items[2]) == Some(r.value.y)
  {
    if !item.List? || |item.items| != 3 then Failure(InvalidPointFormat)
    else if !IsSymbol(item.items[0], "xy") then Failure(MissingXySymbol)
    else
      match (ToFloat(item.items[1]), ToFloat(item.items[2]))
      case (Some(x), Some(y)) => Success(Point(x, y))
      case _ => Failure(InvalidPointCoordinates)
  }

  /** Every item read as a point, in order; or the error of the first item that is not one. */
  function PointsFrom(items: seq<Node>): (r: Result<seq<Point>, PointsError>)
    ensures r.Success? <==> forall i :: 0 <= i < |items| ==> PointFromSexp(items[i]).Success?
    ensures r.Success? ==>
      |r.value| == |items| && forall i :: 0 <= i < |items| ==> PointFromSexp(items[i]) == Success(r.value[i])
    ensures r.Failure? ==>
      exists i :: 0 <= i < |items| && PointFromSexp(items[i]) == Failure(r.error)
        && forall j :: 0 <= j < i ==> PointFromSexp(items[j]).Success?
  {
    if items == [] then Success([])
    else
      match PointFromSexp(items[0])
      case Failure(e) => Failure(e)
      case Success(p) =>
        match PointsFrom(items[1..])
        case Failure(e) =>
          ghost var i :| 0 <= i < |items[1..]| && PointFromSexp(items[1..][i]) == Failure(e)
            && forall j :: 0 <= j < i ==> PointFromSexp(items[1..][j]).Success?;
          assert PointFromSexp(items[i + 1]) == Failure(e);
          assert forall j :: 0 <= j < i + 1 ==> PointFromSexp(items[j]).Success? by {
            forall j | 0 < j < i + 1 ensures PointFromSexp(items[j]).Success? {
              assert items[j] == items[1..][j - 1];
            }
          }
          Failure(e)
        case Success(ps) =>
          assert forall i :: 0 < i < |items| ==> items[i] == items[1..][i - 1];
          Success([p] + ps)
  }

  /** `Points.from_sexp`, as a function of the node. */
  function Decode(data: Node): Result<Points, PointsError> {
    if !data.List? || |data.items| < 2 then Failure(InvalidPointsDataFormat)
    else if !IsSymbol(data.items[0], "pts") then Failure(MissingPtsSymbol)
    else
      var ps :- PointsFrom(data.items[1..]);
      Success(Points(ps))
  }

  /** `Points.from_sexp`: the header checks, then one point appended per item. */
  method FromSexp(data: Node) returns (r: Result<Points, PointsError>)
    ensures r == Decode(data)
  {
    if !data.List? || |data.items| < 2 {
      return Failure(InvalidPointsDataFormat);
    }
    if !IsSymbol(data.items[0], "pts") {
      return Failure(MissingPtsSymbol);
    }
    var items := data.items[1..];
    var points: seq<Point> := [];
    var i := 0;
    while i < |items|
      invariant 0 <= i <= |items|
      invariant PointsFrom(items[..i]) == Success(points)
    {
      var point := ReadPoint(items[i]);
      if point.Failure? {
        DecodeStops(data, i, points);
        return Failure(point.error);
      }
      PointsFromSnoc(items, i, points, point.value);
      points := points + [point.value];
      i := i + 1;
    }
    assert items[..i] == items;
    r := Success(Points(points));
  }

  /** With a valid header, the first item that is not a point decides the error. */
  lemma DecodeStops(data: Node, i: int, points: seq<Point>)
    requires data.List? && |data.items| >= 2 && IsSymbol(data.items[0], "pts")
    requires 0 <= i < |data.items| - 1
    requires PointsFrom(data.items[1..][..i]) == Success(points)
    requires PointFromSexp(data.items[1..][i]).Failure?
    ensures Decode(data) == Failure(PointFromSexp(data.items[1..][i]).error)
  {
    var items := data.items[1..];
    forall j | 0 <= j < i
      ensures PointFromSexp(items[j]).Success?
    {
      assert items[..i][j] == items[j];
    }
    FirstFailure(items, i);
  }

  /** One more point read extends the decoded prefix by that point. */
  lemma PointsFromSnoc(items: seq<Node>, i: int, points: seq<Point>, p: Point)
    requires 0 <= i < |items|
    requires PointsFrom(items[..i]) == Success(points)
    requires PointFromSexp(items[i]) == Success(p)
    ensures PointsFrom(items[..i + 1]) == Success(points + [p])
  {
    var pre, x := items[..i], items[i];
    PointsFromOne(x, p);
    PointsFromAppend(pre, [x]);
    assert items[..i + 1] == pre + [x];
  }

  lemma PointsFromOne(x: Node, p: Point)
    requires PointFromSexp(x) == Success(p)
    ensures PointsFrom([x]) == Success([p])
  {
    assert [x][1..] == [];
    assert PointsFrom([x][1..]) == Success([]);
    assert [p] + [] == [p];
  }

  /** The body of the loop of `Points.from_sexp`: one item checked and read, or the error it raises. */
  method ReadPoint(item: Node) returns (r: Result<Point, PointsError>)
    ensures r == PointFromSexp(item)
  {
    if !item.List? || |item.items| != 3 {
      return Failure(InvalidPointFormat);
    }
    if !IsSymbol(item.items[0], "xy") {
      return Failure(MissingXySymbol);
    }
    var x := ToFloat(item.items[1]);
    var y := ToFloat(item.items[2]);
    if x.None? || y.None? {
      return Failure(InvalidPointCoordinates);
    }
    r := Success(Point(x.value, y.value));
  }

  /** The item node `['xy', str(x), str(y)]`. */
  function PointNode(p: Point): Node {
    List([Str("xy"), Str(FormatNum(p.x)), Str(FormatNum(p.y))])
  }

  /** `Points.to_sexp`: the tag, then one item per point, in order. */
  function ToSexp(p: Points): (r: Node)
    ensures r.List? && |r.items| == 1 + |p.points| && r.items[0] == Str("pts")
    ensures forall i :: 0 <= i < |p.points| ==>
      r.items[i + 1] == List([Str("xy"), Str(FormatNum(p.points[i].x)), Str(FormatNum(p.points[i].y))])
  {
    List([Str("pts")] + seq(|p.points|, i requires 0 <= i < |p.points| => PointNode(p.points[i])))
  }

  // ----- lemmas -----

  /** If every item before the i-th is a point and the i-th is not, decoding fails with its error. */
  lemma FirstFailure(items: seq<Node>, i: int)
    requires 0 <= i < |items|
    requires forall j :: 0 <= j < i ==> PointFromSexp(items[j]).Success?
    requires PointFromSexp(items[i]).Failure?
    ensures PointsFrom(items) == Failure(PointFromSexp(items[i]).error)
  {
    var r := PointsFrom(items);
    assert r.Failure?;
    var k :| 0 <= k < |items| && PointFromSexp(items[k]) == Failure(r.error)
      && forall j :: 0 <= j < k ==> PointFromSexp(items[j]).Success?;
    assert k == i;
  }

  /** Two point lists that agree on the decoding of every item are equal. */
  lemma SamePoints(a: seq<Point>, b: seq<Point>)
    requires |a| == |b|
    requires forall j :: 0 <= j < |a| ==> a[j] == b[j]
    ensures a == b
  {
  }

  /** Decoding a concatenation decodes each part: the order of the points is kept. */
  lemma PointsFromAppend(a: seq<Node>, b: seq<Node>)
    requires PointsFrom(a).Success? && PointsFrom(b).Success?
    ensures PointsFrom(a + b) == Success(PointsFrom(a).value + PointsFrom(b).value)
  {
    var c := a + b;
    var ps := PointsFrom(a).value + PointsFrom(b).value;
    forall i | 0 <= i < |c|
      ensures PointFromSexp(c[i]) == Success(ps[i])
    {
      if i < |a| {
        assert c[i] == a[i];
      } else {
        assert c[i] == b[i - |a|];
      }
    }
    SamePoints(PointsFrom(c).value, ps);
  }

  /** The decoder needs symbol tags: an encoding that was not symbolized is rejected. */
  lemma PlainEncodingRejected(p: Points)
    requires |p.points| >= 1
    ensures Decode(ToSexp(p)) == Failure(MissingPtsSymbol)
  {
  }

  /** An empty point list encodes to a bare `pts`, which the decoder rejects. */
  lemma EmptyRejected()
    ensures Decode(Symbolize(ToSexp(Points([])))) == Failure(InvalidPointsDataFormat)
  {
    assert |Symbolize(ToSexp(Points([]))).items| == 1;
  }

  lemma PointNodeDecodes(p: Point)
    ensures PointFromSexp(Symbolize(PointNode(p))) == Success(p)
  {
    ToFloatOfText(p.x);
    ToFloatOfText(p.y);
    var n := PointNode(p);
    SymbolizeList(n.items);
    var m := Symbolize(n);
    assert m.items[0] == Sym("xy");
    assert ToFloat(m.items[1]) == Some(p.x);
    assert ToFloat(m.items[2]) == Some(p.y);
  }

  /** Every non-empty point list survives its symbolized encoding, in order. */
  lemma RoundTrip(p: Points)
    requires |p.points| >= 1
    ensures Decode(Symbolize(ToSexp(p))) == Success(p)
  {
    var n := ToSexp(p);
    var m := Symbolize(n);
    SymbolizeList(n.items);
    assert m.items[0] == Sym("pts");
    var items := m.items[1..];
    forall i | 0 <= i < |items|
      ensures PointFromSexp(items[i]) == Success(p.points[i])
    {
      assert items[i] == Symbolize(n.items[i + 1]);
      assert n.items[i + 1] == PointNode(p.points[i]);
      PointNodeDecodes(p.points[i]);
    }
    SamePoints(PointsFrom(items).value, p.points);
  }
}
