/**
 * The mesh generator of common/shape-creator.js: flat vertex arrays of
 * interleaved (x, y, r, g, b, a) tuples for a filled circle (triangle fan)
 * and for a ring (annulus), and the ring's triangle index list.
 *
 * Math.sin and Math.cos are supplied by the caller (a Trig value) and are
 * applied to a symbolic Angle; randomColor is supplied as `draw`, where
 * draw(k) is the colour returned by the k-th call (counting from 0).
 */
module ShapeCreator {
  import opened Wrappers

  /** An RGBA colour: the four numbers a vertex carries after its position. */
  datatype Color = Color(r: real, g: real, b: real, a: real)

  /** The colour createCircleVertex uses when the caller passes none. */
  const Red: Color := Color(255.0, 0.0, 0.0, 1.0)

  /** The angle `(step * Math.PI * 2) / granularity`, kept symbolic. */
  datatype Angle = Angle(step: nat, granularity: int)

  /** Math.sin and Math.cos as the caller supplies them. */
  datatype Trig = Trig(sin: Angle -> real, cos: Angle -> real)

  /**
   * Where the colours of a mesh come from: one fixed colour, a fresh draw per
   * tuple, or one draw per ring step with a new draw on every even step.
   */
  datatype Coloring =
    | Fixed(c: Color)
    | PerVertex(draw: nat -> Color)
    | PerPair(draw: nat -> Color)

  /**
   * Which call of randomColor colours ring step i: the draw before the loop
   * is call 0, and a new colour is drawn at every even step.
   */
  function RingColorDraw(i: nat): nat
  {
    i / 2 + 1
  }

  /** The colour of tuple (or ring step) k. */
  function ColorOf(col: Coloring, k: nat): Color
  {
    match col
    case Fixed(c) => c
    case PerVertex(draw) => draw(k)
    case PerPair(draw) => draw(RingColorDraw(k))
  }

  /** The value in radians an angle stands for, given a value for pi. */
  function Radians(a: Angle, pi: real): real
    requires a.granularity != 0
  {
    (a.step as real * pi * 2.0) / (a.granularity as real)
  }

  /** One interleaved vertex tuple. */
  function Vertex(px: real, py: real, c: Color): (t: seq<real>)
    ensures |t| == 6
  {
    [px, py, c.r, c.g, c.b, c.a]
  }

  /** The k-th group of six entries of a flat array (a vertex tuple or an index block). */
  function Group<T>(s: seq<T>, k: nat): seq<T>
    requires 6 * k + 6 <= |s|
  {
    s[6 * k .. 6 * k + 6]
  }

  /** One coordinate of a point on a circle: `centre + radius * v`, v a sine or cosine. */
  function OnCircle(centre: real, radius: real, v: real): real
  {
    centre + radius * v
  }

  /** The vertex at angle step `i` on the circle of radius `radius` around (x, y). */
  function PointAt(x: real, y: real, radius: real, g: int, trig: Trig, i: nat, c: Color): seq<real>
  {
    Vertex(OnCircle(x, radius, trig.sin(Angle(i, g))), OnCircle(y, radius, trig.cos(Angle(i, g))), c)
  }

  // ---------------------------------------------------------------------------
  // Filled circle (triangle fan)
  // ---------------------------------------------------------------------------

  /** Number of tuples of a fan: the centre plus the perimeter steps i = 0..g. */
  function FanSize(g: int): nat
  {
    if g >= 0 then g + 2 else 1
  }

  /** Tuple k of a fan: the centre for k = 0, else perimeter step k - 1. */
  function FanVertex(x: real, y: real, radius: real, g: int, trig: Trig, k: nat, c: Color): seq<real>
  {
    if k == 0 then Vertex(x, y, c) else PointAt(x, y, radius, g, trig, k - 1, c)
  }

  /** The first n tuples of `p` are those of the fan, tuple k coloured ColorOf(col, k). */
  ghost predicate FanPrefix(p: seq<real>, n: nat, x: real, y: real, radius: real, g: int,
                            trig: Trig, col: Coloring)
  {
    |p| == 6 * n &&
    forall k: nat :: k < n ==> Group(p, k) == FanVertex(x, y, radius, g, trig, k, ColorOf(col, k))
  }

  /** `p` is the whole fan for granularity g. */
  ghost predicate IsFan(p: seq<real>, x: real, y: real, radius: real, g: int,
                        trig: Trig, col: Coloring)
  {
    FanPrefix(p, FanSize(g), x, y, radius, g, trig, col)
  }

  /** Appending six entries leaves the earlier groups alone and becomes group |s| / 6. */
  lemma GroupAppend<T>(s: seq<T>, t: seq<T>)
    requires |s| % 6 == 0 && |t| == 6
    ensures forall k: nat :: 6 * k + 6 <= |s| ==> Group(s + t, k) == Group(s, k)
    ensures Group(s + t, |s| / 6) == t
  {
    assert (s + t)[..|s|] == s;
    forall k: nat | 6 * k + 6 <= |s|
      ensures Group(s + t, k) == Group(s, k)
    {
      assert (s + t)[6 * k .. 6 * k + 6] == (s + t)[..|s|][6 * k .. 6 * k + 6];
    }
    assert (s + t)[|s|..] == t;
  }

  /** Pushing tuple n of the fan extends a fan prefix by one tuple. */
  lemma FanPrefixPush(p: seq<real>, n: nat, x: real, y: real, radius: real, g: int,
                      trig: Trig, col: Coloring)
    requires FanPrefix(p, n, x, y, radius, g, trig, col)
    ensures FanPrefix(p + FanVertex(x, y, radius, g, trig, n, ColorOf(col, n)), n + 1,
                      x, y, radius, g, trig, col)
  {
    var v := FanVertex(x, y, radius, g, trig, n, ColorOf(col, n));
    GroupAppend(p, v);
    assert |p| / 6 == n;
    forall k: nat | k < n + 1
      ensures Group(p + v, k) == FanVertex(x, y, radius, g, trig, k, ColorOf(col, k))
    {
      if k < n {
        assert Group(p + v, k) == Group(p, k);
      } else {
        assert Group(p + v, n) == v;
      }
    }
  }

  /**
   * createCircleVertex (common/shape-creator.js:11-35): the centre tuple, then
   * one perimeter tuple per step i = 0..granularity, every tuple in `color`
   * (red when no colour is passed).
   */
  method CreateCircleVertex(x: real, y: real, radius: real, granularity: int,
                            color: Option<Color>, trig: Trig)
    returns (positions: seq<real>)
    ensures IsFan(positions, x, y, radius, granularity, trig, Fixed(color.GetOr(Red)))
  {
    var c := color.GetOr(Red);
    ghost var col := Fixed(c);
    positions := Vertex(x, y, c);
    var i := 0;
    while i <= granularity
      invariant 0 <= i < FanSize(granularity)
      invariant FanPrefix(positions, i + 1, x, y, radius, granularity, trig, col)
    {
      FanPrefixPush(positions, i + 1, x, y, radius, granularity, trig, col);
      positions := positions + PointAt(x, y, radius, granularity, trig, i, c);
      i := i + 1;
    }
  }

  /**
   * createCircleVertexWithRandomColor (common/shape-creator.js:46-74): the same
   * fan, but each tuple takes a fresh colour: tuple k is coloured by the k-th
   * draw, and exactly FanSize(granularity) colours are drawn.
   */
  method CreateCircleVertexWithRandomColor(x: real, y: real, radius: real, granularity: int,
                                           trig: Trig, draw: nat -> Color)
    returns (positions: seq<real>, draws: nat)
    ensures IsFan(positions, x, y, radius, granularity, trig, PerVertex(draw))
    ensures draws == FanSize(granularity)
  {
    var color := draw(0);
    draws := 1;
    positions := Vertex(x, y, color);
    var i := 0;
    while i <= granularity
      invariant 0 <= i < FanSize(granularity)
      invariant draws == i + 1
      invariant FanPrefix(positions, i + 1, x, y, radius, granularity, trig, PerVertex(draw))
    {
      color := draw(draws);
      draws := draws + 1;
      FanPrefixPush(positions, i + 1, x, y, radius, granularity, trig, PerVertex(draw));
      positions := positions + PointAt(x, y, radius, granularity, trig, i, color);
      i := i + 1;
    }
  }

  /** Every entry of a fan, by its slot: position, then the four colour components. */
  lemma FanSlots(p: seq<real>, x: real, y: real, radius: real, g: int,
                 trig: Trig, col: Coloring, j: nat)
    requires IsFan(p, x, y, radius, g, trig, col)
    requires j < |p|
    ensures j / 6 < FanSize(g)
    ensures j % 6 == 0 ==> p[j] == (if j / 6 == 0 then x else OnCircle(x, radius, trig.sin(Angle(j / 6 - 1, g))))
    ensures j % 6 == 1 ==> p[j] == (if j / 6 == 0 then y else OnCircle(y, radius, trig.cos(Angle(j / 6 - 1, g))))
    ensures j % 6 == 2 ==> p[j] == ColorOf(col, j / 6).r
    ensures j % 6 == 3 ==> p[j] == ColorOf(col, j / 6).g
    ensures j % 6 == 4 ==> p[j] == ColorOf(col, j / 6).b
    ensures j % 6 == 5 ==> p[j] == ColorOf(col, j / 6).a
  {
    var k := j / 6;
    assert Group(p, k) == FanVertex(x, y, radius, g, trig, k, ColorOf(col, k));
    assert p[j] == Group(p, k)[j % 6];
  }

  /** With a fixed colour, every colour slot of every tuple holds that colour. */
  lemma FixedColorFan(p: seq<real>, x: real, y: real, radius: real, g: int, trig: Trig, c: Color)
    requires IsFan(p, x, y, radius, g, trig, Fixed(c))
    ensures forall k: nat :: k < FanSize(g) ==> p[6 * k + 2 .. 6 * k + 6] == [c.r, c.g, c.b, c.a]
  {
    forall k: nat | k < FanSize(g)
      ensures p[6 * k + 2 .. 6 * k + 6] == [c.r, c.g, c.b, c.a]
    {
      assert Group(p, k) == FanVertex(x, y, radius, g, trig, k, c);
      assert p[6 * k + 2 .. 6 * k + 6] == Group(p, k)[2..];
    }
  }

  /**
   * Two fans of the same geometry agree on length and on every position slot,
   * whatever their colours: the random-colour circle has the positions of the
   * fixed-colour one.
   */
  lemma FanGeometryIgnoresColor(p1: seq<real>, p2: seq<real>, x: real, y: real, radius: real,
                                g: int, trig: Trig, col1: Coloring, col2: Coloring)
    requires IsFan(p1, x, y, radius, g, trig, col1)
    requires IsFan(p2, x, y, radius, g, trig, col2)
    ensures |p1| == |p2|
    ensures forall j :: 0 <= j < |p1| && j % 6 < 2 ==> p1[j] == p2[j]
  {
    forall j | 0 <= j < |p1| && j % 6 < 2
      ensures p1[j] == p2[j]
    {
      FanSlots(p1, x, y, radius, g, trig, col1, j);
      FanSlots(p2, x, y, radius, g, trig, col2, j);
    }
  }

  /**
   * The fan is closed: for g >= 1 its first perimeter tuple is at angle 0 and
   * its last at angle 2 * pi, both on the same circle.
   */
  lemma FanCloses(p: seq<real>, x: real, y: real, radius: real, g: int,
                  trig: Trig, col: Coloring, pi: real)
    requires g >= 1
    requires IsFan(p, x, y, radius, g, trig, col)
    ensures |p| == 6 * (g + 2)
    ensures p[0..2] == [x, y]
    ensures p[6..8] == [OnCircle(x, radius, trig.sin(Angle(0, g))), OnCircle(y, radius, trig.cos(Angle(0, g)))]
    ensures p[6 * g + 6 .. 6 * g + 8] == [OnCircle(x, radius, trig.sin(Angle(g, g))), OnCircle(y, radius, trig.cos(Angle(g, g)))]
    ensures Radians(Angle(0, g), pi) == 0.0
    ensures Radians(Angle(g, g), pi) == 2.0 * pi
  {
    var n: nat := g + 1;
    var first, last := Group(p, 1), Group(p, n);
    assert Group(p, 0) == Vertex(x, y, ColorOf(col, 0));
    assert first == Vertex(OnCircle(x, radius, trig.sin(Angle(0, g))), OnCircle(y, radius, trig.cos(Angle(0, g))), ColorOf(col, 1));
    assert last == Vertex(OnCircle(x, radius, trig.sin(Angle(g, g))), OnCircle(y, radius, trig.cos(Angle(g, g))), ColorOf(col, n));
    assert p[0..2] == Group(p, 0)[..2];
    assert p[6..8] == first[..2];
    assert 6 * n == 6 * g + 6;
    assert p[6 * g + 6 .. 6 * g + 8] == last[..2];
    var gr := g as real;
    assert g as real * pi * 2.0 == gr * (2.0 * pi);
  }

  // ---------------------------------------------------------------------------
  // Ring (annulus)
  // ---------------------------------------------------------------------------

  /** The ring's triangle lists and interleaved vertex array. */
  datatype Mesh = Mesh(positions: seq<real>, indices: seq<int>)

  /** Number of angle steps of a ring: i = 0..g. */
  function RingSteps(g: int): nat
  {
    if g >= 0 then g + 1 else 0
  }

  /**
   * The first n steps of `p` are those of the ring: at step i, tuple 2i on the
   * inner circle and tuple 2i + 1 on the outer circle, both coloured ColorOf(col, i).
   */
  ghost predicate RingPrefix(p: seq<real>, n: nat, x: real, y: real, inner: real, outer: real,
                             g: int, trig: Trig, col: Coloring)
  {
    |p| == 12 * n &&
    forall i: nat :: i < n ==>
      Group(p, 2 * i) == PointAt(x, y, inner, g, trig, i, ColorOf(col, i)) &&
      Group(p, 2 * i + 1) == PointAt(x, y, outer, g, trig, i, ColorOf(col, i))
  }

  /** Index block i of a ring as the source writes it, the last block wrapping to 1 and 0. */
  function RingBlock(i: nat, g: int): seq<int>
  {
    var p0, p1 := 2 * i, 2 * i + 1;
    var p2, p3 := if i == g - 1 then 1 else 2 * (i + 1) + 1, if i == g - 1 then 0 else 2 * (i + 1);
    [p0, p1, p2, p2, p3, p0]
  }

  /** The first n index blocks of `ix` are those of the ring. */
  ghost predicate RingIndexPrefix(ix: seq<int>, n: nat, g: int)
  {
    |ix| == 6 * n &&
    forall i: nat :: i < n ==> Group(ix, i) == RingBlock(i, g)
  }

  /** Pushing block n extends an index prefix by one block. */
  lemma RingIndexPush(ix: seq<int>, n: nat, g: int)
    requires RingIndexPrefix(ix, n, g)
    ensures RingIndexPrefix(ix + RingBlock(n, g), n + 1, g)
  {
    GroupAppend(ix, RingBlock(n, g));
  }

  /** Appending two groups of six: the earlier groups stay, the two become the next two. */
  lemma GroupAppendPair<T>(s: seq<T>, a: seq<T>, b: seq<T>)
    requires |s| % 6 == 0 && |a| == 6 && |b| == 6
    ensures forall k: nat :: 6 * k + 6 <= |s| ==> Group(s + a + b, k) == Group(s, k)
    ensures Group(s + a + b, |s| / 6) == a
    ensures Group(s + a + b, |s| / 6 + 1) == b
  {
    var q := s + a + b;
    assert q[..|s|] == s;
    forall k: nat | 6 * k + 6 <= |s|
      ensures Group(q, k) == Group(s, k)
    {
      assert q[6 * k .. 6 * k + 6] == q[..|s|][6 * k .. 6 * k + 6];
    }
    assert q[|s| .. |s| + 6] == a;
    assert q[|s| + 6 .. |s| + 12] == b;
  }

  /** Pushing step n's inner and outer tuples extends a ring prefix by one step. */
  lemma RingPrefixPush(p: seq<real>, n: nat, x: real, y: real, inner: real, outer: real,
                       g: int, trig: Trig, col: Coloring)
    requires RingPrefix(p, n, x, y, inner, outer, g, trig, col)
    ensures RingPrefix(p + PointAt(x, y, inner, g, trig, n, ColorOf(col, n))
                         + PointAt(x, y, outer, g, trig, n, ColorOf(col, n)),
                       n + 1, x, y, inner, outer, g, trig, col)
  {
    var a := PointAt(x, y, inner, g, trig, n, ColorOf(col, n));
    var b := PointAt(x, y, outer, g, trig, n, ColorOf(col, n));
    var q := p + a + b;
    GroupAppendPair(p, a, b);
    assert |p| / 6 == 2 * n;
    forall i: nat | i < n + 1
      ensures Group(q, 2 * i) == PointAt(x, y, inner, g, trig, i, ColorOf(col, i))
      ensures Group(q, 2 * i + 1) == PointAt(x, y, outer, g, trig, i, ColorOf(col, i))
    {
      if i < n {
        assert Group(q, 2 * i) == Group(p, 2 * i);
        assert Group(q, 2 * i + 1) == Group(p, 2 * i + 1);
      }
    }
  }

  /**
   * Block i in the vertex-pair form: pair i, then pair (i + 1) mod g. For
   * 0 <= i < g this is what RingBlock computes, so the blocks form a cycle.
   */
  function CyclicBlock(i: nat, g: int): seq<int>
    requires 0 <= i < g
  {
    var next := (i + 1) % g;
    [2 * i, 2 * i + 1, 2 * next + 1, 2 * next + 1, 2 * next, 2 * i]
  }

  /** The wrap-around stitch is exactly "the next pair, modulo g". */
  lemma RingBlockIsCyclic(i: nat, g: int)
    requires i < g
    ensures RingBlock(i, g) == CyclicBlock(i, g)
  {
    if i == g - 1 {
      assert (i + 1) % g == 0;
    } else {
      assert (i + 1) % g == i + 1;
    }
  }

  /** Number of ring segments, one index block each: i = 0..g-1. */
  function Segments(g: int): nat
  {
    if g >= 0 then g else 0
  }

  /** Every entry of a ring block lies in [0, 2g). */
  lemma RingBlockBounded(i: nat, g: int)
    requires i < g
    ensures forall j :: 0 <= j < 6 ==> 0 <= RingBlock(i, g)[j] < 2 * g
  {
  }

  /** For g >= 1 every index of the ring's index list lies in [0, 2g). */
  lemma RingIndicesBounded(ix: seq<int>, g: int)
    requires RingIndexPrefix(ix, Segments(g), g)
    ensures forall j :: 0 <= j < |ix| ==> 0 <= ix[j] < 2 * g
  {
    forall j | 0 <= j < |ix|
      ensures 0 <= ix[j] < 2 * g
    {
      var i := j / 6;
      assert Group(ix, i) == RingBlock(i, g);
      RingBlockBounded(i, g);
      assert ix[j] == Group(ix, i)[j % 6];
    }
  }

  /**
   * The segments form a closed cycle: the far edge (p3, p2) of block i is the
   * near edge (p0, p1) of block (i + 1) mod g.
   */
  lemma RingIndicesCycle(ix: seq<int>, g: int)
    requires RingIndexPrefix(ix, Segments(g), g)
    ensures forall i :: 0 <= i < g ==>
      ix[6 * i + 4] == ix[6 * ((i + 1) % g)] && ix[6 * i + 2] == ix[6 * ((i + 1) % g) + 1]
  {
    forall i | 0 <= i < g
      ensures ix[6 * i + 4] == ix[6 * ((i + 1) % g)] && ix[6 * i + 2] == ix[6 * ((i + 1) % g) + 1]
    {
      var next := (i + 1) % g;
      RingBlockIsCyclic(i, g);
      RingBlockIsCyclic(next, g);
      var b, c := Group(ix, i), Group(ix, next);
      assert b == RingBlock(i, g) && c == RingBlock(next, g);
      assert ix[6 * i + 4] == b[4] && ix[6 * i + 2] == b[2];
      assert ix[6 * next] == c[0] && ix[6 * next + 1] == c[1];
    }
  }

  /**
   * The vertex loop of createRingVertexWithRandomColor (common/shape-creator.js:86-117):
   * one colour drawn before the loop, a fresh one at every even step, and
   * the inner then the outer tuple of each step i = 0..granularity.
   */
  method RingPositions(x: real, y: real, innerRadius: real, outerRadius: real,
                       granularity: int, trig: Trig, draw: nat -> Color)
    returns (positions: seq<real>, draws: nat)
    ensures RingPrefix(positions, RingSteps(granularity), x, y, innerRadius, outerRadius,
                       granularity, trig, PerPair(draw))
    ensures draws == 1 + (RingSteps(granularity) + 1) / 2
  {
    ghost var col := PerPair(draw);
    positions := [];
    var color := draw(0);
    draws := 1;
    var i := 0;
    while i <= granularity
      invariant 0 <= i <= RingSteps(granularity)
      invariant draws == 1 + (i + 1) / 2
      invariant i > 0 ==> color == ColorOf(col, i - 1)
      invariant RingPrefix(positions, i, x, y, innerRadius, outerRadius, granularity, trig, col)
    {
      if i % 2 == 0 {
        color := draw(draws);
        draws := draws + 1;
      }
      assert color == ColorOf(col, i);
      RingPrefixPush(positions, i, x, y, innerRadius, outerRadius, granularity, trig, col);
      positions := positions + PointAt(x, y, innerRadius, granularity, trig, i, color);
      positions := positions + PointAt(x, y, outerRadius, granularity, trig, i, color);
      i := i + 1;
    }
  }

  /**
   * The index loop of createRingVertexWithRandomColor (common/shape-creator.js:119-131):
   * one block per segment i < granularity.
   */
  method RingIndices(granularity: int) returns (indices: seq<int>)
    ensures RingIndexPrefix(indices, Segments(granularity), granularity)
  {
    indices := [];
    var i := 0;
    while i < granularity
      invariant 0 <= i <= Segments(granularity)
      invariant RingIndexPrefix(indices, i, granularity)
    {
      var p0 := i * 2;
      var p1 := i * 2 + 1;
      var p2 := (i + 1) * 2 + 1;
      var p3 := (i + 1) * 2;
      if i == granularity - 1 {
        p2 := 1;
        p3 := 0;
      }
      assert [p0, p1, p2, p2, p3, p0] == RingBlock(i, granularity);
      RingIndexPush(indices, i, granularity);
      indices := indices + [p0, p1, p2, p2, p3, p0];
      i := i + 1;
    }
  }

  /**
   * createRingVertexWithRandomColor (common/shape-creator.js:85-137): for each
   * step i = 0..granularity an inner and an outer tuple sharing the colour of
   * draw RingColorDraw(i), and one index block per segment i < granularity,
   * every index within the first 2 * granularity tuples and the blocks
   * stitched into a closed cycle.
   */
  method CreateRingVertexWithRandomColor(x: real, y: real, innerRadius: real, outerRadius: real,
                                         granularity: int, trig: Trig, draw: nat -> Color)
    returns (mesh: Mesh, draws: nat)
    ensures RingPrefix(mesh.positions, RingSteps(granularity), x, y, innerRadius, outerRadius,
                       granularity, trig, PerPair(draw))
    ensures draws == 1 + (RingSteps(granularity) + 1) / 2
    ensures RingIndexPrefix(mesh.indices, Segments(granularity), granularity)
    ensures forall j :: 0 <= j < |mesh.indices| ==> 0 <= mesh.indices[j] < 2 * granularity
    ensures forall i :: 0 <= i < granularity ==>
      mesh.indices[6 * i + 4] == mesh.indices[6 * ((i + 1) % granularity)] &&
      mesh.indices[6 * i + 2] == mesh.indices[6 * ((i + 1) % granularity) + 1]
  {
    var positions;
    positions, draws := RingPositions(x, y, innerRadius, outerRadius, granularity, trig, draw);
    var indices := RingIndices(granularity);
    RingIndicesBounded(indices, granularity);
    RingIndicesCycle(indices, granularity);
    mesh := Mesh(positions, indices);
  }

  /** Steps 2k and 2k + 1 of a ring share one colour draw, and draw 0 is never used. */
  lemma RingColorPairs(k: nat)
    ensures RingColorDraw(2 * k) == RingColorDraw(2 * k + 1) == k + 1
    ensures forall i: nat :: RingColorDraw(i) >= 1
  {
  }

  /**
   * A ring of eight segments: nine steps of two tuples (108 numbers), 48
   * indices, and a last block that stitches back to tuples 1 and 0 where the
   * unwrapped formula would give 17 and 16.
   */
  lemma RingOfEight()
    ensures 12 * RingSteps(8) == 108 && 6 * Segments(8) == 48
    ensures RingBlock(7, 8) == [14, 15, 1, 1, 0, 14]
    ensures forall i: nat :: i < 7 ==> RingBlock(i, 8) == [2 * i, 2 * i + 1, 2 * i + 3, 2 * i + 3, 2 * i + 2, 2 * i]
  {
  }
}
