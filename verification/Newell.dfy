/**
 Newell sums over roof polygons of any length, over exact real coordinates. The second
 coordinate is vertical. Areas are compared through their squares, so no root is taken.
 */
module Newell {

  datatype Vec = Vec(x: real, y: real, z: real)

  const ZERO := Vec(0.0, 0.0, 0.0)

  function Add(a: Vec, b: Vec): Vec { Vec(a.x + b.x, a.y + b.y, a.z + b.z) }

  function Sub(a: Vec, b: Vec): Vec { Vec(a.x - b.x, a.y - b.y, a.z - b.z) }

  function Neg(a: Vec): Vec { Vec(-a.x, -a.y, -a.z) }

  function Cross(a: Vec, b: Vec): Vec {
    Vec(a.y * b.z - a.z * b.y, a.z * b.x - a.x * b.z, a.x * b.y - a.y * b.x)
  }

  function Dot(a: Vec, b: Vec): real { a.x * b.x + a.y * b.y + a.z * b.z }

  function Scale(k: real, a: Vec): Vec { Vec(k * a.x, k * a.y, k * a.z) }

  /** The contribution of the edge from `a` to `b`. */
  function Edge(a: Vec, b: Vec): Vec {
    Vec((a.y - b.y) * (a.z + b.z), (a.z - b.z) * (a.x + b.x), (a.x - b.x) * (a.y + b.y))
  }

  lemma EdgeIs(a: Vec, b: Vec)
    ensures Vec((a.y - b.y) * (a.z + b.z), (a.z - b.z) * (a.x + b.x), (a.x - b.x) * (a.y + b.y)) == Edge(a, b)
  {
  }

  /** The sum over the edges of an open path. */
  function PathSum(path: seq<Vec>): Vec {
    if |path| < 2 then ZERO else Add(Edge(path[0], path[1]), PathSum(path[1..]))
  }

  function Closed(verts: seq<Vec>): seq<Vec> {
    if verts == [] then [] else verts + [verts[0]]
  }

  function NewellSum(verts: seq<Vec>): Vec {
    PathSum(Closed(verts))
  }

  lemma {:induction false} PathSumExtend(path: seq<Vec>, v: Vec)
    requires path != []
    ensures PathSum(path + [v]) == Add(PathSum(path), Edge(path[|path| - 1], v))
  {
    if |path| == 1 {
      assert (path + [v])[1..] == [v];
    } else {
      PathSumExtend(path[1..], v);
      assert (path + [v])[1..] == path[1..] + [v];
    }
  }

  /** The accumulation loop shared by `polygon_area_3d` and `polygon_normal`. */
  method Accumulate(verts: seq<Vec>) returns (n: Vec)
    ensures n == NewellSum(verts)
  {
    hide Edge;
    n := ZERO;
    var m := |verts|;
    ghost var path := Closed(verts);
    for i := 0 to m
      invariant n == PathSum(path[..Reach(i, m)])
    {
      var a, b := verts[i], verts[(i + 1) % m];
      assert b == path[i + 1] by {
        NextVertex(verts, i);
      }
      PathSumExtend(path[..i + 1], b);
      assert path[..i + 2] == path[..i + 1] + [b];
      EdgeIs(a, b);
      n := Vec(n.x + (a.y - b.y) * (a.z + b.z), n.y + (a.z - b.z) * (a.x + b.x), n.z + (a.x - b.x) * (a.y + b.y));
    }
    assert path[..|path|] == path;
  }

  /** How many vertices of the closed path the first `i` edges touch. */
  ghost function Reach(i: nat, m: nat): nat {
    if m == 0 then 0 else i + 1
  }

  lemma NextVertex(verts: seq<Vec>, i: nat)
    requires i < |verts|
    ensures Closed(verts)[i + 1] == verts[(i + 1) % |verts|]
  {
  }

  // ----- invariances -----

  function RotateBy(verts: seq<Vec>, k: nat): seq<Vec>
    requires k <= |verts|
  {
    verts[k..] + verts[..k]
  }

  lemma RotateOne(verts: seq<Vec>)
    requires verts != []
    ensures NewellSum(verts[1..] + [verts[0]]) == NewellSum(verts)
  {
    var rest := verts[1..];
    if rest == [] {
      assert verts[1..] + [verts[0]] == verts;
    } else {
      var path := rest + [verts[0]];
      assert Closed(verts)[1..] == path;
      assert Closed(path) == path + [rest[0]];
      PathSumExtend(path, rest[0]);
    }
  }

  /** Where the vertex list starts does not matter. */
  lemma {:induction false} RotationInvariant(verts: seq<Vec>, k: nat)
    requires k <= |verts|
    ensures NewellSum(RotateBy(verts, k)) == NewellSum(verts)
  {
    if k == 0 {
      assert RotateBy(verts, 0) == verts;
    } else {
      hide NewellSum;
      RotationInvariant(verts, k - 1);
      var r := RotateBy(verts, k - 1);
      RotateOne(r);
      assert r[0] == verts[k - 1];
      assert r[1..] + [r[0]] == RotateBy(verts, k);
    }
  }

  function Translate(verts: seq<Vec>, d: Vec): seq<Vec> {
    seq(|verts|, i requires 0 <= i < |verts| => Add(verts[i], d))
  }

  /** Shifting an edge changes its contribution by a term that telescopes. */
  function Drift(a: Vec, b: Vec, d: Vec): Vec {
    Vec(2.0 * d.z * (a.y - b.y), 2.0 * d.x * (a.z - b.z), 2.0 * d.y * (a.x - b.x))
  }

  lemma EdgeDrift(a: Vec, b: Vec, d: Vec)
    ensures Edge(Add(a, d), Add(b, d)) == Add(Edge(a, b), Drift(a, b, d))
  {
    assert (a.y - b.y) * (a.z + d.z + (b.z + d.z)) == (a.y - b.y) * (a.z + b.z) + 2.0 * d.z * (a.y - b.y);
    assert (a.z - b.z) * (a.x + d.x + (b.x + d.x)) == (a.z - b.z) * (a.x + b.x) + 2.0 * d.x * (a.z - b.z);
    assert (a.x - b.x) * (a.y + d.y + (b.y + d.y)) == (a.x - b.x) * (a.y + b.y) + 2.0 * d.y * (a.x - b.x);
  }

  lemma DriftTelescopes(a: Vec, b: Vec, c: Vec, d: Vec)
    ensures Add(Drift(a, b, d), Drift(b, c, d)) == Drift(a, c, d)
  {
    assert 2.0 * d.z * (a.y - b.y) + 2.0 * d.z * (b.y - c.y) == 2.0 * d.z * (a.y - c.y);
    assert 2.0 * d.x * (a.z - b.z) + 2.0 * d.x * (b.z - c.z) == 2.0 * d.x * (a.z - c.z);
    assert 2.0 * d.y * (a.x - b.x) + 2.0 * d.y * (b.x - c.x) == 2.0 * d.y * (a.x - c.x);
  }

  lemma NoDrift(a: Vec, d: Vec)
    ensures Drift(a, a, d) == ZERO
  {
  }

  lemma {:induction false} PathSumDrift(path: seq<Vec>, d: Vec)
    requires path != []
    ensures PathSum(Translate(path, d)) == Add(PathSum(path), Drift(path[0], path[|path| - 1], d))
  {
    hide Edge, Drift, PathSum, Translate;
    var moved := Translate(path, d);
    TranslateAt(path, d);
    if |path| == 1 {
      NoDrift(path[0], d);
      PathSumShort(path);
      PathSumShort(moved);
    } else {
      PathSumDrift(path[1..], d);
      PathSumStep(path);
      PathSumStep(moved);
      EdgeDrift(path[0], path[1], d);
      DriftTelescopes(path[0], path[1], path[|path| - 1], d);
    }
  }

  lemma PathSumShort(path: seq<Vec>)
    requires |path| < 2
    ensures PathSum(path) == ZERO
  {
  }

  lemma PathSumStep(path: seq<Vec>)
    requires |path| >= 2
    ensures PathSum(path) == Add(Edge(path[0], path[1]), PathSum(path[1..]))
  {
  }

  lemma TranslateAt(path: seq<Vec>, d: Vec)
    requires path != []
    ensures |Translate(path, d)| == |path| && Translate(path, d)[0] == Add(path[0], d)
    ensures |path| > 1 ==> Translate(path, d)[1] == Add(path[1], d)
    ensures Translate(path, d)[1..] == Translate(path[1..], d)
  {
  }

  lemma TranslateClosed(verts: seq<Vec>, d: Vec)
    ensures Closed(Translate(verts, d)) == Translate(Closed(verts), d)
  {
  }

  /** Where the roof stands does not matter. */
  lemma TranslationInvariant(verts: seq<Vec>, d: Vec)
    ensures NewellSum(Translate(verts, d)) == NewellSum(verts)
  {
    hide Edge, PathSum, Translate;
    TranslateClosed(verts, d);
    if verts == [] {
      assert Translate(verts, d) == [] by {
        TranslateClosed([], d);
        TranslateNothing(d);
      }
    } else {
      PathSumDrift(Closed(verts), d);
      NoDrift(verts[0], d);
    }
  }

  lemma TranslateNothing(d: Vec)
    ensures Translate([], d) == []
  {
  }

  function Reverse(verts: seq<Vec>): seq<Vec> {
    seq(|verts|, i requires 0 <= i < |verts| => verts[|verts| - 1 - i])
  }

  lemma EdgeReversed(a: Vec, b: Vec)
    ensures Edge(b, a) == Neg(Edge(a, b))
  {
  }

  lemma {:induction false} PathSumReversed(path: seq<Vec>)
    ensures PathSum(Reverse(path)) == Neg(PathSum(path))
  {
    hide Edge, PathSum, Reverse;
    if |path| < 2 {
      ReverseAt(path);
      PathSumShort(path);
      PathSumShort(Reverse(path));
    } else {
      PathSumReversed(path[1..]);
      ReverseAt(path);
      var r := Reverse(path[1..]);
      ReverseAt(path[1..]);
      PathSumExtend(r, path[0]);
      PathSumStep(path);
      EdgeReversed(path[0], path[1]);
    }
  }

  lemma ReverseAt(path: seq<Vec>)
    ensures |Reverse(path)| == |path|
    ensures path != [] ==> Reverse(path)[|path| - 1] == path[0] && Reverse(path) == Reverse(path[1..]) + [path[0]]
  {
  }

  /** Walking the boundary the other way negates the vector. */
  lemma ReversalNegates(verts: seq<Vec>)
    ensures NewellSum(Reverse(verts)) == Neg(NewellSum(verts))
  {
    hide PathSum;
    if verts != [] {
      var path, r := Closed(verts), Reverse(verts);
      PathSumReversed(path);
      // the reversed closed path is the closed reversed path, started one vertex earlier
      assert Reverse(path) == [verts[0]] + r;
      var w := [verts[0]] + r[..|r| - 1];
      assert r[|r| - 1] == verts[0];
      assert Closed(w) == [verts[0]] + r;
      assert w[1..] + [w[0]] == r;
      RotateOne(w);
    } else {
      PathSumShort([]);
    }
  }

  // ----- what the vector means -----

  function CrossSum(path: seq<Vec>): Vec {
    if |path| < 2 then ZERO else Add(Cross(path[0], path[1]), CrossSum(path[1..]))
  }

  function Square(a: Vec): Vec { Vec(a.y * a.z, a.z * a.x, a.x * a.y) }

  lemma EdgeIsCross(a: Vec, b: Vec)
    ensures Edge(a, b) == Add(Cross(a, b), Sub(Square(a), Square(b)))
  {
    assert (a.y - b.y) * (a.z + b.z) == a.y * b.z - a.z * b.y + (a.y * a.z - b.y * b.z);
    assert (a.z - b.z) * (a.x + b.x) == a.z * b.x - a.x * b.z + (a.z * a.x - b.z * b.x);
    assert (a.x - b.x) * (a.y + b.y) == a.x * b.y - a.y * b.x + (a.x * a.y - b.x * b.y);
  }

  lemma CrossSumStep(path: seq<Vec>)
    ensures |path| < 2 ==> CrossSum(path) == ZERO
    ensures |path| >= 2 ==> CrossSum(path) == Add(Cross(path[0], path[1]), CrossSum(path[1..]))
  {
  }

  lemma {:induction false} PathSumIsCrossSum(path: seq<Vec>)
    requires path != []
    ensures PathSum(path) == Add(CrossSum(path), Sub(Square(path[0]), Square(path[|path| - 1])))
  {
    hide Edge, Cross, Square, PathSum, CrossSum;
    CrossSumStep(path);
    if |path| == 1 {
      PathSumShort(path);
    } else {
      PathSumIsCrossSum(path[1..]);
      PathSumStep(path);
      EdgeIsCross(path[0], path[1]);
    }
  }

  /** The Newell sum is the sum of the cross products of consecutive vertices: twice the vector area. */
  lemma NewellIsVectorArea(verts: seq<Vec>)
    ensures NewellSum(verts) == CrossSum(Closed(verts))
  {
    if verts != [] {
      PathSumIsCrossSum(Closed(verts));
    }
  }

  lemma CrossOfPlaneVectors(a: Vec, b: Vec, n: Vec)
    requires Dot(a, n) == 0.0 && Dot(b, n) == 0.0
    ensures Cross(Cross(a, b), n) == ZERO
  {
    TripleProduct(a, b, n);
  }

  lemma TripleX(a: Vec, b: Vec, n: Vec)
    ensures Cross(Cross(a, b), n).x == Dot(a, n) * b.x - Dot(b, n) * a.x
  {
    TripleComponent(a.x, a.y, a.z, b.x, b.y, b.z, n.x, n.y, n.z);
  }

  /** The three components are one component under rotation of the coordinates. */
  function Turn(a: Vec): Vec { Vec(a.y, a.z, a.x) }

  lemma TurnProducts(a: Vec, b: Vec)
    ensures Cross(Turn(a), Turn(b)) == Turn(Cross(a, b))
    ensures Dot(Turn(a), Turn(b)) == Dot(a, b)
  {
  }

  /** (a x b) x n == (n . a) b - (n . b) a */
  lemma TripleProduct(a: Vec, b: Vec, n: Vec)
    ensures Cross(Cross(a, b), n) == Sub(Scale(Dot(a, n), b), Scale(Dot(b, n), a))
  {
    hide Cross, Dot;
    var a', b', n' := Turn(a), Turn(b), Turn(n);
    TurnProducts(a, b);
    TurnProducts(a, n);
    TurnProducts(b, n);
    TurnProducts(Cross(a, b), n);
    TurnProducts(a', b');
    TurnProducts(a', n');
    TurnProducts(b', n');
    TurnProducts(Cross(a', b'), n');
    TripleX(a, b, n);
    TripleX(a', b', n');
    TripleX(Turn(a'), Turn(b'), Turn(n'));
  }

  lemma TripleComponent(a: real, b: real, c: real, d: real, e: real, f: real, p: real, q: real, r: real)
    ensures (c * d - a * f) * r - (a * e - b * d) * q == (a * p + b * q + c * r) * d - (d * p + e * q + f * r) * a
  {
    assert (c * d - a * f) * r == c * d * r - a * f * r;
    assert (a * e - b * d) * q == a * e * q - b * d * q;
    assert (a * p + b * q + c * r) * d == a * p * d + b * q * d + c * r * d;
    assert (d * p + e * q + f * r) * a == d * p * a + e * q * a + f * r * a;
  }

  lemma CrossAdds(a: Vec, b: Vec, n: Vec)
    ensures Cross(Add(a, b), n) == Add(Cross(a, n), Cross(b, n))
  {
    assert (a.y + b.y) * n.z == a.y * n.z + b.y * n.z && (a.z + b.z) * n.y == a.z * n.y + b.z * n.y;
    assert (a.z + b.z) * n.x == a.z * n.x + b.z * n.x && (a.x + b.x) * n.z == a.x * n.z + b.x * n.z;
    assert (a.x + b.x) * n.y == a.x * n.y + b.x * n.y && (a.y + b.y) * n.x == a.y * n.x + b.y * n.x;
  }

  lemma {:induction false} CrossSumOfPlanePath(path: seq<Vec>, n: Vec)
    requires forall v <- path :: Dot(v, n) == 0.0
    ensures Cross(CrossSum(path), n) == ZERO
  {
    if |path| >= 2 {
      CrossSumOfPlanePath(path[1..], n);
      CrossOfPlaneVectors(path[0], path[1], n);
      CrossAdds(Cross(path[0], path[1]), CrossSum(path[1..]), n);
    }
  }

  /** Of a planar polygon, in any plane through any point, the vector is parallel to the plane's normal. */
  lemma PlanarNormal(verts: seq<Vec>, n: Vec, c: real)
    requires forall v <- verts :: Dot(v, n) == c
    ensures Cross(NewellSum(verts), n) == ZERO
  {
    if verts != [] {
      var d := Neg(verts[0]);
      var moved := Translate(verts, d);
      forall v | v in Closed(moved)
        ensures Dot(v, n) == 0.0
      {
        var i :| 0 <= i < |verts| && moved[i] == v;
        DotShift(verts[i], verts[0], n);
        assert verts[i] in verts && verts[0] in verts;
      }
      CrossSumOfPlanePath(Closed(moved), n);
      NewellIsVectorArea(moved);
      TranslationInvariant(verts, d);
    }
  }

  lemma DotShift(a: Vec, b: Vec, n: Vec)
    ensures Dot(Add(a, Neg(b)), n) == Dot(a, n) - Dot(b, n)
  {
    assert (a.x + -b.x) * n.x == a.x * n.x - b.x * n.x;
    assert (a.y + -b.y) * n.y == a.y * n.y - b.y * n.y;
    assert (a.z + -b.z) * n.z == a.z * n.z - b.z * n.z;
  }

  // ----- facets -----

  function Project(verts: seq<Vec>): seq<Vec> {
    seq(|verts|, i requires 0 <= i < |verts| => Vec(verts[i].x, 0.0, verts[i].z))
  }

  lemma ProjectAt(path: seq<Vec>)
    ensures |Project(path)| == |path|
    ensures |path| >= 2 ==> Project(path)[1..] == Project(path[1..])
    ensures forall i :: 0 <= i < |path| ==> Project(path)[i] == Vec(path[i].x, 0.0, path[i].z)
  {
  }

  lemma EdgeProjected(a: Vec, b: Vec)
    ensures Edge(Vec(a.x, 0.0, a.z), Vec(b.x, 0.0, b.z)) == Vec(0.0, Edge(a, b).y, 0.0)
  {
  }

  lemma {:induction false} PathSumProjected(path: seq<Vec>)
    ensures PathSum(Project(path)) == Vec(0.0, PathSum(path).y, 0.0)
  {
    hide Edge, PathSum, Project;
    ProjectAt(path);
    if |path| < 2 {
      PathSumShort(path);
      PathSumShort(Project(path));
    } else {
      PathSumProjected(path[1..]);
      PathSumStep(path);
      PathSumStep(Project(path));
      EdgeProjected(path[0], path[1]);
    }
  }

  /** The footprint keeps exactly the vertical component. */
  lemma ProjectionKeepsVertical(verts: seq<Vec>)
    ensures NewellSum(Project(verts)) == Vec(0.0, NewellSum(verts).y, 0.0)
  {
    if verts != [] {
      assert Closed(Project(verts)) == Project(Closed(verts));
      PathSumProjected(Closed(verts));
    }
  }

  /**
   A facet before rounding. `normal` is the unnormalised upward vector; the squares are those of
   the areas, and `pitchSquared` is the square of the rise over a run of twelve.
   */
  datatype Facet = Facet(vertices: seq<Vec>, normal: Vec, planarSquared: real, trueSquared: real, pitchSquared: real)

  /** The squared area: that of the vector area, half the sum of the cross products along the boundary. */
  function AreaOf(verts: seq<Vec>): real {
    var doubled := CrossSum(Closed(verts));
    Dot(doubled, doubled) / 4.0
  }

  /** `polygon_area_3d`, squared. */
  method AreaSquared(verts: seq<Vec>) returns (s: real)
    ensures s == AreaOf(verts)
  {
    hide Dot;
    var n := Accumulate(verts);
    NewellIsVectorArea(verts);
    s := Dot(n, n) / 4.0;
  }

  /** The area belongs to the polygon: not to its first vertex, its place or its direction. */
  lemma AreaIsIntrinsic(verts: seq<Vec>, k: nat, d: Vec)
    requires k <= |verts|
    ensures AreaOf(RotateBy(verts, k)) == AreaOf(Translate(verts, d)) == AreaOf(Reverse(verts)) == AreaOf(verts)
  {
    hide NewellSum, CrossSum, Dot, Closed;
    NewellIsVectorArea(verts);
    NewellIsVectorArea(RotateBy(verts, k));
    NewellIsVectorArea(Translate(verts, d));
    NewellIsVectorArea(Reverse(verts));
    RotationInvariant(verts, k);
    TranslationInvariant(verts, d);
    ReversalNegates(verts);
    NegKeepsLength(NewellSum(verts));
  }

  lemma NegKeepsLength(n: Vec)
    ensures Dot(Neg(n), Neg(n)) == Dot(n, n)
  {
  }

  /** Of a triangle it is the area that two of its sides span. */
  lemma TriangleArea(a: Vec, b: Vec, c: Vec)
    ensures var normal := Cross(Sub(b, a), Sub(c, a)); AreaOf([a, b, c]) == Dot(normal, normal) / 4.0
  {
    hide Dot, CrossSum, Cross;
    var path := Closed([a, b, c]);
    assert path == [a, b, c, a] && path[1..] == [b, c, a] && path[1..][1..] == [c, a] && path[1..][1..][1..] == [a];
    CrossSumStep(path);
    CrossSumStep([b, c, a]);
    CrossSumStep([c, a]);
    CrossSumStep([a]);
    SidesSpan(a, b, c);
  }

  function BoundarySum(a: Vec, b: Vec, c: Vec): Vec {
    Add(Cross(a, b), Add(Cross(b, c), Add(Cross(c, a), ZERO)))
  }

  lemma SidesSpan(a: Vec, b: Vec, c: Vec)
    ensures BoundarySum(a, b, c) == Cross(Sub(b, a), Sub(c, a))
  {
    hide BoundarySum, Cross;
    SpanX(a, b, c);
    SpanY(a, b, c);
    SpanZ(a, b, c);
  }

  lemma SpanX(a: Vec, b: Vec, c: Vec)
    ensures BoundarySum(a, b, c).x == Cross(Sub(b, a), Sub(c, a)).x
  {
    SpanComponent(a.y, a.z, b.y, b.z, c.y, c.z);
  }

  lemma SpanY(a: Vec, b: Vec, c: Vec)
    ensures BoundarySum(a, b, c).y == Cross(Sub(b, a), Sub(c, a)).y
  {
    SpanComponent(a.z, a.x, b.z, b.x, c.z, c.x);
  }

  lemma SpanZ(a: Vec, b: Vec, c: Vec)
    ensures BoundarySum(a, b, c).z == Cross(Sub(b, a), Sub(c, a)).z
  {
    SpanComponent(a.x, a.y, b.x, b.y, c.x, c.y);
  }

  lemma SpanComponent(a: real, a': real, b: real, b': real, c: real, c': real)
    ensures a * b' - a' * b + (b * c' - b' * c + (c * a' - c' * a)) == (b - a) * (c' - a') - (b' - a') * (c - a)
  {
    assert (b - a) * (c' - a') == b * c' - b * a' - a * c' + a * a';
    assert (b' - a') * (c - a) == b' * c - b' * a - a' * c + a' * a;
  }

  function Sq(a: real): real { a * a }

  lemma SqNonNegative(a: real)
    ensures Sq(a) >= 0.0
  {
  }

  lemma ProductPositive(a: real, b: real, product: real)
    requires a > 0.0 && b > 0.0 && product == a * b
    ensures product > 0.0
  {
  }

  lemma SqPositive(a: real)
    requires a > 0.0
    ensures Sq(a) > 0.0
  {
    ProductPositive(a, a, Sq(a));
  }

  function Rise(n: Vec): real { Sq(n.y) }

  function Run(n: Vec): real { Sq(n.x) + Sq(n.z) }

  function PitchSquared(n: Vec): real {
    if n.y <= 0.0 then 0.0
    else
      SqPositive(n.y);
      144.0 * Run(n) / Rise(n)
  }

  /**
   `mkfacet`. The facet faces upward, keeps the boundary up to its direction, its footprint is
   never larger than its surface, and surface, footprint and pitch fit together.
   */
  method MakeFacet(verts: seq<Vec>) returns (f: Facet)
    ensures f.vertices == if NewellSum(verts).y < 0.0 then Reverse(verts) else verts
    ensures f.normal == NewellSum(f.vertices) && f.normal.y >= 0.0
    ensures f.normal == NewellSum(verts) || f.normal == Neg(NewellSum(verts))
    ensures f.trueSquared == AreaOf(verts) && f.planarSquared == AreaOf(Project(f.vertices))
    ensures 0.0 <= f.planarSquared <= f.trueSquared
    ensures f.normal.y > 0.0 ==> f.trueSquared == f.planarSquared * (1.0 + f.pitchSquared / 144.0)
    ensures f.normal.y == 0.0 ==> f.planarSquared == 0.0 && f.pitchSquared == 0.0
  {
    hide NewellSum, PitchSquared, Reverse, AreaOf, Dot, Project;
    var vertices := verts;
    var n := Accumulate(vertices);
    if n.y < 0.0 {
      ReversalNegates(verts);
      AreaIsIntrinsic(verts, 0, ZERO);
      vertices := Reverse(verts);
      n := Accumulate(vertices);
    }
    var trueSquared := AreaSquared(vertices);
    var planarSquared := AreaSquared(Project(vertices));
    FacetAreas(vertices, n);
    f := Facet(vertices, n, planarSquared, trueSquared, PitchSquared(n));
  }

  /** Surface and footprint of a polygon whose vector points upward. */
  lemma FacetAreas(verts: seq<Vec>, n: Vec)
    requires n == NewellSum(verts) && n.y >= 0.0
    ensures var planar, surface := AreaOf(Project(verts)), AreaOf(verts);
            && 0.0 <= planar <= surface
            && (n.y > 0.0 ==> surface == planar * (1.0 + PitchSquared(n) / 144.0))
            && (n.y == 0.0 ==> planar == 0.0 && PitchSquared(n) == 0.0)
  {
    hide NewellSum, CrossSum, Closed, Dot, PitchSquared, Project;
    NewellIsVectorArea(verts);
    NewellIsVectorArea(Project(verts));
    ProjectionKeepsVertical(verts);
    PlanarBelowTrue(n);
    VerticalFacet(n);
  }

  /** A facet without footprint is given no pitch. */
  lemma VerticalFacet(n: Vec)
    ensures n.y == 0.0 ==> Dot(Vec(0.0, n.y, 0.0), Vec(0.0, n.y, 0.0)) == 0.0 && PitchSquared(n) == 0.0
  {
  }

  lemma PlanarBelowTrue(n: Vec)
    ensures var flat := Vec(0.0, n.y, 0.0);
            && 0.0 <= Dot(flat, flat) <= Dot(n, n)
            && (n.y > 0.0 ==> Dot(n, n) / 4.0 == Dot(flat, flat) / 4.0 * (1.0 + PitchSquared(n) / 144.0))
  {
    hide Dot;
    hide Sq;
    DotSplits(n);
    SqNonNegative(n.x);
    SqNonNegative(n.y);
    SqNonNegative(n.z);
    if n.y > 0.0 {
      SqPositive(n.y);
      Ratio(Run(n), Rise(n));
    }
  }

  lemma DotSplits(n: Vec)
    ensures Dot(n, n) == Run(n) + Rise(n)
    ensures Dot(Vec(0.0, n.y, 0.0), Vec(0.0, n.y, 0.0)) == Rise(n)
  {
  }

  lemma Ratio(h: real, v: real)
    requires v > 0.0
    ensures (h + v) / 4.0 == v / 4.0 * (1.0 + 144.0 * h / v / 144.0)
  {
  }
}
