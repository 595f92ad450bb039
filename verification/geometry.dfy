/**
 * Volume and height of a triangle mesh, as the 3D viewer extracts them
 * once the STL file is loaded. The mesh is a triangle soup in
 * millimetres; the loader and the rendering library are not modelled and
 * the triangles are given directly.
 */
module Geometry {

  datatype Vec3 = Vec3(x: real, y: real, z: real)

  /** One facet, with its vertices in the order the file lists them. */
  datatype Triangle = Triangle(p1: Vec3, p2: Vec3, p3: Vec3)

  type Mesh = seq<Triangle>

  datatype Axis = X | Y | Z

  function Coord(v: Vec3, a: Axis): real
  {
    match a
    case X => v.x
    case Y => v.y
    case Z => v.z
  }

  function Dot(u: Vec3, v: Vec3): real
  {
    u.x * v.x + u.y * v.y + u.z * v.z
  }

  function Cross(u: Vec3, v: Vec3): Vec3
  {
    Vec3(u.y * v.z - u.z * v.y, u.z * v.x - u.x * v.z, u.x * v.y - u.y * v.x)
  }

  function Abs(r: real): real
  {
    if r < 0.0 then -r else r
  }

  /** Vertex `k` (0, 1 or 2) of a facet. */
  function Vertex(t: Triangle, k: nat): Vec3
    requires k < 3
  {
    if k == 0 then t.p1 else if k == 1 then t.p2 else t.p3
  }

  // ---------------------------------------------------------------------
  // Volume

  /** Signed volume of the tetrahedron spanned by the origin and the facet:
      a facet with two equal corners spans no volume. */
  function SignedVolume(t: Triangle): (v: real)
    ensures t.p1 == t.p2 || t.p2 == t.p3 || t.p1 == t.p3 ==> v == 0.0
  {
    Dot(t.p1, Cross(t.p2, t.p3)) / 6.0
  }

  /** Running sum of the facets' signed volumes, in mesh order: zero for no facets. */
  function SignedSum(m: Mesh): (v: real)
    ensures |m| == 0 ==> v == 0.0
  {
    if |m| == 0 then 0.0 else SignedSum(m[..|m| - 1]) + SignedVolume(m[|m| - 1])
  }

  /** Facets that each span no volume add up to no volume. */
  lemma {:induction false} FlatFacetsSumToZero(m: Mesh)
    requires forall i :: 0 <= i < |m| ==> SignedVolume(m[i]) == 0.0
    ensures SignedSum(m) == 0.0
  {
    if |m| > 0 {
      FlatFacetsSumToZero(m[..|m| - 1]);
    }
  }

  /** The reported volume in cubic millimetres: never negative, and zero for no facets. */
  function MeshVolume(m: Mesh): (v: real)
    ensures v >= 0.0
    ensures |m| == 0 ==> v == 0.0
  {
    Abs(SignedSum(m))
  }

  /** The signed sum of a concatenation is the sum of the parts' signed sums. */
  lemma {:induction false} SignedSumAppend(a: Mesh, b: Mesh)
    ensures SignedSum(a + b) == SignedSum(a) + SignedSum(b)
    decreases |b|
  {
    if |b| == 0 {
      assert a + b == a;
    } else {
      var b' := b[..|b| - 1];
      assert (a + b)[..|a + b| - 1] == a + b';
      SignedSumAppend(a, b');
    }
  }

  /** The facet with its last two vertices exchanged: the opposite winding. */
  function Flip(t: Triangle): Triangle
  {
    Triangle(t.p1, t.p3, t.p2)
  }

  function FlipAll(m: Mesh): (r: Mesh)
    ensures |r| == |m|
    ensures forall i :: 0 <= i < |m| ==> r[i] == Flip(m[i])
  {
    seq(|m|, i requires 0 <= i < |m| => Flip(m[i]))
  }

  lemma FlipNegates(t: Triangle)
    ensures SignedVolume(Flip(t)) == -SignedVolume(t)
  {
  }

  /** Reversing the winding of every facet negates the signed sum and
      leaves the reported volume unchanged. */
  lemma {:induction false} FlipAllKeepsVolume(m: Mesh)
    ensures SignedSum(FlipAll(m)) == -SignedSum(m)
    ensures MeshVolume(FlipAll(m)) == MeshVolume(m)
  {
    if |m| > 0 {
      var m' := m[..|m| - 1];
      var r := FlipAll(m);
      assert r[..|r| - 1] == FlipAll(m');
      FlipAllKeepsVolume(m');
      FlipNegates(m[|m| - 1]);
    }
  }

  // ---------------------------------------------------------------------
  // Bounding box

  function Min(a: real, b: real): real { if a <= b then a else b }
  function Max(a: real, b: real): real { if a >= b then a else b }

  /** An axis-aligned box by its low and high corners. */
  datatype Box = Box(lo: Vec3, hi: Vec3)

  function MinVec(u: Vec3, v: Vec3): Vec3 { Vec3(Min(u.x, v.x), Min(u.y, v.y), Min(u.z, v.z)) }
  function MaxVec(u: Vec3, v: Vec3): Vec3 { Vec3(Max(u.x, v.x), Max(u.y, v.y), Max(u.z, v.z)) }

  lemma CoordOfMinMax(u: Vec3, v: Vec3, a: Axis)
    ensures Coord(MinVec(u, v), a) == Min(Coord(u, a), Coord(v, a))
    ensures Coord(MaxVec(u, v), a) == Max(Coord(u, a), Coord(v, a))
  {
    match a
    case X =>
    case Y =>
    case Z =>
  }

  /** The bounding box of a non-empty mesh, grown facet by facet. */
  function BoundingBox(m: Mesh): (b: Box)
    requires |m| > 0
    ensures b.lo.x <= b.hi.x && b.lo.y <= b.hi.y && b.lo.z <= b.hi.z
  {
    var t := m[|m| - 1];
    var here := Box(MinVec(t.p1, MinVec(t.p2, t.p3)), MaxVec(t.p1, MaxVec(t.p2, t.p3)));
    if |m| == 1 then here
    else
      var rest := BoundingBox(m[..|m| - 1]);
      Box(MinVec(rest.lo, here.lo), MaxVec(rest.hi, here.hi))
  }

  function MinCoord(m: Mesh, a: Axis): real
    requires |m| > 0
  {
    Coord(BoundingBox(m).lo, a)
  }

  function MaxCoord(m: Mesh, a: Axis): real
    requires |m| > 0
  {
    Coord(BoundingBox(m).hi, a)
  }

  /** True when `lo` is the smallest coordinate along `a` of any vertex. */
  ghost predicate IsLeast(m: Mesh, a: Axis, lo: real)
  {
    && (forall i, k :: 0 <= i < |m| && 0 <= k < 3 ==> lo <= Coord(Vertex(m[i], k), a))
    && (exists i, k :: 0 <= i < |m| && 0 <= k < 3 && Coord(Vertex(m[i], k), a) == lo)
  }

  /** True when `hi` is the largest coordinate along `a` of any vertex. */
  ghost predicate IsGreatest(m: Mesh, a: Axis, hi: real)
  {
    && (forall i, k :: 0 <= i < |m| && 0 <= k < 3 ==> Coord(Vertex(m[i], k), a) <= hi)
    && (exists i, k :: 0 <= i < |m| && 0 <= k < 3 && Coord(Vertex(m[i], k), a) == hi)
  }

  lemma {:induction false} BoxLowIsLeast(m: Mesh, a: Axis)
    requires |m| > 0
    ensures IsLeast(m, a, MinCoord(m, a))
  {
    var n := |m| - 1;
    var t := m[n];
    CoordOfMinMax(t.p2, t.p3, a);
    CoordOfMinMax(t.p1, MinVec(t.p2, t.p3), a);
    assert Vertex(t, 0) == t.p1 && Vertex(t, 1) == t.p2 && Vertex(t, 2) == t.p3;
    if |m| > 1 {
      var m' := m[..n];
      BoxLowIsLeast(m', a);
      CoordOfMinMax(BoundingBox(m').lo, MinVec(t.p1, MinVec(t.p2, t.p3)), a);
      assert forall i :: 0 <= i < n ==> m'[i] == m[i];
      var i1, k1 :| 0 <= i1 < n && 0 <= k1 < 3 && Coord(Vertex(m'[i1], k1), a) == MinCoord(m', a);
    }
  }

  lemma {:induction false} BoxHighIsGreatest(m: Mesh, a: Axis)
    requires |m| > 0
    ensures IsGreatest(m, a, MaxCoord(m, a))
  {
    var n := |m| - 1;
    var t := m[n];
    CoordOfMinMax(t.p2, t.p3, a);
    CoordOfMinMax(t.p1, MaxVec(t.p2, t.p3), a);
    assert Vertex(t, 0) == t.p1 && Vertex(t, 1) == t.p2 && Vertex(t, 2) == t.p3;
    if |m| > 1 {
      var m' := m[..n];
      BoxHighIsGreatest(m', a);
      CoordOfMinMax(BoundingBox(m').hi, MaxVec(t.p1, MaxVec(t.p2, t.p3)), a);
      assert forall i :: 0 <= i < n ==> m'[i] == m[i];
      var i2, k2 :| 0 <= i2 < n && 0 <= k2 < 3 && Coord(Vertex(m'[i2], k2), a) == MaxCoord(m', a);
    }
  }

  /** The bounding box is tight: its corners hold the least and greatest
      vertex coordinate on every axis. */
  lemma BoxIsTight(m: Mesh, a: Axis)
    requires |m| > 0
    ensures IsLeast(m, a, MinCoord(m, a))
    ensures IsGreatest(m, a, MaxCoord(m, a))
  {
    BoxLowIsLeast(m, a);
    BoxHighIsGreatest(m, a);
  }

  /** Extent of a non-empty mesh along `a`; never negative. */
  function Extent(m: Mesh, a: Axis): (e: real)
    requires |m| > 0
    ensures e >= 0.0
  {
    BoxIsTight(m, a);
    assert MinCoord(m, a) <= Coord(Vertex(m[0], 0), a) <= MaxCoord(m, a);
    MaxCoord(m, a) - MinCoord(m, a)
  }

  // ---------------------------------------------------------------------
  // Centering

  function AddVec(u: Vec3, v: Vec3): Vec3
  {
    Vec3(u.x + v.x, u.y + v.y, u.z + v.z)
  }

  function TranslateTriangle(t: Triangle, d: Vec3): Triangle
  {
    Triangle(AddVec(t.p1, d), AddVec(t.p2, d), AddVec(t.p3, d))
  }

  /** Every vertex moved by `d`. */
  function Translate(m: Mesh, d: Vec3): (r: Mesh)
    ensures |r| == |m|
    ensures forall i :: 0 <= i < |m| ==> r[i] == TranslateTriangle(m[i], d)
  {
    if |m| == 0 then [] else [TranslateTriangle(m[0], d)] + Translate(m[1..], d)
  }

  lemma CoordOfSum(u: Vec3, d: Vec3, a: Axis)
    ensures Coord(AddVec(u, d), a) == Coord(u, a) + Coord(d, a)
  {
  }

  /** Translating moves both ends of the bounding box by the same amount. */
  lemma TranslateShiftsBox(m: Mesh, d: Vec3, a: Axis)
    requires |m| > 0
    ensures MinCoord(Translate(m, d), a) == MinCoord(m, a) + Coord(d, a)
    ensures MaxCoord(Translate(m, d), a) == MaxCoord(m, a) + Coord(d, a)
  {
    var r := Translate(m, d);
    BoxIsTight(m, a);
    BoxIsTight(r, a);
    forall i, k | 0 <= i < |m| && 0 <= k < 3
      ensures Coord(Vertex(r[i], k), a) == Coord(Vertex(m[i], k), a) + Coord(d, a)
    {
      assert Vertex(r[i], k) == AddVec(Vertex(m[i], k), d);
      CoordOfSum(Vertex(m[i], k), d, a);
    }
    var i1, k1 :| 0 <= i1 < |m| && 0 <= k1 < 3 && Coord(Vertex(m[i1], k1), a) == MinCoord(m, a);
    var i2, k2 :| 0 <= i2 < |m| && 0 <= k2 < 3 && Coord(Vertex(r[i2], k2), a) == MinCoord(r, a);
    var i3, k3 :| 0 <= i3 < |m| && 0 <= k3 < 3 && Coord(Vertex(m[i3], k3), a) == MaxCoord(m, a);
    var i4, k4 :| 0 <= i4 < |m| && 0 <= k4 < 3 && Coord(Vertex(r[i4], k4), a) == MaxCoord(r, a);
  }

  /** The midpoint of a box. */
  function Mid(b: Box): Vec3
  {
    Vec3((b.lo.x + b.hi.x) / 2.0, (b.lo.y + b.hi.y) / 2.0, (b.lo.z + b.hi.z) / 2.0)
  }

  function Negate(v: Vec3): Vec3
  {
    Vec3(-v.x, -v.y, -v.z)
  }

  /** The mesh moved so that its bounding box is centred on the origin
      (a mesh without vertices has nothing to move). */
  function Center(m: Mesh): (c: Mesh)
    ensures |c| == |m|
    ensures |m| > 0 ==> forall i :: 0 <= i < |m| ==> c[i] == TranslateTriangle(m[i], Negate(Mid(BoundingBox(m))))
  {
    if |m| == 0 then m else Translate(m, Negate(Mid(BoundingBox(m))))
  }

  lemma CenterCoord(m: Mesh, a: Axis)
    requires |m| > 0
    ensures Coord(Negate(Mid(BoundingBox(m))), a) == -(MinCoord(m, a) + MaxCoord(m, a)) / 2.0
  {
    match a
    case X =>
    case Y =>
    case Z =>
  }

  /** After centering, the bounding box is symmetric about the origin on
      every axis, and its extent on every axis is what it was. */
  lemma {:induction false} CenteredBoxIsSymmetric(m: Mesh, a: Axis)
    requires |m| > 0
    ensures MinCoord(Center(m), a) == -MaxCoord(Center(m), a)
    ensures Extent(Center(m), a) == Extent(m, a)
  {
    var d := Negate(Mid(BoundingBox(m)));
    var lo, hi := MinCoord(m, a), MaxCoord(m, a);
    var c := Center(m);
    assert MinCoord(c, a) == lo + Coord(d, a) && MaxCoord(c, a) == hi + Coord(d, a) by {
      TranslateShiftsBox(m, d, a);
    }
    assert Coord(d, a) == -(lo + hi) / 2.0 by {
      CenterCoord(m, a);
    }
  }

  // ---------------------------------------------------------------------
  // Extraction

  /** What the viewer reports for a loaded file. */
  datatype Measurement = Measurement(volumeCm3: real, heightMm: real)

  /** Centres the mesh, then reports its volume in cm3 and its Z extent in
      mm; both are never negative. */
  function Extract(m: Mesh): (r: Measurement)
    ensures r.volumeCm3 >= 0.0 && r.heightMm >= 0.0
  {
    var c := Center(m);
    Measurement(MeshVolume(c) / 1000.0, if |c| == 0 then 0.0 else Extent(c, Z))
  }

  /** The reported volume is the centred mesh's volume converted from mm3 to cm3. */
  lemma VolumeInCubicCentimetres(m: Mesh)
    ensures Extract(m).volumeCm3 * 1000.0 == MeshVolume(Center(m))
  {
  }

  /** A mesh without facets reports zero volume and zero height. */
  lemma EmptyMeshMeasuresZero()
    ensures Extract([]) == Measurement(0.0, 0.0)
  {
  }

  /** The reported height is the mesh's own Z extent: centering does not change it. */
  lemma HeightIsZExtent(m: Mesh)
    requires |m| > 0
    ensures Extract(m).heightMm == MaxCoord(m, Z) - MinCoord(m, Z)
  {
    CenteredBoxIsSymmetric(m, Z);
  }

  // ---------------------------------------------------------------------
  // Worked shapes

  /** The corner tetrahedron (0,0,0), (a,0,0), (0,b,0), (0,0,c) with every
      facet wound so that its normal points outwards. */
  function Tetrahedron(a: real, b: real, c: real): Mesh
  {
    var o, pa, pb, pc := Vec3(0.0, 0.0, 0.0), Vec3(a, 0.0, 0.0), Vec3(0.0, b, 0.0), Vec3(0.0, 0.0, c);
    [Triangle(o, pb, pa), Triangle(o, pa, pc), Triangle(o, pc, pb), Triangle(pa, pb, pc)]
  }

  lemma SignedSumStep(m: Mesh, n: nat)
    requires 0 < n <= |m|
    ensures SignedSum(m[..n]) == SignedSum(m[..n - 1]) + SignedVolume(m[n - 1])
  {
    assert m[..n][..n - 1] == m[..n - 1];
  }

  /** The signed sum of a four-facet mesh, facet by facet. */
  lemma SignedSumOfFour(m: Mesh)
    requires |m| == 4
    ensures SignedSum(m) == SignedVolume(m[0]) + SignedVolume(m[1]) + SignedVolume(m[2]) + SignedVolume(m[3])
  {
    assert m[..0] == [];
    SignedSumStep(m, 1);
    SignedSumStep(m, 2);
    SignedSumStep(m, 3);
    SignedSumStep(m, 4);
    assert m[..4] == m;
  }

  lemma BoundingBoxStep(m: Mesh, n: nat)
    requires 1 < n <= |m|
    ensures var t, rest := m[n - 1], BoundingBox(m[..n - 1]);
      BoundingBox(m[..n]) == Box(MinVec(rest.lo, MinVec(t.p1, MinVec(t.p2, t.p3))),
                                 MaxVec(rest.hi, MaxVec(t.p1, MaxVec(t.p2, t.p3))))
  {
    assert m[..n][..n - 1] == m[..n - 1];
  }

  /** The signed sum of the closed tetrahedron is its volume abc/6. */
  lemma TetrahedronVolume(a: real, b: real, c: real)
    requires a > 0.0 && b > 0.0 && c > 0.0
    ensures SignedSum(Tetrahedron(a, b, c)) == a * b * c / 6.0
    ensures MeshVolume(Tetrahedron(a, b, c)) == a * b * c / 6.0
  {
    var m := Tetrahedron(a, b, c);
    SignedSumOfFour(m);
    assert SignedVolume(m[3]) == a * b * c / 6.0;
  }

  lemma TetrahedronBox(a: real, b: real, c: real)
    requires a > 0.0 && b > 0.0 && c > 0.0
    ensures BoundingBox(Tetrahedron(a, b, c)) == Box(Vec3(0.0, 0.0, 0.0), Vec3(a, b, c))
  {
    var m := Tetrahedron(a, b, c);
    assert m[..1] == [m[0]];
    BoundingBoxStep(m, 2);
    BoundingBoxStep(m, 3);
    BoundingBoxStep(m, 4);
    assert m[..4] == m;
  }

  /** The four triple products of the moved tetrahedron add up to abc:
      the terms that depend on `d` cancel. */
  lemma MovedTripleProducts(a: real, b: real, c: real, d: Vec3)
    ensures var o, pa, pb, pc := d, AddVec(Vec3(a, 0.0, 0.0), d), AddVec(Vec3(0.0, b, 0.0), d), AddVec(Vec3(0.0, 0.0, c), d);
      Dot(o, Cross(pb, pa)) + Dot(o, Cross(pa, pc)) + Dot(o, Cross(pc, pb)) + Dot(pa, Cross(pb, pc)) == a * b * c
  {
  }

  /** The tetrahedron moved by `d` still has signed sum abc/6. */
  lemma TetrahedronMovedVolume(a: real, b: real, c: real, d: Vec3)
    ensures SignedSum(Translate(Tetrahedron(a, b, c), d)) == a * b * c / 6.0
  {
    var t := Translate(Tetrahedron(a, b, c), d);
    SignedSumOfFour(t);
    var o, pa, pb, pc := d, AddVec(Vec3(a, 0.0, 0.0), d), AddVec(Vec3(0.0, b, 0.0), d), AddVec(Vec3(0.0, 0.0, c), d);
    assert t == [Triangle(o, pb, pa), Triangle(o, pa, pc), Triangle(o, pc, pb), Triangle(pa, pb, pc)];
    MovedTripleProducts(a, b, c, d);
  }

  /** The viewer reports the tetrahedron as abc/6 mm3 converted to cm3, and
      c mm tall: for this closed mesh, centering does not change the volume. */
  lemma TetrahedronExtraction(a: real, b: real, c: real)
    requires a > 0.0 && b > 0.0 && c > 0.0
    ensures Extract(Tetrahedron(a, b, c)) == Measurement(a * b * c / 6000.0, c)
  {
    var m := Tetrahedron(a, b, c);
    TetrahedronBox(a, b, c);
    TetrahedronMovedVolume(a, b, c, Negate(Mid(BoundingBox(m))));
    HeightIsZExtent(m);
  }

  /** For an open mesh the sum depends on where the mesh sits, so centering
      first changes the reported volume: a lone facet at height 1 counts
      1/6 mm3 in place but nothing once centred. */
  lemma OpenMeshDependsOnPlacement()
    ensures var m := [Triangle(Vec3(0.0, 0.0, 1.0), Vec3(1.0, 0.0, 1.0), Vec3(0.0, 1.0, 1.0))];
      MeshVolume(m) == 1.0 / 6.0 && MeshVolume(Center(m)) == 0.0
  {
    var m := [Triangle(Vec3(0.0, 0.0, 1.0), Vec3(1.0, 0.0, 1.0), Vec3(0.0, 1.0, 1.0))];
    assert m[..0] == [];
    assert BoundingBox(m) == Box(Vec3(0.0, 0.0, 1.0), Vec3(1.0, 1.0, 1.0));
    var c := Center(m);
    assert c[..0] == [];
    assert c[0].p1.z == 0.0 && c[0].p2.z == 0.0 && c[0].p3.z == 0.0;
  }
}
