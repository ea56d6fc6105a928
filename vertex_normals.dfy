/** `findVertexNormals` of objParse.js: every vertex normal is the normalised
    sum of the normalised face vectors of the triangles that use the vertex.
    Coordinates are exact reals; `normalize` (a division by a square root in
    the source) is the parameter `normalize`. */
module VertexNormals {
  import opened VecMath

  /** What the source expects of its arguments: 4 values per vertex, 3 indices
      per triangle, every index naming a vertex. */
  predicate ValidMesh(meshVertices: seq<real>, meshIndices: seq<int>) {
    && |meshVertices| % 4 == 0
    && |meshIndices| % 3 == 0
    && forall j :: 0 <= j < |meshIndices| ==> 0 <= meshIndices[j] < |meshVertices| / 4
  }

  /** The x, y, z of vertex `w` (its w component is not read). */
  function Position(meshVertices: seq<real>, w: int): Vec3
    requires 0 <= w < |meshVertices| / 4
  {
    Vec3(meshVertices[4 * w], meshVertices[4 * w + 1], meshVertices[4 * w + 2])
  }

  /** The unnormalised face vector of triangle `t`: cross(v2 - v0, v1 - v0). */
  function FaceVector(meshVertices: seq<real>, meshIndices: seq<int>, t: int): Vec3
    requires ValidMesh(meshVertices, meshIndices) && 0 <= t < |meshIndices| / 3
  {
    var v0 := Position(meshVertices, meshIndices[3 * t]);
    var v1 := Position(meshVertices, meshIndices[3 * t + 1]);
    var v2 := Position(meshVertices, meshIndices[3 * t + 2]);
    Cross(Difference(v2, v0), Difference(v1, v0))
  }

  function AddIf(b: bool, a: Vec3, n: Vec3): Vec3 {
    if b then Add(a, n) else a
  }

  /** The normalised face vector of every triangle, in order. */
  function FaceNormals(meshVertices: seq<real>, meshIndices: seq<int>, normalize: Vec3 -> Vec3): (ns: seq<Vec3>)
    requires ValidMesh(meshVertices, meshIndices)
    ensures |ns| == |meshIndices| / 3
    ensures forall t :: 0 <= t < |ns| ==> ns[t] == normalize(FaceVector(meshVertices, meshIndices, t))
  {
    seq(|meshIndices| / 3, t requires 0 <= t < |meshIndices| / 3 => normalize(FaceVector(meshVertices, meshIndices, t)))
  }

  /** The accumulator of vertex `w` after the first `k` triangles: triangle `t`
      adds `normals[t]` once for each of its three corners that is `w`. */
  function Accumulated(meshIndices: seq<int>, normals: seq<Vec3>, k: int, w: int): Vec3
    requires 0 <= k <= |normals| && 3 * |normals| <= |meshIndices|
    decreases k
  {
    if k == 0 then Zero
    else
      var t := k - 1;
      var n := normals[t];
      var a := Accumulated(meshIndices, normals, t, w);
      AddIf(meshIndices[3 * t + 2] == w, AddIf(meshIndices[3 * t + 1] == w, AddIf(meshIndices[3 * t] == w, a, n), n), n)
  }

  /** The normal of vertex `w` that the source leaves in `vertexNormals`. */
  function VertexNormal(meshVertices: seq<real>, meshIndices: seq<int>, normalize: Vec3 -> Vec3, w: int): Vec3
    requires ValidMesh(meshVertices, meshIndices)
  {
    normalize(Accumulated(meshIndices, FaceNormals(meshVertices, meshIndices, normalize), |meshIndices| / 3, w))
  }

  /** The three slots of vertex `w` in `vertexNormals`. */
  function Slots(s: seq<real>, w: int): Vec3
    requires 0 <= w && 3 * w + 2 < |s|
  {
    Vec3(s[3 * w], s[3 * w + 1], s[3 * w + 2])
  }

  /** Components below `c` from `p`, the others from `q`. */
  function Mix(p: Vec3, q: Vec3, c: int): Vec3 {
    Vec3(if 0 < c then p.x else q.x, if 1 < c then p.y else q.y, if 2 < c then p.z else q.z)
  }

  /** What adding `n` at corners `i0`, `i1`, `i2` does to vertex `w`'s slots `a`. */
  function AddAtCorners(a: Vec3, i0: int, i1: int, i2: int, n: Vec3, w: int): Vec3 {
    AddIf(i2 == w, AddIf(i1 == w, AddIf(i0 == w, a, n), n), n)
  }

  /** One pass of the inner loop: component `c` of `n` is added to component
      `c` of each corner's slots, in order, so a vertex named twice gets it twice. */
  lemma AddComponent(s: seq<real>, s0: seq<real>, s1: seq<real>, s2: seq<real>, s3: seq<real>,
                     i0: int, i1: int, i2: int, n: Vec3, c: int)
    requires 0 <= c < 3 && |s0| == |s| && |s| % 3 == 0
    requires 0 <= i0 && 3 * i0 + 2 < |s| && 0 <= i1 && 3 * i1 + 2 < |s| && 0 <= i2 && 3 * i2 + 2 < |s|
    requires forall w :: 0 <= w < |s| / 3 ==> Slots(s0, w) == Mix(AddAtCorners(Slots(s, w), i0, i1, i2, n, w), Slots(s, w), c)
    requires s1 == s0[3 * i0 + c := s0[3 * i0 + c] + Comp(n, c)]
    requires s2 == s1[3 * i1 + c := s1[3 * i1 + c] + Comp(n, c)]
    requires s3 == s2[3 * i2 + c := s2[3 * i2 + c] + Comp(n, c)]
    ensures forall w :: 0 <= w < |s| / 3 ==> Slots(s3, w) == Mix(AddAtCorners(Slots(s, w), i0, i1, i2, n, w), Slots(s, w), c + 1)
  {
    var d := Comp(n, c);
    forall w | 0 <= w < |s| / 3
      ensures Slots(s3, w) == Mix(AddAtCorners(Slots(s, w), i0, i1, i2, n, w), Slots(s, w), c + 1)
    {
      SlotBump(s0, s1, s2, s3, i0, i1, i2, c, d, w, 0);
      SlotBump(s0, s1, s2, s3, i0, i1, i2, c, d, w, 1);
      SlotBump(s0, s1, s2, s3, i0, i1, i2, c, d, w, 2);
    }
  }

  /** Slot `k` of vertex `w` after the three increments of component `c`. */
  lemma SlotBump(s0: seq<real>, s1: seq<real>, s2: seq<real>, s3: seq<real>,
                 i0: int, i1: int, i2: int, c: int, d: real, w: int, k: int)
    requires 0 <= c < 3 && 0 <= k < 3
    requires 0 <= 3 * i0 + c < |s0| && 0 <= 3 * i1 + c < |s0| && 0 <= 3 * i2 + c < |s0| && 0 <= 3 * w + k < |s0|
    requires s1 == s0[3 * i0 + c := s0[3 * i0 + c] + d]
    requires s2 == s1[3 * i1 + c := s1[3 * i1 + c] + d]
    requires s3 == s2[3 * i2 + c := s2[3 * i2 + c] + d]
    ensures s3[3 * w + k] == s0[3 * w + k] + (if k == c then Bumps(i0 == w, i1 == w, i2 == w, d) else 0.0)
  {
    Bump3(s0, s1, s2, s3, 3 * i0 + c, 3 * i1 + c, 3 * i2 + c, d, 3 * w + k);
  }

  function Bumps(b0: bool, b1: bool, b2: bool, d: real): real {
    (if b0 then d else 0.0) + (if b1 then d else 0.0) + (if b2 then d else 0.0)
  }

  /** Three successive increments by `d`, seen at one position `j`. */
  lemma Bump3(s0: seq<real>, s1: seq<real>, s2: seq<real>, s3: seq<real>, j0: int, j1: int, j2: int, d: real, j: int)
    requires 0 <= j0 < |s0| && 0 <= j1 < |s0| && 0 <= j2 < |s0| && 0 <= j < |s0|
    requires s1 == s0[j0 := s0[j0] + d] && s2 == s1[j1 := s1[j1] + d] && s3 == s2[j2 := s2[j2] + d]
    ensures s3[j] == s0[j] + Bumps(j0 == j, j1 == j, j2 == j, d)
  {
  }

  /** Writing the three slots of vertex `v` leaves every other vertex's slots alone. */
  lemma StoreSlots(s0: seq<real>, s3: seq<real>, v: int, n: Vec3)
    requires 0 <= v && 3 * v + 2 < |s0|
    requires s3 == s0[3 * v := n.x][3 * v + 1 := n.y][3 * v + 2 := n.z]
    ensures Slots(s3, v) == n
    ensures forall w :: 0 <= w && 3 * w + 2 < |s0| && w != v ==> Slots(s3, w) == Slots(s0, w)
  {
  }

  lemma MixEnds(p: Vec3, q: Vec3)
    ensures Mix(p, q, 0) == q && Mix(p, q, 3) == p
  {
  }

  /** The inner loop over the components `c` of one triangle: component `c`
      of `n` is added to each corner's slot `c`, so every vertex gains `n`
      once per corner that names it. */
  method AddToCorners(vertexNormals: array<real>, i0: int, i1: int, i2: int, n: Vec3)
    requires vertexNormals.Length % 3 == 0
    requires 0 <= i0 && 3 * i0 + 2 < vertexNormals.Length
    requires 0 <= i1 && 3 * i1 + 2 < vertexNormals.Length
    requires 0 <= i2 && 3 * i2 + 2 < vertexNormals.Length
    modifies vertexNormals
    ensures forall w :: 0 <= w < vertexNormals.Length / 3 ==>
      Slots(vertexNormals[..], w) == AddAtCorners(Slots(old(vertexNormals[..]), w), i0, i1, i2, n, w)
  {
    ghost var before := vertexNormals[..];
    var c := 0;
    while c < 3
      invariant 0 <= c <= 3
      invariant forall w :: 0 <= w < vertexNormals.Length / 3 ==>
        Slots(vertexNormals[..], w) == Mix(AddAtCorners(Slots(before, w), i0, i1, i2, n, w), Slots(before, w), c)
    {
      ghost var s0 := vertexNormals[..];
      vertexNormals[3 * i0 + c] := vertexNormals[3 * i0 + c] + Comp(n, c);
      ghost var s1 := vertexNormals[..];
      vertexNormals[3 * i1 + c] := vertexNormals[3 * i1 + c] + Comp(n, c);
      ghost var s2 := vertexNormals[..];
      vertexNormals[3 * i2 + c] := vertexNormals[3 * i2 + c] + Comp(n, c);
      AddComponent(before, s0, s1, s2, vertexNormals[..], i0, i1, i2, n, c);
      c := c + 1;
    }
    forall w | 0 <= w < vertexNormals.Length / 3
      ensures Slots(vertexNormals[..], w) == AddAtCorners(Slots(before, w), i0, i1, i2, n, w)
    {
      MixEnds(AddAtCorners(Slots(before, w), i0, i1, i2, n, w), Slots(before, w));
    }
  }

  /** The three loops of the source: zero the slots, add each triangle's
      normalised face vector into its corners' slots, normalise each slot. */
  method FindVertexNormals(meshVertices: seq<real>, meshIndices: seq<int>, vertexNormals: array<real>,
                           normalize: Vec3 -> Vec3)
    requires ValidMesh(meshVertices, meshIndices)
    requires vertexNormals.Length == |meshVertices| / 4 * 3
    modifies vertexNormals
    ensures forall w :: 0 <= w < |meshVertices| / 4 ==>
      Slots(vertexNormals[..], w) == VertexNormal(meshVertices, meshIndices, normalize, w)
  {
    var numVertices := |meshVertices| / 4;
    var numTriangles := |meshIndices| / 3;
    assert vertexNormals.Length / 3 == numVertices;
    ghost var normals := FaceNormals(meshVertices, meshIndices, normalize);
    ZeroSlots(vertexNormals);
    var i := 0;
    while i < numTriangles
      invariant 0 <= i <= numTriangles
      invariant forall w :: 0 <= w < numVertices ==>
        Slots(vertexNormals[..], w) == Accumulated(meshIndices, normals, i, w)
    {
      var i0 := meshIndices[3 * i];
      var i1 := meshIndices[3 * i + 1];
      var i2 := meshIndices[3 * i + 2];
      var v0 := Vec3(meshVertices[4 * i0], meshVertices[4 * i0 + 1], meshVertices[4 * i0 + 2]);
      var v1 := Vec3(meshVertices[4 * i1], meshVertices[4 * i1 + 1], meshVertices[4 * i1 + 2]);
      var v2 := Vec3(meshVertices[4 * i2], meshVertices[4 * i2 + 1], meshVertices[4 * i2 + 2]);
      var curNormal := Cross(Difference(v2, v0), Difference(v1, v0));
      curNormal := normalize(curNormal);
      assert curNormal == normals[i];
      ghost var before := vertexNormals[..];
      AddToCorners(vertexNormals, i0, i1, i2, curNormal);
      forall w | 0 <= w < numVertices
        ensures Slots(vertexNormals[..], w) == Accumulated(meshIndices, normals, i + 1, w)
      {
        assert Slots(vertexNormals[..], w) == AddAtCorners(Slots(before, w), i0, i1, i2, curNormal, w);
      }
      i := i + 1;
    }
    ghost var summed := vertexNormals[..];
    NormalizeSlots(vertexNormals, normalize);
    forall w | 0 <= w < numVertices
      ensures Slots(vertexNormals[..], w) == VertexNormal(meshVertices, meshIndices, normalize, w)
    {
      assert Slots(vertexNormals[..], w) == normalize(Slots(summed, w));
    }
  }

  /** The first loop: every slot of every vertex becomes 0. */
  method ZeroSlots(vertexNormals: array<real>)
    requires vertexNormals.Length % 3 == 0
    modifies vertexNormals
    ensures forall w :: 0 <= w < vertexNormals.Length / 3 ==> Slots(vertexNormals[..], w) == Zero
  {
    var numVertices := vertexNormals.Length / 3;
    var v := 0;
    while v < numVertices
      invariant 0 <= v <= numVertices
      invariant forall j :: 0 <= j < 3 * v ==> vertexNormals[j] == 0.0
    {
      vertexNormals[3 * v] := 0.0;
      vertexNormals[3 * v + 1] := 0.0;
      vertexNormals[3 * v + 2] := 0.0;
      v := v + 1;
    }
    forall w | 0 <= w < numVertices
      ensures Slots(vertexNormals[..], w) == Zero
    {
      assert vertexNormals[3 * w] == 0.0 && vertexNormals[3 * w + 1] == 0.0 && vertexNormals[3 * w + 2] == 0.0;
    }
  }

  /** The last loop: the slots of every vertex are replaced by their
      normalisation. */
  method NormalizeSlots(vertexNormals: array<real>, normalize: Vec3 -> Vec3)
    requires vertexNormals.Length % 3 == 0
    modifies vertexNormals
    ensures forall w :: 0 <= w < vertexNormals.Length / 3 ==>
      Slots(vertexNormals[..], w) == normalize(Slots(old(vertexNormals[..]), w))
  {
    ghost var summed := vertexNormals[..];
    var numVertices := vertexNormals.Length / 3;
    var v := 0;
    while v < numVertices
      invariant 0 <= v <= numVertices
      invariant forall w :: 0 <= w < numVertices ==>
        Slots(vertexNormals[..], w) == if w < v then normalize(Slots(summed, w)) else Slots(summed, w)
    {
      ghost var s0 := vertexNormals[..];
      var vNorm := normalize(Vec3(vertexNormals[3 * v], vertexNormals[3 * v + 1], vertexNormals[3 * v + 2]));
      assert vNorm == normalize(Slots(s0, v));
      vertexNormals[3 * v] := vNorm.x;
      vertexNormals[3 * v + 1] := vNorm.y;
      vertexNormals[3 * v + 2] := vNorm.z;
      StoreSlots(s0, vertexNormals[..], v, vNorm);
      v := v + 1;
    }
  }

  // ---------------------------------------------------------------------------
  // Properties of the accumulation

  /** A vertex that no triangle names keeps a zero accumulator. */
  lemma {:induction false} UnreferencedVertexZero(meshIndices: seq<int>, normals: seq<Vec3>, k: int, w: int)
    requires 0 <= k <= |normals| && 3 * |normals| <= |meshIndices|
    requires forall j :: 0 <= j < |meshIndices| ==> meshIndices[j] != w
    ensures Accumulated(meshIndices, normals, k, w) == Zero
    decreases k
  {
    if k > 0 {
      assert meshIndices[3 * (k - 1)] != w && meshIndices[3 * (k - 1) + 1] != w && meshIndices[3 * (k - 1) + 2] != w;
      UnreferencedVertexZero(meshIndices, normals, k - 1, w);
    }
  }

  /** A vertex named by exactly one corner, at index position `p`, ends with
      the normal of that corner's triangle and nothing else. */
  lemma {:induction false} SingleCornerVertex(meshIndices: seq<int>, normals: seq<Vec3>, k: int, w: int, p: int)
    requires 0 <= k <= |normals| && 3 * |normals| == |meshIndices|
    requires 0 <= p < |meshIndices| && meshIndices[p] == w
    requires forall j :: 0 <= j < |meshIndices| && meshIndices[j] == w ==> j == p
    ensures Accumulated(meshIndices, normals, k, w) == if k <= p / 3 then Zero else normals[p / 3]
    decreases k
  {
    if k > 0 {
      var t := k - 1;
      SingleCornerVertex(meshIndices, normals, t, w, p);
      if t != p / 3 {
        assert meshIndices[3 * t] != w && meshIndices[3 * t + 1] != w && meshIndices[3 * t + 2] != w;
      }
    }
  }

  /** The face vector points the opposite way to cross(v1 - v0, v2 - v0): a
      triangle listed counter-clockwise gets a normal pointing away from the viewer. */
  lemma FaceVectorOrientation(meshVertices: seq<real>, meshIndices: seq<int>, t: int)
    requires ValidMesh(meshVertices, meshIndices) && 0 <= t < |meshIndices| / 3
    ensures var v0 := Position(meshVertices, meshIndices[3 * t]);
            var v1 := Position(meshVertices, meshIndices[3 * t + 1]);
            var v2 := Position(meshVertices, meshIndices[3 * t + 2]);
            FaceVector(meshVertices, meshIndices, t) == Neg(Cross(Difference(v1, v0), Difference(v2, v0)))
  {
    var v0 := Position(meshVertices, meshIndices[3 * t]);
    var v1 := Position(meshVertices, meshIndices[3 * t + 1]);
    var v2 := Position(meshVertices, meshIndices[3 * t + 2]);
    CrossAntiCommutative(Difference(v1, v0), Difference(v2, v0));
  }

  /** Starting a triangle at its second corner, with the winding kept, gives
      the same face vector: only the winding decides the normal. */
  lemma FaceVectorCyclic(meshVertices: seq<real>, meshIndices: seq<int>, rotated: seq<int>, t: int)
    requires ValidMesh(meshVertices, meshIndices) && ValidMesh(meshVertices, rotated)
    requires 0 <= t < |meshIndices| / 3 && |rotated| == |meshIndices|
    requires rotated[3 * t] == meshIndices[3 * t + 1]
    requires rotated[3 * t + 1] == meshIndices[3 * t + 2]
    requires rotated[3 * t + 2] == meshIndices[3 * t]
    ensures FaceVector(meshVertices, rotated, t) == FaceVector(meshVertices, meshIndices, t)
  {
    var v0 := Position(meshVertices, meshIndices[3 * t]);
    var v1 := Position(meshVertices, meshIndices[3 * t + 1]);
    var v2 := Position(meshVertices, meshIndices[3 * t + 2]);
    CrossOfEdges(v0, v1, v2);
  }

  /** The face vector of corners `p0`, `p1`, `p2` equals that of `p1`, `p2`, `p0`. */
  lemma CrossOfEdges(p0: Vec3, p1: Vec3, p2: Vec3)
    ensures Cross(Difference(p0, p1), Difference(p2, p1)) == Cross(Difference(p2, p0), Difference(p1, p0))
  {
    var a := Difference(p1, p0);
    var b := Difference(p2, p0);
    assert Difference(p0, p1) == Neg(a);
    assert Difference(p2, p1) == Vec3(b.x - a.x, b.y - a.y, b.z - a.z);
    assert Cross(Neg(a), Vec3(b.x - a.x, b.y - a.y, b.z - a.z)) == Cross(b, a) by {
      assert (-a.y) * (b.z - a.z) - (-a.z) * (b.y - a.y) == b.y * a.z - b.z * a.y;
      assert (-a.z) * (b.x - a.x) - (-a.x) * (b.z - a.z) == b.z * a.x - b.x * a.z;
      assert (-a.x) * (b.y - a.y) - (-a.y) * (b.x - a.x) == b.x * a.y - b.y * a.x;
    }
  }

  /** Listing a triangle's corners in the opposite winding negates its face
      vector, so the normal flips to the other side. */
  lemma FaceVectorReversed(meshVertices: seq<real>, meshIndices: seq<int>, reversed: seq<int>, t: int)
    requires ValidMesh(meshVertices, meshIndices) && ValidMesh(meshVertices, reversed)
    requires 0 <= t < |meshIndices| / 3 && |reversed| == |meshIndices|
    requires reversed[3 * t] == meshIndices[3 * t]
    requires reversed[3 * t + 1] == meshIndices[3 * t + 2]
    requires reversed[3 * t + 2] == meshIndices[3 * t + 1]
    ensures FaceVector(meshVertices, reversed, t) == Neg(FaceVector(meshVertices, meshIndices, t))
  {
    var v0 := Position(meshVertices, meshIndices[3 * t]);
    var v1 := Position(meshVertices, meshIndices[3 * t + 1]);
    var v2 := Position(meshVertices, meshIndices[3 * t + 2]);
    CrossAntiCommutative(Difference(v2, v0), Difference(v1, v0));
  }

  /** The triangle (0,0,0), (1,0,0), (0,1,0) has face vector (0,0,-1). */
  lemma UnitTriangleFaceVector()
    ensures ValidMesh([0.0, 0.0, 0.0, 1.0, 1.0, 0.0, 0.0, 1.0, 0.0, 1.0, 0.0, 1.0], [0, 1, 2])
    ensures FaceVector([0.0, 0.0, 0.0, 1.0, 1.0, 0.0, 0.0, 1.0, 0.0, 1.0, 0.0, 1.0], [0, 1, 2], 0) == Vec3(0.0, 0.0, -1.0)
  {
    var vs := [0.0, 0.0, 0.0, 1.0, 1.0, 0.0, 0.0, 1.0, 0.0, 1.0, 0.0, 1.0];
    var ids := [0, 1, 2];
    assert |vs| / 4 == 3 && |ids| / 3 == 1;
    assert ValidMesh(vs, ids);
    assert Position(vs, 0) == Vec3(0.0, 0.0, 0.0);
    assert Position(vs, 1) == Vec3(1.0, 0.0, 0.0);
    assert Position(vs, 2) == Vec3(0.0, 1.0, 0.0);
  }
}
