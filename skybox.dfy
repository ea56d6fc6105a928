/** The skybox part of mp3A.js that is plain arithmetic: splitting the parsed
    cube into six face meshes with their indices rebased to each face's own
    four vertices, and the power-of-two test applied to texture sizes. */
module SkyboxSetup {
  import opened ObjParse

  const Faces: nat := 6
  const VertexEntriesPerFace: nat := 16   // 4 vertices of 4 coordinates
  const TexEntriesPerFace: nat := 8       // 4 texture coordinates of 2 values
  const IndicesPerFace: nat := 6          // 2 triangles
  const VerticesPerFace: nat := 4

  /** `arr.slice(a, b)` for non-negative bounds: both are clamped to the
      length, and an empty range gives an empty array. */
  function Slice<T>(s: seq<T>, a: nat, b: nat): (r: seq<T>)
    ensures |r| == (if b <= a || |s| <= a then 0 else if b <= |s| then b - a else |s| - a)
    ensures forall i :: 0 <= i < |r| ==> r[i] == s[a + i]
  {
    if b <= a || |s| <= a then [] else if b <= |s| then s[a..b] else s[a..]
  }

  /** The slice of face `f` when each face owns `per` consecutive entries. */
  function FaceSlice<T>(s: seq<T>, per: nat, f: nat): seq<T>
  {
    Slice(s, per * f, per * (f + 1))
  }

  /** The index buffer of face `f` once the rebasing loop has run over the
      slice: entry `v` of the slice minus `4f`. Where the slice is shorter
      than six, `curIndices[v] -= 4*f` reads `undefined`, so the missing
      entries become NaN and the array grows to six entries. */
  function FaceIndices(indices: seq<JsInt>, f: nat): (r: seq<JsInt>)
    ensures |r| == IndicesPerFace
    ensures forall v :: 0 <= v < IndicesPerFace ==>
      r[v] == (if 6 * f + v < |indices| then indices[6 * f + v].Minus(4 * f) else NaN)
  {
    var cur := Slice(indices, 6 * f, 6 * f + 6);
    seq(IndicesPerFace, v requires 0 <= v < IndicesPerFace => if v < |cur| then cur[v].Minus(4 * f) else NaN)
  }

  /** The loop `for v in 0..6: curIndices[v] -= 4*f` over the face's slice,
      rewriting entries in place and appending NaN past the end. */
  method RebaseFace(indices: seq<JsInt>, f: nat) returns (curIndices: seq<JsInt>)
    ensures curIndices == FaceIndices(indices, f)
  {
    curIndices := Slice(indices, 6 * f, 6 * (f + 1));
    ghost var slice := curIndices;
    for v := 0 to 6
      invariant |curIndices| == if |slice| <= v then v else |slice|
      invariant forall w :: 0 <= w < v ==> curIndices[w] == (if w < |slice| then slice[w].Minus(4 * f) else NaN)
      invariant forall w :: v <= w < |curIndices| ==> curIndices[w] == slice[w]
    {
      if v < |curIndices| {
        curIndices := curIndices[v := curIndices[v].Minus(4 * f)];
      } else {
        curIndices := curIndices + [NaN];
      }
    }
  }

  /** The partition loop of `setupBuffers`: face `f` takes vertex entries
      [16f, 16f+16), texture entries [8f, 8f+8) and index entries
      [6f, 6f+6) rebased by 4f, each slice clamped to what was parsed. */
  method PartitionSkybox(skyboxVertices: seq<real>, skyboxIndices: seq<JsInt>, skyboxTCoords: seq<real>)
    returns (vertexBufs: seq<seq<real>>, indexBufs: seq<seq<JsInt>>, tCoordBufs: seq<seq<real>>)
    ensures |vertexBufs| == Faces && |indexBufs| == Faces && |tCoordBufs| == Faces
    ensures forall f :: 0 <= f < Faces ==> vertexBufs[f] == FaceSlice(skyboxVertices, VertexEntriesPerFace, f)
    ensures forall f :: 0 <= f < Faces ==> tCoordBufs[f] == FaceSlice(skyboxTCoords, TexEntriesPerFace, f)
    ensures forall f :: 0 <= f < Faces ==> indexBufs[f] == FaceIndices(skyboxIndices, f)
  {
    vertexBufs, indexBufs, tCoordBufs := [], [], [];
    for f := 0 to 6
      invariant |vertexBufs| == f && |indexBufs| == f && |tCoordBufs| == f
      invariant Sliced(vertexBufs, skyboxVertices, VertexEntriesPerFace)
      invariant Sliced(tCoordBufs, skyboxTCoords, TexEntriesPerFace)
      invariant Rebased(indexBufs, skyboxIndices)
    {
      var vertexBuf := Slice(skyboxVertices, VertexEntriesPerFace * f, VertexEntriesPerFace * (f + 1));
      SlicedExtend(vertexBufs, skyboxVertices, VertexEntriesPerFace);
      vertexBufs := vertexBufs + [vertexBuf];
      var curIndices := RebaseFace(skyboxIndices, f);
      var tCoordBuf := Slice(skyboxTCoords, TexEntriesPerFace * f, TexEntriesPerFace * (f + 1));
      SlicedExtend(tCoordBufs, skyboxTCoords, TexEntriesPerFace);
      tCoordBufs := tCoordBufs + [tCoordBuf];
      RebasedExtend(indexBufs, skyboxIndices);
      indexBufs := indexBufs + [curIndices];
    }
  }

  /** Entry `g` of `bufs` is the slice of face `g`, for every entry. */
  predicate Sliced(bufs: seq<seq<real>>, s: seq<real>, per: nat)
  {
    forall g :: 0 <= g < |bufs| ==> bufs[g] == FaceSlice(s, per, g)
  }

  lemma SlicedExtend(bufs: seq<seq<real>>, s: seq<real>, per: nat)
    requires Sliced(bufs, s, per)
    ensures Sliced(bufs + [FaceSlice(s, per, |bufs|)], s, per)
  {
  }

  /** Entry `g` of `bufs` is the rebased index buffer of face `g`. */
  predicate Rebased(bufs: seq<seq<JsInt>>, indices: seq<JsInt>)
  {
    forall g :: 0 <= g < |bufs| ==> bufs[g] == FaceIndices(indices, g)
  }

  lemma RebasedExtend(bufs: seq<seq<JsInt>>, indices: seq<JsInt>)
    requires Rebased(bufs, indices)
    ensures Rebased(bufs + [FaceIndices(indices, |bufs|)], indices)
  {
  }

  /** When a face's six indices all name one of that face's own four
      vertices [4f, 4f+4), its rebased indices all lie in [0, 3]. */
  lemma RebasedIntoFace(indices: seq<JsInt>, f: nat)
    requires 6 * f + 6 <= |indices|
    requires forall v :: 6 * f <= v < 6 * f + 6 ==>
      indices[v].Int? && 4 * f <= indices[v].value < 4 * f + 4
    ensures forall v :: 0 <= v < IndicesPerFace ==>
      FaceIndices(indices, f)[v].Int? && 0 <= FaceIndices(indices, f)[v].value <= 3
  {
    forall v | 0 <= v < IndicesPerFace
      ensures FaceIndices(indices, f)[v].Int? && 0 <= FaceIndices(indices, f)[v].value <= 3
    {
      assert 6 * f <= 6 * f + v < 6 * f + 6;
    }
  }

  /** With a complete cube of six faces every vertex and texture buffer has
      its full size and no index entry is padding. */
  lemma CompleteCube(vertices: seq<real>, indices: seq<JsInt>, tcoords: seq<real>, f: nat)
    requires f < Faces
    requires |vertices| >= 96 && |indices| >= 36 && |tcoords| >= 48
    ensures |FaceSlice(vertices, VertexEntriesPerFace, f)| == VertexEntriesPerFace
    ensures |FaceSlice(tcoords, TexEntriesPerFace, f)| == TexEntriesPerFace
    ensures forall v :: 0 <= v < IndicesPerFace ==> FaceIndices(indices, f)[v] == indices[6 * f + v].Minus(4 * f)
  {
  }

  /** `isPowerOf2(value)`: `value & (value - 1)` in 32-bit integer arithmetic,
      so `0 - 1` wraps to all ones and 0 passes the test. */
  predicate IsPowerOf2(value: bv32)
  {
    value & (value - 1) == 0
  }

  /** A power of two: 1, or an even value whose half is a power of two. */
  predicate PowerOfTwo(v: bv32)
    decreases v
  {
    v == 1 || (v > 1 && v & 1 == 0 && PowerOfTwo(v >> 1))
  }

  /** Every power of two passes the test, and so does 0. */
  lemma {:induction false} PowersPass(v: bv32)
    requires v == 0 || PowerOfTwo(v)
    ensures IsPowerOf2(v)
    decreases v
  {
    if v > 1 {
      var h := v >> 1;
      PowersPass(h);
      assert v == h << 1;
    }
  }

  /** Any other value fails: a non-zero value that passes is a power of two. */
  lemma {:induction false} OnlyPowersPass(v: bv32)
    requires v != 0 && IsPowerOf2(v)
    ensures PowerOfTwo(v)
    decreases v
  {
    if v > 1 {
      var h := v >> 1;
      assert v & 1 == 0 && h != 0 && IsPowerOf2(h);
      OnlyPowersPass(h);
    }
  }
}
