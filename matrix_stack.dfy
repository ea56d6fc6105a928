/** The modelview matrix stack of mp3A.js and the push/pop discipline of the
    three drawing routines. The glMatrix library that computes matrix entries
    is not part of this model, so a matrix is a symbolic value recording how
    it was built; every WebGL call other than the matrix uploads is a no-op. */
module ModelView {
  import opened VecMath

  datatype Axis = XAxis | YAxis | ZAxis

  /** The source converts degrees with `degToRad`; an angle keeps its unit. */
  datatype Angle = Degrees(deg: real) | Radians(rad: real)

  datatype Mat4 =
    | Identity
    | Perspective(fovy: Angle, aspect: real, near: real, far: real)
    | LookAt(eye: Vec3, center: Vec3, up: Vec3)
    | Scaled(m: Mat4, factor: real)
    | Rotated(m: Mat4, axis: Axis, angle: Angle)

  /** What one `setMatrixUniforms` call sends to the shaders; the normal
      matrix it also sends is derived from the modelview matrix. */
  datatype Upload = Upload(modelView: Mat4, projection: Mat4)

  datatype PopResult = Popped | Thrown(message: string)

  const PopError: string := "Invalid popMatrix!"

  /** Per-face texture rotation, in degrees, in the face order
      front, back, top, bottom, right, left. */
  const TextureRots: seq<real> := [180.0, -90.0, 0.0, -90.0, 90.0, 180.0]

  /** Per-face rotation axis code: 0 is X, 1 is Y, 2 is Z. */
  const TextureRotAxes: seq<int> := [2, 2, 1, 1, 0, 0]

  /** The modelview matrix a skybox face is drawn with, given the matrix the
      face loop starts from. */
  function FaceMatrix(base: Mat4, f: nat): Mat4
    requires f < 6
  {
    var code := TextureRotAxes[f];
    var angle := Degrees(TextureRots[f]);
    if code == 0 then Rotated(base, XAxis, angle)
    else if code == 1 then Rotated(base, YAxis, angle)
    else if code == 2 then Rotated(base, ZAxis, angle)
    else base
  }

  /** Every face is drawn with exactly one rotation of the shared base:
      front and back about Z, top and bottom about Y, right and left about X. */
  lemma FaceMatrices(base: Mat4)
    ensures FaceMatrix(base, 0) == Rotated(base, ZAxis, Degrees(180.0))
    ensures FaceMatrix(base, 1) == Rotated(base, ZAxis, Degrees(-90.0))
    ensures FaceMatrix(base, 2) == Rotated(base, YAxis, Degrees(0.0))
    ensures FaceMatrix(base, 3) == Rotated(base, YAxis, Degrees(-90.0))
    ensures FaceMatrix(base, 4) == Rotated(base, XAxis, Degrees(90.0))
    ensures FaceMatrix(base, 5) == Rotated(base, XAxis, Degrees(180.0))
  {
  }

  /** The uploads of the first `n` faces of the skybox loop, in order. */
  function FaceUploads(base: Mat4, projection: Mat4, n: nat): (us: seq<Upload>)
    requires n <= 6
    ensures |us| == n
    ensures forall f :: 0 <= f < n ==> us[f] == Upload(FaceMatrix(base, f), projection)
  {
    if n == 0 then [] else FaceUploads(base, projection, n - 1) + [Upload(FaceMatrix(base, n - 1), projection)]
  }

  /** The matrix the skybox faces share: the entry matrix, scaled unless the
      factor is exactly 1. */
  function SkyboxBase(entry: Mat4, scale: real): (m: Mat4)
    ensures scale == 1.0 ==> m == entry
    ensures scale != 1.0 ==> m.Scaled? && m.m == entry && m.factor == scale
  {
    if scale != 1.0 then Scaled(entry, scale) else entry
  }

  /** The matrix a mesh is drawn with: an optional uniform scale, then
      optional rotations about X, Y and Z, each skipped when it is the
      neutral value. */
  function MeshMatrix(entry: Mat4, scale: real, rotX: real, rotY: real, rotZ: real): Mat4
  {
    var m0 := if scale != 1.0 then Scaled(entry, scale) else entry;
    var m1 := if rotX != 0.0 then Rotated(m0, XAxis, Degrees(rotX)) else m0;
    var m2 := if rotY != 0.0 then Rotated(m1, YAxis, Degrees(rotY)) else m1;
    if rotZ != 0.0 then Rotated(m2, ZAxis, Degrees(rotZ)) else m2
  }

  /** The skybox scales its base exactly as a mesh drawn without rotations
      does, and the base differs from the entry matrix exactly when the
      factor is not 1. */
  lemma SkyboxScaledLikeMesh(entry: Mat4, scale: real)
    ensures SkyboxBase(entry, scale) == MeshMatrix(entry, scale, 0.0, 0.0, 0.0)
    ensures SkyboxBase(entry, scale) == entry <==> scale == 1.0
  {
    if scale != 1.0 {
      assert entry < Scaled(entry, scale);
    }
  }

  /** With neutral arguments the mesh is drawn with the entry matrix itself. */
  lemma MeshMatrixNeutral(entry: Mat4)
    ensures MeshMatrix(entry, 1.0, 0.0, 0.0, 0.0) == entry
  {
  }

  /** The renderer's matrix state: the current modelview matrix, the saved
      copies, the projection matrix and the record of uploads to the shaders. */
  class MatrixState {
    var mvMatrix: Mat4
    var mvMatrixStack: seq<Mat4>
    var pMatrix: Mat4
    var uploads: seq<Upload>

    /** Both matrices start as identities (`mat4.create`), the stack empty. */
    constructor ()
      ensures mvMatrix == Identity && pMatrix == Identity
      ensures mvMatrixStack == [] && uploads == []
    {
      mvMatrix := Identity;
      mvMatrixStack := [];
      pMatrix := Identity;
      uploads := [];
    }

    /** `mvPushMatrix`: saves a copy of the current matrix. */
    method PushMatrix()
      modifies this
      ensures mvMatrixStack == old(mvMatrixStack) + [old(mvMatrix)]
      ensures mvMatrix == old(mvMatrix) && pMatrix == old(pMatrix) && uploads == old(uploads)
    {
      var copy := mvMatrix;
      mvMatrixStack := mvMatrixStack + [copy];
    }

    /** `mvPopMatrix`: restores the most recent copy, or throws on an empty
        stack without changing anything. */
    method PopMatrix() returns (r: PopResult)
      modifies this
      ensures old(mvMatrixStack) == [] ==> r == Thrown(PopError) && mvMatrix == old(mvMatrix) && mvMatrixStack == []
      ensures old(mvMatrixStack) != [] ==>
        r == Popped && mvMatrix == old(mvMatrixStack[|mvMatrixStack| - 1]) &&
        mvMatrixStack == old(mvMatrixStack[..|mvMatrixStack| - 1])
      ensures pMatrix == old(pMatrix) && uploads == old(uploads)
    {
      if |mvMatrixStack| == 0 {
        return Thrown(PopError);
      }
      mvMatrix := mvMatrixStack[|mvMatrixStack| - 1];
      mvMatrixStack := mvMatrixStack[..|mvMatrixStack| - 1];
      r := Popped;
    }

    /** `mat4.scale(mvMatrix, mvMatrix, [s, s, s])`: edits the current matrix
        in place; saved copies are values and stay as they were. */
    method Scale(factor: real)
      modifies this
      ensures mvMatrix == Scaled(old(mvMatrix), factor)
      ensures mvMatrixStack == old(mvMatrixStack) && pMatrix == old(pMatrix) && uploads == old(uploads)
    {
      mvMatrix := Scaled(mvMatrix, factor);
    }

    /** `mat4.rotateX/Y/Z(mvMatrix, mvMatrix, angle)`, in place. */
    method Rotate(axis: Axis, angle: Angle)
      modifies this
      ensures mvMatrix == Rotated(old(mvMatrix), axis, angle)
      ensures mvMatrixStack == old(mvMatrixStack) && pMatrix == old(pMatrix) && uploads == old(uploads)
    {
      mvMatrix := Rotated(mvMatrix, axis, angle);
    }

    /** `setMatrixUniforms`: sends the current matrices to the shaders. */
    method SetMatrixUniforms()
      modifies this
      ensures uploads == old(uploads) + [Upload(mvMatrix, pMatrix)]
      ensures mvMatrix == old(mvMatrix) && mvMatrixStack == old(mvMatrixStack) && pMatrix == old(pMatrix)
    {
      uploads := uploads + [Upload(mvMatrix, pMatrix)];
    }

    /** `drawSkybox(scale)`: each of the six faces is uploaded with its own
        rotation of the (possibly scaled) entry matrix; every pop finds a
        matching push, and the matrix and the stack end as on entry. */
    method DrawSkybox(scale: real)
      modifies this
      ensures mvMatrix == old(mvMatrix) && mvMatrixStack == old(mvMatrixStack)
      ensures pMatrix == old(pMatrix)
      ensures uploads == old(uploads) + FaceUploads(SkyboxBase(old(mvMatrix), scale), pMatrix, 6)
    {
      var textureRots := TextureRots;
      var textureRotAxes := TextureRotAxes;
      PushMatrix();
      if scale != 1.0 {
        Scale(scale);
      }
      ghost var base := mvMatrix;
      for f := 0 to 6
        invariant mvMatrix == base && mvMatrixStack == old(mvMatrixStack) + [old(mvMatrix)]
        invariant pMatrix == old(pMatrix)
        invariant uploads == old(uploads) + FaceUploads(base, pMatrix, f)
      {
        PushMatrix();
        var code := textureRotAxes[f];
        if code == 0 {
          Rotate(XAxis, Degrees(textureRots[f]));
        } else if code == 1 {
          Rotate(YAxis, Degrees(textureRots[f]));
        } else if code == 2 {
          Rotate(ZAxis, Degrees(textureRots[f]));
        }
        SetMatrixUniforms();
        var r := PopMatrix();
        assert r == Popped;
      }
      var r := PopMatrix();
      assert r == Popped;
    }

    /** `drawMesh(..., scale, rotX, rotY, rotZ, ...)`: one upload with the
        mesh's transformation of the entry matrix, then matrix and stack are
        as on entry. */
    method DrawMesh(scale: real, rotX: real, rotY: real, rotZ: real)
      modifies this
      ensures mvMatrix == old(mvMatrix) && mvMatrixStack == old(mvMatrixStack)
      ensures pMatrix == old(pMatrix)
      ensures uploads == old(uploads) + [Upload(MeshMatrix(old(mvMatrix), scale, rotX, rotY, rotZ), pMatrix)]
    {
      PushMatrix();
      if scale != 1.0 {
        Scale(scale);
      }
      if rotX != 0.0 {
        Rotate(XAxis, Degrees(rotX));
      }
      if rotY != 0.0 {
        Rotate(YAxis, Degrees(rotY));
      }
      if rotZ != 0.0 {
        Rotate(ZAxis, Degrees(rotZ));
      }
      SetMatrixUniforms();
      var r := PopMatrix();
      assert r == Popped;
    }

    /** `draw()`: nothing happens until the images are loaded. Otherwise the
        projection is reset, the modelview matrix is replaced by the camera's
        lookAt matrix, and the skybox and the teapot are drawn inside one
        push/pop pair, so the call ends with the stack as on entry and the
        modelview matrix equal to that lookAt matrix. */
    method Draw(imagesLoaded: bool, aspect: real, eyePt: Vec3, viewDir: Vec3, up: Vec3,
                modelXRotationRadians: real, modelYRotationRadians: real,
                scalePercent: real, teapotRotX: real, teapotRotZ: real)
      modifies this
      ensures !imagesLoaded ==>
        mvMatrix == old(mvMatrix) && mvMatrixStack == old(mvMatrixStack) &&
        pMatrix == old(pMatrix) && uploads == old(uploads)
      ensures imagesLoaded ==>
        var view := LookAt(eyePt, Add(eyePt, viewDir), up);
        var world := Rotated(Rotated(view, XAxis, Radians(modelXRotationRadians)), YAxis, Radians(modelYRotationRadians));
        && mvMatrix == view && mvMatrixStack == old(mvMatrixStack)
        && pMatrix == Perspective(Degrees(45.0), aspect, 0.1, 200.0)
        && uploads == old(uploads) + FaceUploads(SkyboxBase(world, 40.0), pMatrix, 6)
                     + [Upload(MeshMatrix(world, scalePercent / 100.0, teapotRotX, 0.0, teapotRotZ), pMatrix)]
    {
      if imagesLoaded {
        pMatrix := Perspective(Degrees(45.0), aspect, 0.1, 200.0);
        var viewPt := Add(eyePt, viewDir);
        mvMatrix := LookAt(eyePt, viewPt, up);
        PushMatrix();
        Rotate(XAxis, Radians(modelXRotationRadians));
        Rotate(YAxis, Radians(modelYRotationRadians));
        DrawSkybox(40.0);
        DrawMesh(scalePercent / 100.0, teapotRotX, 0.0, teapotRotZ);
        var r := PopMatrix();
        assert r == Popped;
      }
    }
  }

  /** An in-place edit of the current matrix, as the drawing routines make them. */
  datatype Edit = ScaleBy(factor: real) | RotateBy(axis: Axis, angle: Angle)

  /** A copy pushed before any sequence of in-place edits is the value the
      next pop restores: no edit reaches the saved copy, and the pop finds it. */
  method PushEditPop(s: MatrixState, edits: seq<Edit>) returns (r: PopResult)
    modifies s
    ensures r == Popped && s.mvMatrix == old(s.mvMatrix) && s.mvMatrixStack == old(s.mvMatrixStack)
    ensures s.pMatrix == old(s.pMatrix) && s.uploads == old(s.uploads)
  {
    s.PushMatrix();
    var i := 0;
    while i < |edits|
      invariant 0 <= i <= |edits|
      invariant s.mvMatrixStack == old(s.mvMatrixStack) + [old(s.mvMatrix)]
      invariant s.pMatrix == old(s.pMatrix) && s.uploads == old(s.uploads)
    {
      match edits[i] {
        case ScaleBy(f) => s.Scale(f);
        case RotateBy(a, g) => s.Rotate(a, g);
      }
      i := i + 1;
    }
    r := s.PopMatrix();
  }
}
