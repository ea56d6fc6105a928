# Skybox: OBJ parser, vertex normals, matrix stack and input state

This project models the bookkeeping logic of the Skybox WebGL demo in Dafny.
That logic has no GPU or DOM work in it. The demo has two parts: an
environment-mapped teapot inside a textured skybox cube (`mp3A.js`), and the
loader for the meshes (`objParse.js`).

- **`parseOBJ`** (`obj_parse.dfy`, `obj_parse_facts.dfy`, `obj_lines.dfy`).
  This is the character-at-a-time state machine for the OBJ subset
  `v` / `vt` / `f` / `#` / `g`.
  - `Run` specifies the loop character by character and `ParseObj` is the
    imperative loop proved against it.
  - `KeywordLine` and `RunLines` give an independent line-by-line reading of
    the same behaviour, and `RunDocument` proves the two readings equal.
  - Lemmas on either level pin down the quirks:
    - the default w;
    - the empty-token flush on a double space;
    - the element counter carried over a newline;
    - the unflushed final token;
    - the `t` and `g` errors;
    - the returned `hasTexture`.
  - `parseFloat` is the parameter `pf`. `parseInt(s, 10)` is modelled exactly.
- **`findVertexNormals`** (`vertex_normals.dfy`, helpers in `vec_math.dfy`).
  - The three loops over the `vertexNormals` array are proved against
    `VertexNormal`. That function normalises, per vertex, the sum of the
    normalised face vectors `cross(v2 - v0, v1 - v0)` of the triangles that
    name the vertex.
  - `normalize` is the parameter `normalize`.
- **The modelview matrix stack** (`matrix_stack.dfy`).
  - `mvPushMatrix` and `mvPopMatrix` are methods of a class holding
    `mvMatrix`, the stack, `pMatrix` and the list of matrix uploads.
  - `drawSkybox`, `drawMesh` and `draw` are methods whose contracts give the
    exact matrices uploaded and the stack on exit.
  - Matrices are symbolic values (`Identity`, `LookAt`, `Perspective`,
    `Scaled`, `Rotated`).
- **Input state** (`controls.dfy`).
  - The held-key map.
  - The yaw counter `rotDegreesY` with its wrap.
  - The mouse-drag updates of `teapotRotZ` / `teapotRotX` / `lastMousePos`,
    including the misspelt lower wrap that throws.
- **Skybox setup arithmetic** (`skybox.dfy`).
  - The partition of the parsed cube into six face meshes, with JavaScript's
    clamping `slice` and the index rebasing by `4f`.
  - The 32-bit test `isPowerOf2`.

Two behaviours of the code are worth knowing before reading the contracts:

- **Orientation of the face vector.** The code computes the face vector as
  `cross(v2 - v0, v1 - v0)`. For the unit triangle (0,0,0), (1,0,0), (0,1,0)
  that is (0,0,-1), and `UnitTriangleFaceVector` proves it.
- **`mvMatrix` at the end of `draw`.** `draw` first overwrites `mvMatrix`
  with the lookAt matrix and only then pushes. Its push/pop pair therefore
  restores the lookAt matrix, not the matrix `draw` was entered with.
  `drawSkybox` and `drawMesh` do restore their entry matrix.

## Model

| member | source | states |
|---|---|---|
| VecMath.Difference | objParse.js:203-205 | adding `b` back to `difference(a, b)` gives `a`, and the difference is zero exactly when `a == b` |
| VecMath.Quotient | objParse.js:213-215 | multiplying each component of `quotient(a, d)` by a non-zero `d` gives back `a` |
| VecMath.CrossPerpendicular | objParse.js:223-225 | `cross(a, b)` is orthogonal to both `a` and `b` |
| VecMath.CrossAntiCommutative | objParse.js:223-225 | swapping the operands of `cross` negates it, so operand order fixes the normal's direction |
| VecMath.Norm | objParse.js:232-238 | the summing loop returns `sqrt` of the sum of the squares of the entries |
| ObjParse.MeshArrays.PushToken | objParse.js:63-73 | a pending token is pushed as `parseFloat` into the vertex or texture array, as `parseInt - 1` into the index array, or not at all on an untyped line; nothing else changes |
| ObjParse.ParseObj | objParse.js:44-160 | the imperative loop leaves the caller's arrays exactly as the per-character specification `Run` does, and returns `hasTexture` or the thrown error; on an error the earlier pushes stay |
| ObjParse.StepChar | objParse.js:59-156 | one iteration of the loop: the switch on the character, with `#`, `g`, `v`, `f`, `t`, newline, space and any other character handled as the code does |
| ObjParse.StepCharEffects | objParse.js:59-156 | only a newline or a space pushes a token; only `g`, `t` and a newline throw, with the current line number; only a newline advances the line number |
| ObjParse.Newline | objParse.js:60-99 | the newline case: flush a non-empty pending token, then w = 1.0 for a vertex line one short, an error for any other short line, and the reset of the line variables |
| ObjParse.NewlineEffects | objParse.js:60-99 | a newline resets every line variable except the element counter, throws only outside a comment with elements still expected, and on a comment line does nothing else |
| ObjParse.Space | objParse.js:133-153 | the space case: after a counted space, push the pending token even when empty and decrement the counter; count the space only when the next character is not a space |
| ObjParse.SpaceEffects | objParse.js:133-153 | a space never throws and keeps the line type, comment flag, line number and `hasTexture`; the first counted space of a line and any space in a comment push nothing |
| ObjParse.ParseInt | objParse.js:68 | `parseInt(s, 10)`: skip leading white space, an optional sign, then the longest digit run; NaN when there is none; trailing characters ignored |
| ObjParse.ParseIntSkipsSpace | objParse.js:68 | `parseInt` gives the same value with or without leading white space |
| ObjParse.ParseIntSign | objParse.js:68 | `parseInt` of a blank string is NaN, and a negative result needs a minus sign in front of the digits |
| ObjParseFacts.DecimalValue | objParse.js:68 | the decimal rendering of `n` has digit value `n` |
| ObjParseFacts.ParseIntDecimal | objParse.js:68 | `parseInt` of a decimal numeral followed by a non-digit is that number |
| ObjParseFacts.RunToken | objParse.js:154-155 | ordinary characters outside a comment are appended to the pending token and change nothing else |
| ObjParseFacts.SpaceFlush | objParse.js:133-151 | a single space after a counted separator pushes the pending token, decrements the counter, empties the token and counts one more space |
| ObjParseFacts.RunFields | objParse.js:133-155 | a run of single-space-separated fields pushes the pending token and every field but the last, in order; the counter falls by the number of fields and the last field stays pending |
| ObjParseFacts.LeadingSpacesCollapse | objParse.js:133-151 | any run of spaces before the first field counts as one separator and pushes nothing |
| ObjParseFacts.DoubleSpace | objParse.js:135-151 | a double space between fields pushes the pending token and then an extra empty token, taking two off the counter |
| ObjParseFacts.RunIgnored | objParse.js:100-155 | inside a comment, characters other than a newline (and other than `g` on a typed line) change neither the arrays nor the state |
| ObjParseFacts.CommentRest | objParse.js:100-102 | `#` and the rest of the line only set the comment flag |
| ObjParseFacts.CommentWithGThrows | objParse.js:103-106 | a `g` inside a comment on a line whose type is set still throws "Unrecognized line format!" with nothing pushed |
| ObjParseFacts.HasTextureSticks | objParse.js:121-159 | once a `vt` line set `hasTexture`, every successful parse returns true |
| ObjParseFacts.NoTNoTexture | objParse.js:121-159 | a text without `t` returns the `hasTexture` it started with |
| ObjParseFacts.EmitAllAppend | objParse.js:63-73 | pushing two lists of tokens one after the other is pushing their concatenation |
| ObjLines.RunKeyword | objParse.js:109-132 | `v`, `f` and `vt` at a line start set the line type and its element count (4, 3, 2), and `vt` sets `hasTexture` |
| ObjLines.LineFields | objParse.js:133-155 | after a line's keyword, single-space-separated fields push every field but the last, in order; the counter falls by one less than the number of fields and the last field stays pending |
| ObjLines.LastFieldNewline | objParse.js:60-93 | the newline's flush of the last field agrees with the line-level reading `KeywordLine` |
| ObjLines.KeywordLineRun | objParse.js:59-156 | a whole `v`/`vt`/`f` line of plain fields behaves as `KeywordLine` says: the fields pushed, the carried counter, the default w or the error |
| ObjLines.CommentLineRun | objParse.js:94-102 | a comment line pushes nothing and only advances the line number |
| ObjLines.GroupLineRun | objParse.js:94-107 | a `g` line pushes nothing and only advances the line number |
| ObjLines.BlankLineRun | objParse.js:60-98 | a blank line throws the face message exactly when the counter carried over from the line before is positive, and otherwise only advances the line number |
| ObjLines.RunDocument | objParse.js:56-159 | on any text made of well-formed lines, the character-level `Run` equals the line-by-line `RunLines` |
| ObjLines.VertexLineFourValues | objParse.js:60-76 | `v x y z w` appends exactly the four values, in order, and leaves the counter at 0 |
| ObjLines.VertexLineDefaultW | objParse.js:77-86 | `v x y z` appends the three values and then w = 1.0, and leaves the counter at 1 |
| ObjLines.ShortLineThrows | objParse.js:77-90 | any other short line throws, with "Vertex line with too few elements!" for a vertex line and "Face line with too few elements!" for a face or `vt` line, keeping the fields already pushed |
| ObjLines.FaceLineIndices | objParse.js:68 | `f a b c` stores the indices `a - 1`, `b - 1`, `c - 1` |
| ObjLines.ExtraFieldDropped | objParse.js:61-76 | on a line with one field too many, the last field is never pushed |
| ObjLines.CarriedCounterBlankLine | objParse.js:77-98 | a blank line right after a 3-field vertex line throws the face error on the blank line's number |
| ObjLines.TrailingTokenDropped | objParse.js:56-76 | a final line with no newline pushes every field but the last and the parse succeeds |
| ObjLines.TexOutsideVertexThrows | objParse.js:121-130 | `t` right after `f`, or at a line start, throws "Unrecognized line format!" |
| ObjLines.GroupAfterKeywordThrows | objParse.js:103-106 | `g` after a line's type is set throws "Unrecognized line format!" |
| ObjLines.CompleteLine | objParse.js:59-156 | a complete keyword line succeeds, keeps what was pushed before, and adds 4, 3 or 2 values to its own array only |
| ObjLines.CompleteDocument | objParse.js:56-159 | a document of complete lines succeeds, returns true exactly when it had a `vt` line (or texture was already seen), and grows each array by 4, 3 or 2 per line of that type |
| ObjLines.ParseDocument | objParse.js:44-159 | from the initial state and empty arrays, a complete document returns whether it has a `vt` line, with 4, 3 and 2 values per `v`, `f` and `vt` line |
| VertexNormals.ZeroSlots | objParse.js:171-175 | the first loop leaves every vertex's three slots at zero |
| VertexNormals.AddToCorners | objParse.js:183-187 | the inner loop over the components adds the face normal to the slots of each corner, so a vertex gains it once per corner that names it and every other vertex keeps its slots |
| VertexNormals.AddComponent | objParse.js:183-187 | one pass of the inner loop adds component `c` of the face normal to that component of each of the three corners' slots, once per corner |
| VertexNormals.NormalizeSlots | objParse.js:189-194 | the last loop replaces every vertex's slots by the normalisation of the sum they held |
| VertexNormals.FindVertexNormals | objParse.js:168-195 | every vertex's three slots end as the normalised sum of the face normals of the triangles naming it, counted once per corner |
| VertexNormals.Accumulated | objParse.js:183-187 | the reference sum of the first `k` face normals at vertex `w`, one addition per corner of a triangle that names `w` |
| VertexNormals.VertexNormal | objParse.js:168-195 | the reference normal of vertex `w`: `normalize` of its sum over all triangles; `FindVertexNormals` is proved equal to it |
| VertexNormals.UnreferencedVertexZero | objParse.js:171-187 | a vertex that no index names accumulates the zero vector |
| VertexNormals.SingleCornerVertex | objParse.js:176-187 | a vertex named by one corner only accumulates exactly that triangle's face normal, from the moment that triangle is processed |
| VertexNormals.FaceVectorOrientation | objParse.js:180 | the face vector is the negation of `cross(v1 - v0, v2 - v0)` |
| VertexNormals.UnitTriangleFaceVector | objParse.js:177-180 | the triangle (0,0,0), (1,0,0), (0,1,0) is a valid mesh and its face vector is (0,0,-1) |
| VertexNormals.FaceVectorCyclic | objParse.js:177-180 | starting a triangle at its second corner, with the winding kept, gives the same face vector |
| VertexNormals.FaceVectorReversed | objParse.js:177-180 | listing a triangle's corners in the opposite winding negates its face vector |
| ModelView.FaceMatrices | mp3A.js:282-301 | the six skybox faces are rotated about Z by 180 and -90, about Y by 0 and -90, and about X by 90 and 180 degrees |
| ModelView.FaceUploads | mp3A.js:291-306 | the first `n` faces upload, in order, their own rotation of the shared base with the current projection |
| ModelView.SkyboxScaledLikeMesh | mp3A.js:286 | the skybox base is the mesh transform without rotations, and it differs from the entry matrix exactly when the factor is not 1 |
| ModelView.MeshMatrixNeutral | mp3A.js:347-351 | with scale 1 and no rotations the mesh is drawn with the entry matrix itself |
| ModelView.MeshMatrix | mp3A.js:347-351 | drawMesh's transform: an optional scale, then rotations about X, Y and Z, each applied only when its argument is not the neutral value |
| ModelView.MatrixState.constructor | mp3A.js:52-63 | both matrices start as identities and the stack empty |
| ModelView.MatrixState.PushMatrix | mp3A.js:100-103 | a copy of the current matrix is appended and nothing else changes |
| ModelView.MatrixState.PopMatrix | mp3A.js:109-114 | on an empty stack "Invalid popMatrix!" is thrown and nothing changes; otherwise the top copy becomes the current matrix and the rest of the stack remains |
| ModelView.MatrixState.Scale | mp3A.js:286 | scaling edits only the current matrix; the saved copies are untouched |
| ModelView.MatrixState.Rotate | mp3A.js:294-301 | rotating edits only the current matrix; the saved copies are untouched |
| ModelView.MatrixState.SetMatrixUniforms | mp3A.js:119-123 | one upload of the current modelview and projection matrices is recorded |
| ModelView.MatrixState.DrawSkybox | mp3A.js:278-327 | exactly the six face uploads, and the matrix and stack end as on entry; no pop throws |
| ModelView.MatrixState.DrawMesh | mp3A.js:340-388 | exactly one upload with the scaled and rotated entry matrix, and the matrix and stack end as on entry; the pop does not throw |
| ModelView.MatrixState.Draw | mp3A.js:393-421 | when images are loaded: the perspective projection, the skybox and teapot uploads on top of the rotated lookAt matrix, the stack as on entry and the current matrix equal to the lookAt matrix; otherwise nothing changes |
| ModelView.PushEditPop | mp3A.js:100-114 | after a push, any sequence of in-place scales and rotations leaves the saved copy alone: the next pop succeeds and restores the pushed matrix and the previous stack |
| Controls.YawLeft | mp3A.js:616-617 | a left step keeps the counter inside (-360, 360) and differs from `y - 0.5` by a whole turn exactly when that reached -360 |
| Controls.YawRight | mp3A.js:628-629 | a right step keeps the counter inside (-360, 360) and differs from `y + 0.5` by a whole turn exactly when that reached 360 |
| Controls.YawBounded | mp3A.js:604-630 | any sequence of left and right steps keeps the counter inside (-360, 360) |
| Controls.LeftThenRight | mp3A.js:616-629 | a left step then a right step returns the counter to the same angle modulo 360 |
| Controls.Turned | mp3A.js:671-685 | a zero mouse change leaves the rotation alone; otherwise one step in the direction of the change, less a whole turn exactly when the stepped value reached 360; from below 360.5 a downward step never wraps |
| Controls.Sign | mp3A.js:672-673 | the sign of a mouse change is 1 or -1, and -1 exactly for a negative change |
| Controls.TurnedBySign | mp3A.js:671-684 | only the sign of a mouse change matters, not its magnitude |
| Controls.LowerWrapReached | mp3A.js:677-686 | from inside (-360, 360) the throwing lower wrap is reached exactly by a downward step from -359.5 or below, and the upper wrap keeps every result below 360 |
| Controls.InputState.constructor | mp3A.js:39-49 | zero counters, no keys, button up, and the -1 sentinel in both stored mouse coordinates |
| Controls.InputState.HandleKeyDown | mp3A.js:593-595 | the key's entry becomes true and no other key's pressed state changes |
| Controls.InputState.HandleKeyUp | mp3A.js:597-599 | the key's entry becomes false and no other key's pressed state changes |
| Controls.InputState.HandleKeys | mp3A.js:604-630 | a left step when the left arrow or A is held, then a right step when the right arrow or D is held; the counter stays inside (-360, 360) |
| Controls.InputState.HandleMouseDown | mp3A.js:655-657 | the button is down and nothing else changes |
| Controls.InputState.HandleMouseUp | mp3A.js:659-661 | the button is up and nothing else changes |
| Controls.InputState.HandleMouseMove | mp3A.js:667-691 | with the button down and no sentinel stored, the Z rotation follows the sign of `lastX - clientX` and the X rotation the sign of `clientY - lastY`; reaching the misspelt lower wrap throws, with the Z rotation already stored and the position not updated; otherwise the position is always overwritten |
| SkyboxSetup.Slice | mp3A.js:503-507 | `slice(a, b)` clamps both bounds to the length and keeps the entries in order |
| SkyboxSetup.FaceIndices | mp3A.js:505-511 | the JS index array a face hands to `setupIndexBuffer` has six entries: its slice reduced by `4f`, padded with NaN where the slice is short |
| SkyboxSetup.RebaseFace | mp3A.js:505-511 | the in-place rebasing loop produces exactly `FaceIndices` |
| SkyboxSetup.PartitionSkybox | mp3A.js:500-514 | the JS arrays handed to the buffer setup functions: face `f` gets vertex entries [16f, 16f+16), texture entries [8f, 8f+8) and index entries [6f, 6f+6) rebased by `4f` |
| SkyboxSetup.RebasedIntoFace | mp3A.js:503-511 | indices of face `f` that lie in [4f, 4f+4) end up in [0, 3] |
| SkyboxSetup.CompleteCube | mp3A.js:503-511 | for a complete cube every per-face array has full size and no index is padding |
| SkyboxSetup.IsPowerOf2 | mp3A.js:459-461 | the bit test `(value & (value - 1)) == 0` on the 32-bit pattern; PowersPass and OnlyPowersPass characterise it |
| SkyboxSetup.PowersPass | mp3A.js:459-461 | `isPowerOf2` is true for 0 and for every power of two (1, or an even value whose half is a power of two) |
| SkyboxSetup.OnlyPowersPass | mp3A.js:459-461 | a non-zero value passing `isPowerOf2` is a power of two, so every other positive value fails |

## Left out

- `readTextFile` (objParse.js:15-34) is a synchronous network read. The parser takes the returned text as its input.
- The file name that `parseOBJ` passes to `Error` and logs is not modelled, and neither are the console messages. A `vt` line that is too short gets the face message in the code as well; the "Vertex Texture Coordinates" wording appears only in a log line.
- `parseFloat` is the parameter `pf`, so its values, NaN included, are not modelled.
- ObjParse.ParseInt: integers of any size are exact. JavaScript rounds integers above 2^53.
- VecMath.Quotient: requires a non-zero divisor. `normalize` divides by `norm(a)`, which is 0 for the zero sum of an unreferenced vertex or a degenerate triangle, and JavaScript then yields Infinity or NaN components; that case is not modelled.
- `norm` takes its square root as a parameter. `normalize` is the parameter `normalize`, and the unit length of its results is not claimed.
- Face normals of degenerate triangles, which are NaN in the code, are not modelled.
- Floating-point rounding is not modelled. All vertex and angle arithmetic is exact over `real`. `Float32Array` rounding of `vertexNormals` is not modelled either.
- VertexNormals.FindVertexNormals requires a well-formed mesh. In the code, an index that names no vertex reads `undefined` and turns slots into NaN, and the model does not capture that.
- The glMatrix library (`mat4.perspective`, `lookAt`, `scale`, `rotateX/Y/Z`, `mat3` operations) and `degToRad` are not part of this model. Matrices are symbolic, and angles keep their unit.
- The camera orbit and pitch in `handleKeys` (quaternions, `viewDir`, `eyePt`) are not modelled, nor are forward/backward motion and the reflection matrix `rotYMatrix`. These are trigonometry and library calls. Only the yaw counter of `handleKeys` is modelled.
- WebGL calls are no-ops, apart from the recorded matrix uploads:
  - buffer binding;
  - textures and the cube map;
  - `uploadSkyboxToShader`;
  - the light uploads;
  - the reflection-mapping flag;
  - `drawElements`.

  `handleTextureLoaded` is not modelled beyond `isPowerOf2`.
- `setupSkyboxTextures`, `animate`, `tick`, `handleOptions` and `startup` are asynchronous callbacks, timing and DOM access. Only the sentinel that `startup` stores is modelled. The teapot's scale percentage and the world rotation are parameters of `Draw`.
- JavaScript default arguments (`typeof(x) === 'undefined'`) are not modelled, because every call site passes all arguments.
- The GL buffers built from the partitioned skybox data are not modelled. `PartitionSkybox` returns the JS arrays handed to `setupVertexBuffer`, `setupTextureCoordBuffer` and `setupIndexBuffer`, not the buffers built from them.
- The conversion to `Uint16Array` and `Float32Array` when a buffer is filled is not modelled: a NaN index becomes 0, a negative index wraps modulo 65536, and coordinates are rounded to single precision.
- `isPowerOf2` takes the 32-bit pattern that `&` converts its argument to.
- The teapot is loaded with `parseOBJ("teapot_0.obj", teapotVertices, teapotIndices)` and no texture array. A `vt` line in that file would call `push` on `undefined` and throw a TypeError. `MeshArrays` always has a texture array, so the model does not capture that call.
