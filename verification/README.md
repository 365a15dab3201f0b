# mesh-viewer-3d, modelled in Dafny

This project models the core of mesh-viewer-3d, a browser viewer for 3D models. It covers:

- **File loading.** The Wavefront OBJ decoder (`parseOBJ`) and the ASCII PLY decoder (`parsePLY`). File-type detection and the buffer assembly of `Primitive.load`.
- **Meshes.** The `Mesh` constructor: index-buffer width, bounding sphere and synthesized normals, plus `Mesh.clone`.
- **Transforms.** The `Transform` of a mesh, with its cached model matrix.
- **Colours and fixtures.** The colour parser `hexToRGBA` and the cube fixture `createCubeMesh`.
- **Cameras.** The perspective `Camera` with its cached view matrix. The top-down `OrthographicCamera`.
- **Scene, picking and animation.** The `Scene` container. The click picker, which selects the nearest mesh whose bounding sphere the click ray crosses. The animator, which moves the active mesh along a quadratic path through two placed points.

Each source file is one module:

| module | file | models |
|---|---|---|
| `Obj` | obj.dfy | `parseOBJ` |
| `Ply` | ply.dfy | `parsePLY` |
| `Primitives` | primitive.dfy | `getFileType`, `Primitive`, `Primitive.load` |
| `Meshes` | mesh.dfy | `Mesh` |
| `Transforms` | transform.dfy | `Transform` |
| `Utils` | utils.dfy | `hexToRGBA`, `createCubeMesh` |
| `Cameras` | camera.dfy | `Camera` |
| `OrthoCameras` | orthocamera.dfy | `OrthographicCamera` |
| `Scenes` | scene.dfy | `Scene` |
| `Picker` | picker.dfy | `MeshPicker.onClick` |
| `Animator` | animator.dfy | `solveQuadraticCoefficients`, `playAnimation` |

Four support modules hold no source behaviour of their own:

- `Wrappers`: `Option` and `Result`.
- `Text`: trimming, splitting, case and digit runs on `seq<char>`.
- `Vectors`: `vec3` arithmetic over reals.
- `GlMatrix`: the gl-matrix routines the core calls, such as `lookAt`, `ortho`, `perspective` and the quaternion operations. These are free symbolic constructors.

Objects with mutable fields become immutable datatypes. Every mutating method becomes a function from the old value to the new one. A getter that writes a cache returns the value it reads together with the object after the read. Numbers are unbounded reals and integers. Where the source relies on a width, the model writes it out: `Uint16Array` and `Uint32Array` storage wraps modulo 2^16 and 2^32. `Math.sqrt`, `vec3.normalize`, `parseFloat` and the matrix application behind a mesh's `position` are function parameters.

## Model

| member | source | states |
|---|---|---|
| Obj.AddSlot | src/lib/parseOBJ.ts:29-35 | one slot of a face reference succeeds exactly when it is empty, or parses as an integer that resolves (negatives counting from the end) inside its list |
| Obj.AddVertex | src/lib/parseOBJ.ts:27-37 | a face corner `p/t/n` succeeds exactly when every slot is accepted; the lists are untouched and each output stream gains exactly the tuple its slot references |
| Obj.FaceIsFan | src/lib/parseOBJ.ts:57-64 | an `f` line of n references emits the fan triangles `(p0, p[t+1], p[t+2])` for t < n - 2, corner by corner in that order |
| Obj.ShortFace | src/lib/parseOBJ.ts:58-59 | a face with fewer than three references emits nothing |
| Obj.Declaration | src/lib/parseOBJ.ts:47-56 | `v`, `vn` and `vt` append their parsed tuple (one value per word) to their own list and change nothing else |
| Obj.SkippedLine | src/lib/parseOBJ.ts:70-73 | blank lines and `#` comments change nothing |
| Obj.UnknownKeyword | src/lib/parseOBJ.ts:79-84 | a keyword with no handler changes nothing |
| Obj.PositiveIndex | src/lib/parseOBJ.ts:33-35 | with the dummy entry at index 0, a positive index k copies the k-th declared tuple |
| Obj.NegativeIndex | src/lib/parseOBJ.ts:34-35 | index -1 copies the last declared tuple, and -(n+1) after n declarations reaches the dummy entry |
| Obj.IndexOutOfRange | src/lib/parseOBJ.ts:34-35 | an index that resolves outside its list fails, the model of the spread of `undefined` throwing |
| Obj.EmptySlot | src/lib/parseOBJ.ts:30-32 | an empty slot, as in `a//c`, adds nothing to its stream |
| Obj.StepInv | src/lib/parseOBJ.ts:69-86 | every line keeps the dummy entries in place and only appends to the output streams |
| Obj.RunInv | src/lib/parseOBJ.ts:9-11 | over any run of lines the dummy entries the lists start with stay at index 0 and the streams only grow |
| Obj.Decode | src/lib/parseOBJ.ts:88-92 | a successful decode returns the three output streams of the line loop |
| Obj.DecodeStreams | src/lib/parseOBJ.ts:67-92 | when every line is processed the decode succeeds and the dummies are still in place |
| Ply.FormatLine | src/lib/parsePLY.ts:36-42 | a `format` line throws exactly when its second space-separated field is missing or does not lower-case to `ascii` |
| Ply.FormatFieldIsSecondWord | src/lib/parsePLY.ts:37 | the format a `format` line names is the first space-separated word after `format `, so `format ASCII 1.0` names `ASCII` |
| Ply.VertexDeclaration | src/lib/parsePLY.ts:48-51 | an `element vertex` line sets the expected vertex count, replacing an earlier one, and changes nothing else |
| Ply.ElementCountDefault | src/lib/parsePLY.ts:49 | a declaration `^element\s+<kind>\s+(\d+)` does not match reads as 0 (the `'0'` fallback), and a non-zero count always comes from a match, as the value of its digits |
| Ply.ElementCountOfMatch | src/lib/parsePLY.ts:49 | a declaration the count pattern matches reads as the value of the whole digit run it captures |
| Ply.FaceDeclaration | src/lib/parsePLY.ts:81-88 | an `element face` line sets the expected face count and, unlike other header lines, still goes on to the body patterns |
| Ply.VertexStep | src/lib/parsePLY.ts:90-93 | a line counts as a vertex exactly when it matches the vertex pattern while fewer vertices than declared (0 if undeclared) were read; it then appends its three positions, otherwise nothing changes |
| Ply.ColourGroupRead | src/lib/parsePLY.ts:90-104 | a line accepted as a vertex while a colour property is declared throws exactly when the colour group's last value has a fractional part (group 14 defined, then `trim()` on the missing group 16); otherwise it stores no colour |
| Ply.NotVertexLine | src/lib/parsePLY.ts:90 | a line whose first character cannot start a numeral does not match the vertex pattern |
| Ply.RunKeepsColours | src/lib/parsePLY.ts:29-130 | as written, no prefix of the file adds a colour value |
| Ply.ColoursNeverRead | src/lib/parsePLY.ts:103-154 | as written, a successful decode never has colours, whatever the header declares |
| Ply.VertexAcceptance | src/lib/parsePLY.ts:91-93 | accepting vertices keeps three position values per vertex and never exceeds the declared count |
| Ply.FaceStep | src/lib/parsePLY.ts:116-118 | a line counts as a face exactly when it matches the face pattern while fewer faces than declared were read; otherwise nothing changes |
| Ply.Triangulate | src/lib/parsePLY.ts:119-128 | a triangle line emits three indices and a quad line six |
| Ply.TriangleFace | src/lib/parsePLY.ts:123-124 | `3 a b c` appends `a, b, c` |
| Ply.QuadFace | src/lib/parsePLY.ts:125-127 | `4 a b c d` appends `a, b, c, a, c, d` |
| Ply.FaceIgnored | src/lib/parsePLY.ts:116-117 | face lines past the declared count, or not led by 3 or 4, change nothing |
| Ply.IntegerLineCountsTwice | src/lib/parsePLY.ts:90-118 | the two body patterns are tried independently: an all-integer line led by 3 counts as a vertex and as a face |
| Ply.StepInv | src/lib/parsePLY.ts:29-130 | every line keeps three positions per vertex read, no count before its declaration, and whole triangles of indices |
| Ply.RunInv | src/lib/parsePLY.ts:29-130 | the invariant holds after any prefix of the file |
| Ply.RunAppend | src/lib/parsePLY.ts:29-130 | decoding a file is decoding its first part and then the rest; a line that throws ends the decode with its error |
| Ply.Finish | src/lib/parsePLY.ts:132-154 | the result fails exactly when a declared count differs from the count read; otherwise its vertex count is the declared count (0 when none was declared), its positions are the positions read, and indices, normals and colours are each present exactly when some were read, holding the values read |
| Ply.DecodeOutcome | src/lib/parsePLY.ts:132-140 | after the line loop the decode throws exactly when a declared vertex or face count is not the number read |
| Ply.Decode | src/lib/parsePLY.ts:9-157 | a successful decode has three positions per vertex, the vertex count declared in the header (or 0) and the positions the line-by-line run read; indices, normals and colours are present exactly when that run read some, holding what it read (colours, as written, never: `Ply.ColoursNeverRead`), and the indices come in whole triangles |
| Ply.IndependentMisreadsTriangle | src/lib/parsePLY.ts:90-129 | as written, a body of three integer vertices and one triangle takes the first vertex line as the face (`0, 0, undefined`), drops the real face, and still passes the count check |
| Ply.VertexFirstCountsOnce | src/lib/parsePLY.ts:90-129 | when a line taken as a vertex is not offered to the face pattern, no line counts twice |
| Ply.FeedVertices | src/lib/parsePLY.ts:90-93 | under that rule, declared vertex lines append exactly their positions and nothing else |
| Ply.FeedFaces | src/lib/parsePLY.ts:116-129 | once the vertices are read, face lines append exactly their triangulations |
| Ply.SequentialBody | src/lib/parsePLY.ts:90-140 | under that rule, a body of the declared vertex lines then the declared face lines reads back as written and passes the count check |
| Ply.VertexFirstReadsTriangle | src/lib/parsePLY.ts:90-129 | under that rule the same three-vertex body reads as the triangle `0, 1, 2` |
| Primitives.GetFileType | src/lib/primitive.ts:17-25 | OBJ exactly when the lower-cased name ends in `.obj`; PLY exactly when it ends in `.ply` and not `.obj` |
| Primitives.UpperCaseExtension | src/lib/primitive.ts:18-22 | extensions are recognised in any case |
| Primitives.NewPrimitive | src/lib/primitive.ts:35-42 | the buffers are kept as given; three times the vertex count is the buffer length; an index count exactly when there are indices |
| Primitives.AssembleIndices | src/lib/primitive.ts:95-101 | the index buffer is 16-bit exactly when every index is defined and below 65536, and keeps one entry per index |
| Primitives.FittingIndicesStored | src/lib/primitive.ts:97-99 | indices that fit are stored unchanged |
| Primitives.WidthRulesDiffer | src/lib/primitive.ts:95-101 | `load` sizes the index buffer by its largest index and the mesh constructor by its vertex count, so the two can disagree |
| Primitives.Load | src/lib/primitive.ts:44-111 | empty text rejects with `Failed to read file.`, an unknown extension with `Unsupported file type.`, and only a known type can resolve |
| Primitives.LoadObj | src/lib/primitive.ts:59-103 | a loaded OBJ primitive holds the decoder's positions and normals, with no colours and no indices; a decoder error leaves the promise unsettled |
| Primitives.LoadPly | src/lib/primitive.ts:62-103 | a loaded PLY primitive holds what the decoder, running the source's independent body patterns, read: its positions, normals and colours, and its indices at the width their maximum needs |
| Meshes.IndexBufferFor | src/lib/mesh.ts:30 | a 32-bit buffer exactly when the vertex count exceeds 65535; each index is stored modulo the buffer's range |
| Meshes.IndexWidthBoundary | src/lib/mesh.ts:30 | 65535 vertices still take a 16-bit buffer and 65536 take a 32-bit one |
| Meshes.RewrapIndexBuffer | src/lib/mesh.ts:100-108 | copying a stored index buffer into a new one of the same width changes nothing |
| Meshes.ComputeBoundingSphere | src/lib/mesh.ts:82-98 | the centre is the mean of the vertices, and the radius is the square root of the largest squared distance from it to a vertex |
| Meshes.MaxSqDistUnique | src/lib/mesh.ts:88-93 | that largest squared distance is determined by the vertices |
| Meshes.CalculateNormals | src/lib/mesh.ts:42-80 | each vertex's normal is the normalised sum of the face normals of every triangle corner naming it, one per corner |
| Meshes.AccumulateTriangle | src/lib/mesh.ts:46-69 | one triangle adds its face normal once per corner that names the vertex |
| Meshes.UnreferencedVertex | src/lib/mesh.ts:44-69 | a vertex no corner names keeps a zero accumulator |
| Meshes.NewMesh | src/lib/mesh.ts:24-40 | the mesh keeps the buffers, chooses the index width by vertex count, and gets its transform from the centroid and its radius from the bounding sphere; normals are synthesized exactly when absent and indices are present |
| Meshes.NewMeshDefaultColour | src/lib/mesh.ts:24-40 | a mesh built without a colour argument takes `#fff`; it keeps the buffers, the index width the vertex count calls for and the centroid transform, and satisfies the constructed-mesh invariant |
| Meshes.Clone | src/lib/mesh.ts:100-108 | a clone has the original's buffers, colour and radius, a new name, and a fresh transform about the same centroid |
| Transforms.New | src/lib/transform.ts:16-23 | a new transform has no translation, unit scale, identity rotation, an identity matrix and a clear flag |
| Transforms.Setters | src/lib/transform.ts:28-83 | each setter stores its value, sets the flag and changes nothing else; `applyRotation` changes only the rotation and not the flag |
| Transforms.AddTranslation | src/lib/transform.ts:50-54 | the translation moves by exactly `(x, y, z)` and the flag is set |
| Transforms.RotateAboutAxis | src/lib/transform.ts:84-93 | it throws exactly for an axis other than `x`, `y` or `z`; otherwise only the rotation changes and the flag is set |
| Transforms.ApplyValid | src/lib/transform.ts:28-106 | every operation keeps the cache rule, and the flag ends up set exactly when it was set before or the operation sets it |
| Transforms.FlagAfterOps | src/lib/transform.ts:28-106 | after any run of operations the flag is set exactly when one of them was a setter |
| Transforms.ApplyRotationInvisible | src/lib/transform.ts:78-106 | on any transform no setter has touched, every run of `applyRotation`s and matrix reads succeeds, turns the rotation by each delta in turn (`Transforms.RotationAfter`), changes nothing else, and leaves the matrix read equal to the cached matrix it started with |
| Transforms.ReadAfterSet | src/lib/transform.ts:95-106 | a matrix read after a setter sees the new value |
| Transforms.ReadStable | src/lib/transform.ts:95-106 | a second read returns what the first returned |
| Utils.RemoveFirstHash | src/lib/utils.ts:4 | only the first `#` is removed, wherever it stands, and the rest is kept in order; a string without one is unchanged |
| Utils.Doubled | src/lib/utils.ts:6 | each character is doubled in place |
| Utils.HexToRGBA | src/lib/utils.ts:3-13 | four channels, with alpha 1 unless the normalised colour has eight digits |
| Utils.ShortForm | src/lib/utils.ts:5-7 | `#abc` reads as `#aabbcc` |
| Utils.LongForm | src/lib/utils.ts:4-7 | a colour not of three digits is read as written after its `#` |
| Utils.ParsePair | src/lib/utils.ts:8-10 | `parseInt(s, 16)` reads two hex digits as `16 hi + lo` |
| Utils.Channel | src/lib/utils.ts:8-10 | a channel of two hex digits is `16 hi + lo` over 255 |
| Utils.LongColour | src/lib/utils.ts:3-13 | `#rrggbb` and `#rrggbbaa` read channel by channel from their pairs |
| Utils.ChannelsInUnitRange | src/lib/utils.ts:8-12 | every channel of such a colour lies in [0, 1] |
| Utils.CubeFaces | src/lib/utils.ts:55-69 | the 36 indices are six faces of six, face `f` splitting the quad `4f .. 4f+3` as `k, k+1, k+2, k, k+2, k+3` |
| Utils.CubeShape | src/lib/utils.ts:17-85 | the cube has 24 vertices and 24 normals, and all 36 indices name a vertex |
| Utils.CreateCubeMesh | src/lib/utils.ts:87-92 | the cube mesh keeps its own positions and normals and takes a 16-bit index buffer holding the indices unchanged |
| Utils.CreateDefaultCubeMesh | src/lib/utils.ts:16-92 | a cube built without a colour argument takes `#ff0000` and is otherwise the fixture cube |
| Utils.DefaultMeshColourWhite | src/lib/mesh.ts:24 | the mesh's default colour `#fff` reads as opaque white |
| Utils.DefaultCubeColourRed | src/lib/utils.ts:16 | the cube's default colour `#ff0000` reads as opaque red |
| Cameras.New | src/lib/camera.ts:11-20 | a new camera sits at (0, 0, 5), looks at the origin with up (0, 1, 0), has the flag set and the fixed perspective projection |
| Cameras.NewCamera | src/lib/camera.ts:11-20 | a new camera keeps the cache rule, and its projection never changes under any operations |
| Cameras.Setters | src/lib/camera.ts:26-47 | each setter stores its value, sets the flag and changes nothing else |
| Cameras.ViewMatrix | src/lib/camera.ts:49-55 | from a camera that keeps the cache rule, the read returns `lookAt` of the current fields and leaves the flag clear, with only the cache changed |
| Cameras.ReadTwice | src/lib/camera.ts:49-55 | a second read returns the same matrix and leaves the camera as the first read left it |
| Cameras.CacheCoherent | src/lib/camera.ts:26-55 | after any run of setters and reads, a read returns the view of the current fields |
| OrthoCameras.UpdateProjectionMatrix | src/lib/orthocamera.ts:37-47 | half the height is 50 / zoom, the extents are symmetric with width over height equal to the aspect ratio, and the projection is `ortho` of them |
| OrthoCameras.New | src/lib/orthocamera.ts:21-35 | a new camera is consistent, with zoom 3, depth range [-1000, 1000], eye (0, 0, 100), target the origin and up (0, 1, 0) |
| OrthoCameras.Resize | src/lib/orthocamera.ts:53-57 | resizing stores the size, keeps the camera consistent and changes neither zoom nor pose |
| OrthoCameras.SetZoom | src/lib/orthocamera.ts:59-62 | the zoom becomes the given value clamped below at 0.1, and the camera stays consistent |
| OrthoCameras.Pan | src/lib/orthocamera.ts:64-70 | eye and target both move by (dx, dy, 0), keeping their offset, and the camera stays consistent |
| OrthoCameras.PanBack | src/lib/orthocamera.ts:64-70 | panning back by the opposite amounts restores the camera |
| OrthoCameras.Reset | src/lib/orthocamera.ts:79-86 | zoom and pose return to their initial values, size and depth range are kept, and the camera is consistent |
| OrthoCameras.ResetIsNew | src/lib/orthocamera.ts:79-86 | a reset camera equals a new camera of the same size |
| OrthoCameras.OpConsistent | src/lib/orthocamera.ts:37-86 | every operation keeps the camera consistent and its depth range, and only `reset` writes the up vector |
| OrthoCameras.RunConsistent | src/lib/orthocamera.ts:21-86 | any run of operations keeps extents matched to zoom and aspect ratio, zoom at least 0.1, up (0, 1, 0) and depth [-1000, 1000] |
| OrthoCameras.LookAtMesh | src/lib/orthocamera.ts:72-77 | as written, the target becomes the mesh position and the eye takes its x and z while keeping its own y |
| OrthoCameras.LookAtAlongUp | src/lib/orthocamera.ts:72-77 | as written, the view direction after `lookAt` is parallel to up, so the view has no well-defined orientation |
| OrthoCameras.LookAtFromStart | src/lib/orthocamera.ts:72-77 | from a new camera, centring on a mesh at the origin puts the eye on the target as written, and 100 units above it when corrected |
| OrthoCameras.CenteredLookAt | src/lib/orthocamera.ts:72-77 | corrected: the eye takes the mesh's x and y and keeps its height, and the camera stays consistent |
| OrthoCameras.CenteredLookAtFacesMesh | src/lib/orthocamera.ts:72-77 | corrected: the view looks straight down z and is never parallel to up while the eye is off the mesh's depth |
| Scenes.Empty | src/lib/scene.ts:4-7 | a new scene is empty with no active mesh |
| Scenes.Add | src/lib/scene.ts:12-16 | a present mesh is appended and `null` changes nothing; the other fields are untouched |
| Scenes.IndexOf | src/lib/scene.ts:20 | the first position holding the mesh, or -1 exactly when it is absent |
| Scenes.Remove | src/lib/scene.ts:18-25 | an absent mesh or `null` changes nothing; otherwise exactly one occurrence goes, as a multiset |
| Scenes.RemoveFirst | src/lib/scene.ts:20-22 | it is the first occurrence that goes, the rest staying in order |
| Scenes.RemoveUndoesAdd | src/lib/scene.ts:12-25 | removing a mesh just added, when it was not already there, restores the scene |
| Scenes.RemoveAfterDuplicateAdd | src/lib/scene.ts:12-25 | when the mesh was already there, the earlier copy goes and the new one stays last |
| Scenes.Drawables | src/lib/scene.ts:27-29 | the drawables are the axes, then the points, then the meshes |
| Scenes.AddedIsLastDrawable | src/lib/scene.ts:12-29 | an added mesh becomes the last drawable after the earlier ones |
| Picker.ClosestHit | src/lib/picker.ts:44-59 | nothing is chosen exactly when no selectable mesh in front of the ray has its centre within its bounding radius of the ray; otherwise the choice is such a mesh with the least ray parameter, the first on ties |
| Picker.ClosestUnique | src/lib/picker.ts:55-58 | at most one mesh meets that rule |
| Picker.OnClick | src/lib/picker.ts:21-64 | perspective mode, a singular matrix or a miss leave the active mesh unchanged; a hit makes the closest hit active |
| Animator.CurveEnds | src/component/animator.ts:127-132 | any quadratic is `c` at t = 0 and `a + b + c` at t = 1 |
| Animator.SolveQuadraticCoefficients | src/component/animator.ts:104-114 | the solved quadratic starts at p0, ends at p2 at t = 1 and passes p1 at t = t1 |
| Animator.PathThroughPoints | src/component/animator.ts:104-132 | the animated path visits the three points at t = 0, t1 and 1 |
| Animator.SliderDenominator | src/component/animator.ts:38 | the slider's range [0.1, 0.9] for t1 keeps the denominator `t1^2 - t1` negative, so never zero |
| Animator.Animate | src/component/animator.ts:134-147 | a frame advances t by 0.001 times the speed the slider holds when that frame runs; past 1 it pops two points, clears the active mesh and stops, otherwise it moves the mesh to the path point |
| Animator.PlayAnimation | src/component/animator.ts:116-149 | nothing happens exactly when there is no active mesh or fewer than two points; otherwise the path is solved from the active mesh and the first two points and the first frame runs |
| Animator.FramesTrack | src/component/animator.ts:134-147 | at whatever speeds the frames run, while they run the path, points and active mesh are untouched and t stays at most 1; once stopped, exactly two points are gone and the active mesh is cleared |
| Animator.Finishes | src/component/animator.ts:135-136 | whatever the speed of each frame, the animation stops once the frames' total increment carries t past 1 |
| Animator.TravelAtLeast | src/component/animator.ts:135 | frames each run at a speed of at least `lo` add at least `0.001 * lo` per frame to t |
| Animator.PlaybackEnds | src/component/animator.ts:116-149 | however the speed slider moves during playback, as long as every frame reads a speed within its range (at least 0.1), an animation ends within 10000 more frames, with the last two points removed and no active mesh |

## Left out

- File reading (`FileReader`), WebGL rendering, shaders, Tweakpane panels, DOM events and `requestAnimationFrame` are not modelled. `Primitives.Load` receives the text the reader produced, and a frame of the animation is one `Animator.Animate`.
- Number parsing is a parameter: `parseFloat`, and `Number` on PLY face indices other than digit runs. NaN and Infinity are not modelled.
- Floats are exact reals. `Float32Array` rounding is not modelled.
- The PLY normal extraction from the vertex pattern's capture groups (groups 9, 11 and 13 as the source reads them) is a parameter (`Ply.Reader.normalsOf`), and so is whether the pattern's group 14 is defined (`Ply.Reader.colourFraction`). The colour padding and the `uchar` division are not modelled: as written they run only after the throw on group 16, so no decode reaches them.
- The vertex and face patterns are modelled on whitespace-separated words. The face pattern's trailing-whitespace details are not.
- `\s` and `toLowerCase` are modelled on ASCII only.
- Obj.Step: a keyword naming a property inherited from `Object.prototype` is treated as an unknown keyword. In the source such a keyword finds that property as its handler: `constructor` and `toString` return without effect, as the model has it, while `valueOf`, `hasOwnProperty`, `isPrototypeOf`, `propertyIsEnumerable`, `toLocaleString`, the `__defineGetter__` family and `__proto__` throw a TypeError (the handler is called without a receiver in module code, and `__proto__` is not callable) that the model does not produce.
- Meshes.NewMesh: it requires whole vertices, and whole triangles over them when normals are synthesized. The source reads `undefined` and writes NaN for malformed buffers.
- Meshes.ComputeBoundingSphere: for an empty buffer the centroid is the origin, where the source computes NaN.
- Meshes.ComputeBoundingSphere: it requires whole vertices (a buffer length divisible by 3); on a trailing partial vertex the source reads `undefined` and computes NaN.
- `Math.max(...indices)` overflowing the call stack on huge index arrays is not modelled.
- The picker's unprojection of the click through the inverted view-projection matrix is not modelled. `Picker.OnClick` receives the resulting ray, or `None` when the matrix is singular. Mesh positions come through the `apply` parameter.
- Transforms.Position: the `position` getter also refreshes the matrix cache. The model returns only the position.
- `Transform`'s `rotation` getter is not modelled: it is `quat.getAxisAngle`, a gl-matrix computation with no effect on state.
- `Camera.projectionMatrix` is modelled as a plain field read (`Cameras.ProjectionMatrix`) and has no property of its own.
- Animator.SolveQuadraticCoefficients: it requires `t1^2 - t1 != 0`, because the source divides by it and reals have no Infinity. `Animator.SliderDenominator` shows the slider range always meets this.
- Animator.PlayAnimation: it requires t1 within the slider's range [0.1, 0.9].
- Animator.Animate: it pops the two newest points, which are the two the path used only when exactly two are placed. This is modelled as written.
- OrthoCameras.UpdateProjectionMatrix: it requires a non-zero height and zoom, because the source divides by them and division by zero gives Infinity.
- OrthoCameras.Resize: it requires a non-zero height and zoom, for the same division.
- OrthoCameras.SetZoom: it requires a non-zero height, for the same division.
- OrthoCameras.Reset: it requires a non-zero height, for the same division.
- OrthoCameras.New: it requires a non-zero height, for the same division.
- Utils.CubeShape: the cube's per-face normals are stated as data (`Utils.CubeNormals`), not as a property of the faces.
- Scene compares meshes by reference; the model compares values, so two equal meshes stand for one object. Aliasing between a scene's arrays and the meshes is not modelled.
- Picking by a controller other than the click handler is not modelled, nor are the orbital and top-down controllers and the perspective camera subclass: they are callers, not core.

## Findings

| source | as written | input that shows it | evidently intended | confidence | as-written member | corrected member |
|---|---|---|---|---|---|---|
| src/lib/parsePLY.ts:90-129 | every body line is tried against the vertex pattern and then, independently, the face pattern | header declaring 3 vertices and 1 face, body `3 0 0` / `0 1 0` / `0 0 1` / `3 0 1 2`: the first vertex line is also taken as the face `0, 0, undefined`, the real face is dropped as over the count, and the count check passes | a line read as a vertex is not also read as a face, so the body reads back as the triangle `0, 1, 2` | high, not executed | Ply.IndependentMisreadsTriangle | Ply.VertexFirstReadsTriangle |
| src/lib/orthocamera.ts:72-77 | `lookAt` copies the target's x and z into the eye and keeps the eye's y | any mesh position: eye and target then differ only in y, parallel to the up vector (0, 1, 0), so `mat4.lookAt` has no orientation; a new camera centring on a mesh at the origin puts the eye on the target | the top-down camera copies x and y and keeps its height z, looking straight down at the mesh | medium, not executed | OrthoCameras.LookAtAlongUp | OrthoCameras.CenteredLookAtFacesMesh |
