# Vandra foot-scan viewer, modelled in Dafny

This project models the deterministic core of the Vandra foot-scan viewer, a
TypeScript web application. It shows a customer's two scanned feet in 3-D,
overlays measurements and fit zones on them, and recommends footwear. The
model covers four parts:

- **The BMF binary mesh decoder.** BMF is the little-endian, word-based mesh
  format the viewer loads. The decoder is a pure parser over a byte sequence.
  It threads a cursor and returns a `Result`. It comes with an encoder and a
  proof that decoding inverts encoding (`BmfMeshRoundTrip.DecodeEncode`),
  and a proof of the converse (`BmfDecodeComplete.DecodeComplete`): every
  buffer the decoder accepts starts with the encoding of a well-formed mesh.
- **The orbit camera.** This covers the controls' clamping and damping step,
  animations between poses and their duration, the gesture state machine,
  the camera-orientation presets, and the blended perspective/orthographic
  projection of `AdvancedCamera`.
- **Overlay geometry and view state.** This covers measurement rulers,
  stoplines, girth-plane rectangles and fit-zone anchors. It also covers the
  base mesh view (renderer sizing, the time-driven uniform schedule, the
  mouse protocol), the results scene (descriptions, notes, fit zones,
  annotations, clicks) and the onboarding scene.
- **Application logic.** This covers the results-view and footwear reducers,
  the product filters, size recommendation, grid layout, measurement
  navigation, relative-size classification, the product-store filter
  pipeline, query-string encoding and URL routing.

Numbers are `real`. Integer widths that matter are written out: u32 words,
bytes, the 8-bit truncation of `charCodeAt`, and JavaScript's truncating `%`.

Transcendental functions (`sqrt`, `sin`, `cos`, `tan`, `log`, `pow`) are
fields of a `Maths.Functions` record passed as a parameter. So are THREE's
hidden internals:

- spherical/quaternion conversions;
- `Plane.projectPoint`;
- ray casting;
- matrix `compose`/`invert`/`makePerspective`/`makeOrthographic`.

Contracts state only what holds for every such function. Where a property
needs more, such as `sqrt 2` squaring to 2, it is a stated premise.

Clocks (`Date.now`, `performance.now`), DOM reads (element sizes, CSS
colours, `devicePixelRatio`) and fetched files are parameters too.
Callbacks into React state and `history` are returned values.

Modules follow the source files:

| module | models |
|---|---|
| `BmfLoader`, `BmfEncoding`, `BmfRoundTrip`, `BmfMeshRoundTrip`, `BmfDecodeComplete` (with `BmfLayout`, `BmfMeshLayout`, `Bytes`) | `BMFLoader.ts` |
| `OrbitMath`, `OrbitControls` | `VandraOrbitControls.js` |
| `CameraOrientations`, `AdvancedCamera` | `advanced_camera/` |
| `ThreeTools` | `three_tools.ts` |
| `MeasurementVisualization`, `FitZonesVisualization` | the overlay builders |
| `MeshView` | `three_view_base/index.ts` |
| `FeetScanView` | `feetScanViewScene.ts` |
| `OnboardingView` | `onBoardingThreeView.ts` |
| `ResultsView`, `Footwear`, `FootwearFilters`, `ProductCard`, `FootwearGrid`, `MeasurementCarousel` | the results route |
| `ScanStore`, `ProductsStore`, `ViewRoutes`, `Query` (with `UriComponent`, `Utf8`) | the stores and helpers |

`Numbers`, `Vectors`, `Maths`, `Seqs`, `Strings`, `Wrappers`, `JsValues`, `Feet`,
`FootMaterials`, `MeasurementDescriptions` and `Shoes` hold shared definitions.

## Model

| member | source | states |
|---|---|---|
| BmfLoader.EnsureBinary | src/components/three/loaders/BMFLoader.ts:87-96 | a binary buffer is passed through; a string becomes one byte per code unit, each the code unit's low 8 bits |
| BmfLoader.EnsureBinaryOfByteString | src/components/three/loaders/BMFLoader.ts:87-96 | a string whose code units are bytes converts to exactly the buffer holding those bytes |
| BmfLoader.ReadU32 | src/components/three/loaders/BMFLoader.ts:115-125 | a word read succeeds iff four bytes remain, returns the little-endian word at the cursor and advances the cursor by exactly 4; past the end it fails (DataView throws) |
| BmfLoader.ReadWords | src/components/three/loaders/BMFLoader.ts:127-141 | reading `count` words succeeds iff `4*count` bytes remain, returns `count` words and advances by `4*count` |
| BmfLoader.ReadWordsReadsEachWord | src/components/three/loaders/BMFLoader.ts:127-141 | word j of an array read at `pos` is the little-endian word at byte `pos+4j` |
| BmfLoader.ReadString | src/components/three/loaders/BMFLoader.ts:143-152 | a string is a u32 length n followed by n single-byte characters; character j is byte `pos+4+j` and the cursor ends at `pos+4+n` |
| BmfLoader.Expect | src/components/three/loaders/BMFLoader.ts:104-109 | an expected token succeeds iff the word at the cursor equals it, then advances by 4; a mismatch is a failure instead of a logged message |
| BmfLoader.FirstBadIndex | src/components/three/loaders/BMFLoader.ts:215-222 | finds no index iff every face index names a vertex; otherwise the first index that does not |
| BmfLoader.Expand | src/components/three/loaders/BMFLoader.ts:215-222 | the expanded attribute has 3 words per index, and word `3i+k` is word `3*indices[i]+k` of the per-vertex attribute |
| BmfLoader.ParseColors | src/components/three/loaders/BMFLoader.ts:161-170 | without kStartRGBs nothing is read and the token is passed on; with it, the block yields 3 words per vertex (the colour count must equal the vertex count) |
| BmfLoader.ParseAttribute | src/components/three/loaders/BMFLoader.ts:191-207 | optional UV/normal block: absent leaves the token and cursor alone; present yields 2 (UV) or 3 (normal) words per triangle vertex, the count being 3 per triangle |
| BmfLoader.ParseMaterialName | src/components/three/loaders/BMFLoader.ts:177-182 | without kMaterialName the name is '' and nothing is read; with it a string is read and then the next token |
| BmfLoader.ParseFaces | src/components/three/loaders/BMFLoader.ts:184-189 | the mandatory faces block yields a whole number of triangles (index count a multiple of 3) and advances the cursor |
| BmfLoader.CloseBlock | src/components/three/loaders/BMFLoader.ts:209-210 | a block closes iff the current token is its end token; the following word becomes the next token |
| BmfLoader.ExpandGroup | src/components/three/loaders/BMFLoader.ts:215-252 | the conversion succeeds iff every index names a vertex, and otherwise fails naming an index that does not; the mesh keeps the material name, UVs and normals, its positions are the vertex positions expanded per triangle vertex, and it has colours, expanded the same way, iff the file has an RGB block |
| BmfLoader.ParseGroupHead | src/components/three/loaders/BMFLoader.ts:175-189 | a group starts with an optional material name and the faces block and yields whole triangles |
| BmfLoader.ParseGroupTail | src/components/three/loaders/BMFLoader.ts:189-210 | optional UVs, optional normals and kEndGroup, in that order; the cursor moves forward |
| BmfLoader.ParseGroup | src/components/three/loaders/BMFLoader.ts:174-253 | one group, from after kStartGroup through the token after kEndGroup; the cursor moves forward, the mesh has colours iff the file has an RGB block, one colour word per position word |
| BmfLoader.AsWrittenCheckAdmitsOutOfRangeCopy | src/components/three/loaders/BMFLoader.ts:218-221 | with n vertices the written check lets index n through, yet its copy starts at word 3n, past the last position word |
| BmfLoader.CorrectedCheckKeepsCopyInBounds | src/components/three/loaders/BMFLoader.ts:218-221 | the corrected check (index < vertex count) implies the written one and keeps all three copied words inside the positions |
| BmfLoader.ParseVertices | src/components/three/loaders/BMFLoader.ts:154-159 | a decode starts with kStartBmf and kStartVertices; the vertex block holds 3 words per vertex |
| BmfLoader.ParseGroups | src/components/three/loaders/BMFLoader.ts:173-256 | the groups up to kEndBmf: none iff the first token is kEndBmf, at least one iff it is kStartGroup, and any other first token fails |
| BmfLoader.ParseGroupsColors | src/components/three/loaders/BMFLoader.ts:173-256 | every decoded mesh has colours iff the file has an RGB block, one colour word per position word |
| BmfLoader.BadIndexFailsDecode | src/components/three/loaders/BMFLoader.ts:215-222 | a group whose faces name a vertex that does not exist fails to decode, and so does the run of groups starting with it |
| BmfLoader.ParseBinary | src/components/three/loaders/BMFLoader.ts:111-258 | a successful decode starts with kStartBmf, kStartVertices and a vertex count; the full token grammar is stated by BmfDecodeComplete.DecodeComplete |
| BmfEncoding.WordOfU32Bytes | src/components/three/loaders/BMFLoader.ts:115-118 | the four little-endian bytes of a word read back as that word |
| BmfRoundTrip.ParseColorsAt | src/components/three/loaders/BMFLoader.ts:161-170 | an RGB block written for the vertices decodes to its colour words and passes on the following token |
| BmfRoundTrip.ParseAttributeAt | src/components/three/loaders/BMFLoader.ts:191-207 | a written UV or normal block decodes to its words and passes on the following token |
| BmfRoundTrip.ParseMaterialNameAt | src/components/three/loaders/BMFLoader.ts:143-152 | a written material name (length, then one byte per character) decodes to the same name |
| BmfRoundTrip.ParseFacesAt | src/components/three/loaders/BMFLoader.ts:184-189 | a written faces block decodes to the same indices |
| BmfRoundTrip.ParseGroupAt | src/components/three/loaders/BMFLoader.ts:174-253 | a written group decodes to that group expanded against the vertices, and the token after it is passed on |
| BmfMeshRoundTrip.ParseGroupsAt | src/components/three/loaders/BMFLoader.ts:174-255 | written groups followed by kEndBmf decode to one mesh per group, in file order |
| BmfMeshRoundTrip.DecodeEncode | src/components/three/loaders/BMFLoader.ts:111-258 | decoding inverts encoding: a well-formed mesh written out, followed by any bytes, decodes to its groups expanded against its vertices, in order |
| BmfDecodeComplete.ParseColorsPrefix | src/components/three/loaders/BMFLoader.ts:161-170 | whatever ParseColors read is the writer's optional RGB block for the vertex count, and the cursor moves past exactly that block |
| BmfDecodeComplete.ParseAttributePrefix | src/components/three/loaders/BMFLoader.ts:191-207 | whatever ParseAttribute read is the writer's UV or normal block, with one item per triangle vertex, and the cursor moves past exactly that block |
| BmfDecodeComplete.ParseMaterialNamePrefix | src/components/three/loaders/BMFLoader.ts:177-182 | whatever ParseMaterialName read is the writer's encoding of some name whose characters are the decoded string |
| BmfDecodeComplete.ParseFacesPrefix | src/components/three/loaders/BMFLoader.ts:184-189 | whatever ParseFaces read is the writer's faces block for whole triangles |
| BmfDecodeComplete.ParseGroupPrefix | src/components/three/loaders/BMFLoader.ts:174-253 | every group ParseGroup decodes is the expansion of a well-formed indexed group whose encoding the buffer holds at that point |
| BmfDecodeComplete.ParseGroupsPrefix | src/components/three/loaders/BMFLoader.ts:173-256 | every run of groups ParseGroups decodes is the expansion of well-formed indexed groups whose encoding, closed by kEndBmf, the buffer holds at that point |
| BmfDecodeComplete.ParseVerticesPrefix | src/components/three/loaders/BMFLoader.ts:154-159 | whatever ParseVertices read is kStartBmf followed by the writer's vertex block |
| BmfDecodeComplete.DecodeComplete | src/components/three/loaders/BMFLoader.ts:111-258 | every buffer ParseBinary decodes starts with the encoding of a well-formed indexed mesh, and decodes to that mesh's expanded groups: the converse of BmfMeshRoundTrip.DecodeEncode |
| Numbers.Clamp | src/components/three/controls/VandraOrbitControls.js:12-18 | min when num ≤ min, else max when num ≥ max, else num; the result is in [min, max] when min ≤ max |
| Numbers.ClampIdempotent | src/components/three/controls/VandraOrbitControls.js:12-18 | clamping twice into the same interval is clamping once |
| Numbers.ClampMonotone | src/components/three/controls/VandraOrbitControls.js:12-18 | clamping keeps order |
| Numbers.JsRem | src/components/three/controls/VandraOrbitControls.js:20-29 | JavaScript's `%`: the result has the sign of the dividend, is smaller in size than the divisor, and differs from the dividend by a whole multiple |
| OrbitMath.SignedRemainder | src/components/three/controls/VandraOrbitControls.js:20-29 | for d > 0 the result lies in [−d/2, d/2] and differs from num by a whole multiple of d |
| OrbitMath.SignedRemainderOfSmall | src/components/three/controls/VandraOrbitControls.js:20-29 | a number already within half a turn is kept as it is |
| OrbitMath.EaseInEaseOut | src/components/three/controls/VandraOrbitControls.js:31-33 | the ease maps 0 to 0 and 1 to 1 |
| OrbitMath.EaseBounded | src/components/three/controls/VandraOrbitControls.js:31-33 | on [0, 1] the ease stays in [0, 1] |
| OrbitMath.EaseMonotone | src/components/three/controls/VandraOrbitControls.js:31-33 | on [0, 1] the ease is non-decreasing |
| OrbitMath.EaseSymmetric | src/components/three/controls/VandraOrbitControls.js:31-33 | ease(1−t) = 1 − ease(t) |
| OrbitMath.EaseReachesOneOnlyAtOne | src/components/three/controls/VandraOrbitControls.js:31-33 | on [0, 1) the ease is below 1, so an animation stops exactly when its clamped time reaches 1 |
| OrbitControls.Restrict | src/components/three/controls/VandraOrbitControls.js:149-158 | `Math.max(lo, Math.min(hi, x))` is at least lo, at most hi when lo ≤ hi, and x when x is within both limits (a missing limit is ±Infinity) |
| OrbitControls.RestrictIdempotent | src/components/three/controls/VandraOrbitControls.js:149-158 | restricting twice is restricting once |
| OrbitControls.AnimationProgress | src/components/three/controls/VandraOrbitControls.js:122 | the animation time lies in [0, 1] and is 1 from the animation's end on |
| OrbitControls.Constrain | src/components/three/controls/VandraOrbitControls.js:149-158 | after a step theta is within the azimuth limits, phi within the (safe) polar limits, and the radius within the distance limits |
| OrbitControls.ConstrainIdempotent | src/components/three/controls/VandraOrbitControls.js:149-158 | constraining a constrained position changes nothing |
| OrbitControls.Damp | src/components/three/controls/VandraOrbitControls.js:166-175 | with damping the pending rotation is multiplied by 1 − dampingFactor; without it, reset to 0 |
| OrbitControls.Update | src/components/three/controls/VandraOrbitControls.js:118-199 | an update keeps settings and gesture; while a gesture is active it cancels any animation; without a running animation the position is the old one plus the pending rotation, constrained, with target and zoom kept; a running animation sets the constrained pose, target and zoom it has reached at the eased time and stays on iff that time is before the end; the camera sits at the target plus the constrained offset, and the deltas are damped |
| OrbitControls.LimitsRestrictOnce | src/components/three/controls/VandraOrbitControls.js:149-158 | even with crossed limits, one restriction settles the value |
| OrbitControls.Duration | src/components/three/controls/VandraOrbitControls.js:240-248 | the duration is at least 1 ms and at least each of the rotation, radius, target and zoom terms, and equals one of them or 1 ms |
| OrbitControls.ShortestDelta | src/components/three/controls/VandraOrbitControls.js:233-236 | the radius change is the difference; the phi and theta changes lie in [−π, π] and differ from the raw difference by whole turns |
| OrbitControls.UpdateAnimationInternals | src/components/three/controls/VandraOrbitControls.js:229-254 | only the animation record changes; deltas and zoom factor are computed from the two poses; without a factor the duration is at least 1 ms, with one it is scaled by it |
| OrbitControls.ScaledDuration | src/components/three/controls/VandraOrbitControls.js:250-252 | a duration multiplied by a non-zero factor stays non-zero, and positive for a positive factor |
| OrbitControls.AnimateToPose | src/components/three/controls/VandraOrbitControls.js:256-269 | the animation starts from the current pose, ends at the requested one, and is timed from now; an active gesture cancels it |
| OrbitControls.JumpToPose | src/components/three/controls/VandraOrbitControls.js:271-278 | the animation stops, target and zoom are the requested ones, and the radius is the constrained radius of the requested offset |
| OrbitControls.UpdateTarget | src/components/three/controls/VandraOrbitControls.js:280-290 | a running animation is re-aimed at the new target, keeping its end pose; otherwise a new animation to the same offset and zoom starts |
| OrbitControls.ZoomLimit | src/components/three/controls/VandraOrbitControls.js:378-392 | a zoom is restricted to [minZoom, maxZoom] and kept when already inside |
| OrbitControls.DollyIn | src/components/three/controls/VandraOrbitControls.js:378-384 | the zoom is multiplied by the scale and restricted to its limits; nothing else changes but the zoom-changed flag |
| OrbitControls.DollyOut | src/components/three/controls/VandraOrbitControls.js:386-392 | the zoom is divided by the scale and restricted to its limits; nothing else changes but the zoom-changed flag |
| OrbitControls.MoveRotate | src/components/three/controls/VandraOrbitControls.js:414-433 | a rotating drag keeps the gesture and records the new start point; only this handler needs the element size |
| OrbitControls.MoveDolly | src/components/three/controls/VandraOrbitControls.js:435-457 | a dollying drag keeps the gesture and records the new start point; it needs only a non-zero zoom scale, whatever the element size |
| OrbitControls.MoveTouchDolly | src/components/three/controls/VandraOrbitControls.js:525-552 | a pinch keeps the gesture and records the finger distance; it needs only a non-zero zoom scale |
| OrbitControls.Wheel | src/components/three/controls/VandraOrbitControls.js:465-481 | a wheel turn keeps the gesture; it needs only a non-zero zoom scale |
| OrbitControls.OnMouseDown | src/components/three/controls/VandraOrbitControls.js:564-597 | disabled controls ignore it; the orbit button starts ROTATE and the zoom button DOLLY, registering the document listeners and dispatching start; with that gesture switched off the button does nothing; any other button starts no gesture, but while one is already on it registers the listeners and dispatches start again |
| OrbitControls.OnMouseMove | src/components/three/controls/VandraOrbitControls.js:599-619 | moves change neither settings, gesture nor listeners, and do nothing unless enabled, listening and in ROTATE or DOLLY |
| OrbitControls.OnMouseUp | src/components/three/controls/VandraOrbitControls.js:621-634 | mouse-up ends the gesture (NONE), unregisters the listeners and dispatches end |
| OrbitControls.OnMouseWheel | src/components/three/controls/VandraOrbitControls.js:636-648 | the wheel acts only when enabled, zoom is enabled and the gesture is NONE or ROTATE, dispatching start and end; it needs only a non-zero zoom scale |
| OrbitControls.OnTouchStart | src/components/three/controls/VandraOrbitControls.js:650-692 | 1 touch starts TOUCH_ROTATE, 2 start TOUCH_DOLLY, 3 change nothing, any other count sets NONE; disabled controls ignore it |
| OrbitControls.OnTouchMove | src/components/three/controls/VandraOrbitControls.js:694-731 | a move acts only for the gesture its finger count started; 0 or more than 3 fingers end the gesture |
| OrbitControls.OnTouchEnd | src/components/three/controls/VandraOrbitControls.js:733-743 | touch-end sets NONE and dispatches end |
| OrbitControls.Handle | src/components/three/controls/VandraOrbitControls.js:564-743 | no input changes the settings; disabled controls ignore every input; the element size is needed only by a rotating drag or one-finger move |
| OrbitControls.GesturesKeepZoomInRange | src/components/three/controls/VandraOrbitControls.js:378-392 | from a zoom within its limits, no gesture takes the zoom outside them |
| OrbitControls.UpdateAtEnd | src/components/three/controls/VandraOrbitControls.js:120-139 | an update at or after the end of a running animation lands on its final target and zoom and stops it |
| OrbitControls.AnimationEndsAtPose | src/components/three/controls/VandraOrbitControls.js:256-269 | an animation started to a pose and updated after its duration ends at the requested target and zoom and stops |
| OrbitControls.StartedAnimation | src/components/three/controls/VandraOrbitControls.js:229-232 | the start plus the recorded deltas is the requested target and zoom |
| OrbitControls.FinishedAnimationLands | src/components/three/controls/VandraOrbitControls.js:120-139 | a finished animation leaves the camera at its end target and zoom, no longer animating |
| OrbitControls.AnimationEndsOnAzimuth | src/components/three/controls/VandraOrbitControls.js:233-236 | with no azimuth limits an animation ends on the requested azimuth up to whole turns |
| CameraOrientations.RotationsAreInverse | src/components/three/three_view_base/advanced_camera/camera_orientations.ts:22-24 | the Z-up and Y-up rotations undo each other and keep lengths |
| CameraOrientations.MakeOrientation | src/components/three/three_view_base/advanced_camera/camera_orientations.ts:11-25 | up is (0,0,1), target the origin, rotation (phi, 0, theta), zoom × radius = 0.4426 (positive for a positive radius), and the position is the made-safe legacy-radius point rotated to Z-up |
| CameraOrientations.Coordinates | src/components/three/three_view_base/advanced_camera/camera_orientations.ts:34-52 | every preset radius lies in [0.3, 1.0], phi in [0, 0.5]·π and theta in [−1, 1.12]·π |
| CameraOrientations.PresetOrientation | src/components/three/three_view_base/advanced_camera/camera_orientations.ts:29-53 | every preset has a positive zoom, up (0,0,1) and target the origin |
| CameraOrientations.InitialZoomIsOne | src/components/three/three_view_base/advanced_camera/camera_orientations.ts:12-38 | the 'initial' preset has zoom exactly 1 |
| CameraOrientations.PresetZoomBounds | src/components/three/three_view_base/advanced_camera/camera_orientations.ts:21-52 | every preset zoom lies in [0.4426, 0.4426/0.3] |
| AdvancedCamera.Frustum | src/components/three/three_view_base/advanced_camera/index.ts:36-39 | at distance d: top = d·tan(fov/2)/zoom, bottom = −top, right = aspect·top = −left |
| AdvancedCamera.SubView | src/components/three/three_view_base/advanced_camera/index.ts:43-51 | a sub-view shifts left by offsetX·width/fullWidth, lowers top by offsetY·height/fullHeight and scales width and height by the view's share |
| AdvancedCamera.WholeSubView | src/components/three/three_view_base/advanced_camera/index.ts:43-51 | a sub-view covering the whole image with no offset leaves the bounds as they are |
| AdvancedCamera.FilmShift | src/components/three/three_view_base/advanced_camera/index.ts:53-56 | a film offset shifts left and right by near·offset/filmWidth and changes nothing else; a zero offset changes nothing |
| AdvancedCamera.ViewBounds | src/components/three/three_view_base/advanced_camera/index.ts:35-60 | without a view and film offset the bounds are the plain frustum; without a view they stay symmetric vertically with width 2·aspect·top |
| AdvancedCamera.BlendEnds | src/components/three/three_view_base/advanced_camera/index.ts:74-82 | blending with 0 gives the perspective matrix and with 1 the orthographic one |
| AdvancedCamera.BlendBetween | src/components/three/three_view_base/advanced_camera/index.ts:74-82 | for a factor in [0, 1] each element lies between the two it blends |
| AdvancedCamera.UpdateProjectionMatrix | src/components/three/three_view_base/advanced_camera/index.ts:29-83 | without a target nothing changes; otherwise only the projection changes, and element i is (1−λ)·perspective[i] + λ·orthographic[i], perspective at near and orthographic at the distance to the target |
| AdvancedCamera.ProjectionEnds | src/components/three/three_view_base/advanced_camera/index.ts:62-82 | λ = 0 gives exactly the perspective matrix at near, λ = 1 exactly the orthographic one at the target distance |
| AdvancedCamera.UpdateProjectionIdempotent | src/components/three/three_view_base/advanced_camera/index.ts:29-83 | updating the projection twice is updating it once |
| AdvancedCamera.SetAspect | src/components/three/three_view_base/advanced_camera/index.ts:85-89 | only the aspect and the projection change, and the projection is recomputed for the new aspect |
| AdvancedCamera.SetAspectIdempotent | src/components/three/three_view_base/advanced_camera/index.ts:85-89 | setting the same aspect twice is setting it once |
| AdvancedCamera.SetOrientation | src/components/three/three_view_base/advanced_camera/index.ts:91-100 | position, rotation, target and up are copied from the orientation, the local matrix is recomposed, and the projection is up to date |
| AdvancedCamera.Unproject | src/components/three/three_view_base/advanced_camera/index.ts:109-112 | a point is unprojected through the inverse of the updated projection and then the world matrix; the camera keeps the inverted matrix |
| AdvancedCamera.GetRay | src/components/three/three_view_base/advanced_camera/index.ts:102-107 | the ray starts at the unprojected near point (z = −1) and points along normalize(far − near) |
| ThreeTools.AddChild | src/components/three/three_view_base/fit_zones_visualization.ts:61 | adding a child appends it after the existing children and changes nothing else about the parent |
| ThreeTools.FindAllByName | src/components/three/three_tools.ts:32-40 | every node found carries the name, and a root with the name comes first |
| ThreeTools.FindAllByNameIsFilter | src/components/three/three_tools.ts:32-40 | the nodes found are exactly the subtree's nodes, root included, that carry the name, in traversal order |
| ThreeTools.FindAllByNameMembers | src/components/three/three_tools.ts:32-40 | a node is found iff it is in the subtree and carries the name |
| ThreeTools.UpdateNamedData | src/components/three/three_view_base/fit_zones_visualization.ts:71-85 | rewriting the data of every node with a name keeps each node's name, position, points and number of children |
| ThreeTools.FindAfterUpdate | src/components/three/three_tools.ts:32-40 | after the named nodes' data is rewritten, a search finds the same nodes, each rewritten, in the same order |
| ThreeTools.DisposeObject | src/components/three/three_tools.ts:102-111 | a leaf is disposed itself |
| ThreeTools.DisposesExactlyLeaves | src/components/three/three_tools.ts:102-111 | the recursion disposes exactly the subtree's leaves, in traversal order, and no node with children |
| ThreeTools.ClearRoot | src/components/three/three_tools.ts:119-121 | removing the first child until none is left empties the root, removes exactly its children, and keeps everything else |
| ThreeTools.ClearObjectRoots | src/components/three/three_tools.ts:117-123 | both the left and the right root end with no children and are otherwise unchanged |
| ThreeTools.ParseMatrix | src/components/three/three_tools.ts:42-50 | reading succeeds iff there are 4 rows of at least 4 numbers; element (row, column) of the matrix is value[row][column] |
| ThreeTools.ParseRows | src/components/three/three_tools.ts:42-50 | a matrix written as its rows reads back as itself |
| ThreeTools.RowsOfParsed | src/components/three/three_tools.ts:42-50 | 4 rows of exactly 4 numbers read into a matrix whose rows are those rows |
| ThreeTools.ParseVector3 | src/components/three/three_tools.ts:52-55 | a vector is read iff there are exactly 3 numbers, taken in order |
| ThreeTools.ParseVector3RoundTrip | src/components/three/three_tools.ts:52-55 | a vector written as an array reads back as itself, and a read array is the written vector |
| ThreeTools.ToCanvasPosition | src/components/three/three_tools.ts:80-91 | NDC x in [−1, 1] maps into [0, width] with −1 at 0, NDC y in [−1, 1] maps into [0, height] with +1 at 0 (y points down) |
| ThreeTools.PositionsByTag | src/components/three/three_view_base/fit_zones_visualization.ts:153-163 | the result keeps every key it starts with |
| ThreeTools.UntaggedKeepsInitial | src/components/three/three_view_base/fit_zones_visualization.ts:153-163 | a key no point is tagged with keeps its initial entry |
| ThreeTools.LastTaggedWins | src/components/three/three_view_base/measurement_visualization.ts:375-386 | the entry under a tag is the canvas position of the last point carrying it |
| ThreeTools.Slice | src/components/three/three_tools.ts:10 | `slice(start, end)` within bounds is the substring; with end before start it is empty |
| ThreeTools.ColorVec4 | src/components/three/three_tools.ts:6-17 | text not starting with 'rgba' gives THREE's parsed colour with the element's opacity; 'rgba' text succeeds iff it has at least three arguments |
| ThreeTools.ThreeColor | src/components/three/three_tools.ts:19-30 | text not starting with 'rgba' gives THREE's parsed colour; 'rgba' text gives a colour iff it has three arguments, or four when alpha is blended, and that colour is the rgba colour's first three parts as they are when alpha is ignored, or moved from white toward them by its alpha otherwise |
| ThreeTools.ThreeColorOfRgba | src/components/three/three_tools.ts:19-28 | for 'rgba(r,g,b,a)' text the colour is (r, g, b) over 255 when alpha is ignored, and white moved toward it by a otherwise |
| ThreeTools.ColorVec4OfRgba | src/components/three/three_tools.ts:6-12 | 'rgba(r,g,b,a)' gives (r/255, g/255, b/255, a) |
| ThreeTools.OpaqueRgba | src/components/three/three_tools.ts:19-28 | for 'rgba' text with alpha 1, the colour is the same whether alpha is ignored or blended from white |
| ThreeTools.RgbaArgumentsOf | src/components/three/three_tools.ts:10-11 | the argument list of 'rgba(r,g,b,a)' splits back into exactly r, g, b, a |
| MeasurementVisualization.Tangent | src/components/three/three_view_base/measurement_visualization.ts:15-20 | the ruler's tangent is perpendicular to the axis and to the plane's normal, so it runs across the axis within the plane |
| MeasurementVisualization.PlaneThrough | src/components/three/three_view_base/measurement_visualization.ts:70-71 | the plane through a point with a normal has that normal and contains the point |
| MeasurementVisualization.ProjectionIsOnPlane | src/components/three/three_view_base/measurement_visualization.ts:22-28 | with a unit normal, a projected point lies on the plane |
| MeasurementVisualization.LevelAlongAxis | src/components/three/three_view_base/measurement_visualization.ts:70-74 | projecting onto the plane across a unit axis through a point puts the result level with that point along the axis |
| MeasurementVisualization.SlideKeepsDistance | src/components/three/three_view_base/measurement_visualization.ts:43-47 | moving along a direction parallel to the plane keeps the distance to it |
| MeasurementVisualization.RulerSetupOf | src/components/three/three_view_base/measurement_visualization.ts:189-236 | the side flip is −1 for the left foot and +1 for the right unless the type decides; 'width' forces −1; 'half_width' takes +1 iff axis x > 0, padding 0.025 and 0, and lowers the bounds' max z by size.z·\|constant\|/size.y; 'heel_width' forces +1 and the floor; 'height' replaces from by (to.x, to.y, 0); the plane defaults to the floor; unreadable vectors or a zero bounds depth fail |
| MeasurementVisualization.RulerSides | src/components/three/three_view_base/measurement_visualization.ts:208-227 | width, half width and heel width put both feet's rulers on the same side; every other type puts them on opposite sides |
| MeasurementVisualization.RulerFrame | src/components/three/three_view_base/measurement_visualization.ts:64-78 | with a unit axis, the ruler's ends are level along the axis with the two measured points |
| MeasurementVisualization.ArrowheadDy | src/components/three/three_view_base/measurement_visualization.ts:96-99 | the barb offset is ±0.005, negative iff the arrow is short |
| MeasurementVisualization.ArrowVertices | src/components/three/three_view_base/measurement_visualization.ts:101-131 | 10 vertices, 14 when short: the shaft a→b, two barbs at each end placed symmetrically across the tangent and set back by the barb offset, and for short arrows two tails |
| MeasurementVisualization.StoplineExtent | src/components/three/three_view_base/measurement_visualization.ts:80-83 | the stopline start −(inner + max(dist_a, dist_b)) is ≤ 0 and the stop ruler + outer padding is > 0 |
| MeasurementVisualization.RulerGeometry | src/components/three/three_view_base/measurement_visualization.ts:82-137 | exactly 4 stopline vertices, from start to stop across each end in that order; the arrow has 10 or 14 vertices, its ends at the ruler padding, and 14 iff its length is under 0.015 |
| MeasurementVisualization.RulerIsOnPlane | src/components/three/three_view_base/measurement_visualization.ts:82-137 | with a unit plane normal, the stoplines and the arrow's ends lie in the plane |
| MeasurementVisualization.CreateAxisRuler | src/components/three/three_view_base/measurement_visualization.ts:152-237 | a ruler is built iff the placement succeeds and the ray meets the bounds, and then it is the geometry of that placement's frame |
| MeasurementVisualization.Climb | src/components/three/three_view_base/measurement_visualization.ts:44-45 | the correction direction is level iff both tangent and cotangent are level |
| MeasurementVisualization.SlideToFloor | src/components/three/three_view_base/measurement_visualization.ts:46 | sliding along a climbing direction ends at z = 0 |
| MeasurementVisualization.ProjectUvAboveGround | src/components/three/three_view_base/measurement_visualization.ts:32-50 | a projected point with z ≥ 0 is kept; one below ground is slid to z = 0; it fails iff it is below ground and neither direction climbs (the source divides by zero); the result is never below ground |
| MeasurementVisualization.CornerIsOnPlane | src/components/three/three_view_base/measurement_visualization.ts:38-47 | with directions in a plane with unit normal, the corner lies in the plane, slid or not |
| MeasurementVisualization.RectangleCorners | src/components/three/three_view_base/measurement_visualization.ts:296-306 | the four corners are the cross-section bounds padded outward by 0.01, projected above ground |
| MeasurementVisualization.Outline | src/components/three/three_view_base/measurement_visualization.ts:308-312 | 8 vertices drawing exactly the rectangle's four sides |
| MeasurementVisualization.CreatePlaneRectangle | src/components/three/three_view_base/measurement_visualization.ts:239-320 | succeeds iff the description has a plane and readable cross-section bounds; then 8 vertices outlining the padded rectangle, all with z ≥ 0 |
| MeasurementVisualization.FitZoneFromMeasurementType | src/components/three/three_view_base/measurement_visualization.ts:389-402 | length → toe, width → ball, height → instep, heel_width → heel, anything else → none |
| MeasurementVisualization.FitZoneOfTypeInverse | src/components/three/three_view_base/measurement_visualization.ts:389-402 | each zone comes from exactly one measurement type |
| MeasurementVisualization.Highlight | src/components/three/three_view_base/measurement_visualization.ts:417-418 | one zone gets the colour and the marker; every other zone and uniform is unchanged |
| MeasurementVisualization.UpdateMeasurementZoneUniforms | src/components/three/three_view_base/measurement_visualization.ts:404-420 | no type changes nothing; a type with a zone highlights that zone on both feet at the zone's anchor; a type without a zone, or missing anchors, fails |
| MeasurementVisualization.NotedMeasurementsHighlight | src/components/three/three_view_base/measurement_visualization.ts:389-420 | every type with a zone highlights without failing when the anchors exist |
| MeasurementVisualization.InfoPoint | src/components/three/three_view_base/measurement_visualization.ts:333-341 | an info point sits at its marker, is named 'measurement_info', and is tagged with the type and the marker key |
| MeasurementVisualization.MeasurementInfoPoints | src/components/three/three_view_base/measurement_visualization.ts:325-344 | one info point per marker, in the markers' order |
| MeasurementVisualization.MeasurementCanvasPositions | src/components/three/three_view_base/measurement_visualization.ts:357-387 | none iff a root is empty or no info point is found under one of them |
| MeasurementVisualization.FoundInfoPoints | src/components/three/three_view_base/measurement_visualization.ts:325-344 | a root holding a description's info points yields exactly those points to the search |
| MeasurementVisualization.NotesCardPosition | src/components/three/three_view_base/measurement_visualization.ts:375-386 | with info points on both feet, each foot's entry for the type is the canvas position of its last marker |
| FitZonesVisualization.BallAnchor | src/components/three/three_view_base/fit_zones_visualization.ts:19-23 | x and y are the midpoint of width_lateral and width_medial; z is that midpoint's z plus forefoot_height.maxz[2] |
| FitZonesVisualization.FootAnchors | src/components/three/three_view_base/fit_zones_visualization.ts:16-36 | toe and heel come from the length markers, instep is the instep_height maxz marker, ball is the ball anchor |
| FitZonesVisualization.FitZoneInfoPositions | src/components/three/three_view_base/fit_zones_visualization.ts:13-38 | anchors exist iff both feet's markers exist, and each foot gets its own |
| FitZonesVisualization.AnchorsArePerFoot | src/components/three/three_view_base/fit_zones_visualization.ts:16-36 | a foot's anchors depend only on that foot's descriptions |
| FitZonesVisualization.Anchor | src/components/three/three_view_base/fit_zones_visualization.ts:53-60 | an anchor is named 'fit_zone_info', sits at its position and is tagged {fitZone, footSide, fit} |
| FitZonesVisualization.Anchors | src/components/three/three_view_base/fit_zones_visualization.ts:45-62 | four anchors per foot, in the order ball, heel, instep, toe |
| FitZonesVisualization.CreateInfoPoints | src/components/three/three_view_base/fit_zones_visualization.ts:40-64 | each root keeps its children and gets exactly four anchors appended |
| FitZonesVisualization.ZoneOfTag | src/components/three/three_view_base/fit_zones_visualization.ts:76 | a tag names a zone iff it is that zone's key |
| FitZonesVisualization.UpdateInfoPoints | src/components/three/three_view_base/fit_zones_visualization.ts:66-87 | updating keeps each root's number of children |
| FitZonesVisualization.UpdateKeepsAnchors | src/components/three/three_view_base/fit_zones_visualization.ts:66-87 | after an update the same number of anchors is found, each at the same place with the same fitZone and footSide tags and the new fit of its zone |
| FitZonesVisualization.FitAlpha | src/components/three/three_view_base/fit_zones_visualization.ts:99 | the blend alpha is 0.35 for 'snug' or 'roomy' and 1.0 otherwise |
| FitZonesVisualization.UpdateZoneUniforms | src/components/three/three_view_base/fit_zones_visualization.ts:89-105 | on both feet every zone's colour is its fit colour blended from white and its marker is its anchor; nothing else changes |
| FitZonesVisualization.ZoneColorStrength | src/components/three/three_view_base/fit_zones_visualization.ts:98-101 | a zone that is neither snug nor roomy shows its fit colour as is; otherwise 35% of the way from white |
| FitZonesVisualization.ClearZoneUniforms | src/components/three/three_view_base/fit_zones_visualization.ts:107-117 | all four zone colours of both feet become white and nothing else changes, markers included |
| FitZonesVisualization.ClearUndoesColors | src/components/three/three_view_base/fit_zones_visualization.ts:89-117 | clearing after an update leaves only the markers the update set |
| FitZonesVisualization.VisualizeFitZones | src/components/three/three_view_base/fit_zones_visualization.ts:119-132 | fails iff the anchors are missing; otherwise the uniforms are updated, and anchors are created when the left root is empty and updated otherwise |
| FitZonesVisualization.ShowTwiceKeepsAnchors | src/components/three/three_view_base/fit_zones_visualization.ts:119-132 | showing fit zones twice on empty roots leaves exactly four anchors per foot, updated in place |
| FitZonesVisualization.AnchorCanvasPositions | src/components/three/three_view_base/fit_zones_visualization.ts:134-165 | none iff a root is empty or no anchor is found under one of them; otherwise each foot's map keeps the four zone keys |
| FitZonesVisualization.CreatedAnchorsHavePositions | src/components/three/three_view_base/fit_zones_visualization.ts:134-165 | once anchors are created on empty roots, every zone of both feet maps to the canvas position of its own anchor |
| FitZonesVisualization.CreatedAnchorsFound | src/components/three/three_view_base/fit_zones_visualization.ts:40-64 | on an empty root the search finds exactly the created anchors |
| FitZonesVisualization.LastAnchorOfZone | src/components/three/three_view_base/fit_zones_visualization.ts:157-163 | each zone key is carried by exactly one of a foot's anchors, so its entry is that anchor's position |
| MeshView.SuperSampling | src/components/three/three_view_base/index.ts:213-221 | the factor is the square root of two on screens denser than one and 2 otherwise |
| MeshView.SqrtTwoAbove | src/components/three/three_view_base/index.ts:218-220 | a square root of two exceeds 1.4 |
| MeshView.AlwaysSuperSampled | src/components/three/three_view_base/index.ts:250-254 | the factor exceeds one on every screen, so the branch that makes a target is always taken |
| MeshView.Resize | src/components/three/three_view_base/index.ts:240-269 | a usable container sets the dimensions, the canvas size and the aspect width/height; a stale target is remade at the super-sampled size and counted; otherwise the target stays |
| MeshView.UpdateRendererSizeAsWritten | src/components/three/three_view_base/index.ts:230-271 | no container or a zero side changes nothing; otherwise the target counts as stale when it is missing or differs from the container size |
| MeshView.UpdateRendererSize | src/components/three/three_view_base/index.ts:230-271 | as written, except a target counts as stale only when it differs from the super-sampled size it would be made at |
| MeshView.ResizeSettles | src/components/three/three_view_base/index.ts:223-242 | after either update to a usable container the size no longer counts as changed |
| MeshView.UpdateRendererSizeIdempotent | src/components/three/three_view_base/index.ts:230-271 | the corrected update applied twice equals it applied once, and leaves the target at the super-sampled size |
| MeshView.AsWrittenRemakesTarget | src/components/three/three_view_base/index.ts:247-267 | on a density of at least one and a container at least three pixels wide, a second update as written to the same container makes one more target |
| MeshView.WiderTarget | src/components/three/three_view_base/index.ts:263 | a factor above 1.4 at density ≥ 1 floors a width ≥ 3 to more than the width |
| MeshView.AsWrittenRemakesTargetExample | src/components/three/three_view_base/index.ts:230-271 | a 100×100 container at density 1 gets a 200×200 target on the first call and a second one on the next |
| MeshView.SinceLoaded | src/components/three/three_view_base/index.ts:332 | the time since the feet loaded is zero when no time, or time zero, is recorded, and now minus that time otherwise |
| MeshView.Shadow | src/components/three/three_view_base/index.ts:346-358 | a shadow lies in [0, 1], is 0 for a hidden foot, and is the clamped fade-in for a visible one |
| MeshView.WaveTime | src/components/three/three_view_base/index.ts:360-365 | the wave's time is 0 before the initial animation time and counts from it afterwards |
| MeshView.PaintUniforms | src/components/three/three_view_base/index.ts:334-365 | both feet get error visualisation 0 and cutoff speed·(t − mesh delay); the lines get speed·(t − wireframe delay) and the wave time; each shadow is its foot's; the rest of each foot's uniforms is kept |
| MeshView.Paint | src/components/three/three_view_base/index.ts:316-375 | no container leaves the uniforms alone; otherwise they are set at the time since the feet loaded |
| MeshView.PaintIsMonotone | src/components/three/three_view_base/index.ts:334-365 | with non-negative speeds, each foot's cutoff, the lines' cutoff, the shadows and the wave time never decrease as time passes |
| MeshView.ShadowIsMonotone | src/components/three/three_view_base/index.ts:346-358 | a shadow never fades out as time passes |
| MeshView.ScanTimingPhases | src/components/three/three_view_base/index.ts:321-365 | with the scan viewer's constants, before loading the feet are cut off below the floor, there are no shadows and the wave is held; from 1⅔ seconds a visible foot's shadow is full |
| MeshView.Dispatch | src/components/three/three_view_base/index.ts:273-286 | the mouse-up handler runs iff the event is a release while it is registered |
| MeshView.Listeners | src/components/three/three_view_base/index.ts:273-286 | after any events, either no listener or both are registered |
| MeshView.ListenersAfter | src/components/three/three_view_base/index.ts:273-286 | both listeners are registered iff the last event was a press |
| MeshView.ClickIffNoDrag | src/components/three/three_view_base/index.ts:273-286 | the mouse-up handler runs on an event iff it is a release directly after a press, so any move in between cancels the click |
| MeshView.SumOfTwo | src/components/three/three_view_base/index.ts:41 | reducing two positions from the origin adds them in order |
| MeshView.AverageVector3 | src/components/three/three_view_base/index.ts:39-43 | the mean exists iff there is a position (the source asserts); one position is its own mean; two average component-wise |
| MeshView.VisiblePositions | src/components/three/three_view_base/index.ts:289-295 | at most the two feet's positions are collected |
| MeshView.VisibleCenter | src/components/three/three_view_base/index.ts:288-300 | the centre lies on the x axis: the origin when no foot is visible, a visible foot's x when one is, their midpoint's x when both are |
| MeshView.SetupControls | src/components/three/three_view_base/index.ts:145-163 | distance limited to [0.2, 1.5], zoom to [0.2, 5], the target at the origin, rotate speed 0.75, animation radius and target speeds 0.25 and zoom speed 2.0; every other setting and every other part of the controls is kept |
| MeshView.PresetsWithinLimits | src/components/three/three_view_base/index.ts:145-155 | every camera preset's radius lies within the viewer's distance limits and its zoom within the zoom limits; with a positive rotation speed and a usable logarithm the animation speeds are valid |
| FeetScanView.AtMostOneListenerPerSlot | src/old_routes/results_beta/feetScanViewScene.ts:172-182 | while the registered listeners are those the slots hold, no slot has two listeners registered |
| FeetScanView.ReplaceListener | src/old_routes/results_beta/feetScanViewScene.ts:167-183 | the slot's old listener is unregistered and a fresh closure is kept in the slot and registered; the other slot and the rest of the view are unchanged; listeners stay one per slot |
| FeetScanView.DropListener | src/old_routes/results_beta/feetScanViewScene.ts:212-216 | the slot's listener is unregistered and the slot emptied; the other slot is unchanged and no listener of this slot remains |
| FeetScanView.WithStoplines | src/old_routes/results_beta/feetScanViewScene.ts:111-117 | the four stopline vertices become, in order, the ends of the foot's two stoplines, and no other uniform changes |
| FeetScanView.AddRuler | src/old_routes/results_beta/feetScanViewScene.ts:106-117 | the ruler object is appended to the foot's description root and its stoplines are copied in; the other foot and the rest of the view are unchanged |
| FeetScanView.AddGirthPlane | src/old_routes/results_beta/feetScanViewScene.ts:124-132 | the foot's girth plane is set, the cross-section outline appended when there is one; the other foot and the rest are unchanged |
| FeetScanView.ShowGirth | src/old_routes/results_beta/feetScanViewScene.ts:119-134 | without a plane nothing changes; with a plane and no cross section only the plane is set; with both it succeeds iff the rectangle can be built, and adds it |
| FeetScanView.AfterShowGirth | src/old_routes/results_beta/feetScanViewScene.ts:119-134 | the view the girth branch leaves even when it throws: a malformed cross section leaves the foot's girth plane set and nothing else changed |
| FeetScanView.ShowDescription | src/old_routes/results_beta/feetScanViewScene.ts:81-140 | succeeds only for a non-empty id whose description exists; a distance type adds its ruler, which must be placeable; a girth type shows its girth; any other type changes nothing; only the overlays of that foot change |
| FeetScanView.AfterShowDescription | src/old_routes/results_beta/feetScanViewScene.ts:81-140 | the view the call leaves even when it throws: a success's view; otherwise no overlay is added and only a girth measurement may have set that foot's girth plane |
| FeetScanView.ShowDistanceOverlay | src/old_routes/results_beta/feetScanViewScene.ts:106-117 | a distance measurement adds one object and puts the ruler's four stopline vertices, in order, into the foot's stoplines |
| FeetScanView.ShowGirthOverlay | src/old_routes/results_beta/feetScanViewScene.ts:124-132 | a girth measurement with a plane sets that plane, and adds one object iff there is also a cross section; otherwise the overlay roots are unchanged |
| FeetScanView.ShowOtherTypeChangesNothing | src/old_routes/results_beta/feetScanViewScene.ts:135-137 | a type that is neither a distance nor a girth leaves the view as it was |
| FeetScanView.RemoveDescriptions | src/old_routes/results_beta/feetScanViewScene.ts:186-219 | both description roots and notes roots are emptied; stoplines go to (0,0,−1), girth planes to (0,0,1,1) and zone colours to white; the timer is reset; the notes listener is unregistered and its slot emptied; nothing else changes |
| FeetScanView.RemoveUndoesShowDescription | src/old_routes/results_beta/feetScanViewScene.ts:186-219 | removing the descriptions after a successful show gives the same view as removing them without it |
| FeetScanView.RemoveUndoesRuler | src/old_routes/results_beta/feetScanViewScene.ts:186-204 | removing after a ruler was added gives the same view as removing without it |
| FeetScanView.RemoveUndoesGirthPlane | src/old_routes/results_beta/feetScanViewScene.ts:186-204 | removing after a girth plane was added gives the same view as removing without it |
| FeetScanView.ShowDescriptionNotes | src/old_routes/results_beta/feetScanViewScene.ts:143-184 | succeeds iff the description exists and the zone can be highlighted; then the info points are appended to that foot's notes root, the uniforms highlighted, the timer started, the notes listener replaced by a fresh one, and the other overlays are unchanged |
| FeetScanView.AfterShowDescriptionNotes | src/old_routes/results_beta/feetScanViewScene.ts:143-184 | the view the call leaves even when it throws: a missing description changes nothing; a zone that cannot be highlighted leaves the info points added to that foot's notes and nothing else changed |
| FeetScanView.ShowDescriptionInMesh | src/old_routes/results_beta/feetScanViewScene.ts:486-502 | succeeds only when both feet's descriptions exist; without notes the notes roots and slots are unchanged; with notes both feet get their info points and the notes slot holds the second closure made |
| FeetScanView.AfterShowDescriptionInMesh | src/old_routes/results_beta/feetScanViewScene.ts:486-502 | the view the call leaves even when it throws: a success's view, or, when the left foot fails, what the left foot's attempt left |
| FeetScanView.RightFailureKeepsLeft | src/old_routes/results_beta/feetScanViewScene.ts:492-500 | when the left foot is shown and the right one fails, the call fails but the left foot's overlays and uniforms stay as shown and the notes are untouched |
| FeetScanView.NotesPlacedAtLastMarker | src/old_routes/results_beta/feetScanViewScene.ts:143-184 | showing a noted measurement on a view without notes registers a listener that reports each foot's card at the canvas position of that foot's last marker |
| FeetScanView.CardsAtLastMarkers | src/old_routes/results_beta/feetScanViewScene.ts:167-171 | notes roots holding each foot's info points report each card at the foot's last marker |
| FeetScanView.ShowFitZones | src/old_routes/results_beta/feetScanViewScene.ts:314-346 | succeeds iff the zones' anchors can be found; then fit-zone colours are on, the timer started, anchors and uniforms come from visualizing the zones, the fit-zone listener is replaced, and the measurement overlays are unchanged |
| FeetScanView.AfterShowFitZones | src/old_routes/results_beta/feetScanViewScene.ts:314-346 | the view the call leaves even when it throws: the fit-zone colours and the timer are always set, and a failure changes nothing else |
| FeetScanView.RemoveFitZones | src/old_routes/results_beta/feetScanViewScene.ts:348-356 | zone colours cleared, anchors removed, the fit-zone listener unregistered and its slot emptied, default colours, timer reset; nothing else changes |
| FeetScanView.RemoveUndoesShowFitZones | src/old_routes/results_beta/feetScanViewScene.ts:314-356 | after showing and removing the fit zones the colours are default, only notes listeners remain, nothing is reported for the zones, and the measurement overlays are as before |
| FeetScanView.Paint | src/old_routes/results_beta/feetScanViewScene.ts:358-423 | the base schedule with the scan constants, plus each foot's fit-zone time: the seconds since the zones or notes were shown, zero while unset or zero |
| FeetScanView.FitZoneTimer | src/old_routes/results_beta/feetScanViewScene.ts:375-410 | once shown at a non-zero time the fit-zone time is now minus that time, and after removal it is zero |
| FeetScanView.SideIndices | src/old_routes/results_beta/feetScanViewScene.ts:259-282 | the indices picked for a foot are increasing and each names an annotation on that foot |
| FeetScanView.EveryAnnotationIndexed | src/old_routes/results_beta/feetScanViewScene.ts:259-282 | every annotation on a foot is among that foot's indices |
| FeetScanView.UpdateFootAnnotations | src/old_routes/results_beta/feetScanViewScene.ts:253-285 | each foot's annotation root holds exactly that foot's annotations, in order; nothing else changes |
| FeetScanView.AnnotationPlaced | src/old_routes/results_beta/feetScanViewScene.ts:259-282 | every annotation is placed under its own foot with its index as id |
| FeetScanView.OnlyAnnotationsPlaced | src/old_routes/results_beta/feetScanViewScene.ts:253-282 | every object under a foot's annotation root is an annotation of that foot with its index as id |
| FeetScanView.ClickToNdc | src/old_routes/results_beta/feetScanViewScene.ts:426-432 | the click's device coordinates lie in the z = 0 plane and map back to the click's offset within the canvas |
| FeetScanView.CheckAnnotationIntersection | src/old_routes/results_beta/feetScanViewScene.ts:287-307 | an annotation hit opens the nearest one by its id; else a foot hit opens a new, empty annotation at the point in the foot's coordinates; else the open annotation is closed; the screen position is passed through |
| FeetScanView.OnMouseUp | src/old_routes/results_beta/feetScanViewScene.ts:425-439 | outside annotation mode a click does nothing; in it, the ray through the click decides the action |
| FeetScanView.InitFootAnnotation | src/old_routes/results_beta/feetScanViewScene.ts:226-236 | annotation mode is switched on and nothing else changes |
| FeetScanView.ClickOpensShownAnnotation | src/old_routes/results_beta/feetScanViewScene.ts:253-307 | clicking one of the annotations shown on a foot opens the annotation of that foot it was made from |
| OnboardingView.SetupControls | src/old_routes/splash_beta/onboarding/onBoardingThreeView.ts:25-28 | the base viewer's controls, looking at the shifted scene's x offset |
| OnboardingView.UpdateGroundAccent | src/old_routes/splash_beta/onboarding/onBoardingThreeView.ts:30-37 | the ground's accent colour is set iff the material exists, to the page's colour made opaque |
| OnboardingView.Place | src/old_routes/splash_beta/onboarding/onBoardingThreeView.ts:95-103 | a root is placed iff its matrix is present and readable, at the offset translation times the matrix; otherwise it is left at the bare translation |
| OnboardingView.LoadSceneFile | src/old_routes/splash_beta/onboarding/onBoardingThreeView.ts:89-111 | a failed fetch changes nothing; otherwise the left foot, the right foot and the base plate are placed in turn, an unreadable matrix leaving its root at the bare offset and the later roots as they were; all three are frozen exactly when all three were read, and otherwise no root's freezing changes |
| OnboardingView.LoadWrittenScene | src/old_routes/splash_beta/onboarding/onBoardingThreeView.ts:89-111 | a scene file written from three matrices places each root at the offset times its matrix, frozen |
| OnboardingView.LoadWithoutLeftFoot | src/old_routes/splash_beta/onboarding/onBoardingThreeView.ts:95-110 | a file without the left foot's matrix leaves that root at the bare offset and everything else unchanged |
| OnboardingView.TranslationMovesLastColumn | src/old_routes/splash_beta/onboarding/onBoardingThreeView.ts:95-103 | for an affine matrix, translating after it moves its last column by the offset and keeps the rest |
| OnboardingView.Paint | src/old_routes/splash_beta/onboarding/onBoardingThreeView.ts:113-172 | the base schedule with the onboarding constants; from the wave's start the ground and its lines run on the wave's clock, before that they keep their time |
| OnboardingView.OnboardingSchedule | src/old_routes/splash_beta/onboarding/onBoardingThreeView.ts:118-162 | the feet and the mesh lines rise together at 0.3·(t − 0.1), a visible foot's shadow is full from 10.1 s, and from 0.1 s the ground runs in step with the wave |
| ResultsView.Reduce | src/old_routes/results_beta/index.tsx:133-197 | switching views resets the 3D view state to the six defaults; selecting a measurement toggles it (the same id again gives 'none'), spreads the click configuration over the 3D state and sets the measurement colour mode and notes; fit zones replace the 3D state with exactly the colour mode and the zones; the filter and backdrop events set their flags; a restart or an unknown event changes nothing |
| ResultsView.SelectTwice | src/old_routes/results_beta/index.tsx:147-157 | selecting the same measurement twice returns to no selection, or to that measurement, whichever it started from |
| ResultsView.FitZonesKeepSelection | src/old_routes/results_beta/index.tsx:158-165 | showing fit zones keeps the active view and measurement and leaves only the colour mode and the zones in the 3D state |
| ResultsView.RepeatIsIdempotent | src/old_routes/results_beta/index.tsx:133-197 | repeating any event but the measurement toggle changes nothing further |
| Footwear.Reduce | src/old_routes/results_beta/footwear/index.tsx:59-89 | loading and products are set as given; a card click keeps loading, products and filters; new filters are laid over the old by name and collapse the expanded card |
| Footwear.FilteredProducts | src/old_routes/results_beta/footwear/index.tsx:138-149 | products are listed iff they are loaded; the list is a subsequence of the products, and every product in it passes every non-null filter, the category filter as written |
| Footwear.FilteredMembers | src/old_routes/results_beta/footwear/index.tsx:138-149 | a product is listed iff it is loaded and no filter rejects it, the category filter as written |
| Footwear.ZeroResultsMessage | src/old_routes/results_beta/footwear/index.tsx:151-162 | empty while loading with no products; the no-products message when there are none; otherwise the no-results message iff no product passes the filters, and empty iff some product does |
| Footwear.ClickTwice | src/old_routes/results_beta/footwear/index.tsx:72-76 | clicking a card that is not expanded expands it, and clicking it again collapses it |
| Footwear.PanelFiltersDecide | src/old_routes/results_beta/footwear/index.tsx:138-149 | after the panel's filters are applied over filters of the same names, a product is listed iff the gender-age filter and the category filter as written both accept it |
| Footwear.PanelFiltersDecideIntended | src/old_routes/results_beta/footwear/index.tsx:138-149 | the same with the corrected category filter |
| Footwear.PassesPayload | src/old_routes/results_beta/footwear/index.tsx:145 | over the panel's payload a product passes iff both of its filters accept it, as written and corrected |
| Footwear.CategoryOffHidesAll | src/old_routes/results_beta/footwear/footwearFilters.tsx:200-208 | as written, after a category is switched on and off and the panel is applied, a page with products lists none and shows the no-results message |
| Footwear.CategoryOffIntendedKeepsAll | src/old_routes/results_beta/footwear/footwearFilters.tsx:200-208 | corrected, after a category is switched on and off a product passes the panel's filters iff the gender-age filter accepts it |
| FootwearFilters.Toggle | src/old_routes/results_beta/footwear/footwearFilters.tsx:233-242 | toggling flips exactly one option, adding it if missing, and keeps every other option |
| FootwearFilters.Clear | src/old_routes/results_beta/footwear/footwearFilters.tsx:181-184 | clearing leaves both toggle states empty |
| FootwearFilters.FiltersPayload | src/old_routes/results_beta/footwear/footwearFilters.tsx:170-177 | the applied payload holds exactly the gender-age filter and the category filter of the current toggles |
| FootwearFilters.Uniq | src/old_routes/results_beta/footwear/footwearFilters.tsx:217 | uniq keeps exactly the values it is given, each once |
| FootwearFilters.UniqSnoc | src/old_routes/results_beta/footwear/footwearFilters.tsx:217 | uniq keeps first occurrences in order: a further value is appended iff it was not given before |
| FootwearFilters.UniqAfterSnoc | src/old_routes/results_beta/footwear/footwearFilters.tsx:217 | after some values already seen, a further value is appended iff it is neither seen nor given before |
| FootwearFilters.UniqAfter | src/old_routes/results_beta/footwear/footwearFilters.tsx:217 | the values kept after some already seen are those seen and those given, each once, after the seen ones |
| FootwearFilters.AllCategories | src/old_routes/results_beta/footwear/footwearFilters.tsx:217 | the flattened list holds exactly the categories of some product |
| FootwearFilters.CategoryOptions | src/old_routes/results_beta/footwear/footwearFilters.tsx:215-221 | no products give no options; otherwise each category of some product appears exactly once, and nothing else |
| FootwearFilters.ToggleTwice | src/old_routes/results_beta/footwear/footwearFilters.tsx:233-242 | toggling an option twice restores the state |
| FootwearFilters.CategoryOffRejectsAll | src/old_routes/results_beta/footwear/footwearFilters.tsx:200-206 | as written, a category switched on and off again leaves a filter that rejects every product, where the corrected filter accepts it |
| FootwearFilters.CategoryAcceptsAgrees | src/old_routes/results_beta/footwear/footwearFilters.tsx:200-206 | the corrected filter accepts everything while nothing is on, and agrees with the written one otherwise |
| FootwearFilters.NothingOnAcceptsAll | src/old_routes/results_beta/footwear/footwearFilters.tsx:186-206 | a gender-age or corrected category filter with nothing switched on accepts every product |
| FootwearFilters.ClearedAcceptsAll | src/old_routes/results_beta/footwear/footwearFilters.tsx:181-206 | as written, a gender-age or category filter whose toggles have no keys, as after clearing, accepts every product |
| FootwearFilters.IsOn | src/old_routes/results_beta/footwear/footwearFilters.tsx:195 | an option never toggled reads as off; a toggled one reads as its value |
| FootwearFilters.AnyOn | src/old_routes/results_beta/footwear/footwearFilters.tsx:191 | some option is on iff some key reads as on; an empty state has none |
| FootwearFilters.GenderAgeAccepts | src/old_routes/results_beta/footwear/footwearFilters.tsx:186-198 | unisex products and every product while nothing is on pass; otherwise a product passes iff its normalised gender-age is on |
| FootwearFilters.CategoryAcceptsAsWritten | src/old_routes/results_beta/footwear/footwearFilters.tsx:200-208 | a state with no keys passes everything; otherwise a product passes iff one of its categories is on, so a state with keys but nothing on passes nothing |
| FootwearFilters.CategoryAccepts | src/old_routes/results_beta/footwear/footwearFilters.tsx:200-208 | corrected: nothing on passes everything, and otherwise it agrees with the written filter |
| FootwearFilters.Accepts | src/old_routes/results_beta/footwear/footwearFilters.tsx:170-208 | the applied filters: the gender-age filter and the category filter as written |
| FootwearFilters.AcceptsIntended | src/old_routes/results_beta/footwear/footwearFilters.tsx:170-208 | with the corrected category filter: agrees with the applied filter except that a category filter with nothing on passes everything |
| ProductCard.StockedSizes | src/old_routes/results_beta/footwear/productCard.tsx:398-403 | the kept sizes are, in order, exactly the recommended sizes whose length label some colour and width of the product stocks |
| ProductCard.Insert | src/old_routes/results_beta/footwear/productCard.tsx:456 | inserting into a list sorted by length keeps it sorted and adds exactly the one size |
| ProductCard.SortByLength | src/old_routes/results_beta/footwear/productCard.tsx:456 | the sorted list is ordered by length and is a permutation of the input |
| ProductCard.InsertStable | src/old_routes/results_beta/footwear/productCard.tsx:456 | inserting keeps, for each length, the sizes of that length in their order, the new one last |
| ProductCard.SortStable | src/old_routes/results_beta/footwear/productCard.tsx:456 | the sort is stable: for each length, its sizes come out in their input order |
| ProductCard.FilterSwap | src/old_routes/results_beta/footwear/productCard.tsx:456 | two sizes of different lengths are never both kept by one length filter, so their order does not matter to it |
| ProductCard.InsertBeforeLast | src/old_routes/results_beta/footwear/productCard.tsx:456 | the stability step where the inserted size goes before the last element |
| ProductCard.MostLikelyIndex | src/old_routes/results_beta/footwear/productCard.tsx:457-464 | the index of the first size with the highest length likelihood, 0 when there are no sizes |
| ProductCard.WidthSizes | src/old_routes/results_beta/footwear/productCard.tsx:454-456 | the sizes of the best width, exactly those, ordered by length |
| ProductCard.RecommendationSizes | src/old_routes/results_beta/footwear/productCard.tsx:446-471 | the ranked list is the best width's sizes by length, and the recommended index is the first one no other size beats on likelihood |
| ProductCard.FitPreferenceRow | src/old_routes/results_beta/footwear/productCard.tsx:260-269 | no recommendation gives no row; otherwise three entries: the next smaller size, the recommended one and the next larger one, each present iff it exists |
| ProductCard.FitPreferenceOrdered | src/old_routes/results_beta/footwear/productCard.tsx:260-269 | for a ranked recommendation the middle entry exists and beats every size of that width, and the row runs from shorter to longer |
| ProductCard.RecommendedPositionShape | src/old_routes/results_beta/footwear/productCard.tsx:310-319 | the recommended position is −1, an index, or an index plus one half |
| ProductCard.KeepRange | src/old_routes/results_beta/footwear/productCard.tsx:321-326 | keeping exactly the indices of a range keeps that slice |
| ProductCard.FilterLengthVariants | src/old_routes/results_beta/footwear/productCard.tsx:308-329 | at most five stocked lengths, as one contiguous run that holds the last variant no longer than the recommendation; five or fewer variants are all shown; a position below 2 shows the first five, a position past the third-last the last five, and any other exactly the indices within two of it |
| ProductCard.NearWindow | src/old_routes/results_beta/footwear/productCard.tsx:326 | the indices within two of a position between 2 and the third-last form a run of at most five holding the position's own index |
| ProductCard.FindSize | src/old_routes/results_beta/footwear/productCard.tsx:420-423 | finds the first recommended size with both labels of the selection, and none if no size has them |
| ProductCard.DispatchedFit | src/old_routes/results_beta/footwear/productCard.tsx:417-443 | without a selection or a recommendation, or when no recommended size matches the selection, the product's fit is shown; otherwise the first matching size's fit zones |
| FootwearGrid.HasProductActive | src/old_routes/results_beta/footwear/footwearGrid.tsx:51-55 | a card counts as active iff an index is given, zero included |
| FootwearGrid.Expanded | src/old_routes/results_beta/footwear/footwearGrid.tsx:115 | an expanded card implies an active card |
| FootwearGrid.Position | src/old_routes/results_beta/footwear/footwearGrid.tsx:127-135 | with a card active, card i sits in row i of the last column; otherwise at row i div 3, column i mod 3, so row·3 + column = i |
| FootwearGrid.ScrollTarget | src/old_routes/results_beta/footwear/footwearGrid.tsx:59-79 | the grid scrolls iff the active index is non-negative and products are loaded, to index × (card height + gap) |
| FootwearGrid.Aligned | src/old_routes/results_beta/footwear/footwearGrid.tsx:68-75 | the expanded card counts as aligned iff the scroll offset is within 100 pixels of where it settled |
| FootwearGrid.FillerRowStart | src/old_routes/results_beta/footwear/footwearGrid.tsx:142-153 | the blank cells get a start row iff a card is active |
| FootwearGrid.PositionsDistinct | src/old_routes/results_beta/footwear/footwearGrid.tsx:127-135 | no two cards share a cell |
| FootwearGrid.ScrollToActiveRow | src/old_routes/results_beta/footwear/footwearGrid.tsx:59-62 | the scroll target is the top of the active card's row in the expanded layout |
| FootwearGrid.FillersBelowCards | src/old_routes/results_beta/footwear/footwearGrid.tsx:142-153 | in the expanded layout every blank cell starts below every card |
| MeasurementCarousel.IndexOf | src/old_routes/results_beta/measurements/dummyData.ts:60-61 | the first position of the id, or −1 iff it is absent |
| MeasurementCarousel.MeasurementIndex | src/old_routes/results_beta/measurements/dummyData.ts:60-61 | the measurement's position in the list, or −1 iff it is not in it |
| MeasurementCarousel.NextIn | src/old_routes/results_beta/measurements/dummyData.ts:63-70 | nothing for an unknown id; otherwise the following entry, the last wrapping to the first |
| MeasurementCarousel.PrevAsWrittenIn | src/old_routes/results_beta/measurements/dummyData.ts:72-79 | as written, nothing for an unknown id, the last entry from the first, and the first entry from any other |
| MeasurementCarousel.PrevIn | src/old_routes/results_beta/measurements/dummyData.ts:72-79 | corrected: nothing for an unknown id; otherwise the preceding entry, the first wrapping to the last |
| MeasurementCarousel.MeasurementIdsDistinct | src/old_routes/results_beta/measurements/dummyData.ts:3-58 | no measurement id appears twice in the list |
| MeasurementCarousel.IndexOfDistinct | src/old_routes/results_beta/measurements/dummyData.ts:60-61 | in a list without repeats the position of the entry at i is i |
| MeasurementCarousel.StepMod | src/old_routes/results_beta/measurements/dummyData.ts:63-79 | one wrapped step forward or back is a step modulo the length |
| MeasurementCarousel.PrevNext | src/old_routes/results_beta/measurements/dummyData.ts:63-79 | the corrected step back undoes a step forward |
| MeasurementCarousel.NextPrev | src/old_routes/results_beta/measurements/dummyData.ts:63-79 | a step forward undoes the corrected step back |
| MeasurementCarousel.NextCycle | src/old_routes/results_beta/measurements/dummyData.ts:3-70 | stepping forward runs length, width, instep height, heel width and back to length |
| MeasurementCarousel.PrevAsWrittenSkips | src/old_routes/results_beta/measurements/dummyData.ts:72-79 | as written, stepping back from instep height lands on length, not width, and stepping forward again does not return |
| ScanStore.PrepareScanEvent | src/stores/scan/scan.ts:5-20 | a full 'start_scan' event whose annotation carries the configured chart locale, chart name, language and UI chart, and the customer's age group and gender, with the configured LED colours |
| ScanStore.PopulationName | src/stores/scan/scan.ts:116-121 | 'men' gives 'male', 'women' gives 'female', anything else 'unisex' |
| ScanStore.Labels | src/stores/scan/scan.ts:140-183 | every type has three labels, the middle one 'lang_medium' |
| ScanStore.IndexFromPopulation | src/stores/scan/scan.ts:161-165 | the band is 0, 1 or 2: 2 iff the percentile is at least two thirds of 100, 0 iff it is below one third |
| ScanStore.ValueFromPopulation | src/stores/scan/scan.ts:160 | a percentile in [0, 100] maps into [−0.5, 2.5] |
| ScanStore.SizeFromPopulation | src/stores/scan/scan.ts:166-171 | the size's index is the band, its value the scaled percentile, and its label the label of that band |
| ScanStore.RelativeSizes | src/stores/scan/scan.ts:139-236 | every one of the ten types is classified, each foot's percentile against the type's own labels |
| ScanStore.PopulationMonotone | src/stores/scan/scan.ts:160-165 | a higher percentile is never in a lower band and always has a higher value |
| ScanStore.IndexIsRoundedValue | src/stores/scan/scan.ts:160-165 | below 100 the band is the value rounded to the nearest integer |
| ScanStore.MiddleBandIsMedium | src/stores/scan/scan.ts:140-171 | a percentile in the middle third is labelled medium whatever the type |
| ProductsStore.RemoveAsphalt | src/stores/productsStore.ts:63-66 | disabled, the list is unchanged; enabled, no asphalt product is left |
| ProductsStore.RemoveAsphaltKeeps | src/stores/productsStore.ts:63-66 | enabled, a product is kept iff it is in the list and not in the asphalt category |
| ProductsStore.ApplyFiltersAsWritten | src/stores/productsStore.ts:54-60 | as written, applying fails iff some filter names no function, and the error names the first such filter |
| ProductsStore.ApplyFiltersIsSubsequence | src/stores/productsStore.ts:54-66 | the displayed list is always a subsequence of the products |
| ProductsStore.ApplyFiltersSnoc | src/stores/productsStore.ts:54-60 | filters apply in list order, each to the previous one's output |
| ProductsStore.AsWrittenAgrees | src/stores/productsStore.ts:54-60 | where every filter has a function, the written and the corrected pipeline give the same list |
| ProductsStore.DefaultFiltersAlwaysFail | src/stores/productsStore.ts:54-67 | as written, the default filters fail on every product list because 'genderAge' has no function |
| ProductsStore.DefaultFiltersRemoveAsphalt | src/stores/productsStore.ts:54-67 | corrected, the default filters show exactly the products outside the asphalt category, in order |
| ProductsStore.FindFilter | src/stores/productsStore.ts:41 | the first filter with the name, or none iff no filter has it |
| ProductsStore.MergeFilter | src/stores/productsStore.ts:43 | only the named filter changes, keeping its name and place, with the new properties merged over its own |
| ProductsStore.UpdateFilter | src/stores/productsStore.ts:39-51 | as written: an unknown name changes nothing; otherwise the merge stays in the filters, and the action throws an unknown-filter error iff some filter has no function, leaving the displayed list as it was; when it does not throw the list is recomputed from the products |
| ProductsStore.UpdateFilterIntended | src/stores/productsStore.ts:39-51 | corrected: an unknown name changes nothing; otherwise only the named filter changes, its properties merged with the new ones, and the displayed list is recomputed from the products |
| ProductsStore.FetchProducts | src/stores/productsStore.ts:24-38 | as written: a failed request ends in the error state with its message, products and displayed list kept; a successful one ends in success iff every filter has a function, storing the products and their filtered list, and otherwise in the error state with an unknown-filter error and the products kept; the filters never change |
| ProductsStore.FetchProductsIntended | src/stores/productsStore.ts:24-38 | corrected: on success the products are stored, the status is success with no error and the displayed list is a subsequence of them; on failure the status is error with the message and the products are kept; the filters never change |
| ProductsStore.DefaultStoreNeverShows | src/stores/productsStore.ts:5-67 | as written, the new store's every fetch ends in the error state with no products, and every update of one of its filters throws the 'genderAge' error and shows nothing |
| ProductsStore.DefaultStoreShowsNonAsphalt | src/stores/productsStore.ts:5-67 | corrected, a fetch from the new store shows exactly the products outside the asphalt category |
| Query.Parts | src/services/helpers.ts:2-7 | one part per parameter, in order |
| Query.EncodeQueryParameters | src/services/helpers.ts:1-9 | the encoding is empty iff there are no parameters |
| Query.EncodeQuery | src/services/helpers.ts:11-17 | the url alone without parameters, otherwise the url, '?', and the encoded parameters |
| Query.ParseParts | src/services/helpers.ts:2-8 | parsing the parts yields one parameter per part |
| Query.ParsePartOf | src/services/helpers.ts:5 | a part reads back as its parameter |
| Query.ParsePartsOf | src/services/helpers.ts:2-8 | a list of parts reads back as its parameters |
| Query.PartHasNoAmpersand | src/services/helpers.ts:1-9 | a part holds no '&', so joining on '&' can be split back |
| Query.ParseEncode | src/services/helpers.ts:1-9 | splitting the encoded string on '&' and each part at its first '=' and decoding gives back the parameters |
| UriComponent.HexDigit | src/services/helpers.ts:5 | an escape digit is unreserved |
| UriComponent.HexValueOfDigit | src/services/helpers.ts:5 | a hexadecimal digit reads back as its value |
| UriComponent.EscapeByte | src/services/helpers.ts:5 | an escaped byte is '%' and two unreserved digits |
| UriComponent.EscapeBytes | src/services/helpers.ts:5 | escaping bytes gives three characters per byte, each unreserved or '%' |
| UriComponent.EncodeChar | src/services/helpers.ts:5 | an encoded character holds only unreserved characters and '%' |
| UriComponent.Encode | src/services/helpers.ts:5 | an encoded component holds only unreserved characters and '%', and is 1 to 12 times as long as its input |
| UriComponent.EncodeHasNoDelimiters | src/services/helpers.ts:5 | an encoded component never holds '&', '=', '?' or '#' |
| UriComponent.EncodeKeepsExactlyUnreserved | src/services/helpers.ts:5 | a character is left as it is iff it is unreserved |
| UriComponent.PercentDecodeEncode | src/services/helpers.ts:5 | the escapes of an encoded string stand for its UTF-8 bytes |
| UriComponent.DecodeEncode | src/services/helpers.ts:5 | decoding an encoded component gives it back |
| ViewRoutes.NonEmpty | src/stores/view/view.ts:6 | the kept segments are exactly the non-empty ones |
| ViewRoutes.Segments | src/stores/view/view.ts:6 | the last two non-empty segments; a missing first one means a missing second, and neither holds '/' |
| ViewRoutes.FirstMatch | src/stores/view/view.ts:10-18 | the first route, in table order, whose rendering for the last segment matches the sanitised pair as a string |
| ViewRoutes.Lookup | src/stores/view/view.ts:20-34 | a route with the id is found iff one exists |
| ViewRoutes.GetStateFromUrl | src/stores/view/view.ts:5-28 | fails iff no route matches and the fallback route does not exist; the first matching route is taken whenever one exists, with its id, the sanitised url and, for a scan route, the last segment as scan id, and nothing is pushed; otherwise the fallback with no scan id and the fallback route's own url, whose path is pushed |
| ViewRoutes.Navigate | src/stores/view/view.ts:30-46 | a navigator exists iff the route does; it sets the id, the scan id and the route's url |
| ViewRoutes.SplitHasNoSeparator | src/stores/view/view.ts:6 | no piece of a split holds the separator |
| ViewRoutes.NonEmptyConcat | src/stores/view/view.ts:6 | dropping empty segments distributes over concatenation |
| ViewRoutes.SegmentsOfPath | src/stores/view/view.ts:6 | a path ending in two plain segments yields those two |
| ViewRoutes.SegmentsOfRootPath | src/stores/view/view.ts:6-7 | the path a navigation pushes yields its two segments |
| ViewRoutes.ReadAfterNavigate | src/stores/view/view.ts:5-46 | reading the url after navigating to a route that renders two plain segments, and is the first to render them, gives back that route, the url, and for a scan route the scan id |
| ViewRoutes.GetStateOfMatch | src/stores/view/view.ts:6-17 | a path whose segments match route i first gives that route's state |
| ViewRoutes.FirstMatchIs | src/stores/view/view.ts:10-18 | the route that is first to match is the one found |

## Left out

- GLSL shader programs (`materials/index.ts`, `materials/splash_ground.ts`): GPU floating-point code. The model stops at the uniform values handed to them.
- WebGL rendering and frame scheduling are not modelled: renderer and copy-pass calls, render-target objects, `requestAnimationFrame` self-scheduling, `debounce`, the window activity listeners and the dispose chains. `paint` is a pure function from time and visibility to uniforms. A render target is a size plus a count of targets made.
- Fetching and async loading are not modelled: `BMFLoader.load`, ground/foot/mesh-line loading, the promise orchestration and spinner timing, the store fetch helpers, and `loadVandra`/`loadGroundBg` (GLTF and fonts). Their results are `Option`/`Result` parameters.
- React markup, styling and presentational components: they compute nothing the model states.
- IEEE-754 and Float32 rounding: numbers are exact `real`s. For example the relative-size band limit `2/3*100` is exactly 200/3. BMF f32 payloads are opaque 32-bit words that are only copied.
- Transcendental functions and THREE's hidden internals are `Maths.Functions` parameters: spherical/quaternion conversions, `lookAt`, `Plane.projectPoint`, `Ray.intersectBox`, `Box3`, and matrix `compose`/`invert`/`makePerspective`/`makeOrthographic`. The contracts assume only what every such function satisfies, plus premises stated where needed.
- DOM reads (element sizes, CSS colours, `devicePixelRatio`), clocks and `sessionStorage` are parameters. `history.pushState` and the navigation in `restart_signup` are returned values or are dropped.
- The info points' `lookAt` towards the camera (`fitZoneInfoPointsLookAt`, `measurementInfoPointsLookAt`): it is an orientation-only call into THREE.
- `measurementTypeFromId` is a parameter, because it reads the measurement catalogue rather than deciding anything.
- Bounding boxes, ray casting and camera projection are parameters of the overlay and click functions.
- The visir and empty mouse handlers do nothing, so they are not modelled.
- The orbit controls are assumed present wherever the scenes use `this.controls?`.
- The base view's 'change'/'end' listeners and `invalidate` only request a repaint, so they are not modelled.
- Console warnings and logs: a check that only logs in the BMF decoder becomes a failure (`BmfLoader` returns `Failure`), and other logs are dropped.
- BmfLoader.ExpandGroup: checks a face index against the vertex count n. `BMFLoader.parseBinary` compares it with `positions.length`, which is 3n, and only logs when the check fails. For an index from n to 3n-1 the source copies words past the end of the positions, which become NaN; here the decode fails. The Findings section records this.
- BmfLoader.ParseBinary: stops at the first structural check that fails (token, count or vertex index), where the source logs it and carries on. It uses the corrected index check of BmfLoader.ExpandGroup.
- ThreeTools.ParseMatrix: fewer than four rows makes the source throw, and a row shorter than four numbers gives undefined (NaN) elements. Here reading fails in both cases.
- FitZonesVisualization.FootAnchors: a missing description makes the source throw, and a missing marker gives an undefined anchor. Here the foot has no anchors in both cases.
- FitZonesVisualization.FitZoneInfoPositions: for the same inputs it has no anchors, where the source throws or returns undefined points.
- UriComponent.Encode: strings are sequences of Unicode scalar values, so the URIError `encodeURIComponent` throws on an unpaired surrogate is not modelled.
- ProductsStore.UpdateFilter: the exception the action throws is returned next to the state rather than raised.
- ThreeTools.ColorVec4, ThreeTools.ThreeColor: an 'rgba' text with a missing colour part, or a missing alpha when blending, becomes a failure instead of a NaN colour.
- OnboardingView.LoadSceneFile: a matrix that cannot be read stops the load where the exception is thrown; the `.catch(onSuccess)` callback is not a value of the model.
- The `u_null_color` lookup failure in the onboarding materials is not modelled; only the ground accent is.
- `updateMaterials` reads page colours, and these are parameters.
- FeetScanView.OnMouseUp: requires a non-zero canvas size, where the source would compute NaN coordinates.
- FeetScanView.ClickToNdc: requires a non-zero canvas size, for the same reason.
- OrbitControls.MoveRotate: requires a non-zero element width and height, where the source divides by them and turns the camera by an infinite or NaN angle.
- OrbitControls.OnMouseMove: requires a non-zero element size while rotating, for the same reason as MoveRotate.
- OrbitControls.OnTouchMove: requires a non-zero element size for a one-finger rotating move, for the same reason as MoveRotate.
- OrbitControls.Handle: requires a non-zero element size only for a rotating input, for the same reason as MoveRotate.
- MeasurementVisualization.RulerSetupOf: 'half_width' bounds of zero depth make the source divide by zero and build Infinity or NaN vertices; here the setup fails.
- MeasurementVisualization.ProjectUvAboveGround: a point below the floor with both directions level makes the source divide by zero and build Infinity or NaN vertices; here the projection fails.
- FeetScanView.ShowGirth, FeetScanView.ShowDescription, FeetScanView.ShowDescriptionNotes, FeetScanView.ShowFitZones, FeetScanView.ShowDescriptionInMesh: a throw is a failure without a view; the writes made before the throw are stated by the matching `After…` member.
- ScanStore.Labels: states the three-label shape of every table and that the middle label is the medium one. It does not list each table's words.

## Findings

| source | as written | input that shows it | evidently intended | confidence | as-written member | corrected member |
|---|---|---|---|---|---|---|
| src/components/three/loaders/BMFLoader.ts:218-221 | an index passes the check when it is below `positions.length`, which is three times the vertex count | a mesh of n vertices whose faces use index n: it passes, and the copy reads words 3n to 3n+2 past the end | an index must be below the vertex count | not executed | BmfLoader.AsWrittenCheckAdmitsOutOfRangeCopy | BmfLoader.CorrectedCheckKeepsCopyInBounds |
| src/old_routes/results_beta/measurements/dummyData.ts:77 | the previous index is the last one from index 0 and is 0 from every other index | stepping back from `instep_height` gives `length` instead of `width` | the previous index is one less, wrapping from the first to the last | not executed | MeasurementCarousel.PrevAsWrittenSkips | MeasurementCarousel.NextPrev |
| src/stores/productsStore.ts:5-67 | the default filter list names 'genderAge', which has no filter function, so `applyFilters` calls undefined and every fetch and filter update throws | any fetched product list, including the empty one | a filter without a function is skipped | not executed | ProductsStore.DefaultStoreNeverShows | ProductsStore.DefaultStoreShowsNonAsphalt |
| src/old_routes/results_beta/footwear/footwearFilters.tsx:200-208 | a category that has been switched off still counts as a key, so the filter no longer accepts everything | switch any category on and then off: every product is rejected | a state with no category switched on accepts every product | not executed | Footwear.CategoryOffHidesAll | Footwear.CategoryOffIntendedKeepsAll |
| src/components/three/three_view_base/index.ts:247-249 | the render target is compared with the container size, while it is made at the super-sampled size | a 100×100 container at pixel ratio 1: the first call makes a 200×200 target, and the second call makes it again | the target is remade only when its super-sampled size changes | not executed | MeshView.AsWrittenRemakesTargetExample | MeshView.UpdateRendererSizeIdempotent |
