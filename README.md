# Keyed geometry cache of the holistic 3D renderer

This project models the core of `src/draw3d.ts` in Dafny. That module keeps a cache of Babylon.js meshes keyed by string: bones (tubes), joints (spheres), ribbons (the palms) and the face surface. Each MediaPipe Holistic frame updates that cache. The module also keeps a smoothing store, `Data`. The builders write target positions and paths into the store, and the render loop moves the live meshes towards those targets.

The model has seven modules:

- `Geometry`: vectors, `Lerp`, the `vec` conversion of a landmark, and the tube radius function.
- `Registry`: the mesh registry as a `map<string, Mesh>` of records. A disposed mesh stays in the map with `alive == false`, as a disposed Babylon object stays in the `meshes` record.
- `Shapes`: ribbon rail doubling, face vertex flattening, and the pose bounding-box hull.
- `Topology`: `drawPath` as a pure transition on a `Scene` (the registry plus the store's targets and radii). Also the call sequences that `createPose` and `createHand` issue, and what folding them over a scene leaves behind.
- `Builders`: pose key names, ribbons and the palm, the face, and the targets that `repositionHands` and `repositionFace` write.
- `Temporal`: the `Data` class (`interpolate`, `draw`) and the algebra of smoothing and of the commit pass.
- `Engine`: the module's global state (registry, options, face cache, pose names, camera) as the class `Renderer`. Its methods are proved against the functions of the other modules.

The three-dimensional and MediaPipe libraries are not modelled. A mesh is a record of what the code reads back from it or sets on it: alive, visibility, enabled, position, scaling, parent, shape and bounds.

## Model

| member | source | states |
|---|---|---|
| Geometry.Get | src/draw3d.ts:51-55 | a record lookup is defined exactly when the key is present, and then gives the stored value |
| Geometry.Lerp | src/draw3d.ts:32 | `Vector3.Lerp`: `a + f (b - a)` per axis |
| Geometry.LerpRemaining | src/draw3d.ts:32-37 | one lerp step by `f` leaves `(1 - f)` of the remaining distance to the target, per axis |
| Geometry.LerpSelf | src/draw3d.ts:32-37 | lerping a point that already sits on its target leaves it there |
| Geometry.LerpFull | src/draw3d.ts:32-37 | a lerp amount of 1 jumps straight to the target |
| Geometry.ScaleTwice | src/draw3d.ts:56 | two scaling multiplications compose into one by the product |
| Geometry.Min3 | src/draw3d.ts:159 | `Vector3.Minimize` is the componentwise minimum and attains one of its arguments per axis |
| Geometry.Max3 | src/draw3d.ts:160 | `Vector3.Maximize` is the componentwise maximum and attains one of its arguments per axis |
| Geometry.At | src/draw3d.ts:143-145 | `result?.[i]` is present exactly when the list exists and is longer than `i`, and then is the i-th landmark |
| Geometry.Vec | src/draw3d.ts:64-68 | `vec`: per-axis scale with y inverted, a missing landmark read as all-zero coordinates |
| Geometry.Visibility | src/draw3d.ts:148 | the visibility score of a landmark, 0 when the landmark or its score is missing |
| Geometry.VecFlipsY | src/draw3d.ts:64-68 | `vec` reverses the y axis so the scene keeps the image's up/down order: with a positive y scale, a landmark lower in the image (greater y) gets a smaller scene y |
| Geometry.MinReal | src/draw3d.ts:148 | `Math.min` is below both arguments and equal to one of them |
| Geometry.RadiusAt | src/draw3d.ts:17 | with a fixed radius the first ring of a tube has radius 0; otherwise every ring is at least 0.01 |
| Geometry.RadiusMonotone | src/draw3d.ts:17 | the radius function never shrinks along the tube, in either mode |
| Registry.EnsureGroup | src/draw3d.ts:71 | a missing or disposed group is replaced by a new group; a live one is kept |
| Registry.DisposeAll | src/draw3d.ts:267 | disposing every mesh keeps every key and marks every entry disposed, changing nothing else |
| Shapes.DoubledRail | src/draw3d.ts:104-109 | a rail followed by a copy of itself, the first half raised and the second lowered by `baseRadius/2` in z |
| Shapes.Hull | src/draw3d.ts:152-161 | the box union of the child boxes folded from the first |
| Shapes.DoubledRailShape | src/draw3d.ts:104-109 | a doubled rail is twice as long: the first copy is pushed `+baseRadius/2` in z and the second `-baseRadius/2`, so the two are `baseRadius` apart |
| Shapes.DoubleRail | src/draw3d.ts:104-109 | the two push loops build exactly the doubled rail |
| Shapes.FacePositions | src/draw3d.ts:204-210 | the flattened face buffer holds three coordinates for each of the 468 landmarks |
| Shapes.FacePositionsAt | src/draw3d.ts:205-210 | entry `3i` is the scaled x, `3i+1` the scaled inverted y, `3i+2` twice the scaled z of landmark `i` |
| Shapes.FlattenFace | src/draw3d.ts:204-210 | the loop into the `Float32Array` fills it with exactly the flattened face positions |
| Shapes.HullIsExact | src/draw3d.ts:152-161 | the aggregated box contains every child box, and on every axis its bounds are attained by some child |
| Shapes.AggregateBounds | src/draw3d.ts:152-161 | the Minimize/Maximize loop over the child boxes computes their hull |
| Topology.CreatePair | src/draw3d.ts:72-91 | `createBone` and `createJoint`, run only when the bone is missing or disposed: a tube with the stored radius and a sphere of the call's diameter, both under the group |
| Topology.ShowPair | src/draw3d.ts:92-95 | visibility of bone and joint set; each enabled when its kind is rendered and the visibility is positive |
| Topology.PoseKey | src/draw3d.ts:149-150 | the pose bone stem `poseName[i]` |
| Topology.HandKey | src/draw3d.ts:182 | the hand bone stem `hand-${i}` as written, without the side |
| Topology.SidedHandKey | src/draw3d.ts:182 | the corrected hand bone stem, naming the side |
| Topology.JointNameInjective | src/draw3d.ts:86-87 | distinct bones get distinct `-joint` keys |
| Topology.KeysApart | src/draw3d.ts:86-87 | a bone key, its joint key, the group keys and `neckline0` never coincide |
| Topology.ApplyPath | src/draw3d.ts:70-100 | `drawPath` adds exactly the group, bone and joint keys to the registry, and every live bone keeps a live joint |
| Topology.ApplyPathEffect | src/draw3d.ts:70-100 | `drawPath` leaves group, bone and joint live. A new bone is a tube of the previous radius with a sphere joint of unit scale; an existing one changes only visibility and enabled. Enabled follows the render flags and a positive visibility; radii, target path and joint target are written, and every other key is unchanged |
| Topology.ApplyPaths | src/draw3d.ts:142-151 | a sequence of `drawPath` calls only ever adds keys |
| Topology.ApplyPathsTwo | src/draw3d.ts:149-150 | the two calls of one connection extend the fold one call at a time |
| Topology.DisposeAllClosed | src/draw3d.ts:267 | disposing all meshes keeps the joint invariant and the key set |
| Topology.LastCall | src/draw3d.ts:149-150 | the last call found for a key is a call for that key |
| Topology.LastCallIn | src/draw3d.ts:149-150 | the last call for a key is one of the calls issued |
| Topology.ApplyPathsTargets | src/draw3d.ts:96-99 | after a run of calls, a bone's target path, joint target, radii and visibility are those of the last call for that bone |
| Topology.ApplyPathsUntouched | src/draw3d.ts:70-100 | a key no call names keeps its mesh, target position, target path and radius |
| Topology.LastCallAppend | src/draw3d.ts:142-151 | the last call for a key in `a + b` is the last one in `b`, otherwise the last one in `a` |
| Topology.ConnectionCalls | src/draw3d.ts:143-150 | a connection issues no call when an endpoint is missing, and two calls otherwise |
| Topology.PoseCalls | src/draw3d.ts:142-151 | `createPose` issues well-formed calls, at most two per connection |
| Topology.PoseCallsSound | src/draw3d.ts:142-151 | every call `createPose` issues comes from a present connection: group `pose`, key `<name>-l` or `-r`, the two endpoint vectors in either order, the smaller endpoint visibility, diameter `baseRadius` |
| Topology.PoseCallsComplete | src/draw3d.ts:142-151 | every connection whose two endpoints are present yields both its forward `-l` and its reversed `-r` call |
| Topology.SuffixedKeysApart | src/draw3d.ts:149-150 | two keys with a `-x` suffix are equal only if stem and side letter are |
| Topology.SuffixSided | src/draw3d.ts:149-150 | every `-l` and `-r` key is a sided bone key |
| Topology.LeftCall | src/draw3d.ts:144-149 | the `-l` call of a connection: group `pose`, key `<name>-l`, path from the first endpoint to the second, the smaller endpoint visibility, diameter `baseRadius` |
| Topology.RightCall | src/draw3d.ts:144-150 | the `-r` call of a connection: the same bone under `<name>-r`, path from the second endpoint back to the first |
| Topology.ConnectionLastCall | src/draw3d.ts:149-150 | with distinct pose names, connection `j` redraws the `-l` (or `-r`) bone of connection `i` exactly when `i == j` and it is present, and then with connection `i`'s own `-l` (or `-r`) call |
| Topology.PoseLastCallStep | src/draw3d.ts:142-151 | a later connection under another name does not override an earlier connection's `-l` or `-r` bone |
| Topology.PoseLastCall | src/draw3d.ts:142-151 | with distinct pose names, the last call for either bone of a present connection is that connection's call for it |
| Topology.CreatePoseDrawsConnection | src/draw3d.ts:142-151 | after `createPose`, both bones of each present connection are live; the `-l` bone targets the path from the first endpoint to the second and the `-r` bone the reverse; both carry the smaller endpoint visibility and radius `baseRadius/2` |
| Topology.NatString | src/draw3d.ts:182 | a template-literal number is never empty |
| Topology.HandConnectionCalls | src/draw3d.ts:176-184 | a hand connection always issues two well-formed calls |
| Topology.AllWellFormedAppend | src/draw3d.ts:176-184 | concatenating well-formed call runs stays well-formed |
| Topology.HandCalls | src/draw3d.ts:176-184 | `createHand` issues exactly two calls per connection, present or not |
| Topology.HandCallsAt | src/draw3d.ts:176-184 | call `2i` is the forward bone and `2i+1` the reversed one of connection `i`, in group `hand-<side>`. Visibility is 1 when both endpoints are present and hands are rendered, 0 otherwise; diameter is `baseRadius/4` |
| Topology.AbsentHandCollapses | src/draw3d.ts:176-184 | a missing hand still issues every call, invisible and with both ends at the image origin |
| Topology.LastCallSameDescs | src/draw3d.ts:176-184 | two call runs with the same keys in the same order touch the same keys |
| Topology.HandKeysShared | src/draw3d.ts:182-183 | as written, the left and right hand issue the same key at every position |
| Topology.RightRedrawsLeft | src/draw3d.ts:182-183 | as written, every bone the left hand draws is redrawn by the right hand |
| Topology.LeftHandOverwritten | src/draw3d.ts:182-183 | as written, every left-hand bone ends with the right hand's path and visibility. When the right hand is missing, the bone is hidden and collapsed |
| Topology.AbsentHandLastCall | src/draw3d.ts:176-184 | for a missing hand, the last call for any key is invisible with both ends at the origin |
| Topology.SidedCallsPrefixed | src/draw3d.ts:182-183 | with the side in the key, every hand key starts `hand-` followed by the side letter |
| Topology.StemPrefixed | src/draw3d.ts:182-183 | a sided hand stem with any suffix starts `hand-l` or `hand-r` |
| Topology.RightMissesLeft | src/draw3d.ts:182-183 | with the side in the key, the right hand never touches a left-hand bone |
| Topology.HandBoneKey | src/draw3d.ts:182-183 | every bone a hand draws is a sided key starting `hand-`, so never the neck's `line-l` or `line-r` |
| Topology.LeftHandKept | src/draw3d.ts:182-183 | with the side in the key, every left-hand bone keeps the left hand's path and visibility after the right hand is drawn |
| Builders.Lower | src/draw3d.ts:137 | lower-casing keeps the length |
| Builders.LowerIdempotent | src/draw3d.ts:137 | lower-casing twice is lower-casing once, and no upper-case ASCII letter survives |
| Builders.LowerKeepsDashes | src/draw3d.ts:137 | lower-casing neither adds nor removes dashes |
| Builders.PoseName | src/draw3d.ts:137 | the lower-cased names of a connection's two landmarks joined by `-` |
| Builders.PoseNames | src/draw3d.ts:133-139 | there is one pose name per connection |
| Builders.SplitJoined | src/draw3d.ts:137 | splitting at the first dash recovers both halves when the first has no dash |
| Builders.PoseNameRoundTrip | src/draw3d.ts:137 | a pose name splits back into the two lower-cased landmark names |
| Builders.RibbonMeshes | src/draw3d.ts:102-122 | `drawRibbon` on the registry: group made live, ribbon created when missing or disposed, then given the doubled rails, visibility and enabled flag |
| Builders.PalmVisibility | src/draw3d.ts:167 | 0.4 when hands are rendered and landmarks 0, 5 and 17 are present, else 0 |
| Builders.PalmRails | src/draw3d.ts:168-171 | the two palm rails, wrist to index base and wrist to little-finger base |
| Builders.RibbonEffect | src/draw3d.ts:102-122 | `drawRibbon` keeps the group and the ribbon live and adds only those keys. The ribbon takes the doubled rails and the visibility, and is enabled iff surfaces are rendered and the visibility is positive. A new ribbon is parented to the group; an existing one keeps everything else; other keys are unchanged |
| Builders.PalmShown | src/draw3d.ts:166-173 | the palm is enabled exactly when surfaces and hands are rendered and landmarks 0, 5 and 17 are present |
| Builders.PalmKeys | src/draw3d.ts:172 | the palm's group and ribbon keys are not bone, joint or neckline keys |
| Builders.RibbonKeepsBones | src/draw3d.ts:102-122 | a ribbon whose group and name are not bone keys leaves every bone's mesh unchanged |
| Builders.RibbonKeepsJointClosed | src/draw3d.ts:102-122 | a ribbon keeps the joint invariant and never creates `neckline0` |
| Builders.FaceAfter | src/draw3d.ts:187-228 | `drawFace` on the registry, smoothing mode and cached buffer, as written (`resetOnToggle` false) or corrected (true) |
| Builders.FaceHiddenOnBadInput | src/draw3d.ts:188-191 | without 468 face landmarks or with the face off, a live face is hidden; nothing is created, disposed or recached, and every other key is unchanged |
| Builders.FaceShowsLandmarks | src/draw3d.ts:192-227 | with the cache dropped alongside the face it belongs to, a drawn face is live and visible and shows the current landmarks, smoothed as requested, and every other key is unchanged |
| Builders.FaceLostOnToggle | src/draw3d.ts:192-227 | as written, toggling smoothing while a buffer is cached disposes the face but keeps the buffer: the recreated face gets no vertex data, does not show the landmarks, and is left blank |
| Builders.FaceStaysBlank | src/draw3d.ts:187-228 | as written, a blank face (buffer cached, face without vertex data) stays blank on every later `drawFace`, whatever the input and smoothing mode, until a ribbon creation drops the buffer |
| Builders.FaceToggleOnlyDiffers | src/draw3d.ts:192-195 | without a smoothing toggle the code as written and the corrected code give the same face state |
| Builders.FaceRecoversWithoutBuffer | src/draw3d.ts:213-227 | with no cached buffer, usable input rebuilds the buffer and the face shows the current landmarks |
| Builders.FaceKeepsOthers | src/draw3d.ts:187-228 | `drawFace` changes no mesh but `face` |
| Builders.FaceKeepsJointClosed | src/draw3d.ts:187-228 | drawing the face keeps the joint invariant and never creates `neckline0` |
| Builders.HandsRepositioned | src/draw3d.ts:230-239 | `repositionHands` on the position targets: each hand group in the registry gets its offset |
| Builders.HandOffset | src/draw3d.ts:233-237 | a hand group's target offset: `(0, 0, z)` with the scaled wrist depth as `z` when hands are connected, the origin otherwise |
| Builders.HandsRepositionedEffect | src/draw3d.ts:230-239 | each existing hand group is moved to `(0, 0, z)`. The z is the scaled wrist depth when hands are connected (0 without a wrist) and 0 otherwise; no other target changes |
| Builders.NoseFocus | src/draw3d.ts:244-247 | the focus is halfway between nose and shoulder centre in x and y, and a quarter of their summed depth in z |
| Builders.FaceOffset | src/draw3d.ts:248 | the face group's target: `(0, 0, focus.z)` when the face is connected, the origin otherwise |
| Builders.NeckCalls | src/draw3d.ts:257-258 | the neck issues two well-formed calls |
| Builders.NeckKeepsBones | src/draw3d.ts:257-258 | the neck leaves every bone other than `line-l` and `line-r` with its mesh, target path and radius |
| Builders.CameraRetargets | src/draw3d.ts:249 | the camera is retargeted when `neckline0` is not registered or `continousFocus` is on |
| Builders.Refocus | src/draw3d.ts:249-255 | when the camera is retargeted it aims at the focus, and with a pose it frames the pose bounds; otherwise it is unchanged |
| Builders.NecklineNeverDrawn | src/draw3d.ts:249 | no run of `drawPath` calls ever creates `neckline0` |
| Builders.CameraAlwaysRetargets | src/draw3d.ts:249 | hence the camera is retargeted on every face repositioning, whatever `continousFocus` says |
| Builders.RedrawAfterDispose | src/draw3d.ts:267 | after a radius change disposes everything, the next `drawPath` rebuilds the bone as a tube and the joint as a unit-scale sphere of the new diameter |
| Temporal.StepPos | src/draw3d.ts:30-33 | the position loop of `interpolate`: every key with a target lerps from its value, seeded with the target when first seen |
| Temporal.StepPaths | src/draw3d.ts:34-39 | the path loop of `interpolate`, per point, seeded likewise |
| Temporal.LerpPath | src/draw3d.ts:36-38 | a smoothed path has as many points as the current one |
| Temporal.FirstSeenSnaps | src/draw3d.ts:31-32 | a key seen for the first time starts at its target and stays there |
| Temporal.FirstSeenPathSnaps | src/draw3d.ts:35-38 | a path seen for the first time starts at its target and stays there |
| Temporal.SeenMoves | src/draw3d.ts:32 | a known key moves by one lerp towards its target |
| Temporal.StepKeepsKeys | src/draw3d.ts:28-39 | a smoothing step has exactly the union of the old and target keys |
| Temporal.ShrinkIsPow | src/draw3d.ts:32 | after `n` steps the remaining distance is `(1 - f)^n` of the initial one |
| Temporal.TicksConverge | src/draw3d.ts:32 | for every factor `f`, the gap to the target after `n` ticks is exactly the starting gap scaled by `(1 - f)^n` |
| Temporal.TicksShrinkStrictly | src/draw3d.ts:32 | with `0 < f < 1` and at least one tick, every nonzero component of the gap to the target ends strictly smaller in absolute value |
| Temporal.TicksShrink | src/draw3d.ts:32 | the gap after `n` ticks is the starting gap scaled `n` times by `1 - f` |
| Temporal.FullStepReachesTargets | src/draw3d.ts:28-39 | with `lerpAmount == 1` one step puts every key on its target |
| Temporal.LerpPoints | src/draw3d.ts:36-38 | the in-place loop over a path's points computes the lerped path |
| Temporal.PartialStepPosNext | src/draw3d.ts:30-33 | the position loop's invariant advances by one key |
| Temporal.PartialStepPathsNext | src/draw3d.ts:34-39 | the path loop's invariant advances by one key |
| Temporal.PartialStepPosDone | src/draw3d.ts:30-33 | after all keys, the position loop has done a full step |
| Temporal.PartialStepPathsDone | src/draw3d.ts:34-39 | after all keys, the path loop has done a full step |
| Temporal.ScaleFactor | src/draw3d.ts:55 | `baseRadius / radius` is a number exactly when a nonzero radius is stored, and then times the radius gives `baseRadius` |
| Temporal.Stale | src/draw3d.ts:43 | the commit gate: the results are more than a second older than the last commit |
| Temporal.Rescaled | src/draw3d.ts:56 | a mesh's scaling multiplied in place by the factor; with no factor (no stored radius) the scaling becomes NaN, shown as `None` |
| Temporal.CommitPath | src/draw3d.ts:44-50 | the first loop of `draw` on one key: a live tube takes the smoothed or raw path and the per-point radius |
| Temporal.CommitPos | src/draw3d.ts:51-57 | the second loop of `draw` on one key: a live mesh is moved and, unless it is the face, rescaled by `baseRadius / radius` |
| Temporal.Committed | src/draw3d.ts:42-60 | one full commit pass over every key with a target |
| Temporal.PartialCommitNext | src/draw3d.ts:43-60 | each of the two commit loops advances by exactly one key |
| Temporal.CommitTouchesOnlyLiveTargets | src/draw3d.ts:43-60 | the commit pass creates and removes no key, and skips disposed meshes and meshes without targets |
| Temporal.CommitKeepsLiveness | src/draw3d.ts:43-60 | the commit pass disposes nothing and revives nothing |
| Temporal.CommitPlacesMesh | src/draw3d.ts:53 | a live mesh with a target moves to the smoothed value when smoothing is on, and to the raw target when it is off |
| Temporal.CommitReshapesTube | src/draw3d.ts:47-48 | a live tube with a target path takes the smoothed path when smoothing is on, and the raw one when it is off |
| Temporal.CommitWithoutRadiusLosesScale | src/draw3d.ts:55-56 | a live non-face key with a target position and no radius gets a NaN scaling, as the hand groups do |
| Temporal.CommitsCompoundScale | src/draw3d.ts:55-56 | after `n` commits a joint's scaling is its start times `(baseRadius/radius)^n` |
| Temporal.HandJointGrowsFourfold | src/draw3d.ts:55-56 | a hand joint's scale factor is 4 per commit and a pose joint's is 1 |
| Temporal.Data.constructor | src/draw3d.ts:19-27 | the store starts empty with both timestamps 0 |
| Temporal.Data.Interpolate | src/draw3d.ts:28-39 | with lerp 0 nothing changes; otherwise positions and paths take one smoothing step towards their targets, and the targets are unchanged |
| Temporal.Data.Draw | src/draw3d.ts:42-60 | results more than a second older than the last commit change nothing; otherwise the registry is the committed registry and the draw time is now |
| Engine.PathSteps | src/draw3d.ts:70-100 | the step-by-step `drawPath` computes exactly `Topology.ApplyPath` |
| Engine.RegistrySteps | src/draw3d.ts:70-95 | the registry steps of `drawPath` compute the group, create and show steps of `Topology.ApplyPath` |
| Engine.PoseDraws | src/draw3d.ts:143-150 | a present connection extends the pose fold by its two calls |
| Engine.PoseSkips | src/draw3d.ts:143 | a connection with a missing endpoint issues nothing |
| Engine.NeckSteps | src/draw3d.ts:257-258 | the two neck `drawPath` calls compute the fold of `NeckCalls` |
| Engine.PairSteps | src/draw3d.ts:149-150 | two consecutive `drawPath` calls compose |
| Engine.PoseIteration | src/draw3d.ts:143-150 | one iteration of the pose loop advances the fold by one connection |
| Engine.PoseSteps | src/draw3d.ts:142-151 | the pose loop computes the fold of all pose calls |
| Engine.HandLeftCall | src/draw3d.ts:182 | the first call of hand connection `i`, under `hand-${i}-l` |
| Engine.HandRightCall | src/draw3d.ts:183 | the second call of hand connection `i`, under `hand-${i}-r` |
| Engine.RightHandStillShown | src/draw3d.ts:292-296 | steps that keep every bone but the neck's keep each left-hand bone as the right hand drew it |
| Engine.HandSceneCalls | src/draw3d.ts:176-184 | the two-calls-per-iteration scene equals the fold of the hand calls under the code's keys `hand-${i}-l` and `hand-${i}-r` |
| Engine.HandIteration | src/draw3d.ts:176-184 | one iteration of the hand loop draws connection `i`'s two bones under `hand-${i}-l` and `hand-${i}-r`, advancing the fold by one connection |
| Engine.HandSteps | src/draw3d.ts:176-184 | the hand loop computes the fold of all the calls the code issues, with keys that do not name the side |
| Engine.StepKeepsTwoPoint | src/draw3d.ts:34-39 | smoothing keeps every path at two points |
| Engine.PathsKeepOk | src/draw3d.ts:70-100 | `drawPath` calls keep the engine invariant |
| Engine.Renderer.constructor | src/draw3d.ts:12-16 | the engine starts with no meshes, an empty store (no positions, paths, pending targets or radii, both timestamps 0), no face cache and no pose names |
| Engine.Renderer.DrawPath | src/draw3d.ts:70-100 | the method keeps the engine invariant and updates registry and store as `ApplyPath` says |
| Engine.Renderer.CreatePose | src/draw3d.ts:141-164 | the registry and targets are the fold of the pose calls; when a pose group and child boxes exist, the pose bounds are their hull |
| Engine.Renderer.CreateHand | src/draw3d.ts:175-185 | registry and targets are the fold of the hand calls as written, keys `hand-${i}-l` and `hand-${i}-r` without the side |
| Engine.Renderer.DrawRibbon | src/draw3d.ts:102-122 | the registry becomes `RibbonMeshes`, and the face cache is dropped exactly when the ribbon is created |
| Engine.Renderer.DrawPalm | src/draw3d.ts:166-173 | the palm ribbon is drawn from landmarks 0, 5 and 17 with visibility 0.4 or 0 |
| Engine.Renderer.DrawFace | src/draw3d.ts:187-228 | the face state becomes `FaceAfter` as written: a smoothing toggle disposes the face and keeps the cached buffer |
| Engine.Renderer.ShowFace | src/draw3d.ts:192-227 | on usable input the face state becomes `FaceAfter` as written: disposed on a toggle, recreated, shown, buffer built only when none is cached, positions given only to a face holding vertex data |
| Engine.Renderer.RepositionHands | src/draw3d.ts:230-239 | the targets become `HandsRepositioned` |
| Engine.Renderer.RepositionFace | src/draw3d.ts:241-259 | nothing happens without the face, the shoulder bone or the nose; otherwise the face target moves to the focus, the neck is drawn and the camera is refocused |
| Engine.Renderer.SetOptions | src/draw3d.ts:266-271 | a changed `baseRadius` disposes every mesh; the options are replaced either way |
| Engine.Renderer.BuildPoseNames | src/draw3d.ts:133-139 | one lower-cased `a-b` name is appended per connection |
| Engine.Renderer.PerformRender | src/draw3d.ts:261-264 | one render tick is one smoothing step followed by the gated commit |
| Engine.Renderer.DrawBones | src/draw3d.ts:288-291 | the pose and both hands are drawn, keeping the engine invariant; since the hand keys do not name the side, every bone the left hand draws is left live with the right hand's path and visibility |
| Engine.Renderer.DrawSurfaces | src/draw3d.ts:292-296 | both palms, the hand offsets, the face and the neck are drawn, keeping the engine invariant; every bone other than the neck's `line-l` and `line-r` keeps its mesh and its target path |
| Engine.Renderer.Store | src/draw3d.ts:96-99 | writing back a scene that keeps the invariant sets registry and store maps to exactly that scene |
| Engine.Renderer.Draw3D | src/draw3d.ts:286-298 | a frame keeps the engine invariant, stamps the update time, and leaves the smoothed values and the draw time to the render loop; every bone the left hand draws ends the frame live with the right hand's path and visibility |

## Left out

- The Babylon.js scene: tube, sphere, ribbon and mesh construction, materials, shadows, rendering groups, overlays, `ComputeNormals`, `applyToMesh` and the inspector. Each mesh is a record of the fields the code reads back or sets. The camera's `setTarget` and `zoomOnBoundingInfo` are a `Camera` record.
- `showBoundingBox` and the `boundingBoxes` option are not modelled; they only affect display.
- `drawTorso`: its only effect, a `drawRibbon` call, is commented out in the source.
- Geometry.RadiusAt: a tube in the registry records only that `radiusFunction` shapes it and with which radius (`PerPoint`); the per-ring radii are stated as standalone facts about that function, not tied to a mesh.
- Builders.Lower: folds ASCII letters only, where `toLowerCase` folds all of Unicode; the MediaPipe landmark names are ASCII.
- `initDraw3D`, the loader, event hooks and scene registration: they are plumbing around the modelled operations.
- Clocks: `new Date().getTime()` is the parameter `now`.
- The asynchronous builders run synchronously, in the order `draw3D` calls them.
- Floating point: reals are exact. NaN and Infinity from `baseRadius / radius` with a missing or zero radius are `None` scaling. `landmark?.x || 0` treats a present 0 the same as a missing value, and so does the model.
- The MediaPipe tables (`POSE_CONNECTIONS`, `HAND_CONNECTIONS`, `POSE_LANDMARKS`) and the face constants `TRI468` and `UV468` are parameters. The face surface records only whether topology and normals were applied.
- `getChildMeshes` and `getBoundingInfo`: the child boxes of the pose group and the shoulder bone's box centre are inputs of `Draw3D`.
- The options of `src/options.ts` are a record holding the fields the core reads.
- Engine.Renderer.CreatePose: the source throws when no pose group exists or it has no children, because it reads `childMeshes[0]`. The model skips the bounds update instead.
- Shapes.AggregateBounds: requires a non-empty box list, as the unguarded `childMeshes[0]` does.
- Engine.Renderer.Draw3D: of the frame's combined effect, states the invariant, the timestamps and the overwritten left-hand bones. The effect of each stage is stated by the stage's own method (`CreatePose`, `CreateHand`, `DrawPalm`, `RepositionHands`, `DrawFace`, `RepositionFace`). It writes `updateTime` before the drawing steps rather than after them; no drawing step reads or writes it, so the frame ends in the same state.
- Engine.Renderer.DrawPalm: states the registry through `RibbonMeshes`, not the rail values one by one.

## Findings

| source | as written | input that shows it | evidently intended | confidence | as-written member | corrected member |
|---|---|---|---|---|---|---|
| src/draw3d.ts:182-183 | hand bone keys are `hand-${i}-l` and `hand-${i}-r`, with no side, so both hands write the same keys | any frame: `createHand(left, 'left')` then `createHand(right, 'right')`; every left bone takes the right hand's path and visibility, and is hidden when the right hand is missing | each hand keeps its own bones, keyed with the side | not executed | Topology.LeftHandOverwritten | Topology.LeftHandKept |
| src/draw3d.ts:192-195 | on a smoothing toggle the face is disposed but `faceVertexData` is kept, so the recreated face receives no vertex data until a ribbon is next created | a face drawn with `smoothFace` false, then a frame after `smoothFace` is set to true | the cached buffer is rebuilt for the new face, which then shows the landmarks | not executed | Builders.FaceLostOnToggle | Builders.FaceShowsLandmarks |
