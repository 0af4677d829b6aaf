/** The builders' effects that are not `drawPath` calls: pose key names,
    ribbons and the palm, the face surface, and the targets `repositionHands`
    and `repositionFace` write. The engine's methods are specified by these
    functions. */
module Builders {
  import opened Geometry
  import opened Registry
  import opened Shapes
  import opened Topology

  // ---------------------------------------------------------------- pose names

  function LowerChar(c: char): char
  {
    if 'A' <= c <= 'Z' then (c as int + 32) as char else c
  }

  /** `toLowerCase()` on the ASCII names of the pose landmark table. */
  function Lower(s: string): (r: string)
    ensures |r| == |s|
  {
    seq(|s|, i requires 0 <= i < |s| => LowerChar(s[i]))
  }

  /** Lowering twice is lowering once, and no upper-case letter survives. */
  lemma LowerIdempotent(s: string)
    ensures Lower(Lower(s)) == Lower(s)
    ensures forall i :: 0 <= i < |s| ==> !('A' <= Lower(s)[i] <= 'Z')
  {
    forall i | 0 <= i < |s| ensures LowerChar(LowerChar(s[i])) == LowerChar(s[i]) {
    }
  }

  /** Lowering neither adds nor removes dashes. */
  lemma LowerKeepsDashes(s: string)
    ensures forall i :: 0 <= i < |s| ==> (Lower(s)[i] == '-' <==> s[i] == '-')
  {
  }

  /** The name of pose connection `conn`: both landmark names, lowered,
      joined by a dash. */
  function PoseName(landmarks: seq<string>, conn: (nat, nat)): string
    requires conn.0 < |landmarks| && conn.1 < |landmarks|
  {
    Lower(landmarks[conn.0]) + "-" + Lower(landmarks[conn.1])
  }

  predicate InTable(landmarks: seq<string>, conns: seq<(nat, nat)>)
  {
    forall i :: 0 <= i < |conns| ==> conns[i].0 < |landmarks| && conns[i].1 < |landmarks|
  }

  function PoseNames(landmarks: seq<string>, conns: seq<(nat, nat)>): (r: seq<string>)
    requires InTable(landmarks, conns)
    ensures |r| == |conns|
  {
    seq(|conns|, i requires 0 <= i < |conns| => PoseName(landmarks, conns[i]))
  }

  /** Cut a string at its first dash. */
  function SplitDash(s: string): (r: (string, string))
  {
    if |s| == 0 then ("", "")
    else if s[0] == '-' then ("", s[1..])
    else var t := SplitDash(s[1..]); ([s[0]] + t.0, t.1)
  }

  lemma {:induction false} SplitJoined(a: string, b: string)
    requires forall i :: 0 <= i < |a| ==> a[i] != '-'
    ensures SplitDash(a + "-" + b) == (a, b)
  {
    if |a| > 0 {
      SplitJoined(a[1..], b);
      assert (a + "-" + b)[1..] == a[1..] + "-" + b;
      assert [a[0]] + a[1..] == a;
    } else {
      assert a + "-" + b == "-" + b;
    }
  }

  /** A connection name determines its two landmark names (lowered), as long
      as the landmark names carry no dash themselves. */
  lemma PoseNameRoundTrip(landmarks: seq<string>, conn: (nat, nat))
    requires conn.0 < |landmarks| && conn.1 < |landmarks|
    requires forall i :: 0 <= i < |landmarks[conn.0]| ==> landmarks[conn.0][i] != '-'
    ensures SplitDash(PoseName(landmarks, conn)) == (Lower(landmarks[conn.0]), Lower(landmarks[conn.1]))
  {
    LowerKeepsDashes(landmarks[conn.0]);
    SplitJoined(Lower(landmarks[conn.0]), Lower(landmarks[conn.1]));
  }

  // ---------------------------------------------------------------- ribbons

  function RibbonName(parent: string, desc: string): string
  {
    parent + "-" + desc
  }

  /** `drawRibbon`'s effect on the registry: the parent group is made live,
      the ribbon is created only when missing or disposed, then its rails,
      visibility and enabled flag are set every time. */
  function RibbonMeshes(m: Meshes, parent: string, desc: string, rails: seq<seq<Vec3>>, vis: real, o: Options): Meshes
  {
    var name := RibbonName(parent, desc);
    var m1 := EnsureGroup(m, parent);
    var shape := Ribbon(DoubledRails(rails, o.baseRadius));
    var m2 := if Live(m1, name) then m1 else m1[name := Fresh(shape, Some(parent))];
    m2[name := m2[name].(shape := shape, visibility := vis, enabled := o.renderSurface && vis > 0.0)]
  }

  /** Whether `drawRibbon` creates the ribbon (and so drops the face buffer). */
  predicate RibbonCreated(m: Meshes, parent: string, desc: string)
  {
    !Live(m, RibbonName(parent, desc))
  }

  lemma RibbonEffect(m: Meshes, parent: string, desc: string, rails: seq<seq<Vec3>>, vis: real, o: Options, k: string)
    ensures var r := RibbonMeshes(m, parent, desc, rails, vis, o); var name := RibbonName(parent, desc);
      && Live(r, parent) && Live(r, name) && r.Keys == m.Keys + {parent, name}
      && r[name].shape == Ribbon(DoubledRails(rails, o.baseRadius))
      && r[name].visibility == vis && r[name].enabled == (o.renderSurface && vis > 0.0)
      && (RibbonCreated(m, parent, desc) ==> r[name].parent == Some(parent) && r[name].scaling == Some(Unit))
      && (!RibbonCreated(m, parent, desc) ==> r[name] == m[name].(shape := r[name].shape, visibility := vis, enabled := r[name].enabled))
      && (k != parent && k != name ==> Get(r, k) == Get(m, k))
  {
    var name := RibbonName(parent, desc);
    assert |name| > |parent|;
  }

  /** The palm: visible at 0.4 when hands are rendered and the wrist and the
      index and little finger bases (landmarks 0, 5, 17) are present, else 0. */
  function PalmVisibility(result: LandmarkList, o: Options): real
  {
    if o.renderHands && At(result, 0).Some? && At(result, 5).Some? && At(result, 17).Some? then 0.4 else 0.0
  }

  /** The palm triangle as two rails from the wrist. */
  function PalmRails(result: LandmarkList, o: Options): seq<seq<Vec3>>
  {
    [[Vec(At(result, 0), o), Vec(At(result, 5), o)], [Vec(At(result, 0), o), Vec(At(result, 17), o)]]
  }

  /** The palm ribbon is enabled exactly when surfaces and hands are rendered
      and the three palm landmarks are present. */
  lemma PalmShown(m: Meshes, side: Side, result: LandmarkList, o: Options)
    ensures var r := RibbonMeshes(m, HandGroup(side), "palm", PalmRails(result, o), PalmVisibility(result, o), o);
      (r[RibbonName(HandGroup(side), "palm")].enabled <==>
         (o.renderSurface && o.renderHands && At(result, 0).Some? && At(result, 5).Some? && At(result, 17).Some?))
  {
    RibbonEffect(m, HandGroup(side), "palm", PalmRails(result, o), PalmVisibility(result, o), o, "");
  }

  /** A ribbon and its group are not bone keys and not `neckline0`; the palms
      (`hand-left-palm`, `hand-right-palm`) qualify. */
  predicate RibbonKeys(parent: string, desc: string)
  {
    !Sided(parent) && !Sided(RibbonName(parent, desc)) && parent != NecklineKey && RibbonName(parent, desc) != NecklineKey
  }

  lemma PalmKeys(side: Side)
    ensures RibbonKeys(HandGroup(side), "palm")
  {
    var name := RibbonName(HandGroup(side), "palm");
    assert name[|name| - 1] == 'm';
  }

  /** A ribbon update moves no bone: every bone key keeps its mesh. */
  lemma RibbonKeepsBones(m: Meshes, parent: string, desc: string, rails: seq<seq<Vec3>>, vis: real, o: Options, k: string)
    requires RibbonKeys(parent, desc) && Sided(k)
    ensures Get(RibbonMeshes(m, parent, desc, rails, vis, o), k) == Get(m, k)
  {
    RibbonEffect(m, parent, desc, rails, vis, o, k);
  }

  /** A ribbon update keeps the joint rule of the registry. */
  lemma RibbonKeepsJointClosed(m: Meshes, parent: string, desc: string, rails: seq<seq<Vec3>>, vis: real, o: Options)
    requires JointClosed(m) && RibbonKeys(parent, desc)
    ensures JointClosed(RibbonMeshes(m, parent, desc, rails, vis, o))
    ensures NecklineKey !in m ==> NecklineKey !in RibbonMeshes(m, parent, desc, rails, vis, o)
  {
    var r := RibbonMeshes(m, parent, desc, rails, vis, o);
    forall k | k in r && Sided(k) ensures JointName(k) in r && (r[k].alive ==> r[JointName(k)].alive) {
      RibbonEffect(m, parent, desc, rails, vis, o, k);
      RibbonEffect(m, parent, desc, rails, vis, o, JointName(k));
    }
    RibbonEffect(m, parent, desc, rails, vis, o, NecklineKey);
  }

  // ---------------------------------------------------------------- face

  /** The part of the engine `drawFace` works on: the registry, the smoothing
      mode of the last face build, and the cached face vertex buffer, recorded
      as whether its normals were computed (`None` when there is none). */
  datatype FaceState = FaceState(meshes: Meshes, previousSmooth: bool, vertexData: Option<bool>)

  /** A face mesh with no vertex data yet. */
  const EmptySurface := Surface(false, false, [])

  predicate FaceInput(result: LandmarkList, o: Options)
  {
    result.Some? && |result.value| >= FacePoints && o.renderFace
  }

  /** `drawFace`. Without usable input the live face is hidden. Otherwise the
      face is disposed when the smoothing mode toggled, created when missing or
      disposed, made visible, given the cached buffer's topology and normals
      when the buffer is (re)built, and given the new positions, which a mesh
      without vertex data has nowhere to hold. `resetOnToggle` drops the
      cached buffer together with the face it was applied to; the code as
      written does not. */
  function FaceAfter(st: FaceState, result: LandmarkList, o: Options, resetOnToggle: bool): FaceState
  {
    if !FaceInput(result, o) then
      st.(meshes := if Live(st.meshes, "face") then st.meshes["face" := st.meshes["face"].(visibility := 0.0)] else st.meshes)
    else
      var toggled := st.previousSmooth != o.smoothFace;
      var m1 := if toggled && Live(st.meshes, "face") then st.meshes["face" := st.meshes["face"].(alive := false)] else st.meshes;
      var vd := if toggled && resetOnToggle then None else st.vertexData;
      var m2 := if Live(m1, "face") then m1 else m1["face" := Fresh(EmptySurface, None)];
      var face := m2["face"].(visibility := 1.0);
      var p := FacePositions(result.value, o);
      var built := if vd.None? then face.(shape := Surface(true, o.smoothFace, p)) else face;
      var updated := if built.shape.Surface? && built.shape.topology then built.(shape := built.shape.(positions := p)) else built;
      FaceState(m2["face" := updated], o.smoothFace, if vd.None? then Some(o.smoothFace) else vd)
  }

  /** The cached buffer, when there is one, is what the live face carries and
      matches the smoothing mode it was built for. */
  predicate FaceInv(st: FaceState)
  {
    st.vertexData.Some? ==>
      && Live(st.meshes, "face") && st.meshes["face"].shape.Surface?
      && st.meshes["face"].shape.topology && st.meshes["face"].shape.normals == st.vertexData.value
      && st.vertexData.value == st.previousSmooth
  }

  /** `drawFace` changes no mesh but the face. */
  lemma FaceKeepsOthers(st: FaceState, result: LandmarkList, o: Options, resetOnToggle: bool, k: string)
    requires k != "face"
    ensures Get(FaceAfter(st, result, o, resetOnToggle).meshes, k) == Get(st.meshes, k)
  {
  }

  /** Without usable input the face is hidden, never created or disposed, and
      nothing else changes. */
  lemma FaceHiddenOnBadInput(st: FaceState, result: LandmarkList, o: Options, resetOnToggle: bool, k: string)
    requires !FaceInput(result, o)
    ensures var r := FaceAfter(st, result, o, resetOnToggle);
      && r.meshes.Keys == st.meshes.Keys && r.previousSmooth == st.previousSmooth && r.vertexData == st.vertexData
      && (Live(st.meshes, "face") ==> Live(r.meshes, "face") && r.meshes["face"].visibility == 0.0)
      && ("face" in st.meshes && !st.meshes["face"].alive ==> r.meshes["face"] == st.meshes["face"])
      && (k != "face" ==> Get(r.meshes, k) == Get(st.meshes, k))
  {
  }

  /** With the buffer dropped on a toggle, usable input always shows the
      landmarks: the face is live, visible, carries the full topology, normals
      exactly when smoothing is on, and the flattened positions. */
  lemma FaceShowsLandmarks(st: FaceState, result: LandmarkList, o: Options, k: string)
    requires FaceInv(st) && FaceInput(result, o)
    ensures var r := FaceAfter(st, result, o, true);
      && FaceInv(r) && Live(r.meshes, "face") && r.meshes["face"].visibility == 1.0
      && r.meshes["face"].shape == Surface(true, o.smoothFace, FacePositions(result.value, o))
      && (k != "face" ==> Get(r.meshes, k) == Get(st.meshes, k))
  {
  }

  /** As written, toggling the smoothing mode while a buffer is cached leaves
      an empty face: the old face is disposed and the new one is not given
      vertex data, so the landmarks are not shown. */
  lemma FaceLostOnToggle(st: FaceState, result: LandmarkList, o: Options)
    requires FaceInv(st) && FaceInput(result, o)
    requires st.vertexData.Some? && st.previousSmooth != o.smoothFace
    ensures var r := FaceAfter(st, result, o, false);
      && Live(r.meshes, "face") && r.meshes["face"].shape == EmptySurface
      && r.meshes["face"].shape != Surface(true, o.smoothFace, FacePositions(result.value, o))
      && FaceBlank(r)
  {
  }

  /** A buffer is cached but the face holds no vertex data: `drawFace` will
      not apply the buffer, and has no geometry to give new positions to. */
  predicate FaceBlank(st: FaceState)
  {
    st.vertexData.Some? && ("face" in st.meshes ==> !(st.meshes["face"].shape.Surface? && st.meshes["face"].shape.topology))
  }

  /** As written, a blank face stays blank on every later frame, whatever the
      input and the smoothing mode; only dropping the cached buffer (which
      `drawRibbon` does when it creates a ribbon) ends it. */
  lemma FaceStaysBlank(st: FaceState, result: LandmarkList, o: Options)
    requires FaceBlank(st)
    ensures FaceBlank(FaceAfter(st, result, o, false))
  {
  }

  /** Without a smoothing toggle the code as written and the corrected code
      agree. */
  lemma FaceToggleOnlyDiffers(st: FaceState, result: LandmarkList, o: Options)
    requires st.previousSmooth == o.smoothFace
    ensures FaceAfter(st, result, o, false) == FaceAfter(st, result, o, true)
  {
  }

  /** Once the buffer is dropped, the next usable frame shows the landmarks
      again, as written as well. */
  lemma FaceRecoversWithoutBuffer(st: FaceState, result: LandmarkList, o: Options)
    requires FaceInput(result, o) && st.vertexData.None?
    ensures var r := FaceAfter(st, result, o, false);
      && Live(r.meshes, "face") && r.meshes["face"].shape == Surface(true, o.smoothFace, FacePositions(result.value, o))
      && r.vertexData == Some(o.smoothFace)
  {
  }

  /** `face` is not a bone key, so drawing the face keeps the joint rule. */
  lemma FaceKeepsJointClosed(st: FaceState, result: LandmarkList, o: Options, resetOnToggle: bool)
    requires JointClosed(st.meshes) && NecklineKey !in st.meshes
    ensures JointClosed(FaceAfter(st, result, o, resetOnToggle).meshes)
    ensures NecklineKey !in FaceAfter(st, result, o, resetOnToggle).meshes
  {
    var r := FaceAfter(st, result, o, resetOnToggle);
    var f := "face";
    assert !Sided(f);
    forall k | k in r.meshes && Sided(k) ensures JointName(k) in r.meshes && (r.meshes[k].alive ==> r.meshes[JointName(k)].alive) {
      var j := JointName(k);
      assert j[|j| - 1] == 't' && f[|f| - 1] == 'e';
    }
    assert NecklineKey[|NecklineKey| - 1] == '0';
  }

  // ---------------------------------------------------------------- repositioning

  /** Where the detector's pose list keeps the landmarks the repositioning reads. */
  datatype Slots = Slots(nose: nat, leftWrist: nat, rightWrist: nat)

  /** A hand group's target: on the z axis at the wrist's depth when hands are
      connected to the body, at the origin otherwise. */
  function HandOffset(result: LandmarkList, wrist: nat, o: Options): Vec3
  {
    if o.connectHands then Vec3(0.0, 0.0, Vec(At(result, wrist), o).z) else Origin
  }

  /** `repositionHands`: the right, then the left hand group gets a target when
      its key is in the registry, disposed or not. */
  function HandsRepositioned(newPos: map<string, Vec3>, m: Meshes, result: LandmarkList, slots: Slots, o: Options): map<string, Vec3>
  {
    var p := if "hand-right" in m then newPos["hand-right" := HandOffset(result, slots.rightWrist, o)] else newPos;
    if "hand-left" in m then p["hand-left" := HandOffset(result, slots.leftWrist, o)] else p
  }

  lemma HandsRepositionedEffect(newPos: map<string, Vec3>, m: Meshes, result: LandmarkList, slots: Slots, o: Options, side: Side, k: string)
    ensures var r := HandsRepositioned(newPos, m, result, slots, o);
      var g := HandGroup(side); var w := if side == Left then slots.leftWrist else slots.rightWrist;
      && (g in m ==>
            (g in r && r[g].x == 0.0 && r[g].y == 0.0
             && r[g].z == (if !o.connectHands then 0.0 else if At(result, w).Some? then o.scaleZ * At(result, w).value.z else o.scaleZ * 0.0)))
      && (g !in m ==> Get(r, g) == Get(newPos, g))
      && (k != "hand-left" && k != "hand-right" ==> Get(r, k) == Get(newPos, k))
  {
  }

  /** The point between the nose and the shoulder centre the camera looks at:
      halfway in x and y, a quarter of the summed depth in z. */
  function NoseFocus(nose: Vec3, center: Vec3): (r: Vec3)
    ensures r.x - nose.x == center.x - r.x && r.y - nose.y == center.y - r.y
    ensures 4.0 * r.z == nose.z + center.z
  {
    Vec3((nose.x + center.x) / 2.0, (nose.y + center.y) / 2.0, (nose.z + center.z) / 4.0)
  }

  /** The face group's target: on the z axis at the focus depth when the face
      is connected to the body, at the origin otherwise. */
  function FaceOffset(focus: Vec3, o: Options): Vec3
  {
    Vec3(0.0, 0.0, if o.connectFace then focus.z else 0.0)
  }

  /** The two neck bones from the focus to the shoulder centre and back. */
  function NeckCalls(focus: Vec3, center: Vec3, o: Options): (r: seq<PathCall>)
    ensures AllWellFormed(r) && |r| == 2
  {
    SuffixSided("line");
    [PathCall("neck", "line-l", [focus, center], 1.0, o.baseRadius),
     PathCall("neck", "line-r", [center, focus], 1.0, o.baseRadius)]
  }

  /** The shoulder bone whose box centre anchors the neck. */
  const ShoulderKey := "left_shoulder-right_shoulder-l"

  /** The camera condition of `repositionFace`. */
  predicate CameraRetargets(m: Meshes, o: Options)
  {
    NecklineKey !in m || o.continousFocus
  }

  /** What `repositionFace` sets on the scene's camera: the point it looks at,
      whether its framing behaviour is on, and the box it last zoomed on. */
  datatype Camera = Camera(target: Option<Vec3>, framing: bool, zoom: Option<Box>)

  /** The camera after `repositionFace` found a nose: when it retargets, it
      looks at the focus and, with a pose group registered, frames that
      group's box; otherwise nothing changes. */
  function Refocus(c: Camera, m: Meshes, focus: Vec3, o: Options): (r: Camera)
    ensures CameraRetargets(m, o) ==> r.target == Some(focus)
    ensures !CameraRetargets(m, o) ==> r == c
    ensures CameraRetargets(m, o) && "pose" in m ==> r.framing && r.zoom == m["pose"].bounds
    ensures "pose" !in m ==> r.framing == c.framing && r.zoom == c.zoom
  {
    if !CameraRetargets(m, o) then c
    else if "pose" in m then Camera(Some(focus), true, m["pose"].bounds)
    else c.(target := Some(focus))
  }

  /** No `drawPath` call the builders make registers `neckline0`. */
  lemma NecklineNeverDrawn(sc: Scene, calls: seq<PathCall>, o: Options)
    requires AllWellFormed(calls) && JointClosed(sc.meshes) && NecklineKey !in sc.meshes
    ensures NecklineKey !in ApplyPaths(sc, calls, o).meshes
  {
    forall i | 0 <= i < |calls|
      ensures calls[i].parent != NecklineKey && calls[i].desc != NecklineKey && JointName(calls[i].desc) != NecklineKey
    {
      KeysApart(calls[i].desc, calls[i].parent);
    }
    ApplyPathsUntouched(sc, calls, o, NecklineKey);
  }

  /** The neck moves no bone but its own two: every other bone key keeps its
      mesh, its target path and its radius. */
  lemma NeckKeepsBones(sc: Scene, focus: Vec3, center: Vec3, o: Options, k: string)
    requires JointClosed(sc.meshes) && Sided(k) && k != "line-l" && k != "line-r"
    ensures var r := ApplyPaths(sc, NeckCalls(focus, center, o), o);
      Get(r.meshes, k) == Get(sc.meshes, k) && Get(r.newPath, k) == Get(sc.newPath, k) && Get(r.radius, k) == Get(sc.radius, k)
  {
    var calls := NeckCalls(focus, center, o);
    forall i | 0 <= i < |calls| ensures calls[i].parent != k && calls[i].desc != k && JointName(calls[i].desc) != k {
      KeysApart(calls[i].desc, calls[i].parent);
    }
    ApplyPathsUntouched(sc, calls, o, k);
  }

  /** So, as long as the registry never held `neckline0`, the camera is
      retargeted on every frame with a face, whatever `continousFocus` says. */
  lemma CameraAlwaysRetargets(sc: Scene, calls: seq<PathCall>, o: Options)
    requires AllWellFormed(calls) && JointClosed(sc.meshes) && NecklineKey !in sc.meshes
    ensures CameraRetargets(ApplyPaths(sc, calls, o).meshes, o)
  {
    NecklineNeverDrawn(sc, calls, o);
  }

  // ---------------------------------------------------------------- options

  /** After every mesh is disposed (a base radius change), the next `drawPath`
      rebuilds bone and joint from scratch: the joint's compounded scaling is
      back to one and the tube takes the radius currently on record. */
  lemma RedrawAfterDispose(sc: Scene, c: PathCall, o: Options)
    requires WellFormed(c) && JointClosed(sc.meshes)
    ensures JointClosed(DisposeAll(sc.meshes))
    ensures var r := ApplyPath(sc.(meshes := DisposeAll(sc.meshes)), c, o);
      && r.meshes[JointName(c.desc)].scaling == Some(Unit) && r.meshes[JointName(c.desc)].shape == Sphere(c.diameter)
      && r.meshes[c.desc].shape == Tube(c.path, Constant(Get(sc.radius, c.desc)))
  {
    var d := DisposeAll(sc.meshes);
    assert !Live(d, c.desc);
    ApplyPathEffect(sc.(meshes := d), c, o, c.desc);
  }
}
