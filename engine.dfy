/** The module-level state of src/draw3d.ts — the mesh registry, the temporal
    store, the options, the face buffer, the pose key names and the camera —
    and the operations that update it in place, each proved against the
    specification functions of the other modules. */
module Engine {
  import opened Geometry
  import opened Registry
  import opened Temporal
  import opened Shapes
  import opened Topology
  import opened Builders

  /** The landmark lists of one detector frame. */
  datatype Results = Results(pose: LandmarkList, leftHand: LandmarkList, rightHand: LandmarkList, face: LandmarkList)

  /** Every path in the map has exactly two points, as every bone has. */
  ghost predicate TwoPoint(paths: map<string, seq<Vec3>>)
  {
    forall k :: k in paths ==> |paths[k]| == 2
  }

  /** Interpolation keeps every path two points long. */
  lemma StepKeepsTwoPoint(path: map<string, seq<Vec3>>, target: map<string, seq<Vec3>>, f: real)
    requires TwoPoint(path) && TwoPoint(target)
    ensures Aligned(path, target) && TwoPoint(StepPaths(path, target, f))
  {
  }

  /** What the registry and the store keep between calls: the joint rule,
      no `neckline0`, and two-point paths in both path maps. */
  ghost predicate SceneOk(sc: Scene, path: map<string, seq<Vec3>>)
  {
    && JointClosed(sc.meshes) && NecklineKey !in sc.meshes
    && TwoPoint(path) && TwoPoint(sc.newPath) && Aligned(path, sc.newPath)
  }

  /** Every `drawPath` call keeps the invariant. */
  lemma PathKeepsOk(sc: Scene, c: PathCall, path: map<string, seq<Vec3>>, o: Options)
    requires WellFormed(c) && SceneOk(sc, path)
    ensures SceneOk(ApplyPath(sc, c, o), path)
  {
    KeysApart(c.desc, c.parent);
  }

  /** So does every sequence of them. */
  lemma {:induction false} PathsKeepOk(sc: Scene, calls: seq<PathCall>, path: map<string, seq<Vec3>>, o: Options)
    requires AllWellFormed(calls) && SceneOk(sc, path)
    ensures SceneOk(ApplyPaths(sc, calls, o), path)
  {
    if |calls| > 0 {
      var n := |calls| - 1;
      assert AllWellFormed(calls[..n]) by {
        forall i | 0 <= i < n ensures WellFormed(calls[..n][i]) { assert calls[..n][i] == calls[i]; }
      }
      PathsKeepOk(sc, calls[..n], path, o);
      PathKeepsOk(ApplyPaths(sc, calls[..n], o), calls[n], path, o);
    }
  }

  /** The body of `drawPath`, step by step, on the registry and the three
      store maps: the registry steps, then the radii and the targets. */
  method PathSteps(sc: Scene, c: PathCall, o: Options) returns (out: Scene)
    requires JointClosed(sc.meshes) && WellFormed(c)
    ensures out == ApplyPath(sc, c, o)
  {
    var m := RegistrySteps(sc.meshes, sc.radius, c, o);
    var joint := c.desc + "-joint";
    var radius := sc.radius[c.desc := c.diameter / 2.0];
    var newPath := sc.newPath[c.desc := c.path];
    radius := radius[joint := c.diameter];
    var newPos := sc.newPos[joint := newPath[c.desc][0]];
    out := Scene(m, newPos, newPath, radius);
  }

  /** The registry part of `drawPath`: make the parent group live, create the
      bone and its joint when the bone is missing or disposed, then set their
      visibility and enabled flags. */
  method RegistrySteps(m0: Meshes, radius: map<string, real>, c: PathCall, o: Options) returns (m: Meshes)
    requires JointClosed(m0) && WellFormed(c)
    ensures m == ShowPair(CreatePair(EnsureGroup(m0, c.parent), c, radius), c, o)
  {
    KeysApart(c.desc, c.parent);
    m := m0;
    if !(c.parent in m && m[c.parent].alive) {
      m := m[c.parent := Fresh(Group, None)];
    }
    var joint := c.desc + "-joint";
    if !(c.desc in m && m[c.desc].alive) {
      m := m[c.desc := Fresh(Tube(c.path, Constant(Get(radius, c.desc))), Some(c.parent))][joint := Fresh(Sphere(c.diameter), Some(c.parent))];
    }
    m := m[c.desc := m[c.desc].(visibility := c.visibility, enabled := o.renderBones && c.visibility > 0.0)]
         [joint := m[joint].(visibility := c.visibility, enabled := o.renderJoints && c.visibility > 0.0)];
  }

  /** An iteration of the loop of `createPose` whose connection has both
      endpoints draws its two bones on the scene reached so far. */
  lemma PoseDraws(sc0: Scene, result: LandmarkList, names: seq<string>, conns: seq<(nat, nat)>, o: Options, i: nat, mid: Scene,
                  left: PathCall, right: PathCall)
    requires i < |conns| && JointClosed(sc0.meshes) && mid == ApplyPaths(sc0, PoseCalls(result, names, conns, o, i), o)
    requires Present(result, conns[i])
    requires left == LeftCall(result, names, conns, i, o)
    requires right == RightCall(result, names, conns, i, o)
    ensures WellFormed(left) && WellFormed(right)
    ensures ApplyPaths(sc0, PoseCalls(result, names, conns, o, i + 1), o) == ApplyPath(ApplyPath(mid, left, o), right, o)
  {
    var prev := PoseCalls(result, names, conns, o, i);
    SuffixSided(PoseKey(names, i));
    assert PoseCalls(result, names, conns, o, i + 1) == prev + [left, right];
    ApplyPathsTwo(sc0, prev, left, right, o);
  }

  /** An iteration whose connection misses an endpoint draws nothing. */
  lemma PoseSkips(result: LandmarkList, names: seq<string>, conns: seq<(nat, nat)>, o: Options, i: nat)
    requires i < |conns| && !Present(result, conns[i])
    ensures PoseCalls(result, names, conns, o, i + 1) == PoseCalls(result, names, conns, o, i)
  {
    assert PoseCalls(result, names, conns, o, i) + [] == PoseCalls(result, names, conns, o, i);
  }

  /** The two `drawPath` calls of `repositionFace` that draw the neck. */
  method NeckSteps(sc: Scene, focus: Vec3, center: Vec3, o: Options) returns (out: Scene)
    requires JointClosed(sc.meshes)
    ensures out == ApplyPaths(sc, NeckCalls(focus, center, o), o)
  {
    var left := PathCall("neck", "line-l", [focus, center], 1.0, o.baseRadius);
    var right := PathCall("neck", "line-r", [center, focus], 1.0, o.baseRadius);
    assert NeckCalls(focus, center, o) == [] + [left, right];
    out := PathSteps(sc, left, o);
    out := PathSteps(out, right, o);
    ApplyPathsTwo(sc, [], left, right, o);
  }

  /** Two `drawPath` calls in a row: the `-l` and the `-r` bone of one connection. */
  method PairSteps(sc: Scene, left: PathCall, right: PathCall, o: Options) returns (out: Scene)
    requires JointClosed(sc.meshes) && WellFormed(left) && WellFormed(right)
    ensures out == ApplyPath(ApplyPath(sc, left, o), right, o)
  {
    out := PathSteps(sc, left, o);
    out := PathSteps(out, right, o);
  }

  /** One iteration of the loop of `createPose`: connection `i` is skipped
      when either endpoint is missing, else both its bones are drawn with the
      smaller of the two visibility scores. */
  method PoseIteration(sc0: Scene, sc: Scene, result: LandmarkList, names: seq<string>, conns: seq<(nat, nat)>, o: Options, i: nat)
    returns (out: Scene)
    requires i < |conns| && JointClosed(sc0.meshes) && sc == ApplyPaths(sc0, PoseCalls(result, names, conns, o, i), o)
    ensures out == ApplyPaths(sc0, PoseCalls(result, names, conns, o, i + 1), o)
  {
    var v0 := At(result, conns[i].0);
    var v1 := At(result, conns[i].1);
    if v0.Some? && v1.Some? {
      var key := PoseKey(names, i);
      var visibility := MinReal(Visibility(v0), Visibility(v1));
      var left := PathCall("pose", key + "-l", [Vec(v0, o), Vec(v1, o)], visibility, o.baseRadius);
      var right := PathCall("pose", key + "-r", [Vec(v1, o), Vec(v0, o)], visibility, o.baseRadius);
      PoseDraws(sc0, result, names, conns, o, i, sc, left, right);
      out := PairSteps(sc, left, right, o);
    } else {
      PoseSkips(result, names, conns, o, i);
      out := sc;
    }
  }

  /** The loop of `createPose` on the registry and the store maps. */
  method PoseSteps(sc0: Scene, result: LandmarkList, names: seq<string>, conns: seq<(nat, nat)>, o: Options) returns (sc: Scene)
    requires JointClosed(sc0.meshes)
    ensures sc == ApplyPaths(sc0, PoseCalls(result, names, conns, o, |conns|), o)
  {
    sc := sc0;
    var i := 0;
    while i < |conns|
      invariant 0 <= i <= |conns|
      invariant sc == ApplyPaths(sc0, PoseCalls(result, names, conns, o, i), o)
    {
      sc := PoseIteration(sc0, sc, result, names, conns, o, i);
      i := i + 1;
    }
  }

  /** The `-l` and `-r` calls `createHand` makes for connection `i`, under
      the key stem `hand-${i}` the code uses for both hands. */
  function HandLeftCall(result: LandmarkList, side: Side, conns: seq<(nat, nat)>, o: Options, i: nat): PathCall
    requires i < |conns|
  {
    HandConnectionCalls(result, side, conns[i], HandKey(i), o)[0]
  }

  function HandRightCall(result: LandmarkList, side: Side, conns: seq<(nat, nat)>, o: Options, i: nat): PathCall
    requires i < |conns|
  {
    HandConnectionCalls(result, side, conns[i], HandKey(i), o)[1]
  }

  /** The registry and store after the first `n` iterations of the loop of
      `createHand`, one connection at a time. */
  ghost function HandScene(sc0: Scene, result: LandmarkList, side: Side, conns: seq<(nat, nat)>, o: Options, n: nat): (r: Scene)
    requires n <= |conns| && JointClosed(sc0.meshes)
    ensures JointClosed(r.meshes)
  {
    if n == 0 then sc0
    else
      ApplyPath(ApplyPath(HandScene(sc0, result, side, conns, o, n - 1), HandLeftCall(result, side, conns, o, n - 1), o),
                HandRightCall(result, side, conns, o, n - 1), o)
  }

  /** One more connection draws its two bones on the scene reached so far. */
  lemma HandSceneNext(sc0: Scene, result: LandmarkList, side: Side, conns: seq<(nat, nat)>, o: Options, k: nat)
    requires k < |conns| && JointClosed(sc0.meshes)
    ensures WellFormed(HandLeftCall(result, side, conns, o, k)) && WellFormed(HandRightCall(result, side, conns, o, k))
    ensures HandScene(sc0, result, side, conns, o, k + 1)
      == ApplyPath(ApplyPath(HandScene(sc0, result, side, conns, o, k), HandLeftCall(result, side, conns, o, k), o),
                   HandRightCall(result, side, conns, o, k), o)
  {
    SuffixSided(HandKey(k));
  }

  /** The whole call list after connection `n - 1` is the scene before it
      with that connection's two bones drawn. */
  lemma HandCallsStep(sc0: Scene, result: LandmarkList, side: Side, conns: seq<(nat, nat)>, o: Options, n: nat)
    requires 0 < n <= |conns| && JointClosed(sc0.meshes)
    ensures WellFormed(HandLeftCall(result, side, conns, o, n - 1)) && WellFormed(HandRightCall(result, side, conns, o, n - 1))
    ensures ApplyPaths(sc0, HandCalls(result, side, conns, o, n, false), o)
      == ApplyPath(ApplyPath(ApplyPaths(sc0, HandCalls(result, side, conns, o, n - 1, false), o), HandLeftCall(result, side, conns, o, n - 1), o),
                   HandRightCall(result, side, conns, o, n - 1), o)
  {
    var prev := HandCalls(result, side, conns, o, n - 1, false);
    var cur := HandConnectionCalls(result, side, conns[n - 1], HandKey(n - 1), o);
    assert HandCalls(result, side, conns, o, n, false) == prev + [cur[0], cur[1]];
    ApplyPathsTwo(sc0, prev, cur[0], cur[1], o);
  }

  /** If the first `k` connections agree with the call list, so do the
      first `k + 1`. */
  lemma HandSceneStep(sc0: Scene, result: LandmarkList, side: Side, conns: seq<(nat, nat)>, o: Options, k: nat)
    requires k < |conns| && JointClosed(sc0.meshes)
    requires HandScene(sc0, result, side, conns, o, k) == ApplyPaths(sc0, HandCalls(result, side, conns, o, k, false), o)
    ensures HandScene(sc0, result, side, conns, o, k + 1) == ApplyPaths(sc0, HandCalls(result, side, conns, o, k + 1, false), o)
  {
    HandCallsStep(sc0, result, side, conns, o, k + 1);
  }

  /** Connection by connection is the same as the whole call list. */
  lemma HandSceneCalls(sc0: Scene, result: LandmarkList, side: Side, conns: seq<(nat, nat)>, o: Options, n: nat)
    requires n <= |conns| && JointClosed(sc0.meshes)
    ensures HandScene(sc0, result, side, conns, o, n) == ApplyPaths(sc0, HandCalls(result, side, conns, o, n, false), o)
  {
    for k := 0 to n
      invariant HandScene(sc0, result, side, conns, o, k) == ApplyPaths(sc0, HandCalls(result, side, conns, o, k, false), o)
    {
      HandSceneStep(sc0, result, side, conns, o, k);
    }
  }

  /** One iteration of the loop of `createHand`: never skipped; both bones are
      visible only when both endpoints are present and hands are rendered. */
  method HandIteration(sc0: Scene, sc: Scene, result: LandmarkList, side: Side, conns: seq<(nat, nat)>, o: Options, i: nat)
    returns (out: Scene)
    requires i < |conns| && JointClosed(sc0.meshes) && sc == HandScene(sc0, result, side, conns, o, i)
    ensures out == HandScene(sc0, result, side, conns, o, i + 1)
  {
    var left := HandLeftCall(result, side, conns, o, i);
    var right := HandRightCall(result, side, conns, o, i);
    HandSceneNext(sc0, result, side, conns, o, i);
    out := PairSteps(sc, left, right, o);
  }

  /** The loop of `createHand` on the registry and the store maps. */
  method HandSteps(sc0: Scene, result: LandmarkList, side: Side, conns: seq<(nat, nat)>, o: Options) returns (sc: Scene)
    requires JointClosed(sc0.meshes)
    ensures sc == ApplyPaths(sc0, HandCalls(result, side, conns, o, |conns|, false), o)
  {
    sc := sc0;
    var i := 0;
    while i < |conns|
      invariant 0 <= i <= |conns|
      invariant sc == HandScene(sc0, result, side, conns, o, i)
    {
      sc := HandIteration(sc0, sc, result, side, conns, o, i);
      i := i + 1;
    }
    HandSceneCalls(sc0, result, side, conns, o, |conns|);
  }

  /** Every bone the left hand draws shows the right hand's last call for the
      same key: live, with its path as target and its visibility. */
  ghost predicate RightHandShown(m: Meshes, newPath: map<string, seq<Vec3>>, results: Results, conns: seq<(nat, nat)>, o: Options)
  {
    forall k :: LastCall(HandCalls(results.leftHand, Left, conns, o, |conns|, false), k).Some? ==>
      var c := LastCall(HandCalls(results.rightHand, Right, conns, o, |conns|, false), k);
      && c.Some? && k in newPath && Live(m, k)
      && newPath[k] == c.value.path && m[k].visibility == c.value.visibility
  }

  /** From registry `m` and targets `p` to `m2` and `p2`, every bone but the
      neck's `line-l` and `line-r` keeps its mesh and its target. */
  ghost predicate BonesKept(m: Meshes, p: map<string, seq<Vec3>>, m2: Meshes, p2: map<string, seq<Vec3>>)
  {
    forall k :: Sided(k) && k != "line-l" && k != "line-r" ==> Get(m2, k) == Get(m, k) && Get(p2, k) == Get(p, k)
  }

  /** Steps that keep every bone but the neck's keep the hands as shown. */
  lemma RightHandStillShown(m: Meshes, p: map<string, seq<Vec3>>, m2: Meshes, p2: map<string, seq<Vec3>>,
                            results: Results, conns: seq<(nat, nat)>, o: Options)
    requires RightHandShown(m, p, results, conns, o) && BonesKept(m, p, m2, p2)
    ensures RightHandShown(m2, p2, results, conns, o)
  {
    forall k | LastCall(HandCalls(results.leftHand, Left, conns, o, |conns|, false), k).Some?
      ensures var c := LastCall(HandCalls(results.rightHand, Right, conns, o, |conns|, false), k);
        && c.Some? && k in p2 && Live(m2, k)
        && p2[k] == c.value.path && m2[k].visibility == c.value.visibility
    {
      HandBoneKey(results.leftHand, Left, conns, o, false, k);
    }
  }

  /** Setting the pose group's box keeps the invariant. */
  lemma BoundsKeepOk(sc: Scene, path: map<string, seq<Vec3>>, box: Box)
    requires SceneOk(sc, path) && "pose" in sc.meshes
    ensures SceneOk(sc.(meshes := sc.meshes["pose" := sc.meshes["pose"].(bounds := Some(box))]), path)
  {
    assert !Sided("pose");
    assert "pose" != NecklineKey;
  }

  class Renderer {
    var meshes: Meshes
    const data: Data
    var options: Options
    var previousSmooth: bool
    /** The cached face vertex buffer: whether its normals were computed, `None` when there is none. */
    var faceVertexData: Option<bool>
    var poseName: seq<string>
    var camera: Camera

    /** The registry keeps the joint rule and never holds `neckline0`; every
        path in the store has two points. */
    ghost predicate Valid()
      reads this, data
    {
      data.Valid() && SceneOk(Written(), data.path)
    }

    /** The state `drawPath` writes. */
    ghost function Written(): Scene
      reads this, data
    {
      Scene(meshes, data.newPos, data.newPath, data.radius)
    }

    ghost function Face(): FaceState
      reads this
    {
      FaceState(meshes, previousSmooth, faceVertexData)
    }

    /** The state once the module is loaded and the first options are set. */
    constructor (o: Options)
      ensures Valid() && fresh(data)
      ensures meshes == map[] && options == o && !previousSmooth && faceVertexData.None? && poseName == []
      ensures data.newPos == map[] && data.newPath == map[] && data.radius == map[]
      ensures data.pos == map[] && data.path == map[] && data.updateTime == 0 && data.drawTime == 0
      ensures camera == Camera(None, false, None)
    {
      meshes := map[];
      data := new Data();
      options := o;
      previousSmooth := false;
      faceVertexData := None;
      poseName := [];
      camera := Camera(None, false, None);
    }

    /** `drawPath`: its steps run on the registry and the three store maps,
        which are then written back. */
    method DrawPath(parent: string, desc: string, path: seq<Vec3>, visibility: real, diameter: real)
      requires Valid() && WellFormed(PathCall(parent, desc, path, visibility, diameter))
      modifies this`meshes, data`newPos, data`newPath, data`radius
      ensures Valid()
      ensures Written() == ApplyPath(old(Written()), PathCall(parent, desc, path, visibility, diameter), options)
    {
      var sc := Scene(meshes, data.newPos, data.newPath, data.radius);
      var out := PathSteps(sc, PathCall(parent, desc, path, visibility, diameter), options);
      PathKeepsOk(sc, PathCall(parent, desc, path, visibility, diameter), data.path, options);
      meshes := out.meshes;
      data.newPos, data.newPath, data.radius := out.newPos, out.newPath, out.radius;
    }

    /** `createPose`: the two bones of every connection with both endpoints
        present, then the pose group's bounding box over its children's
        boxes. With no pose group or no child the code throws before setting
        a box (the promise is rejected and the frame goes on); `bounded` is
        false then. */
    method CreatePose(result: LandmarkList, conns: seq<(nat, nat)>, childBoxes: seq<Box>) returns (bounded: bool)
      requires Valid()
      modifies this`meshes, data`newPos, data`newPath, data`radius
      ensures Valid()
      ensures var sc := ApplyPaths(old(Written()), PoseCalls(result, poseName, conns, options, |conns|), options);
        && data.newPos == sc.newPos && data.newPath == sc.newPath && data.radius == sc.radius
        && bounded == ("pose" in sc.meshes && |childBoxes| > 0)
        && meshes == if bounded then sc.meshes["pose" := sc.meshes["pose"].(bounds := Some(Hull(childBoxes)))] else sc.meshes
    {
      var sc0 := Scene(meshes, data.newPos, data.newPath, data.radius);
      var sc := PoseSteps(sc0, result, poseName, conns, options);
      PathsKeepOk(sc0, PoseCalls(result, poseName, conns, options, |conns|), data.path, options);
      Store(sc);
      if "pose" in meshes && |childBoxes| > 0 {
        var box := AggregateBounds(childBoxes);
        BoundsKeepOk(Written(), data.path, box);
        meshes := meshes["pose" := meshes["pose"].(bounds := Some(box))];
        bounded := true;
      } else {
        bounded := false;
      }
    }

    /** Write a scene back into the registry and the store. */
    method Store(sc: Scene)
      requires data.Valid() && SceneOk(sc, data.path)
      modifies this`meshes, data`newPos, data`newPath, data`radius
      ensures Valid() && Written() == sc
    {
      meshes := sc.meshes;
      data.newPos, data.newPath, data.radius := sc.newPos, sc.newPath, sc.radius;
    }

    /** `createHand`: both bones of every connection, always, under the keys
        `hand-${i}-l` and `hand-${i}-r`, which do not name the side (see
        `Topology.LeftHandOverwritten` for what the second hand then does to
        the first). */
    method CreateHand(result: LandmarkList, side: Side, conns: seq<(nat, nat)>)
      requires Valid()
      modifies this`meshes, data`newPos, data`newPath, data`radius
      ensures Valid()
      ensures Written() == ApplyPaths(old(Written()), HandCalls(result, side, conns, options, |conns|, false), options)
    {
      var sc0 := Scene(meshes, data.newPos, data.newPath, data.radius);
      var sc := HandSteps(sc0, result, side, conns, options);
      PathsKeepOk(sc0, HandCalls(result, side, conns, options, |conns|, false), data.path, options);
      Store(sc);
    }

    /** `drawRibbon`: double every rail, make the group live, create the
        ribbon when missing or disposed (dropping the face buffer), then set
        its rails, visibility and enabled flag. */
    method DrawRibbon(parent: string, desc: string, rails: seq<seq<Vec3>>, visibility: real)
      requires Valid() && RibbonKeys(parent, desc)
      modifies this`meshes, this`faceVertexData
      ensures Valid()
      ensures meshes == RibbonMeshes(old(meshes), parent, desc, rails, visibility, options)
      ensures faceVertexData == if RibbonCreated(old(meshes), parent, desc) then None else old(faceVertexData)
    {
      RibbonKeepsJointClosed(meshes, parent, desc, rails, visibility, options);
      var pathArray: seq<seq<Vec3>> := [];
      var j := 0;
      while j < |rails|
        invariant 0 <= j <= |rails| && |pathArray| == j
        invariant forall t :: 0 <= t < j ==> pathArray[t] == DoubledRail(rails[t], options.baseRadius)
        modifies {}
      {
        var double := DoubleRail(rails[j], options.baseRadius);
        pathArray := pathArray + [double];
        j := j + 1;
      }
      assert pathArray == DoubledRails(rails, options.baseRadius);
      if !(parent in meshes && meshes[parent].alive) {
        meshes := meshes[parent := Fresh(Group, None)];
      }
      var name := parent + "-" + desc;
      assert |name| > |parent|;
      if !(name in meshes && meshes[name].alive) {
        meshes := meshes[name := Fresh(Ribbon(pathArray), Some(parent))];
        faceVertexData := None;
      }
      meshes := meshes[name := meshes[name].(shape := Ribbon(pathArray), visibility := visibility,
                                              enabled := options.renderSurface && visibility > 0.0)];
    }

    /** `drawPalm`. */
    method DrawPalm(result: LandmarkList, side: Side)
      requires Valid()
      modifies this`meshes, this`faceVertexData
      ensures Valid()
      ensures meshes == RibbonMeshes(old(meshes), HandGroup(side), "palm", PalmRails(result, options), PalmVisibility(result, options), options)
      ensures faceVertexData == if RibbonCreated(old(meshes), HandGroup(side), "palm") then None else old(faceVertexData)
    {
      var visibility := if options.renderHands && At(result, 0).Some? && At(result, 5).Some? && At(result, 17).Some? then 0.4 else 0.0;
      var verticals := [[Vec(At(result, 0), options), Vec(At(result, 5), options)],
                        [Vec(At(result, 0), options), Vec(At(result, 17), options)]];
      PalmKeys(side);
      DrawRibbon(if side == Left then "hand-left" else "hand-right", "palm", verticals, visibility);
    }

    /** `drawFace`. A smoothing toggle disposes the face but keeps the face
        buffer (see `Builders.FaceLostOnToggle`). */
    method DrawFace(result: LandmarkList)
      requires Valid()
      modifies this`meshes, this`previousSmooth, this`faceVertexData
      ensures Valid()
      ensures Face() == FaceAfter(old(Face()), result, options, false)
    {
      FaceKeepsJointClosed(Face(), result, options, false);
      if result.None? || |result.value| < FacePoints || !options.renderFace {
        if "face" in meshes && meshes["face"].alive {
          meshes := meshes["face" := meshes["face"].(visibility := 0.0)];
        }
        return;
      }
      ShowFace(result.value);
    }

    /** `drawFace` on usable input: dispose the face on a smoothing toggle,
        create it when missing, show it, build the buffer when there is none,
        and give new positions to a face that holds vertex data. */
    method ShowFace(result: seq<Landmark>)
      requires FaceInput(Some(result), options)
      modifies this`meshes, this`previousSmooth, this`faceVertexData
      ensures Face() == FaceAfter(old(Face()), Some(result), options, false)
    {
      ghost var st := Face();
      var o := options;
      var m := meshes;
      var vd := faceVertexData;
      if previousSmooth != o.smoothFace {
        if "face" in m && m["face"].alive {
          m := m["face" := m["face"].(alive := false)];
        }
      }
      if !("face" in m && m["face"].alive) {
        m := m["face" := Fresh(EmptySurface, None)];
      }
      var face := m["face"].(visibility := 1.0);
      var positions := FlattenFace(result, o);
      var p := positions[..];
      if vd.None? {
        vd := Some(o.smoothFace);
        face := face.(shape := Surface(true, o.smoothFace, p));
      }
      if face.shape.Surface? && face.shape.topology {
        face := face.(shape := face.shape.(positions := p));
      }
      meshes, previousSmooth, faceVertexData := m["face" := face], o.smoothFace, vd;
    }

    /** `repositionHands`. */
    method RepositionHands(result: LandmarkList, slots: Slots)
      modifies data`newPos
      ensures data.newPos == HandsRepositioned(old(data.newPos), meshes, result, slots, options)
    {
      if "hand-right" in meshes {
        var wrist := Vec(At(result, slots.rightWrist), options);
        data.newPos := data.newPos["hand-right" := if options.connectHands then Vec3(0.0, 0.0, wrist.z) else Vec3(0.0, 0.0, 0.0)];
      }
      if "hand-left" in meshes {
        var wrist := Vec(At(result, slots.leftWrist), options);
        data.newPos := data.newPos["hand-left" := if options.connectHands then Vec3(0.0, 0.0, wrist.z) else Vec3(0.0, 0.0, 0.0)];
      }
    }

    /** `repositionFace`, given the centre of the shoulder bone's box. Nothing
        happens unless the face and the shoulder bone are registered and the
        nose is present. Otherwise the face group gets its target, the camera
        is refocused and the neck is drawn. */
    method RepositionFace(result: LandmarkList, slots: Slots, center: Vec3) returns (drawn: bool)
      requires Valid()
      modifies this`meshes, data`newPos, data`newPath, data`radius, this`camera
      ensures Valid()
      ensures drawn == ("face" in old(meshes) && ShoulderKey in old(meshes) && At(result, slots.nose).Some?)
      ensures !drawn ==> Written() == old(Written()) && camera == old(camera)
      ensures drawn ==>
        var o := old(options);
        var focus := NoseFocus(Vec(At(result, slots.nose), o), center);
        && Written() == ApplyPaths(old(Written()).(newPos := old(data.newPos)["face" := FaceOffset(focus, o)]), NeckCalls(focus, center, o), o)
        && camera == Refocus(old(camera), old(meshes), focus, o)
    {
      var nose := At(result, slots.nose);
      if !("face" in meshes) || !(ShoulderKey in meshes) || nose.None? {
        return false;
      }
      var o := options;
      var focus := NoseFocus(Vec(nose, o), center);
      var sc := Scene(meshes, data.newPos["face" := FaceOffset(focus, o)], data.newPath, data.radius);
      var view := camera;
      if !(NecklineKey in meshes) || o.continousFocus {
        view := view.(target := Some(focus));
        if "pose" in meshes {
          view := view.(framing := true, zoom := meshes["pose"].bounds);
        }
      }
      ghost var sc0 := sc;
      sc := NeckSteps(sc, focus, center, o);
      PathsKeepOk(sc0, NeckCalls(focus, center, o), data.path, o);
      camera := view;
      Store(sc);
      drawn := true;
    }

    /** `setDraw3dOptions`: a new base radius disposes every mesh. */
    method SetOptions(o: Options)
      requires Valid()
      modifies this`meshes, this`options
      ensures Valid() && options == o
      ensures meshes == if o.baseRadius != old(options).baseRadius then DisposeAll(old(meshes)) else old(meshes)
    {
      if o.baseRadius != options.baseRadius {
        DisposeAllClosed(meshes);
        meshes := DisposeAll(meshes);
      }
      options := o;
    }

    /** `buildPoseNames`: append the name of every connection. A connection
        index outside the landmark table makes the code throw. */
    method BuildPoseNames(landmarks: seq<string>, conns: seq<(nat, nat)>)
      requires InTable(landmarks, conns)
      modifies this`poseName
      ensures poseName == old(poseName) + PoseNames(landmarks, conns)
    {
      ghost var before := poseName;
      var i := 0;
      while i < |conns|
        invariant 0 <= i <= |conns| && |poseName| == |before| + i
        invariant poseName[..|before|] == before
        invariant forall t :: 0 <= t < i ==> poseName[|before| + t] == PoseName(landmarks, conns[t])
      {
        poseName := poseName + [Lower(landmarks[conns[i].0]) + "-" + Lower(landmarks[conns[i].1])];
        i := i + 1;
      }
      assert poseName == before + PoseNames(landmarks, conns);
    }

    /** `performRender`: one smoothing step, then one commit at time `now`. */
    method PerformRender(now: int)
      requires Valid()
      modifies data`pos, data`path, data`drawTime, this`meshes
      ensures Valid()
      ensures data.pos == if options.lerpAmount == 0.0 then old(data.pos) else StepPos(old(data.pos), data.newPos, options.lerpAmount)
      ensures data.path == if options.lerpAmount == 0.0 then old(data.path) else StepPaths(old(data.path), data.newPath, options.lerpAmount)
      ensures Stale(data.updateTime, old(data.drawTime)) ==> meshes == old(meshes) && data.drawTime == old(data.drawTime)
      ensures !Stale(data.updateTime, old(data.drawTime)) ==> meshes == Committed(old(meshes), data.Snap(), options) && data.drawTime == now
    {
      StepKeepsTwoPoint(data.path, data.newPath, options.lerpAmount);
      data.Interpolate(options.lerpAmount);
      CommitKeepsLiveness(meshes, data.Snap(), options);
      meshes := data.Draw(meshes, options, now);
    }

    /** The first half of `draw3D`: the pose, then both hands' bones. Since
        the hand keys do not name the side, every bone the left hand draws
        ends the frame with the right hand's path and visibility. */
    method DrawBones(results: Results, poseConns: seq<(nat, nat)>, handConns: seq<(nat, nat)>, childBoxes: seq<Box>)
      requires Valid()
      modifies this`meshes, data`newPos, data`newPath, data`radius
      ensures Valid()
      ensures RightHandShown(meshes, data.newPath, results, handConns, options)
    {
      var _ := CreatePose(results.pose, poseConns, childBoxes);
      ghost var posed := Written();
      CreateHand(results.leftHand, Left, handConns);
      CreateHand(results.rightHand, Right, handConns);
      forall k | LastCall(HandCalls(results.leftHand, Left, handConns, options, |handConns|, false), k).Some?
        ensures var c := LastCall(HandCalls(results.rightHand, Right, handConns, options, |handConns|, false), k);
          && c.Some? && k in data.newPath && Live(meshes, k)
          && data.newPath[k] == c.value.path && meshes[k].visibility == c.value.visibility
      {
        LeftHandOverwritten(posed, results.leftHand, results.rightHand, handConns, options, k);
      }
    }

    /** The second half of `draw3D`: both palms, the hand offsets, the face
        and the neck. None of them moves a bone other than the neck's own
        `line-l` and `line-r`. */
    method DrawSurfaces(results: Results, slots: Slots, shoulderCenter: Vec3)
      requires Valid()
      modifies this`meshes, this`previousSmooth, this`faceVertexData, this`camera
      modifies data`newPos, data`newPath, data`radius
      ensures Valid()
      ensures BonesKept(old(meshes), old(data.newPath), meshes, data.newPath)
    {
      ghost var m0 := meshes;
      DrawPalm(results.leftHand, Left);
      ghost var m1 := meshes;
      DrawPalm(results.rightHand, Right);
      RepositionHands(results.pose, slots);
      ghost var f := Face();
      DrawFace(results.face);
      ghost var w := Written();
      var drawn := RepositionFace(results.pose, slots, shoulderCenter);
      ghost var focus := NoseFocus(Vec(At(results.pose, slots.nose), options), shoulderCenter);
      forall k | Sided(k) && k != "line-l" && k != "line-r"
        ensures Get(meshes, k) == Get(m0, k) && Get(data.newPath, k) == Get(w.newPath, k)
      {
        PalmKeys(Left);
        PalmKeys(Right);
        RibbonKeepsBones(m0, HandGroup(Left), "palm", PalmRails(results.leftHand, options), PalmVisibility(results.leftHand, options), options, k);
        RibbonKeepsBones(m1, HandGroup(Right), "palm", PalmRails(results.rightHand, options), PalmVisibility(results.rightHand, options), options, k);
        FaceKeepsOthers(f, results.face, options, false, k);
        if drawn {
          NeckKeepsBones(w.(newPos := w.newPos["face" := FaceOffset(focus, options)]), focus, shoulderCenter, options, k);
        }
      }
    }

    /** `draw3D`: build every part of one frame in the code's order and
        stamp the frame time. The code stamps it last; it is stamped first
        here, which ends the frame in the same state since no drawing step
        reads or writes it. Values the renderer computes between steps (the
        pose children's boxes, the shoulder bone's box centre) are inputs.
        Only the targets move: what is on screen changes at the next render.
        Every bone of the left hand ends the frame as the right hand drew it. */
    method Draw3D(results: Results, now: int, slots: Slots, poseConns: seq<(nat, nat)>, handConns: seq<(nat, nat)>,
                  childBoxes: seq<Box>, shoulderCenter: Vec3)
      requires Valid()
      modifies this`meshes, this`previousSmooth, this`faceVertexData, this`camera
      modifies data`newPos, data`newPath, data`radius, data`updateTime
      ensures Valid() && data.updateTime == now
      ensures data.pos == old(data.pos) && data.path == old(data.path) && data.drawTime == old(data.drawTime)
      ensures RightHandShown(meshes, data.newPath, results, handConns, options)
    {
      data.updateTime := now;
      DrawBones(results, poseConns, handConns, childBoxes);
      ghost var m := meshes;
      ghost var p := data.newPath;
      DrawSurfaces(results, slots, shoulderCenter);
      RightHandStillShown(m, p, meshes, data.newPath, results, handConns, options);
    }
  }
}
