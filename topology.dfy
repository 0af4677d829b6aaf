/** The effect of `drawPath` on the registry and the store, and the lists of
    `drawPath` calls that `createPose` and `createHand` make for one frame.
    Keeping the calls as values lets the builders be specified as a fold of
    one well-understood step. */
module Topology {
  import opened Geometry
  import opened Registry

  /** One call `drawPath(parent, desc, path, visibility, diameter)`. */
  datatype PathCall = PathCall(parent: string, desc: string, path: seq<Vec3>, visibility: real, diameter: real)

  /** The joint drawn with bone `desc`. */
  function JointName(desc: string): string
  {
    desc + "-joint"
  }

  lemma JointNameInjective(a: string, b: string)
    requires JointName(a) == JointName(b)
    ensures a == b
  {
    assert |a| == |b|;
    assert a == JointName(a)[..|a|] && b == JointName(b)[..|b|];
  }

  /** Bone keys end in a direction suffix, `-l` or `-r`. */
  predicate Sided(k: string)
  {
    |k| >= 2 && k[|k| - 2] == '-' && (k[|k| - 1] == 'l' || k[|k| - 1] == 'r')
  }

  /** The parent groups bones are drawn under. */
  const ParentKeys: set<string> := {"pose", "neck", "hand-left", "hand-right"}

  /** The key the camera condition of `repositionFace` tests. */
  const NecklineKey := "neckline0"

  lemma KeysApart(desc: string, p: string)
    requires Sided(desc) && p in ParentKeys
    ensures p != desc && p != JointName(desc) && desc != JointName(desc)
    ensures !Sided(p) && !Sided(JointName(desc)) && !Sided(NecklineKey)
    ensures NecklineKey != desc && NecklineKey != JointName(desc) && NecklineKey != p
  {
    var j := JointName(desc);
    assert j[|j| - 1] == 't' && j[|j| - 5] == 'j';
    assert p == "pose" || p == "neck" || p == "hand-left" || p == "hand-right";
    assert |p| < 6 || p[|p| - 5] != 'j';
    assert !Sided(p);
    assert NecklineKey[|NecklineKey| - 1] == '0';
  }

  /** A call every builder makes: a known parent, a sided bone key, a two-point path. */
  predicate WellFormed(c: PathCall)
  {
    c.parent in ParentKeys && Sided(c.desc) && |c.path| == 2
  }

  /** The part of the state builders write: the registry and three maps of the store. */
  datatype Scene = Scene(meshes: Meshes, newPos: map<string, Vec3>, newPath: map<string, seq<Vec3>>, radius: map<string, real>)

  /** Every bone key in the registry has its joint registered too, and a live
      bone has a live joint. */
  ghost predicate JointClosed(m: Meshes)
  {
    forall k {:trigger JointName(k)} :: k in m && Sided(k) ==> JointName(k) in m && (m[k].alive ==> m[JointName(k)].alive)
  }

  /** `drawPath`: make sure the parent group is live; create the bone tube and
      its joint sphere when the bone is missing or disposed; set both meshes'
      visibility and enabled flags; record radii and targets. */
  function ApplyPath(sc: Scene, c: PathCall, o: Options): (r: Scene)
    requires WellFormed(c) && JointClosed(sc.meshes)
    ensures JointClosed(r.meshes)
    ensures r.meshes.Keys == sc.meshes.Keys + {c.parent, c.desc, JointName(c.desc)}
  {
    KeysApart(c.desc, c.parent);
    var m2 := CreatePair(EnsureGroup(sc.meshes, c.parent), c, sc.radius);
    Scene(ShowPair(m2, c, o), sc.newPos[JointName(c.desc) := c.path[0]], sc.newPath[c.desc := c.path],
          sc.radius[c.desc := c.diameter / 2.0][JointName(c.desc) := c.diameter])
  }

  /** Create the bone tube and its joint sphere under the parent when the bone
      is missing or disposed. */
  function CreatePair(m: Meshes, c: PathCall, radius: map<string, real>): Meshes
  {
    if Live(m, c.desc) then m
    else m[c.desc := Fresh(Tube(c.path, Constant(Get(radius, c.desc))), Some(c.parent))]
          [JointName(c.desc) := Fresh(Sphere(c.diameter), Some(c.parent))]
  }

  /** Set the visibility of the bone and its joint, and enable each when its
      kind is rendered and the visibility is positive. */
  function ShowPair(m: Meshes, c: PathCall, o: Options): Meshes
    requires c.desc in m && JointName(c.desc) in m
  {
    m[c.desc := m[c.desc].(visibility := c.visibility, enabled := o.renderBones && c.visibility > 0.0)]
     [JointName(c.desc) := m[JointName(c.desc)].(visibility := c.visibility, enabled := o.renderJoints && c.visibility > 0.0)]
  }

  /** What one `drawPath` call promises. The bone and its joint are created
      together, and only when the bone is missing or disposed; otherwise both
      keep their geometry and parent. Visibility and enabled flags, radii and
      targets are written every time. No other key changes. */
  lemma ApplyPathEffect(sc: Scene, c: PathCall, o: Options, k: string)
    requires WellFormed(c) && JointClosed(sc.meshes)
    ensures var r := ApplyPath(sc, c, o); var j := JointName(c.desc);
      && Live(r.meshes, c.parent) && Live(r.meshes, c.desc) && Live(r.meshes, j)
      && (!Live(sc.meshes, c.desc) ==>
            r.meshes[c.desc].shape == Tube(c.path, Constant(Get(sc.radius, c.desc))) && r.meshes[c.desc].parent == Some(c.parent)
            && r.meshes[j].shape == Sphere(c.diameter) && r.meshes[j].parent == Some(c.parent)
            && r.meshes[j].scaling == Some(Unit))
      && (Live(sc.meshes, c.desc) ==>
            r.meshes[c.desc] == sc.meshes[c.desc].(visibility := c.visibility, enabled := r.meshes[c.desc].enabled)
            && r.meshes[j] == sc.meshes[j].(visibility := c.visibility, enabled := r.meshes[j].enabled))
      && r.meshes[c.desc].visibility == c.visibility && r.meshes[j].visibility == c.visibility
      && r.meshes[c.desc].enabled == (o.renderBones && c.visibility > 0.0)
      && r.meshes[j].enabled == (o.renderJoints && c.visibility > 0.0)
      && r.radius[c.desc] == c.diameter / 2.0 && r.radius[j] == c.diameter
      && r.newPath[c.desc] == c.path && r.newPos[j] == c.path[0]
      && (k != c.parent && k != c.desc && k != j ==>
            Get(r.meshes, k) == Get(sc.meshes, k) && Get(r.newPos, k) == Get(sc.newPos, k)
            && Get(r.newPath, k) == Get(sc.newPath, k) && Get(r.radius, k) == Get(sc.radius, k))
  {
    KeysApart(c.desc, c.parent);
  }

  predicate AllWellFormed(calls: seq<PathCall>)
  {
    forall i :: 0 <= i < |calls| ==> WellFormed(calls[i])
  }

  /** A sequence of `drawPath` calls, in order. */
  function ApplyPaths(sc: Scene, calls: seq<PathCall>, o: Options): (r: Scene)
    requires AllWellFormed(calls) && JointClosed(sc.meshes)
    ensures JointClosed(r.meshes) && sc.meshes.Keys <= r.meshes.Keys
  {
    if |calls| == 0 then sc
    else ApplyPath(ApplyPaths(sc, calls[..|calls| - 1], o), calls[|calls| - 1], o)
  }

  /** Two more calls after a list: the step each builder loop iteration takes. */
  lemma ApplyPathsTwo(sc: Scene, prev: seq<PathCall>, c1: PathCall, c2: PathCall, o: Options)
    requires AllWellFormed(prev) && WellFormed(c1) && WellFormed(c2) && JointClosed(sc.meshes)
    ensures AllWellFormed(prev + [c1, c2])
    ensures ApplyPaths(sc, prev + [c1, c2], o) == ApplyPath(ApplyPath(ApplyPaths(sc, prev, o), c1, o), c2, o)
  {
    AllWellFormedAppend(prev, [c1, c2]);
    var l := prev + [c1, c2];
    assert l[..|l| - 1] == prev + [c1];
    assert (prev + [c1])[..|prev|] == prev;
  }

  /** Disposing every mesh keeps the joint rule: nothing is live any more. */
  lemma DisposeAllClosed(m: Meshes)
    requires JointClosed(m)
    ensures JointClosed(DisposeAll(m)) && DisposeAll(m).Keys == m.Keys
  {
  }

  /** The last call in the list drawing bone `k`, if any. */
  function LastCall(calls: seq<PathCall>, k: string): (r: Option<PathCall>)
    ensures r.Some? ==> r.value.desc == k
  {
    if |calls| == 0 then None
    else if calls[|calls| - 1].desc == k then Some(calls[|calls| - 1])
    else LastCall(calls[..|calls| - 1], k)
  }

  lemma {:induction false} LastCallIn(calls: seq<PathCall>, k: string)
    ensures LastCall(calls, k).Some? ==> LastCall(calls, k).value in calls
  {
    if |calls| > 0 && calls[|calls| - 1].desc != k {
      LastCallIn(calls[..|calls| - 1], k);
    }
  }

  /** Whether some call touches key `k` at all, as parent, bone or joint. */
  predicate Touches(calls: seq<PathCall>, k: string)
  {
    exists i :: 0 <= i < |calls| && (calls[i].parent == k || calls[i].desc == k || JointName(calls[i].desc) == k)
  }

  /** After a list of calls, the targets and radii of a bone and its joint are
      those of the last call that drew that bone: later frames and later
      connections overwrite earlier ones, key by key. */
  lemma {:induction false} ApplyPathsTargets(sc: Scene, calls: seq<PathCall>, o: Options, k: string)
    requires AllWellFormed(calls) && JointClosed(sc.meshes) && Sided(k) && LastCall(calls, k).Some?
    ensures var r := ApplyPaths(sc, calls, o); var c := LastCall(calls, k).value;
      && k in r.newPath && r.newPath[k] == c.path
      && |c.path| == 2 && JointName(k) in r.newPos && r.newPos[JointName(k)] == c.path[0]
      && k in r.radius && r.radius[k] == c.diameter / 2.0
      && JointName(k) in r.radius && r.radius[JointName(k)] == c.diameter
      && Live(r.meshes, k) && r.meshes[k].visibility == c.visibility
  {
    var n := |calls| - 1;
    var prev := ApplyPaths(sc, calls[..n], o);
    ApplyPathEffect(prev, calls[n], o, k);
    ApplyPathEffect(prev, calls[n], o, JointName(k));
    if calls[n].desc != k {
      ApplyPathsTargets(sc, calls[..n], o, k);
      KeysApart(calls[n].desc, calls[n].parent);
      KeysApart(k, calls[n].parent);
      if JointName(k) == JointName(calls[n].desc) {
        JointNameInjective(k, calls[n].desc);
      }
    }
  }

  /** Keys no call touches keep their mesh, targets and radius. */
  lemma {:induction false} ApplyPathsUntouched(sc: Scene, calls: seq<PathCall>, o: Options, k: string)
    requires AllWellFormed(calls) && JointClosed(sc.meshes) && !Touches(calls, k)
    ensures var r := ApplyPaths(sc, calls, o);
      Get(r.meshes, k) == Get(sc.meshes, k) && Get(r.newPos, k) == Get(sc.newPos, k)
      && Get(r.newPath, k) == Get(sc.newPath, k) && Get(r.radius, k) == Get(sc.radius, k)
  {
    if |calls| > 0 {
      var n := |calls| - 1;
      assert !Touches(calls[..n], k) by {
        forall i | 0 <= i < n ensures calls[..n][i] == calls[i] { }
      }
      ApplyPathsUntouched(sc, calls[..n], o, k);
      ApplyPathEffect(ApplyPaths(sc, calls[..n], o), calls[n], o, k);
    }
  }

  /** A later call list that redraws bone `k` decides its last call. */
  lemma {:induction false} LastCallAppend(a: seq<PathCall>, b: seq<PathCall>, k: string)
    ensures LastCall(a + b, k) == if LastCall(b, k).Some? then LastCall(b, k) else LastCall(a, k)
  {
    if |b| == 0 {
      assert a + b == a;
    } else {
      var n := |b| - 1;
      assert (a + b)[..|a + b| - 1] == a + b[..n];
      assert (a + b)[|a + b| - 1] == b[n];
      LastCallAppend(a, b[..n], k);
    }
  }

  // ---------------------------------------------------------------- pose

  /** `poseName[i]` inside a template string: `"undefined"` when the name
      table has no entry `i`. */
  function PoseKey(names: seq<string>, i: nat): string
  {
    if i < |names| then names[i] else "undefined"
  }

  /** The calls `createPose` makes for connection `i`: none when either
      endpoint landmark is missing; otherwise the `-l` bone from the first
      endpoint to the second and the `-r` bone back, both with the smaller of
      the two visibility scores and the base radius as diameter. */
  function ConnectionCalls(result: LandmarkList, names: seq<string>, conns: seq<(nat, nat)>, i: nat, o: Options): (r: seq<PathCall>)
    requires i < |conns|
    ensures r == [] || |r| == 2
  {
    var v0 := At(result, conns[i].0);
    var v1 := At(result, conns[i].1);
    if v0.None? || v1.None? then []
    else
      var vis := MinReal(Visibility(v0), Visibility(v1));
      [PathCall("pose", PoseKey(names, i) + "-l", [Vec(v0, o), Vec(v1, o)], vis, o.baseRadius),
       PathCall("pose", PoseKey(names, i) + "-r", [Vec(v1, o), Vec(v0, o)], vis, o.baseRadius)]
  }

  /** The calls of the first `n` iterations of the loop of `createPose`. */
  function PoseCalls(result: LandmarkList, names: seq<string>, conns: seq<(nat, nat)>, o: Options, n: nat): (r: seq<PathCall>)
    requires n <= |conns|
    ensures AllWellFormed(r) && |r| <= 2 * n
  {
    if n == 0 then []
    else
      var prev := PoseCalls(result, names, conns, o, n - 1);
      var cur := ConnectionCalls(result, names, conns, n - 1, o);
      assert forall j :: 0 <= j < |cur| ==> WellFormed(cur[j]) by {
        if |cur| == 2 {
          var key := PoseKey(names, n - 1);
          assert (key + "-l")[|key + "-l"| - 2] == '-' && (key + "-r")[|key + "-r"| - 2] == '-';
        }
      }
      assert forall j :: 0 <= j < |prev + cur| ==> WellFormed((prev + cur)[j]) by {
        forall j | 0 <= j < |prev + cur| ensures WellFormed((prev + cur)[j]) {
          if j < |prev| { assert (prev + cur)[j] == prev[j]; } else { assert (prev + cur)[j] == cur[j - |prev|]; }
        }
      }
      prev + cur
  }

  /** Connection `i` has both endpoint landmarks. */
  predicate Present(result: LandmarkList, conn: (nat, nat))
  {
    At(result, conn.0).Some? && At(result, conn.1).Some?
  }

  /** Call `c` is one of the two that connection `i` yields. */
  ghost predicate FromConnection(c: PathCall, result: LandmarkList, names: seq<string>, conns: seq<(nat, nat)>, o: Options, n: nat)
    requires n <= |conns|
  {
    exists i :: 0 <= i < n && Present(result, conns[i]) && c in ConnectionCalls(result, names, conns, i, o)
  }

  /** Nothing is drawn for a connection with a missing endpoint: every call
      `createPose` makes comes from a connection whose endpoints are both present. */
  lemma {:induction false} PoseCallsSound(result: LandmarkList, names: seq<string>, conns: seq<(nat, nat)>, o: Options, n: nat)
    requires n <= |conns|
    ensures forall c :: c in PoseCalls(result, names, conns, o, n) ==> FromConnection(c, result, names, conns, o, n)
  {
    if n > 0 {
      PoseCallsSound(result, names, conns, o, n - 1);
      var prev := PoseCalls(result, names, conns, o, n - 1);
      var cur := ConnectionCalls(result, names, conns, n - 1, o);
      forall c | c in prev + cur ensures FromConnection(c, result, names, conns, o, n) {
        if c in prev {
          assert FromConnection(c, result, names, conns, o, n - 1);
          var i :| 0 <= i < n - 1 && Present(result, conns[i]) && c in ConnectionCalls(result, names, conns, i, o);
          assert 0 <= i < n;
        } else {
          assert c in cur && Present(result, conns[n - 1]);
        }
      }
    }
  }

  /** Every connection with both endpoints present is drawn, in both directions. */
  lemma {:induction false} PoseCallsComplete(result: LandmarkList, names: seq<string>, conns: seq<(nat, nat)>, o: Options, n: nat, i: nat)
    requires i < n <= |conns| && Present(result, conns[i])
    ensures var v0 := At(result, conns[i].0); var v1 := At(result, conns[i].1);
      var vis := MinReal(Visibility(v0), Visibility(v1));
      && PathCall("pose", PoseKey(names, i) + "-l", [Vec(v0, o), Vec(v1, o)], vis, o.baseRadius) in PoseCalls(result, names, conns, o, n)
      && PathCall("pose", PoseKey(names, i) + "-r", [Vec(v1, o), Vec(v0, o)], vis, o.baseRadius) in PoseCalls(result, names, conns, o, n)
  {
    var prev := PoseCalls(result, names, conns, o, n - 1);
    var cur := ConnectionCalls(result, names, conns, n - 1, o);
    if i < n - 1 {
      PoseCallsComplete(result, names, conns, o, n - 1, i);
    }
    assert PoseCalls(result, names, conns, o, n) == prev + cur;
  }

  lemma SuffixedKeysApart(a: string, b: string, x: char, y: char)
    requires a + ['-', x] == b + ['-', y]
    ensures a == b && x == y
  {
    assert |a| == |b|;
    assert a == (a + ['-', x])[..|a|] && b == (b + ['-', y])[..|b|];
    assert x == (a + ['-', x])[|a| + 1];
  }

  lemma SuffixSided(stem: string)
    ensures Sided(stem + "-l") && Sided(stem + "-r")
  {
    var l, r := stem + "-l", stem + "-r";
    assert l[|l| - 2] == '-' && l[|l| - 1] == 'l' && r[|r| - 2] == '-' && r[|r| - 1] == 'r';
  }

  /** The `-l` call connection `i` makes, when it makes one. */
  function LeftCall(result: LandmarkList, names: seq<string>, conns: seq<(nat, nat)>, i: nat, o: Options): PathCall
    requires i < |conns|
  {
    var v0 := At(result, conns[i].0);
    var v1 := At(result, conns[i].1);
    PathCall("pose", PoseKey(names, i) + "-l", [Vec(v0, o), Vec(v1, o)], MinReal(Visibility(v0), Visibility(v1)), o.baseRadius)
  }

  /** The `-r` call connection `i` makes, when it makes one: the same bone
      drawn from the second endpoint back to the first. */
  function RightCall(result: LandmarkList, names: seq<string>, conns: seq<(nat, nat)>, i: nat, o: Options): PathCall
    requires i < |conns|
  {
    var v0 := At(result, conns[i].0);
    var v1 := At(result, conns[i].1);
    PathCall("pose", PoseKey(names, i) + "-r", [Vec(v1, o), Vec(v0, o)], MinReal(Visibility(v0), Visibility(v1)), o.baseRadius)
  }

  /** The key of the `-r` bone of connection `i` when `right`, of its `-l` bone otherwise. */
  function BoneKey(names: seq<string>, i: nat, right: bool): string
  {
    PoseKey(names, i) + (if right then "-r" else "-l")
  }

  /** The call connection `i` makes for the bone `BoneKey(names, i, right)`. */
  function BoneCall(result: LandmarkList, names: seq<string>, conns: seq<(nat, nat)>, i: nat, o: Options, right: bool): PathCall
    requires i < |conns|
  {
    if right then RightCall(result, names, conns, i, o) else LeftCall(result, names, conns, i, o)
  }

  /** Within the calls of connection `j`, the last one drawing either bone of connection `i`. */
  lemma ConnectionLastCall(result: LandmarkList, names: seq<string>, conns: seq<(nat, nat)>, o: Options, i: nat, j: nat, right: bool)
    requires i < |conns| && j < |conns| && (i != j ==> PoseKey(names, i) != PoseKey(names, j))
    ensures LastCall(ConnectionCalls(result, names, conns, j, o), BoneKey(names, i, right))
      == if i == j && Present(result, conns[i]) then Some(BoneCall(result, names, conns, i, o, right)) else None
  {
    var cur := ConnectionCalls(result, names, conns, j, o);
    var key := BoneKey(names, i, right);
    var x := if right then 'r' else 'l';
    assert key == PoseKey(names, i) + ['-', x];
    if |cur| == 2 {
      var other := PoseKey(names, j);
      assert cur[..1] == [cur[0]] && cur[..1][..0] == [];
      if right && i == j {
        assert cur[1] == RightCall(result, names, conns, i, o);
      } else {
        assert cur[1].desc != key by {
          if cur[1].desc == key { SuffixedKeysApart(other, PoseKey(names, i), 'r', x); }
        }
        assert LastCall(cur, key) == LastCall(cur[..1], key);
        if i == j {
          assert cur[0] == LeftCall(result, names, conns, i, o);
        } else {
          assert cur[0].desc != key by {
            if cur[0].desc == key { SuffixedKeysApart(other, PoseKey(names, i), 'l', x); }
          }
          assert LastCall(cur[..1], key) == LastCall(cur[..1][..0], key);
        }
      }
    }
  }

  /** Connection `k` either is connection `i`, whose call for the bone it
      makes, or leaves the last call for that bone of connection `i` as it was. */
  lemma PoseLastCallStep(result: LandmarkList, names: seq<string>, conns: seq<(nat, nat)>, o: Options, k: nat, i: nat, right: bool)
    requires i <= k < |conns| && Present(result, conns[i]) && (i != k ==> PoseKey(names, i) != PoseKey(names, k))
    requires i < k ==> LastCall(PoseCalls(result, names, conns, o, k), BoneKey(names, i, right)) == Some(BoneCall(result, names, conns, i, o, right))
    ensures LastCall(PoseCalls(result, names, conns, o, k + 1), BoneKey(names, i, right)) == Some(BoneCall(result, names, conns, i, o, right))
  {
    var prev := PoseCalls(result, names, conns, o, k);
    var cur := ConnectionCalls(result, names, conns, k, o);
    assert PoseCalls(result, names, conns, o, k + 1) == prev + cur;
    LastCallAppend(prev, cur, BoneKey(names, i, right));
    ConnectionLastCall(result, names, conns, o, i, k, right);
  }

  /** With distinct connection names, each bone of a present connection is
      last drawn by that connection's own call for it. */
  lemma PoseLastCall(result: LandmarkList, names: seq<string>, conns: seq<(nat, nat)>, o: Options, n: nat, i: nat, right: bool)
    requires i < n <= |conns| && Present(result, conns[i])
    requires forall a, b :: 0 <= a < b < n ==> PoseKey(names, a) != PoseKey(names, b)
    ensures LastCall(PoseCalls(result, names, conns, o, n), BoneKey(names, i, right)) == Some(BoneCall(result, names, conns, i, o, right))
  {
    for k := i to n
      invariant i < k ==> LastCall(PoseCalls(result, names, conns, o, k), BoneKey(names, i, right)) == Some(BoneCall(result, names, conns, i, o, right))
    {
      assert i != k ==> PoseKey(names, i) != PoseKey(names, k);
      PoseLastCallStep(result, names, conns, o, k, i, right);
    }
  }

  /** Scene `r` shows the bone of call `c`: live, aimed along its path, with
      its visibility score and half the base radius. */
  predicate BoneDrawn(r: Scene, c: PathCall, o: Options)
  {
    && c.desc in r.newPath && r.newPath[c.desc] == c.path
    && Live(r.meshes, c.desc) && r.meshes[c.desc].visibility == c.visibility
    && c.desc in r.radius && r.radius[c.desc] == o.baseRadius / 2.0
  }

  /** End to end: after the pose calls, both bones of every present
      connection are live, the `-l` one aimed from the first endpoint to the
      second and the `-r` one back, each with the smaller visibility score
      and half the base radius. */
  lemma CreatePoseDrawsConnection(sc: Scene, result: LandmarkList, names: seq<string>, conns: seq<(nat, nat)>, o: Options, i: nat)
    requires JointClosed(sc.meshes) && i < |conns| && Present(result, conns[i])
    requires forall a, b :: 0 <= a < b < |conns| ==> PoseKey(names, a) != PoseKey(names, b)
    ensures var r := ApplyPaths(sc, PoseCalls(result, names, conns, o, |conns|), o);
      BoneDrawn(r, LeftCall(result, names, conns, i, o), o) && BoneDrawn(r, RightCall(result, names, conns, i, o), o)
  {
    var calls := PoseCalls(result, names, conns, o, |conns|);
    SuffixSided(PoseKey(names, i));
    PoseLastCall(result, names, conns, o, |conns|, i, false);
    ApplyPathsTargets(sc, calls, o, BoneKey(names, i, false));
    PoseLastCall(result, names, conns, o, |conns|, i, true);
    ApplyPathsTargets(sc, calls, o, BoneKey(names, i, true));
  }

  // ---------------------------------------------------------------- hands

  datatype Side = Left | Right

  /** `hand-${which}`, the parent group of one hand. */
  function HandGroup(side: Side): string
  {
    match side
    case Left => "hand-left"
    case Right => "hand-right"
  }

  function Digit(d: nat): char
    requires d < 10
  {
    "0123456789"[d]
  }

  /** Decimal rendering of a connection index. */
  function NatString(n: nat): (r: string)
    ensures |r| > 0
  {
    if n < 10 then [Digit(n)] else NatString(n / 10) + [Digit(n % 10)]
  }

  /** `hand-${i}`, the key stem `createHand` uses: the side is not part of it. */
  function HandKey(i: nat): string
  {
    "hand-" + NatString(i)
  }

  /** `hand-${which}-${i}`: a key stem that names the side as well. */
  function SidedHandKey(side: Side, i: nat): string
  {
    HandGroup(side) + "-" + NatString(i)
  }

  /** The key stem of connection `i`: `hand-${i}` as written, or with the side
      in it when `sided` holds. */
  function Stem(side: Side, i: nat, sided: bool): string
  {
    if sided then SidedHandKey(side, i) else HandKey(i)
  }

  /** The two calls `createHand` makes for connection `i` under key stem
      `stem`: never skipped; visible (1) only when both endpoints are present
      and hands are rendered, else 0; a quarter of the base radius as diameter.
      Missing endpoints project as all-zero landmarks. */
  function HandConnectionCalls(result: LandmarkList, side: Side, conn: (nat, nat), stem: string, o: Options): (r: seq<PathCall>)
    ensures |r| == 2 && AllWellFormed(r)
  {
    var v0 := At(result, conn.0);
    var v1 := At(result, conn.1);
    var vis := if v0.Some? && v1.Some? && o.renderHands then 1.0 else 0.0;
    assert (stem + "-l")[|stem + "-l"| - 2] == '-' && (stem + "-r")[|stem + "-r"| - 2] == '-';
    [PathCall(HandGroup(side), stem + "-l", [Vec(v0, o), Vec(v1, o)], vis, o.baseRadius / 4.0),
     PathCall(HandGroup(side), stem + "-r", [Vec(v1, o), Vec(v0, o)], vis, o.baseRadius / 4.0)]
  }

  lemma AllWellFormedAppend(a: seq<PathCall>, b: seq<PathCall>)
    requires AllWellFormed(a) && AllWellFormed(b)
    ensures AllWellFormed(a + b)
  {
    forall j | 0 <= j < |a + b| ensures WellFormed((a + b)[j]) {
      if j < |a| { assert (a + b)[j] == a[j]; } else { assert (a + b)[j] == b[j - |a|]; }
    }
  }

  /** The calls of the first `n` iterations of the loop of `createHand`, with
      key stem `Stem(side, i, sided)` for connection `i`. As written `sided` is false. */
  function HandCalls(result: LandmarkList, side: Side, conns: seq<(nat, nat)>, o: Options, n: nat, sided: bool): (r: seq<PathCall>)
    requires n <= |conns|
    ensures AllWellFormed(r) && |r| == 2 * n
  {
    if n == 0 then []
    else
      var prev := HandCalls(result, side, conns, o, n - 1, sided);
      var cur := HandConnectionCalls(result, side, conns[n - 1], Stem(side, n - 1, sided), o);
      AllWellFormedAppend(prev, cur);
      prev + cur
  }

  /** `createHand` never skips a connection: calls `2i` and `2i + 1` are the
      `-l` and `-r` bones of connection `i`, visible exactly when both endpoints
      are present and hands are rendered. */
  lemma {:induction false} HandCallsAt(result: LandmarkList, side: Side, conns: seq<(nat, nat)>, o: Options, n: nat, sided: bool, i: nat)
    requires i < n <= |conns|
    ensures var calls := HandCalls(result, side, conns, o, n, sided);
      var v0 := At(result, conns[i].0); var v1 := At(result, conns[i].1);
      var vis := if Present(result, conns[i]) && o.renderHands then 1.0 else 0.0;
      && calls[2 * i] == PathCall(HandGroup(side), Stem(side, i, sided) + "-l", [Vec(v0, o), Vec(v1, o)], vis, o.baseRadius / 4.0)
      && calls[2 * i + 1] == PathCall(HandGroup(side), Stem(side, i, sided) + "-r", [Vec(v1, o), Vec(v0, o)], vis, o.baseRadius / 4.0)
  {
    var prev := HandCalls(result, side, conns, o, n - 1, sided);
    var cur := HandConnectionCalls(result, side, conns[n - 1], Stem(side, n - 1, sided), o);
    assert HandCalls(result, side, conns, o, n, sided) == prev + cur;
    if i < n - 1 {
      HandCallsAt(result, side, conns, o, n - 1, sided, i);
    }
  }

  /** A hand the detector did not find still redraws every bone: invisible,
      collapsed onto the projection of an all-zero landmark. */
  lemma AbsentHandCollapses(side: Side, conns: seq<(nat, nat)>, o: Options, sided: bool, j: nat)
    requires j < 2 * |conns|
    ensures var c := HandCalls(None, side, conns, o, |conns|, sided)[j];
      c.visibility == 0.0 && c.path == [Vec(None, o), Vec(None, o)] && c.parent == HandGroup(side)
  {
    var i := j / 2;
    assert j == 2 * i || j == 2 * i + 1;
    HandCallsAt(None, side, conns, o, |conns|, sided, i);
  }

  /** Two call lists drawing the same bones in the same order agree on which bones they draw. */
  lemma {:induction false} LastCallSameDescs(a: seq<PathCall>, b: seq<PathCall>, k: string)
    requires |a| == |b| && forall j :: 0 <= j < |a| ==> a[j].desc == b[j].desc
    ensures LastCall(a, k).Some? <==> LastCall(b, k).Some?
  {
    if |a| > 0 {
      var n := |a| - 1;
      LastCallSameDescs(a[..n], b[..n], k);
    }
  }

  /** As written, both hands use the same bone keys `hand-${i}-l` and `hand-${i}-r`. */
  lemma HandKeysShared(left: LandmarkList, right: LandmarkList, conns: seq<(nat, nat)>, o: Options, j: nat)
    requires j < 2 * |conns|
    ensures HandCalls(left, Left, conns, o, |conns|, false)[j].desc == HandCalls(right, Right, conns, o, |conns|, false)[j].desc
  {
    var i := j / 2;
    assert j == 2 * i || j == 2 * i + 1;
    HandCallsAt(left, Left, conns, o, |conns|, false, i);
    HandCallsAt(right, Right, conns, o, |conns|, false, i);
  }

  /** As written, every bone the left hand draws is drawn again by the right hand. */
  lemma RightRedrawsLeft(left: LandmarkList, right: LandmarkList, conns: seq<(nat, nat)>, o: Options, k: string)
    requires LastCall(HandCalls(left, Left, conns, o, |conns|, false), k).Some?
    ensures Sided(k) && LastCall(HandCalls(right, Right, conns, o, |conns|, false), k).Some?
  {
    var l := HandCalls(left, Left, conns, o, |conns|, false);
    var rc := HandCalls(right, Right, conns, o, |conns|, false);
    forall j | 0 <= j < |l| ensures l[j].desc == rc[j].desc {
      HandKeysShared(left, right, conns, o, j);
    }
    LastCallSameDescs(l, rc, k);
    LastCallIn(l, k);
    var i :| 0 <= i < |l| && l[i] == LastCall(l, k).value;
    assert Sided(k) by { assert WellFormed(l[i]); }
  }

  /** Every bone a hand draws is keyed under `hand-`, so none is one of the
      neck's bones `line-l` and `line-r`. */
  lemma HandBoneKey(result: LandmarkList, side: Side, conns: seq<(nat, nat)>, o: Options, sided: bool, k: string)
    requires LastCall(HandCalls(result, side, conns, o, |conns|, sided), k).Some?
    ensures Sided(k) && |k| >= 5 && k[..5] == "hand-"
    ensures k != "line-l" && k != "line-r"
  {
    var calls := HandCalls(result, side, conns, o, |conns|, sided);
    LastCallIn(calls, k);
    var j :| 0 <= j < |calls| && calls[j] == LastCall(calls, k).value;
    HandCallKey(result, side, conns, o, sided, j);
    assert WellFormed(calls[j]);
    assert k[0] == 'h';
  }

  lemma HandCallKey(result: LandmarkList, side: Side, conns: seq<(nat, nat)>, o: Options, sided: bool, j: nat)
    requires j < 2 * |conns|
    ensures var d := HandCalls(result, side, conns, o, |conns|, sided)[j].desc; |d| >= 5 && d[..5] == "hand-"
  {
    var i := j / 2;
    var suffix := if j == 2 * i then "-l" else "-r";
    assert HandCalls(result, side, conns, o, |conns|, sided)[j].desc == Stem(side, i, sided) + suffix by {
      assert j == 2 * i || j == 2 * i + 1;
      HandCallsAt(result, side, conns, o, |conns|, sided, i);
    }
    if sided { StemPrefixed(side, i, suffix); } else { HandKeyPrefixed(i, suffix); }
  }

  lemma HandKeyPrefixed(i: nat, suffix: string)
    ensures var d := HandKey(i) + suffix; |d| > 5 && d[..5] == "hand-"
  {
    var h := "hand-";
    var d := h + NatString(i) + suffix;
    assert d[..|h|] == h;
  }

  /** As written, whatever the left hand drew is overwritten by the right hand
      in the same frame: every left bone ends with the right hand's path and
      visibility, and, when no right hand was detected, is hidden and
      collapsed whatever the left hand showed. */
  lemma LeftHandOverwritten(sc: Scene, left: LandmarkList, right: LandmarkList, conns: seq<(nat, nat)>, o: Options, k: string)
    requires JointClosed(sc.meshes)
    requires LastCall(HandCalls(left, Left, conns, o, |conns|, false), k).Some?
    ensures var l := HandCalls(left, Left, conns, o, |conns|, false);
      var rc := HandCalls(right, Right, conns, o, |conns|, false);
      var r := ApplyPaths(ApplyPaths(sc, l, o), rc, o);
      && LastCall(rc, k).Some? && k in r.newPath && Live(r.meshes, k)
      && r.newPath[k] == LastCall(rc, k).value.path && r.meshes[k].visibility == LastCall(rc, k).value.visibility
      && (right.None? ==> r.meshes[k].visibility == 0.0 && r.newPath[k] == [Vec(None, o), Vec(None, o)])
  {
    var l := HandCalls(left, Left, conns, o, |conns|, false);
    var rc := HandCalls(right, Right, conns, o, |conns|, false);
    RightRedrawsLeft(left, right, conns, o, k);
    ApplyPathsTargets(ApplyPaths(sc, l, o), rc, o, k);
    if right.None? {
      AbsentHandLastCall(Right, conns, o, false, k);
    }
  }

  /** Whichever bone a hand the detector did not find draws last is hidden
      and collapsed. */
  lemma AbsentHandLastCall(side: Side, conns: seq<(nat, nat)>, o: Options, sided: bool, k: string)
    requires LastCall(HandCalls(None, side, conns, o, |conns|, sided), k).Some?
    ensures var c := LastCall(HandCalls(None, side, conns, o, |conns|, sided), k).value;
      c.visibility == 0.0 && c.path == [Vec(None, o), Vec(None, o)]
  {
    var calls := HandCalls(None, side, conns, o, |conns|, sided);
    LastCallIn(calls, k);
    var j :| 0 <= j < |calls| && calls[j] == LastCall(calls, k).value;
    AbsentHandCollapses(side, conns, o, sided, j);
  }

  /** With the side in the stem, every bone key of one hand starts with its
      group name and a dash. */
  lemma SidedCallsPrefixed(result: LandmarkList, side: Side, conns: seq<(nat, nat)>, o: Options, j: nat)
    requires j < 2 * |conns|
    ensures var d := HandCalls(result, side, conns, o, |conns|, true)[j].desc;
      |d| > 10 && d[..5] == "hand-" && d[5] == (if side == Left then 'l' else 'r')
  {
    var i := j / 2;
    assert j == 2 * i || j == 2 * i + 1;
    HandCallsAt(result, side, conns, o, |conns|, true, i);
    var d := HandCalls(result, side, conns, o, |conns|, true)[j].desc;
    StemPrefixed(side, i, if j == 2 * i then "-l" else "-r");
  }

  lemma StemPrefixed(side: Side, i: nat, suffix: string)
    ensures var d := SidedHandKey(side, i) + suffix;
      |d| > 10 && d[..5] == "hand-" && d[5] == (if side == Left then 'l' else 'r')
  {
    var g := HandGroup(side);
    var d := g + "-" + NatString(i) + suffix;
    assert d[..|g|] == g;
    assert d[..5] == g[..5];
  }

  /** With sided stems, the right hand's calls touch no bone key of the left hand. */
  lemma RightMissesLeft(left: LandmarkList, right: LandmarkList, conns: seq<(nat, nat)>, o: Options, k: string)
    requires LastCall(HandCalls(left, Left, conns, o, |conns|, true), k).Some?
    ensures !Touches(HandCalls(right, Right, conns, o, |conns|, true), k)
  {
    var l := HandCalls(left, Left, conns, o, |conns|, true);
    var rc := HandCalls(right, Right, conns, o, |conns|, true);
    LastCallIn(l, k);
    var i :| 0 <= i < |l| && l[i] == LastCall(l, k).value;
    SidedCallsPrefixed(left, Left, conns, o, i);
    assert k[5] == 'l' && WellFormed(l[i]);
    forall j | 0 <= j < |rc| ensures rc[j].parent != k && rc[j].desc != k && JointName(rc[j].desc) != k {
      SidedCallsPrefixed(right, Right, conns, o, j);
      KeysApart(k, rc[j].parent);
      assert JointName(rc[j].desc)[5] == 'r';
    }
  }

  /** With sided stems, the left hand's bones keep what the left hand drew. */
  lemma LeftHandKept(sc: Scene, left: LandmarkList, right: LandmarkList, conns: seq<(nat, nat)>, o: Options, k: string)
    requires JointClosed(sc.meshes)
    requires LastCall(HandCalls(left, Left, conns, o, |conns|, true), k).Some?
    ensures var l := HandCalls(left, Left, conns, o, |conns|, true);
      var rc := HandCalls(right, Right, conns, o, |conns|, true);
      var r := ApplyPaths(ApplyPaths(sc, l, o), rc, o);
      && k in r.newPath && Live(r.meshes, k)
      && r.newPath[k] == LastCall(l, k).value.path && r.meshes[k].visibility == LastCall(l, k).value.visibility
  {
    var l := HandCalls(left, Left, conns, o, |conns|, true);
    var rc := HandCalls(right, Right, conns, o, |conns|, true);
    LastCallIn(l, k);
    var i :| 0 <= i < |l| && l[i] == LastCall(l, k).value;
    assert WellFormed(l[i]);
    var mid := ApplyPaths(sc, l, o);
    ApplyPathsTargets(sc, l, o, k);
    RightMissesLeft(left, right, conns, o, k);
    ApplyPathsUntouched(mid, rc, o, k);
  }
}
