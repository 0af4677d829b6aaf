/** The temporal store (`class Data` in src/draw3d.ts): per-key smoothed values,
    the latest targets, per-key radii, and the once-per-tick interpolate and
    commit passes. */
module Temporal {
  import opened Geometry
  import opened Registry

  /** The value a key starts from: its current value, or a copy of its target
      when the key is seen for the first time. */
  function SeedPos(pos: map<string, Vec3>, target: map<string, Vec3>, k: string): Vec3
    requires k in pos || k in target
  {
    if k in pos then pos[k] else target[k]
  }

  /** One interpolation step over the positions: every key with a target moves
      a fraction `f` of the way from its (possibly seeded) value towards it;
      keys without a target keep their value. */
  function StepPos(pos: map<string, Vec3>, target: map<string, Vec3>, f: real): map<string, Vec3>
  {
    map k | k in pos.Keys + target.Keys ::
      if k in target then Lerp(SeedPos(pos, target, k), target[k], f) else pos[k]
  }

  /** Per-point lerp of a path towards its target path; points past the end of
      the target are left alone. */
  function LerpPath(cur: seq<Vec3>, target: seq<Vec3>, f: real): (r: seq<Vec3>)
    requires |target| <= |cur|
    ensures |r| == |cur|
  {
    seq(|cur|, i requires 0 <= i < |cur| => if i < |target| then Lerp(cur[i], target[i], f) else cur[i])
  }

  /** A path never read beyond its end: for each key holding both a current and
      a target path, the target is no longer than the current one. */
  ghost predicate Aligned(path: map<string, seq<Vec3>>, target: map<string, seq<Vec3>>)
  {
    forall k :: k in path && k in target ==> |target[k]| <= |path[k]|
  }

  function SeedPath(path: map<string, seq<Vec3>>, target: map<string, seq<Vec3>>, k: string): seq<Vec3>
    requires k in path || k in target
  {
    if k in path then path[k] else target[k]
  }

  /** One interpolation step over the paths, per point. */
  function StepPaths(path: map<string, seq<Vec3>>, target: map<string, seq<Vec3>>, f: real): map<string, seq<Vec3>>
    requires Aligned(path, target)
  {
    map k | k in path.Keys + target.Keys ::
      if k in target then LerpPath(SeedPath(path, target, k), target[k], f) else path[k]
  }

  /** A first-seen key ends exactly on its target: seeding with a copy means the
      lerp that follows has no distance to cover. */
  lemma FirstSeenSnaps(pos: map<string, Vec3>, target: map<string, Vec3>, f: real, k: string)
    requires k in target && k !in pos
    ensures k in StepPos(pos, target, f) && StepPos(pos, target, f)[k] == target[k]
  {
    LerpSelf(target[k], f);
  }

  /** The same for paths, point by point. */
  lemma {:induction false} FirstSeenPathSnaps(path: map<string, seq<Vec3>>, target: map<string, seq<Vec3>>, f: real, k: string)
    requires Aligned(path, target) && k in target && k !in path
    ensures k in StepPaths(path, target, f) && StepPaths(path, target, f)[k] == target[k]
  {
    var r := StepPaths(path, target, f)[k];
    forall i | 0 <= i < |target[k]| ensures r[i] == target[k][i] {
      LerpSelf(target[k][i], f);
    }
  }

  /** A key seen before moves `f` of the way towards its target, and the
      distance left is `(1 - f)` times what it was. */
  lemma SeenMoves(pos: map<string, Vec3>, target: map<string, Vec3>, f: real, k: string)
    requires k in target && k in pos
    ensures k in StepPos(pos, target, f)
    ensures StepPos(pos, target, f)[k] == Add(pos[k], Scale(f, Sub(target[k], pos[k])))
    ensures Sub(target[k], StepPos(pos, target, f)[k]) == Scale(1.0 - f, Sub(target[k], pos[k]))
  {
    LerpRemaining(pos[k], target[k], f);
  }

  /** Interpolation never drops a key, and only keys with a target are created. */
  lemma StepKeepsKeys(pos: map<string, Vec3>, target: map<string, Vec3>, path: map<string, seq<Vec3>>,
                      targetPath: map<string, seq<Vec3>>, f: real)
    requires Aligned(path, targetPath)
    ensures StepPos(pos, target, f).Keys == pos.Keys + target.Keys
    ensures StepPaths(path, targetPath, f).Keys == path.Keys + targetPath.Keys
    ensures forall k :: k in pos && k !in target ==> StepPos(pos, target, f)[k] == pos[k]
  {
  }

  /** `n` interpolation ticks against unchanging targets. */
  function Ticks(pos: map<string, Vec3>, target: map<string, Vec3>, f: real, n: nat): map<string, Vec3>
  {
    if n == 0 then pos else StepPos(Ticks(pos, target, f, n - 1), target, f)
  }

  /** `d` scaled by `(1 - f)`, `n` times over. */
  function Shrink(d: Vec3, f: real, n: nat): Vec3
  {
    if n == 0 then d else Scale(1.0 - f, Shrink(d, f, n - 1))
  }

  function Pow(b: real, n: nat): real
  {
    if n == 0 then 1.0 else b * Pow(b, n - 1)
  }

  /** Shrinking `n` times is one scaling by `(1 - f)^n`. */
  lemma {:induction false} ShrinkIsPow(d: Vec3, f: real, n: nat)
    ensures Shrink(d, f, n) == Scale(Pow(1.0 - f, n), d)
  {
    if n == 0 {
      assert Scale(1.0, d) == d;
    } else {
      var b := 1.0 - f;
      var q := Pow(b, n - 1);
      assert Pow(b, n) == b * q;
      ShrinkIsPow(d, f, n - 1);
      ScaleTwice(b, q, d);
    }
  }

  /** Smoothing converges geometrically: after `n` ticks towards a fixed target
      the distance left on each axis is `(1 - f)^n` times the starting one. */
  lemma {:induction false} TicksConverge(pos: map<string, Vec3>, target: map<string, Vec3>, f: real, n: nat, k: string)
    requires k in pos && k in target
    ensures k in Ticks(pos, target, f, n)
    ensures Sub(target[k], Ticks(pos, target, f, n)[k]) == Scale(Pow(1.0 - f, n), Sub(target[k], pos[k]))
  {
    TicksShrink(pos, target, f, n, k);
    ShrinkIsPow(Sub(target[k], pos[k]), f, n);
  }

  lemma {:induction false} TicksShrink(pos: map<string, Vec3>, target: map<string, Vec3>, f: real, n: nat, k: string)
    requires k in pos && k in target
    ensures k in Ticks(pos, target, f, n)
    ensures Sub(target[k], Ticks(pos, target, f, n)[k]) == Shrink(Sub(target[k], pos[k]), f, n)
  {
    if n > 0 {
      var prev := Ticks(pos, target, f, n - 1);
      TicksShrink(pos, target, f, n - 1, k);
      SeenMoves(prev, target, f, k);
    }
  }

  /** A positive power of a base strictly between 0 and 1 stays strictly
      between 0 and 1. */
  lemma {:induction false} PowBetween(b: real, n: nat)
    requires 0.0 < b < 1.0 && n > 0
    ensures 0.0 < Pow(b, n) < 1.0
  {
    if n > 1 {
      PowBetween(b, n - 1);
      var q := Pow(b, n - 1);
      assert b * q < q by { assert (1.0 - b) * q > 0.0; }
    }
  }

  function Abs(x: real): real { if x < 0.0 then -x else x }

  /** Scaling by a factor strictly between 0 and 1 strictly shrinks a nonzero value. */
  lemma ScaledSmaller(p: real, a: real)
    requires 0.0 < p < 1.0 && a != 0.0
    ensures Abs(p * a) < Abs(a)
  {
    if a > 0.0 {
      assert p * a < a by { assert (1.0 - p) * a > 0.0; }
    } else {
      assert p * a > a by { assert (1.0 - p) * a < 0.0; }
    }
  }

  /** With `0 < f < 1` and at least one tick, each nonzero component of the
      gap between a key's position and its target ends strictly smaller. */
  lemma TicksShrinkStrictly(pos: map<string, Vec3>, target: map<string, Vec3>, f: real, n: nat, k: string)
    requires k in pos && k in target && 0.0 < f < 1.0 && n > 0
    ensures k in Ticks(pos, target, f, n)
    ensures var d := Sub(target[k], pos[k]);
            var g := Sub(target[k], Ticks(pos, target, f, n)[k]);
            && (d.x != 0.0 ==> Abs(g.x) < Abs(d.x))
            && (d.y != 0.0 ==> Abs(g.y) < Abs(d.y))
            && (d.z != 0.0 ==> Abs(g.z) < Abs(d.z))
  {
    TicksConverge(pos, target, f, n, k);
    PowBetween(1.0 - f, n);
    ScaledVecSmaller(Pow(1.0 - f, n), Sub(target[k], pos[k]));
  }

  lemma ScaledVecSmaller(p: real, d: Vec3)
    requires 0.0 < p < 1.0
    ensures var g := Scale(p, d);
            && (d.x != 0.0 ==> Abs(g.x) < Abs(d.x))
            && (d.y != 0.0 ==> Abs(g.y) < Abs(d.y))
            && (d.z != 0.0 ==> Abs(g.z) < Abs(d.z))
  {
    if d.x != 0.0 { ScaledSmaller(p, d.x); }
    if d.y != 0.0 { ScaledSmaller(p, d.y); }
    if d.z != 0.0 { ScaledSmaller(p, d.z); }
  }

  /** With a lerp amount of 1 a single tick puts every key on its target. */
  lemma FullStepReachesTargets(pos: map<string, Vec3>, target: map<string, Vec3>, k: string)
    requires k in target
    ensures k in StepPos(pos, target, 1.0) && StepPos(pos, target, 1.0)[k] == target[k]
  {
    LerpFull(SeedPos(pos, target, k), target[k]);
  }

  /** The positions after the keys in `done` have been visited by the
      interpolation loop. */
  function PartialStepPos(pos: map<string, Vec3>, target: map<string, Vec3>, f: real, done: set<string>): map<string, Vec3>
    requires done <= target.Keys
  {
    map k | k in pos.Keys + done :: if k in done then Lerp(SeedPos(pos, target, k), target[k], f) else pos[k]
  }

  function PartialStepPaths(path: map<string, seq<Vec3>>, target: map<string, seq<Vec3>>, f: real, done: set<string>): map<string, seq<Vec3>>
    requires done <= target.Keys && Aligned(path, target)
  {
    map k | k in path.Keys + done :: if k in done then LerpPath(SeedPath(path, target, k), target[k], f) else path[k]
  }

  /** The inner loop of `interpolate()` over one path: point `i` of the current
      path moves towards point `i` of the target, for every point of the target. */
  method LerpPoints(cur: seq<Vec3>, target: seq<Vec3>, f: real) returns (r: seq<Vec3>)
    requires |target| <= |cur|
    ensures r == LerpPath(cur, target, f)
  {
    r := cur;
    var i := 0;
    while i < |target|
      invariant 0 <= i <= |target| && |r| == |cur|
      invariant forall j :: 0 <= j < i ==> r[j] == Lerp(cur[j], target[j], f)
      invariant forall j :: i <= j < |cur| ==> r[j] == cur[j]
    {
      r := r[i := Lerp(r[i], target[i], f)];
      i := i + 1;
    }
  }

  lemma PartialStepPosNext(pos: map<string, Vec3>, target: map<string, Vec3>, f: real, done: set<string>, k: string)
    requires done <= target.Keys && k in target && k !in done
    ensures var cur := PartialStepPos(pos, target, f, done);
      (k in cur <==> k in pos) && (k in cur ==> cur[k] == pos[k]) &&
      PartialStepPos(pos, target, f, done + {k}) == cur[k := Lerp(SeedPos(pos, target, k), target[k], f)]
  {
  }

  lemma PartialStepPathsNext(path: map<string, seq<Vec3>>, target: map<string, seq<Vec3>>, f: real, done: set<string>, k: string)
    requires done <= target.Keys && Aligned(path, target) && k in target && k !in done
    ensures var cur := PartialStepPaths(path, target, f, done);
      (k in cur <==> k in path) && (k in cur ==> cur[k] == path[k]) &&
      PartialStepPaths(path, target, f, done + {k}) == cur[k := LerpPath(SeedPath(path, target, k), target[k], f)]
  {
  }

  lemma PartialStepPosDone(pos: map<string, Vec3>, target: map<string, Vec3>, f: real)
    ensures PartialStepPos(pos, target, f, target.Keys) == StepPos(pos, target, f)
  {
  }

  lemma PartialStepPathsDone(path: map<string, seq<Vec3>>, target: map<string, seq<Vec3>>, f: real)
    requires Aligned(path, target)
    ensures PartialStepPaths(path, target, f, {}) == path
    ensures PartialStepPaths(path, target, f, target.Keys) == StepPaths(path, target, f)
  {
  }

  /** What the commit pass reads from the store. */
  datatype Snapshot = Snapshot(
    pos: map<string, Vec3>, newPos: map<string, Vec3>,
    path: map<string, seq<Vec3>>, newPath: map<string, seq<Vec3>>,
    radius: map<string, real>)

  /** The staleness gate: the latest landmark frame is more than a second older
      than the last commit. */
  predicate Stale(updateTime: int, drawTime: int)
  {
    updateTime - drawTime < -1000
  }

  /** With smoothing on, every target has a smoothed value to commit (which is
      what `interpolate()` leaves behind). */
  predicate Committable(s: Snapshot, lerpAmount: real)
  {
    lerpAmount > 0.0 ==> s.newPath.Keys <= s.path.Keys && s.newPos.Keys <= s.pos.Keys
  }

  /** `options.baseRadius / this.radius[key]`; `None` when the radius is
      undefined or zero, where JavaScript yields NaN or Infinity. */
  function ScaleFactor(baseRadius: real, r: Option<real>): (q: Option<real>)
    ensures q.Some? <==> r.Some? && r.value != 0.0
    ensures q.Some? ==> q.value * r.value == baseRadius
  {
    if r.Some? && r.value != 0.0 then Some(baseRadius / r.value) else None
  }

  /** `scaling.multiplyInPlace(new Vector3(q, q, q))`: once not a number, always not a number. */
  function Rescaled(scaling: Option<Vec3>, q: Option<real>): Option<Vec3>
  {
    if scaling.Some? && q.Some? then Some(Scale(q.value, scaling.value)) else None
  }

  /** First loop of `draw()`, for one key with a target path: a live tube gets
      the smoothed path (or the raw target without smoothing) and the per-point
      radius function with this key's radius. */
  function CommitPath(m: Mesh, k: string, s: Snapshot, lerpAmount: real): Mesh
    requires Committable(s, lerpAmount) && k in s.newPath
  {
    if !m.alive then m
    else m.(shape := Tube(if lerpAmount > 0.0 then s.path[k] else s.newPath[k], PerPoint(Get(s.radius, k))))
  }

  /** Second loop of `draw()`, for one key with a target position: a live mesh
      is moved, and, unless it is the face, its scaling is multiplied by
      `baseRadius / radius`. */
  function CommitPos(m: Mesh, k: string, s: Snapshot, o: Options): Mesh
    requires Committable(s, o.lerpAmount) && k in s.newPos
  {
    if !m.alive then m
    else m.(position := if o.lerpAmount > 0.0 then s.pos[k] else s.newPos[k],
            scaling := if k == "face" then m.scaling else Rescaled(m.scaling, ScaleFactor(o.baseRadius, Get(s.radius, k))))
  }

  /** The registry after the first loop has visited `donePath` and the second `donePos`. */
  function PartialCommit(meshes: Meshes, s: Snapshot, o: Options, donePath: set<string>, donePos: set<string>): Meshes
    requires Committable(s, o.lerpAmount) && donePath <= s.newPath.Keys && donePos <= s.newPos.Keys
  {
    map k | k in meshes ::
      var m := if k in donePath then CommitPath(meshes[k], k, s, o.lerpAmount) else meshes[k];
      if k in donePos then CommitPos(m, k, s, o) else m
  }

  /** The registry after one full commit pass. */
  function Committed(meshes: Meshes, s: Snapshot, o: Options): Meshes
    requires Committable(s, o.lerpAmount)
  {
    PartialCommit(meshes, s, o, s.newPath.Keys, s.newPos.Keys)
  }

  lemma PartialCommitNext(meshes: Meshes, s: Snapshot, o: Options, dp: set<string>, dq: set<string>, k: string, paths: bool)
    requires Committable(s, o.lerpAmount) && dp <= s.newPath.Keys && dq <= s.newPos.Keys
    requires paths ==> dq == {} && k in s.newPath && k !in dp
    requires !paths ==> dp == s.newPath.Keys && k in s.newPos && k !in dq
    ensures var cur := PartialCommit(meshes, s, o, dp, dq);
      cur.Keys == meshes.Keys &&
      (paths && k in cur ==> PartialCommit(meshes, s, o, dp + {k}, dq) == cur[k := CommitPath(cur[k], k, s, o.lerpAmount)]) &&
      (!paths && k in cur ==> PartialCommit(meshes, s, o, dp, dq + {k}) == cur[k := CommitPos(cur[k], k, s, o)]) &&
      (paths && k !in cur ==> PartialCommit(meshes, s, o, dp + {k}, dq) == cur) &&
      (!paths && k !in cur ==> PartialCommit(meshes, s, o, dp, dq + {k}) == cur)
  {
  }

  /** The commit pass never creates or removes a registry entry, and leaves
      every disposed mesh and every mesh without a target exactly as it was. */
  lemma CommitTouchesOnlyLiveTargets(meshes: Meshes, s: Snapshot, o: Options, k: string)
    requires Committable(s, o.lerpAmount) && k in meshes
    requires !meshes[k].alive || (k !in s.newPath && k !in s.newPos)
    ensures Committed(meshes, s, o).Keys == meshes.Keys
    ensures Committed(meshes, s, o)[k] == meshes[k]
  {
  }

  /** The commit pass disposes nothing and revives nothing. */
  lemma CommitKeepsLiveness(meshes: Meshes, s: Snapshot, o: Options)
    requires Committable(s, o.lerpAmount)
    ensures Committed(meshes, s, o).Keys == meshes.Keys
    ensures forall k :: k in meshes ==> Committed(meshes, s, o)[k].alive == meshes[k].alive
  {
  }

  /** A live mesh with a target position ends at the smoothed value when
      smoothing is on and at the raw target when it is off. */
  lemma CommitPlacesMesh(meshes: Meshes, s: Snapshot, o: Options, k: string)
    requires Committable(s, o.lerpAmount) && Live(meshes, k) && k in s.newPos
    ensures k in Committed(meshes, s, o) && Committed(meshes, s, o)[k].alive
    ensures Committed(meshes, s, o)[k].position == if o.lerpAmount > 0.0 then s.pos[k] else s.newPos[k]
  {
  }

  /** A live tube with a target path gets that path with lerp off, the smoothed one with lerp on. */
  lemma CommitReshapesTube(meshes: Meshes, s: Snapshot, o: Options, k: string)
    requires Committable(s, o.lerpAmount) && Live(meshes, k) && k in s.newPath
    ensures k in Committed(meshes, s, o)
    ensures Committed(meshes, s, o)[k].shape.Tube?
    ensures Committed(meshes, s, o)[k].shape.path == if o.lerpAmount > 0.0 then s.path[k] else s.newPath[k]
  {
  }

  /** A live key with a target position but no radius (the hand groups
      `hand-left` and `hand-right`) loses its scaling to NaN on the first commit;
      only `face` is exempt. */
  lemma CommitWithoutRadiusLosesScale(meshes: Meshes, s: Snapshot, o: Options, k: string)
    requires Committable(s, o.lerpAmount) && Live(meshes, k) && k in s.newPos && k !in s.radius
    requires k !in s.newPath && k != "face"
    ensures k in Committed(meshes, s, o) && Committed(meshes, s, o)[k].scaling.None?
  {
  }

  /** `n` commit passes over an unchanging store. */
  function Commits(meshes: Meshes, s: Snapshot, o: Options, n: nat): Meshes
    requires Committable(s, o.lerpAmount)
  {
    if n == 0 then meshes else Committed(Commits(meshes, s, o, n - 1), s, o)
  }

  /** Scaling compounds: after `n` commits a live joint's scaling is its
      starting scaling times `(baseRadius / radius)^n`. A pose joint (radius =
      baseRadius) keeps its scale; a hand joint (radius = baseRadius / 4)
      grows by a factor 4 on every commit. */
  lemma {:induction false} CommitsCompoundScale(meshes: Meshes, s: Snapshot, o: Options, n: nat, k: string, sc: Vec3)
    requires Committable(s, o.lerpAmount) && Live(meshes, k) && meshes[k].scaling == Some(sc)
    requires k in s.newPos && k !in s.newPath && k != "face" && k in s.radius && s.radius[k] != 0.0
    ensures k in Commits(meshes, s, o, n) && Live(Commits(meshes, s, o, n), k)
    ensures Commits(meshes, s, o, n)[k].scaling == Some(Scale(Pow(o.baseRadius / s.radius[k], n), sc))
  {
    var q := o.baseRadius / s.radius[k];
    if n == 0 {
      assert Scale(1.0, sc) == sc;
    } else {
      CommitsCompoundScale(meshes, s, o, n - 1, k, sc);
      var p := Pow(q, n - 1);
      assert Pow(q, n) == q * p;
      ScaleTwice(q, p, sc);
    }
  }

  lemma HandJointGrowsFourfold(baseRadius: real)
    requires baseRadius != 0.0
    ensures ScaleFactor(baseRadius, Some(baseRadius / 4.0)) == Some(4.0)
    ensures ScaleFactor(baseRadius, Some(baseRadius)) == Some(1.0)
  {
    var r := baseRadius / 4.0;
    assert r != 0.0 && 4.0 * r == baseRadius;
    assert baseRadius / r == 4.0;
    assert baseRadius / baseRadius == 1.0;
  }

  class Data {
    var pos: map<string, Vec3>
    var newPos: map<string, Vec3>
    var path: map<string, seq<Vec3>>
    var newPath: map<string, seq<Vec3>>
    var radius: map<string, real>
    var updateTime: int
    var drawTime: int

    ghost predicate Valid()
      reads this
    {
      Aligned(path, newPath)
    }

    constructor ()
      ensures Valid()
      ensures pos == map[] && newPos == map[] && path == map[] && newPath == map[] && radius == map[]
      ensures updateTime == 0 && drawTime == 0
    {
      pos, newPos, path, newPath, radius := map[], map[], map[], map[], map[];
      updateTime, drawTime := 0, 0;
    }

    /** `interpolate()`: nothing when the lerp amount is 0; otherwise one
        smoothing step for every position and every path with a target. */
    method Interpolate(f: real)
      requires Valid()
      modifies this`pos, this`path
      ensures Valid()
      ensures f == 0.0 ==> pos == old(pos) && path == old(path)
      ensures f != 0.0 ==> pos == StepPos(old(pos), newPos, f)
      ensures f != 0.0 ==> path == StepPaths(old(path), newPath, f)
    {
      if f == 0.0 {
        return;
      }
      ghost var pos0, path0 := pos, path;
      var keys := newPos.Keys;
      ghost var done: set<string> := {};
      while keys != {}
        invariant keys + done == newPos.Keys && keys !! done
        invariant pos == PartialStepPos(pos0, newPos, f, done)
        invariant path == path0
        decreases keys
      {
        var k :| k in keys;
        PartialStepPosNext(pos0, newPos, f, done, k);
        if k !in pos {
          pos := pos[k := newPos[k]];
        }
        pos := pos[k := Lerp(pos[k], newPos[k], f)];
        keys, done := keys - {k}, done + {k};
      }
      PartialStepPosDone(pos0, newPos, f);
      var pathKeys := newPath.Keys;
      done := {};
      assert path == PartialStepPaths(path0, newPath, f, done);
      while pathKeys != {}
        invariant pathKeys + done == newPath.Keys && pathKeys !! done
        invariant path == PartialStepPaths(path0, newPath, f, done)
        invariant pos == StepPos(pos0, newPos, f)
        decreases pathKeys
      {
        var k :| k in pathKeys;
        PartialStepPathsNext(path0, newPath, f, done, k);
        var cur := LerpPoints(if k in path then path[k] else newPath[k], newPath[k], f);
        path := path[k := cur];
        pathKeys, done := pathKeys - {k}, done + {k};
      }
      PartialStepPathsDone(path0, newPath, f);
    }

    ghost function Snap(): Snapshot
      reads this
    {
      Snapshot(pos, newPos, path, newPath, radius)
    }

    /** `draw()`: unless the staleness gate fires, push the chosen value of
        every target into its live mesh, then record the commit time. */
    method Draw(meshes: Meshes, o: Options, now: int) returns (out: Meshes)
      requires Committable(Snap(), o.lerpAmount)
      modifies this`drawTime
      ensures Stale(updateTime, old(drawTime)) ==> out == meshes && drawTime == old(drawTime)
      ensures !Stale(updateTime, old(drawTime)) ==> out == Committed(meshes, Snap(), o) && drawTime == now
    {
      if updateTime - drawTime < -1000 {
        return meshes;
      }
      ghost var s := Snap();
      out := meshes;
      var keys := newPath.Keys;
      ghost var dp: set<string> := {};
      assert out == PartialCommit(meshes, s, o, dp, {});
      while keys != {}
        invariant keys + dp == newPath.Keys && keys !! dp
        invariant out == PartialCommit(meshes, s, o, dp, {})
        decreases keys
      {
        var k :| k in keys;
        PartialCommitNext(meshes, s, o, dp, {}, k, true);
        if k in out && out[k].alive {
          var p := if o.lerpAmount > 0.0 then path[k] else newPath[k];
          out := out[k := out[k].(shape := Tube(p, PerPoint(Get(radius, k))))];
        }
        keys, dp := keys - {k}, dp + {k};
      }
      keys := newPos.Keys;
      ghost var dq: set<string> := {};
      while keys != {}
        invariant keys + dq == newPos.Keys && keys !! dq
        invariant out == PartialCommit(meshes, s, o, newPath.Keys, dq)
        decreases keys
      {
        var k :| k in keys;
        PartialCommitNext(meshes, s, o, newPath.Keys, dq, k, false);
        if k in out && out[k].alive {
          var m := out[k].(position := if o.lerpAmount > 0.0 then pos[k] else newPos[k]);
          if k != "face" {
            m := m.(scaling := Rescaled(m.scaling, ScaleFactor(o.baseRadius, Get(radius, k))));
          }
          out := out[k := m];
        }
        keys, dq := keys - {k}, dq + {k};
      }
      drawTime := now;
    }
  }
}
