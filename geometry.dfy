/** Values shared by every part of the 3D landmark renderer: exact 3-vectors,
    landmarks as the detector reports them, the render options, and the
    projection of a landmark into scene space (`vec` in src/draw3d.ts). */
module Geometry {

  datatype Option<T> = None | Some(value: T)

  /** A lookup in a string-keyed record; `None` is JavaScript's `undefined`. */
  function Get<T>(m: map<string, T>, k: string): (r: Option<T>)
    ensures r.Some? <==> k in m
    ensures r.Some? ==> r.value == m[k]
  {
    if k in m then Some(m[k]) else None
  }

  /** A point or direction in scene space; exact reals stand in for Babylon's Vector3. */
  datatype Vec3 = Vec3(x: real, y: real, z: real)

  const Origin := Vec3(0.0, 0.0, 0.0)
  const Unit := Vec3(1.0, 1.0, 1.0)

  function Add(a: Vec3, b: Vec3): Vec3 { Vec3(a.x + b.x, a.y + b.y, a.z + b.z) }
  function Sub(a: Vec3, b: Vec3): Vec3 { Vec3(a.x - b.x, a.y - b.y, a.z - b.z) }
  function Scale(f: real, a: Vec3): Vec3 { Vec3(f * a.x, f * a.y, f * a.z) }
  function Mul(a: Vec3, b: Vec3): Vec3 { Vec3(a.x * b.x, a.y * b.y, a.z * b.z) }

  /** Babylon's Vector3.Lerp: the point a fraction `f` of the way from `a` to `b`. */
  function Lerp(a: Vec3, b: Vec3, f: real): Vec3 { Add(a, Scale(f, Sub(b, a))) }

  /** Lerp towards a target leaves `(1 - f)` of the remaining distance, per axis. */
  lemma LerpRemaining(a: Vec3, b: Vec3, f: real)
    ensures Sub(b, Lerp(a, b, f)) == Scale(1.0 - f, Sub(b, a))
  {
    RemainingScalar(a.x, b.x, f);
    RemainingScalar(a.y, b.y, f);
    RemainingScalar(a.z, b.z, f);
    var l := Lerp(a, b, f);
    assert l == Vec3(a.x + f * (b.x - a.x), a.y + f * (b.y - a.y), a.z + f * (b.z - a.z));
    var s := Scale(1.0 - f, Sub(b, a));
    assert s == Vec3((1.0 - f) * (b.x - a.x), (1.0 - f) * (b.y - a.y), (1.0 - f) * (b.z - a.z));
    assert Sub(b, l) == s;
  }

  lemma RemainingScalar(a: real, b: real, f: real)
    ensures b - (a + f * (b - a)) == (1.0 - f) * (b - a)
  {
    var d := b - a;
    assert (1.0 - f) * d == d - f * d;
  }

  /** Lerp from a point to itself stays put, whatever the fraction: a key
      seeded with a copy of its target is not moved by the lerp that follows. */
  lemma LerpSelf(b: Vec3, f: real)
    ensures Lerp(b, b, f) == b
  {
    assert Sub(b, b) == Origin;
    assert Scale(f, Origin) == Origin;
  }

  /** A full step lands exactly on the target. */
  lemma LerpFull(a: Vec3, b: Vec3)
    ensures Lerp(a, b, 1.0) == b
  {
    assert Scale(1.0, Sub(b, a)) == Sub(b, a);
  }

  /** Scaling twice is scaling once by the product. */
  lemma ScaleTwice(a: real, b: real, d: Vec3)
    ensures Scale(a, Scale(b, d)) == Scale(a * b, d)
  {
    assert a * (b * d.x) == (a * b) * d.x;
    assert a * (b * d.y) == (a * b) * d.y;
    assert a * (b * d.z) == (a * b) * d.z;
  }

  /** Componentwise minimum and maximum (Babylon's Vector3.Minimize / Maximize). */
  function Min3(a: Vec3, b: Vec3): (r: Vec3)
    ensures r.x <= a.x && r.x <= b.x && (r.x == a.x || r.x == b.x)
    ensures r.y <= a.y && r.y <= b.y && (r.y == a.y || r.y == b.y)
    ensures r.z <= a.z && r.z <= b.z && (r.z == a.z || r.z == b.z)
  {
    Vec3(if a.x <= b.x then a.x else b.x, if a.y <= b.y then a.y else b.y, if a.z <= b.z then a.z else b.z)
  }

  function Max3(a: Vec3, b: Vec3): (r: Vec3)
    ensures r.x >= a.x && r.x >= b.x && (r.x == a.x || r.x == b.x)
    ensures r.y >= a.y && r.y >= b.y && (r.y == a.y || r.y == b.y)
    ensures r.z >= a.z && r.z >= b.z && (r.z == a.z || r.z == b.z)
  {
    Vec3(if a.x >= b.x then a.x else b.x, if a.y >= b.y then a.y else b.y, if a.z >= b.z then a.z else b.z)
  }

  /** One normalized landmark. The detector always reports x, y and z; the
      visibility (confidence) score is absent for hand and face landmarks. */
  datatype Landmark = Landmark(x: real, y: real, z: real, visibility: Option<real>)

  /** A landmark list for one body region, absent when the detector found nothing. */
  type LandmarkList = Option<seq<Landmark>>

  /** `result?.[i]`: absent when the list is absent or too short. */
  function At(result: LandmarkList, i: nat): (r: Option<Landmark>)
    ensures r.Some? <==> result.Some? && i < |result.value|
    ensures r.Some? ==> r.value == result.value[i]
  {
    if result.Some? && i < |result.value| then Some(result.value[i]) else None
  }

  /** The render options the core reads; fixed for the duration of one call. */
  datatype Options = Options(
    scaleX: real, scaleY: real, scaleZ: real,
    baseRadius: real,
    lerpAmount: real,
    fixedRadius: bool,
    renderBones: bool, renderJoints: bool, renderHands: bool,
    renderSurface: bool, renderFace: bool, smoothFace: bool,
    connectHands: bool, connectFace: bool, continousFocus: bool)

  /** `vec`: project a landmark into scene space with per-axis scale and a
      flipped Y axis; a missing landmark reads as all-zero coordinates. */
  function Vec(l: Option<Landmark>, o: Options): Vec3
  {
    match l
    case None => Vec3(o.scaleX * 0.0, o.scaleY * (1.0 - 0.0), o.scaleZ * 0.0)
    case Some(m) => Vec3(o.scaleX * m.x, o.scaleY * (1.0 - m.y), o.scaleZ * m.z)
  }

  /** `vec` reverses the y axis so that the scene keeps the image's up/down
      order: with a positive Y scale, a landmark lower in the image (greater
      y) gets a smaller scene y. */
  lemma VecFlipsY(a: Landmark, b: Landmark, o: Options)
    requires o.scaleY > 0.0 && a.y < b.y
    ensures Vec(Some(a), o).y > Vec(Some(b), o).y
  {
    assert o.scaleY * a.y < o.scaleY * b.y;
  }

  /** `landmark?.visibility || 0`: an absent score counts as zero. */
  function Visibility(l: Option<Landmark>): real
  {
    if l.Some? && l.value.visibility.Some? then l.value.visibility.value else 0.0
  }

  function MinReal(a: real, b: real): (r: real)
    ensures r <= a && r <= b && (r == a || r == b)
  {
    if a <= b then a else b
  }

  /** `radiusFunction`: the tube radius at path point `index`, `distance`
      along the path, for the radius `radius` in effect when the tube is updated.
      A tube in the registry records only that this function shapes it
      (`Registry.TubeRadius.PerPoint`, with that radius); the per-ring values
      are stated here on their own. */
  function RadiusAt(fixedRadius: bool, radius: real, index: nat, distance: real): (r: real)
    ensures fixedRadius && radius >= 0.0 && index == 0 ==> r == 0.0
    ensures !fixedRadius && radius >= 0.0 && distance >= 0.0 ==> r >= 0.01
  {
    if fixedRadius then index as real * radius else 2.0 * distance * radius + 0.01
  }

  /** In fixed mode the radius grows with the point index, so a two-point bone
      tapers from nothing at its first point; in distance mode it grows along the path. */
  lemma RadiusMonotone(fixedRadius: bool, radius: real, i: nat, j: nat, di: real, dj: real)
    requires radius > 0.0 && i <= j && di <= dj
    ensures RadiusAt(fixedRadius, radius, i, di) <= RadiusAt(fixedRadius, radius, j, dj)
  {
    if fixedRadius {
      assert i as real * radius <= j as real * radius;
    } else {
      assert di * radius <= dj * radius;
    }
  }
}
