/** The name-keyed mesh registry (`meshes` in src/draw3d.ts) over an abstract
    mesh record: what the renderer needs to know about a Babylon mesh, and no more. */
module Registry {
  import opened Geometry

  /** How a tube's radius was fixed: a constant radius given at construction
      (`radius: data.radius[name]`), or the per-point `radiusFunction` with the
      radius in effect at the last update. `None` is JavaScript's `undefined`. */
  datatype TubeRadius = Constant(r: Option<real>) | PerPoint(r: Option<real>)

  /** Geometry carried by a mesh. A group is the non-visual parent (`AbstractMesh`). */
  datatype Shape =
    | Group
    | Tube(path: seq<Vec3>, radius: TubeRadius)
    | Sphere(diameter: real)
    | Ribbon(rails: seq<seq<Vec3>>)
    | Surface(topology: bool, normals: bool, positions: seq<real>)

  /** An axis-aligned world bounding box. */
  datatype Box = Box(min: Vec3, max: Vec3)

  /** A mesh as the renderer sees it. `alive` is false once the mesh is
      disposed; `scaling` is `None` once it has been multiplied by a factor
      that is not a finite number (a division by an undefined or zero radius). */
  datatype Mesh = Mesh(
    alive: bool,
    parent: Option<string>,
    shape: Shape,
    visibility: real,
    enabled: bool,
    position: Vec3,
    scaling: Option<Vec3>,
    bounds: Option<Box>)

  type Meshes = map<string, Mesh>

  /** `meshes[k] && !meshes[k].isDisposed()`. */
  predicate Live(m: Meshes, k: string)
  {
    k in m && m[k].alive
  }

  /** A freshly constructed mesh: visible, enabled, at the origin, unit scale. */
  function Fresh(shape: Shape, parent: Option<string>): Mesh
  {
    Mesh(true, parent, shape, 1.0, true, Origin, Some(Unit), None)
  }

  /** `if (!meshes[p] || meshes[p].isDisposed()) meshes[p] = new AbstractMesh(p)`:
      a live group is kept as it is, anything else is replaced by a new group. */
  function EnsureGroup(m: Meshes, name: string): Meshes
  {
    if Live(m, name) then m else m[name := Fresh(Group, None)]
  }

  /** Dispose every mesh; the entries stay in the registry, marked disposed. */
  function DisposeAll(m: Meshes): (r: Meshes)
    ensures r.Keys == m.Keys
    ensures forall k :: k in r ==> !r[k].alive && r[k] == m[k].(alive := false)
  {
    map k | k in m :: m[k].(alive := false)
  }
}
