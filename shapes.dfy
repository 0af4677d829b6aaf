/** Pure geometry the builders hand to the renderer: the doubled ribbon rails
    of `drawRibbon`, the flattened face vertex buffer of `drawFace`, and the
    pose group's bounding box of `createPose`. */
module Shapes {
  import opened Geometry
  import opened Registry

  /** The z offset applied to point `i` of a doubled rail of original length `n`:
      `(i < n ? 1 : -1) * baseRadius / 2`. */
  function RailOffset(i: nat, n: nat, baseRadius: real): Vec3
  {
    Vec3(0.0, 0.0, (if i < n then 1.0 else -1.0) * baseRadius / 2.0)
  }

  /** A rail followed by a copy of itself, the first half pushed forward and the
      second half pushed back by half the base radius, so the ribbon has thickness. */
  function DoubledRail(rail: seq<Vec3>, baseRadius: real): seq<Vec3>
  {
    seq(2 * |rail|, i requires 0 <= i < 2 * |rail| =>
      Add(if i < |rail| then rail[i] else rail[i - |rail|], RailOffset(i, |rail|, baseRadius)))
  }

  function DoubledRails(rails: seq<seq<Vec3>>, baseRadius: real): seq<seq<Vec3>>
  {
    seq(|rails|, j requires 0 <= j < |rails| => DoubledRail(rails[j], baseRadius))
  }

  /** Doubling maps a rail of `n` points to `2n`: the first `n` are the
      originals raised by `baseRadius / 2` in z, the last `n` are copies lowered
      by as much, x and y untouched; matching points are `baseRadius` apart. */
  lemma DoubledRailShape(rail: seq<Vec3>, baseRadius: real, i: nat)
    requires i < |rail|
    ensures |DoubledRail(rail, baseRadius)| == 2 * |rail|
    ensures DoubledRail(rail, baseRadius)[i] == Vec3(rail[i].x, rail[i].y, rail[i].z + baseRadius / 2.0)
    ensures DoubledRail(rail, baseRadius)[|rail| + i] == Vec3(rail[i].x, rail[i].y, rail[i].z - baseRadius / 2.0)
    ensures DoubledRail(rail, baseRadius)[i].z - DoubledRail(rail, baseRadius)[|rail| + i].z == baseRadius
  {
  }

  /** The `map` callback of `drawRibbon`: copy the rail, append clones, then
      offset every point in place. */
  method DoubleRail(rail: seq<Vec3>, baseRadius: real) returns (double: seq<Vec3>)
    ensures double == DoubledRail(rail, baseRadius)
  {
    double := rail;
    var i := 0;
    while i < |rail|
      invariant 0 <= i <= |rail| && double == rail + rail[..i]
    {
      double := double + [rail[i]];
      i := i + 1;
    }
    assert rail[..i] == rail;
    i := 0;
    while i < |double|
      invariant 0 <= i <= |double| == 2 * |rail|
      invariant forall j :: 0 <= j < i ==> double[j] == DoubledRail(rail, baseRadius)[j]
      invariant forall j :: i <= j < |double| ==> double[j] == (rail + rail)[j]
    {
      double := double[i := Add(double[i], RailOffset(i, |rail|, baseRadius))];
      i := i + 1;
    }
  }

  /** Number of face landmarks the fixed face topology uses. */
  const FacePoints := 468

  /** The flattened face vertex buffer: point `i` at positions `3i .. 3i+2`,
      Y flipped, Z scaled twice as much as for the skeleton. */
  function FacePositions(result: seq<Landmark>, o: Options): (r: seq<real>)
    requires |result| >= FacePoints
    ensures |r| == 3 * FacePoints
  {
    seq(3 * FacePoints, n requires 0 <= n < 3 * FacePoints =>
      var l := result[n / 3];
      if n % 3 == 0 then o.scaleX * l.x
      else if n % 3 == 1 then o.scaleY * (1.0 - l.y)
      else o.scaleZ * 2.0 * l.z)
  }

  lemma FacePositionsAt(result: seq<Landmark>, o: Options, i: nat)
    requires |result| >= FacePoints && i < FacePoints
    ensures FacePositions(result, o)[3 * i] == o.scaleX * result[i].x
    ensures FacePositions(result, o)[3 * i + 1] == o.scaleY * (1.0 - result[i].y)
    ensures FacePositions(result, o)[3 * i + 2] == o.scaleZ * 2.0 * result[i].z
  {
    assert (3 * i) / 3 == i && (3 * i) % 3 == 0;
    assert (3 * i + 1) / 3 == i && (3 * i + 1) % 3 == 1;
    assert (3 * i + 2) / 3 == i && (3 * i + 2) % 3 == 2;
  }

  /** The loop of `drawFace` filling a fresh `Float32Array(3 * 468)`. */
  method FlattenFace(result: seq<Landmark>, o: Options) returns (positions: array<real>)
    requires |result| >= FacePoints
    ensures fresh(positions) && positions[..] == FacePositions(result, o)
  {
    positions := new real[3 * FacePoints];
    var i := 0;
    while i < FacePoints
      invariant 0 <= i <= FacePoints
      invariant forall n :: 0 <= n < 3 * i ==> positions[n] == FacePositions(result, o)[n]
    {
      FacePositionsAt(result, o, i);
      positions[3 * i + 0] := o.scaleX * result[i].x;
      positions[3 * i + 1] := o.scaleY * (1.0 - result[i].y);
      positions[3 * i + 2] := o.scaleZ * 2.0 * result[i].z;
      i := i + 1;
    }
  }

  /** The smallest box holding two boxes. */
  function Join(a: Box, b: Box): Box
  {
    Box(Min3(a.min, b.min), Max3(a.max, b.max))
  }

  /** The union of a non-empty list of boxes, folded from the left. */
  function Hull(boxes: seq<Box>): Box
    requires |boxes| > 0
  {
    if |boxes| == 1 then boxes[0] else Join(Hull(boxes[..|boxes| - 1]), boxes[|boxes| - 1])
  }

  predicate Below(a: Vec3, b: Vec3)
  {
    a.x <= b.x && a.y <= b.y && a.z <= b.z
  }

  /** Coordinate `c` (0 = x, 1 = y, 2 = z) of a vector. */
  function Coord(v: Vec3, c: nat): real
  {
    if c == 0 then v.x else if c == 1 then v.y else v.z
  }

  /** Coordinate `c` of the box's lower corner is that of some box in the list. */
  ghost predicate MinAttained(b: Box, boxes: seq<Box>, c: nat)
  {
    exists i :: 0 <= i < |boxes| && Coord(b.min, c) == Coord(boxes[i].min, c)
  }

  ghost predicate MaxAttained(b: Box, boxes: seq<Box>, c: nat)
  {
    exists i :: 0 <= i < |boxes| && Coord(b.max, c) == Coord(boxes[i].max, c)
  }

  /** The hull's corners are the exact componentwise minimum and maximum over
      all the boxes: every box lies inside, and each coordinate of each corner
      is attained by some box. */
  lemma {:induction false} HullIsExact(boxes: seq<Box>)
    requires |boxes| > 0
    ensures forall i :: 0 <= i < |boxes| ==> Below(Hull(boxes).min, boxes[i].min) && Below(boxes[i].max, Hull(boxes).max)
    ensures forall c: nat :: c < 3 ==> MinAttained(Hull(boxes), boxes, c)
    ensures forall c: nat :: c < 3 ==> MaxAttained(Hull(boxes), boxes, c)
  {
    if |boxes| > 1 {
      var n := |boxes| - 1;
      var init := boxes[..n];
      HullIsExact(init);
      assert forall i :: 0 <= i < n ==> init[i] == boxes[i];
      var h := Hull(boxes);
      assert h == Join(Hull(init), boxes[n]);
      forall c: nat | c < 3
        ensures MinAttained(Hull(boxes), boxes, c)
        ensures MaxAttained(Hull(boxes), boxes, c)
      {
        if Coord(h.min, c) == Coord(boxes[n].min, c) {
          assert Coord(h.min, c) == Coord(boxes[n].min, c);
        } else {
          assert MinAttained(Hull(init), init, c);
          var j :| 0 <= j < n && Coord(Hull(init).min, c) == Coord(init[j].min, c);
          assert Coord(h.min, c) == Coord(boxes[j].min, c);
        }
        if Coord(h.max, c) == Coord(boxes[n].max, c) {
          assert Coord(h.max, c) == Coord(boxes[n].max, c);
        } else {
          assert MaxAttained(Hull(init), init, c);
          var j :| 0 <= j < n && Coord(Hull(init).max, c) == Coord(init[j].max, c);
          assert Coord(h.max, c) == Coord(boxes[j].max, c);
        }
      }
    } else {
      forall c: nat | c < 3
        ensures MinAttained(Hull(boxes), boxes, c)
        ensures MaxAttained(Hull(boxes), boxes, c)
      {
        assert Coord(Hull(boxes).min, c) == Coord(boxes[0].min, c);
        assert Coord(Hull(boxes).max, c) == Coord(boxes[0].max, c);
      }
    }
  }

  /** The bounding loop of `createPose`: start from child 0 (read unguarded, so
      at least one child is needed) and widen by every child in turn. */
  method AggregateBounds(boxes: seq<Box>) returns (b: Box)
    requires |boxes| > 0
    ensures b == Hull(boxes)
  {
    var min := boxes[0].min;
    var max := boxes[0].max;
    var i := 0;
    while i < |boxes|
      invariant 0 <= i <= |boxes|
      invariant i == 0 ==> Box(min, max) == boxes[0]
      invariant i > 0 ==> Box(min, max) == Hull(boxes[..i])
    {
      min := Min3(min, boxes[i].min);
      max := Max3(max, boxes[i].max);
      assert boxes[..i + 1][..i] == boxes[..i];
      i := i + 1;
    }
    assert boxes[..i] == boxes;
    b := Box(min, max);
  }
}
