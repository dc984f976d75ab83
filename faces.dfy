/**
 * The six faces of a voxel: their ids, outward unit normals, iteration order
 * and the unit-quad corner table (two triangles, six corners) used to place
 * vertices.
 */
module Faces {

  datatype Face = Top | Bottom | Right | Left | Front | Back

  type Vec3 = (int, int, int)

  /** The `repr(usize)` discriminant of a face, its position in `Iter()`. */
  function Id(f: Face): (id: nat)
    ensures id < 6
  {
    match f
    case Top => 0
    case Bottom => 1
    case Right => 2
    case Left => 3
    case Front => 4
    case Back => 5
  }

  /** The face with a given id. */
  function FromId(id: nat): (f: Face)
    requires id < 6
    ensures Id(f) == id
  {
    if id == 0 then Top
    else if id == 1 then Bottom
    else if id == 2 then Right
    else if id == 3 then Left
    else if id == 4 then Front
    else Back
  }

  /** Ids identify faces. */
  lemma FromIdOfId(f: Face)
    ensures FromId(Id(f)) == f
  {
  }

  /** Every face, in declaration order. */
  function Iter(): (r: seq<Face>)
    ensures |r| == 6
    ensures forall i :: 0 <= i < 6 ==> Id(r[i]) == i
    ensures forall f: Face :: r[Id(f)] == f
  {
    [Top, Bottom, Right, Left, Front, Back]
  }

  /** The direction of the neighbour that shares this face. */
  function Offset(f: Face): (d: Vec3)
  {
    match f
    case Top => (0, 1, 0)
    case Bottom => (0, -1, 0)
    case Right => (1, 0, 0)
    case Left => (-1, 0, 0)
    case Front => (0, 0, 1)
    case Back => (0, 0, -1)
  }

  /** Component `i` (0 = x, 1 = y, 2 = z) of a vector. */
  function Comp(v: Vec3, i: nat): int
    requires i < 3
  {
    if i == 0 then v.0 else if i == 1 then v.1 else v.2
  }

  /** The coordinate a face is perpendicular to: y for Top/Bottom, x for Right/Left, z for Front/Back. */
  function Axis(f: Face): (i: nat)
    ensures i < 3
  {
    match f
    case Top => 1
    case Bottom => 1
    case Right => 0
    case Left => 0
    case Front => 2
    case Back => 2
  }

  /** The offset is a unit vector along the face's axis; it points towards positive
    * coordinates exactly for the faces with even id, and faces sharing an axis are
    * the pairs of ids `2k`, `2k + 1`. */
  lemma OffsetIsUnitNormal(f: Face)
    ensures forall i :: 0 <= i < 3 && i != Axis(f) ==> Comp(Offset(f), i) == 0
    ensures Comp(Offset(f), Axis(f)) == (if Id(f) % 2 == 0 then 1 else -1)
    ensures Axis(f) == [1, 0, 2][Id(f) / 2]
  {
  }

  function Sub(a: Vec3, b: Vec3): Vec3 {
    (a.0 - b.0, a.1 - b.1, a.2 - b.2)
  }

  function Cross(a: Vec3, b: Vec3): Vec3 {
    (a.1 * b.2 - a.2 * b.1, a.2 * b.0 - a.0 * b.2, a.0 * b.1 - a.1 * b.0)
  }

  /** The normal of the triangle `p, q, s` by the right-hand rule. */
  function Normal(p: Vec3, q: Vec3, s: Vec3): Vec3 {
    Cross(Sub(q, p), Sub(s, p))
  }

  /** A corner of the unit cube. */
  predicate UnitCorner(c: Vec3) {
    0 <= c.0 <= 1 && 0 <= c.1 <= 1 && 0 <= c.2 <= 1
  }

  /** The six corners (two triangles) of the face of the unit cube at the origin;
    * the two triangles share their diagonal. */
  function Coords(f: Face): (r: seq<Vec3>)
    ensures |r| == 6
    ensures r[2] == r[3] && r[5] == r[0]
  {
    match f
    case Top => [(0, 1, 1), (1, 1, 1), (1, 1, 0), (1, 1, 0), (0, 1, 0), (0, 1, 1)]
    case Bottom => [(0, 0, 0), (1, 0, 0), (1, 0, 1), (1, 0, 1), (0, 0, 1), (0, 0, 0)]
    case Right => [(1, 0, 1), (1, 0, 0), (1, 1, 0), (1, 1, 0), (1, 1, 1), (1, 0, 1)]
    case Left => [(0, 0, 0), (0, 0, 1), (0, 1, 1), (0, 1, 1), (0, 1, 0), (0, 0, 0)]
    case Front => [(0, 0, 1), (1, 0, 1), (1, 1, 1), (1, 1, 1), (0, 1, 1), (0, 0, 1)]
    case Back => [(1, 0, 0), (0, 0, 0), (0, 1, 0), (0, 1, 0), (1, 1, 0), (1, 0, 0)]
  }

  /** Every corner of a face's table is a corner of the unit cube lying on that face:
    * its coordinate along the face's axis is 1 for the positive face and 0 for the
    * negative one. */
  lemma CoordsOnFace(f: Face, i: nat)
    requires i < 6
    ensures UnitCorner(Coords(f)[i])
    ensures Comp(Coords(f)[i], Axis(f)) == (if Id(f) % 2 == 0 then 1 else 0)
  {
  }

  /** Both triangles of the face's table wind counter-clockwise seen from outside
    * the cube: their normal is the face's offset. */
  predicate WindsOutward(f: Face) {
    var r := Coords(f);
    Normal(r[0], r[1], r[2]) == Offset(f) && Normal(r[3], r[4], r[5]) == Offset(f)
  }

  lemma WindsTop()
    ensures WindsOutward(Top)
  {
    var r := Coords(Top);
    assert Sub(r[1], r[0]) == (1, 0, 0) && Sub(r[2], r[0]) == (1, 0, -1);
    assert Sub(r[4], r[3]) == (-1, 0, 0) && Sub(r[5], r[3]) == (-1, 0, 1);
    assert Cross((1, 0, 0), (1, 0, -1)) == (0, 1, 0);
    assert Cross((-1, 0, 0), (-1, 0, 1)) == (0, 1, 0);
  }

  lemma WindsBottom()
    ensures WindsOutward(Bottom)
  {
    var r := Coords(Bottom);
    assert Sub(r[1], r[0]) == (1, 0, 0) && Sub(r[2], r[0]) == (1, 0, 1);
    assert Sub(r[4], r[3]) == (-1, 0, 0) && Sub(r[5], r[3]) == (-1, 0, -1);
    assert Cross((1, 0, 0), (1, 0, 1)) == (0, -1, 0);
    assert Cross((-1, 0, 0), (-1, 0, -1)) == (0, -1, 0);
  }

  lemma WindsRight()
    ensures WindsOutward(Right)
  {
    var r := Coords(Right);
    assert Sub(r[1], r[0]) == (0, 0, -1) && Sub(r[2], r[0]) == (0, 1, -1);
    assert Sub(r[4], r[3]) == (0, 0, 1) && Sub(r[5], r[3]) == (0, -1, 1);
    assert Cross((0, 0, -1), (0, 1, -1)) == (1, 0, 0);
    assert Cross((0, 0, 1), (0, -1, 1)) == (1, 0, 0);
  }

  lemma WindsLeft()
    ensures WindsOutward(Left)
  {
    var r := Coords(Left);
    assert Sub(r[1], r[0]) == (0, 0, 1) && Sub(r[2], r[0]) == (0, 1, 1);
    assert Sub(r[4], r[3]) == (0, 0, -1) && Sub(r[5], r[3]) == (0, -1, -1);
    assert Cross((0, 0, 1), (0, 1, 1)) == (-1, 0, 0);
    assert Cross((0, 0, -1), (0, -1, -1)) == (-1, 0, 0);
  }

  lemma WindsFront()
    ensures WindsOutward(Front)
  {
    var r := Coords(Front);
    assert Sub(r[1], r[0]) == (1, 0, 0) && Sub(r[2], r[0]) == (1, 1, 0);
    assert Sub(r[4], r[3]) == (-1, 0, 0) && Sub(r[5], r[3]) == (-1, -1, 0);
    assert Cross((1, 0, 0), (1, 1, 0)) == (0, 0, 1);
    assert Cross((-1, 0, 0), (-1, -1, 0)) == (0, 0, 1);
  }

  lemma WindsBack()
    ensures WindsOutward(Back)
  {
    var r := Coords(Back);
    assert Sub(r[1], r[0]) == (-1, 0, 0) && Sub(r[2], r[0]) == (-1, 1, 0);
    assert Sub(r[4], r[3]) == (1, 0, 0) && Sub(r[5], r[3]) == (1, -1, 0);
    assert Cross((-1, 0, 0), (-1, 1, 0)) == (0, 0, -1);
    assert Cross((1, 0, 0), (1, -1, 0)) == (0, 0, -1);
  }

  /** Every face's corner table winds outward. */
  lemma CoordsWinding(f: Face)
    ensures WindsOutward(f)
  {
    match f
    case Top => WindsTop();
    case Bottom => WindsBottom();
    case Right => WindsRight();
    case Left => WindsLeft();
    case Front => WindsFront();
    case Back => WindsBack();
  }
}
