/**
 * The discrete logic of the Rubik's cube scene: which colour each of a
 * cubie's six face slots gets, the 27 cubies the initialisation loop
 * creates, and the choice of rotation axis and direction from a drag on
 * one of the cube's faces. Rendering is not modelled.
 */
module Rubik {
  import opened Options

  /** Index of the inner (dark grey) colour in the colour table; indices
      0 to 5 are red, orange, blue, yellow, white and green. */
  const Inner: nat := 6

  /** Whether face slot `slot` of the cubie at (x, y, z) shows its colour:
      slots 0 and 1 are the x = 1 and x = -1 faces, 2 and 3 the y faces,
      4 and 5 the z faces. */
  predicate OnFace(slot: nat, x: int, y: int, z: int)
  {
    if slot == 0 then x == 1
    else if slot == 1 then x == -1
    else if slot == 2 then y == 1
    else if slot == 3 then y == -1
    else if slot == 4 then z == 1
    else slot == 5 && z == -1
  }

  /** The colours of the six slots: slot i shows colour i on its face and
      the inner colour otherwise. */
  function FaceColours(x: int, y: int, z: int): (r: seq<nat>)
    ensures |r| == 6
  {
    seq(6, i requires 0 <= i < 6 => if OnFace(i, x, y, z) then i else Inner)
  }

  /** `initFaces`: start with six inner slots, then colour each slot whose
      face the cubie lies on. */
  method InitFaces(x: int, y: int, z: int) returns (faces: seq<nat>)
    ensures faces == FaceColours(x, y, z)
  {
    var local := new nat[6](_ => Inner);
    if x == 1 { local[0] := 0; }
    if x == -1 { local[1] := 1; }
    if y == 1 { local[2] := 2; }
    if y == -1 { local[3] := 3; }
    if z == 1 { local[4] := 4; }
    if z == -1 { local[5] := 5; }
    faces := local[..];
  }

  /** Number of slots showing a colour other than the inner one. */
  function ColouredCount(faces: seq<nat>): nat
  {
    if faces == [] then 0 else (if faces[0] != Inner then 1 else 0) + ColouredCount(faces[1..])
  }

  /** 1 when the coordinate is on an outer layer, 0 otherwise. */
  function Outer(v: int): nat
  {
    if v == 1 || v == -1 then 1 else 0
  }

  predicate InCube(x: int, y: int, z: int)
  {
    -1 <= x <= 1 && -1 <= y <= 1 && -1 <= z <= 1
  }

  /** A cubie shows one colour per outer coordinate: three for a corner,
      two for an edge, one for a centre and none for the core. */
  lemma ColouredSlotCount(x: int, y: int, z: int)
    requires InCube(x, y, z)
    ensures ColouredCount(FaceColours(x, y, z)) == Outer(x) + Outer(y) + Outer(z)
  {
    var f := FaceColours(x, y, z);
    assert f[1..][1..][1..][1..][1..][1..] == [];
    assert ColouredCount(f[1..][1..][1..][1..][1..]) == if z == -1 then 1 else 0;
    assert ColouredCount(f[1..][1..][1..][1..]) == Outer(z);
    assert ColouredCount(f[1..][1..][1..]) == (if y == -1 then 1 else 0) + Outer(z);
    assert ColouredCount(f[1..][1..]) == Outer(y) + Outer(z);
    assert ColouredCount(f[1..]) == (if x == -1 then 1 else 0) + Outer(y) + Outer(z);
  }

  /** Opposite slots are never both coloured. */
  lemma OppositeSlotsExclusive(x: int, y: int, z: int)
    ensures forall s :: 0 <= s < 3 ==> !(FaceColours(x, y, z)[2 * s] != Inner && FaceColours(x, y, z)[2 * s + 1] != Inner)
  {
    var f := FaceColours(x, y, z);
    forall s | 0 <= s < 3
      ensures !(f[2 * s] != Inner && f[2 * s + 1] != Inner)
    {
      if s == 0 {
        assert f[0] != Inner <==> x == 1;
        assert f[1] != Inner <==> x == -1;
      } else if s == 1 {
        assert f[2] != Inner <==> y == 1;
        assert f[3] != Inner <==> y == -1;
      } else {
        assert f[4] != Inner <==> z == 1;
        assert f[5] != Inner <==> z == -1;
      }
    }
  }

  // ---------------------------------------------------------------------
  // The 27 cubies

  /** The decimal text of a coordinate, as a template literal writes it. */
  function CoordText(v: int): string
    requires -1 <= v <= 1
  {
    if v == -1 then "-1" else if v == 0 then "0" else "1"
  }

  /** The cubie name `${x}${y}${z}`. */
  function Name(x: int, y: int, z: int): string
    requires InCube(x, y, z)
  {
    CoordText(x) + CoordText(y) + CoordText(z)
  }

  /** Reads one coordinate off the front of a name. */
  function ParseCoord(s: string): Option<(int, string)>
  {
    if |s| >= 2 && s[0] == '-' && s[1] == '1' then Some((-1, s[2..]))
    else if |s| >= 1 && s[0] == '0' then Some((0, s[1..]))
    else if |s| >= 1 && s[0] == '1' then Some((1, s[1..]))
    else None
  }

  /** Reads the three coordinates back out of a name. */
  function DecodeName(s: string): Option<(int, int, int)>
  {
    match ParseCoord(s)
    case None => None
    case Some((x, r1)) =>
      match ParseCoord(r1)
      case None => None
      case Some((y, r2)) =>
        match ParseCoord(r2)
        case None => None
        case Some((z, r3)) => if r3 == [] then Some((x, y, z)) else None
  }

  lemma ParseCoordText(v: int, rest: string)
    requires -1 <= v <= 1
    ensures ParseCoord(CoordText(v) + rest) == Some((v, rest))
  {
    var s := CoordText(v) + rest;
    if v == -1 {
      assert s[2..] == rest;
    } else {
      assert s[1..] == rest;
    }
  }

  /** A name gives back the coordinates it was made from. */
  lemma DecodeNameRoundTrip(x: int, y: int, z: int)
    requires InCube(x, y, z)
    ensures DecodeName(Name(x, y, z)) == Some((x, y, z))
  {
    var tail := CoordText(y) + CoordText(z);
    assert Name(x, y, z) == CoordText(x) + tail;
    ParseCoordText(x, tail);
    ParseCoordText(y, CoordText(z));
    assert CoordText(z) == CoordText(z) + [];
    ParseCoordText(z, []);
  }

  /** Distinct positions have distinct names. */
  lemma NamesDistinct(x1: int, y1: int, z1: int, x2: int, y2: int, z2: int)
    requires InCube(x1, y1, z1) && InCube(x2, y2, z2)
    requires (x1, y1, z1) != (x2, y2, z2)
    ensures Name(x1, y1, z1) != Name(x2, y2, z2)
  {
    DecodeNameRoundTrip(x1, y1, z1);
    DecodeNameRoundTrip(x2, y2, z2);
  }

  datatype Position = Position(x: real, y: real, z: real)

  /** One cubie as the scene holds it. */
  datatype Cubie = Cubie(name: string, position: Position, faces: seq<nat>)

  /** The position `[x + x/20, y + y/20, z + z/20]`: a small gap between cubies. */
  function Spread(v: int): real
  {
    v as real + (v as real) / 20.0
  }

  /** The coordinates of the cubie the loop creates `i`-th: x varies
      slowest, z fastest. */
  function CoordsAt(i: nat): (c: (int, int, int))
    requires i < 27
    ensures InCube(c.0, c.1, c.2)
  {
    (i / 9 - 1, (i / 3) % 3 - 1, i % 3 - 1)
  }

  function CubieAt(i: nat): Cubie
    requires i < 27
  {
    var (x, y, z) := CoordsAt(i);
    Cubie(Name(x, y, z), Position(Spread(x), Spread(y), Spread(z)), FaceColours(x, y, z))
  }

  /** The index of the cubie at (x, y, z) in creation order. */
  lemma IndexOfCoords(x: int, y: int, z: int)
    requires InCube(x, y, z)
    ensures 9 * (x + 1) + 3 * (y + 1) + (z + 1) < 27
    ensures CoordsAt(9 * (x + 1) + 3 * (y + 1) + (z + 1)) == (x, y, z)
  {
  }

  /** The initialisation effect's triple loop over x, then y, then z, each
      from -1 to 1. */
  method InitCubes() returns (cubes: seq<Cubie>)
    ensures |cubes| == 27
    ensures forall i :: 0 <= i < 27 ==> cubes[i] == CubieAt(i)
  {
    cubes := [];
    var x := -1;
    while x <= 1
      invariant -1 <= x <= 2
      invariant |cubes| == 9 * (x + 1)
      invariant forall i :: 0 <= i < |cubes| ==> cubes[i] == CubieAt(i)
    {
      var y := -1;
      while y <= 1
        invariant -1 <= y <= 2
        invariant |cubes| == 9 * (x + 1) + 3 * (y + 1)
        invariant forall i :: 0 <= i < |cubes| ==> cubes[i] == CubieAt(i)
      {
        var z := -1;
        while z <= 1
          invariant -1 <= z <= 2
          invariant |cubes| == 9 * (x + 1) + 3 * (y + 1) + (z + 1)
          invariant forall i :: 0 <= i < |cubes| ==> cubes[i] == CubieAt(i)
        {
          var faces := InitFaces(x, y, z);
          IndexOfCoords(x, y, z);
          cubes := cubes + [Cubie(Name(x, y, z), Position(Spread(x), Spread(y), Spread(z)), faces)];
          z := z + 1;
        }
        y := y + 1;
      }
      x := x + 1;
    }
  }

  /** Creation order lists the positions without repetition: the index
      can be read back from the coordinates. */
  lemma CoordsDetermineIndex(i: nat)
    requires i < 27
    ensures i == 9 * (CoordsAt(i).0 + 1) + 3 * (CoordsAt(i).1 + 1) + (CoordsAt(i).2 + 1)
  {
    assert i == 9 * (i / 9) + 3 * ((i / 3) % 3) + i % 3 by {
      assert i / 3 == 3 * (i / 9) + (i / 3) % 3;
    }
  }

  /** Every position of the 3x3x3 cube gets a cubie. */
  lemma CubiesCoverCube(x: int, y: int, z: int)
    requires InCube(x, y, z)
    ensures exists i :: 0 <= i < 27 && CoordsAt(i) == (x, y, z)
  {
    IndexOfCoords(x, y, z);
  }

  /** No two cubies share a name. */
  lemma CubieNamesDistinct(i: nat, j: nat)
    requires i < j < 27
    ensures CubieAt(i).name != CubieAt(j).name
  {
    var (x1, y1, z1) := CoordsAt(i);
    var (x2, y2, z2) := CoordsAt(j);
    CoordsDetermineIndex(i);
    CoordsDetermineIndex(j);
    NamesDistinct(x1, y1, z1, x2, y2, z2);
  }

  // ---------------------------------------------------------------------
  // Drag direction

  datatype Axis = X | Y | Z

  /** The outer face a drag starts on. */
  datatype Face = PosX | PosY | PosZ | NegX | NegY | NegZ

  datatype Rotation = Rotation(axis: Axis, direction: int)

  datatype Point = Point(x: real, y: real, z: real)

  const FaceBound: real := 1.5

  /** The face region of the start point, tested in the order +x, +y, +z,
      -x, -y, -z. */
  function FaceOf(p: Point): (f: Option<Face>)
    ensures f == Some(PosX) <==> p.x > FaceBound
    ensures f.None? <==> -FaceBound <= p.x <= FaceBound && -FaceBound <= p.y <= FaceBound && -FaceBound <= p.z <= FaceBound
  {
    if p.x > FaceBound then Some(PosX)
    else if p.y > FaceBound then Some(PosY)
    else if p.z > FaceBound then Some(PosZ)
    else if p.x < -FaceBound then Some(NegX)
    else if p.y < -FaceBound then Some(NegY)
    else if p.z < -FaceBound then Some(NegZ)
    else None
  }

  function Normal(f: Face): Axis
  {
    match f
    case PosX => X case NegX => X
    case PosY => Y case NegY => Y
    case PosZ => Z case NegZ => Z
  }

  function Opposite(f: Face): Face
  {
    match f
    case PosX => NegX case NegX => PosX
    case PosY => NegY case NegY => PosY
    case PosZ => NegZ case NegZ => PosZ
  }

  /** `cond ? a : b` over the directions. */
  function Sign(cond: bool, a: int, b: int): int
  {
    if cond then a else b
  }

  /** The decision for a drag that starts on face `f`. */
  function DirectionOnFace(f: Face, dx: real, dy: real, dz: real, absX: real, absY: real, absZ: real, limit: real): Option<Rotation>
  {
    match f
    case PosX =>
      if absY > limit || absZ > limit then
        if absY > absZ then Some(Rotation(Z, Sign(dy < 0.0, 1, -1))) else Some(Rotation(Y, Sign(dz < 0.0, -1, 1)))
      else None
    case PosY =>
      if absX > limit || absZ > limit then
        if absX > absZ then Some(Rotation(Z, Sign(dx < 0.0, -1, 1))) else Some(Rotation(X, Sign(dz < 0.0, 1, -1)))
      else None
    case PosZ =>
      if absX > limit || absY > limit then
        if absX > absY then Some(Rotation(Y, Sign(dx < 0.0, 1, -1))) else Some(Rotation(X, Sign(dy < 0.0, -1, 1)))
      else None
    case NegX =>
      if absY > limit || absZ > limit then
        if absY > absZ then Some(Rotation(Z, Sign(dy < 0.0, -1, 1))) else Some(Rotation(Y, Sign(dz < 0.0, 1, -1)))
      else None
    case NegY =>
      if absX > limit || absZ > limit then
        if absX > absZ then Some(Rotation(Z, Sign(dx < 0.0, 1, -1))) else Some(Rotation(X, Sign(dz < 0.0, -1, 1)))
      else None
    case NegZ =>
      if absX > limit || absY > limit then
        if absX > absY then Some(Rotation(Y, Sign(dx < 0.0, -1, 1))) else Some(Rotation(X, Sign(dy < 0.0, 1, -1)))
      else None
  }

  /** `recognizeDirection`. */
  function RecognizeDirection(start: Point, dx: real, dy: real, dz: real, absX: real, absY: real, absZ: real, limit: real): Option<Rotation>
  {
    match FaceOf(start)
    case None => None
    case Some(f) => DirectionOnFace(f, dx, dy, dz, absX, absY, absZ, limit)
  }

  /** The two in-plane magnitudes of a face: those of the axes other than its normal. */
  function InPlane(f: Face, absX: real, absY: real, absZ: real): (real, real)
  {
    match Normal(f)
    case X => (absY, absZ)
    case Y => (absX, absZ)
    case Z => (absX, absY)
  }

  /** No rotation is chosen iff the start is on no face, or neither in-plane
      magnitude exceeds the limit; a chosen rotation turns about an axis
      other than the face's normal, by +1 or -1. */
  lemma RecognizeDirectionSpec(start: Point, dx: real, dy: real, dz: real, absX: real, absY: real, absZ: real, limit: real)
    ensures var r := RecognizeDirection(start, dx, dy, dz, absX, absY, absZ, limit);
      && (r.None? <==> (FaceOf(start).None? ||
            (InPlane(FaceOf(start).value, absX, absY, absZ).0 <= limit && InPlane(FaceOf(start).value, absX, absY, absZ).1 <= limit)))
      && (r.Some? ==> r.value.axis != Normal(FaceOf(start).value) && (r.value.direction == 1 || r.value.direction == -1))
  {
  }

  /** The larger in-plane magnitude picks the axis: the drag turns about
      the remaining axis; a tie goes to the second in-plane axis. */
  lemma PosXAxisChoice(dx: real, dy: real, dz: real, absX: real, absY: real, absZ: real, limit: real)
    requires absY > limit || absZ > limit
    ensures var r := DirectionOnFace(PosX, dx, dy, dz, absX, absY, absZ, limit);
      r.Some? && (r.value.axis == Z <==> absY > absZ) && (r.value.axis == Y <==> absY <= absZ)
  {
  }

  /** For the same drag, opposite faces choose the same axis and turn the
      opposite way. */
  lemma OppositeFacesOppositeDirections(f: Face, dx: real, dy: real, dz: real, absX: real, absY: real, absZ: real, limit: real)
    ensures var a := DirectionOnFace(f, dx, dy, dz, absX, absY, absZ, limit);
      var b := DirectionOnFace(Opposite(f), dx, dy, dz, absX, absY, absZ, limit);
      && (a.None? <==> b.None?)
      && (a.Some? ==> b.value.axis == a.value.axis && b.value.direction == -a.value.direction)
  {
  }

  /** The start point's face wins in priority order: a point beyond both
      x = 1.5 and y = 1.5 counts as on the +x face. */
  lemma FacePriority(p: Point)
    requires p.x > FaceBound && p.y > FaceBound
    ensures FaceOf(p) == Some(PosX)
  {
  }
}
