/**
 * The Python angle tools: from the positions of the tracked landmarks, the six
 * arm and shoulder joint angles and the four left/right symmetry angles, each
 * produced only when every landmark it needs is present.
 */
module BodyAngles {
  import opened Geometry

  /** MediaPipe's pose landmarks, in the order of their indices 0 to 32. */
  datatype PoseLandmark =
    | Nose | LeftEyeInner | LeftEye | LeftEyeOuter | RightEyeInner | RightEye | RightEyeOuter
    | LeftEar | RightEar | MouthLeft | MouthRight
    | LeftShoulder | RightShoulder | LeftElbow | RightElbow | LeftWrist | RightWrist
    | LeftPinky | RightPinky | LeftIndex | RightIndex | LeftThumb | RightThumb
    | LeftHip | RightHip | LeftKnee | RightKnee | LeftAnkle | RightAnkle
    | LeftHeel | RightHeel | LeftFootIndex | RightFootIndex

  /** One entry of `posiciones`: pixel coordinates, depth and visibility of a landmark. */
  datatype Position = Position(x: real, y: real, z: real, visibility: real) {
    function Planar(): Point {
      Point(x, y)
    }
  }

  type Positions = map<PoseLandmark, Position>

  /** A computed angle in degrees, or the NaN that numpy yields for a zero-length side. */
  datatype Measure = Degrees(value: real) | NotANumber

  /**
   * `angulo_3_puntos(p1, p2, p3)`: the angle at `p2`. When one side has length zero
   * the cosine is 0/0, which numpy evaluates to NaN, and NaN survives the clip and
   * the arc cosine.
   */
  function Angle3(n: Numerics, p1: Point, p2: Point, p3: Point): (m: Measure)
    requires Sound(n)
    ensures m.Degrees? ==> 0.0 <= m.value <= 180.0
    ensures m.NotANumber? <==> p1 == p2 || p3 == p2
  {
    var ba := Sub(p1, p2);
    var bc := Sub(p3, p2);
    var norms := Length(n, ba) * Length(n, bc);
    ZeroLength(n, p1, p2);
    ZeroLength(n, p3, p2);
    ZeroProduct(Length(n, ba), Length(n, bc));
    if norms == 0.0 then NotANumber
    else Degrees(n.acosDeg(Clamp(-1.0, 1.0, Dot(ba, bc) / norms)))
  }

  /** The angle is measured at the middle argument: the two outer points can be swapped. */
  lemma Angle3Symmetric(n: Numerics, p1: Point, p2: Point, p3: Point)
    requires Sound(n)
    ensures Angle3(n, p1, p2, p3) == Angle3(n, p3, p2, p1)
  {
    var ba, bc := Sub(p1, p2), Sub(p3, p2);
    assert Dot(ba, bc) == Dot(bc, ba);
    assert Length(n, ba) * Length(n, bc) == Length(n, bc) * Length(n, ba);
  }

  /**
   * `simetria_posiciones(pos1, pos2)`: the absolute direction of the segment between
   * the two points. The arc tangent never exceeds 180 degrees, so the fold-back of
   * angles above 180 never applies and the result is the plain absolute value.
   */
  function Symmetry(n: Numerics, p1: Point, p2: Point): (m: Measure)
    requires Sound(n)
    ensures m.Degrees? && 0.0 <= m.value <= 180.0
    ensures m.value == Abs(n.atan2Deg(Sub(p1, p2).y, Sub(p1, p2).x))
  {
    var delta := Sub(p1, p2);
    var angle := Abs(n.atan2Deg(delta.y, delta.x));
    Degrees(if angle > 180.0 then 360.0 - angle else angle)
  }

  /** The keys of the angle dictionary, `codo_izquierdo` to `brazo_izquierdo`. */
  datatype AngleName =
    | CodoIzquierdo | CodoDerecho | HombroDerecho | HombroIzquierdo | BrazoDerecho | BrazoIzquierdo

  /** The keys of the symmetry dictionary. */
  datatype SymmetryName = SimetriaHombros | SimetriaCodos | SimetriaCadera | SimetriaMunecas

  /** The three landmarks an angle is measured from, the vertex in the middle. */
  datatype Triple = Triple(first: PoseLandmark, vertex: PoseLandmark, last: PoseLandmark)

  function AngleLandmarks(k: AngleName): (t: Triple)
    ensures t.first != t.vertex && t.vertex != t.last && t.first != t.last
  {
    match k
    case CodoIzquierdo => Triple(LeftShoulder, LeftElbow, LeftWrist)
    case CodoDerecho => Triple(RightShoulder, RightElbow, RightWrist)
    case HombroDerecho => Triple(RightHip, RightShoulder, RightElbow)
    case HombroIzquierdo => Triple(LeftHip, LeftShoulder, LeftElbow)
    case BrazoDerecho => Triple(RightHip, RightShoulder, RightWrist)
    case BrazoIzquierdo => Triple(LeftHip, LeftShoulder, LeftWrist)
  }

  /** The right and left landmark of a symmetry pair. */
  function SymmetryLandmarks(k: SymmetryName): (pair: (PoseLandmark, PoseLandmark))
    ensures pair.0 != pair.1
  {
    match k
    case SimetriaHombros => (RightShoulder, LeftShoulder)
    case SimetriaCodos => (RightElbow, LeftElbow)
    case SimetriaCadera => (RightHip, LeftHip)
    case SimetriaMunecas => (RightWrist, LeftWrist)
  }

  /** The order in which the source tries the keys. */
  const AngleOrder: seq<AngleName> :=
    [CodoIzquierdo, CodoDerecho, HombroDerecho, HombroIzquierdo, BrazoDerecho, BrazoIzquierdo]
  const SymmetryOrder: seq<SymmetryName> := [SimetriaHombros, SimetriaCodos, SimetriaCadera, SimetriaMunecas]

  predicate HasTriple(pos: Positions, t: Triple) {
    t.first in pos && t.vertex in pos && t.last in pos
  }

  predicate HasPair(pos: Positions, pair: (PoseLandmark, PoseLandmark)) {
    pair.0 in pos && pair.1 in pos
  }

  function AngleAt(n: Numerics, pos: Positions, t: Triple): Measure
    requires Sound(n)
    requires HasTriple(pos, t)
  {
    Angle3(n, pos[t.first].Planar(), pos[t.vertex].Planar(), pos[t.last].Planar())
  }

  function SymmetryOf(n: Numerics, pos: Positions, pair: (PoseLandmark, PoseLandmark)): Measure
    requires Sound(n)
    requires HasPair(pos, pair)
  {
    Symmetry(n, pos[pair.0].Planar(), pos[pair.1].Planar())
  }

  /** Trying the angle keys `names` in order, adding each one whose landmarks are all present. */
  function AngleFold(n: Numerics, pos: Positions, names: seq<AngleName>): (angles: map<AngleName, Measure>)
    requires Sound(n)
    ensures forall k :: k in angles <==> k in names && HasTriple(pos, AngleLandmarks(k))
    ensures forall k :: k in angles ==> angles[k] == AngleAt(n, pos, AngleLandmarks(k))
  {
    if names == [] then map[]
    else
      var prev := AngleFold(n, pos, names[..|names| - 1]);
      var k := names[|names| - 1];
      assert names == names[..|names| - 1] + [k];
      if HasTriple(pos, AngleLandmarks(k)) then prev[k := AngleAt(n, pos, AngleLandmarks(k))] else prev
  }

  /** Trying the symmetry keys `names` in order, adding each one whose pair is present. */
  function SymmetryFold(n: Numerics, pos: Positions, names: seq<SymmetryName>): (symmetries: map<SymmetryName, Measure>)
    requires Sound(n)
    ensures forall k :: k in symmetries <==> k in names && HasPair(pos, SymmetryLandmarks(k))
    ensures forall k :: k in symmetries ==> symmetries[k] == SymmetryOf(n, pos, SymmetryLandmarks(k))
  {
    if names == [] then map[]
    else
      var prev := SymmetryFold(n, pos, names[..|names| - 1]);
      var k := names[|names| - 1];
      assert names == names[..|names| - 1] + [k];
      if HasPair(pos, SymmetryLandmarks(k)) then prev[k := SymmetryOf(n, pos, SymmetryLandmarks(k))] else prev
  }

  datatype BodyReading = BodyReading(angles: map<AngleName, Measure>, symmetries: map<SymmetryName, Measure>)

  /**
   * `calcular_angulos_corporales(posiciones)`: an angle key is present exactly when its
   * three landmarks are, a symmetry key exactly when both sides of its pair are, and
   * each value is measured from those landmarks.
   */
  function BodyAngles(n: Numerics, pos: Positions): (r: BodyReading)
    requires Sound(n)
    ensures forall k :: k in r.angles <==> HasTriple(pos, AngleLandmarks(k))
    ensures forall k :: k in r.angles ==> r.angles[k] == AngleAt(n, pos, AngleLandmarks(k))
    ensures forall k :: k in r.symmetries <==> HasPair(pos, SymmetryLandmarks(k))
    ensures forall k :: k in r.symmetries ==> r.symmetries[k] == SymmetryOf(n, pos, SymmetryLandmarks(k))
  {
    EveryKeyTried();
    BodyReading(AngleFold(n, pos, AngleOrder), SymmetryFold(n, pos, SymmetryOrder))
  }

  /** Every key appears in the order the source tries them. */
  lemma EveryKeyTried()
    ensures forall k: AngleName :: k in AngleOrder
    ensures forall k: SymmetryName :: k in SymmetryOrder
  {
    forall k: AngleName
      ensures k in AngleOrder
    {
      match k
      case CodoIzquierdo => assert AngleOrder[0] == k;
      case CodoDerecho => assert AngleOrder[1] == k;
      case HombroDerecho => assert AngleOrder[2] == k;
      case HombroIzquierdo => assert AngleOrder[3] == k;
      case BrazoDerecho => assert AngleOrder[4] == k;
      case BrazoIzquierdo => assert AngleOrder[5] == k;
    }
    forall k: SymmetryName
      ensures k in SymmetryOrder
    {
      match k
      case SimetriaHombros => assert SymmetryOrder[0] == k;
      case SimetriaCodos => assert SymmetryOrder[1] == k;
      case SimetriaCadera => assert SymmetryOrder[2] == k;
      case SimetriaMunecas => assert SymmetryOrder[3] == k;
    }
  }

  /** Every measured angle is NaN or in [0, 180], and every symmetry is in [0, 180]. */
  lemma ReadingsInRange(n: Numerics, pos: Positions)
    requires Sound(n)
    ensures forall k :: k in BodyAngles(n, pos).angles && BodyAngles(n, pos).angles[k].Degrees? ==>
      0.0 <= BodyAngles(n, pos).angles[k].value <= 180.0
    ensures forall k :: k in BodyAngles(n, pos).symmetries ==>
      BodyAngles(n, pos).symmetries[k].Degrees? && 0.0 <= BodyAngles(n, pos).symmetries[k].value <= 180.0
  {
  }

  /** No landmarks, no readings: both dictionaries are empty. */
  lemma NoPositionsNoReadings(n: Numerics)
    requires Sound(n)
    ensures BodyAngles(n, map[]) == BodyReading(map[], map[])
  {
    var r := BodyAngles(n, map[]);
    assert r.angles.Keys == {};
    assert r.symmetries.Keys == {};
  }

  /** Seeing more landmarks never loses a reading, and never changes one already there. */
  lemma MoreLandmarksMoreReadings(n: Numerics, pos: Positions, more: Positions)
    requires Sound(n)
    requires forall j :: j in pos ==> j in more && more[j] == pos[j]
    ensures forall k :: k in BodyAngles(n, pos).angles ==>
      k in BodyAngles(n, more).angles && BodyAngles(n, more).angles[k] == BodyAngles(n, pos).angles[k]
    ensures forall k :: k in BodyAngles(n, pos).symmetries ==>
      k in BodyAngles(n, more).symmetries && BodyAngles(n, more).symmetries[k] == BodyAngles(n, pos).symmetries[k]
  {
  }

  /** Landmarks outside the eight arm, shoulder and hip landmarks play no part in any reading. */
  lemma OnlyTrackedLandmarksMatter(n: Numerics, pos: Positions, j: PoseLandmark, p: Position)
    requires Sound(n)
    requires j !in TrackedLandmarks
    ensures BodyAngles(n, pos[j := p]) == BodyAngles(n, pos)
  {
    UntrackedAnglesUnchanged(n, pos, j, p);
    UntrackedSymmetriesUnchanged(n, pos, j, p);
  }

  lemma UntrackedAnglesUnchanged(n: Numerics, pos: Positions, j: PoseLandmark, p: Position)
    requires Sound(n)
    requires j !in TrackedLandmarks
    ensures BodyAngles(n, pos[j := p]).angles == BodyAngles(n, pos).angles
  {
    var moved := pos[j := p];
    forall k: AngleName
      ensures HasTriple(moved, AngleLandmarks(k)) <==> HasTriple(pos, AngleLandmarks(k))
      ensures HasTriple(pos, AngleLandmarks(k)) ==>
        AngleAt(n, moved, AngleLandmarks(k)) == AngleAt(n, pos, AngleLandmarks(k))
    {
      ReadingsUseTracked(k, SimetriaHombros);
    }
    var a, b := BodyAngles(n, moved).angles, BodyAngles(n, pos).angles;
    assert a.Keys == b.Keys;
  }

  lemma UntrackedSymmetriesUnchanged(n: Numerics, pos: Positions, j: PoseLandmark, p: Position)
    requires Sound(n)
    requires j !in TrackedLandmarks
    ensures BodyAngles(n, pos[j := p]).symmetries == BodyAngles(n, pos).symmetries
  {
    var moved := pos[j := p];
    forall k: SymmetryName
      ensures HasPair(moved, SymmetryLandmarks(k)) <==> HasPair(pos, SymmetryLandmarks(k))
      ensures HasPair(pos, SymmetryLandmarks(k)) ==>
        SymmetryOf(n, moved, SymmetryLandmarks(k)) == SymmetryOf(n, pos, SymmetryLandmarks(k))
    {
      ReadingsUseTracked(CodoIzquierdo, k);
    }
    var a, b := BodyAngles(n, moved).symmetries, BodyAngles(n, pos).symmetries;
    assert a.Keys == b.Keys;
  }

  lemma ReadingsUseTracked(a: AngleName, s: SymmetryName)
    ensures AngleLandmarks(a).first in TrackedLandmarks
    ensures AngleLandmarks(a).vertex in TrackedLandmarks
    ensures AngleLandmarks(a).last in TrackedLandmarks
    ensures SymmetryLandmarks(s).0 in TrackedLandmarks && SymmetryLandmarks(s).1 in TrackedLandmarks
  {
  }

  /** The eight landmarks the capture keeps (`posx`), which are all the readings use. */
  const TrackedLandmarks: set<PoseLandmark> :=
    {RightShoulder, RightElbow, RightWrist, RightHip, LeftShoulder, LeftElbow, LeftWrist, LeftHip}
}
