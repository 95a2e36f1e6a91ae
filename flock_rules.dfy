/** The per-frame flocking rules of ARFlock/ViewController.swift as functions of the flock's state:
    the four steering terms, the speed limit, the derived orientation, one ship's turn in the
    frame loop and the whole frame. FlockController.UpdateAtTime is proved to compute Frame. */
module FlockRules {
  import opened Vectors
  import opened Wrappers
  import opened Ships

  /** Ships closer than this push each other away. */
  const SeparationRadius := 5.0
  /** Weights applied to the four steering terms before they are added to the velocity. */
  const CohesionWeight := 0.01
  const SeparationWeight := 0.01
  const AlignmentWeight := 0.01
  const BoundWeight := 1.0
  /** The speed limit of limitVelocity. */
  const MaxSpeed := 0.5
  /** The box that boundPositions keeps the ships in. */
  const XMin := -30.0
  const XMax := 30.0
  const YMin := -30.0
  const YMax := 30.0
  const ZMin := -30.0
  const ZMax := 70.0
  /** The fixed reference direction the ships' orientation is measured from. */
  const Forward := Vec3(0.0, 0.0, 1.0)

  /** Swift's `abs` on a Float. */
  function Abs(a: real): (r: real)
    ensures 0.0 <= r && (r == a || r == -a)
  {
    if a < 0.0 then -a else a
  }

  function Positions(s: seq<ShipState>): (r: seq<Vec3>)
    ensures |r| == |s| && forall j :: 0 <= j < |s| ==> r[j] == s[j].node.position
  {
    seq(|s|, j requires 0 <= j < |s| => s[j].node.position)
  }

  function Velocities(s: seq<ShipState>): (r: seq<Vec3>)
    ensures |r| == |s| && forall j :: 0 <= j < |s| ==> r[j] == s[j].velocity
  {
    seq(|s|, j requires 0 <= j < |s| => s[j].velocity)
  }

  // ---------------------------------------------------------------------------
  // The perceived centre and perceived velocity

  /** The sum of a sequence of vectors, added from the first to the last as the frame loop does. */
  function Sum(vs: seq<Vec3>): Vec3 {
    if vs == [] then Zero else Add(Sum(vs[..|vs| - 1]), vs[|vs| - 1])
  }

  /** Summing a concatenation is adding the sums of its parts. */
  lemma {:induction false} SumAppend(a: seq<Vec3>, b: seq<Vec3>)
    ensures Sum(a + b) == Add(Sum(a), Sum(b))
  {
    if b == [] {
      assert a + b == a;
    } else {
      var b' := b[..|b| - 1];
      assert (a + b)[..|a + b| - 1] == a + b';
      SumAppend(a, b');
    }
  }

  /** So the sums do not depend on where the list starts: the aggregates are order-independent
      under rotation of the list. */
  lemma SumRotate(a: seq<Vec3>, b: seq<Vec3>)
    ensures Sum(a + b) == Sum(b + a)
  {
    SumAppend(a, b);
    SumAppend(b, a);
  }

  // ---------------------------------------------------------------------------
  // Cohesion and alignment

  /** `flyCenterOfMass`: the perceived centre (the sum of ALL positions, this ship's included)
      divided by count - 1, minus the ship's position, over 100. */
  function FlyCenterOfMass(count: nat, position: Vec3, center: Vec3): Vec3
    requires 2 <= count
  {
    DivScalar(Sub(DivScalar(center, (count - 1) as real), position), 100.0)
  }

  /** Cohesion is zero exactly when the ship sits at the perceived centre over count - 1. Because
      that sum includes the ship itself, the term is the textbook pull towards the centroid of the
      other ships, ((center - position) / (count - 1) - position) / 100, plus
      position / (100 * (count - 1)). */
  lemma FlyCenterOfMassLaws(count: nat, position: Vec3, center: Vec3)
    requires 2 <= count
    ensures FlyCenterOfMass(count, position, center) == Zero
        <==> DivScalar(center, (count - 1) as real) == position
    ensures FlyCenterOfMass(count, position, center)
         == Add(DivScalar(Sub(DivScalar(Sub(center, position), (count - 1) as real), position), 100.0),
                DivScalar(position, 100.0 * (count - 1) as real))
  {
    var n := (count - 1) as real;
    assert 0.0 < n;
    AverageSplit(center.x, position.x, n);
    AverageSplit(center.y, position.y, n);
    AverageSplit(center.z, position.z, n);
  }

  lemma AverageSplit(c: real, p: real, n: real)
    requires 0.0 < n
    ensures (c / n - p) / 100.0 == ((c - p) / n - p) / 100.0 + p / (100.0 * n)
  {
    assert c / n == (c - p) / n + p / n;
    assert (p / n) / 100.0 == p / (100.0 * n);
  }

  /** `matchSpeedWithOtherShips`: the perceived velocity (the sum of ALL velocities, this
      ship's included) divided by count - 1, minus the ship's velocity. */
  function MatchSpeedWithOtherShips(count: nat, velocity: Vec3, velocitySum: Vec3): Vec3
    requires 2 <= count
  {
    Sub(DivScalar(velocitySum, (count - 1) as real), velocity)
  }

  /** Adding the whole alignment term to a velocity gives the perceived velocity over
      count - 1; the term is zero exactly when the ship already moves at that velocity. */
  lemma MatchSpeedLaws(count: nat, velocity: Vec3, velocitySum: Vec3)
    requires 2 <= count
    ensures Add(velocity, MatchSpeedWithOtherShips(count, velocity, velocitySum))
         == DivScalar(velocitySum, (count - 1) as real)
    ensures MatchSpeedWithOtherShips(count, velocity, velocitySum) == Zero
        <==> velocity == DivScalar(velocitySum, (count - 1) as real)
  {
  }

  // ---------------------------------------------------------------------------
  // Bounding

  /** One axis of `boundPositions`: +1 below the minimum, -1 above the maximum, 0 otherwise. */
  function AxisRebound(c: real, lo: real, hi: real): real {
    if c < lo then 1.0 else if c > hi then -1.0 else 0.0
  }

  /** The value `boundPositions` returns for a ship at `p`. */
  function Rebound(p: Vec3): Vec3 {
    Vec3(AxisRebound(p.x, XMin, XMax), AxisRebound(p.y, YMin, YMax), AxisRebound(p.z, ZMin, ZMax))
  }

  ghost predicate InBox(p: Vec3) {
    XMin <= p.x <= XMax && YMin <= p.y <= YMax && ZMin <= p.z <= ZMax
  }

  /** Each component of the bounding term is +1 exactly below the box, -1 exactly above it and 0
      otherwise, and the term is zero exactly for positions in the box or on its boundary. */
  lemma ReboundLaws(p: Vec3)
    ensures Rebound(p).x == 1.0 <==> p.x < XMin
    ensures Rebound(p).x == -1.0 <==> p.x > XMax
    ensures Rebound(p).y == 1.0 <==> p.y < YMin
    ensures Rebound(p).y == -1.0 <==> p.y > YMax
    ensures Rebound(p).z == 1.0 <==> p.z < ZMin
    ensures Rebound(p).z == -1.0 <==> p.z > ZMax
    ensures Rebound(p) == Zero <==> InBox(p)
  {
  }

  // ---------------------------------------------------------------------------
  // Separation

  /** The distance test of keepASmallDistance (the `abs` around it changes nothing). */
  predicate Near(other: Vec3, me: Vec3, sqrt: real -> real)
    requires IsSqrt(sqrt)
  {
    Distance(other, me, sqrt) < SeparationRadius
  }

  /** The distance test is a test on squared distance. */
  lemma NearIff(other: Vec3, me: Vec3, sqrt: real -> real)
    requires IsSqrt(sqrt)
    ensures Abs(Distance(other, me, sqrt)) == Distance(other, me, sqrt)
    ensures Near(other, me, sqrt) <==> Dot(Sub(other, me), Sub(other, me)) < 25.0
  {
    LengthLessIff(Sub(other, me), SeparationRadius, sqrt);
  }

  /** The force keepASmallDistance has accumulated for ship i after looking at ships 0 .. k-1:
      for every other ship that is near, forceAway - (other - me). */
  function SeparationUpTo(s: seq<ShipState>, i: nat, k: nat, sqrt: real -> real): Vec3
    requires IsSqrt(sqrt) && i < |s| && k <= |s|
  {
    if k == 0 then Zero
    else
      var f := SeparationUpTo(s, i, k - 1, sqrt);
      var other := s[k - 1].node.position;
      var me := s[i].node.position;
      if k - 1 != i && Near(other, me, sqrt) then Sub(f, Sub(other, me)) else f
  }

  /** `keepASmallDistance` for ship i of the flock state s. */
  function Separation(s: seq<ShipState>, i: nat, sqrt: real -> real): Vec3
    requires IsSqrt(sqrt) && i < |s|
  {
    SeparationUpTo(s, i, |s|, sqrt)
  }

  /** Reference definition of the separation force: the sum of me - other over the given
      positions of other ships that are near `me`. */
  function PushAway(me: Vec3, others: seq<Vec3>, sqrt: real -> real): Vec3
    requires IsSqrt(sqrt)
  {
    if others == [] then Zero
    else
      var o := others[|others| - 1];
      Add(PushAway(me, others[..|others| - 1], sqrt), Push(me, o, sqrt))
  }

  /** What one other ship at `o` adds to the separation force of a ship at `me`. */
  function Push(me: Vec3, o: Vec3, sqrt: real -> real): Vec3
    requires IsSqrt(sqrt)
  {
    if Near(o, me, sqrt) then Sub(me, o) else Zero
  }

  /** All positions of s except that of ship i. */
  function OtherPositions(s: seq<ShipState>, i: nat): seq<Vec3>
    requires i < |s|
  {
    Positions(s[..i] + s[i + 1..])
  }

  lemma PositionsAppend(a: seq<ShipState>, b: seq<ShipState>)
    ensures Positions(a + b) == Positions(a) + Positions(b)
  {
  }

  lemma PushAwaySnoc(me: Vec3, others: seq<Vec3>, o: Vec3, sqrt: real -> real)
    requires IsSqrt(sqrt)
    ensures PushAway(me, others + [o], sqrt) == Add(PushAway(me, others, sqrt), Push(me, o, sqrt))
  {
    assert (others + [o])[..|others|] == others;
  }

  /** One more ship looked at, other than ship i itself: its push is added if it is near. */
  lemma SeparationUpToStep(s: seq<ShipState>, i: nat, k: nat, sqrt: real -> real)
    requires IsSqrt(sqrt) && i < |s| && 0 < k <= |s| && k - 1 != i
    ensures SeparationUpTo(s, i, k, sqrt)
         == Add(SeparationUpTo(s, i, k - 1, sqrt), Push(s[i].node.position, s[k - 1].node.position, sqrt))
  {
  }

  /** Looking at the ships before ship i adds up the push of every near one. */
  lemma {:induction false} SeparationBefore(s: seq<ShipState>, i: nat, k: nat, sqrt: real -> real)
    requires IsSqrt(sqrt) && i < |s| && k <= i
    ensures SeparationUpTo(s, i, k, sqrt) == PushAway(s[i].node.position, Positions(s[..k]), sqrt)
  {
    if k == 0 {
      assert Positions(s[..0]) == [];
    } else {
      SeparationBefore(s, i, k - 1, sqrt);
      SeparationUpToStep(s, i, k, sqrt);
      assert s[..k] == s[..k - 1] + [s[k - 1]];
      PositionsAppend(s[..k - 1], [s[k - 1]]);
      PushAwaySnoc(s[i].node.position, Positions(s[..k - 1]), s[k - 1].node.position, sqrt);
    }
  }

  /** The positions of the ships other than i among the first k, for k past i. */
  lemma OthersSnoc(s: seq<ShipState>, i: nat, k: nat)
    requires i + 1 < k <= |s|
    ensures Positions(s[..i] + s[i + 1..k]) == Positions(s[..i] + s[i + 1..k - 1]) + [s[k - 1].node.position]
  {
    assert s[..i] + s[i + 1..k] == (s[..i] + s[i + 1..k - 1]) + [s[k - 1]];
    PositionsAppend(s[..i] + s[i + 1..k - 1], [s[k - 1]]);
  }

  /** Past ship i, ship i itself has been skipped. */
  lemma {:induction false} SeparationAfter(s: seq<ShipState>, i: nat, k: nat, sqrt: real -> real)
    requires IsSqrt(sqrt) && i < k <= |s|
    ensures SeparationUpTo(s, i, k, sqrt)
         == PushAway(s[i].node.position, Positions(s[..i] + s[i + 1..k]), sqrt)
  {
    var me := s[i].node.position;
    if k == i + 1 {
      SeparationBefore(s, i, i, sqrt);
      assert s[..i] + s[i + 1..k] == s[..i];
    } else {
      SeparationAfter(s, i, k - 1, sqrt);
      SeparationUpToStep(s, i, k, sqrt);
      var prev := Positions(s[..i] + s[i + 1..k - 1]);
      OthersSnoc(s, i, k);
      PushAwaySnoc(me, prev, s[k - 1].node.position, sqrt);
    }
  }

  /** keepASmallDistance is the sum of me - other over every OTHER ship within the radius:
      a ship never counts itself. */
  lemma SeparationIsPushAway(s: seq<ShipState>, i: nat, sqrt: real -> real)
    requires IsSqrt(sqrt) && i < |s|
    ensures Separation(s, i, sqrt) == PushAway(s[i].node.position, OtherPositions(s, i), sqrt)
  {
    SeparationAfter(s, i, |s|, sqrt);
    assert s[i + 1..|s|] == s[i + 1..];
  }

  lemma {:induction false} PushAwayNoNeighbour(me: Vec3, others: seq<Vec3>, sqrt: real -> real)
    requires IsSqrt(sqrt)
    requires forall j :: 0 <= j < |others| ==> !Near(others[j], me, sqrt)
    ensures PushAway(me, others, sqrt) == Zero
  {
    if others != [] {
      PushAwayNoNeighbour(me, others[..|others| - 1], sqrt);
    }
  }

  /** The separation force is zero when no other ship is within the radius. */
  lemma SeparationNoNeighbour(s: seq<ShipState>, i: nat, sqrt: real -> real)
    requires IsSqrt(sqrt) && i < |s|
    requires forall j :: 0 <= j < |s| && j != i ==> !Near(s[j].node.position, s[i].node.position, sqrt)
    ensures Separation(s, i, sqrt) == Zero
  {
    SeparationIsPushAway(s, i, sqrt);
    var others := OtherPositions(s, i);
    forall j | 0 <= j < |others|
      ensures !Near(others[j], s[i].node.position, sqrt)
    {
      if j < i {
        assert others[j] == s[j].node.position;
      } else {
        assert others[j] == s[j + 1].node.position;
      }
    }
    PushAwayNoNeighbour(s[i].node.position, others, sqrt);
  }

  // ---------------------------------------------------------------------------
  // Speed limit and orientation

  /** The velocity `limitVelocity` leaves: rescaled to MaxSpeed when it is faster, else unchanged. */
  function Limit(v: Vec3, sqrt: real -> real): Vec3
    requires IsSqrt(sqrt)
  {
    var mag := Length(v, sqrt);
    if mag > MaxSpeed then Scale(DivScalar(v, mag), MaxSpeed) else v
  }

  /** A velocity faster than the limit becomes a positive multiple of itself of length exactly
      MaxSpeed; a slower one is unchanged; either way the result is no faster than MaxSpeed. */
  lemma LimitLaws(v: Vec3, sqrt: real -> real)
    requires IsSqrt(sqrt)
    ensures Length(v, sqrt) > MaxSpeed ==>
              Length(Limit(v, sqrt), sqrt) == MaxSpeed && PositiveMultiple(Limit(v, sqrt), v)
    ensures Length(v, sqrt) <= MaxSpeed ==> Limit(v, sqrt) == v
    ensures Length(Limit(v, sqrt), sqrt) <= MaxSpeed
  {
    var mag := Length(v, sqrt);
    if mag > MaxSpeed {
      var k := MaxSpeed / mag;
      DivScalarIsScale(v, mag);
      assert Limit(v, sqrt) == Scale(v, k);
      LengthScale(v, k, sqrt);
      assert k * mag == MaxSpeed;
    }
  }

  /** The rotation the frame loop gives a ship whose velocity before the update is `velocity`:
      axis forward × normalize(velocity), angle acos(forward · normalize(velocity)) kept as its
      cosine. Normalising the zero vector gives no number (None). */
  function Orientation(velocity: Vec3, sqrt: real -> real): Option<Rotation>
    requires IsSqrt(sqrt)
  {
    if velocity == Zero then None
    else
      var n := Normalized(velocity, sqrt);
      Some(Rotation(Cross(Forward, n), Dot(Forward, n)))
  }

  /** For a non-zero velocity the rotation axis is orthogonal to the forward direction and to the
      velocity, and the cosine handed to acos lies in [-1, 1]. */
  lemma OrientationLaws(velocity: Vec3, sqrt: real -> real)
    requires IsSqrt(sqrt)
    ensures Orientation(velocity, sqrt).Some? <==> velocity != Zero
    ensures Orientation(velocity, sqrt).Some? ==>
              var r := Orientation(velocity, sqrt).value;
              Dot(r.axis, Forward) == 0.0 && Dot(r.axis, velocity) == 0.0 &&
              -1.0 <= r.cosAngle <= 1.0
  {
    if velocity != Zero {
      var n := Normalized(velocity, sqrt);
      NormalizedIsUnit(velocity, sqrt);
      var l := Length(velocity, sqrt);
      DivScalarIsScale(velocity, l);
      var k := 1.0 / l;
      assert n == Scale(velocity, k);
      CrossOrthogonal(Forward, n);
      DotLaws(Cross(Forward, n), Forward);
      ScaledOrthogonal(Cross(Forward, n), velocity, k);
      UnitComponent(n);
    }
  }

  lemma ScaledOrthogonal(a: Vec3, v: Vec3, k: real)
    requires k != 0.0 && Dot(Scale(v, k), a) == 0.0
    ensures Dot(a, v) == 0.0
  {
    assert Dot(Scale(v, k), a) == k * Dot(a, v);
  }

  lemma UnitComponent(n: Vec3)
    requires Dot(n, n) == 1.0
    ensures -1.0 <= n.z <= 1.0
  {
    SquareZero(n.x);
    SquareZero(n.y);
    var a := if n.z < 0.0 then -n.z else n.z;
    assert a * a == n.z * n.z;
    if 1.0 < a { SquareLess(1.0, a); }
  }

  // ---------------------------------------------------------------------------
  // One ship's turn and the whole frame

  /** The velocity before the speed limit: ship.velocity + v1 + v2 + v3 + v4 with the weighted
      cohesion, separation (given), alignment and bounding terms. */
  function Steered(count: nat, me: ShipState, separation: Vec3, center: Vec3, velocitySum: Vec3): Vec3
    requires 2 <= count
  {
    var v1 := Scale(FlyCenterOfMass(count, me.node.position, center), CohesionWeight);
    var v2 := Scale(separation, SeparationWeight);
    var v3 := Scale(MatchSpeedWithOtherShips(count, me.velocity, velocitySum), AlignmentWeight);
    var v4 := Scale(Rebound(me.node.position), BoundWeight);
    Add(Add(Add(Add(me.velocity, v1), v2), v3), v4)
  }

  /** Ship i after its turn in the frame loop, when the flock is in state s: the new velocity is
      the limited steered velocity, the position moves by it, the rotation comes from the velocity
      before the update, prevDir is untouched. */
  function Step(s: seq<ShipState>, i: nat, center: Vec3, velocitySum: Vec3, sqrt: real -> real): ShipState
    requires IsSqrt(sqrt) && 2 <= |s| && i < |s|
  {
    var me := s[i];
    var velocity := Limit(Steered(|s|, me, Separation(s, i, sqrt), center, velocitySum), sqrt);
    ShipState(Node(Add(me.node.position, velocity), Orientation(me.velocity, sqrt)), velocity, me.prevDir)
  }

  /** The flock after ships 0 .. k-1 have had their turn, in list order, each one written back
      before the next is computed; the aggregates are the ones taken at the start of the frame. */
  function FrameUpTo(s: seq<ShipState>, k: nat, center: Vec3, velocitySum: Vec3, sqrt: real -> real): (r: seq<ShipState>)
    requires IsSqrt(sqrt) && 2 <= |s| && k <= |s|
    ensures |r| == |s|
  {
    if k == 0 then s
    else
      var t := FrameUpTo(s, k - 1, center, velocitySum, sqrt);
      t[k - 1 := Step(t, k - 1, center, velocitySum, sqrt)]
  }

  /** One call of `renderer(_:updateAtTime:)`: sum all positions and velocities once, then give
      every ship its turn. */
  function Frame(s: seq<ShipState>, sqrt: real -> real): seq<ShipState>
    requires IsSqrt(sqrt) && 2 <= |s|
  {
    FrameUpTo(s, |s|, Sum(Positions(s)), Sum(Velocities(s)), sqrt)
  }

  /** Ships that have not had their turn yet are as they were at the start of the frame. */
  lemma {:induction false} FrameUpToPending(s: seq<ShipState>, k: nat, center: Vec3, velocitySum: Vec3,
                                            sqrt: real -> real, j: nat)
    requires IsSqrt(sqrt) && 2 <= |s| && k <= j < |s|
    ensures FrameUpTo(s, k, center, velocitySum, sqrt)[j] == s[j]
  {
    if k > 0 {
      FrameUpToPending(s, k - 1, center, velocitySum, sqrt, j);
    }
  }

  /** A ship that has had its turn is not written again in the same frame. */
  lemma {:induction false} FrameUpToDone(s: seq<ShipState>, k: nat, m: nat, center: Vec3, velocitySum: Vec3,
                                         sqrt: real -> real, j: nat)
    requires IsSqrt(sqrt) && 2 <= |s| && j < k <= m <= |s|
    ensures FrameUpTo(s, m, center, velocitySum, sqrt)[j] == FrameUpTo(s, k, center, velocitySum, sqrt)[j]
  {
    if m > k {
      FrameUpToDone(s, k, m - 1, center, velocitySum, sqrt, j);
    }
  }

  /** A turn writes ship k only: the first k + 1 turns are the first k followed by ship k's. */
  lemma FrameUpToNext(s: seq<ShipState>, k: nat, center: Vec3, velocitySum: Vec3, sqrt: real -> real)
    requires IsSqrt(sqrt) && 2 <= |s| && k < |s|
    ensures var t := FrameUpTo(s, k, center, velocitySum, sqrt);
            FrameUpTo(s, k + 1, center, velocitySum, sqrt) == t[k := Step(t, k, center, velocitySum, sqrt)]
  {
  }

  /** Ship k's turn is computed from the flock as the first k turns left it. */
  lemma FrameUpToTurn(s: seq<ShipState>, k: nat, center: Vec3, velocitySum: Vec3, sqrt: real -> real)
    requires IsSqrt(sqrt) && 2 <= |s| && k < |s|
    ensures FrameUpTo(s, k + 1, center, velocitySum, sqrt)[k]
         == Step(FrameUpTo(s, k, center, velocitySum, sqrt), k, center, velocitySum, sqrt)
  {
  }

  /** Update order: ship i's turn sees ships 0 .. i-1 in their final state for this frame and
      ships i .. as they were at the start of the frame. */
  lemma FrameTurn(s: seq<ShipState>, i: nat, sqrt: real -> real)
    requires IsSqrt(sqrt) && 2 <= |s| && i < |s|
    ensures var t := FrameUpTo(s, i, Sum(Positions(s)), Sum(Velocities(s)), sqrt);
            && |t| == |s|
            && t[..i] == Frame(s, sqrt)[..i]
            && t[i..] == s[i..]
            && Frame(s, sqrt)[i] == Step(t, i, Sum(Positions(s)), Sum(Velocities(s)), sqrt)
  {
    var c, v := Sum(Positions(s)), Sum(Velocities(s));
    var t := FrameUpTo(s, i, c, v, sqrt);
    var f := FrameUpTo(s, |s|, c, v, sqrt);
    forall j | 0 <= j < i
      ensures t[j] == f[j]
    {
      FrameUpToDone(s, i, |s|, c, v, sqrt, j);
    }
    assert t[..i] == f[..i];
    forall j | i <= j < |s|
      ensures t[j] == s[j]
    {
      FrameUpToPending(s, i, c, v, sqrt, j);
    }
    assert t[i..] == s[i..];
    FrameUpToDone(s, i + 1, |s|, c, v, sqrt, i);
    FrameUpToTurn(s, i, c, v, sqrt);
  }

  /** The other ships as ship i's turn sees them: the ones before it where the frame left them, the
      ones after it where they started. */
  lemma TurnOthers(s: seq<ShipState>, t: seq<ShipState>, f: seq<ShipState>, i: nat)
    requires |t| == |s| == |f| && i < |s|
    requires t[..i] == f[..i] && t[i..] == s[i..]
    ensures t[i] == s[i]
    ensures OtherPositions(t, i) == Positions(f[..i]) + Positions(s[i + 1..])
  {
    assert t[i] == t[i..][0];
    assert t[i + 1..] == t[i..][1..];
    PositionsAppend(t[..i], t[i + 1..]);
  }

  /** Per ship: the new velocity is the speed-limited steered velocity (see Steered: the velocity
      plus 0.01 times cohesion, separation and alignment plus the bounding term), where cohesion,
      alignment and bounding use the ship's state from the start of the frame and the aggregates
      summed over the whole flock at the start of the frame, and separation sees the ships
      earlier in the list at their new positions and the later ones at their old ones; the
      position moves by the new velocity; the rotation is derived from the velocity at the start
      of the frame; prevDir is not written. */
  lemma FrameShip(s: seq<ShipState>, i: nat, sqrt: real -> real)
    requires IsSqrt(sqrt) && 2 <= |s| && i < |s|
    ensures |Frame(s, sqrt)| == |s|
    ensures var f := Frame(s, sqrt);
            var sep := PushAway(s[i].node.position, Positions(f[..i]) + Positions(s[i + 1..]), sqrt);
            var vel := Limit(Steered(|s|, s[i], sep, Sum(Positions(s)), Sum(Velocities(s))), sqrt);
            && f[i].velocity == vel
            && f[i].node.position == Add(s[i].node.position, vel)
            && f[i].node.rotation == Orientation(s[i].velocity, sqrt)
            && f[i].prevDir == s[i].prevDir
  {
    var c, v := Sum(Positions(s)), Sum(Velocities(s));
    var t := FrameUpTo(s, i, c, v, sqrt);
    var f := Frame(s, sqrt);
    FrameTurn(s, i, sqrt);
    TurnOthers(s, t, f, i);
    SeparationIsPushAway(t, i, sqrt);
  }

  /** Every ship ends the frame no faster than MaxSpeed, the flock keeps its size, and prevDir is
      never written. */
  lemma FrameSpeedBound(s: seq<ShipState>, sqrt: real -> real)
    requires IsSqrt(sqrt) && 2 <= |s|
    ensures |Frame(s, sqrt)| == |s|
    ensures forall i :: 0 <= i < |s| ==> Length(Frame(s, sqrt)[i].velocity, sqrt) <= MaxSpeed
    ensures forall i :: 0 <= i < |s| ==> Frame(s, sqrt)[i].prevDir == s[i].prevDir
  {
    forall i | 0 <= i < |s|
      ensures Length(Frame(s, sqrt)[i].velocity, sqrt) <= MaxSpeed
      ensures Frame(s, sqrt)[i].prevDir == s[i].prevDir
    {
      var c, v := Sum(Positions(s)), Sum(Velocities(s));
      var t := FrameUpTo(s, i, c, v, sqrt);
      FrameTurn(s, i, sqrt);
      LimitLaws(Steered(|s|, t[i], Separation(t, i, sqrt), c, v), sqrt);
    }
  }

  /** A ship whose velocity is non-zero at the start of the frame (every new ship has velocity
      (1,1,1)) gets a well-defined rotation in that frame. */
  lemma FrameOrientationDefined(s: seq<ShipState>, sqrt: real -> real)
    requires IsSqrt(sqrt) && 2 <= |s|
    ensures forall i :: 0 <= i < |s| && s[i].velocity != Zero ==> Frame(s, sqrt)[i].node.rotation.Some?
  {
    forall i | 0 <= i < |s| && s[i].velocity != Zero
      ensures Frame(s, sqrt)[i].node.rotation.Some?
    {
      FrameShip(s, i, sqrt);
      OrientationLaws(s[i].velocity, sqrt);
    }
  }

  /** The aggregates of two ships at (0,0,0) and (10,0,0), both with the default velocity
      (1,1,1): the perceived centre is (10,0,0) and the perceived velocity (2,2,2); the first
      ship's cohesion term is (0.1,0,0) and the second ship's is zero (the sum it starts from
      includes the ship itself). */
  lemma TwoShipAggregates(s: seq<ShipState>)
    requires |s| == 2 && s[0].node.position == Zero && s[1].node.position == Vec3(10.0, 0.0, 0.0)
    requires s[0].velocity == DefaultVelocity && s[1].velocity == DefaultVelocity
    ensures Sum(Positions(s)) == Vec3(10.0, 0.0, 0.0)
    ensures Sum(Velocities(s)) == Vec3(2.0, 2.0, 2.0)
    ensures FlyCenterOfMass(2, s[0].node.position, Sum(Positions(s))) == Vec3(0.1, 0.0, 0.0)
    ensures FlyCenterOfMass(2, s[1].node.position, Sum(Positions(s))) == Zero
  {
    var ps, vs := Positions(s), Velocities(s);
    assert ps[..1][..0] == [] && vs[..1][..0] == [];
    assert Sum(ps[..1]) == Zero;
    assert Sum(vs[..1]) == DefaultVelocity;
    assert Sum(ps) == Add(Sum(ps[..1]), ps[1]);
    assert Sum(vs) == Add(Sum(vs[..1]), vs[1]);
  }
}
