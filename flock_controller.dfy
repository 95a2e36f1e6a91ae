/** The view controller's flock (ARFlock/ViewController.swift): the list of ships, the way it is
    filled when the view loads, and the per-frame update `renderer(_:updateAtTime:)` with the
    helpers that read or write the ships in place. Each method is proved to do what the functions
    of FlockRules say. */
module FlockController {
  import opened Vectors
  import opened Wrappers
  import opened Ships
  import opened FlockRules

  /** The states of the given ships, in list order. */
  function StatesOf(ss: seq<Ship>): (r: seq<ShipState>)
    reads ss
    ensures |r| == |ss|
    ensures forall j :: 0 <= j < |ss| ==> r[j] == ss[j].State()
  {
    if ss == [] then [] else StatesOf(ss[..|ss| - 1]) + [ss[|ss| - 1].State()]
  }

  class ViewController {
    /** `ships`: the flock, in the order the ships were created. */
    var ships: seq<Ship>

    /** Every ship appears once: each one owns its own cloned node, so the node test in
        keepASmallDistance tells exactly the other ships apart. */
    ghost predicate Distinct()
      reads this
    {
      forall i, j :: 0 <= i < j < |ships| ==> ships[i] != ships[j]
    }

    /** The flock the frame update can run on: distinct ships, at least two of them (the update
        divides by the number of ships minus one). */
    ghost predicate Valid()
      reads this
    {
      2 <= |ships| && Distinct()
    }

    /** The state of the flock. */
    function States(): (r: seq<ShipState>)
      reads this, ships
      ensures |r| == |ships|
      ensures forall j :: 0 <= j < |ships| ==> r[j] == ships[j].State()
    {
      StatesOf(ships)
    }

    /** The ship-creating loop of `viewDidLoad`: one new ship per given position, each on its
        own clone of the template node, moved to that position, with the default velocity and
        prevDir. (The app draws the positions at random and creates 101 ships.) */
    constructor (template: Node, positions: seq<Vec3>)
      requires 2 <= |positions|
      ensures Valid()
      ensures forall j :: 0 <= j < |ships| ==> fresh(ships[j])
      ensures |ships| == |positions|
      ensures forall j :: 0 <= j < |ships| ==>
                States()[j] == ShipState(template.(position := positions[j]), DefaultVelocity, DefaultPrevDir)
    {
      ships := [];
      new;
      var k := 0;
      while k < |positions|
        invariant 0 <= k <= |positions|
        invariant |ships| == k
        invariant Distinct()
        invariant forall j :: 0 <= j < k ==> fresh(ships[j])
        invariant forall j :: 0 <= j < k ==>
                    ships[j].State() == ShipState(template.(position := positions[j]), DefaultVelocity, DefaultPrevDir)
      {
        var ship := new Ship(template);
        ships := ships + [ship];
        ship.node := ship.node.(position := positions[k]);
        k := k + 1;
      }
    }

    /** `limitVelocity`: a velocity faster than MaxSpeed is scaled down to exactly MaxSpeed in the
        same direction; a slower one is left alone. */
    method LimitVelocity(ship: Ship, sqrt: real -> real)
      requires IsSqrt(sqrt)
      modifies ship`velocity
      ensures ship.velocity == Limit(old(ship.velocity), sqrt)
      ensures Length(ship.velocity, sqrt) <= MaxSpeed
      ensures Length(old(ship.velocity), sqrt) <= MaxSpeed ==> ship.velocity == old(ship.velocity)
      ensures Length(old(ship.velocity), sqrt) > MaxSpeed ==>
                Length(ship.velocity, sqrt) == MaxSpeed && PositiveMultiple(ship.velocity, old(ship.velocity))
    {
      LimitLaws(ship.velocity, sqrt);
      var mag := Length(ship.velocity, sqrt);
      var limit := MaxSpeed;
      if mag > limit {
        ship.velocity := Scale(DivScalar(ship.velocity, mag), limit);
      }
    }

    /** `keepASmallDistance`: the sum of ship - other over every other ship of the flock that is
        closer than SeparationRadius, in the state the flock is in when it is called. */
    method KeepASmallDistance(ship: Ship, sqrt: real -> real) returns (forceAway: Vec3)
      requires IsSqrt(sqrt) && Distinct() && ship in ships
      ensures forall i :: 0 <= i < |ships| && ships[i] == ship ==>
                forceAway == Separation(States(), i, sqrt) &&
                forceAway == PushAway(ship.node.position, OtherPositions(States(), i), sqrt)
    {
      ghost var s := States();
      ghost var i :| 0 <= i < |ships| && ships[i] == ship;
      forceAway := Zero;
      var k := 0;
      while k < |ships|
        invariant 0 <= k <= |ships|
        invariant forceAway == SeparationUpTo(s, i, k, sqrt)
      {
        var otherShip := ships[k];
        if ship != otherShip {
          if Abs(Distance(otherShip.node.position, ship.node.position, sqrt)) < SeparationRadius {
            forceAway := Sub(forceAway, Sub(otherShip.node.position, ship.node.position));
          }
        }
        k := k + 1;
      }
      SeparationIsPushAway(s, i, sqrt);
    }

    /** `boundPositions`: +1 on each axis where the ship is below the box, -1 where it is above
        it, 0 elsewhere. */
    method BoundPositions(ship: Ship) returns (rebound: Vec3)
      ensures rebound == Rebound(ship.node.position)
      ensures rebound == Zero <==> InBox(ship.node.position)
    {
      rebound := Zero;
      var p := ship.node.position;
      if p.x < XMin {
        rebound := rebound.(x := 1.0);
      }
      if p.x > XMax {
        rebound := rebound.(x := -1.0);
      }
      if p.y < YMin {
        rebound := rebound.(y := 1.0);
      }
      if p.y > YMax {
        rebound := rebound.(y := -1.0);
      }
      if p.z < ZMin {
        rebound := rebound.(z := 1.0);
      }
      if p.z > ZMax {
        rebound := rebound.(z := -1.0);
      }
      ReboundLaws(p);
    }

    /** The body of the frame loop for ship k: the four steering terms, weighted and added to
        the velocity, the speed limit, the rotation from the velocity the ship had before, and the
        move. Only ship k is written, and it becomes Step of the flock as it was. */
    method UpdateShip(k: nat, percievedCenter: Vec3, percievedVelocity: Vec3, sqrt: real -> real)
      requires IsSqrt(sqrt) && Valid() && k < |ships|
      modifies ships[k]
      ensures States() == old(States())[k := Step(old(States()), k, percievedCenter, percievedVelocity, sqrt)]
    {
      ghost var t := States();
      var ship := ships[k];
      ghost var me := ship.State();
      var v1 := FlyCenterOfMass(|ships|, ship.node.position, percievedCenter);
      var v2 := KeepASmallDistance(ship, sqrt);
      assert v2 == Separation(t, k, sqrt);
      var v3 := MatchSpeedWithOtherShips(|ships|, ship.velocity, percievedVelocity);
      var v4 := BoundPositions(ship);
      ghost var steered := Steered(|ships|, me, v2, percievedCenter, percievedVelocity);
      v1 := ScaleAssign(v1, CohesionWeight);
      v2 := ScaleAssign(v2, SeparationWeight);
      v3 := ScaleAssign(v3, AlignmentWeight);
      v4 := ScaleAssign(v4, BoundWeight);
      var rotation := Orientation(ship.velocity, sqrt);
      assert ship.prevDir == me.prevDir && ship.node == me.node;
      ship.velocity := Add(Add(Add(Add(ship.velocity, v1), v2), v3), v4);
      assert ship.velocity == steered;
      LimitVelocity(ship, sqrt);
      assert ship.prevDir == me.prevDir && ship.node == me.node;
      ship.node := ship.node.(rotation := rotation);
      ship.node := ship.node.(position := Add(ship.node.position, ship.velocity));
      assert ship.State() == Step(t, k, percievedCenter, percievedVelocity, sqrt) by {
        assert t[k] == me;
        assert ship.velocity == Limit(steered, sqrt);
        assert ship.node == Node(Add(me.node.position, ship.velocity), Orientation(me.velocity, sqrt));
      }
      forall j | 0 <= j < |ships| && j != k
        ensures ships[j].State() == t[j]
      {
        assert ships[j] != ship;
      }
    }

    /** `renderer(_:updateAtTime:)`: sums the positions and velocities of all ships, then gives
        every ship its turn in list order, writing its velocity, rotation and position back before
        the next ship is looked at. The new state is Frame of the old one (see FrameShip for what
        that is ship by ship); every ship ends the frame no faster than MaxSpeed. */
    method UpdateAtTime(sqrt: real -> real)
      requires IsSqrt(sqrt) && Valid()
      modifies ships
      ensures Valid() && ships == old(ships)
      ensures States() == Frame(old(States()), sqrt)
      ensures forall j :: 0 <= j < |ships| ==> Length(ships[j].velocity, sqrt) <= MaxSpeed
      ensures forall j :: 0 <= j < |ships| ==> ships[j].prevDir == old(ships[j].prevDir)
    {
      ghost var s := States();
      var percievedCenter, percievedVelocity := Zero, Zero;
      var k := 0;
      while k < |ships|
        invariant 0 <= k <= |ships|
        invariant percievedCenter == Sum(Positions(s[..k]))
        invariant percievedVelocity == Sum(Velocities(s[..k]))
      {
        var otherShip := ships[k];
        assert Positions(s[..k + 1])[..k] == Positions(s[..k]);
        assert Velocities(s[..k + 1])[..k] == Velocities(s[..k]);
        percievedCenter := Add(percievedCenter, otherShip.node.position);
        percievedVelocity := Add(percievedVelocity, otherShip.velocity);
        k := k + 1;
      }
      assert s[..k] == s;

      k := 0;
      while k < |ships|
        invariant 0 <= k <= |ships|
        invariant States() == FrameUpTo(s, k, percievedCenter, percievedVelocity, sqrt)
      {
        UpdateShip(k, percievedCenter, percievedVelocity, sqrt);
        FrameUpToNext(s, k, percievedCenter, percievedVelocity, sqrt);
        k := k + 1;
      }
      FrameSpeedBound(s, sqrt);
    }
  }
}
