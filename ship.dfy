/** One flocking agent (ARFlock/Ship.swift): a mutable record of its scene node, its velocity and
    an unused previous direction. */
module Ships {
  import opened Vectors
  import opened Wrappers

  /** SceneKit's axis–angle rotation SCNVector4(x, y, z, w). The angle w is acos of a cosine that
      the frame step computes; the model keeps that cosine, since acos is not modelled. */
  datatype Rotation = Rotation(axis: Vec3, cosAngle: real)

  /** The parts of a ship's SCNNode that the flock step reads and writes. The rotation is None
      when its components are not numbers (the rotation derived from a zero velocity). */
  datatype Node = Node(position: Vec3, rotation: Option<Rotation>)

  /** The value of a ship's fields at one moment. */
  datatype ShipState = ShipState(node: Node, velocity: Vec3, prevDir: Vec3)

  /** The initial value of `velocity`. */
  const DefaultVelocity := Vec3(1.0, 1.0, 1.0)

  /** The initial value of `prevDir`. */
  const DefaultPrevDir := Vec3(0.0, 1.0, 0.0)

  class Ship {
    var node: Node
    var velocity: Vec3
    var prevDir: Vec3

    /** `init(newNode:)` stores the node; velocity and prevDir take their declared defaults. */
    constructor (newNode: Node)
      ensures node == newNode
      ensures velocity == DefaultVelocity && prevDir == DefaultPrevDir
    {
      node := newNode;
      velocity := DefaultVelocity;
      prevDir := DefaultPrevDir;
    }

    function State(): ShipState
      reads this
    {
      ShipState(node, velocity, prevDir)
    }
  }

  /** The default velocity is not the zero vector, so a new ship's velocity can be normalised. */
  lemma DefaultVelocityNormalizable(sqrt: real -> real)
    requires IsSqrt(sqrt)
    ensures DefaultVelocity != Zero
    ensures Length(DefaultVelocity, sqrt) != 0.0
    ensures Dot(DefaultVelocity, DefaultVelocity) == 3.0
  {
  }
}
