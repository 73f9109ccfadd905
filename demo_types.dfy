/** The records of include/PF/pf.h and demo/demo.c that the demo's world holds, the
    capacities of demo/demo.c, and the library routines whose bodies are not part of
    this model, gathered as function-valued parameters. */
module DemoTypes {
  import opened Vec

  /** `MAX_BODIES`. */
  const MAX_BODIES: int := 4096
  /** `MAX_MANIFOLDS`, twice `MAX_BODIES`. */
  const MAX_MANIFOLDS: int := MAX_BODIES * 2

  datatype Option<T> = None | Some(value: T)

  /** `PFShape`: the tag and the union member it selects. */
  datatype Shape = Rect(radii: V2) | Circle(radius: real)

  /** `PFBodyMode`. */
  datatype BodyMode = Static | Dynamic

  /** `PFBody`. */
  datatype Body = Body(
    mode: BodyMode,
    shape: Shape,
    position: V2,
    velocity: V2,
    force: V2,
    mass: real,
    inverseMass: real,
    staticFriction: real,
    dynamicFriction: real,
    restitution: real)

  /** `PFManifold`. */
  datatype Manifold = Manifold(
    normal: V2,
    penetration: real,
    e: real,
    dynamicFriction: real,
    staticFriction: real)

  /** `KeysManifold`: a contact between the bodies at indices `aKey` and `bKey`. */
  datatype KeysManifold = KeysManifold(aKey: int, bKey: int, manifold: Manifold)

  /** The physics routines the step calls. Each reads only its arguments; a routine
      that updates bodies through pointers returns the updated bodies instead. */
  datatype Engine = Engine(
    nearZero: V2 -> bool,                                    // mlNearZeroV2f
    solveCollision: (Body, Body) -> Option<Manifold>,        // pfSolveCollision: true and the manifold, or false
    integrateForce: (real, V2, Body) -> Body,                // pfIntegrateForce(dt, gravity, a)
    manifoldInitialize: (Body, Body, Manifold) -> Manifold,  // pfManifoldInitialize(a, b, m)
    applyImpulse: (Manifold, Body, Body) -> (Body, Body),    // pfManifoldApplyImpulse(m, a, b)
    integrateVelocity: (real, V2, Body) -> Body,             // pfIntegrateVelocity(dt, gravity, a)
    positionalCorrection: (Manifold, Body, Body) -> (Body, Body)) // pfPositionalCorrection(m, a, b)

  /** The constructors and material presets `mkWorld` uses. */
  datatype Library = Library(
    defaultBody: Body,       // pfBody()
    circle: real -> Shape,   // pfCircle(radius)
    box: real -> Shape,      // pfBox(side)
    rock: Body -> Body,      // pfRockEsque
    metal: Body -> Body)     // pfMetalEsque
}
