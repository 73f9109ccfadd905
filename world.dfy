/** The demo's `World` of demo/demo.c: fixed-capacity body and manifold arrays with
    their counters, populated by `mkWorld` and advanced by `stepWorld`. */
module WorldState {
  import opened Vec
  import opened DemoTypes
  import opened Collisions

  /** Side of the square grid of bodies `mkWorld` lays out. */
  const GRID: int := 50
  /** `CANNON_BALL_RADIUS`. */
  const CANNON_BALL_RADIUS: real := 1.5

  /** The body slot `mkWorld` fills for grid cell `(i, j)`. */
  function GridIndex(i: int, j: int): int {
    i * GRID + j + 1
  }

  /** The grid row of body slot `k`. */
  function GridRow(k: int): int {
    (k - 1) / GRID
  }

  /** The grid column of body slot `k`. */
  function GridCol(k: int): int {
    (k - 1) % GRID
  }

  /** The grid index map sends the 50 x 50 cells one-to-one onto slots 1..2500:
      `GridRow` and `GridCol` invert it on both sides. */
  lemma GridIndexBijection()
    ensures forall i, j :: 0 <= i < GRID && 0 <= j < GRID ==>
      1 <= GridIndex(i, j) <= GRID * GRID && GridRow(GridIndex(i, j)) == i && GridCol(GridIndex(i, j)) == j
    ensures forall k :: 1 <= k <= GRID * GRID ==>
      0 <= GridRow(k) < GRID && 0 <= GridCol(k) < GRID && GridIndex(GridRow(k), GridCol(k)) == k
  {
    forall i, j | 0 <= i < GRID && 0 <= j < GRID
      ensures 1 <= GridIndex(i, j) <= GRID * GRID && GridRow(GridIndex(i, j)) == i && GridCol(GridIndex(i, j)) == j
    {
      GridIndexInverse(i, j);
    }
    forall k | 1 <= k <= GRID * GRID
      ensures 0 <= GridRow(k) < GRID && 0 <= GridCol(k) < GRID && GridIndex(GridRow(k), GridCol(k)) == k
    {
      assert GridRow(k) * GRID + GridCol(k) == k - 1;
    }
  }

  /** The row and column of a grid slot are recovered by division by 50. */
  lemma GridIndexInverse(i: int, j: int)
    requires 0 <= i && 0 <= j < GRID
    ensures GridRow(GridIndex(i, j)) == i && GridCol(GridIndex(i, j)) == j
    ensures i < GRID ==> GridIndex(i, j) <= GRID * GRID
  {
  }

  /** Body 0 of `mkWorld`: a metal cannon ball of radius 1.5 at (-200, 35) moving at
      (200, 0), built from the default body. */
  function CannonBall(lib: Library): Body {
    lib.metal(lib.defaultBody.(
      shape := lib.circle(CANNON_BALL_RADIUS),
      position := V2(-200.0, 35.0),
      velocity := V2(200.0, 0.0)))
  }

  /** The rock body `mkWorld` writes for grid cell `(i, j)`: a unit box when `i + j`
      is even and a unit circle otherwise, at (i + 6, j + 5). Its remaining fields are
      whatever the slot held before (`prior`), since `mkWorld` does not reset them. */
  function GridBody(lib: Library, prior: Body, i: int, j: int): Body {
    lib.rock(prior.(
      shape := if (i + j) % 2 == 0 then lib.box(1.0) else lib.circle(1.0),
      position := V2(i as real + 6.0, j as real + 5.0)))
  }

  /** The body `mkWorld` leaves in grid slot `k`, which held `prior[k]` before. */
  function GridCell(lib: Library, prior: seq<Body>, k: int): Body
    requires 0 <= k < |prior|
  {
    GridBody(lib, prior[k], GridRow(k), GridCol(k))
  }

  /** The bodies and the manifold slots of a world. */
  datatype Snapshot = Snapshot(bodies: seq<Body>, manifolds: seq<KeysManifold>)

  /** The bodies and manifold slots after the first three phases of `stepWorld` from
      bodies `bs` with `n` live and manifold slots `ms` with `c0` live: generation, force
      integration and manifold initialisation. Every live manifold then names two
      distinct live bodies, lower first, and the first `n` slots still name bodies
      inside the array if they did before. */
  function Prepared(bs: seq<Body>, ms: seq<KeysManifold>, n: int, c0: int, dt: real, gravity: V2,
                    e: Engine): (r: Snapshot)
    requires |bs| == MAX_BODIES && |ms| == MAX_MANIFOLDS
    requires 0 <= n <= MAX_BODIES && 0 <= c0 < MAX_MANIFOLDS
    requires OrderedKeys(ms[..c0], n)
    ensures |r.bodies| == MAX_BODIES && |r.manifolds| == MAX_MANIFOLDS
    ensures c0 + |Generate(bs, n, MAX_MANIFOLDS - c0, e)| <= MAX_MANIFOLDS
    ensures OrderedKeys(r.manifolds[..c0 + |Generate(bs, n, MAX_MANIFOLDS - c0, e)|], n)
    ensures KeysIn(ms[..n], MAX_BODIES) ==> KeysIn(r.manifolds[..n], MAX_BODIES)
  {
    var c1 := c0 + |Generate(bs, n, MAX_MANIFOLDS - c0, e)|;
    GeneratedKeys(bs, ms, n, c0, e, n, MAX_BODIES);
    var m1 := Generated(bs, ms, n, c0, e);
    var b1 := IntegrateEach(bs, n, e.integrateForce, dt, gravity);
    assert KeysIn(m1[..c1], MAX_BODIES);
    var m2 := InitLive(b1, m1, c1, e.manifoldInitialize);
    OrderKept(m2, m1, c1, n);
    KeysKept(m2, m1, if KeysIn(ms[..n], MAX_BODIES) then n else 0, MAX_BODIES);
    Snapshot(b1, m2)
  }

  /** `Prepared` is the snapshot reached through the named results of its three
      phases. */
  lemma PreparedOfPhases(bs: seq<Body>, ms: seq<KeysManifold>, n: int, c0: int, dt: real, gravity: V2,
                         e: Engine, c1: int, m1: seq<KeysManifold>, b1: seq<Body>, m2: seq<KeysManifold>)
    requires |bs| == MAX_BODIES && |ms| == MAX_MANIFOLDS
    requires 0 <= n <= MAX_BODIES && 0 <= c0 < MAX_MANIFOLDS
    requires OrderedKeys(ms[..c0], n)
    requires c1 == c0 + |Generate(bs, n, MAX_MANIFOLDS - c0, e)| <= |ms|
    requires m1 == Generated(bs, ms, n, c0, e)
    requires b1 == IntegrateEach(bs, n, e.integrateForce, dt, gravity)
    requires KeysIn(m1[..c1], |b1|)
    requires m2 == InitLive(b1, m1, c1, e.manifoldInitialize)
    ensures Prepared(bs, ms, n, c0, dt, gravity, e) == Snapshot(b1, m2)
  {
  }

  /** The bodies and manifold slots after the last four phases of `stepWorld`, from
      the snapshot `p` with `n` live bodies and `c1` live manifolds: `iterations`
      impulse passes, velocity integration, one positional correction pass, and the
      force reset. `asWritten` selects the bound of the correction pass: `n` slots, as
      the C loop does, or the live manifolds only. The slots are not changed, and every
      live body ends without force. */
  function Finish(p: Snapshot, n: int, c1: int, dt: real, gravity: V2, iterations: int, e: Engine,
                  asWritten: bool): (r: Snapshot)
    requires |p.bodies| == MAX_BODIES && 0 <= n <= MAX_BODIES && 0 <= c1 <= |p.manifolds|
    requires KeysIn(p.manifolds[..c1], MAX_BODIES)
    requires asWritten ==> n <= |p.manifolds| && KeysIn(p.manifolds[..n], MAX_BODIES)
    ensures |r.bodies| == MAX_BODIES && r.manifolds == p.manifolds
    ensures forall k :: 0 <= k < n ==> r.bodies[k].force == Zero
  {
    var b2 := Rounds(p.bodies, p.manifolds[..c1], iterations, e.applyImpulse);
    var b3 := IntegrateEach(b2, n, e.integrateVelocity, dt, gravity);
    var b4 := if asWritten then ApplyFirst(b3, p.manifolds[..n], n, e.positionalCorrection)
              else ApplyFirst(b3, p.manifolds[..c1], c1, e.positionalCorrection);
    Snapshot(ZeroForces(b4, n), p.manifolds)
  }

  /** The bodies and manifold slots after one `stepWorld` from bodies `bs` with `n`
      live, manifold slots `ms` with `c0` live, and the world's `dt`, `gravity` and
      `iterations`: `Prepared`, then `Finish`. */
  function Step(bs: seq<Body>, ms: seq<KeysManifold>, n: int, c0: int, dt: real, gravity: V2,
                iterations: int, e: Engine, asWritten: bool): (r: Snapshot)
    requires |bs| == MAX_BODIES && |ms| == MAX_MANIFOLDS
    requires 0 <= n <= MAX_BODIES && 0 <= c0 < MAX_MANIFOLDS
    requires OrderedKeys(ms[..c0], n)
    requires asWritten ==> KeysIn(ms[..n], MAX_BODIES)
    ensures |r.bodies| == MAX_BODIES && |r.manifolds| == MAX_MANIFOLDS
    ensures forall k :: 0 <= k < n ==> r.bodies[k].force == Zero
    ensures asWritten ==> KeysIn(r.manifolds[..n], MAX_BODIES)
  {
    var c1 := c0 + |Generate(bs, n, MAX_MANIFOLDS - c0, e)|;
    Finish(Prepared(bs, ms, n, c0, dt, gravity, e), n, c1, dt, gravity, iterations, e, asWritten)
  }

  /** The step as written and the intended step agree whenever generation leaves
      exactly as many live manifolds as there are live bodies. */
  lemma StepVariantsAgree(bs: seq<Body>, ms: seq<KeysManifold>, n: int, c0: int, dt: real, gravity: V2,
                          iterations: int, e: Engine)
    requires |bs| == MAX_BODIES && |ms| == MAX_MANIFOLDS
    requires 0 <= n <= MAX_BODIES && 0 <= c0 < MAX_MANIFOLDS
    requires OrderedKeys(ms[..c0], n) && KeysIn(ms[..n], MAX_BODIES)
    requires c0 + |Generate(bs, n, MAX_MANIFOLDS - c0, e)| == n
    ensures Step(bs, ms, n, c0, dt, gravity, iterations, e, true)
         == Step(bs, ms, n, c0, dt, gravity, iterations, e, false)
  {
  }

  /** Manifold slots that agree with `m0` before `c0` and after `c1`, and hold the
      generated manifolds in between, are the slots `Generated` describes. */
  lemma SlotsAfterGeneration(a: seq<KeysManifold>, m0: seq<KeysManifold>, bs: seq<Body>, n: int,
                             c0: int, c1: int, e: Engine)
    requires n <= |bs| && 0 <= c0 <= c1 <= |a| == |m0|
    requires a[..c0] == m0[..c0] && a[c0..c1] == Generate(bs, n, |m0| - c0, e)
    requires forall k :: c1 <= k < |a| ==> a[k] == m0[k]
    ensures a == Generated(bs, m0, n, c0, e)
  {
    assert a == a[..c0] + a[c0..c1] + a[c1..];
  }

  /** Slots with the same keys as `b` name bodies below `bound` wherever `b` does. */
  lemma KeysKept(a: seq<KeysManifold>, b: seq<KeysManifold>, m: int, bound: int)
    requires |a| == |b| && 0 <= m <= |a|
    requires forall k :: 0 <= k < |a| ==> a[k].aKey == b[k].aKey && a[k].bKey == b[k].bKey
    requires KeysIn(b[..m], bound)
    ensures KeysIn(a[..m], bound)
  {
    forall k | 0 <= k < m ensures 0 <= a[..m][k].aKey < bound && 0 <= a[..m][k].bKey < bound {
      assert a[..m][k] == a[k] && b[..m][k] == b[k];
    }
  }

  /** Slots with the same keys as `b` name two distinct bodies below `n`, lower
      first, wherever `b` does. */
  lemma OrderKept(a: seq<KeysManifold>, b: seq<KeysManifold>, m: int, n: int)
    requires |a| == |b| && 0 <= m <= |a|
    requires forall k :: 0 <= k < |a| ==> a[k].aKey == b[k].aKey && a[k].bKey == b[k].bKey
    requires OrderedKeys(b[..m], n)
    ensures OrderedKeys(a[..m], n)
  {
    forall k | 0 <= k < m ensures 0 <= a[..m][k].aKey < a[..m][k].bKey < n {
      assert a[..m][k] == a[k] && b[..m][k] == b[k];
    }
  }

  /** Three moving bodies with mass, all touching: one generation pass from an empty
      manifold list records the three pairs in loop order, in manifold slots 0, 1 and 2. */
  lemma ThreeContacts(bs: seq<Body>, m: Manifold, e: Engine)
    requires 3 <= |bs|
    requires forall k :: 0 <= k < 3 ==> bs[k].mass != 0.0 && !e.nearZero(bs[k].velocity)
    requires forall a, b :: e.solveCollision(a, b) == Some(m)
    ensures Generate(bs, 3, MAX_MANIFOLDS, e)
         == [KeysManifold(0, 1, m), KeysManifold(0, 2, m), KeysManifold(1, 2, m)]
  {
    var s1 := [KeysManifold(0, 1, m)];
    var s2 := s1 + [KeysManifold(0, 2, m)];
    var s3 := s2 + [KeysManifold(1, 2, m)];
    assert !Pruned(bs[0], bs[1], e) && !Pruned(bs[0], bs[2], e) && !Pruned(bs[1], bs[2], e);
    assert e.solveCollision(bs[0], bs[1]) == Some(m) && e.solveCollision(bs[0], bs[2]) == Some(m);
    assert e.solveCollision(bs[1], bs[2]) == Some(m);
    assert Scan(bs, 3, 2, 3, s3, MAX_MANIFOLDS, e) == s3;
    assert Scan(bs, 3, 1, 3, s3, MAX_MANIFOLDS, e) == s3;
    assert Scan(bs, 3, 1, 2, s2, MAX_MANIFOLDS, e) == s3;
    assert Scan(bs, 3, 0, 3, s2, MAX_MANIFOLDS, e) == s3;
    assert Scan(bs, 3, 0, 2, s1, MAX_MANIFOLDS, e) == s3;
  }

  /** The step after that, as written. The manifold slots 0, 1 and 2 still hold the
      pairs (0, 1), (0, 2) and (1, 2) of the previous step, since `resetCollisions`
      only clears the count, and this time no pair touches. Take integration routines
      that leave bodies as they are and a correction routine that pushes the first body
      of its pair one unit left. The step as written, whose correction pass runs over
      `bodyCount = 3` slots, moves body 0 two units; the step over the live manifolds,
      of which there are none, only clears its force. */
  lemma StaleContactsCorrectedAsWritten(bs: seq<Body>, ms: seq<KeysManifold>, dt: real, gravity: V2,
                                        iterations: int, e: Engine)
    requires |bs| == MAX_BODIES && |ms| == MAX_MANIFOLDS
    requires ms[0].aKey == 0 && ms[0].bKey == 1 && ms[1].aKey == 0 && ms[1].bKey == 2
    requires ms[2].aKey == 1 && ms[2].bKey == 2
    requires forall a, b :: e.solveCollision(a, b) == None
    requires forall t, g, b :: e.integrateForce(t, g, b) == b && e.integrateVelocity(t, g, b) == b
    requires forall m, p, q :: e.positionalCorrection(m, p, q) == (p.(position := V2(p.position.x - 1.0, p.position.y)), q)
    ensures KeysIn(ms[..3], MAX_BODIES)
    ensures Step(bs, ms, 3, 0, dt, gravity, iterations, e, false).bodies[0] == bs[0].(force := Zero)
    ensures Step(bs, ms, 3, 0, dt, gravity, iterations, e, true).bodies[0].position.x == bs[0].position.x - 2.0
  {
    KeysOfThree(ms);
    QuietGeneration(bs, ms, e);
    UnmovedByIntegration(bs, 3, e.integrateForce, dt, gravity);
    NothingInitialised(bs, ms, e.manifoldInitialize);
    NoRounds(bs, ms[..0], iterations, e.applyImpulse);
    UnmovedByIntegration(bs, 3, e.integrateVelocity, dt, gravity);
    PushedTwice(bs, ms, e.positionalCorrection);
  }

  /** Slots naming the pairs (0, 1), (0, 2) and (1, 2) name bodies inside the array. */
  lemma KeysOfThree(ms: seq<KeysManifold>)
    requires |ms| >= 3
    requires ms[0].aKey == 0 && ms[0].bKey == 1 && ms[1].aKey == 0 && ms[1].bKey == 2
    requires ms[2].aKey == 1 && ms[2].bKey == 2
    ensures KeysIn(ms[..3], MAX_BODIES)
  {
    forall k | 0 <= k < 3 ensures 0 <= ms[..3][k].aKey < MAX_BODIES && 0 <= ms[..3][k].bKey < MAX_BODIES {
      assert ms[..3][k] == ms[k];
    }
  }

  /** A pass that finds no contact leaves the manifold slots as they were. */
  lemma QuietGeneration(bs: seq<Body>, ms: seq<KeysManifold>, e: Engine)
    requires |bs| >= 3 && |ms| == MAX_MANIFOLDS
    requires forall a, b :: e.solveCollision(a, b) == None
    ensures |Generate(bs, 3, MAX_MANIFOLDS, e)| == 0
    ensures Generated(bs, ms, 3, 0, e) == ms
  {
    ScanWithoutContacts(bs, 3, 0, 1, [], MAX_MANIFOLDS, e);
  }

  /** A routine that leaves every body as it is leaves the bodies as they are. */
  lemma UnmovedByIntegration(bs: seq<Body>, n: int, g: (real, V2, Body) -> Body, dt: real, gravity: V2)
    requires forall t, v, b :: g(t, v, b) == b
    ensures IntegrateEach(bs, n, g, dt, gravity) == bs
  {
  }

  /** Initialising no manifold changes no slot. */
  lemma NothingInitialised(bs: seq<Body>, ms: seq<KeysManifold>, f: (Body, Body, Manifold) -> Manifold)
    ensures InitLive(bs, ms, 0, f) == ms
  {
  }

  /** Passes over no manifold change no body. */
  lemma NoRounds(bs: seq<Body>, ms: seq<KeysManifold>, it: int, f: (Manifold, Body, Body) -> (Body, Body))
    requires |ms| == 0
    ensures Rounds(bs, ms, it, f) == bs
  {
    forall k | 0 <= k < |bs| ensures Rounds(bs, ms, it, f)[k] == bs[k] {
      RoundsFrame(bs, ms, it, f, k);
    }
  }

  /** The correction pass over the three stale slots pushes body 0 twice. */
  lemma PushedTwice(bs: seq<Body>, ms: seq<KeysManifold>, f: (Manifold, Body, Body) -> (Body, Body))
    requires |bs| == MAX_BODIES && |ms| >= 3
    requires ms[0].aKey == 0 && ms[0].bKey == 1 && ms[1].aKey == 0 && ms[1].bKey == 2
    requires ms[2].aKey == 1 && ms[2].bKey == 2
    requires forall m, p, q :: f(m, p, q) == (p.(position := V2(p.position.x - 1.0, p.position.y)), q)
    ensures KeysIn(ms[..3], |bs|)
    ensures ApplyFirst(bs, ms[..3], 3, f)[0].position.x == bs[0].position.x - 2.0
  {
    KeysOfThree(ms);
    var s := ms[..3];
    var a1 := ApplyFirst(bs, s, 1, f);
    assert a1[0].position.x == bs[0].position.x - 1.0;
    var a2 := ApplyFirst(bs, s, 2, f);
    assert a2[0].position.x == bs[0].position.x - 2.0;
  }

  class World {
    const bodies: array<Body>
    var bodyCount: int
    const manifolds: array<KeysManifold>
    var manifoldCount: int
    var dt: real
    var gravity: V2
    var iterations: int

    /** The arrays have their capacities, the counters stay within them, and every live
        manifold names two distinct live bodies, the lower index first. */
    ghost predicate Valid()
      reads this, manifolds
    {
      && bodies.Length == MAX_BODIES
      && manifolds.Length == MAX_MANIFOLDS
      && 0 <= bodyCount <= MAX_BODIES
      && 0 <= manifoldCount <= MAX_MANIFOLDS
      && OrderedKeys(manifolds[..manifoldCount], bodyCount)
    }

    /** `mkWorld`. `blanks` and `blankSlots` stand for what the body and manifold
        storage held, slot by slot, before the call. */
    constructor MkWorld(lib: Library, blanks: seq<Body>, blankSlots: seq<KeysManifold>)
      requires |blanks| == MAX_BODIES && |blankSlots| == MAX_MANIFOLDS
      ensures Valid() && fresh(bodies) && fresh(manifolds)
      ensures bodyCount == 1 + GRID * GRID && manifoldCount == 0
      ensures dt == 1.0 / 60.0 && gravity == Zero && iterations == 10
      ensures bodies[0] == CannonBall(lib)
      ensures forall k :: 1 <= k <= GRID * GRID ==> bodies[k] == GridCell(lib, blanks, k)
      ensures forall k :: 1 + GRID * GRID <= k < MAX_BODIES ==> bodies[k] == blanks[k]
      ensures manifolds[..] == blankSlots
    {
      bodies := new Body[MAX_BODIES](k requires 0 <= k < MAX_BODIES => blanks[k]);
      manifolds := new KeysManifold[MAX_MANIFOLDS](k requires 0 <= k < MAX_MANIFOLDS => blankSlots[k]);
      bodyCount := 0;
      manifoldCount := 0;
      dt := 1.0 / 60.0;
      gravity := Zero;
      iterations := 10;
      new;
      bodies[0] := CannonBall(lib);
      bodyCount := bodyCount + 1;
      AddGrid(lib);
    }

    /** The double loop of `mkWorld`: one rock body per grid cell, in row order, at
        slot `GridIndex(i, j)`, each counted in `bodyCount`. Each grid body keeps the
        fields the loop does not set from what its slot held. */
    method AddGrid(lib: Library)
      requires bodies.Length == MAX_BODIES && bodyCount == 1
      modifies this`bodyCount, bodies
      ensures bodyCount == 1 + GRID * GRID
      ensures bodies[0] == old(bodies[0])
      ensures forall k :: 1 <= k <= GRID * GRID ==> bodies[k] == GridCell(lib, old(bodies[..]), k)
      ensures forall k :: 1 + GRID * GRID <= k < MAX_BODIES ==> bodies[k] == old(bodies[k])
    {
      ghost var prior := bodies[..];
      var i := 0;
      while i < GRID
        invariant 0 <= i <= GRID
        invariant bodyCount == i * GRID + 1
        invariant bodies[0] == prior[0]
        invariant forall k :: 1 <= k < bodyCount ==> bodies[k] == GridCell(lib, prior, k)
        invariant forall k :: bodyCount <= k < MAX_BODIES ==> bodies[k] == prior[k]
      {
        var j := 0;
        while j < GRID
          invariant 0 <= j <= GRID
          invariant bodyCount == i * GRID + j + 1
          invariant bodies[0] == prior[0]
          invariant forall k :: 1 <= k < bodyCount ==> bodies[k] == GridCell(lib, prior, k)
          invariant forall k :: bodyCount <= k < MAX_BODIES ==> bodies[k] == prior[k]
        {
          GridIndexInverse(i, j);
          var a := GridIndex(i, j);
          bodies[a] := GridBody(lib, bodies[a], i, j);
          bodyCount := bodyCount + 1;
          j := j + 1;
        }
        i := i + 1;
      }
    }

    /** `generateCollisions`: appends, in loop order, the manifold of every unpruned
        pair of live bodies the collision routine reports, stopping as soon as the
        manifold array is full. The appended part is `Generate`; nothing else changes. */
    method GenerateCollisions(e: Engine)
      requires Valid() && manifoldCount < MAX_MANIFOLDS
      modifies this`manifoldCount, manifolds
      ensures Valid()
      ensures old(manifoldCount) <= manifoldCount <= MAX_MANIFOLDS
      ensures manifolds[..old(manifoldCount)] == old(manifolds[..manifoldCount])
      ensures manifolds[old(manifoldCount)..manifoldCount]
           == Generate(bodies[..], bodyCount, MAX_MANIFOLDS - old(manifoldCount), e)
      ensures forall k :: manifoldCount <= k < MAX_MANIFOLDS ==> manifolds[k] == old(manifolds[k])
    {
      ghost var bs := bodies[..];
      ghost var c0 := manifoldCount;
      ghost var room := MAX_MANIFOLDS - c0;
      ghost var target := Generate(bs, bodyCount, room, e);
      var i := 0;
      while i < bodyCount
        invariant 0 <= i <= bodyCount
        invariant c0 <= manifoldCount < MAX_MANIFOLDS
        invariant manifolds[..c0] == old(manifolds[..manifoldCount])
        invariant forall k :: manifoldCount <= k < MAX_MANIFOLDS ==> manifolds[k] == old(manifolds[k])
        invariant Scan(bs, bodyCount, i, i + 1, manifolds[c0..manifoldCount], room, e) == target
      {
        var iNearZero := e.nearZero(bodies[i].velocity);
        var iNoMass := bodies[i].mass == 0.0;
        var j := i + 1;
        while j < bodyCount
          invariant i + 1 <= j <= bodyCount
          invariant c0 <= manifoldCount < MAX_MANIFOLDS
          invariant manifolds[..c0] == old(manifolds[..manifoldCount])
          invariant forall k :: manifoldCount <= k < MAX_MANIFOLDS ==> manifolds[k] == old(manifolds[k])
          invariant Scan(bs, bodyCount, i, j, manifolds[c0..manifoldCount], room, e) == target
        {
          if !(iNoMass && bodies[j].mass == 0.0) && !(iNearZero && e.nearZero(bodies[j].velocity)) {
            match e.solveCollision(bodies[i], bodies[j])
            case Some(m) =>
              ghost var added := manifolds[c0..manifoldCount];
              manifolds[manifoldCount] := KeysManifold(i, j, m);
              manifoldCount := manifoldCount + 1;
              assert manifolds[c0..manifoldCount] == added + [KeysManifold(i, j, m)];
              if manifoldCount == MAX_MANIFOLDS {
                RecordedKeysOrdered(bs, bodyCount, room, e, c0);
                return;
              }
            case None =>
          }
          j := j + 1;
        }
        i := i + 1;
      }
      RecordedKeysOrdered(bs, bodyCount, room, e, c0);
    }

    /** The keys that `Generate` appends after the `c0` live manifolds keep `Valid`. */
    lemma RecordedKeysOrdered(bs: seq<Body>, n: int, room: int, e: Engine, c0: int)
      requires bs == bodies[..] && n == bodyCount && 0 <= n <= MAX_BODIES
      requires 0 <= c0 <= manifoldCount <= MAX_MANIFOLDS == manifolds.Length
      requires bodies.Length == MAX_BODIES
      requires OrderedKeys(manifolds[..c0], n)
      requires manifolds[c0..manifoldCount] == Generate(bs, n, room, e)
      ensures Valid()
    {
      GenerateSound(bs, n, room, e);
      var ms := manifolds[..manifoldCount];
      forall k | 0 <= k < manifoldCount
        ensures 0 <= ms[k].aKey < ms[k].bKey < n
      {
        if k < c0 {
          assert ms[k] == manifolds[..c0][k];
        } else {
          assert ms[k] == Generate(bs, n, room, e)[k - c0];
        }
      }
    }

    /** One call of a pair routine on manifold `km`, writing its results back to the
        two bodies in the order the C routines do (body `aKey`, then body `bKey`). */
    method ApplyPairAt(km: KeysManifold, f: (Manifold, Body, Body) -> (Body, Body))
      requires 0 <= km.aKey < bodies.Length && 0 <= km.bKey < bodies.Length
      modifies bodies
      ensures bodies[..] == ApplyPair(old(bodies[..]), km, f)
    {
      var out := f(km.manifold, bodies[km.aKey], bodies[km.bKey]);
      bodies[km.aKey] := out.0;
      bodies[km.bKey] := out.1;
    }

    /** `integrateForces`: the force routine is applied to every live body. */
    method IntegrateForces(e: Engine)
      requires Valid()
      modifies bodies
      ensures Valid()
      ensures forall k :: 0 <= k < bodyCount ==> bodies[k] == e.integrateForce(dt, gravity, old(bodies[k]))
      ensures forall k :: bodyCount <= k < MAX_BODIES ==> bodies[k] == old(bodies[k])
      ensures bodies[..] == IntegrateEach(old(bodies[..]), bodyCount, e.integrateForce, dt, gravity)
    {
      var i := 0;
      while i < bodyCount
        invariant 0 <= i <= bodyCount
        invariant forall k :: 0 <= k < i ==> bodies[k] == e.integrateForce(dt, gravity, old(bodies[k]))
        invariant forall k :: i <= k < MAX_BODIES ==> bodies[k] == old(bodies[k])
      {
        bodies[i] := e.integrateForce(dt, gravity, bodies[i]);
        i := i + 1;
      }
    }

    /** `initializeCollisions`: every live manifold is initialised from its two bodies;
        keys and the other slots are untouched. */
    method InitializeCollisions(e: Engine)
      requires Valid()
      modifies manifolds
      ensures Valid()
      ensures forall k :: 0 <= k < manifoldCount ==>
        manifolds[k] == old(manifolds[k]).(manifold := e.manifoldInitialize(
          bodies[old(manifolds[k]).aKey], bodies[old(manifolds[k]).bKey], old(manifolds[k]).manifold))
      ensures forall k :: manifoldCount <= k < MAX_MANIFOLDS ==> manifolds[k] == old(manifolds[k])
      ensures manifolds[..] == InitLive(bodies[..], old(manifolds[..]), manifoldCount, e.manifoldInitialize)
    {
      var i := 0;
      while i < manifoldCount
        invariant 0 <= i <= manifoldCount
        invariant forall k :: 0 <= k < i ==>
          manifolds[k] == old(manifolds[k]).(manifold := e.manifoldInitialize(
            bodies[old(manifolds[k]).aKey], bodies[old(manifolds[k]).bKey], old(manifolds[k]).manifold))
        invariant forall k :: i <= k < MAX_MANIFOLDS ==> manifolds[k] == old(manifolds[k])
        invariant OrderedKeys(manifolds[..manifoldCount], bodyCount)
      {
        var km := manifolds[i];
        manifolds[i] := km.(manifold := e.manifoldInitialize(bodies[km.aKey], bodies[km.bKey], km.manifold));
        i := i + 1;
      }
    }

    /** The loop shared by `solveCollisions` (one pass) and `correctPositions`: for
        `i` from 0 to `count - 1`, the pair routine `f` on manifold slot `i` and the
        two bodies it names. */
    method ApplyToSlots(count: int, f: (Manifold, Body, Body) -> (Body, Body))
      requires bodies.Length == MAX_BODIES && 0 <= count <= manifolds.Length
      requires KeysIn(manifolds[..count], MAX_BODIES)
      modifies bodies
      ensures bodies[..] == ApplyFirst(old(bodies[..]), manifolds[..count], count, f)
    {
      ghost var b0 := bodies[..];
      ghost var ms := manifolds[..count];
      var i := 0;
      while i < count
        invariant 0 <= i <= count
        invariant bodies[..] == ApplyFirst(b0, ms, i, f)
      {
        var km := manifolds[i];
        assert km == ms[i];
        ApplyPairAt(km, f);
        i := i + 1;
      }
    }

    /** `solveCollisions`: `iterations` passes, each applying the impulse routine to the
        live manifolds in index order (`RoundsFollowSchedule` spells out the order). */
    method SolveCollisions(e: Engine)
      requires Valid()
      modifies bodies
      ensures Valid()
      ensures bodies[..] == Rounds(old(bodies[..]), manifolds[..manifoldCount], iterations, e.applyImpulse)
    {
      ghost var b0 := bodies[..];
      ghost var ms := manifolds[..manifoldCount];
      var it := 0;
      while it < iterations
        invariant 0 <= it <= if iterations < 0 then 0 else iterations
        invariant bodies[..] == Rounds(b0, ms, it, e.applyImpulse)
      {
        ApplyToSlots(manifoldCount, e.applyImpulse);
        it := it + 1;
      }
    }

    /** `integrateVelocities`: the velocity routine is applied to every live body. */
    method IntegrateVelocities(e: Engine)
      requires Valid()
      modifies bodies
      ensures Valid()
      ensures forall k :: 0 <= k < bodyCount ==> bodies[k] == e.integrateVelocity(dt, gravity, old(bodies[k]))
      ensures forall k :: bodyCount <= k < MAX_BODIES ==> bodies[k] == old(bodies[k])
      ensures bodies[..] == IntegrateEach(old(bodies[..]), bodyCount, e.integrateVelocity, dt, gravity)
    {
      var i := 0;
      while i < bodyCount
        invariant 0 <= i <= bodyCount
        invariant forall k :: 0 <= k < i ==> bodies[k] == e.integrateVelocity(dt, gravity, old(bodies[k]))
        invariant forall k :: i <= k < MAX_BODIES ==> bodies[k] == old(bodies[k])
      {
        bodies[i] := e.integrateVelocity(dt, gravity, bodies[i]);
        i := i + 1;
      }
    }

    /** `correctPositions` as written: walks manifold slots `0 .. bodyCount - 1`. The
        slots stay inside the manifold array because `bodyCount <= MAX_BODIES` is half
        of `MAX_MANIFOLDS`, but they are not the live manifolds: the routine also reads
        the keys of slots at or past `manifoldCount`, which hold manifolds of earlier
        steps or were never written, and it skips live manifolds at or past
        `bodyCount`. The C code is memory-safe only when those slots hold keys of bodies
        inside the body array, which is what the precondition asks. */
    method CorrectPositionsAsWritten(e: Engine)
      requires Valid()
      requires KeysIn(manifolds[..bodyCount], MAX_BODIES)
      modifies bodies
      ensures Valid()
      ensures bodies[..] == ApplyFirst(old(bodies[..]), manifolds[..bodyCount], bodyCount,
                                       e.positionalCorrection)
    {
      ApplyToSlots(bodyCount, e.positionalCorrection);
    }

    /** `correctPositions` as evidently intended: one positional correction per live
        manifold, in index order, like `initializeCollisions` and `solveCollisions`. */
    method CorrectPositions(e: Engine)
      requires Valid()
      modifies bodies
      ensures Valid()
      ensures bodies[..] == ApplyFirst(old(bodies[..]), manifolds[..manifoldCount], manifoldCount,
                                       e.positionalCorrection)
    {
      ApplyToSlots(manifoldCount, e.positionalCorrection);
    }

    /** `resetCollisions`: every live body's force becomes zero, no other field of any
        body changes, and the manifold list is emptied. */
    method ResetCollisions()
      requires Valid()
      modifies this`manifoldCount, bodies
      ensures Valid() && manifoldCount == 0
      ensures forall k :: 0 <= k < bodyCount ==> bodies[k] == old(bodies[k]).(force := Zero)
      ensures forall k :: bodyCount <= k < MAX_BODIES ==> bodies[k] == old(bodies[k])
      ensures bodies[..] == ZeroForces(old(bodies[..]), bodyCount)
    {
      var i := 0;
      while i < bodyCount
        invariant 0 <= i <= bodyCount
        invariant forall k :: 0 <= k < i ==> bodies[k] == old(bodies[k]).(force := Zero)
        invariant forall k :: i <= k < MAX_BODIES ==> bodies[k] == old(bodies[k])
      {
        bodies[i] := bodies[i].(force := Zero);
        i := i + 1;
      }
      manifoldCount := 0;
    }

    /** The first three phases of `stepWorld`, shared by both variants below:
        generation, force integration and manifold initialisation. */
    method PrepareContacts(e: Engine)
      requires Valid() && manifoldCount < MAX_MANIFOLDS
      modifies this`manifoldCount, bodies, manifolds
      ensures Valid()
      ensures manifoldCount
           == old(manifoldCount) + |Generate(old(bodies[..]), bodyCount, MAX_MANIFOLDS - old(manifoldCount), e)|
      ensures bodies[..] == Prepared(old(bodies[..]), old(manifolds[..]), bodyCount, old(manifoldCount), dt, gravity, e).bodies
      ensures manifolds[..]
           == Prepared(old(bodies[..]), old(manifolds[..]), bodyCount, old(manifoldCount), dt, gravity, e).manifolds
    {
      ghost var b0, m0, c0 := bodies[..], manifolds[..], manifoldCount;
      GenerateCollisions(e);
      ghost var m1 := manifolds[..];
      SlotsAfterGeneration(m1, m0, b0, bodyCount, c0, manifoldCount, e);
      GeneratedKeys(b0, m0, bodyCount, c0, e, 0, MAX_BODIES);
      IntegrateForces(e);
      ghost var b1 := bodies[..];
      InitializeCollisions(e);
      PreparedOfPhases(b0, m0, bodyCount, c0, dt, gravity, e, manifoldCount, m1, b1, manifolds[..]);
    }

    /** The last four phases of `stepWorld` as written, with `correctPositions` over
        `bodyCount` manifold slots: the new bodies are `Finish` of the old ones, and no
        manifold is live afterwards. */
    method CompleteStep(e: Engine)
      requires Valid() && KeysIn(manifolds[..bodyCount], MAX_BODIES)
      modifies this`manifoldCount, bodies
      ensures Valid() && manifoldCount == 0
      ensures bodies[..] == Finish(Snapshot(old(bodies[..]), manifolds[..]), bodyCount, old(manifoldCount),
                                   dt, gravity, iterations, e, true).bodies
    {
      assert manifolds[..manifoldCount] == manifolds[..][..manifoldCount];
      assert manifolds[..bodyCount] == manifolds[..][..bodyCount];
      SolveCollisions(e);
      IntegrateVelocities(e);
      CorrectPositionsAsWritten(e);
      ResetCollisions();
    }

    /** The last four phases with `correctPositions` bounded by the live manifolds. */
    method CompleteStepIntended(e: Engine)
      requires Valid()
      modifies this`manifoldCount, bodies
      ensures Valid() && manifoldCount == 0
      ensures bodies[..] == Finish(Snapshot(old(bodies[..]), manifolds[..]), bodyCount, old(manifoldCount),
                                   dt, gravity, iterations, e, false).bodies
    {
      assert manifolds[..manifoldCount] == manifolds[..][..manifoldCount];
      SolveCollisions(e);
      IntegrateVelocities(e);
      CorrectPositions(e);
      ResetCollisions();
    }

    /** `stepWorld`: the seven phases in order, with `correctPositions` as written,
        over `bodyCount` manifold slots. The new bodies and manifold slots are `Step` of
        the old ones; no manifold is live afterwards. The slots the correction pass
        reads must name bodies inside the body array, before and after. */
    method StepWorld(e: Engine)
      requires Valid() && manifoldCount < MAX_MANIFOLDS
      requires KeysIn(manifolds[..bodyCount], MAX_BODIES)
      modifies this`manifoldCount, bodies, manifolds
      ensures Valid() && manifoldCount == 0
      ensures KeysIn(manifolds[..bodyCount], MAX_BODIES)
      ensures bodies[..] == Step(old(bodies[..]), old(manifolds[..]), bodyCount, old(manifoldCount),
                                 dt, gravity, iterations, e, true).bodies
      ensures manifolds[..] == Step(old(bodies[..]), old(manifolds[..]), bodyCount, old(manifoldCount),
                                    dt, gravity, iterations, e, true).manifolds
    {
      assert manifolds[..bodyCount] == manifolds[..][..bodyCount];
      PrepareContacts(e);
      assert manifolds[..bodyCount] == manifolds[..][..bodyCount];
      CompleteStep(e);
    }

    /** `stepWorld` with `correctPositions` bounded by the live manifolds, as the other
        manifold loops are: the new state is `Step` with the live-only correction pass. */
    method StepWorldIntended(e: Engine)
      requires Valid() && manifoldCount < MAX_MANIFOLDS
      modifies this`manifoldCount, bodies, manifolds
      ensures Valid() && manifoldCount == 0
      ensures bodies[..] == Step(old(bodies[..]), old(manifolds[..]), bodyCount, old(manifoldCount),
                                 dt, gravity, iterations, e, false).bodies
      ensures manifolds[..] == Step(old(bodies[..]), old(manifolds[..]), bodyCount, old(manifoldCount),
                                    dt, gravity, iterations, e, false).manifolds
    {
      PrepareContacts(e);
      CompleteStepIntended(e);
    }
  }
}
