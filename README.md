# A Dafny model of the PF physics demo core

PF is a small 2-D rigid-body physics library in C, and the demo drives it. This
project models two pieces. From the library: the axis-aligned bounding-box
overlap test `pf_test_aabb_vs_aabb`. From the demo: the world and its
fixed-capacity arrays, the world builder `mkWorld`, the seven phases of
`stepWorld`, and the frame-pacing helper `delayTime`.

Modules:

- `Vec` holds the 2-D vector `V2`. Its components are `real`, not `float`.
- `PfAabb` holds the box type and `TestAabbVsAabb`, written as in the C: three
  comparisons are non-strict and `b.min.x < a.max.x` is strict. Its lemmas
  describe what the test means as a shared point, and how it treats borders and
  argument order. They also check the boxes of the library's unit-test file
  against the code as written.
- `DemoTypes` holds the body, shape and manifold records, the capacities
  `MAX_BODIES = 4096` and `MAX_MANIFOLDS = 2 * MAX_BODIES`, and two bundles of
  functions:
  - `Engine` stands for the library routines the demo calls but whose bodies
    are not modelled: `pfSolveCollision`, `mlNearZeroV2f`, `pfIntegrateForce`,
    `pfManifoldInitialize`, `pfManifoldApplyImpulse`, `pfIntegrateVelocity` and
    `pfPositionalCorrection`.
  - `Library` stands for the preset constructors: `pfBody`, `pfCircle`, `pfBox`,
    `pfRockEsque` and `pfMetalEsque`.

  Every operation takes these bundles as parameters. Each routine that works in
  place through pointers becomes a function that returns the updated values.
- `Collisions` holds the pure specification of each phase:
  - `Scan`/`Generate` follow the two nested loops of `generateCollisions`. That
    covers the pruning of pairs whose masses are both zero or whose velocities
    are both near zero, the record written only on `pfSolveCollision` success,
    and the stop at capacity.
  - `ApplyFirst` and `Rounds` give one pass, and `iterations` passes, of a
    pair-update routine over the live manifolds.
  - `Range`, `Schedule` and `ApplySlots` restate those passes as the explicit
    sequence of slots visited.
  - `Contacts` is the list a generation pass would record with unlimited room,
    and `Generated`, `IntegrateEach`, `InitLive` and `ZeroForces` give the
    manifold slots and bodies after each of the other phases.
- `WorldState` holds the class `World`, which mirrors the demo's `World`
  struct:
  - the `bodies` and `manifolds` arrays;
  - the counters `bodyCount` and `manifoldCount`;
  - `dt`, `gravity` and `iterations`.

  Each phase method is one loop of the demo, proved against the matching
  function of `Collisions`; `ApplyPairAt` is one routine call inside such a
  loop, proved against `ApplyPair`. `Prepared` and `Finish` compose the phase
  functions into the first three and the last four phases, and `Step` into one
  whole step. The methods `PrepareContacts`, `CompleteStep` and
  `CompleteStepIntended` are proved against the first two, and `StepWorld` and
  `StepWorldIntended` against `Step`. `Valid()` is the invariant kept between phases: both counters
  are within capacity, and every live manifold has keys `0 <= aKey < bKey <
  bodyCount`.
- `FrameDelay` models `delayTime` on a 32-bit unsigned newtype. It keeps the C
  wrap-around of `end - start`.

## Model

| member | source | states |
|---|---|---|
| PfAabb.TestAabbVsAabb | src/pf.c:3-9 | the C predicate, comparison for comparison: `a.min.x <= b.max.x`, `b.min.x < a.max.x` (the only strict one), `a.min.y <= b.max.y`, `b.min.y <= a.max.y`; what it means is stated by the lemmas below |
| PfAabb.TestIsSharedPoint | src/pf.c:3-9 | when `a` has positive width and `b` is well formed, the test holds exactly when some point lies in `a` minus its right edge and in the closed `b` |
| PfAabb.GapMeansNoOverlap | src/pf.c:3-9 | a strictly positive gap on either axis, on either side, makes the test false |
| PfAabb.SelfOverlap | tests/aabb_tests.c:3-10 | a box overlaps itself exactly when its width is positive and its height is non-negative |
| PfAabb.HorizontalEdgeTouch | tests/aabb_tests.c:26-94 | when `b` touches `a` above or below, the test holds exactly when the two x-conditions hold, so touching on y registers |
| PfAabb.LeftEdgeTouch | tests/aabb_tests.c:110-122 | when `b`'s right edge is `a`'s left edge, the test holds exactly when the y-ranges meet |
| PfAabb.RightEdgeTouch | tests/aabb_tests.c:152-164 | when `b`'s left edge is `a`'s right edge, the test is false |
| PfAabb.StrictOverlapSymmetric | src/pf.c:3-9 | when every comparison holds strictly, the test holds in both argument orders |
| PfAabb.SwapDisagreement | src/pf.c:3-9 | the two argument orders disagree exactly when the boxes meet with `a.min.x == b.max.x` |
| PfAabb.UnitTestsThatAgree | tests/aabb_tests.c:3-178 | the predicate gives the expected answer for the twelve box-versus-box tests other than border-right |
| PfAabb.BorderRightTestDisagrees | tests/aabb_tests.c:152-164 | on the border-right boxes the predicate is false, but the test expects true |
| PfAabb.BorderLeftOrderMatters | tests/aabb_tests.c:110-122 | the border-left boxes register in the unit test's argument order and not when swapped |
| Collisions.Pruned | demo/demo.c:201-210 | the two skip tests of the inner loop: both masses zero, or both velocities near zero by `mlNearZeroV2f` |
| Collisions.Scan | demo/demo.c:199-221 | the nested loops from position `(i, j)` on: stop when the room is used up, skip pruned pairs, append `(i, j)` and the manifold when the collision routine reports a contact |
| Collisions.Generate | demo/demo.c:198-222 | the manifolds one call of `generateCollisions` appends: the scan from `(0, 1)` with no records and the free slots as room |
| Collisions.ScanExtends | demo/demo.c:212-218 | the scan only appends to the records it starts from, and never grows them beyond the room left |
| Collisions.ScanRecordable | demo/demo.c:199-216 | every record the scan appends has keys `i < j < bodyCount` for a pair that is not pruned, with the manifold `pfSolveCollision` returned |
| Collisions.ScanSorted | demo/demo.c:199-216 | the appended records are in strictly increasing lexicographic key order, which is the loop order |
| Collisions.ScanComplete | demo/demo.c:199-218 | when capacity is not reached, every unpruned pair at or after the current position for which `pfSolveCollision` succeeds is recorded |
| Collisions.GenerateSound | demo/demo.c:198-222 | one generation pass appends at most `room` records; each is a real, unpruned contact and they are strictly ordered |
| Collisions.GenerateComplete | demo/demo.c:198-222 | when the pass ends below capacity, it recorded every contact pair |
| Collisions.ScanBounded | demo/demo.c:199-219 | a scan records at most one manifold per loop position it visits |
| Collisions.ScanPrefix | demo/demo.c:216-218 | with less room a scan records a prefix of what it records with more room, and the same list when it stops below the smaller room |
| Collisions.Contacts | demo/demo.c:198-222 | the list the pass records when capacity never runs out (room for one more manifold than there are loop positions); its meaning is `ContactsExactly` |
| Collisions.ContactsExactly | demo/demo.c:199-216 | without the capacity cut-off a pair is recorded exactly when it is a pair of live bodies that is not pruned and for which the collision routine reports a contact |
| Collisions.GenerateTruncates | demo/demo.c:216-218 | at capacity the pass keeps exactly the first `room` contacts in loop order: its records are the prefix of `Contacts` of length `min(room, |Contacts|)` |
| Collisions.ScanWithoutContacts | demo/demo.c:213 | when the collision routine reports no contact at all, the scan records nothing |
| Collisions.Generated | demo/demo.c:212-216 | the manifold slots after a generation pass: the live ones, then the generated ones, then the remaining slots as they were |
| Collisions.GeneratedKeys | demo/demo.c:214-215 | after generation every live manifold names two distinct live bodies, lower first, and slots that named bodies inside a bound still do |
| Collisions.IntegrateEach | demo/demo.c:224-227 | the bodies after a per-body routine is applied to the first `n` of them; the length is kept |
| Collisions.InitLive | demo/demo.c:229-236 | the manifold slots after the first `c` are re-initialised from their two bodies; the length and every slot's keys are kept |
| Collisions.ZeroForces | demo/demo.c:259-260 | the bodies after the first `n` forces are cleared; the length is kept |
| Collisions.ApplyPair | demo/demo.c:241-242 | one pair routine call: body `bKey` gets the second result, body `aKey` the first when the keys differ, and every other body is unchanged |
| Collisions.ApplyFirst | demo/demo.c:240-243 | one pass of a pair routine over the first `i` manifold slots, in index order; the number of bodies is kept |
| Collisions.Rounds | demo/demo.c:238-244 | `iterations` such passes over all of the given manifolds; the number of bodies is kept |
| Collisions.ApplyFirstFrame | demo/demo.c:240-243 | a pass leaves every body that none of the visited manifolds names as it was |
| Collisions.RoundsFrame | demo/demo.c:238-244 | any number of impulse passes leave every body that no live manifold names as it was |
| Collisions.ApplyFirstPrefix | demo/demo.c:252-255 | one pass over the first `i` slots depends only on those slots, whatever the later slots hold |
| Collisions.PassOverStaleSlots | demo/demo.c:252-255 | a correction pass over `n` slots of which only `c <= n` are live is the pass over the live manifolds followed by the stale slots `c, ..., n - 1` in order |
| Collisions.PassSkipsLiveSlots | demo/demo.c:252-255 | a correction pass over `n` slots when `c >= n` manifolds are live is the first `n` steps of the live pass: the live manifolds from `n` on are not corrected |
| Collisions.ScheduleAt | demo/demo.c:239-240 | in the nested iteration/manifold loops, visit `r * manifoldCount + c` handles slot `c` |
| Collisions.ApplyFirstIsRange | demo/demo.c:240-243 | one pass over the first `i` slots is the fold over the slot sequence `0, ..., i-1` |
| Collisions.RoundsFollowSchedule | demo/demo.c:238-244 | `iterations` passes equal the fold over the full schedule of visited slots |
| Collisions.ApplySlotsAppend | demo/demo.c:239-243 | folding over two slot sequences one after the other is folding over their concatenation |
| Collisions.VisitedVersusLive | demo/demo.c:252-253 | a loop over `visited` slots visits a slot that holds no live manifold exactly when `live <= k < visited`, and skips a live one exactly when `visited <= k < live` |
| FrameDelay.Frame | demo/demo.c:159 | the unsigned difference `end - start`: the number of ticks, modulo 2^32, that takes the counter from `start` to `end` |
| FrameDelay.DelayTime | demo/demo.c:156-161 | the delay is at most the goal; it is zero exactly when the elapsed frame (mod 2^32) already reaches the goal; otherwise frame plus delay equals the goal |
| FrameDelay.FrameLastsAtLeastGoal | demo/demo.c:156-161 | when the delay is waited out as well, the frame lasts at least the goal |
| FrameDelay.FrameRecoversElapsed | demo/demo.c:159 | the wrapped difference `end - start` recovers the elapsed ticks, including across a 32-bit tick overflow |
| WorldState.GridIndexBijection | demo/demo.c:88-90 | `i * 50 + j + 1` maps the 50x50 grid one-to-one onto slots 1..2500, and row/column invert it |
| WorldState.GridIndexInverse | demo/demo.c:90 | row and column of a grid cell's slot give back the cell |
| WorldState.CannonBall | demo/demo.c:80-84 | body 0: the default body with a circle of radius 1.5 at (-200, 35) moving at (200, 0), then made metal |
| WorldState.GridBody | demo/demo.c:90-93 | the body for grid cell `(i, j)`: the slot's previous contents with a unit box (even `i + j`) or unit circle at `(i + 6, j + 5)`, then made rock |
| WorldState.Prepared | demo/demo.c:189-191 | the bodies and slots after generation, force integration and manifold initialisation; every live manifold then names two distinct live bodies, lower first, and the first `bodyCount` slots still name bodies inside the array if they did before |
| WorldState.Finish | demo/demo.c:192-195 | the bodies after the impulse passes, velocity integration, one correction pass and the force reset; the slots are unchanged and every live body ends without force |
| WorldState.Step | demo/demo.c:188-196 | the bodies and manifold slots after one `stepWorld`, `Finish` after `Prepared`; every live body ends without force, and with the as-written correction bound the slots it reads still name bodies inside the array |
| WorldState.StepVariantsAgree | demo/demo.c:252 | the step as written and the intended step agree whenever generation leaves exactly as many live manifolds as there are live bodies |
| WorldState.ThreeContacts | demo/demo.c:198-222 | three moving bodies with mass, all touching: one pass from an empty list records (0, 1), (0, 2) and (1, 2) in slots 0, 1 and 2 |
| WorldState.StaleContactsCorrectedAsWritten | demo/demo.c:251-256 | the step after that, with no contact: the step as written moves body 0 two units through the stale slots, while the intended step only clears its force |
| WorldState.PushedTwice | demo/demo.c:252-255 | the correction pass over the three stale slots pushes body 0 once for each of slots 0 and 1 |
| WorldState.World.MkWorld | demo/demo.c:70-97 | the new world is valid, has 2501 bodies and no manifolds, `dt = 1/60`, zero gravity and 10 iterations; the cannon ball is in slot 0, grid cell `(i, j)` built on the slot's previous contents in slot `i * 50 + j + 1`, and every other slot keeps its previous contents |
| WorldState.World.AddGrid | demo/demo.c:88-96 | fills slots 1..2500 with the alternating box/circle rock grid, each built on what its slot held, leaves the other slots alone and sets `bodyCount` to 2501 |
| WorldState.World.GenerateCollisions | demo/demo.c:198-222 | keeps `Valid()` and the earlier records; the new records are exactly `Generate` of the bodies with the room left, and the slots after them are unchanged |
| WorldState.World.RecordedKeysOrdered | demo/demo.c:212-216 | appending a generation pass's records to live manifolds with keys `0 <= aKey < bKey < bodyCount` keeps the world valid |
| WorldState.World.IntegrateForces | demo/demo.c:224-227 | each live body becomes `pfIntegrateForce(dt, gravity, body)`, and the slots after them are unchanged: the bodies are `IntegrateEach` of the old ones |
| WorldState.World.InitializeCollisions | demo/demo.c:229-236 | each live manifold is re-initialised from its two bodies, keeping its keys; the other slots and the bodies are unchanged: the slots are `InitLive` of the old ones |
| WorldState.World.ApplyPairAt | demo/demo.c:241-242 | one routine call updates exactly the two bodies a manifold names |
| WorldState.World.ApplyToSlots | demo/demo.c:240-243 | a pass over the first `count` slots leaves the bodies equal to `ApplyFirst` of that prefix |
| WorldState.World.SolveCollisions | demo/demo.c:238-244 | the bodies become `Rounds` of the impulse routine over the live manifolds, `iterations` times (none when `iterations <= 0`) |
| WorldState.World.IntegrateVelocities | demo/demo.c:246-249 | each live body becomes `pfIntegrateVelocity(dt, gravity, body)`, and the slots after them are unchanged: the bodies are `IntegrateEach` of the old ones |
| WorldState.World.CorrectPositionsAsWritten | demo/demo.c:251-256 | the bodies become one correction pass over slots `0 .. bodyCount-1` of the manifold array, live or not |
| WorldState.World.CorrectPositions | demo/demo.c:251-256 | the bodies become one correction pass over the live manifolds only |
| WorldState.World.ResetCollisions | demo/demo.c:258-262 | every live body's force becomes zero, every other field and slot is unchanged, and `manifoldCount` becomes 0 |
| WorldState.World.PrepareContacts | demo/demo.c:189-191 | the first three phases: the count grows by the generated manifolds, and the new bodies and slots are `Prepared` of the old ones |
| WorldState.World.CompleteStep | demo/demo.c:192-195 | the last four phases as written, correcting over `bodyCount` slots: the new bodies are `Finish` of the old ones with the as-written bound, the slots are untouched and no manifold is live |
| WorldState.World.CompleteStepIntended | demo/demo.c:192-195 | the same phases with the correction pass over the live manifolds: the new bodies are `Finish` with the live-only bound |
| WorldState.World.StepWorld | demo/demo.c:188-196 | the step as written, with `correctPositions` over `bodyCount` slots: the new bodies and slots are `Step` of the old ones with the as-written bound, the world stays valid, no manifold is live, and the slots the next correction pass reads still name bodies inside the array |
| WorldState.World.StepWorldIntended | demo/demo.c:188-196 | the same step with the correction pass over the live manifolds: the new state is `Step` with the live-only bound |

## Left out

- Rendering, textures, SDL set-up, input polling, `main`, `mkDemo`, `brDemo` and `loopDemo` are not modelled. They are I/O. `SDL_GetTicks` and `SDL_Delay` become the `start`/`end` parameters of `DelayTime` and its result.
- The `printf` frame-rate and position output is not modelled.
- The library routines the demo calls (`pfSolveCollision`, `pfManifoldInitialize`, `pfManifoldApplyImpulse`, `pfPositionalCorrection`, `pfIntegrateForce`, `pfIntegrateVelocity`, `mlNearZeroV2f`) and the presets (`pfBody`, `pfCircle`, `pfBox`, `pfRockEsque`, `pfMetalEsque`) are arbitrary functions supplied as parameters. Their bodies are not part of this model.
- The point-versus-box and circle tests, the polygon tests, and the test runner `tests/main.c` are not part of this model.
- `float` arithmetic is modelled by `real`. Rounding is not captured, including the rounding of `dt = 1.0 / 60.0`. Nor are NaN and infinity: a NaN coordinate makes every C comparison false, so `pf_test_aabb_vs_aabb` returns false on it, and `real` has no such value.
- `pfSolveCollision` is handed `&km->manifold` of the next free slot (demo/demo.c:212-213); its body is not part of this model, and its declaration (include/PF/pf.h:58) does not say what it writes. The engine types it as a function of the two bodies alone that returns an optional manifold. That assumes two things the C leaves open: on a reported contact the new manifold does not depend on what the slot held (a routine that fills only some fields and leaves the rest to `pfManifoldInitialize` is not covered), and on no contact the slot is left as it was. The routine never writes the slot's keys, so only the manifold part is at stake. The second assumption is visible in the as-written step: whenever fewer manifolds than bodies are live after generation, the correction pass of `CorrectPositionsAsWritten`, `CompleteStep` and `StepWorld` reads slot `manifoldCount`, which a C routine may have overwritten on its last failed call; the model hands the pass that slot's earlier contents. The "later slots are unchanged" clause of `GenerateCollisions` rests on the same assumption.
- A body or manifold slot that was never written holds uninitialised memory in C. The model gives every slot its own caller-chosen previous contents (`blanks`, `blankSlots`). In C the grid bodies are not reset with `pfBody()` before their shape and position are set, so their other fields are those previous contents.
- CorrectPositionsAsWritten: requires that the slots it visits name bodies within the array, because a never-written slot in C can index outside it; a C routine given the same body twice, through aliased pointers, is modelled as two successive writes of its two results.
- GenerateCollisions: requires `manifoldCount < MAX_MANIFOLDS` on entry. At capacity the C writes past the array and its `== MAX_MANIFOLDS` stop test never fires.
- StepWorld: requires, and ensures again, that the slots its correction pass reads name bodies within the array, for the reason given for `CorrectPositionsAsWritten`.
- StaleContactsCorrectedAsWritten: the two steps use two engines, one reporting every pair and one reporting none, standing for one collision routine's answers before and after the bodies move apart.
- The 32-bit `int` counters of the C never overflow, because they stay below the capacities, so they are unbounded integers in the model.

## Findings

| source | as written | input that shows it | evidently intended | confidence | as-written member | corrected member |
|---|---|---|---|---|---|---|
| demo/demo.c:252-253 | `correctPositions` loops `i` from 0 to `bodyCount` over `w->manifolds` | three bodies that all touch in one step, so slots 0, 1 and 2 hold (0, 1), (0, 2) and (1, 2) (`ThreeContacts`), and none in the next: that step as written moves body 0 through the stale slots, while the intended step does not (`StaleContactsCorrectedAsWritten`, on `StepWorld` and `StepWorldIntended`). Generally the pass as written is the pass over the live manifolds followed by the stale slots `manifoldCount, ..., bodyCount - 1` (`Collisions.PassOverStaleSlots`), and when more manifolds than bodies are live it stops after the first `bodyCount` of them (`Collisions.PassSkipsLiveSlots`); `Collisions.VisitedVersusLive` names the indices on which the two bounds differ | loop to `manifoldCount`, like `initializeCollisions` and `solveCollisions` | high; not executed | WorldState.World.CorrectPositionsAsWritten | WorldState.World.CorrectPositions |

The border-right unit test (tests/aabb_tests.c:152-164) expects boxes that
touch at `a`'s right edge to overlap. The code returns false on that input
(`PfAabb.BorderRightTestDisagrees`, `PfAabb.RightEdgeTouch`). The header
comment on `pf_test_aabb_vs_aabb` says touching borders should not register.
The code satisfies that only on the right edge, because the other three
border tests expect overlap and get it. The sources disagree on which
behaviour is intended, so the model keeps the code as written and records the
disagreement as lemmas rather than as a finding.
