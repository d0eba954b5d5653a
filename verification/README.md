# gravitysim: a verified model of the N-body stepping kernel

gravitysim is a small Kivy application. It simulates the Sun and the inner
planets as point masses in a plane and draws each body with a trail behind it.
This project models the computational part of `app.py` in Dafny and proves
properties of it. The model has four parts:

- **Trails** (`trails.dfy`). `Trail.set_pos` keeps a body's recent positions, oldest
  first.
  - A new position is appended while the trail has fewer than two points.
  - It overwrites the last point when it lies within 1% of the world width
    (5e8 km) of the second-to-last point. Otherwise it is appended.
  - When the trail grows past 100 points, the oldest point is dropped.
- **Bodies** (`bodies.dfy`). A `Body` holds a position, a velocity, a constant
  mass and radius, and the force last assigned to it.
  - `set_force` stores a force.
  - `update_state` takes one explicit first-order Euler step. Acceleration is
    force over mass, and the position moves with the velocity from before the
    step.
- **Forces** (`forces.dfy`). `calculate_forces` gives every body a zero
  accumulator in a dictionary keyed by body.
  - Nested loops visit every pair `i1 < i2` once, in lexicographic order. The
    pair force goes into `obj1`'s accumulator and its negation into `obj2`'s.
  - Each accumulator is then set as its body's force.
- **Simulation** (`simulation.dfy`). Each graphics frame, `MainWidget.on_update`
  runs 100 steps of 100 seconds each. Each step advances the clock, solves the
  forces, and then integrates every body in list order.

Vectors are pairs of exact reals (`vectors.dfy`).

The gravitational pair force is `G·m1·m2/d²` along the direction from the first
body to the second. Here it is the separation `pos2 - pos1` scaled by a scalar
`law(pos1, m1, pos2, m2)`. `law` is a parameter of type `Coupling`, which stands
for `G·m1·m2/d³`. Every property proved holds for any such scalar law, so no
square root or trigonometry is needed.

Each stateful operation is a method on a class, or on a sequence of `Body`
objects. Its `ensures` ties the new state to a specification function on values:

| method | specification function |
|---|---|
| `Trail.SetPos` | `Recorded` |
| `Body.UpdateState` | `Integrate` |
| `CalculateForces` | `Solve` / `NetForces` |
| `MainWidget.OnUpdate` | `Run` |

The lemmas prove what the source promises about those functions.

## Model

| member | source | states |
|---|---|---|
| Trails.Recorded | app.py:216-233 | The recorded position is always the newest point. The trail grows by at most one point and never past 100 points when it started within the cap. No point appears that was neither stored nor recorded. |
| Trails.RecordedCases | app.py:220-233 | Three cases, each keeping all other points in order. With fewer than two points, the position is appended. When it is closer than 1% of the world width to the second-to-last point, the last point is overwritten. Otherwise it is appended, and when that exceeds 100 points exactly the oldest point is dropped. |
| Trails.Trail.SetPos | app.py:216-233 | Updates the point list in place (append, overwrite of the last index, slice that drops the first point). The new list equals `Recorded` of the old list, and the 100-point cap is preserved. |
| Trails.Trail.constructor | app.py:205-209 | A new trail has no points. |
| Trails.TraceBounds | app.py:216-233 | Any sequence of `set_pos` calls from an empty trail leaves at most 100 points and at least min(calls, 2). The last point is the last position recorded, and every point is one of the recorded positions. |
| Trails.SpacedTraceKeepsLatest | app.py:224-233 | If every position lies at least 1% of the world width from the one recorded two calls earlier, the trail is exactly the last 100 (or fewer) positions recorded, in order. |
| Trails.TraceAppendFar | app.py:228-233 | A position far from the second-to-last point extends a trail of the latest positions to the latest positions including it. |
| Trails.CloseNeighboursSurvive | app.py:220-225 | Recording (0,0), (0,0) and (5e8,0) leaves three points whose first two coincide. The spacing test only ever looks at the second-to-last point, and the first two positions are appended unconditionally, so stored neighbours can be closer than the spacing. |
| Bodies.Integrate | app.py:184-190 | Euler step. The displacement is `dt` times the old velocity. `mass·(v' − v) = dt·force`. Mass, radius and force are unchanged, and momentum grows by `dt·force`. |
| Bodies.Body.constructor | app.py:159-169 | A body starts with the given position, velocity, mass and radius, and a zero force. |
| Bodies.Body.SetForce | app.py:180-182 | Only the force field changes, and it becomes `f`. |
| Bodies.Body.UpdateState | app.py:184-190 | The body's new state is `Integrate(old state, dt)`. |
| Forces.AllPairsOnce | app.py:76-77 | The nested loops visit exactly the pairs `i < j < n`, and no pair twice. |
| Forces.RowPairs | app.py:77 | The inner loop of round `i` visits the pairs `(i, j)` with `i < j < n`, in ascending order. |
| Forces.RowsPairs | app.py:76-77 | The first `r` rounds visit the pairs `(i, j)` with `i < r`, `i < j < n`, in ascending order. |
| Forces.Accumulate | app.py:72-96 | Processing the visited pairs in order, starting from zero accumulators, gives one accumulator per body. |
| Forces.AccumulateStep | app.py:95-96 | Processing one more pair adds its force to the first accumulator and its negation to the second. |
| Forces.VisitNext | app.py:77-96 | One inner-loop iteration processes the pair `(i1, i2)`. |
| Forces.VisitRound | app.py:76-77 | A finished inner loop completes round `i1`, and the last round completes all pairs. |
| Forces.Partial | app.py:76-96 | The loop's view of the accumulators, one per body. |
| Forces.PartialIsAccumulate | app.py:76-96 | The loop's view equals processing the visited pairs in order. |
| Forces.PartialIsNet | app.py:76-96 | After the last round, the loop's view is the net force on every body. |
| Forces.AccumulateBalanced | app.py:95-96 | Each processed pair adds a force and its exact negation, so the accumulators always sum to the zero vector. |
| Forces.NetForces | app.py:67-96 | One net force per body. |
| Forces.Solve | app.py:98-100 | Each body keeps its position, velocity, mass and radius, and gets its net force. |
| Forces.SolveBalanced | app.py:76-100 | Newton's third law over the system: the assigned forces sum to the zero vector. |
| Forces.FewBodiesNoForce | app.py:72-76 | With 0 or 1 bodies no pair is visited, and every force is zero. |
| Forces.TwoBodiesOpposite | app.py:82-96 | Two bodies receive exactly opposite forces, each being the pull of the other. |
| Forces.DistinctPositionsDistinct | app.py:72-96 | Bodies at distinct positions are distinct dictionary keys. |
| Forces.TracksExchange | app.py:95-96 | The two dictionary updates change exactly the two bodies' accumulators. |
| Forces.ZeroForces | app.py:72 | The dictionary comprehension maps every body to the zero vector. |
| Forces.AccumulateRow | app.py:77-96 | One inner-loop round: the dictionary moves from the loop's view before round `i1` to the view after it. |
| Forces.AccumulateForces | app.py:72-96 | After the nested loops, the dictionary maps every body to its net force. |
| Forces.CalculateForces | app.py:67-100 | The bodies' new states are `Solve` of their old states: every force is the net pair force, and nothing else changes. |
| Simulation.IntegrateAll | app.py:146-147 | Integrating every body keeps the count of bodies and their positive masses. |
| Simulation.Step | app.py:144-147 | A solve-then-integrate step keeps the count of bodies, their masses and their radii. |
| Simulation.Run | app.py:141-147 | Any number of steps keeps the count of bodies, their masses and their radii. |
| Simulation.IntegrateAllMomentum | app.py:184-190 | Integration changes the total momentum by `dt` times the total force. |
| Simulation.SolveKeepsMomenta | app.py:98-100 | A force solve leaves every momentum unchanged. |
| Simulation.StepPreservesMomentum | app.py:141-147 | One solve-then-integrate step preserves the total momentum Σ mass·vel. |
| Simulation.RunPreservesMomentum | app.py:141-147 | Any number of steps preserves the total momentum. |
| Simulation.LoneBodyDrifts | app.py:184-190 | A single body feels no force. It moves by `dt·vel`, and its velocity is unchanged. |
| Simulation.UpdateStates | app.py:146-147 | Each body's state becomes `Integrate` of its old state, in list order. |
| Simulation.StepBodies | app.py:144-147 | The bodies' new states are `Step` of their old states. |
| Simulation.MainWidget.constructor | app.py:114-118 | The clock starts at 0 and holds the given bodies. |
| Simulation.MainWidget.OnUpdate | app.py:138-147 | The clock advances by exactly `STEPS_PER_RENDER · DELTA_T` = 10000 s. The bodies' new states are `Run` of their old states over 100 steps. Total momentum is preserved. |

## Left out

- Kivy user interface and rendering are not modelled, because they are presentation and I/O against a library outside this model. This covers:
  - the widget setup, `Label` text and `Clock.schedule_interval`;
  - `Body.update_graphics`, `Trail.update_graphics` and `MainApp`;
  - colours and `Ellipse`/`Line` objects;
  - `pos_to_screen` and `scalar_to_screen`.
- `Trail.SetPos` is modelled standalone. In the source, `Body.update_graphics` calls it once per frame with the body's position. That call belongs to the rendering path, and a `Trail` is not a field of `Body` here.
- Floating point is not modelled: numbers are exact reals. `np.linalg.norm`, `atan2`, `sin`, `cos` and `dist**2` are replaced as follows:
  - the pair force is the separation scaled by the abstract `Coupling` law;
  - the trail's distance test compares squared length with the squared threshold, which is equivalent over the reals.
  - No claim is made about orbit accuracy or energy drift.
- Forces.CalculateForces: requires that no two bodies share a position. The source divides by their distance (app.py:86) and does not guard against it. The same requirement also makes the bodies distinct dictionary keys.
- Simulation.MainWidget.OnUpdate: requires bodies to stay apart at every one of the 100 steps, for the same reason.
- Bodies.Body.constructor: requires a positive mass, because `update_state` divides by it. The source does not check this.
- Simulation.MainWidget.constructor: takes the bodies and the force law as parameters. The source's planetary constants and initial solar-system configuration (app.py:21-53, 118-132) are data, not logic.
- The stepping loop of `on_update` passes its work to `StepBodies` and `UpdateStates`, and the nested loops of `calculate_forces` are split into `AccumulateForces` and `AccumulateRow`. These are the same loops in the same order, cut at loop boundaries.
- The frame delta argument of `on_update` is ignored, as in the source, which overwrites it with `DELTA_T`.
