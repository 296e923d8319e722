# Fence game and slideshow: a verified model

This project models two parts of the site. The first is the browser game in `fence/game.js`: the player launches a ball from (0, 0) on a 30 by 20 world grid. The ball must pass through the gap in a fence at x = 20 and hit the target at (30, 0). The second is the navigation logic of the image slideshow in `script.js`.

Six modules:

- `World` (world.dfy): vectors, fence segments, the start point, the target, the fence with its gap between heights 13 and 16, and the closed world rectangle.
- `Collision` (collision.dfy): the four collision tests. The fence test is both a reference predicate (`HitsFence`, an existential over the segments) and the game's early-return scan (`CheckFenceCollision`), and the two are proved equivalent.
- `Physics` (physics.dfy): the integrator shared by the game tick and the trajectory preview. The position moves with the velocity from before the step, then gravity (-1) is applied to the vertical velocity. `Fly` iterates it, and `FlyClosedForm` gives its closed form, whose vertical term is n(n-1)/2 rather than n²/2.
- `Simulation` (simulation.dfy): the state machine with statuses Ready, Playing, Won and Lost. It has specification functions for one frame (`TickState`), launch (`Launched`) and reset (`ResetState`), plus lemmas about them. The class `Game` holds the fields the page mutates in place (`status`, `pos`, `vel`, `time`, `trail`), and its methods are proved against those functions. The invariant `Consistent` keeps the trail at or below 50 entries. It also keeps the stored position and every trail point inside the world and off the fence, and a Ready game at the start with an empty trail.
- `Render` (render.dfy): the arithmetic of drawing. It covers the cell size, the world-to-pixel mapping and its inverse, where the ball is drawn, the trail polyline and the trajectory preview loop.
- `Slideshow` (slideshow.dfy): a `Viewer` class with the current index and the two button flags. The slide list appears only as its length.

Coordinates are exact reals (`real`), not IEEE doubles. The cosine and sine of the launch angle are parameters. The trail sampler's test `gameTime % 0.1 < 0.025` is a boolean parameter `sample` of each frame.

On three points a reader might expect otherwise, the model follows the code:
- Reset leaves the velocity and the clock as they were; it does not zero the velocity.
- Launch starts a new shot from Won and Lost as well as from Ready. Only a shot in flight ignores it.
- The renderer flips y about 20 cells (`20 * gridSize`) everywhere except in the trajectory preview, which flips about the canvas height. See Findings.

## Model

| member | source | states |
|---|---|---|
| `Collision.CheckFenceCollision` | fence/game.js:126-136 | The scan returns true exactly when the point lies in the band 19.5 ≤ x ≤ 20.5 and some segment covers its height, endpoints included (the reference `HitsFence`). |
| `Collision.ReferenceFence` | fence/game.js:40-43 | With the game's own fence, a hit means in the band and at a height in [0, 13] or [16, 20]; the window (13, 16) is open. |
| `Collision.FenceScenarios` | fence/game.js:126-136 | (20, 14), in the gap, is not a fence hit; (20, 10) is. |
| `Collision.HitsGround` | fence/game.js:149-151 | Definition: a ground hit is y ≤ 0.1, with no test on x. |
| `Collision.GroundBand` | fence/game.js:149-151 | In the world, a ground hit means 0 ≤ y ≤ 0.1. If it is also in the target box it lies in (29.5, 30] × [0, 0.1]. Otherwise it has x ≤ 29.5. |
| `Collision.IsOutOfBounds` | fence/game.js:139-141 | Out of bounds exactly when the point is not in the closed rectangle [0, 30] x [0, 20], so the edges count as inside. |
| `Collision.HitsTarget` | fence/game.js:144-146 | The absolute-value test is the open box (29.5, 30.5) x (-0.5, 0.5) around the target. |
| `Collision.EdgeScenarios` | fence/game.js:139-151 | (0, 5) is in bounds and (-0.1, 5) is out; (30, 0) hits the target and (30.6, 0) does not; the ground test includes y = 0.1. |
| `Collision.TargetBoxInWorld` | fence/game.js:144-146 | An in-world target hit is never a fence hit and lies in (29.5, 30] x [0, 0.5). |
| `Physics.Step` | fence/game.js:161-167 | Definition of one integrator step of length d: the position advances by vel·d with the old velocity, then vy gains -1·d and vx is kept. |
| `Physics.Fly` | fence/game.js:324-327 | Definition: n integrator steps of length d, applied one after another. |
| `Physics.FlyFront` | fence/game.js:161-167 | One step followed by n steps is the same as n + 1 steps, so frame-by-frame iteration agrees with the step count. |
| `Physics.TriangleFormula` | fence/game.js:161-167 | The accumulated gravity lag after n steps is n(n-1)/2 step lengths. |
| `Physics.FlyClosedForm` | fence/game.js:161-167 | After n steps of length d, vx is unchanged and vy has gained -d·n. x has advanced n·d·vx, and y has advanced n·d·vy - d²·n(n-1)/2. |
| `Simulation.Classify` | fence/game.js:187-217 | The first matching test decides, in the order fence, out of bounds, ground without target, target. Each outcome is characterized: e.g. a win means clear of the fence, in the world and in the target box, and a continuing frame means none of the four tests fires. |
| `Simulation.PushTrail` | fence/game.js:170-178 | The new trail is a suffix of the old trail plus p, ending in p and one longer up to the limit. A trail of at most 50 stays at most 50: the oldest entry is evicted first. |
| `Simulation.TickState` | fence/game.js:154-228 | Definition of one frame: nothing unless Playing. Otherwise the clock gains 0.025, the velocity takes one gravity step and the trail takes a sampled push of the old position. The status is the verdict of the candidate, and the position becomes the candidate only on Continue. |
| `Simulation.TickFinalPos` | fence/game.js:187-217 | Definition: the candidate on a frame in flight whose candidate ends the shot, the position passed as `drawGame(newPos)`; None otherwise. |
| `Simulation.Launched` | fence/game.js:73-103 | Definition: the same state while Playing. Otherwise Playing at (0, 0), with velocity (power·c, power·s), time 0 and an empty trail. |
| `Simulation.ResetState` | fence/game.js:106-123 | Definition: Ready at (0, 0) with an empty trail, keeping the old velocity and time. |
| `Simulation.TickIdle` | fence/game.js:155 | A frame when the shot is not in flight changes nothing. |
| `Simulation.TickKinematics` | fence/game.js:158-167 | The clock gains exactly 0.025 and vx is kept. vy loses exactly 0.025. The candidate is pos + vel·0.025 with the pre-gravity velocity, and the stored position becomes the candidate or stays. |
| `Simulation.TickTrail` | fence/game.js:170-178 | When sampled, the trail receives the pre-frame position, not the candidate; otherwise the trail is untouched. |
| `Simulation.TickOutcome` | fence/game.js:187-221 | Play continues exactly when the candidate classifies as Continue. A terminal frame keeps the pre-frame position in the state and hands the candidate to the renderer. A win had its candidate in the world, clear of the fence, in the target box, hence in (29.5, 30] x [0, 0.5). |
| `Simulation.TickConsistent` | fence/game.js:154-228 | A frame preserves `Consistent`. The trail stays at or below 50 entries. Stored and recorded positions stay inside the world and off the fence. |
| `Simulation.LaunchConsistent` | fence/game.js:73-103 | Launch preserves `Consistent`. From Ready, Won or Lost it gives Playing at (0, 0) with velocity (power·c, power·s), time 0 and an empty trail. While Playing it leaves the state unchanged. |
| `Simulation.ResetConsistent` | fence/game.js:106-123 | Reset from any status gives a consistent Ready state at (0, 0) with an empty trail. Velocity and time are the old ones. |
| `Simulation.RunTerminal` | fence/game.js:155 | Won and Lost are final under any number of frames. |
| `Simulation.RunConsistent` | fence/game.js:154-228 | Any sequence of frames preserves `Consistent`, so the 50-entry bound holds forever. |
| `Simulation.RunInFlight` | fence/game.js:154-228 | A shot still in flight after n frames has exactly the motion of n integrator steps of 0.025. Its clock has advanced by n·0.025. |
| `Simulation.FlyFromStart` | fence/game.js:161-167 | From the start point, n steps of 0.025 put the ball at (n·0.025·vx, n·0.025·vy - 0.025²·n(n-1)/2). |
| `Simulation.LaunchTrajectory` | fence/game.js:73-228 | After a launch with power p, a ball still in flight after n frames is at that closed-form point for velocity (p·c, p·s). |
| `Simulation.Game.constructor` | fence/game.js:25-35 | The page starts Ready at (0, 0) with zero velocity, time 0 and no trail, a consistent state. |
| `Simulation.Game.Launch` | fence/game.js:73-103 | The fields become `Launched` of the old state, and the invariant is kept. |
| `Simulation.Game.Reset` | fence/game.js:106-123 | The fields become `ResetState` of the old state, and the invariant is kept. |
| `Simulation.Game.Tick` | fence/game.js:154-228 | The fields become `TickState` of the old state, using the scan for the fence test and in-place push/shift of the trail. The returned final position is the candidate exactly on the frame that ends the shot. |
| `Render.GridSize` | fence/game.js:235 | The cell size is at most w/30 and at most h/20, and equals one of them (the minimum). |
| `Render.ToPixel` | fence/game.js:291-292 | Definition of the world-to-pixel mapping: (x·g, 20·g - y·g). |
| `Render.PixelRoundTrip` | fence/game.js:291-292 | For a positive cell size, the world-to-pixel mapping is inverted by `FromPixel`. |
| `Render.PixelInCanvas` | fence/game.js:289-294 | Every point of the world maps into [0, w] x [0, h]. |
| `Render.PixelOrder` | fence/game.js:374-375 | On a canvas of positive size, pixel x increases with world x and pixel y strictly decreases as world y increases. |
| `Render.DisplayPos` | fence/game.js:370 | Definition: the final position when one is given, else the stored position. |
| `Render.FrameShowsCandidate` | fence/game.js:370-375 | The ball is drawn at the final position when one is given, else at the stored one. So every frame of a shot draws the ball at that frame's candidate, even the terminal frame, whose stored position stays stale. |
| `Render.TrailPolyline` | fence/game.js:345-367 | The polyline is empty in Ready or with an empty trail. Otherwise it is the trail's points in pixels, in order, followed by the displayed ball position. |
| `Render.DrawsPreview` | fence/game.js:309 | Definition of the as-written preview condition: the status is Won or Lost and no final position is given. |
| `Render.PreviewNeverDrawn` | fence/game.js:309 | As written, no tick frame draws the preview, and neither does any Ready redraw. |
| `Render.PreviewShownWhenShotEnds` | fence/game.js:309 | With the condition corrected to "the shot is over", the frame that ends a shot shows the preview. |
| `Render.PreviewPixelAsWritten` | fence/game.js:322-339 | Definition of the preview's own mapping as written: (x·g, h - y·g). |
| `Render.PreviewOffsetAsWritten` | fence/game.js:322-339 | As written, preview points sit h - 20·gridSize pixels below where the same world point is drawn elsewhere. That offset is positive when w/30 < h/20. |
| `Render.PreviewMisplacedOnSquareCanvas` | fence/game.js:322 | On a 300 by 300 canvas, the ball's start is drawn at pixel y 200 but the preview's start at y 300. |
| `Render.PreviewPolyline` | fence/game.js:314-340 | The preview integrates 100 steps of length time/100 from the start with the current launch velocity. It starts at the start point's pixel, and each later point is the i-th step's position, inside the world. It stops just before the first step that leaves the world. |
| `Slideshow.Navigate` | script.js:168-175 | An index on the list stays on the list. An in-range target index is taken exactly, and an out-of-range one leaves the index unchanged. |
| `Slideshow.ButtonFlags` | script.js:160-161 | Definition: "previous" is disabled iff the index is 0, and "next" iff it is count - 1. |
| `Slideshow.FlagsMatchNavigation` | script.js:160-161 | "Previous" is disabled iff the index is 0, "next" iff it is the last index. Each is disabled exactly when its move would leave the index unchanged. |
| `Slideshow.Viewer.constructor` | script.js:124-128 | The viewer opens on slide 0 with the buttons set for it. |
| `Slideshow.Viewer.ShowSlide` | script.js:159-161 | The button flags are set from the index. |
| `Slideshow.Viewer.ChangeSlide` | script.js:168-175 | The new index is `Navigate` of the old one. The index stays in range and the buttons keep matching it. |

## Findings

| source | as written | input that shows it | evidently intended | confidence | as-written member | corrected member |
|---|---|---|---|---|---|---|
| fence/game.js:309 | The preview is drawn only when the status is won or lost and no final position is passed. The frame that ends a shot passes one, and the later redraws (sliders, resize, reset) happen only in Ready. | Any shot, e.g. angle 45 and power 10: the frame that ends it skips the preview, and no later frame draws it. | Show the trajectory preview once the shot is over. | medium; not executed | `Render.PreviewNeverDrawn` (over `Render.DrawsPreview`) | `Render.PreviewShownWhenShotEnds` (over `Render.ShowsPreview`) |
| fence/game.js:322-339 | Preview points map y as `canvasHeight - y * gridSize`, while the fence, trail and ball use `20 * gridSize - y * gridSize`. | A 300 by 300 canvas: cell size 10; the start is drawn at y 200, the preview's start at y 300. | The same mapping everywhere. | medium; not executed; depends on the page's canvas size, which is not part of this model | `Render.PreviewOffsetAsWritten`, `Render.PreviewMisplacedOnSquareCanvas` (over `Render.PreviewPixelAsWritten`) | `Render.PreviewPolyline` (maps with `Render.ToPixel`) |

## Left out

- DOM wiring is not modelled: element lookups, slider, button and resize listeners, message text, the ball-info display with `toFixed`, and the Go button's disabled flag. It is page glue with no logic beyond what the model states. The current angle and power are parameters.
- Animation scheduling (`requestAnimationFrame`, `cancelAnimationFrame`) is not modelled. A frame is a plain call to `Game.Tick`, and a reset cannot race with a pending frame in the model.
- `Math.cos`, `Math.sin` and IEEE rounding are not modelled. The cosine and sine are parameters, and all arithmetic is exact.
- The trail sampler `gameTime % 0.1 < 0.025` depends on floating-point rounding. It is the `sample` argument of each frame, so which frames sample is not modelled.
- Canvas drawing calls, colours, grid lines, axis labels, the target and fence markers, and the Ready-state velocity arrow with its arrowhead geometry are not modelled. They are foreign drawing calls; the fence and target markers use the same `ToPixel` mapping.
- The slideshow's image `src` and caption assignment, the image error handler with its alert and console output, the keyboard listener and the literal slide data are not modelled. They are page I/O; only the number of slides matters.
