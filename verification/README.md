# Silly cat game — a Dafny model of the game session

The game puts ten "cats" on a canvas. Each cat is an orange 100×60 body with an
eye marker on its left or right half. The cats drift and push each other apart.
After three seconds every body turns black and every cat gets a newly drawn eye
side. After five seconds the cats freeze and clicks start to count. A click
inside a body scores one point if it lands on the half *without* the eyes.
Every click shows a green or red flash, and every click uses up one of the
player's ten clicks. When no clicks are left, the game is over.

This project models the session state machine of `main.js`. It treats the
click handler, the per-frame update, the colour-change event and the stop event
as pure functions on an immutable `Session`, and proves what they guarantee.

- `Cats` (`cats.dfy`): the cat record, the eye-offset formula, the inclusive
  body rectangle, the clicked side (the centre line counts as right) and the
  scoring rule.
- `Flash` (`flash.dfy`): the feedback flash. It lasts 300 ms and loses 16 ms
  per frame.
- `Scoring` (`scoring.dfy`): the pass over every cat in array order that
  resolves one accepted click.
- `Motion` (`motion.dfy`): one frame for one moving cat. This covers
  repulsion impulses clamped to ±3, integration, 0.98 friction, wall bounce,
  position clamp and the eye following the body.
- `Game` (`game.dfy`): the session and its four transitions, `Click`, `Tick`,
  `ColorChange` and `Stop`, plus runs of events.
- `GameProperties` (`properties.dfy`): invariants and facts about whole runs.
- `Scenarios` (`scenarios.dfy`): worked clicks on one-cat and two-cat sessions.

Coordinates and velocities are `real`. Counters are `int`. The canvas size is
a `nat`. The random draws of the game are inputs: new eye sides and initial
velocities. So are the distance-based repulsion pushes.

Two details of the per-frame update that the model keeps:

- The eye marker is re-placed only inside the moving branch
  (`main.js:361-363`). It still always sits at body + offset, because a
  frozen body does not move and the colour change re-places the eye itself
  (`main.js:73-74`; `Game.CatValid`, `GameProperties.RunPreservesValid`).
- The flash decays on every frame, moving or not (`main.js:283-289`). A spent
  flash keeps its negative remainder, for example -4 after 19 frames from 300.
  It is never reset to 0.

## Model

| member | source | states |
|---|---|---|
| Cats.NewCat | main.js:143-195 | A new cat is an orange 100×60 body at the given point. Its eye sits 25 px towards the chosen side and 15 px above the centre, so the eye lies left of the centre exactly when the side is left. |
| Cats.ScoringHalfIsAwayFromEye | main.js:229-233 | For a cat whose eye follows its body, a hit scores exactly when the click is on the other side of the centre line from the eye marker; the centre line counts as right. |
| Scoring.VisitCats | main.js:212-254 | The pass over all cats reports a hit iff some inclusive rectangle contains the click. It gains exactly the number of cats hit on their eyeless half. The flash colour is the verdict on the last hit cat in array order, or unchanged if nothing is hit. |
| Scoring.AtMostOnePointWithoutOverlap | main.js:216-234 | When no two body rectangles overlap, one click earns at most one point. |
| Scoring.AtMostOnePointPerCat | main.js:212-234 | One click earns at most one point per cat, so at most the number of cats. |
| Flash.Decay | main.js:283-289 | A frame takes 16 ms off a running flash. A flash with more than 16 ms left keeps its colour, and the colour clears once nothing remains. A spent flash is left as it is. A well-formed flash, coloured exactly while time remains, stays well-formed. |
| Flash.SpentIsStable | main.js:284 | Once no time remains, further frames never change the flash. |
| Flash.VisibleUntilCleared | main.js:283-289 | A flash with d > 0 ms left keeps its colour, with d − 16n ms left, for n below ⌈d/16⌉ frames, and has no colour from frame ⌈d/16⌉ on. |
| Flash.FreshFlashClearsAfterNineteenFrames | main.js:37 | A 300 ms flash still shows after 18 frames and is gone after 19. |
| Motion.Clamp | main.js:352-359 | `max(lo, min(hi, v))` lies in [lo, hi] when that interval is non-empty: it is v inside it, lo below it and hi above it. It gives lo when the interval is empty. |
| Motion.LimitVelocity | main.js:316-324 | Each velocity component is limited on its own. A component within [−3, 3] is kept, one above 3 becomes exactly 3, and one below −3 becomes exactly −3, whatever the other component does. So the result lies within the limit, and an in-limit velocity is returned unchanged. |
| Motion.Repel | main.js:312-324 | With no neighbour close enough the velocity is unchanged. After at least one repulsion impulse, each component lies in [−3, 3]. |
| Motion.RepelWithinLimitAddsAll | main.js:312-324 | When no running velocity leaves ±3 as the impulses are added one by one, repulsion is the starting velocity plus the sum of all impulses. |
| Motion.RepelSnoc | main.js:298-327 | Repulsion over the neighbours is repulsion over all but the last one, followed by one add-and-clamp step for the last. |
| Motion.RepelLastClampHitsLimit | main.js:316-324 | When the last push takes a component past ±3, that component ends exactly on the limit it passed. |
| Motion.MoveCat | main.js:329-363 | After a moving frame, the body lies in [w/2, W−w/2]×[h/2, H−h/2] whenever the canvas is at least as large as the body. The eye sits at body + offset. Friction keeps exactly 98% of each speed component, and bounces keep it. A velocity within ±3 stays within ±3. Size, colour and eye side are untouched. |
| Motion.InteriorMoveIsPlain | main.js:330-335 | Away from the walls, the body moves by its velocity and keeps 98% of it. |
| Motion.BounceTurnsInward | main.js:337-359 | On a canvas at least as large as the body, a cat that moves into a wall is placed on the wall, and its velocity along that axis is turned back inward. |
| Game.Start | main.js:30-40 | A session starts with score 0, one click per cat, clicks not admitted, cats moving and no flash. It is valid when its cats are. |
| Game.NewCatIsValid | main.js:154-161 | A cat made from the game's random draws has its eye at body + offset, the offset of its side, and a velocity within the speed limit. |
| Game.Click | main.js:199-273 | A click when clicks are not admitted or none remain changes nothing. Otherwise it uses exactly one click however many cats it hits. It adds the number of cats hit on their eyeless half. It sets the flash to 300 ms, red on a miss and otherwise the last hit cat's verdict. It ends the game exactly when no clicks remain. It leaves the cats and the phase alone. |
| Game.Tick | main.js:277-366 | A frame decays the flash. While the cats move it applies one motion step to each cat. While they are frozen it leaves every cat exactly as it was. Nothing else changes. |
| Game.Recolor | main.js:59-75 | At the colour change a cat turns black and takes the new eye side. Its eye offset becomes width/4 towards that side, with the vertical offset kept, and the eye moves to body + offset. Position, velocity and size are kept. |
| Game.ColorChange | main.js:58-81 | Every cat is recoloured with its own newly drawn side, and nothing else in the session changes. |
| Game.Stop | main.js:84-90 | The cats stop moving and clicks are admitted. Cats, score, budget and flash are unchanged. |
| Game.Apply | main.js:58-366 | One event goes to its handler: a click to the click listener, a frame to the per-frame update, and the two timer events to the colour change and the stop. The number of cats and the canvas size are kept. |
| Game.Run | main.js:58-366 | A sequence of events is applied in order. The number of cats and the canvas size are kept over the whole run. |
| GameProperties.LastHitExists | main.js:212-228 | A click that hits some body has a last hit cat in array order. |
| GameProperties.AcceptedClickFlashes | main.js:233-262 | Every accepted click leaves a coloured flash with the full 300 ms. |
| GameProperties.ApplyPreservesValid | main.js:199-366 | Every event keeps the invariants: score and budget non-negative, a well-formed flash, each eye at body + offset with the offset of its side, and speeds within ±3. |
| GameProperties.RunPreservesValid | main.js:199-366 | The same invariant holds after any run of events. In particular the click budget never goes below 0. |
| GameProperties.RunConcat | main.js:199-366 | Running two stretches of events one after the other is the same as running them together. |
| GameProperties.ScoreNeverDecreases | main.js:234 | Over any run the score never decreases and the click budget never grows. |
| GameProperties.EventScoreBound | main.js:212-265 | One event earns at most one point per cat for each click it uses up (`PaidFor`: points gained ≤ clicks used × cats). |
| GameProperties.ScoreBoundedByClicksUsed | main.js:212-265 | Over any run, the points gained are at most the clicks used times the number of cats. |
| GameProperties.BudgetNeverNegative | main.js:201-265 | A budget that starts non-negative stays non-negative over any run. |
| GameProperties.GameBudgetInRange | main.js:31 | In the ten-cat game the budget starts at 10 and stays within [0, 10] over any run. |
| GameProperties.SpentBudgetIsFinal | main.js:201 | Once no clicks remain, no run changes the score or the budget. |
| GameProperties.NoScoringBeforeStop | main.js:32 | While clicks are not admitted and no stop event comes, clicks change neither score nor budget, and clicks stay unadmitted. |
| GameProperties.FrozenCatsStayPut | main.js:292 | Once the cats have stopped, no run changes any body's position or velocity. |
| GameProperties.MovingFrameKeepsCatsOnCanvas | main.js:351-363 | After a moving frame every body lies wholly on a canvas large enough for it, with its eye at body + offset. |
| GameProperties.FramesDecayFlash | main.js:283-289 | A run of frames decays the flash once per frame. |
| GameProperties.FlashClearsAfterNineteenFrames | main.js:233-262 | After an accepted click, the flash keeps its colour through 18 frames and is gone after 19, whether or not the cats move. |
| GameProperties.AmbientKeepsLooks | main.js:199-366 | Clicks and frames never change a cat's colour, eye side or eye offset, or whether the cats move. |
| GameProperties.PhasesInOrder | main.js:58-90 | After frames and clicks, the colour change, more frames and clicks, and the stop, every cat is black with its new eye side. The cats are frozen, clicks are admitted, and earlier clicks were ignored, so the score is 0 and the whole budget is left. |
| Scenarios.EyelessHalfScores | main.js:199-272 | One cat at (100,100), 100×60, eyes right, clicked at (60,100): score 0→1, budget 1→0, green flash, game over. |
| Scenarios.EyeHalfDoesNotScore | main.js:243-246 | The same cat clicked at (140,100): score stays 0, red flash, game over. |
| Scenarios.MissStillUsesClick | main.js:256-265 | A click at (0,0) misses: score unchanged, red flash, one click used. |
| Scenarios.CentreLineIsRight | main.js:230 | A click on the centre line counts as the right half. |
| Scenarios.EdgesAreInside | main.js:222-227 | A click on the body's edge is a hit. |
| Scenarios.OverlapScoresTwice | main.js:212-254 | Two overlapping cats, both hit on their eyeless half by one click: score +2, one click used, green flash. |

## Left out

- Kontra plumbing (`init`, `Sprite`, `SpriteSheet`, `GameLoop`, `load`, `setImagePath`, animation playback, `sprite.update`): library code that is not part of this model.
- Rendering (`main.js:367-397`): drawing the bodies, eyes, score text and flash overlay.
- Translating the click from client to canvas coordinates with `getBoundingClientRect`: the model takes canvas-local points.
- `alert` and `console.log`, including the "Game Over! Final Score" message: user-visible output. The model keeps the state that ends the game (`gameActive` false, no clicks left).
- `setTimeout` scheduling and wall-clock time: the colour change and the stop are explicit events. `GameProperties.PhasesInOrder` covers the order the timers produce, and no timing is proved.
- `Math.random`: new eye sides and initial velocities are inputs. The random animation start frame (`main.js:181`) is left out with the rest of animation playback.
- Initial placement by rejection sampling (`main.js:92-140`): random, sqrt-based and best effort. It can draw a body centre up to 20 px from the bottom edge, while a 60 px tall body needs 30 px. So the model states the on-canvas property for cats after a moving frame (`Motion.MoveCat`), not as an invariant from the start.
- Motion.Repel: each impulse is an arbitrary vector, not the game's push of length 0.5 along the line between close centres (`main.js:298-311`, square root and division). The neighbours' distance test is folded into which impulses are given.
- Game.Tick: the game moves the cats one after another in place, so a cat's repulsion sees neighbours that already moved this frame. The model takes each cat's impulses as input, which covers every such order but does not compute them.
- Motion.MoveCat: the model's arithmetic is exact over reals, while the game rounds every step in doubles. This covers the repulsion sum (`body.dx += repulsionX`, `main.js:312-313`), the position step (`body.x += body.dx`, `main.js:330-331`) and friction (`main.js:334-335`, times 0.98). So the statements of `Motion.MoveCat`, `Motion.InteriorMoveIsPlain`, `Motion.BounceTurnsInward` and `Motion.RepelWithinLimitAddsAll` hold for the game only up to that rounding; for example, the speed kept is only approximately 98%.
- Game.Click: JavaScript numbers are doubles. The model uses exact reals, so rounding at a rectangle's edge or at the centre line is not modelled.
- `NUM_CATS` fixes both the number of cats and the click budget at 10. `Game.Start` gives one click per cat for any number of cats, which includes the ten-cat game.
- `sprite.update()` on the eye sprites (`main.js:279-281`): it advances their animation; the eye sprites are created without a velocity (`main.js:163-175`), so it does not move them.
- vite.config.js: build configuration with no game logic.
