# Scratch Swap Studio runtime, in Dafny

This project models the runtime at the heart of the Scratch Swap Studio page
(`src/pages/Index.tsx`). Sprites carry scripts made of blocks:
`move`, `turn`, `goto`, `say`, `think` and a nested `repeat`. On each
animation tick every sprite runs its script once, which updates its pose:
position, heading, and a speech or thought bubble. When two sprites collide
while the animation plays, they swap the motion blocks of the scripts they
held when Play was pressed. Their other blocks stay where they are.

Modules:

- `Script` (`script.dfy`): the block tree. A block has an operation, the
  category label it was authored under, and child blocks.
- `Interpreter` (`interpreter.dfy`):
  - `Step`, `Run` and `Loop` give the meaning of one block, of a block
    sequence and of the `repeat` counting loop.
  - `TruncRem360` models JavaScript's truncating `%`.
  - The `PoseCell` class is the local `state` record that `processBlock`
    mutates field by field. Its methods are proved equal to `Step` and `Run`.
- `Sprites` (`sprites.dfy`): the sprite record, `find`, and the add, update
  and delete handlers as list functions.
- `Collision` (`collision.dfy`): the motion and non-motion filters, the
  recombination of two scripts, and `handleCollision` as a function of the
  sprite list.
- `IndexPage` (`index_page.dfy`): the `Studio` class holds the page state:
  - the sprite list, the selection and the play flag;
  - the pose map `spriteStates`;
  - the start-of-session snapshot `originalScripts`.

  Its methods are the lifecycle commands, the effect that keeps the pose map
  in step with the sprite list, the collision handler and one timer tick.
  Each is proved against a specification function: `SyncedStates`,
  `RestStates`, `Snapshot`, `Collide` or `TickStates`.

Behaviours of the page that the model keeps:
- `startAnimation` has no guard against being called while already playing.
- A sprite missing from the start snapshot counts as having had an empty
  script. It is not treated as a no-op.
- The partition reads each block's stored `category` label. It does not
  derive the category from the block's kind.
- Nothing in the page counts `textTimer` down. It is only set.

Parameters of the model:

- `move` needs `cos`/`sin`. The model takes them as a `Compass` parameter: a
  function from a heading to its unit direction vector.
- Positions are `real`, because `move` adds `steps × cos θ`.
- Headings, turn degrees, steps, seconds and repeat counts are `int`.

## Model

| member | source | states |
|---|---|---|
| `Interpreter.TruncRem360` | src/pages/Index.tsx:94 | JavaScript's `% 360`: the result is in (−360, 360), has the sign of the dividend and differs from it by a multiple of 360 |
| `Interpreter.TurnHeading` | src/pages/Index.tsx:93-96 | after the truncated remainder and the `+360` fix-up, the heading is always in [0, 360) and equals the Euclidean `(direction + degrees) mod 360` |
| `Interpreter.TurnBackFromRest` | src/pages/Index.tsx:93-96 | `turn(-450)` from the rest heading 90 gives heading 0 |
| `Interpreter.Step` | src/pages/Index.tsx:85-129 | `processBlock`: a heading in [0, 360) stays in range after any block. StepEffects gives each kind's effect, RepeatUnrolls the `repeat` case, and StepKeepsConsistent the pose invariant |
| `Interpreter.Run` | src/pages/Index.tsx:131-135 | `processScript`: a heading in [0, 360) stays in range after any script. RunAppend and RunSnoc give its left-to-right order, and RunKeepsConsistent the pose invariant |
| `Interpreter.Loop` | src/pages/Index.tsx:120-122 | the `repeat` counting loop: a heading in [0, 360) stays in range after any number of passes. LoopOneMore and LoopIsCopies give the passes in order |
| `Interpreter.StepEffects` | src/pages/Index.tsx:86-128 | `move 0` changes nothing, and any `move` changes only the position. `turn` changes only the heading. `goto` sets x and y and nothing else. `say` sets the say text and timer, clears the think text and sets `isThinking` false. `think` is its mirror image. An unknown block does nothing |
| `Interpreter.RunAppend` | src/pages/Index.tsx:131-137 | blocks run strictly left to right: running `a ++ b` equals running `b` from the pose `a` leaves |
| `Interpreter.RunSnoc` | src/pages/Index.tsx:131-135 | appending one block to a script adds exactly one step at the end |
| `Interpreter.LoopOneMore` | src/pages/Index.tsx:120-122 | pass `n + 1` of the repeat loop starts from the pose that pass `n` left |
| `Interpreter.LoopIsCopies` | src/pages/Index.tsx:120-122 | `n` passes over the children equal one run of the children copied `n` times |
| `Interpreter.Copies` | src/pages/Index.tsx:120-122 | `n` copies of a script have `n` times its length, and none when `n ≤ 0` |
| `Interpreter.RepeatUnrolls` | src/pages/Index.tsx:117-124 | `repeat` with `times ≤ 0` or no children leaves the pose unchanged. Otherwise it equals running the children `times` times in a row |
| `Interpreter.RestIsConsistent` | src/pages/Index.tsx:44-52 | the rest pose is drawable: heading 90, no bubble, no timer, not thinking |
| `Interpreter.StepKeepsConsistent` | src/pages/Index.tsx:85-129 | every block keeps the heading in [0, 360), keeps at most one bubble up, keeps `isThinking` true exactly when the thought bubble is up, and keeps a timer exactly when a bubble is up |
| `Interpreter.RunKeepsConsistent` | src/pages/Index.tsx:131-137 | every script, however deeply its repeats nest, keeps a drawable pose drawable |
| `Interpreter.LoopKeepsConsistent` | src/pages/Index.tsx:120-122 | the repeat loop keeps a drawable pose drawable |
| `Interpreter.SilentStepKeepsBubble` | src/pages/Index.tsx:103-116 | a block with no `say` or `think` anywhere inside it leaves the bubble fields alone |
| `Interpreter.SilentRunKeepsBubble` | src/pages/Index.tsx:131-137 | a script with no `say` or `think` at any depth leaves the bubble fields exactly as they were |
| `Interpreter.SilentLoopKeepsBubble` | src/pages/Index.tsx:117-124 | the repeat loop over silent children leaves the bubble fields alone |
| `Interpreter.PoseCell.constructor` | src/pages/Index.tsx:83 | the local `state` starts as a copy of the sprite's pose |
| `Interpreter.PoseCell.ProcessBlock` | src/pages/Index.tsx:85-129 | updating the record field by field, including the counting `for` loop of `repeat`, leaves exactly `Step` of the old pose |
| `Interpreter.PoseCell.ProcessScript` | src/pages/Index.tsx:131-135 | the `forEach` over the blocks leaves exactly `Run` of the old pose |
| `Sprites.Find` | src/pages/Index.tsx:191-192 | finds nothing exactly when no listed sprite has the id. Otherwise it returns the sprite at the first position holding the id |
| `Sprites.AddSprite` | src/pages/Index.tsx:63-66 | the new sprite is appended after the unchanged list, and its id joins the id set |
| `Sprites.UpdateSprite` | src/pages/Index.tsx:68-70 | same length and the same id at every position. Every position holding the id now holds the updated sprite, and every other position is unchanged. An unknown id changes nothing |
| `Sprites.DeleteSprite` | src/pages/Index.tsx:72-77 | exactly the sprites with other ids remain, and the id set loses the id |
| `Sprites.DeleteAppend` | src/pages/Index.tsx:73 | deletion distributes over concatenation, so the survivors keep their order |
| `Sprites.DeleteAbsent` | src/pages/Index.tsx:73 | deleting an id that no sprite carries leaves the list unchanged |
| `Sprites.DeleteUndoesAdd` | src/pages/Index.tsx:63-77 | adding a sprite with a fresh id and then deleting that id gives back the original list |
| `Collision.MotionBlocks` | src/pages/Index.tsx:198 | every block kept is labelled motion, and the kept blocks are a sub-multiset of the script |
| `Collision.NonMotionBlocks` | src/pages/Index.tsx:199 | every block kept has another label, and the kept blocks are a sub-multiset of the script |
| `Collision.PartitionComplete` | src/pages/Index.tsx:198-199 | the two parts' lengths add up to the script's length, and their multisets add up to the script's: no block is lost or duplicated |
| `Collision.PartitionMembers` | src/pages/Index.tsx:198-199 | a block is in the motion part exactly when it is in the script and labelled motion, and in the other part exactly when it has another label. A `repeat` counts as a whole, by its own label |
| `Collision.PartitionAppend` | src/pages/Index.tsx:198-199 | both filters distribute over concatenation, so they keep relative order |
| `Collision.MotionAppend` | src/pages/Index.tsx:198 | the motion filter distributes over concatenation |
| `Collision.NonMotionAppend` | src/pages/Index.tsx:199 | the non-motion filter distributes over concatenation |
| `Collision.FilterIdempotent` | src/pages/Index.tsx:198-199 | filtering a part again leaves it unchanged, and filtering a part by the other test leaves nothing |
| `Collision.Recombine` | src/pages/Index.tsx:203 | the rebuilt script is as long as the other sprite's motion part plus the sprite's own non-motion part |
| `Collision.RecombineSplits` | src/pages/Index.tsx:201-208 | a rebuilt script splits back into exactly the other sprite's motion blocks and the sprite's own non-motion blocks |
| `Collision.Original` | src/pages/Index.tsx:195-196 | a sprite missing from the start snapshot has the empty script. A sprite in it has its snapshot entry |
| `Collision.Collide` | src/pages/Index.tsx:188-210 | the length and the ids at every position are unchanged. When not playing, or when either id is not on the list, the list is unchanged |
| `Collision.ReplaceById` | src/pages/Index.tsx:210 | the `map` keeps the length and the id at every position |
| `Collision.CollideSwaps` | src/pages/Index.tsx:188-210 | with unique ids, while playing with both sprites present: sprite 1's script becomes motion(original 2) ++ non-motion(original 1), and sprite 2's is symmetric. Their other attributes and all other sprites are unchanged. When both ids are the same, that sprite's script becomes its original motion blocks followed by its original other blocks |
| `Collision.FindAfterReplace` | src/pages/Index.tsx:191-192 | after a swap, looking either id up finds its replacement sprite |
| `Collision.ReplaceByIdTwice` | src/pages/Index.tsx:210 | applying the same replacement twice equals applying it once |
| `Collision.CollideIdempotent` | src/pages/Index.tsx:195-210 | a second report of the same collision leaves the list as the first left it, because both rebuild from the frozen snapshot |
| `Collision.CollideSymmetric` | src/pages/Index.tsx:195-210 | for distinct ids, `handleCollision(A, B)` and `handleCollision(B, A)` give the same list |
| `IndexPage.Snapshot` | src/pages/Index.tsx:143-146 | the snapshot's keys are exactly the listed ids |
| `IndexPage.SnapshotHoldsScripts` | src/pages/Index.tsx:143-146 | with unique ids, the snapshot holds every sprite's script under its id |
| `IndexPage.TickStates` | src/pages/Index.tsx:156-159 | one tick keeps the pose map's key set |
| `IndexPage.TickRunsEachSprite` | src/pages/Index.tsx:156-159 | with unique ids, one tick gives each sprite `Run` of its own pose and current script, committed under its id alone. Poses of unlisted ids stay as they were |
| `IndexPage.TickKeepsConsistent` | src/pages/Index.tsx:156-159 | a tick keeps every pose drawable, whatever the scripts |
| `IndexPage.Ticks` | src/pages/Index.tsx:156-160 | consecutive ticks keep the pose map's key set |
| `IndexPage.TicksRunScriptRepeatedly` | src/pages/Index.tsx:156-160 | with unique ids, `n` ticks run each sprite's script `n` times over from its pose before the first tick |
| `IndexPage.StaleTicks` | src/pages/Index.tsx:83 | ticks as the timer callback performs them keep the key set of the pose map captured at start |
| `IndexPage.StaleTicksFreeze` | src/pages/Index.tsx:83 | a sprite at rest running `turn 10` heads 100 after two ticks of the page's timer, where two consecutive ticks give 110 |
| `IndexPage.SyncedStates` | src/pages/Index.tsx:40-61 | the synced pose map's keys are exactly the sprite ids, and drawable poses stay drawable. SyncedStatesSpec gives which pose each id gets and that a second sync changes nothing |
| `IndexPage.RestStates` | src/pages/Index.tsx:173-184 | the reset map's keys are exactly the sprite ids, every id maps to the rest pose, and every pose in it is drawable |
| `IndexPage.SyncedStatesSpec` | src/pages/Index.tsx:40-61 | after the sync, the pose map's keys are exactly the sprite ids. Existing poses are kept and new ids get the rest pose. A second sync changes nothing, and drawable poses stay drawable |
| `IndexPage.Studio.constructor` | src/pages/Index.tsx:14-18 | the page starts with no sprites, no selection, not playing, an empty pose map and an empty snapshot |
| `IndexPage.Studio.SyncSpriteStates` | src/pages/Index.tsx:40-61 | the loop that adds rest poses and the loop that deletes stale keys together leave exactly `SyncedStates` of the old map. The keys are then the sprite ids |
| `IndexPage.Studio.HandleAddSprite` | src/pages/Index.tsx:63-66 | appends the sprite, selects it and syncs the pose map |
| `IndexPage.Studio.HandleUpdateSprite` | src/pages/Index.tsx:68-70 | replaces the sprite. The pose map is unchanged, because no id comes or goes |
| `IndexPage.Studio.HandleDeleteSprite` | src/pages/Index.tsx:72-77 | drops the sprite, clears the selection exactly when it was that id, and drops its pose |
| `IndexPage.Studio.StartAnimation` | src/pages/Index.tsx:142-149 | the snapshot becomes each listed sprite's script under its id, and the page is playing |
| `IndexPage.Studio.StopAnimation` | src/pages/Index.tsx:163-169 | the page stops playing. Scripts and poses are untouched |
| `IndexPage.Studio.ResetAnimation` | src/pages/Index.tsx:171-186 | stops, and every listed sprite, and no other id, maps to the rest pose |
| `IndexPage.Studio.HandleCollision` | src/pages/Index.tsx:188-213 | the early returns and the rebuild leave exactly `Collide` of the old list. The pose map and snapshot are untouched |
| `IndexPage.Studio.ExecuteScriptsForSprite` | src/pages/Index.tsx:79-140 | for a listed sprite, stores `Run` of its pose and the given scripts under its id. An unlisted id changes nothing |
| `IndexPage.Studio.Tick` | src/pages/Index.tsx:156-159 | one timer firing leaves exactly `TickStates` of the pose map before the tick |

## Left out

- Rendering and the UI components (`Tabs`, `Button`, `BlocksList`, `CodeWorkspace`, `SpriteEditor`, `Canvas`): presentation only. `Canvas` bounding-box collision detection is not part of this model. It only reports id pairs to `handleCollision`.
- `window.setInterval` / `clearInterval` and the unmount cleanup: timer plumbing. One firing is `Studio.Tick`, and `isPlaying` is a field. A second `startAnimation` while playing would leak a second interval, and that is not modelled.
- The initial sprite that the mount effect adds with a `Date.now()` id: it is a clock-dependent id. Adding a sprite is modelled by `Studio.HandleAddSprite`.
- `toast`, and the unused `loopIndices`: they have no effect on state.
- `spritesRef`: the ref mirrors `sprites`, and the model reads `sprites` directly.
- React state batching: every setter is an immediate assignment. The one place where this matters, the timer callback's stale pose map, is given under Findings. `Studio.Tick` models the evidently intended behaviour.
- `Math.cos` / `Math.sin` and floating point: `move` goes through the `Compass` parameter, with real arithmetic.
- Non-integer numbers: turn degrees, steps, seconds and repeat counts are integers. With a fractional `times`, JavaScript's `for` loop would run ⌈times⌉ passes. The `-0` that `%` can produce is modelled as 0.
- A pose entry missing for a listed sprite: the page would spread `undefined` and compute `NaN`. `Studio.Valid` rules this out, and every handler keeps it. `ExecuteScriptsForSprite` requires the entry.
- Duplicate sprite ids: `Collide`, `Snapshot`, `TickStates`, `UpdateSprite` and `DeleteSprite` follow the page for duplicates too. Examples: `find` takes the first match, and a later snapshot entry overwrites an earlier one.
- CollideSwaps: stated only for unique ids.
- SnapshotHoldsScripts: stated only for unique ids.
- TickRunsEachSprite: stated only for unique ids.
- TicksRunScriptRepeatedly: stated only for unique ids.
- `textTimer` countdown: the page sets it and never counts it down, so the model does the same.
- Selection changes made from the sprite editor (`setSelectedSpriteId`): UI only.

## Findings

| source | as written | input that shows it | evidently intended | confidence | as-written member | corrected member |
|---|---|---|---|---|---|---|
| src/pages/Index.tsx:83 | The timer callback that `startAnimation` installs calls the `executeScriptsForSprite` of the render in which Play was pressed. That function reads `spriteStates` from the same render, so every tick restarts from the session-start poses | one sprite at rest whose script is `turn 10`, run for two ticks: heading 100 | each tick continues from the previous tick's poses: heading 110 after two ticks | medium, not executed | `IndexPage.StaleTicksFreeze` | `IndexPage.TicksRunScriptRepeatedly` |
