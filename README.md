# joseph-dunne.com: a verified model of its simulations, games and helpers

This project models, in Dafny, the parts of a personal website that compute something:

- **Particle fluids.** Three versions of the `Liquid` integrator are modelled: the WebGL fluid demo, its first version, and Will Spill. Particles live in flat position and velocity buffers. Each `update` runs three passes over them:
  - forces and Euler integration;
  - a neighbour scan with equal-and-opposite position corrections (double density relaxation);
  - a clamp to the container, with velocities re-derived from the step's displacement.
- **Grid games.**
  - Sokoban keeps its board as a newline-separated string, with moves, pushes, undo, redo and restart.
  - Catris is a falling-cats puzzle on a bounds-checked byte grid, with piece movement, row clearing, spawning and the drop key.
- **The chicken-cave engine.**
  - the key tracker;
  - the entity registry and game clock;
  - the wall grid and its box collision;
  - the CPU particle ring buffer;
  - the GPU particle texture with its fixed-point encoding and the 8-bit store of what its step shader writes;
  - the waterfall spawn timer;
  - the lazy texture cache and tile culling.
- **Cellular-automaton hosts.**
  - the WebGL game of life (Conway's rule on a torus);
  - the stand-alone game-of-life page;
  - the flood-fill maze solver;
  - the maze generator;
  - the text-based first maze demo.

  These share the power-of-two canvas check and the RGBA texture layout. Every render target on the site is an RGBA texture of unsigned bytes, so what a step shader outputs is clamped to [0, 1] and rounded to the nearest 255th before the next step reads it (module `ByteTexel`). The model applies this store to every rendered texel.
- **Site helpers.**
  - the class-list and dark-theme helpers, with local storage as a map;
  - the build script's extension test, output-path rewrite, directory creation and template substitution;
  - the development server's MIME lookup.

How the JavaScript is represented:

- **Mutating code is imperative Dafny.** Classes hold the fields the source mutates: arrays for typed arrays, and `seq`/`set`/`map` for lists, sets and maps. Methods carry loop invariants and are proved against specification functions.
- **Pure code becomes functions and lemmas.** This covers the shader rules, the encodings and the path logic.
- **Numbers are `real`**, or `int` where the source works on integer pixels or bytes.
- **Outside inputs become parameters.** `Math.sqrt` is a function parameter constrained to be the non-negative square root. Random draws, noise samples and the presence of WebGL are parameters too.

Where the source and its design description disagree, the model follows the source:

- **The fluids' zero-step guard is `!dT`.** A zero step is a no-op, but a negative step is integrated rather than rejected (`FluidCore.Capped` keeps it).
- **No fluid constructor validates the particle count or radius.** A zero radius makes every weight NaN, so no neighbour is ever recorded.
- **Will Spill's corner rule runs after the clamp.** It can move particles out of the canvas, so containment does not hold there (`WillSpill.SettleLeavesCanvas`).
- **The first fluid keeps neighbours exactly on the circle**, with weight 0 (`EarlyFluid.EdgeKeptWithNoWeight`). The later versions skip them.
- **The chicken-cave game creates its level with plain numbers as options.** The level therefore always takes its default 12 x 50 size.
- **The 8-bit store shifts the shaders' results.**
  - A maze wall brightened to at least 254.5/255 on every channel already reads as white floor.
  - The game of life's grey 0.5 is kept as 128/255.
  - The chicken-cave particle encoding writes channels in 256ths, which are stored in 255ths. A value the step shader passes through unchanged therefore drifts: 0 comes back as 1/510 (`ChickenParticlesGlsl.KeptDrifts`). A velocity pulled below -0.5 saturates just above -0.5.

## Model

| member | source | states |
|---|---|---|
| JsString.SplitNoSepParts | src/common.js:49-51 | no piece of `split(sep)` contains the separator |
| JsString.JoinSplit | src/common.js:49-61 | joining the pieces of a split with the same separator gives the string back |
| JsString.SplitJoin | src/common.js:49-61 | splitting the join of separator-free pieces gives the pieces back |
| JsString.SplitNoSep | src/common.js:49-51 | a string without the separator splits to itself alone |
| Sokoban.GetNode | src/projects/sokoban/sokoban.js:60-72 | every symbol other than the eight level symbols is drawn as the wall image |
| Sokoban.GetNodeDistinct | src/projects/sokoban/sokoban.js:60-72 | the eight level symbols have pairwise different markup |
| Sokoban.LevelIsPassed | src/projects/sokoban/sokoban.js:90-94 | the level is passed exactly when no '$' is left in the text |
| Sokoban.MarkupAppend | src/projects/sokoban/sokoban.js:76-80 | the markup of a concatenation is the concatenation of the markups |
| Sokoban.Page | src/projects/sokoban/sokoban.js:74-88 | the page is the markup of the level, with the passed note appended exactly when the level is passed |
| Sokoban.CoordsIncrease | src/projects/sokoban/sokoban.js:143-159 | every symbol read moves the scan position strictly forward in reading order |
| Sokoban.CoordsLines | src/projects/sokoban/sokoban.js:143-161 | after reading the whole text, the scan stands at the end of the last `split('\n')` line |
| Sokoban.CellInGrid | src/projects/sokoban/sokoban.js:124-134 | the scan position of every non-break index is a column and line of the split text, at that same flat offset |
| Sokoban.LocGrid | src/projects/sokoban/sokoban.js:124-134 | a board cell found by the scan is the column of the split line that `getItemAt` reads |
| Sokoban.ItemAt | src/projects/sokoban/sokoban.js:118-136 | `getItemAt` through the split lines yields the symbol of the cell the scan locates, and '#' for negative coordinates or coordinates past the lines |
| Sokoban.SetItem | src/projects/sokoban/sokoban.js:96-116 | `setItemAt`'s split, splice and join overwrites exactly the located cell, and leaves the text unchanged off the board |
| Sokoban.WriteKeepsBreaks | src/projects/sokoban/sokoban.js:112-114 | writing a non-break symbol keeps every line break where it was, so the length and all other cells are kept |
| Sokoban.FirstPlayer | src/projects/sokoban/sokoban.js:143-147 | the scan stops at the first '@' or '+', or at the end of the text when there is none |
| Sokoban.FirstPlayerIs | src/projects/sokoban/sokoban.js:143-147 | an index holding a player with none before it is the one the scan stops at |
| Sokoban.PlayerLoc | src/projects/sokoban/sokoban.js:138-163 | on a level with a player, `findPlayerPosition`'s (x, y) locates that first player |
| Sokoban.FindPlayerPosition | src/projects/sokoban/sokoban.js:138-163 | the loop's (x, y) is the scan position where it stops: x counts columns since the last '\n', y counts the breaks |
| Sokoban.CountsAfterWrite | src/projects/sokoban/sokoban.js:112 | one overwritten symbol changes the box and player counts by what it removes and adds |
| Sokoban.MoveAtCases | src/projects/sokoban/sokoban.js:180-202 | a move is a step into ' ' or '.', a push of '$' or '*' onto ' ' or '.', or no change |
| Sokoban.MoveAtCounts | src/projects/sokoban/sokoban.js:180-201 | a move on the flat text keeps the number of boxes ('$' and '*') and of players ('@' and '+') |
| Sokoban.MoveKeepsCounts | src/projects/sokoban/sokoban.js:165-202 | no `moveDir` changes the number of boxes or of players |
| Sokoban.StepUndoFlat | src/projects/sokoban/sokoban.js:256-276 | undoing the two writes of a step restores the text |
| Sokoban.PushUndoFlat | src/projects/sokoban/sokoban.js:260-270 | undoing the three writes of a push restores the text |
| Sokoban.MovedPlayer | src/projects/sokoban/sokoban.js:180-201 | after a step or a push the only player symbol stands at the destination |
| Sokoban.StepBreaks | src/projects/sokoban/sokoban.js:182-183 | a step writes and overwrites no line break |
| Sokoban.PushBreaks | src/projects/sokoban/sokoban.js:195-197 | a push writes and overwrites no line break |
| Sokoban.LocsDistinct | src/projects/sokoban/sokoban.js:167-191 | the player's cell and the cells one and two steps away are distinct indices of the text |
| Sokoban.MoveLocs | src/projects/sokoban/sokoban.js:167-191 | the indices `moveDir` reads are the player's first position and the cells one and two steps away, none of them a break |
| Sokoban.Landed | src/projects/sokoban/sokoban.js:246-254 | on a board of the same shape whose only player is at (x, y), `findPlayerPosition` answers (x, y) and the cells around it keep their indices |
| Sokoban.MovedAtLands | src/projects/sokoban/sokoban.js:246-265 | after a move by (dx, dy), the undo finds the player one step on, the cell behind it where it came from and the cell in front where the box went |
| Sokoban.StepFlat | src/projects/sokoban/sokoban.js:182-183 | a step keeps the board's shape and leaves a single player at the destination |
| Sokoban.PushFlat | src/projects/sokoban/sokoban.js:195-197 | a push keeps the board's shape and leaves a single player at the destination |
| Sokoban.MoveCase | src/projects/sokoban/sokoban.js:165-202 | a move that happened was a step into ' ' or '.' or a push of a box onto ' ' or '.' |
| Sokoban.StepUndoFacts | src/projects/sokoban/sokoban.js:256-276 | after a step the history records no push, the shape and single player are kept, and the flat undo restores the board |
| Sokoban.PushUndoFacts | src/projects/sokoban/sokoban.js:260-270 | after a push the history records the push, the shape and single player are kept, and the flat undo restores the board |
| Sokoban.UndoBack | src/projects/sokoban/sokoban.js:233-281 | `undoMove` on a board reached by a move restores the board before the move |
| Sokoban.StepRoundTrip | src/projects/sokoban/sokoban.js:256-276 | undoing a step restores the board |
| Sokoban.PushRoundTrip | src/projects/sokoban/sokoban.js:260-270 | undoing a push restores the board |
| Sokoban.UndoRoundTrip | src/projects/sokoban/sokoban.js:165-281 | on a board with exactly one player, `undoMove` after a `moveDir` that moved restores the board |
| SokobanGame.Game.constructor | src/projects/sokoban/sokoban.js:34-43 | the game starts on the given level, or on the built-in one when none is given, at move 0 with an empty history |
| SokobanGame.Game.LoadLevel | src/projects/sokoban/sokoban.js:47-56 | loading sets the level and the restart copy, clears the cursor and history, and renders the page |
| SokobanGame.Game.UpdateHtml | src/projects/sokoban/sokoban.js:74-88 | the page becomes the level's markup, with the passed note when no box is off a trap; nothing else changes |
| SokobanGame.Game.GetItemAt | src/projects/sokoban/sokoban.js:118-136 | returns the symbol of the located cell, '#' off the board |
| SokobanGame.Game.SetItemAt | src/projects/sokoban/sokoban.js:96-116 | overwrites exactly the located cell and changes no other field |
| SokobanGame.Game.MoveCells | src/projects/sokoban/sokoban.js:165-202 | the cell writes and the moved/pushed flags are those of the move function |
| SokobanGame.Game.MoveDir | src/projects/sokoban/sokoban.js:165-213 | a move that happened increments `atMove`, cuts the history there and records (dx, dy, pushed) last; one that did not changes nothing |
| SokobanGame.Game.MoveUp | src/projects/sokoban/sokoban.js:215-217 | moves by (0, -1) |
| SokobanGame.Game.MoveDown | src/projects/sokoban/sokoban.js:219-221 | moves by (0, 1) |
| SokobanGame.Game.MoveLeft | src/projects/sokoban/sokoban.js:223-225 | moves by (-1, 0) |
| SokobanGame.Game.MoveRight | src/projects/sokoban/sokoban.js:227-229 | moves by (1, 0) |
| SokobanGame.Game.UndoCells | src/projects/sokoban/sokoban.js:245-276 | the undo writes are those of the undo function for the recorded move |
| SokobanGame.Game.UndoMove | src/projects/sokoban/sokoban.js:233-281 | at move 0 nothing changes; otherwise the last recorded move is undone, `atMove` decrements and the history is kept |
| SokobanGame.Game.RedoMove | src/projects/sokoban/sokoban.js:283-324 | at the end of the history nothing changes; otherwise the next recorded direction is replayed and `atMove` increments |
| SokobanGame.Game.RestartLevel | src/projects/sokoban/sokoban.js:326-328 | the level loaded first comes back, at move 0 with an empty history |
| SokobanGame.Render | src/projects/sokoban/sokoban.js:76-86 | the loop builds exactly the page markup |
| SokobanGame.RedoAfterUndo | src/projects/sokoban/sokoban.js:233-324 | on a board with one player, redoing an undone move makes the same move again |
| Catris.Put | src/content/catris/catris.js:87-91 | `setGrid` keeps the grid's W*H size; a write off the grid is dropped |
| Catris.GetPut | src/content/catris/catris.js:87-98 | reading a cell after `setGrid` answers the written byte at the written in-grid cell, and the old byte everywhere else (every cell when the write fell off the grid) |
| Catris.GridExt | src/content/catris/catris.js:93-98 | two row-major grids that `getGrid` cannot tell apart are equal |
| Catris.PutChanges | src/content/catris/catris.js:87-91 | a further `setGrid` extends the map of overwritten cells by that one write |
| Catris.ChangesThen | src/content/catris/catris.js:87-91 | two rounds of writes compose, the later round winning on shared cells |
| Catris.Left | src/content/catris/catris.js:189-214 | `moveBlockLeft` is refused exactly when the cell left of the cursor is occupied (off the grid reads as empty); a refused move changes nothing, an accepted one moves the cursor one column left |
| Catris.Right | src/content/catris/catris.js:219-246 | `moveBlockRight` is allowed exactly when the cell right of the cursor is empty, or the piece is a lying cat whose tail has an empty cell to its right; refusal changes nothing, otherwise the cursor moves one column right |
| Catris.Fall | src/content/catris/catris.js:252-289 | the piece rests exactly when the cell under the cursor, or under a lying cat's tail, is occupied; a resting piece is left alone, any other falls one row |
| Catris.LeftLying | src/content/catris/catris.js:193-210 | a lying cat with room on its left moves one cell left as a whole lying cat: head and tail shift, its old tail cell is emptied, no other cell changes |
| Catris.LeftStanding | src/content/catris/catris.js:193-210 | a standing cat with room left of its foot moves left as a whole standing cat; the cell left of its head is overwritten without being checked |
| Catris.RightLying | src/content/catris/catris.js:223-242 | a lying cat with room right of its tail moves one cell right as a whole lying cat, emptying its old head cell |
| Catris.RightStanding | src/content/catris/catris.js:223-242 | a standing cat with room right of its foot moves right as a whole standing cat; the cell right of its head is overwritten without being checked |
| Catris.FallLying | src/content/catris/catris.js:257-285 | a lying cat with both cells below empty falls one row as a whole lying cat, emptying both old cells |
| Catris.FallStanding | src/content/catris/catris.js:257-285 | a standing cat with the cell below its foot empty falls one row as a whole standing cat |
| Catris.ClearedLeavesNoCompleteRow | src/content/catris/catris.js:317-333 | after `checkForCompleteRows` no row above the floor is complete, on a grid with room between its walls |
| Catris.ClearedKeepsFrame | src/content/catris/catris.js:307-312 | clearing never touches the side walls or the bottom row, and never fills a cell |
| Catris.Rand | src/content/catris/catris.js:343 | `Math.floor(Math.random() * 2)` is 0 or 1, and 0 exactly when the draw is below one half |
| Catris.SpawnedPiece | src/content/catris/catris.js:338-357 | a spawned piece is a whole lying cat at (4, 0), or a standing cat at (4, 0) entering from above the top row |
| Catris.InitWalls | src/content/catris/catris.js:63-78 | nothing `init` places after the frame lands on the frame: the bottom row and both side columns stay wall |
| Catris.InitGrid | src/content/catris/catris.js:61-81 | the frame, then the floor cats, then the spawned piece make exactly the grid `init` describes cell by cell |
| Catris.Landing | src/content/catris/catris.js:265-268 | clearing rows and then spawning leaves the spawned piece over the cleared grid |
| Catris.Drop | src/content/catris/catris.js:402-408 | repeated falls keep the grid's W*H size |
| Catris.DropEnds | src/content/catris/catris.js:402-408 | a drop keeps the column and ends on a resting piece within `n` rows, or after exactly `n` rows straight down |
| Catris.Game.constructor | src/content/catris/catris.js:16-38 | the grid is measured in 16-pixel tiles of the canvas and the game starts paused |
| Catris.Game.GetGrid | src/content/catris/catris.js:93-98 | the cell's byte through the bounds check, NONE off the grid |
| Catris.Game.SetGrid | src/content/catris/catris.js:87-91 | the array afterwards is `Put` of the old one |
| Catris.Game.Init | src/content/catris/catris.js:49-85 | a fresh grid holding exactly the frame, the two floor cats and the spawned piece, the cursor at the spawn point and one second until the next fall |
| Catris.Game.DrawFloor | src/content/catris/catris.js:63-66 | the loop turns the bottom row of an empty grid into wall and nothing else |
| Catris.Game.DrawSides | src/content/catris/catris.js:68-72 | the loop turns both side columns above the floor into wall, giving the whole frame |
| Catris.Game.PlaceCats | src/content/catris/catris.js:74-78 | exactly the four floor-cat cells are written |
| Catris.Game.SpawnBlock | src/content/catris/catris.js:338-357 | the cursor goes to (4, 0) and exactly the cells of the drawn piece are written |
| Catris.Game.MoveBlockLeft | src/content/catris/catris.js:189-214 | the new grid, cursor and return value are `Left`'s |
| Catris.Game.MoveBlockRight | src/content/catris/catris.js:219-246 | the new grid, cursor and return value are `Right`'s |
| Catris.Game.KillRow | src/content/catris/catris.js:307-312 | the loop empties exactly the cells of row `y` between the side walls |
| Catris.Game.RowComplete | src/content/catris/catris.js:321-327 | the inner loop with its early break answers whether every cell between the walls is occupied |
| Catris.Game.CheckForCompleteRows | src/content/catris/catris.js:317-333 | the grid afterwards is the cleared grid: complete rows above the floor emptied between the walls, nothing shifted down |
| Catris.Game.MoveBlockDown | src/content/catris/catris.js:252-289 | a resting piece triggers clearing and a new spawn (returning true); any other falls one row as `Fall` says; the timer restarts |
| Catris.Game.FallCells | src/content/catris/catris.js:270-285 | the writes of the fall branch give `Fall`'s grid and cursor |
| Catris.Game.Tick | src/content/catris/catris.js:161-169 | no time passing changes nothing; otherwise the timer runs down and, when it expires, one `moveBlockDown` happens; the timer is positive afterwards |
| Catris.Game.SpaceBar | src/content/catris/catris.js:402-408 | at most 256 falls, stopping at the first landing; the outcome is `Drop`'s, with the landing's clear and spawn when it lands |
| ChickenKeyboard.LowerChar | src/content/chicken-cave/keyboard.js:43 | `toLowerCase` on the ASCII range: a capital maps to its small letter, every other ASCII character is kept |
| ChickenKeyboard.Lower | src/content/chicken-cave/keyboard.js:43 | the ASCII lower-casing of a key name, character by character, of the same length |
| ChickenKeyboard.LowerIdempotent | src/content/chicken-cave/keyboard.js:43-57 | lower-casing twice is lower-casing once, and leaves no capital letter |
| ChickenKeyboard.TransitionsKeepInv | src/content/chicken-cave/keyboard.js:42-85 | keydown, keyup and tick each keep the invariant: only listened-for keys are tracked, and a key down since the last tick is held |
| ChickenKeyboard.InactiveIgnored | src/content/chicken-cave/keyboard.js:13-21 | a key outside the seven listened-for names changes nothing on keydown or keyup |
| ChickenKeyboard.PressReleaseTick | src/content/chicken-cave/keyboard.js:60-63 | a key pressed and released between two ticks is down, held and up for the next tick, and no longer held after it |
| ChickenKeyboard.HeldSurvivesTick | src/content/chicken-cave/keyboard.js:77-85 | a held key with no keyup since the last tick stays held through the tick |
| ChickenKeyboard.Keyboard.constructor | src/content/chicken-cave/keyboard.js:8-28 | the three sets start empty and the listeners are not attached |
| ChickenKeyboard.Keyboard.Init | src/content/chicken-cave/keyboard.js:30-40 | the two listeners are attached once, however often `init` runs; the key sets are untouched |
| ChickenKeyboard.Keyboard.OnKeyDown | src/content/chicken-cave/keyboard.js:42-53 | the sets become `KeyDown`'s, and the browser default is suppressed exactly for listened-for keys |
| ChickenKeyboard.Keyboard.OnKeyUp | src/content/chicken-cave/keyboard.js:55-67 | the sets become `KeyUp`'s, and the browser default is suppressed exactly for listened-for keys |
| ChickenKeyboard.Keyboard.Clear | src/content/chicken-cave/keyboard.js:70-74 | all three sets are empty afterwards |
| ChickenKeyboard.Keyboard.Tick | src/content/chicken-cave/keyboard.js:77-85 | the loop over the released keys leaves the sets `Ticked` describes |
| ChickenKeyboard.Keyboard.KeyIsDown | src/content/chicken-cave/keyboard.js:88-90 | true exactly for a key in the down set |
| ChickenKeyboard.Keyboard.KeyIsHeld | src/content/chicken-cave/keyboard.js:91-93 | true exactly for a key in the held set |
| ChickenKeyboard.Keyboard.KeyIsUp | src/content/chicken-cave/keyboard.js:94-96 | true exactly for a key in the up set |
| ChickenGame.Added | src/content/chicken-cave/game.js:44-50 | adding keeps the set of registries, and puts the object into "all" and into each registry one of its types names, leaving the rest alone |
| ChickenGame.Removed | src/content/chicken-cave/game.js:70-76 | deleting keeps the set of registries, and takes the object out of "all" and of each registry one of its types names, leaving the rest alone |
| ChickenGame.AddThenRemove | src/content/chicken-cave/game.js:35-79 | adding an object no registry holds and then deleting it restores every registry |
| ChickenGame.AddedMembership | src/content/chicken-cave/game.js:44-50 | after adding, the object is in a registry exactly when that is "all", one of its types, or it was there already |
| ChickenGame.RemovedMembership | src/content/chicken-cave/game.js:70-76 | after deleting, the object is in neither "all" nor any registry its types name |
| ChickenGame.Capped | src/content/chicken-cave/game.js:113-115 | the step passed on is positive, at most 0.02 and at most `dT`, and is `dT` itself unless `dT` exceeds 0.02 |
| ChickenGame.Register | src/content/chicken-cave/game.js:44-50 | the registry loop yields `Added`'s registries when adding and `Removed`'s when deleting |
| ChickenGame.Entity.constructor | src/content/chicken-cave/game.js:35-43 | a new entity keeps its role names and is not yet wired to a game |
| ChickenGame.Game.constructor | src/content/chicken-cave/game.js:8-33 | the six registries start empty and no time has elapsed |
| ChickenGame.Game.AddObject | src/content/chicken-cave/game.js:35-56 | the object is wired to this game and the registries become `Added`'s, and only then is its `init` called, which finds it wired and registered |
| ChickenGame.Game.DeleteObject | src/content/chicken-cave/game.js:58-79 | the object's `destroy` is called first, seeing it still wired and registered as before; then it is unwired and the registries become `Removed`'s |
| ChickenGame.Game.Update | src/content/chicken-cave/game.js:107-124 | a step that is not positive changes nothing; otherwise the elapsed time grows by the capped step and every member of "update" is updated with that step and the new elapsed time |
| ChickenLevelWalls.WallAt | src/content/chicken-cave/classes/LevelWalls.js:75-82 | `getWallAt` answers wall (1) for every cell off the grid |
| ChickenLevelWalls.WallCells | src/content/chicken-cave/classes/LevelWalls.js:67-82 | off the grid every cell is a wall; on it a cell is a wall exactly when it holds 1, so empty and shroom cells are not |
| ChickenLevelWalls.CeilingOnGrid | src/content/chicken-cave/classes/LevelWalls.js:67-69 | a cell with a ceiling above it is an open cell on the grid |
| ChickenLevelWalls.CellOfBounds | src/content/chicken-cave/classes/LevelWalls.js:84-92 | the cell `Math.floor(p * (1 / size))` spans the pixel `p` |
| ChickenLevelWalls.CellOrder | src/content/chicken-cave/classes/LevelWalls.js:114-124 | a pixel at or past the edge of cell `n` lies in cell `n` or later, one before it in an earlier cell |
| ChickenLevelWalls.WallCellPixelsSolid | src/content/chicken-cave/classes/LevelWalls.js:84-92 | every pixel of a wall cell is solid |
| ChickenLevelWalls.OffGridPixelsSolid | src/content/chicken-cave/classes/LevelWalls.js:84-92 | every pixel outside the grid's area is solid |
| ChickenLevelWalls.Resolve | src/content/chicken-cave/classes/LevelWalls.js:172-179 | `getCollisionAt` answers null unless at least one axis is corrected |
| ChickenLevelWalls.NextXWithinStep | src/content/chicken-cave/classes/LevelWalls.js:133-143 | the x correction lies within the step the box asked to take, never behind its start |
| ChickenLevelWalls.FinalYWithinStep | src/content/chicken-cave/classes/LevelWalls.js:146-168 | the y correction, on its axis or by the corner rule, lies within the step the box asked to take |
| ChickenLevelWalls.CollisionWithinStep | src/content/chicken-cave/classes/LevelWalls.js:100-180 | every correction the collision returns moves the box part of the way it asked to go, on both axes |
| ChickenLevelWalls.NoMoveNoCollision | src/content/chicken-cave/classes/LevelWalls.js:126-179 | a box that does not move has no collision |
| ChickenLevelWalls.LeftAndUpHits | src/content/chicken-cave/classes/LevelWalls.js:133-150 | a move left (up) across a cell edge into a wall in one of the box's rows (columns) stops the box at the edge of the cell it started in |
| ChickenLevelWalls.RightHit | src/content/chicken-cave/classes/LevelWalls.js:138-143 | a move right across a cell edge into a wall stops the box flush against the wall |
| ChickenLevelWalls.DownHit | src/content/chicken-cave/classes/LevelWalls.js:151-156 | a move down across a cell edge into a wall stops the box flush on the wall |
| ChickenLevelWalls.CornerPrefersY | src/content/chicken-cave/classes/LevelWalls.js:158-170 | when both axes cross an edge, neither collides alone and a destination corner is a wall, only y is corrected, towards the direction of travel |
| ChickenLevelWalls.RightCollisionAsWrittenGoesBack | src/content/chicken-cave/classes/LevelWalls.js:138-143 | the right-hand collision as written puts an 8 x 8 box moving right from x = 5 at x = -8, behind its start; the corrected rule stops it at x = 8 |
| ChickenLevelWalls.LevelWalls.constructor | src/content/chicken-cave/classes/LevelWalls.js:8-29 | missing options fall back to 12 x 50, no walls, 16-pixel blocks and no random fill; the drip timer starts at 0 |
| ChickenLevelWalls.LevelWalls.Init | src/content/chicken-cave/classes/LevelWalls.js:31-42 | a missing grid becomes all empty; a random level then holds `NoiseCell` at every cell |
| ChickenLevelWalls.LevelWalls.InitRandom | src/content/chicken-cave/classes/LevelWalls.js:44-58 | the nested loop leaves every cell as `NoiseCell` draws it |
| ChickenLevelWalls.LevelWalls.Destroy | src/content/chicken-cave/classes/LevelWalls.js:60-65 | the grid is dropped |
| ChickenLevelWalls.LevelWalls.Update | src/content/chicken-cave/classes/LevelWalls.js:206-213 | a running drip timer counts down by `dT`; an expired one sticks at -1; the grid is untouched |
| ChickenLevelWalls.NoiseCell | src/content/chicken-cave/classes/LevelWalls.js:52 | a cell is wall or empty, and a wall exactly when both noise samples exceed their thresholds (0 and 0.5) |
| ChickenParticles.ToByte | src/content/chicken-cave/classes/Particles.js:47 | a `Uint8Array` store keeps a byte and reduces any other value into 0..255 |
| ChickenParticles.DeadSlotUntouched | src/content/chicken-cave/classes/Particles.js:103-106 | a dead slot is skipped by `update` |
| ChickenParticles.OutOfBoundsKilled | src/content/chicken-cave/classes/Particles.js:120-124 | a live slot left of or above the level is killed where it is, keeping its position and velocity |
| ChickenParticles.FreeFlight | src/content/chicken-cave/classes/Particles.js:126-195 | a live slot inside stays alive; in open space it moves by exactly its velocity times dT and only its y velocity changes, by 256 dT of gravity |
| ChickenParticles.WallSnapsX | src/content/chicken-cave/classes/Particles.js:131-138 | a slot whose x destination is solid ends on the nearest 16-pixel edge to where it was, less the step it would have taken |
| ChickenParticles.BorderSnapsX | src/content/chicken-cave/classes/Particles.js:131-138 | in a walled level a slot about to leave through the left or right border is snapped back the same way |
| ChickenParticles.StepAsWritten | src/content/chicken-cave/classes/Particles.js:161-188 | whenever the update as written does not throw, it agrees with `Step` |
| ChickenParticles.PlayerCheckThrows | src/content/chicken-cave/classes/Particles.js:161-163 | a single live particle at (10, 10) in slot 0 updates once and then throws on the next update, when its half of the pool is checked against the missing "player" registry |
| ChickenParticles.MoveLive | src/content/chicken-cave/classes/Particles.js:126-195 | the in-place adjustments of the loop body give the slot `Moved` describes |
| ChickenParticles.Particles.constructor | src/content/chicken-cave/classes/Particles.js:8-23 | the pool starts with no buffers, the ring at slot 0 and step 0 |
| ChickenParticles.Particles.Init | src/content/chicken-cave/classes/Particles.js:25-32 | 1024 fresh dead slots at the origin at rest, the ring at slot 0 |
| ChickenParticles.Particles.Spawn | src/content/chicken-cave/classes/Particles.js:42-59 | slot `index` receives the new particle (its type stored as a byte), no other slot changes, and the ring advances, wrapping to 0 after slot 1023 |
| ChickenParticles.Particles.ParticleIsAlive | src/content/chicken-cave/classes/Particles.js:65-67 | a slot is alive exactly when it is in the pool and its type is positive |
| ChickenParticles.Particles.KillParticle | src/content/chicken-cave/classes/Particles.js:69-78 | only the slot's type changes, to NONE; position and velocity stay and every other slot is kept |
| ChickenParticles.Particles.Update | src/content/chicken-cave/classes/Particles.js:99-199 | the step flips between 0 and 1 and every slot takes exactly one `Step` with its own random draws |
| ChickenParticles.Particles.UpdateSlot | src/content/chicken-cave/classes/Particles.js:104-195 | one loop iteration replaces slot `n` by its `Step` and keeps every other slot |
| ChickenParticlesGlsl.DrawDecodeIsShifted | src/content/chicken-cave/classes/ParticlesGLSL.js:173-175 | the draw shader's `decode` (lines 251-253) reads every stored value half a unit higher than the step shader's |
| ChickenParticlesGlsl.ByteValueOf | src/content/chicken-cave/classes/ParticlesGLSL.js:182-187 | a whole number k in 0..255 of 1/256 steps is a byte value in [0, 1) |
| ChickenParticlesGlsl.EncodeChannels | src/content/chicken-cave/classes/ParticlesGLSL.js:177-190 | for a value in the encodable range [-0.5, 0.5) both channels of `encode` are whole byte steps in [0, 1) |
| ChickenParticlesGlsl.DecodeEncode | src/content/chicken-cave/classes/ParticlesGLSL.js:173-190 | `decode(encode(f))` loses less than 1/65536 of `f` and never rounds up |
| ChickenParticlesGlsl.DecodeEncodeChannel | src/content/chicken-cave/classes/ParticlesGLSL.js:192-198 | both components survive `decodeChannel(encodeChannel(v))` to within 1/65536, never rounded up |
| ChickenParticlesGlsl.StoredByteStep | src/content/chicken-cave/classes/ParticlesGLSL.js:177-190 | an encoded channel k/256 is stored as k/255 for k up to 128 and as (k - 1)/255 above, so the texture does not hold what `encode` wrote |
| ChickenParticlesGlsl.KeptBounds | src/content/chicken-cave/classes/ParticlesGLSL.js:173-198 | a value encoded, stored in 8 bits and decoded comes back within 1/500 when in [-0.5, 0.5); below -0.5 it saturates in [-0.5, -0.5 + 1/256), and from 0.5 on in [0.5, 0.5 + 1/256) |
| ChickenParticlesGlsl.KeptDrifts | src/content/chicken-cave/classes/ParticlesGLSL.js:173-198 | 0 comes back as 1/510 and 1/510 as 1/255: a value the shader passes through unchanged drifts upward from frame to frame |
| ChickenParticlesGlsl.StepTexelAt | src/content/chicken-cave/classes/ParticlesGLSL.js:209-233 | pixel (x, y) of the rendered texture holds the 8-bit store of the step shader's output at that pixel |
| ChickenParticlesGlsl.PositionColumns | src/content/chicken-cave/classes/ParticlesGLSL.js:200-202 | the pixel centred in column x is a position exactly when x is even |
| ChickenParticlesGlsl.StepMovesPositions | src/content/chicken-cave/classes/ParticlesGLSL.js:210-220 | after a step a position pixel reads back as its position moved by the velocity one pixel to its right times dt, as encoded, stored in 8 bits and decoded: within 1/500 when that lies in [-0.5, 0.5) |
| ChickenParticlesGlsl.StepPullsVelocities | src/content/chicken-cave/classes/ParticlesGLSL.js:221-232 | after a step a velocity pixel reads back as its x velocity and its y velocity less 256 dt, as encoded, stored in 8 bits and decoded; a y velocity pulled below -0.5 saturates within 1/256 above -0.5 |
| ChickenParticlesGlsl.PosValueAt | src/content/chicken-cave/classes/ParticlesGLSL.js:43-49 | iteration (x, y) of the position loop writes x then y at index 256 y + 2 x |
| ChickenParticlesGlsl.PositionBuffer | src/content/chicken-cave/classes/ParticlesGLSL.js:42-49 | the nested loop fills the 32768-entry buffer with `PosValue`, the writes past its end being dropped |
| ChickenParticlesGlsl.BufferCoversDrawnPoints | src/content/chicken-cave/classes/ParticlesGLSL.js:42-105 | every one of the 16384 drawn points has its pair in the buffer: column k mod 128 of row k div 128 |
| ChickenParticlesGlsl.RandomTexture | src/content/chicken-cave/classes/ParticlesGLSL.js:53-62 | w h 4 fresh bytes, each the floor of 256 times its random draw, all within 0..255 |
| ChickenParticlesGlsl.Pool.constructor | src/content/chicken-cave/classes/ParticlesGLSL.js:8-14 | the two textures start alike |
| ChickenParticlesGlsl.Pool.Init | src/content/chicken-cave/classes/ParticlesGLSL.js:33-50 | the front texture holds the random bytes over 255, the back one is all zero, and the position buffer is `PositionBuffer`'s |
| ChickenParticlesGlsl.Pool.Update | src/content/chicken-cave/classes/ParticlesGLSL.js:109-142 | the front texture becomes the 8-bit stored step of the old front, and the back one the old front |
| ChickenWaterfall.DivBounds | src/content/chicken-cave/classes/Waterfall.js:98-103 | bounds on the number of rewinds, as a quotient of the timer by the rate, carry over to the timer itself |
| ChickenWaterfall.SpawnCountIsLeast | src/content/chicken-cave/classes/Waterfall.js:98-103 | the loop runs the least number of times that brings the timer back to zero or above |
| ChickenWaterfall.NextStaysWithinRate | src/content/chicken-cave/classes/Waterfall.js:91-103 | a timer within [0, rate] before a non-negative step is within [0, rate] after the loop |
| ChickenWaterfall.Waterfall.constructor | src/content/chicken-cave/classes/Waterfall.js:8-31 | missing options default to the origin, at rest, no random range and a rate of 1; the timer starts one interval away |
| ChickenWaterfall.Waterfall.SpawnOf | src/content/chicken-cave/classes/Waterfall.js:64-79 | each particle entity receives a water particle with the waterfall's velocity at the floor of the position, jittered only along an axis whose range is non-zero |
| ChickenWaterfall.Waterfall.Spawn | src/content/chicken-cave/classes/Waterfall.js:61-82 | one call per particle entity, in order, the j-th with the j-th draws |
| ChickenWaterfall.Waterfall.Update | src/content/chicken-cave/classes/Waterfall.js:91-107 | nothing for a rate that is not positive; otherwise the timer ends at the least rewind count that makes it non-negative, with one spawn round per rewind |
| ChickenGraphics.VisibleIffMeetsCanvas | src/content/chicken-cave/graphics.js:200-203 | a rectangle of positive size is drawn exactly when it meets the canvas along both axes |
| ChickenGraphics.CullingFollowsCamera | src/content/chicken-cave/graphics.js:194-203 | moving the camera and a tile by the same amount leaves the tile's visibility unchanged |
| ChickenGraphics.Graphics.constructor | src/content/chicken-cave/graphics.js:8-17 | no context, the camera at the origin and an empty image cache |
| ChickenGraphics.Graphics.Init | src/content/chicken-cave/graphics.js:19-56 | a second call changes nothing; a first call puts the camera at the origin and takes the context, throwing exactly when the browser has no WebGL |
| ChickenGraphics.Graphics.LoadImage | src/content/chicken-cave/graphics.js:161-178 | the load starts and the source is marked as loading in the cache |
| ChickenGraphics.Graphics.OnLoad | src/content/chicken-cave/graphics.js:163-170 | the loading mark becomes the texture; nothing else changes |
| ChickenGraphics.Graphics.DrawTile | src/content/chicken-cave/graphics.js:194-234 | the tile is drawn exactly when its camera-relative rectangle is visible |
| ChickenGraphics.Graphics.DrawTileLazy | src/content/chicken-cave/graphics.js:180-192 | a loaded source is drawn when visible; a loading one is not drawn and starts nothing; an unknown one starts its load and is not drawn |
| ChickenGraphics.Graphics.OnError | src/content/chicken-cave/graphics.js:171-173 | the error handler only logs: the cache and the loads started are unchanged, so a source whose image failed stays marked as loading and `drawTileLazy` never retries it |
| ByteTexel.Clamp01 | src/content/webgl-maze-generator/MazeGenerator.js:287 | a channel written to an 8-bit target is first clamped: the result lies in [0, 1], is 0 below and 1 above, and a channel already in [0, 1] is kept |
| ByteTexel.Level | src/content/webgl-maze-generator/MazeGenerator.js:287 | the byte written for a shader output channel lies in 0..255 |
| ByteTexel.Stored | src/content/webgl-maze-generator/MazeGenerator.js:287 | an RGBA/UNSIGNED_BYTE texel channel holds a whole number of 255ths, the nearest to the clamped shader output (within 1/510, halves up), and a value that already is one is kept unchanged |
| ByteTexel.StoredMonotone | src/content/webgl-maze-generator/MazeGenerator.js:287 | storing never swaps the order of two outputs |
| ByteTexel.StoredExtremes | src/content/webgl-maze-generator/MazeGenerator.js:287 | a channel is stored as 1 exactly when the output is at least 509/510 (254.5/255), and as 0 exactly when it is below 1/510 |
| ByteTexel.StoredHalf | src/content/webgl-game-of-life/gol.js:249 | the grey 0.5 a shader outputs is stored as 128/255, not 1/2 |
| ByteTexel.StoredColor | src/content/webgl-game-of-life/gol.js:249 | a stored colour holds bytes on all four channels, and a colour of bytes is stored unchanged |
| PowerOfTwo.BitAndSelf | src/content/webgl-game-of-life/gol.js:60 | a number and'ed with itself is that number |
| PowerOfTwo.Log2Pow2 | src/content/webgl-game-of-life/gol.js:60 | the logarithm of 2^k is k |
| PowerOfTwo.BitAndPredecessor | src/content/webgl-game-of-life/gol.js:59-61 | a positive v shares no bit with v - 1 exactly when v is a power of two |
| PowerOfTwo.IsPowerOf2Iff | src/content/webgl-game-of-life/gol.js:59-61 | below 2^32, `isPowerOf2` accepts exactly the positive powers of two |
| PowerOfTwo.AcceptsAbove32Bits | src/content/webgl-game-of-life/gol.js:59-61 | above 32 bits the test lets a non-power through: 2^32 + 1 passes |
| WebglHost.CanvasSizeChecks | src/content/webgl-maze-generator/MazeGenerator.js:87-98 | a missing canvas is reported first; otherwise the canvas size is taken exactly when both sides are powers of two, and the only other outcome is the power-of-two error |
| WebglHost.AtOwnTexel | src/content/webgl-maze-solving/Example2Breadth.js:28-30 | the offset (0, 0) reads the fragment's own texel |
| WebglHost.RowMajor | src/content/webgl-maze-solving/Example2Breadth.js:304-316 | pixel (x, y) of a w by h image lies within the image's w h pixels |
| WebglHost.TextureOf | src/content/webgl-maze-solving/Example2Breadth.js:304-316 | the texture uploaded from a w h 4 byte array has h rows of w texels |
| WebglHost.Blank | src/content/webgl-maze-solving/Example2Breadth.js:304-316 | a texture created without data is w by h, all zero, and so holds bytes |
| WebglHost.SetPixel | src/content/webgl-maze-solving/Example2Breadth.js:263-268 | a one-texel upload changes exactly texel (x, y), and nothing when (x, y) is outside; a byte colour written into a texture of bytes leaves one of bytes |
| WebglHost.Render | src/content/webgl-maze-generator/MazeGenerator.js:296-340 | a draw of a step shader into a w by h target yields a texture of that shape |
| WebglHost.RenderedTexels | src/content/webgl-maze-generator/MazeGenerator.js:287 | each texel of the drawn target holds the 8-bit store of the shader's output for it, so the target holds bytes |
| WebglGol.DimensionsChecks | src/content/webgl-game-of-life/gol.js:70-90 | a missing canvas is reported first; a present non-zero option wins over the canvas size; the size is accepted exactly when both chosen sides are powers of two |
| WebglGol.FragmentIsConway | src/content/webgl-game-of-life/gol.js:17-36 | on a cell reading 0 or 1 the step shader outputs grey 0.5 with alpha 0 or 1, and alpha 1 exactly when Conway's B3/S23 rule keeps or makes the cell live |
| WebglGol.CurrentIsBit | src/content/webgl-game-of-life/gol.js:13-15 | on a board `get(0, 0)` reads the cell as 1 when live and 0 when dead |
| WebglGol.LifeStep | src/content/webgl-game-of-life/gol.js:6-36 | one pass of the step shader into the target keeps the texture's shape |
| WebglGol.StoredFragmentIsConway | src/content/webgl-game-of-life/gol.js:17-36 | on a cell reading 0 or 1 the stored output of the step shader is grey 128/255 with alpha 0 or 1, and alpha 1 exactly under Conway's B3/S23 rule |
| WebglGol.LifeStepCell | src/content/webgl-game-of-life/gol.js:6-36 | on a board, cell (x, y) of the stored step is grey 128/255 with alpha 1 exactly when Conway's rule keeps or makes it live |
| WebglGol.LifeStepIsConway | src/content/webgl-game-of-life/gol.js:6-36 | on a board one stored step is Conway's rule for the eight-neighbour count on every cell, and yields again a board (grey 128/255, the grey of the random start) of the same shape |
| WebglGol.EdgesWrap | src/content/webgl-game-of-life/gol.js:13-15 | the board is a torus: with REPEAT wrap the neighbours past each edge are the cells of the opposite edge |
| WebglGol.RandomTexture | src/content/webgl-game-of-life/gol.js:219-233 | the loop writes four bytes per pixel: grey 128, and the pixel's draw decides its alpha |
| WebglGol.RandomPixels | src/content/webgl-game-of-life/gol.js:225 | each alpha is 0 or 255, and 255 exactly when the draw is below one half |
| WebglGol.RandomTextureIsBoard | src/content/webgl-game-of-life/gol.js:219-233 | the uploaded random texture is a board whose cell is live exactly when its draw was below one half |
| WebglGol.RandomBoard | src/content/webgl-game-of-life/gol.js:219-233 | `_createRandomTexture` yields a board of the canvas shape, live exactly where the draw was below one half |
| WebglGol.Gol.constructor | src/content/webgl-game-of-life/gol.js:70-90 | past its checks the game keeps the chosen size and has no textures yet |
| WebglGol.Gol.Init | src/content/webgl-game-of-life/gol.js:96-126 | fails exactly when WebGL is unavailable, changing nothing; otherwise the front holds the random board, the back is blank and the step count is 0 |
| WebglGol.Gol.Step | src/content/webgl-game-of-life/gol.js:258-302 | the count goes up by one and the newest texture is the Conway step of the previous newest; the other texture is untouched |
| WebglGol.Gol.Draw | src/content/webgl-game-of-life/gol.js:258-298 | the canvas shows the newest state |
| DistGol.Side | dist/projects/game-of-life/gol.js:117-119 | a zero side falls back to 64; any other side is kept |
| DistGol.NewTexture | dist/projects/game-of-life/gol.js:117-129 | a new texture has the fallen-back size and is all zero |
| DistGol.Swapped | dist/projects/game-of-life/gol.js:163-168 | `swap` exchanges front and back |
| DistGol.SwappedTwice | dist/projects/game-of-life/gol.js:163-168 | swapping twice gives the textures back |
| DistGol.RandomBytes | dist/projects/game-of-life/gol.js:137-151 | the loop gives all four bytes of pixel i the byte of the i-th draw |
| DistGol.OnBytes | dist/projects/game-of-life/gol.js:138-146 | every byte is 0 or 255, and 255 exactly when its draw is below the chance (one half when none is given) |
| DistGol.Gol.constructor | dist/projects/game-of-life/gol.js:11-51 | without a canvas or WebGL nothing is set; otherwise the size is the drawing buffer's, the back texture is blank, the timer is null and the front is filled at random with chance one half, each pixel's four bytes alike (red, green, blue and alpha all 0 or all 255) |
| DistGol.Gol.SetRandom | dist/projects/game-of-life/gol.js:137-156 | the front texture's size-wide region takes the random bytes; an empty size writes nothing; nothing else changes |
| DistGol.Gol.Swap | dist/projects/game-of-life/gol.js:163-168 | the textures are swapped and nothing else changes |
| DistGol.Gol.Step | dist/projects/game-of-life/gol.js:176-208 | the front becomes the shader's output on the old front and the back the old front |
| DistGol.Gol.Start | dist/projects/game-of-life/gol.js:247-258 | a new interval only when none is running |
| DistGol.Gol.Stop | dist/projects/game-of-life/gol.js:265-269 | the timer is nulled |
| DistGol.Gol.Toggle | dist/projects/game-of-life/gol.js:276-278 | a stopped animation starts and a running one stops |
| FloodFill.RandComponent | src/content/webgl-maze-solving/Example2Breadth.js:17-19 | a varied channel lies in [0.01, 0.99], and is the channel moved by the noise whenever that stays within the clamp |
| FloodFill.RandColorIsColoured | src/content/webgl-maze-solving/Example2Breadth.js:21-26 | a varied colour is always of class 2 (neither white nor black) and keeps its alpha |
| FloodFill.FirstColoured | src/content/webgl-maze-solving/Example2Breadth.js:52-73 | the reference: the first of the four neighbours, in the shader's order, whose class is 2, or none |
| FloodFill.StepCellIsFlood | src/content/webgl-maze-solving/Example2Breadth.js:46-75 | a cell that is not white keeps its colour; a white one takes the varied colour of its first coloured neighbour, and stays white when there is none |
| FloodFill.StepCellClasses | src/content/webgl-maze-solving/Example2Breadth.js:46-75 | black walls and coloured cells never change, and a white cell stays white or becomes coloured |
| FloodFill.FloodStep | src/content/webgl-maze-solving/Example2Breadth.js:46-75 | one pass keeps the texture's shape and leaves bytes in every texel |
| FloodFill.StoredVariedIsColoured | src/content/webgl-maze-solving/Example2Breadth.js:17-26 | a varied colour is still of class 2 (neither white nor black) once stored in 8 bits |
| FloodFill.FloodStepGrows | src/content/webgl-maze-solving/Example2Breadth.js:46-75 | over a texture of bytes the stored step changes only white cells, each staying white or turning coloured, so the coloured region only grows |
| FloodFill.Example2Breadth.constructor | src/content/webgl-maze-solving/Example2Breadth.js:109-129 | past its checks the demo keeps the canvas size, is not loaded and has taken no step |
| FloodFill.Example2Breadth.Init | src/content/webgl-maze-solving/Example2Breadth.js:135-169 | fails without WebGL or when the maze image does not load; otherwise the front is the image's decoded 8-bit pixels with the red seed at (2, 2), the back is blank, and the demo is loaded and paused |
| FloodFill.Example2Breadth.Step | src/content/webgl-maze-solving/Example2Breadth.js:322-366 | the parity is read before the count goes up, and the newest texture is the stored flood step of the previous newest |
| FloodFill.Example2Breadth.Draw | src/content/webgl-maze-solving/Example2Breadth.js:322-362 | the canvas shows the newest state |
| FloodFill.Example2Breadth.Play | src/content/webgl-maze-solving/Example2Breadth.js:368-376 | nothing unless loaded and paused; then an interval starts and the demo plays |
| FloodFill.Example2Breadth.Pause | src/content/webgl-maze-solving/Example2Breadth.js:378-386 | the demo is paused afterwards; the interval id is kept |
| FloodFill.SeedIsColoured | src/content/webgl-maze-solving/Example2Breadth.js:158 | the red seed is coloured, so a loaded maze has a cell at (2, 2) to flood from |
| MazeGen.OnlyOneFloorIsCountOne | src/content/webgl-maze-generator/MazeGenerator.js:41-46 | the shader's four disjuncts hold exactly when one of the four neighbours is floor |
| MazeGen.StepCellRule | src/content/webgl-maze-generator/MazeGenerator.js:29-53 | the shader's output, before the 8-bit store: floor and border cells keep their colour; a wall with exactly one floor neighbour outputs its colour brightened by half the noise on every channel; any other wall outputs opaque black |
| MazeGen.BrightenedIsFloor | src/content/webgl-maze-generator/MazeGenerator.js:47 | a brightened wall is stored as white floor exactly when every channel plus the amount reaches 509/510, that is 254.5/255, not 1 |
| MazeGen.BrightenIsBrighter | src/content/webgl-maze-generator/MazeGenerator.js:47 | for a texel of bytes, the stored brightened colour lowers no channel by a non-negative amount and stays a colour of bytes; an opaque texel stays opaque |
| MazeGen.MazeStep | src/content/webgl-maze-generator/MazeGenerator.js:29-53 | one pass keeps the texture's shape |
| MazeGen.MazeStepCell | src/content/webgl-maze-generator/MazeGenerator.js:29-53 | in the stored step a floor or border cell keeps its colour; a wall with exactly one floor neighbour holds its stored brightened colour, which is floor exactly when every channel plus the amount reaches 509/510; any other wall is opaque black |
| MazeGen.MazeStepKeepsNonWalls | src/content/webgl-maze-generator/MazeGenerator.js:29-53 | floor cells and the red border never change, so the floor only grows |
| MazeGen.RowMajorDivMod | src/content/webgl-maze-generator/MazeGenerator.js:259 | the byte offset of (w, h) decomposes back into its column and row |
| MazeGen.WriteBlackPixel | src/content/webgl-maze-generator/MazeGenerator.js:261-264 | one iteration writes red as given, green and blue 0, alpha 255 for its pixel and touches no other byte |
| MazeGen.FillPixel | src/content/webgl-maze-generator/MazeGenerator.js:258-265 | after the inner loop's iteration at (col, row) every pixel up to it is written as `_setBlack` intends |
| MazeGen.SetBlackBytes | src/content/webgl-maze-generator/MazeGenerator.js:252-266 | the two loops write every pixel: red 255 on the border and 0 inside, green and blue 0, alpha 255 |
| MazeGen.Start | src/content/webgl-maze-generator/MazeGenerator.js:134-138 | the starting texture has the canvas shape |
| MazeGen.SetBlackTexture | src/content/webgl-maze-generator/MazeGenerator.js:135-137 | the uploaded bytes with the white pixel at (1, 1) make exactly the starting texture |
| MazeGen.StartCells | src/content/webgl-maze-generator/MazeGenerator.js:134-138 | in the starting texture (1, 1) is the only floor, the border is red and so not wall, and every other inner cell is a black wall |
| MazeGen.MazeGenerator.constructor | src/content/webgl-maze-generator/MazeGenerator.js:87-107 | past its checks the generator keeps the canvas size, is not loaded and has taken no step |
| MazeGen.MazeGenerator.Init | src/content/webgl-maze-generator/MazeGenerator.js:113-148 | fails exactly when WebGL is unavailable, changing nothing; otherwise the front is the starting texture, the back is blank, and the generator is loaded and paused |
| MazeGen.MazeGenerator.Step | src/content/webgl-maze-generator/MazeGenerator.js:296-340 | the parity is read before the count goes up, and the newest texture is the stored maze step of the previous newest |
| MazeGen.MazeGenerator.Draw | src/content/webgl-maze-generator/MazeGenerator.js:296-336 | the canvas shows the newest state |
| MazeGen.MazeGenerator.Play | src/content/webgl-maze-generator/MazeGenerator.js:342-350 | nothing unless loaded and paused; then an interval starts and the generator plays |
| MazeGen.MazeGenerator.Pause | src/content/webgl-maze-generator/MazeGenerator.js:352-360 | the generator is paused afterwards; the interval id is kept |
| BreadthDemo.MazeTextRows | src/content/webgl-maze-solving/Example1Breadth.js:25-29 | `split('\n')` cuts the maze literal into its five rows |
| BreadthDemo.ParseMaze | src/content/webgl-maze-solving/Example1Breadth.js:25-29 | the parsed grid is the five rows of the literal, in order |
| BreadthDemo.JoinedRows | src/content/webgl-maze-solving/Example1Breadth.js:25-29 | joining the rows with newlines gives the literal back |
| BreadthDemo.StartIsEntrance | src/content/webgl-maze-solving/Example1Breadth.js:25-31 | the queued start (0, 1) is the maze's entrance 'e', on a 5 by 5 grid |
| BreadthDemo.RowRects | src/content/webgl-maze-solving/Example1Breadth.js:57-71 | row y yields one rectangle per cell |
| BreadthDemo.RenderedLength | src/content/webgl-maze-solving/Example1Breadth.js:56-73 | every cell is painted exactly once: the rectangles number as many as the cells |
| BreadthDemo.RenderedPrefix | src/content/webgl-maze-solving/Example1Breadth.js:56-73 | the rectangles of the earlier rows come first, unchanged, as later rows are painted |
| BreadthDemo.RenderedMaze | src/content/webgl-maze-solving/Example1Breadth.js:47-74 | the maze renders as 25 rectangles, the entrance (0, 1) red and the corner (0, 0) white |
| BreadthDemo.Example1Breadth.constructor | src/content/webgl-maze-solving/Example1Breadth.js:8-21 | past the canvas check the demo is reset and not playing |
| BreadthDemo.Example1Breadth.Reset | src/content/webgl-maze-solving/Example1Breadth.js:23-32 | the grid is the parsed maze and the queue holds the entrance only |
| BreadthDemo.Example1Breadth.Play | src/content/webgl-maze-solving/Example1Breadth.js:34-39 | reset, then playing |
| BreadthDemo.Example1Breadth.Step | src/content/webgl-maze-solving/Example1Breadth.js:41-45 | `step` changes nothing |
| BreadthDemo.Example1Breadth.Render | src/content/webgl-maze-solving/Example1Breadth.js:47-74 | the two loops paint the rectangles `Rendered` lists: rows top to bottom, cells left to right |
| BreadthDemo.New | src/content/webgl-maze-solving/Example1Breadth.js:8-21 | a missing canvas throws; otherwise a fresh demo over that canvas, reset and not playing |
| SiteCommon.Classes | src/common.js:49-51 | `getClasses` gives no classes for an empty `className` and otherwise its space-separated pieces, which contain no space and join back to the `className` |
| SiteCommon.ClassesOfJoin | src/lib/common.js:13-15 | splitting the join of space-free names (other than the single empty name) gives the names back |
| SiteCommon.Add | src/common.js:52-61 | `addClass` reports a change exactly when the class is absent, and an unchanged `className` otherwise |
| SiteCommon.AddedClasses | src/lib/common.js:16-25 | after adding an absent class name, the class list is the old one with that name last |
| SiteCommon.Remove | src/common.js:62-71 | `removeClass` reports a change exactly when the class is present, and an unchanged `className` otherwise |
| SiteCommon.RemovedClasses | src/lib/common.js:26-35 | removing a present class takes out exactly one occurrence of it: the class multiset loses one copy and the list one element |
| SiteCommon.Toggle | src/common.js:153-163 | `toggleClass` reports true exactly when the class was absent |
| SiteCommon.ToggleIsAddOrRemove | src/lib/common.js:117-127 | toggling is `addClass` on an absent class and `removeClass` (reporting false) on a present one |
| SiteCommon.ToggleTwice | src/lib/common.js:36-46 | toggling an absent class twice gives the `className` back and reports false the second time |
| SiteCommon.Element.constructor | src/common.js:49-51 | an element starts with the given `className` |
| SiteCommon.Element.AddClass | src/common.js:52-61 | the element's new `className` and result are those of `Add` on the old `className` |
| SiteCommon.Element.RemoveClass | src/common.js:62-71 | the element's new `className` and result are those of `Remove` on the old `className` |
| SiteCommon.Element.ToggleClass | src/common.js:153-163 | the element's new `className` and result are those of `Toggle`; this later definition overrides the one at lines 72-82, which behaves the same |
| SiteCommon.Storage.constructor | src/common.js:87-95 | storage starts with the given access flag and items |
| SiteCommon.ThemeItems | src/common.js:96-107 | after a toggle the theme key holds 'dark' exactly when 'dark' was added, is absent when it was removed, and no other key changes |
| SiteCommon.ThemePersists | src/lib/common.js:51-71 | a toggle that turns 'dark' on stores it so the next `loadTheme` appends 'dark' to the new body's classes; one that turns it off leaves nothing stored |
| SiteCommon.LoadTheme | src/common.js:87-95 | `loadTheme` adds 'dark' to the body when storage is accessible and says 'dark', and otherwise leaves the body unchanged (a storage error is swallowed) |
| SiteCommon.ToggleTheme | src/common.js:96-107 | `toggleTheme` toggles 'dark' on the body, then sets or removes the stored theme accordingly when storage is accessible, touching no other key |
| BuildScript.GetExtension | node-scripts/rundev.js:68-76 | `getExtension` is '' for a non-string and for a string with no '.', and otherwise a suffix of the string that starts with '.' and holds no other '.' |
| BuildScript.ExtensionOfSuffix | node-scripts/rundev.js:68-76 | a string ending in a suffix that starts with its only '.' has exactly that suffix as its extension |
| BuildScript.ReplaceSuffix | node-scripts/rundev.js:142-147 | `replace(/\.ext$/, repl)` swaps the suffix for `repl` when the path ends with it and leaves the path alone otherwise |
| BuildScript.OutPathOfSource | node-scripts/rundev.js:139-174 | for a file at `p` under '../src' written under '../dist', a '.tmpl' file is written as '.html', a '.less' file as '.css', and every other file keeps its relative path |
| BuildScript.RenamedOut | node-scripts/rundev.js:139-174 | a source path ending in a five-character extension has that extension and its output path ends in it too, so the rewrite applies |
| BuildScript.SourceSuffix | node-scripts/rundev.js:169-174 | a five-character extension of a '../src' path is a suffix of its relative part |
| BuildScript.Dirs | node-scripts/rundev.js:17-18 | the directories above a file are its '/'-separated components without the last |
| BuildScript.PrefixesOfPath | node-scripts/rundev.js:17-21 | the prefixes visited grow one component at a time, shortest first, and each is followed in the path by '/' |
| BuildScript.FileSystem.constructor | node-scripts/rundev.js:15-35 | the file system starts with the given entries |
| BuildScript.EnsureDirectoryForFile | node-scripts/rundev.js:15-35 | the prefixes visited are the '/'-joined directory prefixes in order; on success all of them are directories; it fails exactly when a visited prefix was a file, which is the last one visited; only missing prefixes are created and existing entries keep their kind |
| BuildScript.FindFrom | node-scripts/rundev.js:89-91 | the first occurrence of a marker at or after a position, or -1 when there is none |
| BuildScript.FindLast | node-scripts/rundev.js:89-91 | the last occurrence of a marker at or after a position, or -1 when there is none |
| BuildScript.Capture | node-scripts/rundev.js:89-91 | a section matches exactly when its start marker occurs and an end marker follows it; the capture runs from the first start marker to the last end marker after it (the greedy dot-all match) |
| BuildScript.NoMarkersEmpty | node-scripts/rundev.js:94-96 | a page without a start marker contributes '' for that section |
| BuildScript.ReplaceFirst | node-scripts/rundev.js:93-96 | the intended substitution: the first occurrence of a placeholder is replaced by the text as it is, and a template without the placeholder is unchanged |
| BuildScript.ExpandPlain | node-scripts/rundev.js:93-96 | replacement text without '$' is inserted unchanged by the `replace` pattern expansion |
| BuildScript.ReplaceAsWrittenPlain | node-scripts/rundev.js:93-96 | for a section without '$', `replace` as written agrees with the intended substitution |
| BuildScript.DollarsCollapse | node-scripts/rundev.js:93-96 | a script section 'a$$b' reaches the page as 'a$b' as written, and as 'a$$b' under the intended substitution |
| BuildScript.SubstitutePlain | node-scripts/rundev.js:89-96 | for a page none of whose three sections holds '$', the page as written equals the intended one |
| MimeType.TrimSlashes | node-scripts/lib/getMimeTypeFromExtension.js:21 | `path.extname` ignores trailing '/'s: the result is a prefix of the path that does not end in '/' |
| MimeType.Extname | node-scripts/lib/getMimeTypeFromExtension.js:21 | `path.extname` is '' or starts with '.' |
| MimeType.Lookup | node-scripts/lib/getMimeTypeFromExtension.js:8-27 | the lookup never gives '': the table entry for a listed extension and 'application/octet-stream' for any other |
| MimeType.MimeType | node-scripts/lib/getMimeTypeFromExtension.js:19-28 | the MIME type is never empty; a non-string gives 'application/octet-stream'; a string gives the table entry of its extension without the '.', or 'application/octet-stream' when that is not listed |
| MimeType.TableEntries | node-scripts/lib/getMimeTypeFromExtension.js:8-16 | both 'jpg' and 'jpeg' give 'image/jpeg', each listed extension gives its own entry, and an upper-case or empty extension is not found |
| MimeType.NamedFile | node-scripts/lib/getMimeTypeFromExtension.js:21 | a plain `name.ext` has extension '.ext', and without the '.' exactly 'ext' |
| MimeType.NamedLookup | node-scripts/lib/getMimeTypeFromExtension.js:19-27 | a plain `name.ext` is served by the table entry for 'ext' |
| MimeType.NoDotNoExtension | node-scripts/lib/getMimeTypeFromExtension.js:21-27 | a name without '.' has no extension and is served as 'application/octet-stream' |
| MimeType.InheritedKeyServed | node-scripts/lib/getMimeTypeFromExtension.js:22 | as written, a file named 'x.constructor' finds `Object`'s inherited `constructor` in the table and serves it as its type, where 'application/octet-stream' is meant |
| MimeType.AsWrittenAgrees | node-scripts/lib/getMimeTypeFromExtension.js:19-28 | outside the inherited property names, the lookup as written serves exactly what the own-key lookup does |
| FluidCore.Capped | src/content/webgl-fluid/liquid.js:307-310 | the integrated step never exceeds 0.02; a step at or below it (a negative one included) is kept, a larger one becomes 0.02, and a nonzero step stays nonzero |
| FluidCore.GradientRange | src/content/webgl-fluid/liquid.js:379-380 | within the radius, `1 - len / R` lies in [0, 1] and is 0 exactly at the radius |
| FluidCore.WeightInRange | src/content/webgl-fluid/liquid.js:362-380 | for a particle inside the circle of radius R, its distance is at most R and its weight lies in [0, 1], 0 exactly on the circle |
| FluidCore.NeighbourList | src/content/webgl-fluid/liquid.js:354-394 | the neighbour list of particle i holds only indices below the particle count and never i |
| FluidCore.NeighbourListFacts | src/content/webgl-fluid/liquid.js:354-394 | every recorded neighbour passes all the scan's tests (another particle, inside the box and the circle, weight neither 0 nor NaN), each once in increasing order, and there are at most count - 1 of them |
| FluidCore.NeighbourListComplete | src/content/webgl-fluid/liquid.js:354-394 | every particle that passes the scan's tests is on the neighbour list |
| FluidCore.NeighbourWeight | src/content/webgl-fluid/liquid.js:379-383 | a neighbour's distance is at most the radius and its weight lies in (0, 1] |
| FluidCore.NeighbourDensities | src/content/webgl-fluid/liquid.js:385-387 | a particle's density and near density lie between 0 and count - 1, and the near density never exceeds the density |
| FluidCore.DensityBounds | src/content/webgl-fluid/liquid.js:385-387 | for weights in [0, 1], the sums of cubes and of squares satisfy 0 <= near density <= density <= number of weights |
| FluidCore.DensityAppend | src/content/webgl-fluid/liquid.js:385-387 | one more neighbour adds g² to the density and g³ to the near density |
| FluidCore.Clamp | src/content/webgl-fluid/liquid.js:427-438 | the clamp of a coordinate lies in [0, extent] and leaves a coordinate already inside it unchanged |
| FluidCore.ClampedInside | src/content/webgl-fluid/liquid.js:421-438 | clamping every particle puts the whole buffer inside the container and leaves a buffer already inside it unchanged |
| FluidCore.ClampedUpToAll | src/content/webgl-fluid/liquid.js:421-438 | clamping particle by particle, once every particle is done, gives the clamp of the whole buffer |
| FluidCore.UnitVectorScalesBack | src/content/webgl-fluid/liquid_1.js:5-8 | a nonzero vector has a positive length, and its unit vector multiplied by that length gives the vector back |
| FluidCore.AlongScalesBack | src/content/will-spill/liquid.js:140-145 | the unit vector scaled by the vector's own length times f is the vector times f |
| FluidCore.VelocityCarries | src/content/webgl-fluid/liquid.js:440-442 | a velocity derived as `(xy - xyOld) * (1 / dT)` carries the particle from where it started to where it ended in one step |
| FluidCore.GravityAlongY | src/content/webgl-fluid/liquid.js:335-338 | without random motion an x component of velocity is kept and a y component gains gravity times the step |
| FluidCore.ScaledRange | src/content/webgl-fluid/liquid.js:138-139 | a random draw in [0, 1) times a non-negative extent lies in [0, extent), and is 0 for a zero extent |
| FluidCore.AxisSumUpdate | src/content/webgl-fluid/liquid.js:413-417 | adding u to one buffer entry adds u to the sum of its own axis and nothing to the other axis |
| FluidCore.CorrectedPairs | src/content/webgl-fluid/liquid.js:413-417 | an equal-and-opposite correction between two distinct particles keeps each axis's sum over the pair and moves no other particle |
| FluidCore.CorrectedKeepsSums | src/content/webgl-fluid/liquid.js:413-417 | the same correction keeps the sum of each axis over all particles |
| FluidCore.RelaxStepCorrects | src/content/webgl-fluid/liquid_1.js:416-424 | a correction along the unit vector between two particles is the equal-and-opposite correction by that scaled vector |
| FluidCore.RelaxStepKeepsSums | src/content/webgl-fluid/liquid_1.js:416-424 | such a correction between two distinct particles keeps the sum of each axis, whatever its direction |
| WebglFluid.DefaultSettings | src/content/webgl-fluid/liquid.js:15-24 | without options there are 100 particles, radius 50, both stiffnesses 10000, rest density 2, gravity 1000 and random motion 20 |
| WebglFluid.GivenOptionsWin | src/content/webgl-fluid/liquid.js:15-32 | for each of the seven options (count, interaction radius, both stiffnesses, rest density, gravity, random motion) a given one overrides its default, and a missing one keeps the default |
| WebglFluid.Liquid.constructor | src/content/webgl-fluid/liquid.js:8-33 | once the canvas is given, the liquid takes the canvas size and the merged settings |
| WebglFluid.New | src/content/webgl-fluid/liquid.js:8-33 | the constructor throws exactly when no canvas is given; otherwise it gives a fresh liquid with the canvas size and the merged settings |
| WebglFluid.Liquid.Init | src/content/webgl-fluid/liquid.js:35-87 | `init` fails exactly when WebGL is unavailable and then allocates nothing; otherwise it allocates fresh buffers and resets the particles, which places every particle inside the container at rest |
| WebglFluid.Liquid.ResetParticles | src/content/webgl-fluid/liquid.js:129-147 | every coordinate is its random draw scaled by the container's extent along that axis, so it lies in [0, extent); every velocity is 0 |
| WebglFluid.Liquid.Integrate | src/content/webgl-fluid/liquid.js:327-343 | pass 1 kicks every velocity (random motion, and gravity along y only), stores every pre-step position in `xyOld`, then moves every position by its new velocity times the step |
| WebglFluid.Liquid.Probe | src/content/webgl-fluid/liquid.js:355-383 | particle k passes the scan's tests (not i, inside the box, inside the circle, weight neither 0 nor NaN) exactly when it interacts with i, and then comes with its weight and distance |
| WebglFluid.Liquid.Record | src/content/webgl-fluid/liquid.js:388-393 | recording a neighbour appends it to the neighbour list and stores its weight and distance at its index |
| WebglFluid.Liquid.Include | src/content/webgl-fluid/liquid.js:385-393 | including an interacting particle extends the neighbour list, the record of weights and distances, and both density sums by that particle |
| WebglFluid.Liquid.Scan | src/content/webgl-fluid/liquid.js:354-394 | one step of the scan extends the neighbour list and both densities from the particles below k to those below k + 1 |
| WebglFluid.Liquid.FindNeighbours | src/content/webgl-fluid/liquid.js:350-394 | the scan records exactly the neighbour list of particle i, with each neighbour's weight and distance, and returns the densities as the sums of g² and g³ over it |
| WebglFluid.Liquid.RecordedAt | src/content/webgl-fluid/liquid.js:388-389 | the stored weight and distance of each recorded neighbour are that neighbour's own |
| WebglFluid.Liquid.RelaxedKeepsSums | src/content/webgl-fluid/liquid.js:400-418 | particle i's corrections against neighbours other than itself keep the sum of each axis over all particles |
| WebglFluid.Liquid.Correct | src/content/webgl-fluid/liquid.js:410-417 | a correction moves particle i by half the push towards k backwards and k by half of it forwards, and nothing else |
| WebglFluid.Liquid.Relax | src/content/webgl-fluid/liquid.js:400-418 | the relaxation loop for particle i leaves the positions its corrections give, each computed from the positions the earlier ones left |
| WebglFluid.Liquid.Relaxation | src/content/webgl-fluid/liquid.js:345-419 | pass 2 never moves the fluid's centre of mass: the sum of each axis over all particles is what it was |
| WebglFluid.Liquid.ConstrainParticle | src/content/webgl-fluid/liquid.js:422-443 | pass 3 for particle i clamps its two coordinates into the container, then re-derives its two velocity components from the clamped position and `xyOld` |
| WebglFluid.Liquid.Constrain | src/content/webgl-fluid/liquid.js:421-443 | pass 3 leaves the clamp of the positions and every velocity re-derived as `(xy - xyOld) * dTInv` |
| WebglFluid.Liquid.Update | src/content/webgl-fluid/liquid.js:300-446 | a zero step changes nothing and a negative one is integrated; otherwise, with the step capped at 0.02, `xyOld` holds the start positions, every particle ends inside the container, the positions are the clamp of a buffer whose axis sums equal those after pass 1, and every velocity is the displacement over the step |
| WillSpill.SpawnRange | src/content/will-spill/liquid.js:97-98 | a spawned particle starts with x in [0.25 w, 0.75 w) and y in [0, 0.5 h) |
| WillSpill.PushedOutOfReach | src/content/will-spill/liquid.js:127-137 | a particle whose squared distance from the point is at least 100², so beyond the force's reach or exactly at its edge where the gradient is 0, keeps its velocity |
| WillSpill.PushedScaledBack | src/content/will-spill/liquid.js:133-145 | a particle within reach, other than one exactly at the point, gains force times its offset from the point: the unit vector is scaled back by the distance, not by the gradient |
| WillSpill.ShoveScalesBack | src/content/will-spill/liquid.js:140-145 | the shove on a particle other than at the point is the force times its offset |
| WillSpill.ForcedUpToAt | src/content/will-spill/liquid.js:116-146 | after the force loop has reached particle n, each earlier particle's velocity is its pushed velocity |
| WillSpill.ForcedUpToKeeps | src/content/will-spill/liquid.js:116-146 | the particles the force loop has not reached keep their velocities |
| WillSpill.SettleBounds | src/content/will-spill/liquid.js:448-473 | after the clamp and the corner rule, a particle is at most one pixel outside the canvas sideways and two pixels above it, and never below it |
| WillSpill.SettleBelowCornerRows | src/content/will-spill/liquid.js:448-473 | a particle that was at row 256 or lower before the clamp is only clamped |
| WillSpill.SettleLeavesCanvas | src/content/will-spill/liquid.js:462-473 | on a canvas less than 730 high, a particle at the top-left corner ends up above the canvas, so pass 3 does not keep particles inside it |
| WillSpill.SettledUpToAt | src/content/will-spill/liquid.js:444-473 | after pass 3 has reached particle n, each earlier particle holds its settled place |
| WillSpill.SettledUpToKeeps | src/content/will-spill/liquid.js:444-473 | the particles pass 3 has not reached keep their places |
| WillSpill.SettledNearCanvas | src/content/will-spill/liquid.js:444-473 | after pass 3 every x lies in [-1, w + 1] and every y in [-2, h] |
| WillSpill.RelaxedKeepsSums | src/content/will-spill/liquid.js:419-440 | particle i's corrections along the re-measured unit vectors towards its neighbours keep the sum of each axis over all particles |
| WillSpill.Liquid.constructor | src/content/will-spill/liquid.js:8-27 | the liquid takes the canvas size and `opts.count` particles (100 by default) and allocates zeroed buffers |
| WillSpill.Liquid.Init | src/content/will-spill/liquid.js:29-87 | `init` fails exactly when WebGL is unavailable and then moves nothing; otherwise it spawns every particle from its draws |
| WillSpill.Liquid.ResetParticles | src/content/will-spill/liquid.js:92-106 | every particle is spawned from its two draws, so x lies in [0.25 w, 0.75 w] and y in [0, 0.5 h], and every velocity is 0 |
| WillSpill.Liquid.Push | src/content/will-spill/liquid.js:117-145 | the force on particle i changes only its own velocity, to its pushed velocity |
| WillSpill.Liquid.AddForceAt | src/content/will-spill/liquid.js:111-148 | `addForceAt` gives every particle its pushed velocity and moves no particle |
| WillSpill.Liquid.Integrate | src/content/will-spill/liquid.js:350-368 | pass 1 stores every pre-step position in `xyOld`, kicks every velocity (random motion, and gravity along y only), then moves every position by its new velocity times the step |
| WillSpill.Liquid.Probe | src/content/will-spill/liquid.js:380-403 | particle k passes the scan's tests (not i, inside the box, inside the circle, weight not 0) exactly when it interacts with i, and then comes with its weight |
| WillSpill.Liquid.Record | src/content/will-spill/liquid.js:408-412 | recording a neighbour appends it to the neighbour list and stores its weight at its index |
| WillSpill.Liquid.Include | src/content/will-spill/liquid.js:405-412 | including an interacting particle extends the neighbour list, the record of weights, and both density sums by that particle |
| WillSpill.Liquid.Scan | src/content/will-spill/liquid.js:379-413 | one step of the scan extends the neighbour list and both densities from the particles below k to those below k + 1 |
| WillSpill.Liquid.FindNeighbours | src/content/will-spill/liquid.js:375-413 | the scan records exactly the neighbour list of particle i with each neighbour's weight, and returns the densities as the sums of g² and g³ over it |
| WillSpill.Liquid.Shift | src/content/will-spill/liquid.js:428-439 | one correction of magnitude m moves i and k in opposite directions along the unit vector between them, measured as they stand |
| WillSpill.Liquid.Correct | src/content/will-spill/liquid.js:435-439 | a correction (dx, dy) moves particle i by half of it backwards and k by half of it forwards, and nothing else |
| WillSpill.Liquid.Relax | src/content/will-spill/liquid.js:419-440 | the relaxation loop for particle i leaves the positions its corrections give, each measured from the positions the earlier ones left |
| WillSpill.Liquid.Relaxation | src/content/will-spill/liquid.js:370-441 | pass 2 keeps the sum of each axis over all particles |
| WillSpill.Liquid.SettleParticle | src/content/will-spill/liquid.js:444-477 | pass 3 for particle i moves it to its settled place (clamp, then the corner rule judged by where it was before the clamp) and then re-derives its velocity from `xyOld` |
| WillSpill.Liquid.Constrain | src/content/will-spill/liquid.js:443-478 | pass 3 leaves every particle at its settled place and every velocity re-derived from the settled position after the corner rule |
| WillSpill.Liquid.Update | src/content/will-spill/liquid.js:324-480 | a zero step changes nothing; otherwise, with the step capped at 0.02, `xyOld` holds the start positions, the positions settle a buffer whose axis sums equal those after pass 1, every particle ends within [-1, w + 1] × [-2, h], and every velocity is the displacement over the step |
| EarlyFluid.PowIsSqDist | src/content/webgl-fluid/liquid_1.js:389 | `Math.pow(a, 2) + Math.pow(b, 2)` of the signed differences is the squared distance between the two particles |
| EarlyFluid.CloseList | src/content/webgl-fluid/liquid_1.js:380-396 | the local neighbour list of particle i holds only indices below the particle count and never i |
| EarlyFluid.CloseListSound | src/content/webgl-fluid/liquid_1.js:380-396 | every entry of the list is another particle within the radius, each once and in increasing order |
| EarlyFluid.CloseListComplete | src/content/webgl-fluid/liquid_1.js:380-396 | every other particle within the radius is on the list |
| EarlyFluid.CloseListExact | src/content/webgl-fluid/liquid_1.js:380-396 | a particle is on the list exactly when it is another particle within the radius |
| EarlyFluid.CloseListShort | src/content/webgl-fluid/liquid_1.js:380-396 | the list never holds i, so it has at most count - 1 entries |
| EarlyFluid.EdgeKeptWithNoWeight | src/content/webgl-fluid/liquid_1.js:389-395 | a particle exactly on the circle is kept, with weight 0 (the later version skips it) |
| EarlyFluid.CloseDensities | src/content/webgl-fluid/liquid_1.js:398-407 | the weights lie in [0, 1], so both densities lie between 0 and count - 1 with the near density below the density, and the stored pressure is at least -3 times the stiffness |
| EarlyFluid.InterleaveOf | src/content/webgl-fluid/liquid_1.js:103-107 | a flat buffer whose even entries are the x values and odd entries the y values is their interleaving |
| EarlyFluid.MovedPairs | src/content/webgl-fluid/liquid_1.js:363-365 | moving each particle's two coordinates by its two velocity components is the flat integration |
| EarlyFluid.PassOneDone | src/content/webgl-fluid/liquid_1.js:346-370 | after pass 1, laid side by side, the old positions are the positions before the step, the velocities are the kicked ones, and the positions are those moved by the new velocities |
| EarlyFluid.RelaxedKeepsSums | src/content/webgl-fluid/liquid_1.js:409-425 | particle i's corrections along the unit vectors towards its neighbours keep the sum of each axis over all particles |
| EarlyFluid.SteeredAt | src/content/webgl-fluid/liquid_1.js:448-450 | after pass 3 has reached particle n, each earlier particle's velocity is its displacement from (oldX, oldY) over the step |
| EarlyFluid.Liquid.constructor | src/content/webgl-fluid/liquid_1.js:91-111 | the liquid takes the canvas size and `opts.count` particles (100 by default), and allocates buffers of its own |
| EarlyFluid.Liquid.Init | src/content/webgl-fluid/liquid_1.js:113-158 | `init` fails exactly when WebGL is unavailable and then moves nothing; otherwise every particle is placed on the canvas from its draws and every other value is 0 |
| EarlyFluid.Liquid.Spawn | src/content/webgl-fluid/liquid_1.js:140-155 | each coordinate is its draw scaled by the canvas extent along that axis, so it lies in [0, extent); old positions, velocities, pressures and weights are all 0 |
| EarlyFluid.Liquid.IntegrateParticle | src/content/webgl-fluid/liquid_1.js:349-365 | pass 1 for particle i saves its position, kicks both velocity components (gravity on y only) and moves it by the new velocity, changing no other particle |
| EarlyFluid.Liquid.Integrate | src/content/webgl-fluid/liquid_1.js:346-370 | pass 1 saves every position, kicks every velocity, and moves every particle; laid side by side this matches the later version's pass 1 |
| EarlyFluid.Liquid.Scan | src/content/webgl-fluid/liquid_1.js:381-396 | one step of the scan extends the list and the recorded weights from the particles below k to those below k + 1 |
| EarlyFluid.Liquid.FindNeighbours | src/content/webgl-fluid/liquid_1.js:378-396 | the scan builds exactly the close list of particle i, with each neighbour's weight recorded in `g` |
| EarlyFluid.Liquid.Densities | src/content/webgl-fluid/liquid_1.js:398-405 | the density loop returns the sums of the squared and cubed weights of the neighbours |
| EarlyFluid.Liquid.Shift | src/content/webgl-fluid/liquid_1.js:416-424 | one correction of magnitude m moves i and k in opposite directions along the unit vector between them, measured as they stand |
| EarlyFluid.Liquid.Correct | src/content/webgl-fluid/liquid_1.js:420-424 | a correction (dx, dy) moves particle i by half of it backwards and k by half of it forwards, and nothing else |
| EarlyFluid.Liquid.Relax | src/content/webgl-fluid/liquid_1.js:409-425 | the relaxation loop for particle i leaves the positions its corrections give, each measured from the positions the earlier ones left |
| EarlyFluid.Liquid.RelaxParticle | src/content/webgl-fluid/liquid_1.js:373-426 | pass 2 for particle i stores its pressures from the densities of its close list (rest density 3) and applies its corrections against that list |
| EarlyFluid.Liquid.Relaxation | src/content/webgl-fluid/liquid_1.js:372-426 | pass 2 keeps the sum of each axis over all particles |
| EarlyFluid.Liquid.ConstrainParticle | src/content/webgl-fluid/liquid_1.js:429-451 | pass 3 for particle i clamps it onto the canvas and then re-derives its velocity from the clamped position and (oldX, oldY) |
| EarlyFluid.Liquid.Constrain | src/content/webgl-fluid/liquid_1.js:428-451 | pass 3 leaves the clamp of the positions, and every velocity is the displacement from (oldX, oldY) over the step |
| EarlyFluid.Liquid.Update | src/content/webgl-fluid/liquid_1.js:326-453 | a zero step changes nothing; otherwise, with the step capped at 0.02, the old positions are where each particle started, the positions are the clamp of a buffer whose axis sums equal those after pass 1, every particle is on the canvas, and every velocity is the displacement over the step |

## Left out

- WebGL plumbing is not modelled: shader compilation, program, texture, buffer and framebuffer creation, uniform binding, `destroy`, and the GPU's execution of draw calls. Only the per-texel shader rules and the JavaScript state around them are modelled.
- Float32 and IEEE behaviour is not modelled. Numbers are exact reals, so rounding, Infinity and NaN do not arise. A shader computes exactly in the model (its `mediump` float precision is not modelled); only the 8-bit store of its output rounds. The `Number.isNaN(g)` guard of the WebGL fluid is reached only through a zero radius.
- FluidCore.UnitVector: the zero vector, which the source divides by 0 (giving NaN), maps to the zero vector. `FluidCore.UnitVectorScalesBack` states that the unit vector scales back to the vector; it does not state that the unit vector has length 1.
- WebglFluid.Magnitude: two particles at the same place give a zero correction, where the source divides by a zero distance.
- WillSpill.Pushed: a particle exactly at the force's point keeps its velocity, where the source divides 0 by 0.
- WebglFluid.Liquid.Update: pass 2's effect is stated through what it preserves (the sum of each axis over all particles), not as exact positions. The exact positions of one particle's relaxation are stated by `WebglFluid.Liquid.Relax`. The same holds for `WillSpill.Liquid.Update` and `EarlyFluid.Liquid.Update`.
- WebglFluid.Liquid.Relaxation: states only that each axis sum is kept, because the positions after all particles' relaxations have no closed form worth stating. The same holds for `WillSpill.Liquid.Relaxation` and `EarlyFluid.Liquid.Relaxation`.
- Stability or convergence of the fluid solvers is not claimed.
- Randomness and noise (`Math.random`, `noise.simplex2`, the shaders' sine hash) are passed in as parameters. Timers (`setInterval`, `requestAnimationFrame`) and clocks are not modelled; elapsed times are parameters.
- Rendering is not modelled: canvas drawing, image loading and pixel upload beyond the byte layout, the draw shaders' colours, and Catris's `render`. Sokoban's markup is modelled as text; the DOM it is written into is not.
- The dist game-of-life page's `draw` and its shader fetches are not modelled. Its step is modelled as the texture swap that follows rendering.
- Audio is not modelled: the chicken-cave and Catris sound modules, the waterfall's panning, and the drip sound.
- DOM and event glue is not modelled: every `index.js`, the custom elements, `scrambleElement`/`scrambleAll`, `activateToggleTheme`, and the keyboard and mouse listeners beyond the key handlers themselves.
- ChickenKeyboard.LowerChar: lowers ASCII capitals only. JavaScript's `toLowerCase` also lowers other Unicode capitals (such as 'Ä' to 'ä'), and lowering 'İ' gives two code units, so `ChickenKeyboard.Lower` keeping the length holds only for this ASCII model. No non-ASCII key name lowers to one of the seven tracked names (keyboard.js:13-21), so which keys are tracked does not change.
- Catris's blood particles, pause and unpause are not modelled: they are drawing effects and timer control around the game state.
- Player and droplet kinematics of the chicken-cave game are not modelled. They are float physics tied to input and to code not shown. The entity lifecycle is modelled through the registry; what an entity's own `init` and `destroy` do is not modelled, only when the game calls them and what they find (`ChickenGame.Call`).
- The build script's file system calls (`lstat`, `mkdir`, `readFile`, `writeFile`, `copyFile`), `less`, `babel`, the directory walk, the HTTP server and `fs.watch` are not modelled. The file tree is a map, and page text is a parameter.
- Generated copies are not modelled: the Babel output in `dist/` other than the stand-alone game-of-life page, and the root `gol.js` prototype, whose step program is never run.
- Draw-only classes (the chicken-cave background, wall and title scene) are not modelled.

## Findings

| source | as written | input that shows it | evidently intended | confidence | as-written member | corrected member |
|---|---|---|---|---|---|---|
| node-scripts/lib/getMimeTypeFromExtension.js:22 | `MIME_TYPES[ext]` reads a plain object, so an extension naming an inherited member (`constructor`, `toString`, ...) finds that member | the file name 'x.constructor' is served with `Object` as its type | 'application/octet-stream' for every extension not listed in the table | not executed | MimeType.InheritedKeyServed | MimeType.MimeType |
| node-scripts/rundev.js:93-96 | each captured section is the replacement string of `String.prototype.replace`, so '$$', '$&', '$`' and "$'" in it are expanded | a script section 'a$$b' reaches the page as 'a$b' | each section inserted as it is | not executed | BuildScript.DollarsCollapse | BuildScript.ReplaceFirst |
| src/content/chicken-cave/classes/LevelWalls.js:141 | a right-hand collision places the box at `(xA2 * size) - w`, from the cell its left edge moves into | 16-pixel grid with cells [empty, wall], an 8 x 8 box at x = 5 moving right by 4: put at x = -8, behind its start | `(xB2 * size) - w`, flush against the wall cell its right edge reached (x = 8) | not executed | ChickenLevelWalls.RightCollisionAsWrittenGoesBack | ChickenLevelWalls.CollisionWithinStep |
| src/content/chicken-cave/classes/Particles.js:163 | the player check iterates `this.entities.player`, a registry the game never creates, so it throws on the first live, in-bounds particle in the half being checked | one live particle at (10, 10) in slot 0: the second `update` throws | the check skipped when there is no player registry, so the update moves every live particle | not executed | ChickenParticles.PlayerCheckThrows | ChickenParticles.Particles.Update |
