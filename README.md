# Slot machine core, modelled in Dafny

This project models the logical core of a browser slot machine: five reels
and three visible rows. Each reel (`SlotReel`) owns two symbol buffers:
- an active buffer of up to eight symbols;
- a buffer prepared for the next spin.

A reel also has a scroll offset, a speed and a spinning flag. While a reel spins:
- every frame lowers the offset by 20, which moves every symbol down 20 pixels;
- when the offset reaches -425, it moves five symbols from the tail of the buffer to the head (a "recycle");
- every slot is placed at `(i - 5) * 85 - offset`.

A hard stop puts the reel at rest on offset 0. Slots 5 to 7 are the rows that
`getVisibleSymbols` reports and `checkForWins` evaluates.

The machine (`SlotMachine`) drives one spin:
1. Every reel prepares a new buffer.
2. After a short delay, every reel starts.
3. After the spin duration, the game state becomes STOPPING.
4. The reels stop one by one from the left, with a delay between stops.
5. The game state becomes IDLE.
6. The machine builds the grid of visible symbols and counts the rows whose leading run, counted from the leftmost reel, reaches three.

Modules, one concept each:
- `Constants`: layout, symbol catalog and game states.
- `Assets`: what the reels ask of the resource manager.
- `ReelBuffer`: the buffer as a value (fill, recycle, layout, visible window).
- `Reel`: the reel's transitions as functions on `ReelState`, and the class `SlotReel` that performs them on its fields.
- `WinCheck`: the grid, with JavaScript sparse-array holes, and the win count.
- `Machine`: the class `SlotMachine`.

`startSpin` is asynchronous. The model keeps the point where it will resume as a phase:
- `Settling`, after the 100 ms delay;
- `Holding`, after the spin duration;
- `Cascading(i)`, after the delay that follows stopping reel `i`.

`StartSpin` runs the code up to the first `await`, and `Step` fires the next timer. Frames (`Update`) and `Destroy` can be called between any two steps.

Random draws are parameters: eight symbol types per buffer fill. So is the resource manager's state: whether loading has finished, and which symbol types have a texture.

Nothing in the code stages a chosen outcome:
- `refreshSymbols` fills the prepared buffer with fresh draws;
- the rows reported at rest are slots 5 to 7 of that buffer after the recycles that happened.

`Reel.RestingRowsAfterSpin` states which slots those are. The code skips a draw whose texture is missing, so a buffer can hold fewer than eight symbols.

## Model

| member | source | states |
|---|---|---|
| ReelBuffer.Rotate | src/entities/SlotReel.ts:261-273 | k pop/unshift steps, each moving the last symbol to the front; the length never changes |
| ReelBuffer.RotateSplit | src/entities/SlotReel.ts:261-273 | up to a full turn, k pop/unshift steps move the last k symbols, in order, to the front |
| ReelBuffer.RotateAdd | src/entities/SlotReel.ts:261-273 | recycles compose: a steps followed by b steps are a + b steps |
| ReelBuffer.RotatePreserves | src/entities/SlotReel.ts:261-273 | recycling never changes the buffer's length or its multiset of symbols |
| ReelBuffer.RotateFullTurn | src/entities/SlotReel.ts:261-273 | n steps on a buffer of length n give the buffer back |
| ReelBuffer.RotateTurn | src/entities/SlotReel.ts:261-273 | a full turn more changes nothing |
| ReelBuffer.RotateMod | src/entities/SlotReel.ts:261-273 | on a non-empty buffer only the step count modulo the length matters |
| ReelBuffer.RotateRight | src/entities/SlotReel.ts:261-273 | an empty buffer is unchanged; a buffer of length n > 0 is rotated right by k mod n |
| ReelBuffer.RotateAt | src/entities/SlotReel.ts:264-270 | element j after m <= n steps comes from index n - m + j (j < m) or j - m |
| ReelBuffer.RecycleEightSlots | src/entities/SlotReel.ts:261-273 | one recycle of the 8-slot buffer gives its last five symbols, in order, then its first three |
| ReelBuffer.TypesRotate | src/entities/SlotReel.ts:265-268 | moving symbols moves their types the same way |
| ReelBuffer.Generated | src/entities/SlotReel.ts:94-113 | the buffer built by the fill loop: at most one symbol per draw, and only symbols with a texture |
| ReelBuffer.GeneratedKeepsResolvable | src/entities/SlotReel.ts:56-76 | a fill holds exactly the draws whose texture resolves, in draw order, against an independent reference definition |
| ReelBuffer.GeneratedSize | src/entities/SlotReel.ts:56-76 | a fill yields at most eight symbols, each with a texture, and exactly eight precisely when every draw resolves |
| ReelBuffer.GeneratedAllResolved | src/entities/SlotReel.ts:94-112 | when every draw resolves, slot i holds draw i at height i * 85 - 80 |
| ReelBuffer.Positioned | src/entities/SlotReel.ts:275-284 | laying out keeps the buffer's length and the order of its types |
| ReelBuffer.Visible | src/entities/SlotReel.ts:286-304 | the visible window: min(3, max(0, length - 5)) symbols, the i-th being slot 5 + i |
| ReelBuffer.RestingRows | src/entities/SlotReel.ts:286-304 | on an 8-slot buffer after k steps, visible row j holds the symbol that was at index (5 + j - k) mod 8 |
| Reel.Filled | src/entities/SlotReel.ts:31-37 | the initial fill changes only the active buffer, and only once resources are loaded; the buffer then holds at most eight symbols, each with a texture |
| Reel.Refreshed | src/entities/SlotReel.ts:180-189 | a refresh changes only the prepared buffer, and only once resources are loaded; the buffer then holds at most eight symbols, each with a texture |
| Reel.Started | src/entities/SlotReel.ts:131-178 | after start the reel spins at speed 20 with no stop requested and nothing prepared, showing the prepared types if there were any and its own otherwise |
| Reel.Stopped | src/entities/SlotReel.ts:191-205 | after a stop the reel is at rest, with the same buffer types and the same prepared buffer |
| Reel.Scrolled | src/entities/SlotReel.ts:247-255 | the scroll changes only the buffer and the offset: the offset drops by the speed, plus 425 when a recycle fires, and the buffer's types turn by five exactly then |
| Reel.LaidOut | src/entities/SlotReel.ts:257 | laying out moves only the sprites: slot i goes to (i - 5) * 85 - offset, and the types and everything else stay |
| Reel.Ticked | src/entities/SlotReel.ts:245-259 | a tick does nothing at rest, and otherwise changes only the active buffer, keeping its length, and the offset |
| Reel.Destroyed | src/entities/SlotReel.ts:318-322 | destroy empties the active buffer and keeps the prepared one; the reel's coherence is unchanged |
| Reel.TickKeepsOffsetInRange | src/entities/SlotReel.ts:247-255 | a spinning reel's tick recycles exactly when offset - 20 <= -425, adds 425 back then, and keeps the offset in (-425, 0] |
| Reel.TickRotatesBuffer | src/entities/SlotReel.ts:245-259 | a tick of a reel at rest changes nothing; otherwise it keeps the prepared buffer, and reorders the active one by one recycle or none, keeping its length and multiset |
| Reel.TickKeepsCoherent | src/entities/SlotReel.ts:245-259 | a tick keeps the speed tied to the spinning flag and the offset in range |
| Reel.TicksKeepCoherent | src/entities/SlotReel.ts:245-259 | any number of ticks keep the reel coherent and do not change whether it spins |
| Reel.TickKeepsRotation | src/entities/SlotReel.ts:252-254 | a tick keeps the buffer a rotation, by a multiple of five, of the installed one; the multiple grows exactly when the tick recycles |
| Reel.TicksRotateBuffer | src/entities/SlotReel.ts:245-259 | after k ticks the buffer is the starting one rotated by five slots per recycle |
| Reel.StartSwapsBuffers | src/entities/SlotReel.ts:131-178 | start spins at speed 20; a prepared buffer becomes active at offset 0 and the prepared one is emptied; without one, the buffer and the offset are kept |
| Reel.StopRests | src/entities/SlotReel.ts:191-205 | a stop does nothing to a reel at rest; otherwise the reel ends at rest, at speed 0 and offset 0, its buffer in the same order with slot i at (i - 5) * 85 |
| Reel.FillsKeepCoherent | src/entities/SlotReel.ts:180-189 | filling and refreshing do nothing until resources are loaded; afterwards the filled buffer holds the resolvable draws, in order, at most eight |
| Reel.SpinEndsOnRotation | src/entities/SlotReel.ts:131-259 | start, any number of ticks, then stop leaves the reel at rest showing the installed buffer rotated by five slots per recycle |
| Reel.RestingRowsAfterSpin | src/entities/SlotReel.ts:286-304 | after such a spin of an 8-slot buffer, visible row j is installed slot (5 + j - 5 * recycles) mod 8 |
| Reel.FreshBufferShown | src/entities/SlotReel.ts:143-178 | refresh, start and stop with no tick between them show slots 5..7 of the fresh fill; a fill in which no draw resolved leaves the old buffer in place |
| Reel.SlotReel.constructor | src/entities/SlotReel.ts:14-25 | a new reel is empty, at rest, at speed 0 and offset 0, and knows its index |
| Reel.SlotReel.InitTimerFired | src/entities/SlotReel.ts:31-37 | the initial timer fills the buffer only when resources are loaded |
| Reel.SlotReel.CreateSymbols | src/entities/SlotReel.ts:40-79 | the old buffer is discarded, and the new one is the fill of the draws; it becomes the installed buffer |
| Reel.SlotReel.GenerateNewSymbols | src/entities/SlotReel.ts:81-116 | the prepared buffer is discarded, and the new one is the fill of the draws; nothing else changes |
| Reel.SlotReel.RefreshSymbols | src/entities/SlotReel.ts:180-189 | a no-op until resources are loaded, then prepares the next buffer; the reel stays coherent |
| Reel.SlotReel.StartSpin | src/entities/SlotReel.ts:131-141 | the reel spins at speed 20 with the prepared buffer swapped in, and that buffer becomes the installed one |
| Reel.SlotReel.SwitchToNewSymbols | src/entities/SlotReel.ts:143-178 | without a prepared buffer nothing changes; otherwise the prepared buffer becomes active, laid out at offset 0, and is emptied |
| Reel.SlotReel.RequestStop | src/entities/SlotReel.ts:191-205 | ignored unless spinning; otherwise a hard stop at offset 0, keeping the buffer's rotation |
| Reel.SlotReel.Update | src/entities/SlotReel.ts:245-259 | one tick, keeping the reel coherent and its buffer a rotation by five per recycle of the installed buffer |
| Reel.SlotReel.RecycleSymbols | src/entities/SlotReel.ts:261-273 | five pop/unshift steps |
| Reel.SlotReel.UpdateSymbolPositions | src/entities/SlotReel.ts:275-284 | slot i is placed at (i - 5) * 85 - offset; the types stay |
| Reel.SlotReel.GetVisibleSymbols | src/entities/SlotReel.ts:286-304 | nothing for an empty buffer; otherwise the symbols at 5, 6 and 7 that exist, in order, min(3, max(0, length - 5)) of them |
| Reel.SlotReel.IsReelSpinning | src/entities/SlotReel.ts:306-308 | a reel reports spinning exactly when it moves |
| Reel.SlotReel.GetSymbolCount | src/entities/SlotReel.ts:310-312 | the length of the buffer installed last; recycles never change it |
| Reel.SlotReel.GetVisibleSymbolCount | src/entities/SlotReel.ts:314-316 | min(3, max(0, length - 5)) |
| Reel.SlotReel.Destroy | src/entities/SlotReel.ts:318-322 | the active buffer is released and the reel stays coherent |
| WinCheck.LeadingRun | src/entities/SlotMachine.ts:130-136 | the leading run of x: every element before it equals x, and the next element, if any, does not |
| WinCheck.LeadingRunUnique | src/entities/SlotMachine.ts:130-136 | those facts determine the run: any length with them is the run |
| WinCheck.RunLength | src/entities/SlotMachine.ts:126-139 | the run is at least 1 and at most the row's length for a non-empty row; 1 for an empty row; all cells before it equal the first, and the next cell differs |
| WinCheck.WinningIffFirstThreeMatch | src/entities/SlotMachine.ts:113-117 | a row wins exactly when it has at least three cells and its second and third equal its first |
| WinCheck.Trim | src/entities/SlotMachine.ts:99-105 | the sparse row is the dense row cut after its last assigned cell |
| WinCheck.TrimPadded | src/entities/SlotMachine.ts:99-105 | padding the sparse row with holes gives the dense row back |
| WinCheck.AssignBeyond | src/entities/SlotMachine.ts:103 | assigning beyond the end keeps the prefix, fills the gap with holes and sets the cell |
| WinCheck.TrimStep | src/entities/SlotMachine.ts:99-105 | an unassigned cell leaves the row as it is; an assigned one lands at its index |
| WinCheck.FillStep | src/entities/SlotMachine.ts:100-105 | one turn of the inner loop assigns reel n's cell exactly when the reel shows a symbol in that row |
| WinCheck.GridCells | src/entities/SlotMachine.ts:98-106 | grid[row][reel] is that reel's symbol in that row whenever it shows one, and a hole otherwise; at most five cells per row |
| WinCheck.FullGrid | src/entities/SlotMachine.ts:98-106 | when every reel shows three rows, every grid row is the five symbols of that row |
| WinCheck.Grid | src/entities/SlotMachine.ts:97-106 | three rows, each at most five cells long and, when not empty, ending in an assigned cell |
| WinCheck.WinCount | src/entities/SlotMachine.ts:111-118 | the count is at most the number of rows |
| WinCheck.WinCountCountsWinningRows | src/entities/SlotMachine.ts:111-118 | the count is the number of winning rows |
| WinCheck.Evaluation | src/entities/SlotMachine.ts:94-124 | the evaluation fails exactly when fewer than five reels exist, and otherwise counts at most three wins |
| WinCheck.EvaluationOutcome | src/entities/SlotMachine.ts:94-124 | the evaluation fails exactly when fewer than five reels exist; otherwise it is the number of winning rows, at most three |
| WinCheck.ThreeAlikeFromTheLeftWins | src/entities/SlotMachine.ts:126-136 | a fully shown row whose first three reels agree wins, whatever the last two show |
| WinCheck.BrokenFromTheLeftLoses | src/entities/SlotMachine.ts:126-136 | a fully shown row whose second reel differs from the first has run 1 and does not win: runs are anchored at the left |
| WinCheck.LeadingHolesWin | src/entities/SlotMachine.ts:98-136 | if reels 0 to 2 show nothing in a row and reel 3 or 4 shows something there, the row wins, since unassigned cells compare equal |
| WinCheck.EmptyRowLoses | src/entities/SlotMachine.ts:98-136 | if no reel shows anything in a row, the row is empty, its run is 1 and it does not win |
| WinCheck.HolesMatchEachOther | src/entities/SlotMachine.ts:98-131 | one example grid: with reels 0 to 2 empty and reels 3 and 4 showing one symbol each, row 0 wins on its leading holes, rows 1 and 2 are empty, and the spin counts one win |
| Machine.NextPhase | src/entities/SlotMachine.ts:56-92 | each timer moves the game state only forward (SPINNING, STOPPING, IDLE), stops go up one reel at a time, and with no spin pending nothing happens |
| Machine.NextPhaseProgresses | src/entities/SlotMachine.ts:56-92 | every timer brings a pending spin nearer its end, and the phase is idle exactly when nothing is pending |
| Machine.StageAdvances | src/entities/SlotMachine.ts:66-86 | each timer moves every reel on by one stage: all start after the settle delay, and the reel that timer stops comes to rest |
| Machine.ColumnsOfAt | src/entities/SlotMachine.ts:100-101 | column j of the grid source is reel j's visible symbol types |
| Machine.SlotMachine.constructor | src/entities/SlotMachine.ts:41-54 | five fresh, distinct reels numbered 0 to 4, all at rest; the machine is idle |
| Machine.SlotMachine.StartSpin | src/entities/SlotMachine.ts:56-64 | ignored, with nothing changed, unless idle; otherwise the state becomes SPINNING and every reel prepares its next buffer from its own draws |
| Machine.SlotMachine.RefreshReels | src/entities/SlotMachine.ts:62-64 | every reel prepares its next buffer and none starts moving |
| Machine.SlotMachine.Step | src/entities/SlotMachine.ts:66-91 | the next timer: all reels start, or the next reel in index order stops; the states go SPINNING, STOPPING, IDLE; the finished spin reports the evaluation of the final grid |
| Machine.SlotMachine.StartReels | src/entities/SlotMachine.ts:70-72 | every reel starts spinning |
| Machine.SlotMachine.BeginStopping | src/entities/SlotMachine.ts:74-86 | the state becomes STOPPING and reel 0 alone stops |
| Machine.SlotMachine.StopNext | src/entities/SlotMachine.ts:80-86 | after reel i has stopped, reel i + 1 alone stops, and the stop log grows by i + 1 |
| Machine.SlotMachine.StopReel | src/entities/SlotMachine.ts:80-91 | one turn of the stop loop: reel k stops; the spin finishes after the last reel |
| Machine.SlotMachine.Finish | src/entities/SlotMachine.ts:88-91 | the state becomes IDLE, then the wins of the final grid are evaluated |
| Machine.SlotMachine.CheckForWins | src/entities/SlotMachine.ts:94-124 | the result is the evaluation of the reels' visible columns |
| Machine.SlotMachine.CountWins | src/entities/SlotMachine.ts:110-119 | the number of winning rows |
| Machine.SlotMachine.FillGridRow | src/entities/SlotMachine.ts:99-105 | the sparse grid row built from the reels' visible symbols; it fails exactly when a reel is missing |
| Machine.SlotMachine.AssignCell | src/entities/SlotMachine.ts:100-105 | one turn of the inner loop: reel `reel` assigns its cell exactly when it shows a symbol in that row |
| Machine.SlotMachine.CheckRowForWin | src/entities/SlotMachine.ts:126-139 | the leading run of the row |
| Machine.SlotMachine.Update | src/entities/SlotMachine.ts:141-146 | exactly one tick for every reel; the machine stays valid |
| Machine.SlotMachine.IsSpinning | src/entities/SlotMachine.ts:148-150 | true exactly while a spin is pending |
| Machine.SlotMachine.GetGameState | src/entities/SlotMachine.ts:152-154 | IDLE exactly when no spin is pending, and STOPPING exactly while the reels stop |
| Machine.SlotMachine.Destroy | src/entities/SlotMachine.ts:156-160 | every reel releases its buffer, then the machine has no reels; a pending spin is not cancelled |
| Machine.SlotMachine.ReelInitTimerFired | src/entities/SlotReel.ts:31-37 | reel i's initial timer fills that reel alone, and every other reel stays valid |
| Machine.SlotMachine.RunSpin | src/entities/SlotMachine.ts:56-92 | a whole spin from idle: the states go SPINNING, STOPPING, IDLE; reels 0 to 4 stop once each, in order; every reel ends at rest on its refreshed buffer; the result is the evaluation of the final grid |

## Left out

- Rendering: containers, masks, the blur filter, sprite visibility and alpha, and adding or removing children. These only draw the state the model keeps.
- The container's own `destroy`. Same reason.
- What the mask frames on screen (src/entities/SlotReel.ts:118-129). At rest it spans y from -125 to 125 around sprites centred on their y (src/entities/Symbol.ts:20). So it frames slots 4 to 6 (y = -85, 0, 85), while `getVisibleSymbols` reports slots 5 to 7. The model follows `getVisibleSymbols` and does not model what is drawn.
- `stopSpin` and `findNearestSymbolPosition`. They are private and never called, and they work on floating-point easing, `Math.round` and animation frames.
- `getRandomSymbolType` is replaced by draws passed in, eight per fill. Any sequence of symbol types is allowed, so every outcome of `Math.random` is covered.
- The timer durations (100 ms, 1 s, 0.2 s per stop) and the frame clock. Only the order of timer events is modelled, as phases.
- Loading in the resource manager. It is reduced to a loaded flag and the set of symbol types that have a texture.
- Console logging. `checkForWins` logs its win count; the model returns the count instead.
- Machine.SlotMachine.RunSpin: runs the timers back to back with no frame between them. Frames between steps are covered by `Step` and `Update` separately.
- Machine.SlotMachine.ReelInitTimerFired: requires the reel to still belong to the machine. After `destroy`, a reel's pending init timer touches a reel the machine no longer holds, and the model does not follow it there.
- The buttons, the scenes and the game loop. They sit outside the reel and machine core.
