# r2048 board engine and key handling, in Dafny

This project models the core of r2048, a terminal version of the 2048
sliding-tile puzzle:

- the board engine `game_logic::Board` of `src/lib.rs`: a 4x4 grid of cells
  with construction, reset and seeding, the four slide-and-merge moves, the
  random spawner, the win and loss tests and the score;
- the key handling of the application in `src/events/app.rs`, which drives
  that board from a menu and a playing screen;
- the key handling of the older application in `r2048/src/app.rs`, which
  owns a bare 4x4 array and has only the menu.

Files:

- `grid_spec.dfy` (module `GridSpec`): the grid as a value and the move
  algorithm as functions, with the lemmas about them.
- `game_logic.dfy` (module `GameLogic`): class `Board`, with the cells in an
  `array2<nat>` updated in place by methods that loop as the source does.
- `keys.dfy` (module `Keys`): key events and the reaction of each screen to
  a key.
- `events_app.dfy` (module `EventsApp`) and `legacy_app.dfy` (module
  `LegacyApp`): the two application classes.

Every move processes four independent lines: rows for Left and Right,
columns for Up and Down. Each line is read from the edge the tiles move
toward, so all four moves share one line algorithm. `GridSpec.Push` moves
one tile toward position 0. It slides through empty cells, merges into an
equal neighbour and stops, or stops in front of an unequal one.
`GridSpec.Slide` pushes the tiles at positions 1, 2 and 3 in that order,
which is the order the source pops them off its stack for Up and Left.
For Down and Right the source stacks all four indices, so it first pops
position 0, whose push does nothing because the tile is already at the
edge; `Board.SlideColumnDown` and `Board.SlideRowRight` keep that extra
pop and prove it changes nothing. `GridSpec.Move`
slides every line.

Each `Board.MoveAll*` method keeps the source's loops: the outer loop over
lines, the stack of `(value, index)` pairs, the pop loop and the inner
`while` that walks one tile. The outer body and the pop-loop body are
separate methods (`SlideRow*`/`SlideColumn*` and `MoveTile*`). Each is
proved against `Slide` and `Push` on the line it touches, and each states
that every other line is left alone.

The code differs from the usual rule of 2048, under which a tile that was
just formed by a merge does not merge again in the same move. Here the tile
that moves stops after its merge, but the merged cell is not marked. A tile
processed later can merge into it again: Left on `[2,2,4,0]` gives
`[8,0,0,0]` (`GridSpec.SlideRemergesMergedTile`). The model follows the
code. Left on `[2,2,2,2]` still gives `[4,4,0,0]`.

Randomness is passed in as parameters:

- `spawn_one_random`: `pick` indexes the list of empty cells, taken modulo
  its length. `four` says the new tile is 4 rather than 2.
- `init_board`: `first` and `second` are the two distinct `(row, col)`
  positions of the random sample. Both lie on the board, because the sample
  is drawn from the 16 positions.

The events an application sends to its own event handler are collected in
the field `sent`.

## Model

| member | source | states |
|---|---|---|
| GridSpec.PushIntoEmpty | src/lib.rs:170-178 | a tile whose neighbour toward the edge is empty moves into it, its old cell becomes 0, and it goes on from the new position |
| GridSpec.PushIntoEqual | src/lib.rs:179-183 | a tile whose neighbour holds the same nonzero value doubles that neighbour, empties its own cell and stops |
| GridSpec.PushBlocked | src/lib.rs:185 | a tile whose neighbour holds a different nonzero value stops and the line is unchanged |
| GridSpec.SlideFromStep | src/lib.rs:168-169 | popping the next index from the stack pushes that tile, then the remaining ones from the resulting line |
| GridSpec.PushSum | src/lib.rs:170-187 | pushing one tile keeps the sum of the line: a slide copies a value and zeroes its source, a merge adds an equal value and zeroes its source |
| GridSpec.SlideFromSum | src/lib.rs:168-188 | pushing every remaining tile of a line keeps its sum |
| GridSpec.PushNonZero | src/lib.rs:170-187 | a tile merges at most once per move, and the number of nonempty cells drops by exactly its number of merges |
| GridSpec.SlideFromNonZero | src/lib.rs:168-188 | while the remaining tiles are pushed, the nonempty count drops by exactly the number of merges |
| GridSpec.SlideNonZero | src/lib.rs:161-189 | sliding a line removes exactly one nonempty cell per merge and never adds one |
| GridSpec.PushTiles | src/lib.rs:179-182 | if every cell is 0 or a power of two of at least 2, that still holds after one tile is pushed |
| GridSpec.SlideFromTiles | src/lib.rs:168-188 | the same holds after all remaining tiles are pushed |
| GridSpec.PushKeepsRest | src/lib.rs:170-187 | pushing the tile at position k never changes the cells behind it |
| GridSpec.PushPacks | src/lib.rs:170-187 | if no empty cell lies before a nonempty one among the first k cells, that holds for the first k + 1 cells after the tile at k is pushed |
| GridSpec.SlideFromPacks | src/lib.rs:168-188 | pushing the rest of a line packed up to k packs the whole line |
| GridSpec.SlidePacks | src/lib.rs:161-189 | after a slide no empty cell lies between the edge and a nonempty cell |
| GridSpec.SlideFromStuck | src/lib.rs:170-187 | a full line with no equal neighbours is left unchanged |
| GridSpec.MoveLine | src/lib.rs:64-190 | line i of the moved grid is line i of the old grid, slid, so no line affects another |
| GridSpec.LinesDetermineGrid | src/lib.rs:64-190 | two grids that agree on the four lines of one direction are equal |
| GridSpec.MovedNextLine | src/lib.rs:65-94 | one pass of the outer loop, touching only line i, extends the slid lines from the first i to the first i + 1 |
| GridSpec.MoveKeepsSum | src/lib.rs:64-190 | every move keeps the sum of all cells, so the score is the same before and after it |
| GridSpec.MoveNeverAddsTiles | src/lib.rs:64-190 | a move never increases the number of nonempty cells |
| GridSpec.MoveKeepsTiles | src/lib.rs:64-190 | if every cell is 0 or a power of two of at least 2, that still holds after any move |
| GridSpec.MovePacks | src/lib.rs:64-190 | after a move every line is packed toward the edge the tiles moved to |
| GridSpec.LostGridIsStuck | src/lib.rs:212-232 | on a grid that satisfies the loss test, each of the four moves leaves the grid unchanged |
| GridSpec.EmptyScanExact | src/lib.rs:195-201 | after the scan has reached cell (row, col), the list holds exactly the empty cells before it in row-major order |
| GridSpec.EmptyCellsExact | src/lib.rs:193-201 | a position is in the list of empty cells exactly when it is on the board and its cell is 0 |
| GridSpec.EmptyScanInOrder | src/lib.rs:195-201 | the partial scan up to cell (row, col) lists positions in strictly increasing row-major order, all before (row, col) |
| GridSpec.EmptyCellsInOrder | src/lib.rs:193-201 | the list of empty cells is in strictly increasing row-major order, so no cell is listed twice |
| GridSpec.SpawnOnFullGrid | src/lib.rs:203-206 | when no cell is 0, spawning leaves the grid unchanged |
| GridSpec.SpawnFillsOneEmptyCell | src/lib.rs:203-206 | when some cell is 0, exactly one cell that was 0 becomes 2, or 4 when four holds, and every other cell is unchanged |
| GridSpec.EveryEmptyCellCanBePicked | src/lib.rs:203 | every empty cell is the one filled for some random choice |
| GridSpec.SpawnAddsOneTile | src/lib.rs:203-206 | spawning into a grid with an empty cell adds one nonempty cell, adds the new tile to the sum and keeps every cell a tile |
| GridSpec.SeededHasTwoTiles | src/lib.rs:51-63 | after seeding, the two chosen cells are distinct and hold 2, every other cell is 0, the sum is 4 and every cell is a tile |
| GridSpec.TurnKeepsTilesAndScore | src/events/app.rs:127-145 | a move followed by a spawn keeps every cell a tile; if the move leaves a cell free the sum grows by exactly the new tile, otherwise the spawn changes nothing |
| GridSpec.SlideRemergesMergedTile | src/lib.rs:168-187 | Left on `[2,2,4,0]` gives `[8,0,0,0]`: the freshly merged 4 is merged again |
| GridSpec.SlideFourEqualTiles | src/lib.rs:168-187 | Left on `[2,2,2,2]` gives `[4,4,0,0]` |
| GridSpec.SlidePairThenBlocked | src/lib.rs:136-156 | Right on `[2,0,2,4]` (the line `[4,2,0,2]` read from the right edge) gives `[0,0,4,4]` |
| GameLogic.Board.constructor | src/lib.rs:38-43 | a new board has every cell 0 and a high score of 0 |
| GameLogic.Board.Clear | src/lib.rs:45-50 | every cell becomes 0 |
| GameLogic.Board.InitBoard | src/lib.rs:51-63 | the grid becomes the cleared grid with 2 at the two chosen positions |
| GameLogic.Board.MoveAllDown | src/lib.rs:64-95 | the new grid is every column slid toward the bottom row |
| GameLogic.Board.SlideColumnDown | src/lib.rs:65-93 | one pass of the outer loop slides column i and leaves the other columns alone |
| GameLogic.Board.MoveTileDown | src/lib.rs:72-92 | one popped tile of column i is pushed toward the bottom row and the other columns are left alone |
| GameLogic.Board.MoveAllUp | src/lib.rs:97-127 | the new grid is every column slid toward the top row |
| GameLogic.Board.SlideColumnUp | src/lib.rs:98-126 | one pass of the outer loop slides column i and leaves the other columns alone |
| GameLogic.Board.MoveTileUp | src/lib.rs:105-124 | one popped tile of column i is pushed toward the top row and the other columns are left alone |
| GameLogic.Board.MoveAllRight | src/lib.rs:128-158 | the new grid is every row slid toward the rightmost column |
| GameLogic.Board.SlideRowRight | src/lib.rs:129-157 | one pass of the outer loop slides row i and leaves the other rows alone |
| GameLogic.Board.MoveTileRight | src/lib.rs:136-156 | one popped tile of row i is pushed toward the rightmost column and the other rows are left alone |
| GameLogic.Board.MoveAllLeft | src/lib.rs:160-190 | the new grid is every row slid toward the leftmost column |
| GameLogic.Board.SlideRowLeft | src/lib.rs:161-189 | one pass of the outer loop slides row i and leaves the other rows alone |
| GameLogic.Board.MoveTileLeft | src/lib.rs:168-188 | one popped tile of row i is pushed toward the leftmost column and the other rows are left alone |
| GameLogic.Board.EmptyCellList | src/lib.rs:193-201 | the nested loops collect the empty cells in row-major order, which are exactly the cells that are 0 |
| GameLogic.Board.SpawnOneRandom | src/lib.rs:191-207 | the chosen empty cell in row-major order becomes 2 or 4; a grid with no empty cell is unchanged |
| GameLogic.Board.Won | src/lib.rs:208-210 | the result is true exactly when some cell holds 2048 |
| GameLogic.Board.Lost | src/lib.rs:212-232 | the result is true exactly when no cell is 0 and no horizontally or vertically adjacent cells are equal |
| GameLogic.Board.CalculateScore | src/lib.rs:234-238 | the result is the sum of all cells, it is stored as the high score, and the grid is unchanged |
| Keys.MenuSelectionStaysOnButtons | src/events/app.rs:99-109 | in the menu the highlighted button stays 0 or 1 and each key moves it by at most one |
| Keys.MenuArrowsSelect | src/events/app.rs:99-109 | in the menu exactly Left or h highlights button 0 and exactly Right or l highlights button 1 |
| Keys.MenuNeverMoves | src/events/app.rs:92-124 | no key in the menu moves the board or switches to the menu again |
| Keys.PlayingArrowsMove | src/events/app.rs:126-145 | while playing, exactly the arrow key of a direction moves the board in that direction |
| Keys.PlayingNeverQuits | src/events/app.rs:126-150 | while playing no key sends Quit, Ctrl+C is ignored, and exactly Esc and q return to the menu |
| EventsApp.StartsOnlyFromFirstButton | src/events/app.rs:86-124 | a game starts exactly on a press of e or E in the menu with button 0 highlighted |
| EventsApp.MovesOnlyWhilePlaying | src/events/app.rs:86-150 | the board moves in a direction exactly on a press of that arrow key while playing |
| EventsApp.QuitRequests | src/events/app.rs:86-164 | Quit is sent exactly on a press of Esc, q or Ctrl+C outside the playing screen, or of e/E in the menu with button 1 highlighted |
| EventsApp.App.constructor | src/events/app.rs:31-45 | the application starts running, in the menu, on button 0, with an empty board and nothing sent |
| EventsApp.App.HandleKeyEvent | src/events/app.rs:86-168 | a key that is not a press changes nothing; otherwise the sent events, the button, the screen and the board change as the screen's reaction to the key says, and the button stays 0 or 1 and every cell stays a tile |
| EventsApp.App.HandleMenuKey | src/events/app.rs:92-124 | the menu's reaction decides the sent events, the button and the screen; the board becomes the seeded grid exactly when a game starts and is unchanged otherwise |
| EventsApp.App.HandlePlayingKey | src/events/app.rs:126-150 | an arrow key moves the board in its direction and then spawns; Esc and q return to the menu with the board unchanged; every cell stays a tile |
| EventsApp.App.HandleQuitKeys | src/events/app.rs:152-164 | Quit is sent exactly for Esc, q and Ctrl+C, and nothing else changes |
| EventsApp.App.PlayTurn | src/events/app.rs:127-145 | the board becomes the moved grid with one tile spawned, and every cell stays a tile |
| EventsApp.App.Quit | src/events/app.rs:182-184 | running becomes false and nothing else changes |
| LegacyApp.ReactsToEveryKind | r2048/src/app.rs:88-128 | a repeat or release acts like a press, and no key moves the board or returns to the menu |
| LegacyApp.StartsOnlyFromMenu | r2048/src/app.rs:89-113 | a game starts exactly on e or E in the menu with button 0 highlighted |
| LegacyApp.App.constructor | r2048/src/app.rs:33-43 | the application starts running, in the menu, on button 0, with an all-zero board and nothing sent |
| LegacyApp.App.InitBoard | r2048/src/app.rs:51-61 | 2 is written at the two chosen positions and every other cell keeps its value |
| LegacyApp.App.HandleKeyEvent | r2048/src/app.rs:88-128 | the sent events, the button, the screen and the board change as the screen's reaction to the key says; the board is empty while the menu is shown, so a started game holds exactly the two seeded tiles |
| LegacyApp.App.Quit | r2048/src/app.rs:137-139 | running becomes false and nothing else changes |

## Left out

- Cells are unbounded naturals, not `u32`, so the model has no overflow. Two operations could overflow. A merge (`+=`) overflows only when a cell reaches 2^31. `calculate_score` overflows only when the cells sum to 2^32 or more. Moves keep the sum, so a real game stays far from both limits.
- The list of the 16 positions that `init_board` samples from is not built; the sample itself is the parameter pair of positions.
- Random distributions are not modelled: the uniform choice among empty cells, the `f32 < 0.9` choice between 2 and 4, and the uniform sample of two start positions. Each choice is a parameter that may take any allowed value.
- `high_score` is a `Cell<u32>` in the source, so `calculate_score` writes it through a shared reference. The model writes a plain field instead, which is why `CalculateScore` may modify the board object.
- `won` and `calculate_score` use the iterators `any` and `sum`. The model writes these as row-major loops. `any` stops at the first 2048, and so does `Won`.
- Each stack entry is a pair `(value, index)`, and the model keeps both halves. The value half is never read, in the source or in the model.
- `run`, `handle_events`, `tick` and the event channel (`EventHandler`) are not modelled. This includes delivering a sent Quit to `quit`. Each application's `sent` field records what `handle_key_event` queues.
- A crossterm `KeyEvent` is reduced to its code, a flag that says whether the modifiers are exactly CONTROL, and its kind. Its `state` field and other modifier combinations are not modelled. The `Ok(())` result of `handle_key_event` is not modelled.
- Nothing in `src/events/app.rs` enters the Won or Lost screens, so the model has no such transitions. The model has only the quit-key handling that those screens use.
- Rendering (`src/tui/ui.rs`, `r2048/src/tui/ui.rs`, `r2048/src/ui.rs`), the colour table `decoration::get_background_color`, the score database `src/db.rs` and process startup `src/main.rs` are not part of this model.
