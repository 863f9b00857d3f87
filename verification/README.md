# Star Wars Pac-Man: a verified model of the game logic

The game (`starwars_pacman_game/game.py`) is a grid maze in the style of
Pac-Man. The player steers Master Yoda or Luke Skywalker with the arrow keys.
Stormtroopers, Kylo Rens and Darth Vaders enter at five doors and chase the
player along shortest paths:

- Stormtroopers move one cell per turn through open cells.
- Kylo Rens move two cells per turn through open cells.
- Darth Vaders move one cell per turn through walls, opening each wall cell
  they step on.

An enemy on the player's cell once the next frame's keys have been handled
costs health and sends everyone back to their start. A player who steps off
that cell first, or swaps cells with an enemy within one frame, is not hit. Reaching cell (13, 9) wins the game.

This project models, in Dafny, the part of the game that decides what
happens:

- reading the map and the enemy roster from the configuration text;
- a character's move;
- health loss;
- the breadth-first search each enemy kind uses;
- the collision check and the two resets;
- the per-frame update of the main loop.

Modules:

- `Results`: `Option` and `Result`. A Python exception the core can raise
  (`ValueError` from `int`, `IndexError` from a short line, `NameError` from
  a door that was never set) becomes an `Err`.
- `Geometry`: cells, directions, the grid as a rectangular `seq<seq<int>>`
  (1 is open, 0 is a wall), the five door cells, the start cell (6, 5) and
  the winning cell (13, 9).
- `Text`: the string operations the configuration reading uses. These are
  `strip`, `split` on one character, `startswith`, `in`, and `int`/`str` on
  decimal numbers.
- `MapLoader`: `load_map`. It is a loop over the lines, proved equal to a
  fold, with a round trip: rendering a grid as tab-separated lines and
  loading it gives the grid back.
- `Spawning`: the configuration loop that places enemies at doors. It is a
  loop over the lines, proved equal to a fold. Lemmas show the roster it
  builds stays consistent, and show what a well-formed `Character: X, Door: Y`
  line does.
- `Characters`: `Character.move`, and the health of the two player
  characters. A class `Player` has a mutable position and health.
- `Pathfinding`: one breadth-first search, parameterised by whether walls
  block. It is written as the source's loop:
  - a queue;
  - cells marked visited when dequeued;
  - parents overwritten on every enqueue;
  - the path rebuilt through the parents and reversed.

  It is proved to return a shortest path, or `[]` exactly when the goal is
  unreachable.
- `Routes`: facts about shortest paths. Darth Vader's search always
  succeeds, with Manhattan-distance length. A suffix of a shortest path is
  shortest.
- `Pursuit`: the enemies' turn. Each kind's loop is proved to move every
  enemy along some shortest path to the player, by 1 or 2 cells. For
  Darth Vaders, it is also proved to open exactly the wall cells they
  stepped on.
- `Play`: the game state as a class `Game`, with these operations:
  - `check_and_reset`;
  - the state-changing part of `reset_game`;
  - the enemies' turn;
  - one frame of the main loop, `Step`.

Health is counted in half hearts. 3 hearts is 6. Yoda loses 1 (half a heart)
per hit and Luke loses 2 (one heart).

Some behaviours of the source are modelled as written:

- **Stale door.** A door letter outside A–E keeps the door of an earlier
  line. If no door was ever set, a known character kind on that line is an
  error.
- **Win frame.** A frame in which the player reaches the winning cell resets
  the game. It then still runs the collision check, and the enemies' turn
  if a key was pressed. So on the fresh board the enemies have already taken
  one step toward the start cell.

## Model

| member | source | states |
|---|---|---|
| Characters.MoveTarget | starwars_pacman_game/game.py:69-80 | the character goes to the neighbouring cell in the key's direction exactly when that cell is inside the grid and holds 1, and otherwise stays; the result is always inside the grid |
| Characters.Damage | starwars_pacman_game/game.py:109-124 | definition: the health one hit costs, in half hearts: 1 (0.5 of a heart) for Yoda, 2 (1 heart) for Luke; always positive |
| Characters.MoveIsStepOrStay | starwars_pacman_game/game.py:69-80 | a move ends on the same cell or on an adjacent open cell |
| Characters.Player.Move | starwars_pacman_game/game.py:69-80 | the character's new position is the move target of its old position for that direction; health is unchanged |
| Characters.AfterHit | starwars_pacman_game/game.py:109-124 | a hit never raises health; it leaves 0 exactly when health was at most the damage (half a heart for Yoda, one for Luke), and otherwise removes exactly the damage |
| Characters.Player.DecreaseHealth | starwars_pacman_game/game.py:109-110 | the character's health becomes the after-hit value for its own kind; position unchanged |
| Characters.Player.SetHealth | starwars_pacman_game/game.py:112-113 | health becomes the given value; position unchanged |
| Characters.AfterHitsClosedForm | starwars_pacman_game/game.py:109-124 | n hits leave max(health − n·damage, 0) |
| Characters.HitsToFall | starwars_pacman_game/game.py:104-127 | from full health Yoda falls after exactly 6 hits and Luke after exactly 3 |
| Characters.HitAtZero | starwars_pacman_game/game.py:110 | a hit at 0 health leaves 0 |
| Characters.Player.constructor | starwars_pacman_game/game.py:244-245 | a character starts with the given kind, cell and health |
| Geometry.SetCell | starwars_pacman_game/game.py:679-680 | writing one cell keeps the grid's shape and changes that cell only |
| Geometry.AdjacentIsNeighbor | starwars_pacman_game/game.py:153-157 | the four-neighbour list of a cell contains every cell adjacent to it |
| Geometry.NeighborIsAdjacent | starwars_pacman_game/game.py:153-157 | every entry of the neighbour list is adjacent to the cell and differs from it |
| Geometry.DoorPos | starwars_pacman_game/game.py:266-275 | definition: doors A to E are the cells (0, 5), (4, 0), (12, 0), (13, 5) and (4, 10) |
| Pathfinding.ShortestPath | starwars_pacman_game/game.py:136-242 | the search returns `[start]` when start is the goal; a non-empty result is a walk from start to goal with no shorter one; `[]` only when no walk exists (walls ignored for Darth Vader, only cells holding 1 entered for Kylo Ren and Stormtrooper) |
| Pathfinding.Enterable | starwars_pacman_game/game.py:158-161 | definition: the one test that tells the three searches apart. Darth Vader's search admits any cell inside the grid; the Kylo Ren and Stormtrooper searches (lines 196-199 and 233-236) also require the cell to hold 1 |
| Pathfinding.Visit | starwars_pacman_game/game.py:142-162 | one round whose front entry is not the goal (dequeue, mark visited, queue the neighbours) keeps the search invariant and either visits a new cell or drops an entry already visited |
| Pathfinding.Expand | starwars_pacman_game/game.py:153-162 | the queue grows by exactly the neighbours the current cell may enter (walls ignored or not, by enemy kind) that are not yet visited, appended in the game's order left, right, up, down (`Admitted`); each gets the current cell as its parent; older entries and other parents stay |
| Pathfinding.AdmittedLinked | starwars_pacman_game/game.py:153-162 | every cell `Expand` appends is linked from the current cell and not visited |
| Pathfinding.AdmittedHas | starwars_pacman_game/game.py:153-162 | every neighbour the current cell may enter that is not visited is appended |
| Pathfinding.Reconstruct | starwars_pacman_game/game.py:146-151 | following the parents from the goal and reversing gives a shortest path, `[start]` when start is the goal; read backwards, the path is exactly the parent chain from the goal (`ParentTrail`), ending at the start's `None` |
| Pathfinding.Rebuild | starwars_pacman_game/game.py:147-150 | the trail is the parent chain from the goal: each cell's parent is the next cell and the last cell, the start, has none; each step is linked, and the trail is no longer than the goal's breadth-first level |
| Pathfinding.ParentTrailUnique | starwars_pacman_game/game.py:147-150 | the parent links determine the chain from a cell: two chains from the same cell are equal, so `Rebuild` and `Reconstruct` return the one route the source builds |
| Pathfinding.Reverse | starwars_pacman_game/game.py:151 | `path[::-1]`: same length, element i is element n−1−i of the input |
| Pathfinding.ReversedTrailConnects | starwars_pacman_game/game.py:147-151 | reversing a linked goal-to-start trail gives a walk from start to goal |
| Pathfinding.GoalFound | starwars_pacman_game/game.py:142-151 | when the goal is dequeued, its level bounds the length of every walk to it, and the parents form a chain back to the start |
| Pathfinding.Advance | starwars_pacman_game/game.py:142-162 | one dequeue-and-expand step keeps the search invariant and strictly decreases the termination measure |
| Routes.WalkSpansDistance | starwars_pacman_game/game.py:153-157 | a walk has at least Manhattan-distance + 1 cells |
| Routes.WalkableRouteCells | starwars_pacman_game/game.py:197-200 | every cell after the first on a Kylo Ren or Stormtrooper walk holds 1 |
| Routes.IgnoreWallsShapeOnly | starwars_pacman_game/game.py:159-162 | Darth Vader's walks depend only on the grid's size, not on its contents |
| Routes.OpenGridSameWalks | starwars_pacman_game/game.py:159-162 | on a grid of open cells, the two neighbour tests allow the same walks |
| Routes.LRoute | starwars_pacman_game/game.py:153-162 | between any two cells there is a walk of Manhattan-distance + 1 adjacent cells, all inside their bounding box |
| Routes.IgnoreWallsDistance | starwars_pacman_game/game.py:136-168 | Darth Vader's search between two cells of the grid never fails, and a shortest path is Manhattan-distance + 1 long |
| Routes.ShortestSuffix | starwars_pacman_game/game.py:136-242 | every suffix of a shortest path is a shortest path from its first cell |
| Routes.IgnoreWallsStepCloser | starwars_pacman_game/game.py:674-677 | the second cell of Darth Vader's path is one step closer to the target |
| Pursuit.AdvanceTroopers | starwars_pacman_game/game.py:662-665 | every Stormtrooper moves to the second cell of some shortest open-cell path to the player, stays if it is on the player, and stays if there is no path |
| Pursuit.AdvanceKylos | starwars_pacman_game/game.py:667-672 | every Kylo Ren moves to the third cell of some shortest open-cell path, or its second cell when the path has only two, and stays if there is no path |
| Pursuit.AdvanceVaders | starwars_pacman_game/game.py:674-680 | every Darth Vader moves one cell along some shortest wall-ignoring path; the grid afterwards is the old grid with exactly the cells Vaders moved onto opened |
| Pursuit.Landed | starwars_pacman_game/game.py:676-678 | the cells Vaders moved onto are exactly the new positions of the Vaders that moved |
| Pursuit.Carve | starwars_pacman_game/game.py:679-680 | opening a set of cells keeps the grid's shape, sets walls in the set to 1 and leaves every other cell as it was |
| Pursuit.VaderTurn | starwars_pacman_game/game.py:674-680 | one Darth Vader's turn: it moves one cell along some shortest wall-ignoring path (stays when none is longer than one cell), and the grid changes only where it steps onto a wall, which becomes 1 |
| Pursuit.ChaseFromPath | starwars_pacman_game/game.py:662-680 | taking the cell `speed` steps along a shortest path (or staying when there is no path) is a move by the chase rule |
| Pursuit.VaderStep | starwars_pacman_game/game.py:674-680 | one iteration of the Vader loop extends the chase and carve facts from the first i Vaders to the first i+1 |
| Pursuit.ChasesShapeOnly | starwars_pacman_game/game.py:674-680 | cells opened by earlier Vaders do not change how a later Vader chases |
| Pursuit.ChaseCloses | starwars_pacman_game/game.py:662-680 | after its turn an enemy's shortest path to the player is shorter by its speed, or it has reached the player |
| Pursuit.ChaseStaysOnTarget | starwars_pacman_game/game.py:664 | an enemy already on the player does not move |
| Pursuit.ChaseLanding | starwars_pacman_game/game.py:662-672 | enemies stay inside the grid, and a Stormtrooper or Kylo Ren that moves lands on an open cell |
| Pursuit.VaderCloses | starwars_pacman_game/game.py:674-677 | a Darth Vader not on the player gets exactly one step closer in Manhattan distance |
| Text.StripShape | starwars_pacman_game/game.py:33 | `strip` removes exactly a prefix and a suffix of white space (the characters `str.isspace` accepts), leaving text that starts and ends with another character |
| Text.StripPadded | starwars_pacman_game/game.py:33 | stripping a padded text with no white space at its ends gives the text back |
| Text.Strip | starwars_pacman_game/game.py:33 | definition of `str.strip`: white space trimmed from the front, then from the back; `StripShape` states what is removed |
| Text.SplitShape | starwars_pacman_game/game.py:34 | joining the pieces of `split` with the separator gives the line back, and no piece holds the separator |
| Text.SplitJoin | starwars_pacman_game/game.py:34 | splitting undoes joining separator-free pieces |
| Text.Split | starwars_pacman_game/game.py:34 | definition of `str.split` on one character; there is always at least one piece, and `SplitShape` and `SplitJoin` pin the result down |
| Text.FirstIndex | starwars_pacman_game/game.py:262 | the position found holds the separator and no earlier position does |
| Text.ParseInt | starwars_pacman_game/game.py:34 | `int` succeeds exactly when the stripped text is an optional sign followed by digits, with single underscores between digits (leading zeros allowed), and no separator U+001C to U+001F was stripped around it; the value is the digits' value, negated after `-` |
| Text.ParseDecimal | starwars_pacman_game/game.py:34 | `int(str(n)) == n` for every integer |
| MapLoader.ParseFieldsOk | starwars_pacman_game/game.py:34 | a row parses exactly when every tab-separated field is an integer |
| MapLoader.IsGridLine | starwars_pacman_game/game.py:33 | definition: a line is a map row when, stripped, it is not empty and starts with neither `Character` nor `Door` |
| MapLoader.ParseFields | starwars_pacman_game/game.py:34 | `[int(x) for x in fields]`: the first field `int` refuses is the error; on success there is one value per field |
| MapLoader.LoadMap | starwars_pacman_game/game.py:29-35 | the loop's result is the fold that skips blank, `Character` and `Door` lines and appends one parsed row per other line, failing at the first bad field |
| MapLoader.LoadErrorSticks | starwars_pacman_game/game.py:29-35 | once a line fails to parse, later lines do not change the outcome |
| MapLoader.RowRoundTrip | starwars_pacman_game/game.py:33-34 | a row written as tab-separated integers is a map line and reads back as the same row |
| MapLoader.MapRoundTrip | starwars_pacman_game/game.py:29-35 | a grid written one row per line, followed by any non-map lines, loads back as the same grid |
| MapLoader.OtherLinesSkipped | starwars_pacman_game/game.py:33 | appending blank, `Character` or `Door` lines does not change what is loaded |
| MapLoader.AllGridLines | starwars_pacman_game/game.py:29-35 | lines that are all map lines, each parsing to the matching row, load as exactly those rows |
| MapLoader.BareLine | starwars_pacman_game/game.py:33 | a line with no white space at either end that starts with neither `C` nor `D` is kept as a map line and is unchanged by `strip` |
| Spawning.KindNamed | starwars_pacman_game/game.py:277-293 | only "Stormtrooper", "Kyloren" and "Darthvader" name an enemy kind |
| Spawning.DoorLettered | starwars_pacman_game/game.py:266-275 | only "A" to "E" name a door |
| Spawning.Spawn | starwars_pacman_game/game.py:277-293 | spawning appends the door cell to that kind's list, records it as the start of the new index, and leaves the other kinds and the door alone |
| Spawning.ParseRequest | starwars_pacman_game/game.py:260-264 | a line is ignored exactly when its stripped text lacks `Character:` or `Door:`; a line with both fails with an `IndexError` exactly when it has no `,`, or no `:` before its first `,`, or none between its first and second `,` |
| Spawning.Apply | starwars_pacman_game/game.py:266-293 | a request fails exactly when it names a known kind, its letter names no door, and no door was set before; a known letter replaces the door in force, any other keeps it; a known name appends exactly one enemy of that kind on the door in force (possibly one set by an earlier line) and records it as the start under the kind's old count; an unknown name appends nothing, and the other kinds are unchanged |
| Spawning.SpawnLine | starwars_pacman_game/game.py:260-293 | definition: one pass of the loop body. A parse error ends the loop, a line without both keys leaves the roster as it is, and any other line is handled by `Apply` |
| Spawning.SpawnEnemies | starwars_pacman_game/game.py:259-293 | the loop over the configuration lines computes the fold of the per-line step |
| Spawning.SpawnErrorSticks | starwars_pacman_game/game.py:259-293 | once a line raises, later lines do not change the outcome |
| Spawning.SpawnLineKeeps | starwars_pacman_game/game.py:260-293 | one line keeps the roster consistent (starts by index, every enemy and the door on a door cell) and only appends to the lists |
| Spawning.SpawnedWell | starwars_pacman_game/game.py:259-293 | a roster read without error is consistent |
| Spawning.SpawnTextRead | starwars_pacman_game/game.py:260-293 | the line `Character: X, Door: Y` sets the door to Y and spawns one X there, and the map reader skips it |
| Spawning.GridSpawnsNothing | starwars_pacman_game/game.py:259-261 | map rows in the configuration text spawn nothing |
| Spawning.QuietLinesSkipped | starwars_pacman_game/game.py:261 | lines without both keys do not change the roster |
| Play.WalkReach | starwars_pacman_game/game.py:618-649 | a frame's arrow keys move the player at most one cell per key, ending where it started or on an open cell |
| Play.Walk | starwars_pacman_game/game.py:618-649 | definition: the player's cell after one frame's arrow keys, each applied in order by `move`; the player stays inside the grid |
| Play.Homes | starwars_pacman_game/game.py:534-544 | the start positions of one kind, by index |
| Play.Rewind | starwars_pacman_game/game.py:534-536 | the loop puts enemy i on start position i, for every i |
| Play.DoorInside | starwars_pacman_game/game.py:266-275 | door cells lie inside the grid and differ from the players' start cell |
| Play.RosterFits | starwars_pacman_game/game.py:259-293 | every enemy the configuration placed, and every start position, is a door cell inside the grid |
| Play.KeepInside | starwars_pacman_game/game.py:660-680 | the enemies' turn keeps every enemy inside the grid |
| Play.Game.constructor | starwars_pacman_game/game.py:244-254 | the game starts on the loaded grid with its copy, both characters on (6, 5) with 3 hearts, the roster from the configuration and the chosen character selected |
| Play.Game.ResetEnemies | starwars_pacman_game/game.py:569-579 | every enemy is back on its start position; nothing else changes |
| Play.Game.Enemies | starwars_pacman_game/game.py:514 | definition: `storm_troopers + kylo_rens + darth_vaders`, in that order |
| Play.Game.CheckAndReset | starwars_pacman_game/game.py:516-554 | a hit happens exactly when the selected character's cell holds an enemy; then it loses health once, the grid is the original, every enemy is on its start and the character on (6, 5); otherwise nothing changes; the other character is never touched |
| Play.Game.ResetGame | starwars_pacman_game/game.py:556-581 | grid restored, both characters on (6, 5) with 3 hearts, every enemy on its start, the chosen character selected |
| Play.Game.AdvanceEnemies | starwars_pacman_game/game.py:660-682 | Stormtroopers, Kylo Rens and Darth Vaders each chase the player as stated by the pursuit loops, on the grid as it was before the turn, and the grid gains exactly the cells Vaders moved onto |
| Play.Game.Steer | starwars_pacman_game/game.py:618-649 | the selected character ends where the frame's keys walk it; a move is recorded exactly when a key was pressed |
| Play.Game.Step | starwars_pacman_game/game.py:651-682 | one frame: a collision happens exactly when the walked-to cell holds an enemy and is not the winning cell; a win resets the game; a collision costs one hit, restores the grid, puts every enemy back on its start with the counts unchanged, the player on the start cell and, at 0 health, resets the game; otherwise the player stands on its walked-to cell and, if a key was pressed, the enemies take their turn |
| Play.Game.StartsAwayFromSpawn | starwars_pacman_game/game.py:651-654 | with every enemy on its start, none is on the players' start cell, so the collision check right after a win finds nothing |

## Left out

- Drawing, images, fonts, sound, the frame clock, waits, the health display
  and the win, game-over and selection screens are not modelled. The
  selection screen's answer is a parameter (`choice`) of the operations that
  call it.
- Event polling is not modelled. A frame's arrow-key presses are given as a
  sequence of directions. Other keys, and keys pressed while neither player
  character is selected, are not modelled. The `QUIT` event ends the program
  and is not modelled.
- Reading files is not modelled. The configuration and map files are given
  as sequences of lines.
- Character names and the "good"/"evil" type strings are not modelled,
  together with their getters, setters and `show_info`. They are display
  data only.
- Health is a float in the source. It is modelled as a natural number of
  half hearts, which represents every value the game can reach exactly.
- The grid is assumed rectangular and non-empty (`WellFormed`). The source
  reads its width from the first row and its height from the row count.
- Play.Game.constructor: also requires the grid to be at least 14 cells wide
  and 11 high, so that every door cell and the start cell lie inside it. The
  source does not check this.
- Text.ParseInt: accepts only the ASCII digits 0 to 9. Python's `int` also
  accepts the decimal digits of other scripts. It also accepts a number of any
  length. CPython 3.11 and later raise `ValueError` for a decimal string of
  more than 4300 digits by default.
- Text.Split: models splitting on a single character only, which is all the
  source uses.
- Spawning.ParseRequest: its contract says when a line is ignored and when
  it is an `IndexError`, but not which texts a well-formed line yields. That
  is stated for the file's own form, `Character: X, Door: Y`, by
  `Spawning.SpawnTextRead`.
- Pathfinding.ShortestPath: among several shortest paths, which one the
  search picks (its tie-breaking by neighbour order) is not stated. The
  enemies' moves (`Pursuit.Chases`) are therefore specified up to that
  choice.
- Pathfinding.Reconstruct: is a shortest path and the reversed parent
  chain. Which shortest path the neighbour order makes the search pick is
  not stated, as for `Pathfinding.ShortestPath`.
- Pursuit.AdvanceTroopers: each Stormtrooper's move is stated up to which
  shortest path the search picks, as for `Pathfinding.ShortestPath`.
- Pursuit.AdvanceKylos: each Kylo Ren's move is stated up to which shortest
  path the search picks, as for `Pathfinding.ShortestPath`.
- Pursuit.AdvanceVaders: each Darth Vader's move is stated up to which
  shortest path the search picks, as for `Pathfinding.ShortestPath`. The
  carving that follows is exact.
- Pursuit.VaderTurn: one Darth Vader's move is stated up to which shortest
  path the search picks. The carving rule is exact.
- Play.Game.AdvanceEnemies: every enemy's move is stated up to which
  shortest path the search picks, as for `Pathfinding.ShortestPath`.
- Play.Game.Step: the enemies' moves in a frame are stated up to which
  shortest path the search picks. The rest of the frame is exact.
- Python exceptions inside the core (`ValueError`, `IndexError`,
  `NameError`) are modelled as `Err` results, not as program termination.
