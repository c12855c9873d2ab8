# Rubik's cube emulator: the `Cube` class

This project models the `Cube` class of `rubiks.py`, an emulator of an
N×N×N Rubik's cube, and proves properties of it in Dafny.

A cube is a 6×N×N array of colour ids. Face f of a new cube is filled with
colour f: red 0, white 1, green 2, yellow 3, blue 4, orange 5. An action is
an integer below 12 + 4(N-2):

- Actions 0 to 11 turn face `action // 2`: clockwise when the action is
  even, counter-clockwise when it is odd. `rotate_face` turns the face's own
  grid through a table of `np.take` indices. `rotate_edges` then moves the
  four adjacent edge lines from copies taken beforehand.
- Actions from 12 upward turn an inner row slice (orientation 0) or an inner
  column slice (orientation 1). `rotate_middle` decodes the orientation, the
  layer and the direction from the action, then cycles four lines.

The model has two layers.

- Pure layer: modules `Stickers`, `CubeTables`, `Moves`, `Laws`,
  `Conservation` and `Loading`. A cube is a value (`Faces`, a sequence of six
  N×N grids), and each source method is a function on such values:
  - `FaceTurn`, `EdgeTurn`, `SliceTurn` and `Turn` model the rotations;
  - `Scrambled` models `scramble`;
  - `Loaded` and `Rejections` model `load_from_dict`.

  Each line copy is a `Transfer` from a destination line to a source line,
  possibly reversed. `Cycled` writes four transfers from a snapshot, the way
  the source writes from its `*_copy` arrays.
- Imperative layer: module `Rubiks`. Class `Cube` keeps the source's state:
  `faces` is an `array3<int>` that the methods update in place, and
  `takeIndices` is the `cw_rotate_take_idxs` grid. Every method is proved to
  leave `faces` holding the value the pure layer computes. The loops of the
  source (filling the faces, scrambling, loading) stay loops. numpy's
  whole-line assignments become element loops.

What is proved about the pure layer:

- Each action is undone by its partner (the same face or layer turned the
  other way), and has order four.
- Every turn only moves stickers (`TurnAt`), so the number of stickers of
  each colour never changes. A new cube, scrambled by any draws, still shows
  N*N stickers of each of the six colours.
- An outer turn leaves the opposite face alone and changes nothing outside
  the turned face and the four lines it writes. On odd cubes of edge 3 or
  more it keeps all six centres. A slice turn changes only its slice.
- The `face_relations` table describes a cube.
- The sticker keys of the loader name distinct cells of the top-left 3×3
  block of each face.
- `load_from_dict` writes each accepted entry's colour, keeps every cell no
  accepted entry names, and reports exactly the rejected entries, in order.

## Model

| member | source | states |
|---|---|---|
| CubeTables.ColoursAreIds | rubiks.py:28-32 | every colour name and one-letter alias stands for one of the six colour ids 0-5 |
| CubeTables.ColourNamed | rubiks.py:28-32 | every colour name is the full name or the one-letter alias of the id it maps to (red/r 0, white/w 1, green/g 2, yellow/y 3, blue/b 4, orange/o 5) |
| CubeTables.DictMappingCells | rubiks.py:36-43 | every sticker key names a cell with row and column below 3, and the key is that cell's name: face letter U/L/F/R/B/D, then 1-9 in reading order |
| CubeTables.DictMappingInjective | rubiks.py:36-43 | two different sticker keys never name the same cell |
| CubeTables.Neighbour | rubiks.py:52-59 | the face on each side of a face is one of the six faces and not the face itself |
| CubeTables.FaceRelationsFormACube | rubiks.py:52-59 | each face has four distinct neighbours; adjacency is symmetric; exactly one other face, the opposite one, is not adjacent |
| Moves.PartnerValid | rubiks.py:107-108 | the partner of a drawable action is drawable, turns the same face or layer (action // 2) in the other direction (action % 2), and its own partner is the action |
| Moves.ActionCount | rubiks.py:288-292 | random_rotation draws from 12 + 4(N-2) actions: an even number, so actions pair up; at least 12 exactly when N >= 2, so every outer turn can be drawn; more than 12 exactly when N >= 3, so inner slices exist only from edge 3 on |
| Moves.FlatIndexDecodes | rubiks.py:66-67 | in arange(N*N).reshape(N, N), entry (r, c) holds r*N + c, which lies below N*N and gives back row r by // N and column c by % N |
| Moves.TakeIndex | rubiks.py:109-115 | the take grid entry for (i, j) is a flat index below N*N; it reads row N-1-j and column i for a clockwise turn, and row j and column N-1-i for a counter-clockwise one |
| Moves.FaceTurnAt | rubiks.py:106-115 | np.take through the take grid equals the quarter turn: clockwise, (i, j) receives (N-1-j, i); counter-clockwise, it receives (j, N-1-i); the other faces keep their stickers |
| Moves.SliceOrientation | rubiks.py:229 | the orientation rotate_middle decodes from an inner-slice action is 0 (row slice) or 1 (column slice), and such an action exists only when N >= 3 |
| Moves.SliceIndex | rubiks.py:248 | the layer rotate_middle decodes (row_idx here, col_idx at line 270) lies between 1 and N-2: never an outer row or column |
| Moves.SliceDecode | rubiks.py:229-248 | an inner-slice action exists only when N >= 3; it decodes to orientation 0 or 1 and to a layer between 1 and N-2; orientation, layer and direction encode back to the action (12 + orientation·2(N-2) + 2(layer-1) + action % 2); its partner decodes to the same orientation and layer |
| Moves.FaceTurn | rubiks.py:106-115 | contract gives only the shape: the result is again six N×N grids; what the turn moves is stated by Moves.FaceTurnAt |
| Moves.EdgeCycle | rubiks.py:137-222 | the twelve hand-written cases; contract gives only that every line written and read lies inside the cube (CycleInCube); which lines, in which order and which reversed is stated by Laws.EdgeCycleShape, Laws.EdgeCycleLines and Laws.EdgeCycleMissesOpposite |
| Moves.EdgeTurn | rubiks.py:117-222 | contract gives only the shape; its effect is stated by Stickers.CycledAt, Laws.OuterTurnFrame and Laws.OuterTurnKeepsOpposite |
| Moves.LayerCycle | rubiks.py:239-282 | the four slice cycles; contract gives only that every line lies inside the cube; which lines, in which order and which reversed is stated by Laws.LayerCycleShape, and their effect by Laws.LayerInverse, Laws.LayerOrderFour and Laws.SliceTurnFrame |
| Moves.SliceTurn | rubiks.py:224-282 | contract gives only the shape; its effect is stated by Laws.SliceTurnFrame |
| Moves.Turn | rubiks.py:98-104 | contract gives only the shape; its effect is stated by Moves.TurnAt, Laws.TurnInverse, Laws.TurnOrderFour and Conservation.TurnConservesColours |
| Moves.Scrambled | rubiks.py:284-287 | contract gives only the shape; its effect is stated by Conservation.ScrambleConservesColours and Conservation.ScrambledFromSolvedCounts |
| Moves.TurnAt | rubiks.py:98-104 | rotate only moves stickers: after rotate(action), the sticker at p is the one that was at TurnSource(p), a position inside the cube |
| Stickers.CycledAt | rubiks.py:123-144 | writing four lines from copies taken beforehand moves each sticker from one snapshot cell; when two writes cover a cell, the last one decides it |
| Stickers.Solved | rubiks.py:63-70 | the solved cube is six N×N grids, and every sticker of face f has colour f |
| Laws.FaceTurnInverse | rubiks.py:106-115 | rotate_face with an action, then with its partner, gives back every face |
| Laws.FaceTurnOrderFour | rubiks.py:106-115 | four rotate_face calls with the same action give back every face |
| Laws.FaceTurnFixesCentre | rubiks.py:106-115 | on an odd cube the turned face keeps its centre sticker |
| Laws.TurnSourceInverse | rubiks.py:98-104 | the sticker moves of an action and of its partner are inverse to each other |
| Laws.TurnInverse | rubiks.py:98-104 | rotate(action) then rotate(partner) gives back the cube, for every drawable action |
| Laws.TurnOrderFour | rubiks.py:98-104 | four rotate(action) calls give back the cube, for every drawable action |
| Laws.LayerCycleShape | rubiks.py:239-282 | a row slice writes row `index` of faces 4, 5, 2, 0 in that order, a column slice column `index` of faces 1, 5, 3, 0, at the mirrored column N-1-index on face 5; each line is copied from the line written before it in that order (clockwise: stickers move 0→4→5→2→0 or 0→1→5→3→0) or after it (counter-clockwise); a copy is reversed exactly when it is a column copy into or out of face 5 |
| Laws.LayerInverse | rubiks.py:249-282 | the rightwards and leftwards row cycles undo each other, and so do the upwards and downwards column cycles |
| Laws.LayerOrderFour | rubiks.py:249-282 | four slice cycles of the same kind move every sticker back |
| Laws.EdgeCycleShape | rubiks.py:117-222 | the four edge writes go to the up, left, down and right neighbour, in that order; each writes a boundary row or column; each copies the line written next in the order up, left, down, right (clockwise) or the one written before it (counter-clockwise); none or two of them are reversed |
| Laws.EdgeCycleLines | rubiks.py:137-222 | each hand-written edge transfer agrees with face_relations alone: it writes the boundary line of its neighbour g on the side of g where the turned face lies (up: row 0, left: column 0, down: row N-1, right: column N-1), and its copy is reversed exactly when the turn does not carry the neighbour at the first end of the line read (the left neighbour of a row, the up neighbour of a column) onto the neighbour at the first end of the line written; a clockwise turn carries side k+1's neighbour to side k |
| Laws.OuterTurnFrame | rubiks.py:98-222 | an outer turn keeps every sticker that is neither on the turned face nor on one of the four lines the edge cycle writes |
| Laws.OuterTurnOwnFace | rubiks.py:98-115 | on the turned face an outer turn is exactly the quarter turn of rotate_face: the edge cycle writes no line there |
| Laws.EdgeCycleMissesOpposite | rubiks.py:117-222 | no line of an edge cycle lies on the face opposite the turned face |
| Laws.OuterTurnKeepsOpposite | rubiks.py:98-222 | an outer turn leaves the opposite face unchanged |
| Laws.OuterTurnKeepsCentres | rubiks.py:98-222 | on an odd cube with N >= 3, an outer turn keeps all six centre stickers |
| Laws.SliceTurnFrame | rubiks.py:224-282 | a row-slice turn keeps faces 1 and 3 and every row other than its own; a column-slice turn keeps faces 2 and 4 and every cell outside its column (on face 5, outside the mirrored column N-1-index) |
| Conservation.TurnConservesColours | rubiks.py:98-104 | every rotate keeps the number of stickers of each colour |
| Conservation.ScrambleConservesColours | rubiks.py:284-292 | scramble keeps the number of stickers of each colour, whatever actions are drawn |
| Conservation.SolvedCounts | rubiks.py:63-70 | a new cube shows N*N stickers of each colour 0-5 and no sticker of any other colour |
| Conservation.ScrambledFromSolvedCounts | rubiks.py:284-292 | a new cube scrambled by any drawable actions still shows N*N stickers of each colour 0-5 and none of any other colour |
| Loading.Classify | rubiks.py:87-96 | an entry is written exactly when its key is a sticker key and its lower-cased colour is a known colour name. A write goes to the cell the key names, with the id the name stands for: the lower-cased colour is that id's full name or one-letter alias. Otherwise the warning names the key; it is an unknown-colour warning exactly when the key is known, and then it also names the colour as given |
| Loading.Loaded | rubiks.py:79-96 | contract gives only the shape; what loading writes and keeps is stated by Loading.LoadedKeepsUnnamed and Loading.LoadedDictionary |
| Loading.Rejections | rubiks.py:87-96 | one warning per skipped entry and no other, in iteration order: the warning for skipped entry k is its reason from Classify and comes right after the warnings for the skipped entries before k; each warning is the reason of some skipped entry; Loading.NoRejections states when there are none |
| Loading.ReasonsInOrder | rubiks.py:87-96 | the reasons collected from a sequence of outcomes number exactly the skips, and the reason of the k-th outcome, when skipped, stands at the position given by the number of skips before k |
| Loading.OutcomesInCube | rubiks.py:87-92 | on a cube with N >= 3 every accepted entry writes a cell inside the array |
| Loading.AppliedKeepsUnwritten | rubiks.py:87-92 | a cell that no write names keeps its sticker |
| Loading.AppliedLastWriteWins | rubiks.py:87-92 | a cell holds the colour of the last write that names it |
| Loading.LoadedKeepsUnnamed | rubiks.py:79-96 | loading keeps every cell that no accepted entry names |
| Loading.LoadedDictionary | rubiks.py:79-96 | when the keys are distinct, as in a dictionary, every accepted entry's colour ends up in the cell its key names: the cell whose sticker name is the key holds the id whose full name or alias is the lower-cased colour |
| Loading.NoRejections | rubiks.py:79-96 | no warning is produced exactly when every entry is accepted |
| Rubiks.ClockwiseTakeGrid | rubiks.py:66-68 | cw_rotate_take_idxs is a fresh N×N grid whose entry (i, j) is the flat index of (N-1-j, i) |
| Rubiks.SolvedArray | rubiks.py:64-70 | np.zeros followed by faces[f].fill(f) gives a fresh 6×N×N array whose face f holds f everywhere |
| Rubiks.Fill | rubiks.py:70 | fill sets every cell of one face to the value and changes no other cell |
| Rubiks.Cube.constructor | rubiks.py:63-70 | a new cube has edge length N, a fresh faces array holding the solved cube, and the clockwise take grid |
| Rubiks.Cube.Copy | rubiks.py:72-76 | the clone is a new cube with its own fresh faces array, the same edge length and the same stickers, so later turns of one never change the other |
| Rubiks.Cube.CopyFaces | rubiks.py:75 | np.copy returns a fresh array with the same shape and stickers |
| Rubiks.Cube.TakeAt | rubiks.py:109-112 | reading the stored grid, or the stored grid flattened and reversed, gives the take index of the turn |
| Rubiks.Cube.RotateFace | rubiks.py:106-115 | rotate_face leaves the array holding FaceTurn of the previous stickers |
| Rubiks.Cube.ApplyCycle | rubiks.py:123-144 | taking copies first and then writing four lines leaves the array holding Cycled of the previous stickers |
| Rubiks.Cube.RotateEdges | rubiks.py:117-222 | rotate_edges leaves the array holding EdgeTurn of the previous stickers |
| Rubiks.Cube.RotateMiddle | rubiks.py:224-282 | rotate_middle decodes orientation, layer and direction as the source does, and leaves the array holding SliceTurn of the previous stickers |
| Rubiks.Cube.Rotate | rubiks.py:98-104 | rotate leaves the array holding Turn of the previous stickers |
| Rubiks.Cube.RandomRotation | rubiks.py:288-292 | the drawn action is returned and applied |
| Rubiks.Cube.Scramble | rubiks.py:284-287 | scramble applies the drawn actions one after another and leaves the array holding Scrambled of the previous stickers |
| Rubiks.Cube.LoadFromDict | rubiks.py:79-96 | load_from_dict leaves the array holding Loaded of the previous stickers and returns the warnings, Rejections(entries) |
| Rubiks.Cube.Equals | rubiks.py:344-345 | __eq__ is true exactly when both cubes have the same edge length and the same sticker at every position |

## Left out

- `__repr__`, `main` and `main.py` are not part of this model. They only print the cube or parse the command line.
- Randomness: `random.choice` is not modelled. `RandomRotation` and `Scramble` take the drawn actions as parameters. The default of 25000 iterations becomes the length of that sequence.
- Printed warnings: `load_from_dict` prints a warning for each rejected entry, and another when N != 3. The model returns the rejected entries as `Rejection` values. The N != 3 warning is dropped.
- Rubiks.Cube.Rotate: requires a drawable action, 0 <= action < 12 + 4(N-2), and N >= 1. `RandomRotation` requires the same of its draw and `Scramble` of every draw. The helpers ask for their own range: `RotateFace` takes 0 <= action < 12 on any N, `RotateEdges` takes 0 <= action < 12 with N >= 1, and `RotateMiddle` takes 12 <= action < 12 + 4(N-2). The source also accepts other integers, and that behaviour is not modelled:
  - For N >= 3, actions at or above 12 + 4(N-2) decode to an orientation of 2 or more and turn a column slice.
  - For N = 2, every action from 12 up divides by zero when it decodes the orientation.
  - For N = 1, actions 8 to 11 turn a face. From 12 up, odd actions turn a column-0 slice, and even actions raise IndexError.
  - Actions -1 to -12 turn face 5 down to face 0 (floor division, with numpy indexing from the end). They then raise KeyError at the `face_relations` lookup, leaving that face turned. Actions below -12 raise IndexError before anything changes.
  - For N = 0 the edge writes index an empty array and fail.
- Rubiks.Cube.constructor: the edge length is a `nat`. For a negative edge length `np.zeros` raises ValueError; that case is not modelled.
- Rubiks.Cube.LoadFromDict: requires N >= 3. Every sticker key names a cell with row and column below 3. For N < 3 the source raises IndexError at the first accepted entry whose row or column is N or more, after writing the earlier entries; for N = 0 that is the first accepted entry. Accepted entries whose row and column are below N succeed. That partial behaviour is not modelled.
- Loading.Classify: lower-casing is ASCII-only (`Lower`). Python's `str.lower()` also maps other characters, but none of them to a string that is a colour name. So acceptance is the same. The reported colour is the original text in both.
- The dictionary is modelled as the sequence of its `(key, colour)` items in iteration order. Colour values that are not strings, on which `.lower()` would fail, are not modelled.
- Colour ids are `int`. The source stores `np.uint8`, but every value written is a colour id from 0 to 5, so no wrap-around can occur.
- The source copies only the affected faces before writing (`u_face_copy`, `f_face_copy` and so on). `ApplyCycle` copies the whole array. Every line read comes from a copied face in both, so the values written are the same.
- numpy views are not modelled as aliases. A write through `l_face.transpose()[-1]` becomes element writes into `faces`.
- Rubiks.Cube.Copy: deep-copy independence is stated as freshness of the clone and its `faces` array. A fresh array shares no storage with the original, so later writes to one cannot change the other.
