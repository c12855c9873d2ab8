/** The actions of rubiks.py as functions on Faces: the face turn through the
    take-index grid, the twelve hand-written edge cycles, the inner-slice
    cycles, and the dispatch of `rotate`. */
module Moves {
  import opened Stickers
  import opened CubeTables
  import opened IndexArith

  /** Number of actions: 12 outer turns plus 4 for each of the N-2 inner layers
      (rubiks.py:290). Actions come in pairs; every outer turn is drawable from
      edge 2 on, and inner slices exist exactly from edge 3 on. */
  function ActionCount(n: int): (count: int)
    ensures count % 2 == 0
    ensures 12 <= count <==> 2 <= n
    ensures 12 < count <==> 3 <= n
  {
    DivModUnique(12 + 4 * (n - 2), 2, 6 + 2 * (n - 2), 0);
    12 + 4 * (n - 2)
  }

  /** An action that `rotate` handles: one that random_rotation can draw, on a
      cube with at least one sticker per edge. */
  predicate ValidAction(n: nat, action: int)
  {
    1 <= n && 0 <= action < ActionCount(n)
  }

  /** The action turning the same face or slice the other way (even and odd actions pair up). */
  function Partner(action: int): int
  {
    if action % 2 == 0 then action + 1 else action - 1
  }

  /** Partner actions turn the same face or layer (action / 2) the other way. */
  lemma PartnerSameLayer(action: int)
    requires 0 <= action
    ensures 0 <= Partner(action) && Partner(Partner(action)) == action
    ensures Partner(action) / 2 == action / 2 && Partner(action) % 2 == 1 - action % 2
  {
    var half := action / 2;
    if action % 2 == 0 {
      DivModUnique(action + 1, 2, half, 1);
    } else {
      DivModUnique(action - 1, 2, half, 0);
    }
  }

  /** The action count is even, so the partner of a drawable action is drawable. */
  lemma PartnerValid(n: nat, action: int)
    requires ValidAction(n, action)
    ensures ValidAction(n, Partner(action)) && Partner(Partner(action)) == action
    ensures Partner(action) / 2 == action / 2 && Partner(action) % 2 == 1 - action % 2
  {
    PartnerSameLayer(action);
  }

  // ---------------------------------------------------------------- face turn

  /** Row-major flat index of (r, c), the layout of arange(N*N).reshape(N, N). */
  function FlatIndex(n: int, r: int, c: int): int
  {
    r * n + c
  }

  lemma FlatIndexDecodes(n: nat, r: int, c: int)
    requires 0 <= r < n && 0 <= c < n
    ensures 0 <= FlatIndex(n, r, c) < n * n
    ensures FlatIndex(n, r, c) / n == r && FlatIndex(n, r, c) % n == c
  {
    RowStart(r, n);
    DivModUnique(FlatIndex(n, r, c), n, r, c);
  }

  /** Entry (i, j) of the clockwise take grid built in rubiks.py:66-68,
      flip(transpose(arange(N*N).reshape(N, N)), axis 1): the transpose swaps
      the coordinates and the flip mirrors the column. */
  function ClockwiseTakeIndex(n: int, i: int, j: int): int
  {
    FlatIndex(n, n - 1 - j, i)
  }

  /** Entry (i, j) of the grid rotate_face takes from (rubiks.py:109-112): the
      clockwise grid, or for a counter-clockwise turn that grid flattened and
      reversed. np.take reads the flat index k at row k / N, column k % N, so
      the turn sends old[N-1-j][i] (clockwise) or old[j][N-1-i]
      (counter-clockwise) to (i, j). */
  function TakeIndex(n: nat, rotation: int, i: int, j: int): (k: int)
    requires 0 <= i < n && 0 <= j < n
    ensures 0 <= k < n * n
    ensures k / n == (if rotation == 0 then n - 1 - j else j)
    ensures k % n == (if rotation == 0 then i else n - 1 - i)
  {
    if rotation == 0 then
      FlatIndexDecodes(n, n - 1 - j, i);
      ClockwiseTakeIndex(n, i, j)
    else
      var q := n * n - 1 - FlatIndex(n, i, j);
      assert q == FlatIndex(n, n - 1 - i, n - 1 - j);
      FlatIndexDecodes(n, n - 1 - i, n - 1 - j);
      FlatIndexDecodes(n, j, n - 1 - i);
      ClockwiseTakeIndex(n, q / n, q % n)
  }

  /** rotate_face (rubiks.py:106-115): face action/2 is replaced by np.take of
      itself through the take grid; the other faces are kept. */
  function FaceTurn(s: Faces, n: nat, action: int): (r: Faces)
    requires Shaped(s, n) && 0 <= action < 12
    ensures Shaped(r, n)
  {
    var face, rotation := action / 2, action % 2;
    seq(6, f requires 0 <= f < 6 =>
      if f != face then s[f]
      else
        seq(n, i requires 0 <= i < n =>
          seq(n, j requires 0 <= j < n =>
            var k := TakeIndex(n, rotation, i, j);
            s[f][k / n][k % n])))
  }

  /** The quarter turn of a grid written as a formula: clockwise, (i, j)
      receives (N-1-j, i); counter-clockwise, (j, N-1-i). Other faces stay. */
  function FaceSource(n: nat, action: int, p: Pos): Pos
  {
    var face, rotation := action / 2, action % 2;
    if p.face != face then p
    else if rotation == 0 then Pos(face, n - 1 - p.col, p.row)
    else Pos(face, p.col, n - 1 - p.row)
  }

  /** The source's take-grid turn is the quarter turn of the formula. */
  lemma FaceTurnAt(s: Faces, n: nat, action: int, p: Pos)
    requires Shaped(s, n) && 0 <= action < 12 && InCube(n, p)
    ensures InCube(n, FaceSource(n, action, p))
    ensures At(FaceTurn(s, n, action), n, p) == At(s, n, FaceSource(n, action, p))
  {
    if p.face == action / 2 {
      var k := TakeIndex(n, action % 2, p.row, p.col);
      assert At(FaceTurn(s, n, action), n, p) == s[p.face][k / n][k % n];
    }
  }

  // ---------------------------------------------------------------- edge cycles

  /** rotate_edges (rubiks.py:117-222): the four line transfers for each face
      and direction, in the order the source writes them (up, left, down,
      right neighbour as named by face_relations). X[-1] is the row N-1 and
      X.transpose()[-1] the column N-1. */
  function EdgeCycle(n: nat, action: int): (ts: seq<Transfer>)
    requires 1 <= n && 0 <= action < 12
    ensures CycleInCube(n, ts)
  {
    var face, rotation := action / 2, action % 2;
    var u, l, d, r := Neighbour(face, Up), Neighbour(face, Left), Neighbour(face, Down), Neighbour(face, Right);
    var last := n - 1;
    if face == 0 then
      if rotation == 0 then
        [Transfer(Row(u, last), Column(l, last), true),
         Transfer(Column(l, last), Row(d, 0), false),
         Transfer(Row(d, 0), Column(r, 0), true),
         Transfer(Column(r, 0), Row(u, last), false)]
      else
        [Transfer(Row(u, last), Column(r, 0), false),
         Transfer(Column(l, last), Row(u, last), true),
         Transfer(Row(d, 0), Column(l, last), false),
         Transfer(Column(r, 0), Row(d, 0), true)]
    else if face == 1 then
      if rotation == 0 then
        [Transfer(Row(u, 0), Row(l, 0), false),
         Transfer(Row(l, 0), Row(d, 0), false),
         Transfer(Row(d, 0), Row(r, 0), false),
         Transfer(Row(r, 0), Row(u, 0), false)]
      else
        [Transfer(Row(u, 0), Row(r, 0), false),
         Transfer(Row(l, 0), Row(u, 0), false),
         Transfer(Row(d, 0), Row(l, 0), false),
         Transfer(Row(r, 0), Row(d, 0), false)]
    else if face == 2 then
      if rotation == 0 then
        [Transfer(Column(u, 0), Column(l, last), true),
         Transfer(Column(l, last), Column(d, 0), true),
         Transfer(Column(d, 0), Column(r, 0), false),
         Transfer(Column(r, 0), Column(u, 0), false)]
      else
        [Transfer(Column(u, 0), Column(r, 0), false),
         Transfer(Column(l, last), Column(u, 0), true),
         Transfer(Column(d, 0), Column(l, last), true),
         Transfer(Column(r, 0), Column(d, 0), false)]
    else if face == 3 then
      if rotation == 0 then
        [Transfer(Row(u, last), Row(l, last), false),
         Transfer(Row(l, last), Row(d, last), false),
         Transfer(Row(d, last), Row(r, last), false),
         Transfer(Row(r, last), Row(u, last), false)]
      else
        [Transfer(Row(u, last), Row(r, last), false),
         Transfer(Row(l, last), Row(u, last), false),
         Transfer(Row(d, last), Row(l, last), false),
         Transfer(Row(r, last), Row(d, last), false)]
    else if face == 4 then
      if rotation == 0 then
        [Transfer(Column(u, last), Column(l, last), false),
         Transfer(Column(l, last), Column(d, last), false),
         Transfer(Column(d, last), Column(r, 0), true),
         Transfer(Column(r, 0), Column(u, last), true)]
      else
        [Transfer(Column(u, last), Column(r, 0), true),
         Transfer(Column(l, last), Column(u, last), false),
         Transfer(Column(d, last), Column(l, last), false),
         Transfer(Column(r, 0), Column(d, last), true)]
    else
      if rotation == 0 then
        [Transfer(Row(u, 0), Column(l, last), false),
         Transfer(Column(l, last), Row(d, last), true),
         Transfer(Row(d, last), Column(r, 0), false),
         Transfer(Column(r, 0), Row(u, 0), true)]
      else
        [Transfer(Row(u, 0), Column(r, 0), true),
         Transfer(Column(l, last), Row(u, 0), false),
         Transfer(Row(d, last), Column(l, last), true),
         Transfer(Column(r, 0), Row(d, last), false)]
  }

  /** rotate_edges as a function: the edge cycle written from a snapshot. */
  function EdgeTurn(s: Faces, n: nat, action: int): (r: Faces)
    requires Shaped(s, n) && 1 <= n && 0 <= action < 12
    ensures Shaped(r, n)
  {
    Cycled(s, n, EdgeCycle(n, action))
  }

  // ---------------------------------------------------------------- inner slices

  /** Row slices (0) or column slices (1), rubiks.py:229; only a cube of edge
      3 or more has inner-slice actions. */
  function SliceOrientation(n: nat, action: int): (orientation: int)
    requires 12 <= action < ActionCount(n)
    ensures n >= 3 && (orientation == 0 || orientation == 1)
  {
    var x := action - 12;
    LayerPair(x, (n - 2) * 2, if x % 2 == 0 then 1 else -1);
    x / ((n - 2) * 2)
  }

  /** The inner row or column turned, rubiks.py:248 and 270: never an outer one. */
  function SliceIndex(n: nat, action: int): (index: int)
    requires 12 <= action < ActionCount(n)
    ensures n >= 3 && 1 <= index <= n - 2
  {
    var x := action - 12;
    LayerPair(x, (n - 2) * 2, if x % 2 == 0 then 1 else -1);
    1 + (x % ((n - 2) * 2)) / 2
  }

  /** The slice transfers of rotate_middle (rubiks.py:239-282) for one layer:
      rows cycle faces 0, 4, 5, 2 (front, right, back, left); columns cycle
      faces 0, 1, 3 and the mirrored column of face 5, reversed on the way
      into and out of face 5. */
  function LayerCycle(n: nat, orientation: int, index: int, rotation: int): (ts: seq<Transfer>)
    requires 0 <= index < n
    ensures CycleInCube(n, ts)
  {
    var front, back := 0, 5;
    if orientation == 0 then
      var left, right := 2, 4;
      if rotation == 0 then
        [Transfer(Row(right, index), Row(front, index), false),
         Transfer(Row(back, index), Row(right, index), false),
         Transfer(Row(left, index), Row(back, index), false),
         Transfer(Row(front, index), Row(left, index), false)]
      else
        [Transfer(Row(right, index), Row(back, index), false),
         Transfer(Row(back, index), Row(left, index), false),
         Transfer(Row(left, index), Row(front, index), false),
         Transfer(Row(front, index), Row(right, index), false)]
    else
      var up, down := 1, 3;
      var mirrored := n - 1 - index;
      if rotation == 0 then
        [Transfer(Column(up, index), Column(front, index), false),
         Transfer(Column(back, mirrored), Column(up, index), true),
         Transfer(Column(down, index), Column(back, mirrored), true),
         Transfer(Column(front, index), Column(down, index), false)]
      else
        [Transfer(Column(up, index), Column(back, mirrored), true),
         Transfer(Column(back, mirrored), Column(down, index), true),
         Transfer(Column(down, index), Column(front, index), false),
         Transfer(Column(front, index), Column(up, index), false)]
  }

  /** Decoding of an inner-slice action: orientation 0 or 1, a layer strictly
      between the outer ones, and the direction action % 2, which encode back to
      the action; the partner action names the same layer. */
  lemma SliceDecode(n: nat, action: int)
    requires 12 <= action < ActionCount(n)
    ensures n >= 3
    ensures SliceOrientation(n, action) == 0 || SliceOrientation(n, action) == 1
    ensures 1 <= SliceIndex(n, action) <= n - 2
    ensures 12 <= Partner(action) < ActionCount(n)
    ensures SliceOrientation(n, Partner(action)) == SliceOrientation(n, action)
    ensures SliceIndex(n, Partner(action)) == SliceIndex(n, action)
    ensures action == 12 + SliceOrientation(n, action) * ((n - 2) * 2) + 2 * (SliceIndex(n, action) - 1) + action % 2
  {
    var m := (n - 2) * 2;
    var x := action - 12;
    assert x % 2 == action % 2;
    var step := if action % 2 == 0 then 1 else -1;
    assert Partner(action) - 12 == x + step;
    LayerPair(x, m, step);
  }

  /** rotate_middle (rubiks.py:224-282): the layer's transfers. */
  function SliceCycle(n: nat, action: int): (ts: seq<Transfer>)
    requires 12 <= action < ActionCount(n)
    ensures CycleInCube(n, ts)
  {
    SliceDecode(n, action);
    LayerCycle(n, SliceOrientation(n, action), SliceIndex(n, action), action % 2)
  }

  /** rotate_middle as a function: the slice cycle written from a snapshot. */
  function SliceTurn(s: Faces, n: nat, action: int): (r: Faces)
    requires Shaped(s, n) && 12 <= action < ActionCount(n)
    ensures Shaped(r, n)
  {
    Cycled(s, n, SliceCycle(n, action))
  }

  // ---------------------------------------------------------------- rotate

  /** rotate (rubiks.py:98-104): an outer action turns the face, then cycles
      its edges; any other action turns an inner slice. */
  function Turn(s: Faces, n: nat, action: int): (r: Faces)
    requires Shaped(s, n) && ValidAction(n, action)
    ensures Shaped(r, n)
  {
    if action < 12 then EdgeTurn(FaceTurn(s, n, action), n, action)
    else SliceTurn(s, n, action)
  }

  /** The position whose sticker an outer turn moves to p: the edge cycle
      runs on the already turned face grid. */
  function OuterSource(n: nat, action: int, p: Pos): Pos
    requires 1 <= n && 0 <= action < 12
  {
    FaceSource(n, action, CycleSource(n, EdgeCycle(n, action), p))
  }

  /** The position whose sticker `rotate(action)` moves to p. */
  function TurnSource(n: nat, action: int, p: Pos): Pos
    requires ValidAction(n, action)
  {
    if action < 12 then OuterSource(n, action, p)
    else CycleSource(n, SliceCycle(n, action), p)
  }

  /** Every turn moves stickers: the sticker now at p was at TurnSource(p). */
  lemma TurnAt(s: Faces, n: nat, action: int, p: Pos)
    requires Shaped(s, n) && ValidAction(n, action) && InCube(n, p)
    ensures InCube(n, TurnSource(n, action, p))
    ensures At(Turn(s, n, action), n, p) == At(s, n, TurnSource(n, action, p))
  {
    if action < 12 {
      var q := CycleSource(n, EdgeCycle(n, action), p);
      CycledAt(FaceTurn(s, n, action), n, EdgeCycle(n, action), p);
      FaceTurnAt(s, n, action, q);
    } else {
      CycledAt(s, n, SliceCycle(n, action), p);
    }
  }

  /** scramble with the random draws supplied by the caller: the actions
      applied one after another (rubiks.py:284-287). */
  function Scrambled(s: Faces, n: nat, actions: seq<int>): (r: Faces)
    requires Shaped(s, n) && forall k :: 0 <= k < |actions| ==> ValidAction(n, actions[k])
    ensures Shaped(r, n)
    decreases |actions|
  {
    if |actions| == 0 then s
    else Turn(Scrambled(s, n, actions[..|actions| - 1]), n, actions[|actions| - 1])
  }

  /** Scrambling with one more draw applies that draw last. */
  lemma ScrambledStep(s: Faces, n: nat, actions: seq<int>, k: int)
    requires Shaped(s, n) && forall m :: 0 <= m < |actions| ==> ValidAction(n, actions[m])
    requires 0 <= k < |actions|
    ensures Scrambled(s, n, actions[..k + 1]) == Turn(Scrambled(s, n, actions[..k]), n, actions[k])
  {
    assert actions[..k + 1][..k] == actions[..k];
  }
}
