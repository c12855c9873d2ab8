/** Algebraic laws of the turns: every action is undone by its partner and
    has order four, it moves stickers only where the source writes, and outer
    turns keep the centres of odd cubes. */
module Laws {
  import opened Stickers
  import opened CubeTables
  import opened Moves

  // ---------------------------------------------------------------- face turn

  /** The clockwise and counter-clockwise grid formulas undo each other. */
  lemma FaceSourceInverse(n: nat, action: int, p: Pos)
    requires 0 <= action < 12
    ensures FaceSource(n, action, FaceSource(n, Partner(action), p)) == p
  {
    PartnerSameLayer(action);
  }

  /** Four quarter turns of the grid formula give every position back. */
  lemma FaceSourceOrderFour(n: nat, action: int, p: Pos)
    ensures FaceSource(n, action, FaceSource(n, action, FaceSource(n, action, FaceSource(n, action, p)))) == p
  {
  }

  /** rotate_face undone by the opposite rotate_face of the same face. */
  lemma FaceTurnInverse(s: Faces, n: nat, action: int)
    requires Shaped(s, n) && 0 <= action < 12
    ensures 0 <= Partner(action) < 12
    ensures FaceTurn(FaceTurn(s, n, action), n, Partner(action)) == s
  {
    PartnerSameLayer(action);
    var once := FaceTurn(s, n, action);
    var back := FaceTurn(once, n, Partner(action));
    forall p | InCube(n, p)
      ensures At(back, n, p) == At(s, n, p)
    {
      FaceTurnAt(once, n, Partner(action), p);
      FaceTurnAt(s, n, action, FaceSource(n, Partner(action), p));
      FaceSourceInverse(n, action, p);
    }
    SameStickers(back, s, n);
  }

  /** Four quarter turns of a face grid give it back. */
  lemma FaceTurnOrderFour(s: Faces, n: nat, action: int)
    requires Shaped(s, n) && 0 <= action < 12
    ensures FaceTurn(FaceTurn(FaceTurn(FaceTurn(s, n, action), n, action), n, action), n, action) == s
  {
    var s1 := FaceTurn(s, n, action);
    var s2 := FaceTurn(s1, n, action);
    var s3 := FaceTurn(s2, n, action);
    var s4 := FaceTurn(s3, n, action);
    forall p | InCube(n, p)
      ensures At(s4, n, p) == At(s, n, p)
    {
      var p3 := FaceSource(n, action, p);
      var p2 := FaceSource(n, action, p3);
      var p1 := FaceSource(n, action, p2);
      FaceTurnAt(s3, n, action, p);
      FaceTurnAt(s2, n, action, p3);
      FaceTurnAt(s1, n, action, p2);
      FaceTurnAt(s, n, action, p1);
      FaceSourceOrderFour(n, action, p);
    }
    SameStickers(s4, s, n);
  }

  /** On an odd cube the centre sticker of the turned face stays put. */
  lemma FaceTurnFixesCentre(s: Faces, n: nat, action: int)
    requires Shaped(s, n) && 0 <= action < 12 && n % 2 == 1
    ensures At(FaceTurn(s, n, action), n, Pos(action / 2, n / 2, n / 2)) == At(s, n, Pos(action / 2, n / 2, n / 2))
  {
    FaceTurnAt(s, n, action, Pos(action / 2, n / 2, n / 2));
  }

  // ---------------------------------------------------------------- outer turns, action by action
  // One lemma per action keeps each case analysis of the hand-written cycles small.

  lemma OuterInverseOf0(n: nat, p: Pos)
    requires 1 <= n && InCube(n, p)
    ensures OuterSource(n, 0, OuterSource(n, Partner(0), p)) == p
  {
  }

  lemma OuterOrderFourOf0(n: nat, p: Pos)
    requires 1 <= n && InCube(n, p)
    ensures OuterSource(n, 0, OuterSource(n, 0, OuterSource(n, 0, OuterSource(n, 0, p)))) == p
  {
  }

  lemma OuterInverseOf1(n: nat, p: Pos)
    requires 1 <= n && InCube(n, p)
    ensures OuterSource(n, 1, OuterSource(n, Partner(1), p)) == p
  {
  }

  lemma OuterOrderFourOf1(n: nat, p: Pos)
    requires 1 <= n && InCube(n, p)
    ensures OuterSource(n, 1, OuterSource(n, 1, OuterSource(n, 1, OuterSource(n, 1, p)))) == p
  {
  }

  lemma OuterInverseOf2(n: nat, p: Pos)
    requires 1 <= n && InCube(n, p)
    ensures OuterSource(n, 2, OuterSource(n, Partner(2), p)) == p
  {
  }

  lemma OuterOrderFourOf2(n: nat, p: Pos)
    requires 1 <= n && InCube(n, p)
    ensures OuterSource(n, 2, OuterSource(n, 2, OuterSource(n, 2, OuterSource(n, 2, p)))) == p
  {
  }

  lemma OuterInverseOf3(n: nat, p: Pos)
    requires 1 <= n && InCube(n, p)
    ensures OuterSource(n, 3, OuterSource(n, Partner(3), p)) == p
  {
  }

  lemma OuterOrderFourOf3(n: nat, p: Pos)
    requires 1 <= n && InCube(n, p)
    ensures OuterSource(n, 3, OuterSource(n, 3, OuterSource(n, 3, OuterSource(n, 3, p)))) == p
  {
  }

  lemma OuterInverseOf4(n: nat, p: Pos)
    requires 1 <= n && InCube(n, p)
    ensures OuterSource(n, 4, OuterSource(n, Partner(4), p)) == p
  {
  }

  lemma OuterOrderFourOf4(n: nat, p: Pos)
    requires 1 <= n && InCube(n, p)
    ensures OuterSource(n, 4, OuterSource(n, 4, OuterSource(n, 4, OuterSource(n, 4, p)))) == p
  {
  }

  lemma OuterInverseOf5(n: nat, p: Pos)
    requires 1 <= n && InCube(n, p)
    ensures OuterSource(n, 5, OuterSource(n, Partner(5), p)) == p
  {
  }

  lemma OuterOrderFourOf5(n: nat, p: Pos)
    requires 1 <= n && InCube(n, p)
    ensures OuterSource(n, 5, OuterSource(n, 5, OuterSource(n, 5, OuterSource(n, 5, p)))) == p
  {
  }

  lemma OuterInverseOf6(n: nat, p: Pos)
    requires 1 <= n && InCube(n, p)
    ensures OuterSource(n, 6, OuterSource(n, Partner(6), p)) == p
  {
  }

  lemma OuterOrderFourOf6(n: nat, p: Pos)
    requires 1 <= n && InCube(n, p)
    ensures OuterSource(n, 6, OuterSource(n, 6, OuterSource(n, 6, OuterSource(n, 6, p)))) == p
  {
  }

  lemma OuterInverseOf7(n: nat, p: Pos)
    requires 1 <= n && InCube(n, p)
    ensures OuterSource(n, 7, OuterSource(n, Partner(7), p)) == p
  {
  }

  lemma OuterOrderFourOf7(n: nat, p: Pos)
    requires 1 <= n && InCube(n, p)
    ensures OuterSource(n, 7, OuterSource(n, 7, OuterSource(n, 7, OuterSource(n, 7, p)))) == p
  {
  }

  lemma OuterInverseOf8(n: nat, p: Pos)
    requires 1 <= n && InCube(n, p)
    ensures OuterSource(n, 8, OuterSource(n, Partner(8), p)) == p
  {
  }

  lemma OuterOrderFourOf8(n: nat, p: Pos)
    requires 1 <= n && InCube(n, p)
    ensures OuterSource(n, 8, OuterSource(n, 8, OuterSource(n, 8, OuterSource(n, 8, p)))) == p
  {
  }

  lemma OuterInverseOf9(n: nat, p: Pos)
    requires 1 <= n && InCube(n, p)
    ensures OuterSource(n, 9, OuterSource(n, Partner(9), p)) == p
  {
  }

  lemma OuterOrderFourOf9(n: nat, p: Pos)
    requires 1 <= n && InCube(n, p)
    ensures OuterSource(n, 9, OuterSource(n, 9, OuterSource(n, 9, OuterSource(n, 9, p)))) == p
  {
  }

  lemma OuterInverseOf10(n: nat, p: Pos)
    requires 1 <= n && InCube(n, p)
    ensures OuterSource(n, 10, OuterSource(n, Partner(10), p)) == p
  {
  }

  lemma OuterOrderFourOf10(n: nat, p: Pos)
    requires 1 <= n && InCube(n, p)
    ensures OuterSource(n, 10, OuterSource(n, 10, OuterSource(n, 10, OuterSource(n, 10, p)))) == p
  {
  }

  lemma OuterInverseOf11(n: nat, p: Pos)
    requires 1 <= n && InCube(n, p)
    ensures OuterSource(n, 11, OuterSource(n, Partner(11), p)) == p
  {
  }

  lemma OuterOrderFourOf11(n: nat, p: Pos)
    requires 1 <= n && InCube(n, p)
    ensures OuterSource(n, 11, OuterSource(n, 11, OuterSource(n, 11, OuterSource(n, 11, p)))) == p
  {
  }

  /** The sticker moves of an outer action and of its partner undo each other. */
  lemma OuterSourceInverse(n: nat, action: int, p: Pos)
    requires 1 <= n && 0 <= action < 12 && InCube(n, p)
    ensures OuterSource(n, action, OuterSource(n, Partner(action), p)) == p
  {
    if action == 0 {
      OuterInverseOf0(n, p);
    } else if action == 1 {
      OuterInverseOf1(n, p);
    } else if action == 2 {
      OuterInverseOf2(n, p);
    } else if action == 3 {
      OuterInverseOf3(n, p);
    } else if action == 4 {
      OuterInverseOf4(n, p);
    } else if action == 5 {
      OuterInverseOf5(n, p);
    } else if action == 6 {
      OuterInverseOf6(n, p);
    } else if action == 7 {
      OuterInverseOf7(n, p);
    } else if action == 8 {
      OuterInverseOf8(n, p);
    } else if action == 9 {
      OuterInverseOf9(n, p);
    } else if action == 10 {
      OuterInverseOf10(n, p);
    } else {
      OuterInverseOf11(n, p);
    }
  }

  /** Four applications of an outer action's sticker moves give every position back. */
  lemma OuterSourceOrderFour(n: nat, action: int, p: Pos)
    requires 1 <= n && 0 <= action < 12 && InCube(n, p)
    ensures OuterSource(n, action, OuterSource(n, action, OuterSource(n, action, OuterSource(n, action, p)))) == p
  {
    if action == 0 {
      OuterOrderFourOf0(n, p);
    } else if action == 1 {
      OuterOrderFourOf1(n, p);
    } else if action == 2 {
      OuterOrderFourOf2(n, p);
    } else if action == 3 {
      OuterOrderFourOf3(n, p);
    } else if action == 4 {
      OuterOrderFourOf4(n, p);
    } else if action == 5 {
      OuterOrderFourOf5(n, p);
    } else if action == 6 {
      OuterOrderFourOf6(n, p);
    } else if action == 7 {
      OuterOrderFourOf7(n, p);
    } else if action == 8 {
      OuterOrderFourOf8(n, p);
    } else if action == 9 {
      OuterOrderFourOf9(n, p);
    } else if action == 10 {
      OuterOrderFourOf10(n, p);
    } else {
      OuterOrderFourOf11(n, p);
    }
  }

  // ---------------------------------------------------------------- inner slices

  /** The faces a slice cycle writes, in order: a row slice runs round the
      front, right, back and left faces, a column slice round the front, up,
      back and down faces. */
  function SliceRing(orientation: int): (faces: seq<int>)
    ensures |faces| == 4
  {
    if orientation == 0 then [4, 5, 2, 0] else [1, 5, 3, 0]
  }

  /** The k-th transfer of a slice cycle writes the layer's line on the k-th
      face of the ring (a column meets face 5 at the mirrored index N-1-index),
      reads the line written before it in the ring (clockwise) or after it
      (counter-clockwise), and is reversed exactly when a column slice copies
      into or out of face 5. */
  predicate SliceLineAgrees(n: nat, orientation: int, index: int, rotation: int, k: int)
    requires 0 <= index < n && 0 <= k < 4
  {
    var ts := LayerCycle(n, orientation, index, rotation);
    ts[k].dst.face == SliceRing(orientation)[k] &&
    (orientation == 0 ==> ts[k].dst == Row(ts[k].dst.face, index)) &&
    (orientation == 1 ==> ts[k].dst == Column(ts[k].dst.face, if ts[k].dst.face == 5 then n - 1 - index else index)) &&
    ts[k].src == ts[(k + if rotation == 0 then 3 else 1) % 4].dst &&
    (ts[k].flip <==> orientation == 1 && (ts[k].src.face == 5 || ts[k].dst.face == 5))
  }

  /** rotate_middle's cycles run round the ring, so stickers move 0→4→5→2→0
      along a row slice and 0→1→5→3→0 along a column slice when clockwise, and
      the other way when counter-clockwise; exactly the copies into or out of
      face 5 of a column slice are reversed. */
  lemma LayerCycleShape(n: nat, orientation: int, index: int, rotation: int)
    requires 0 <= index < n && (orientation == 0 || orientation == 1) && (rotation == 0 || rotation == 1)
    ensures forall k :: 0 <= k < 4 ==> SliceLineAgrees(n, orientation, index, rotation, k)
  {
    forall k | 0 <= k < 4
      ensures SliceLineAgrees(n, orientation, index, rotation, k)
    {
      LayerCycleLine(n, orientation, index, rotation, k);
    }
  }

  /** One transfer of LayerCycleShape, by cases. */
  lemma LayerCycleLine(n: nat, orientation: int, index: int, rotation: int, k: int)
    requires 0 <= index < n && (orientation == 0 || orientation == 1) && (rotation == 0 || rotation == 1) && 0 <= k < 4
    ensures SliceLineAgrees(n, orientation, index, rotation, k)
  {
    if k == 0 {
    } else if k == 1 {
    } else if k == 2 {
    } else {
    }
  }

  /** The two directions of a slice cycle undo each other. */
  lemma LayerInverse(n: nat, orientation: int, index: int, rotation: int, p: Pos)
    requires 0 <= index < n && (orientation == 0 || orientation == 1) && (rotation == 0 || rotation == 1)
    ensures CycleSource(n, LayerCycle(n, orientation, index, 1 - rotation),
                        CycleSource(n, LayerCycle(n, orientation, index, rotation), p)) == p
  {
  }

  /** Four slice cycles of the same kind move every sticker back. */
  lemma LayerOrderFour(n: nat, orientation: int, index: int, rotation: int, p: Pos)
    requires 0 <= index < n && (orientation == 0 || orientation == 1) && (rotation == 0 || rotation == 1)
    ensures var ts := LayerCycle(n, orientation, index, rotation);
      CycleSource(n, ts, CycleSource(n, ts, CycleSource(n, ts, CycleSource(n, ts, p)))) == p
  {
  }

  // ---------------------------------------------------------------- any action

  /** The sticker moves of `rotate(action)` are undone by those of its partner. */
  lemma TurnSourceInverse(n: nat, action: int, p: Pos)
    requires ValidAction(n, action) && InCube(n, p)
    ensures ValidAction(n, Partner(action))
    ensures TurnSource(n, action, TurnSource(n, Partner(action), p)) == p
  {
    PartnerValid(n, action);
    if action < 12 {
      OuterSourceInverse(n, action, p);
    } else {
      SliceDecode(n, action);
      var o, i := SliceOrientation(n, action), SliceIndex(n, action);
      LayerInverse(n, o, i, Partner(action) % 2, p);
    }
  }

  /** Four applications of the sticker moves of `rotate(action)` give every position back. */
  lemma TurnSourceOrderFour(n: nat, action: int, p: Pos)
    requires ValidAction(n, action) && InCube(n, p)
    ensures TurnSource(n, action, TurnSource(n, action, TurnSource(n, action, TurnSource(n, action, p)))) == p
  {
    if action < 12 {
      OuterSourceOrderFour(n, action, p);
    } else {
      SliceDecode(n, action);
      LayerOrderFour(n, SliceOrientation(n, action), SliceIndex(n, action), action % 2, p);
    }
  }

  /** rotate(action) then rotate(partner) restores every sticker. */
  lemma TurnInverse(s: Faces, n: nat, action: int)
    requires Shaped(s, n) && ValidAction(n, action)
    ensures ValidAction(n, Partner(action))
    ensures Turn(Turn(s, n, action), n, Partner(action)) == s
  {
    PartnerValid(n, action);
    var once := Turn(s, n, action);
    var back := Turn(once, n, Partner(action));
    forall p | InCube(n, p)
      ensures At(back, n, p) == At(s, n, p)
    {
      TurnAt(once, n, Partner(action), p);
      TurnAt(s, n, action, TurnSource(n, Partner(action), p));
      TurnSourceInverse(n, action, p);
    }
    SameStickers(back, s, n);
  }

  /** Every action has order four. */
  lemma TurnOrderFour(s: Faces, n: nat, action: int)
    requires Shaped(s, n) && ValidAction(n, action)
    ensures Turn(Turn(Turn(Turn(s, n, action), n, action), n, action), n, action) == s
  {
    var s1 := Turn(s, n, action);
    var s2 := Turn(s1, n, action);
    var s3 := Turn(s2, n, action);
    var s4 := Turn(s3, n, action);
    forall p | InCube(n, p)
      ensures At(s4, n, p) == At(s, n, p)
    {
      var p3 := TurnSource(n, action, p);
      TurnAt(s3, n, action, p);
      var p2 := TurnSource(n, action, p3);
      TurnAt(s2, n, action, p3);
      var p1 := TurnSource(n, action, p2);
      TurnAt(s1, n, action, p2);
      TurnAt(s, n, action, p1);
      TurnSourceOrderFour(n, action, p);
    }
    SameStickers(s4, s, n);
  }

  // ---------------------------------------------------------------- what a turn leaves alone

  /** How many of the four transfers reverse their line. */
  function FlipCount(ts: seq<Transfer>): (count: nat)
    requires |ts| == 4
    ensures count <= 4
  {
    (if ts[0].flip then 1 else 0) + (if ts[1].flip then 1 else 0) +
    (if ts[2].flip then 1 else 0) + (if ts[3].flip then 1 else 0)
  }

  /** The side whose neighbour the k-th transfer of rotate_edges writes. */
  function SideOf(k: int): Side
  {
    if k == 0 then Up else if k == 1 then Left else if k == 2 then Down else Right
  }

  /** rotate_edges writes, in order, one line on the up, left, down and right
      neighbour of the turned face; each line is a boundary row or column
      (index 0 or N-1); each line is filled from the next side round the face
      (clockwise: from the left, down, right, up neighbour; counter-clockwise
      the other way); and none or two of the four copies are reversed. */
  lemma EdgeCycleShape(n: nat, action: int)
    requires 1 <= n && 0 <= action < 12
    ensures var ts := EdgeCycle(n, action);
      forall k :: 0 <= k < 4 ==>
        ts[k].dst.face == Neighbour(action / 2, SideOf(k)) &&
        (ts[k].dst.index == 0 || ts[k].dst.index == n - 1) &&
        ts[k].src == ts[(k + if action % 2 == 0 then 1 else 3) % 4].dst
    ensures FlipCount(EdgeCycle(n, action)) == 0 || FlipCount(EdgeCycle(n, action)) == 2
  {
    forall k | 0 <= k < 4 {
      EdgeCycleLine(n, action, k);
    }
    EdgeCycleFlips(n, action);
  }

  /** The number of reversed copies in an edge cycle, one action at a time. */
  lemma EdgeCycleFlips(n: nat, action: int)
    requires 1 <= n && 0 <= action < 12
    ensures FlipCount(EdgeCycle(n, action)) == 0 || FlipCount(EdgeCycle(n, action)) == 2
  {
    if action == 0 {
    } else if action == 1 {
    } else if action == 2 {
    } else if action == 3 {
    } else if action == 4 {
    } else if action == 5 {
    } else if action == 6 {
    } else if action == 7 {
    } else if action == 8 {
    } else if action == 9 {
    } else if action == 10 {
    } else {
    }
  }

  /** The k-th transfer of EdgeCycleShape. */
  lemma EdgeCycleLine(n: nat, action: int, k: int)
    requires 1 <= n && 0 <= action < 12 && 0 <= k < 4
    ensures var ts := EdgeCycle(n, action);
      ts[k].dst.face == Neighbour(action / 2, SideOf(k)) &&
      (ts[k].dst.index == 0 || ts[k].dst.index == n - 1) &&
      ts[k].src == ts[(k + if action % 2 == 0 then 1 else 3) % 4].dst
  {
    if action < 6 {
      EdgeCycleLineLow(n, action, k);
    } else {
      EdgeCycleLineHigh(n, action, k);
    }
  }

  // The twelve actions are checked one at a time, in two halves.
  lemma EdgeCycleLineLow(n: nat, action: int, k: int)
    requires 1 <= n && 0 <= action < 6 && 0 <= k < 4
    ensures var ts := EdgeCycle(n, action);
      ts[k].dst.face == Neighbour(action / 2, SideOf(k)) &&
      (ts[k].dst.index == 0 || ts[k].dst.index == n - 1) &&
      ts[k].src == ts[(k + if action % 2 == 0 then 1 else 3) % 4].dst
  {
    if action == 0 {
    } else if action == 1 {
    } else if action == 2 {
    } else if action == 3 {
    } else if action == 4 {
    } else {
    }
  }

  lemma EdgeCycleLineHigh(n: nat, action: int, k: int)
    requires 1 <= n && 6 <= action < 12 && 0 <= k < 4
    ensures var ts := EdgeCycle(n, action);
      ts[k].dst.face == Neighbour(action / 2, SideOf(k)) &&
      (ts[k].dst.index == 0 || ts[k].dst.index == n - 1) &&
      ts[k].src == ts[(k + if action % 2 == 0 then 1 else 3) % 4].dst
  {
    if action == 6 {
    } else if action == 7 {
    } else if action == 8 {
    } else if action == 9 {
    } else if action == 10 {
    } else {
    }
  }

  // ---------------------------------------------------------------- edge lines from face_relations

  /** The side of g on which `face` lies, read from face_relations. */
  function SideTowards(g: int, face: int): Side
    requires 0 <= g < 6
  {
    if Neighbour(g, Up) == face then Up
    else if Neighbour(g, Left) == face then Left
    else if Neighbour(g, Down) == face then Down
    else Right
  }

  /** The boundary line of g along its `side`: X[0], X.transpose()[0],
      X[-1] and X.transpose()[-1] for up, left, down and right. */
  function BorderLine(n: nat, g: int, side: Side): Line
  {
    match side
    case Up => Row(g, 0)
    case Left => Column(g, 0)
    case Down => Row(g, n - 1)
    case Right => Column(g, n - 1)
  }

  /** The neighbour that the first cell of a line touches: column 0 of a row
      lies along the left neighbour, row 0 of a column along the up neighbour. */
  function FirstEndNeighbour(line: Line): int
    requires 0 <= line.face < 6
  {
    match line
    case Row(g, _) => Neighbour(g, Left)
    case Column(g, _) => Neighbour(g, Up)
  }

  /** Where a quarter turn of `face` carries its neighbour h: clockwise
      (rotation 0) the neighbour on side k+1 moves to side k, counter-clockwise
      the one on side k-1; a face that is not a neighbour stays. */
  function CarriedNeighbour(face: int, rotation: int, h: int): int
    requires 0 <= face < 6
  {
    var k :=
      if h == Neighbour(face, Up) then 0
      else if h == Neighbour(face, Left) then 1
      else if h == Neighbour(face, Down) then 2
      else if h == Neighbour(face, Right) then 3
      else 4;
    if k == 4 then h
    else Neighbour(face, SideOf((k + if rotation == 0 then 3 else 1) % 4))
  }

  /** The k-th transfer of an edge cycle agrees with face_relations: it writes
      the boundary line of its neighbour that borders the turned face, and its
      copy is reversed exactly when the turn does not carry the first end of
      the line read onto the first end of the line written. */
  predicate EdgeLineAgrees(n: nat, action: int, k: int)
    requires 1 <= n && 0 <= action < 12 && 0 <= k < 4
  {
    var face, t := action / 2, EdgeCycle(n, action)[k];
    var g := t.dst.face;
    0 <= g < 6 && 0 <= t.src.face < 6 &&
    Neighbour(g, SideTowards(g, face)) == face &&
    t.dst == BorderLine(n, g, SideTowards(g, face)) &&
    (t.flip <==> CarriedNeighbour(face, action % 2, FirstEndNeighbour(t.src)) != FirstEndNeighbour(t.dst))
  }

  /** The twelve hand-written edge cycles agree with face_relations, line by
      line and reversal by reversal. */
  lemma EdgeCycleLines(n: nat, action: int, k: int)
    requires 1 <= n && 0 <= action < 12 && 0 <= k < 4
    ensures EdgeLineAgrees(n, action, k)
  {
    if action / 2 == 0 {
      EdgeCycleLinesOfFace0(n, action, k);
    } else if action / 2 == 1 {
      EdgeCycleLinesOfFace1(n, action, k);
    } else if action / 2 == 2 {
      EdgeCycleLinesOfFace2(n, action, k);
    } else if action / 2 == 3 {
      EdgeCycleLinesOfFace3(n, action, k);
    } else if action / 2 == 4 {
      EdgeCycleLinesOfFace4(n, action, k);
    } else {
      EdgeCycleLinesOfFace5(n, action, k);
    }
  }

  // The six faces are checked one at a time, each line separately.
  lemma EdgeCycleLinesOfFace0(n: nat, action: int, k: int)
    requires 1 <= n && (action == 0 || action == 1) && 0 <= k < 4
    ensures EdgeLineAgrees(n, action, k)
  {
    if k == 0 {
    } else if k == 1 {
    } else if k == 2 {
    } else {
    }
  }

  lemma EdgeCycleLinesOfFace1(n: nat, action: int, k: int)
    requires 1 <= n && (action == 2 || action == 3) && 0 <= k < 4
    ensures EdgeLineAgrees(n, action, k)
  {
    if k == 0 {
    } else if k == 1 {
    } else if k == 2 {
    } else {
    }
  }

  lemma EdgeCycleLinesOfFace2(n: nat, action: int, k: int)
    requires 1 <= n && (action == 4 || action == 5) && 0 <= k < 4
    ensures EdgeLineAgrees(n, action, k)
  {
    if k == 0 {
    } else if k == 1 {
    } else if k == 2 {
    } else {
    }
  }

  lemma EdgeCycleLinesOfFace3(n: nat, action: int, k: int)
    requires 1 <= n && (action == 6 || action == 7) && 0 <= k < 4
    ensures EdgeLineAgrees(n, action, k)
  {
    if k == 0 {
    } else if k == 1 {
    } else if k == 2 {
    } else {
    }
  }

  lemma EdgeCycleLinesOfFace4(n: nat, action: int, k: int)
    requires 1 <= n && (action == 8 || action == 9) && 0 <= k < 4
    ensures EdgeLineAgrees(n, action, k)
  {
    if k == 0 {
    } else if k == 1 {
    } else if k == 2 {
    } else {
    }
  }

  lemma EdgeCycleLinesOfFace5(n: nat, action: int, k: int)
    requires 1 <= n && (action == 10 || action == 11) && 0 <= k < 4
    ensures EdgeLineAgrees(n, action, k)
  {
    if k == 0 {
    } else if k == 1 {
    } else if k == 2 {
    } else {
    }
  }

  /** p lies on none of the four lines a cycle writes. */
  predicate OffLines(p: Pos, ts: seq<Transfer>)
    requires |ts| == 4
  {
    forall k :: 0 <= k < 4 ==> !OnLine(p, ts[k].dst)
  }

  /** p is outside column `index` of faces 0, 1, 3 and outside the mirrored
      column N-1-index of face 5 (faces 2 and 4 are not on a column slice). */
  predicate OffColumnSlice(n: nat, index: int, p: Pos)
  {
    p.face == 2 || p.face == 4 || p.col != if p.face == 5 then n - 1 - index else index
  }

  /** An outer turn changes only the turned face and the four lines its edge
      cycle writes. */
  lemma OuterTurnFrame(s: Faces, n: nat, action: int)
    requires Shaped(s, n) && ValidAction(n, action) && action < 12
    ensures forall p :: InCube(n, p) && p.face != action / 2 && OffLines(p, EdgeCycle(n, action)) ==>
      At(Turn(s, n, action), n, p) == At(s, n, p)
  {
    var ts := EdgeCycle(n, action);
    forall p | InCube(n, p) && p.face != action / 2 && OffLines(p, ts)
      ensures At(Turn(s, n, action), n, p) == At(s, n, p)
    {
      TurnAt(s, n, action, p);
      assert !OnLine(p, ts[0].dst) && !OnLine(p, ts[1].dst) && !OnLine(p, ts[2].dst) && !OnLine(p, ts[3].dst);
    }
  }

  /** The turned face itself only receives its quarter turn: no line of the
      edge cycle lies on it. */
  lemma OuterTurnOwnFace(s: Faces, n: nat, action: int)
    requires Shaped(s, n) && ValidAction(n, action) && action < 12
    ensures forall p :: InCube(n, p) && p.face == action / 2 ==>
      At(Turn(s, n, action), n, p) == At(s, n, FaceSource(n, action, p))
  {
    var ts := EdgeCycle(n, action);
    forall p | InCube(n, p) && p.face == action / 2
      ensures At(Turn(s, n, action), n, p) == At(s, n, FaceSource(n, action, p))
    {
      forall k | 0 <= k < 4
        ensures !OnLine(p, ts[k].dst)
      {
        EdgeCycleLine(n, action, k);
      }
      TurnAt(s, n, action, p);
    }
  }

  /** No line of an edge cycle lies on the face opposite the turned one. */
  lemma EdgeCycleMissesOpposite(n: nat, action: int)
    requires 1 <= n && 0 <= action < 12
    ensures Opposite(action / 2) != action / 2
    ensures forall k :: 0 <= k < 4 ==> EdgeCycle(n, action)[k].dst.face != Opposite(action / 2)
  {
    var face := action / 2;
    FaceRelationsFormACube(face);
    EdgeCycleShape(n, action);
    forall k | 0 <= k < 4
      ensures EdgeCycle(n, action)[k].dst.face != Opposite(face)
    {
      assert Neighbour(face, SideOf(k)) != Opposite(face);
    }
  }

  /** The face opposite the turned one is untouched. */
  lemma OuterTurnKeepsOpposite(s: Faces, n: nat, action: int)
    requires Shaped(s, n) && ValidAction(n, action) && action < 12
    ensures Turn(s, n, action)[Opposite(action / 2)] == s[Opposite(action / 2)]
  {
    var r := Turn(s, n, action);
    var ts := EdgeCycle(n, action);
    var o := Opposite(action / 2);
    EdgeCycleMissesOpposite(n, action);
    OuterTurnFrame(s, n, action);
    forall i | 0 <= i < n
      ensures r[o][i] == s[o][i]
    {
      forall j | 0 <= j < n
        ensures r[o][i][j] == s[o][i][j]
      {
        assert OffLines(Pos(o, i, j), ts);
        assert At(r, n, Pos(o, i, j)) == At(s, n, Pos(o, i, j));
      }
    }
  }

  /** On an odd cube of edge at least 3 an outer turn keeps all six centres:
      the turned face's centre is its own image and the written lines are
      boundary lines, which miss the centre. */
  lemma OuterTurnKeepsCentres(s: Faces, n: nat, action: int, f: int)
    requires Shaped(s, n) && ValidAction(n, action) && action < 12
    requires n % 2 == 1 && n >= 3 && 0 <= f < 6
    ensures At(Turn(s, n, action), n, Pos(f, n / 2, n / 2)) == At(s, n, Pos(f, n / 2, n / 2))
  {
    var c := Pos(f, n / 2, n / 2);
    assert InCube(n, c);
    if f == action / 2 {
      OuterTurnOwnFace(s, n, action);
      assert FaceSource(n, action, c) == c;
    } else {
      CentreOffLines(n, action, f);
      OuterTurnFrame(s, n, action);
    }
  }

  /** A face centre lies on no boundary line. */
  lemma CentreOffLines(n: nat, action: int, f: int)
    requires 1 <= n && 0 <= action < 12 && n % 2 == 1 && n >= 3
    ensures OffLines(Pos(f, n / 2, n / 2), EdgeCycle(n, action))
  {
    forall k | 0 <= k < 4
      ensures !OnLine(Pos(f, n / 2, n / 2), EdgeCycle(n, action)[k].dst)
    {
      EdgeCycleLine(n, action, k);
    }
  }

  /** A slice turn changes only its slice: a row slice keeps faces 1 and 3 and
      the other rows; a column slice keeps faces 2 and 4 and the other columns
      (on face 5, the columns other than the mirrored one). */
  lemma SliceTurnFrame(s: Faces, n: nat, action: int)
    requires Shaped(s, n) && 12 <= action < ActionCount(n)
    ensures SliceOrientation(n, action) == 0 ==>
      forall p :: InCube(n, p) && (p.face == 1 || p.face == 3 || p.row != SliceIndex(n, action)) ==>
        At(Turn(s, n, action), n, p) == At(s, n, p)
    ensures SliceOrientation(n, action) == 1 ==>
      forall p :: InCube(n, p) && OffColumnSlice(n, SliceIndex(n, action), p) ==>
        At(Turn(s, n, action), n, p) == At(s, n, p)
  {
    SliceDecode(n, action);
    var o, i := SliceOrientation(n, action), SliceIndex(n, action);
    forall p | InCube(n, p)
      ensures o == 0 && (p.face == 1 || p.face == 3 || p.row != i) ==> At(Turn(s, n, action), n, p) == At(s, n, p)
      ensures o == 1 && OffColumnSlice(n, i, p) ==> At(Turn(s, n, action), n, p) == At(s, n, p)
    {
      TurnAt(s, n, action, p);
      LayerFrame(n, o, i, action % 2, p);
    }
  }

  /** The slice cycles move no sticker outside their slice. */
  lemma LayerFrame(n: nat, orientation: int, index: int, rotation: int, p: Pos)
    requires 0 <= index < n
    ensures orientation == 0 && (p.face == 1 || p.face == 3 || p.row != index) ==>
      CycleSource(n, LayerCycle(n, orientation, index, rotation), p) == p
    ensures orientation == 1 && OffColumnSlice(n, index, p) ==>
      CycleSource(n, LayerCycle(n, orientation, index, rotation), p) == p
  {
  }
}
