/** Sticker positions, the six N×N faces of a cube, and the "snapshot, then
    overwrite one line from another" step that the edge and slice turns of
    rubiks.py are built from. */
module Stickers {

  /** A sticker position: face 0..5, then row and column within that face. */
  datatype Pos = Pos(face: int, row: int, col: int)

  /** The six faces as faces[face][row][col], the shape of the cube's 6×N×N array. */
  type Faces = seq<seq<seq<int>>>

  predicate Shaped(s: Faces, n: nat)
  {
    |s| == 6 &&
    forall f :: 0 <= f < 6 ==> |s[f]| == n && forall i :: 0 <= i < n ==> |s[f][i]| == n
  }

  predicate InCube(n: nat, p: Pos)
  {
    0 <= p.face < 6 && 0 <= p.row < n && 0 <= p.col < n
  }

  function At(s: Faces, n: nat, p: Pos): int
    requires Shaped(s, n) && InCube(n, p)
  {
    s[p.face][p.row][p.col]
  }

  /** Two cubes of the same size are equal when every sticker matches. */
  lemma SameStickers(x: Faces, y: Faces, n: nat)
    requires Shaped(x, n) && Shaped(y, n)
    requires forall p :: InCube(n, p) ==> At(x, n, p) == At(y, n, p)
    ensures x == y
  {
    forall f | 0 <= f < 6
      ensures x[f] == y[f]
    {
      forall i | 0 <= i < n
        ensures x[f][i] == y[f][i]
      {
        forall j | 0 <= j < n
          ensures x[f][i][j] == y[f][i][j]
        {
          assert At(x, n, Pos(f, i, j)) == At(y, n, Pos(f, i, j));
        }
      }
    }
  }

  /** The solved cube: every sticker of face f has colour f (rubiks.py:65, 69-70). */
  function Solved(n: nat): (s: Faces)
    ensures Shaped(s, n)
    ensures forall p :: InCube(n, p) ==> At(s, n, p) == p.face
  {
    seq(6, f => seq(n, i => seq(n, j => f)))
  }

  /** One line of a face: `X[k]` is row k, `X.transpose()[k]` is column k. */
  datatype Line = Row(face: int, index: int) | Column(face: int, index: int)

  predicate LineInCube(n: nat, line: Line)
  {
    0 <= line.face < 6 && 0 <= line.index < n
  }

  /** The k-th cell along a line. */
  function CellOf(line: Line, k: int): Pos
  {
    match line
    case Row(f, r) => Pos(f, r, k)
    case Column(f, c) => Pos(f, k, c)
  }

  predicate OnLine(p: Pos, line: Line)
  {
    p.face == line.face && (if line.Row? then p.row == line.index else p.col == line.index)
  }

  /** Where p sits along a line that contains it. */
  function Offset(p: Pos, line: Line): int
  {
    if line.Row? then p.col else p.row
  }

  lemma CellOfOffset(p: Pos, line: Line)
    requires OnLine(p, line)
    ensures CellOf(line, Offset(p, line)) == p
  {
  }

  /** `dst = src_copy` or `dst = np.flip(src_copy)`: the line dst receives
      the line src as it was in the snapshot, reversed when flip is set. */
  datatype Transfer = Transfer(dst: Line, src: Line, flip: bool)

  predicate TransferInCube(n: nat, t: Transfer)
  {
    LineInCube(n, t.dst) && LineInCube(n, t.src)
  }

  /** The snapshot cell whose sticker lands at position k of t.dst. */
  function SourceCell(n: nat, t: Transfer, k: int): Pos
  {
    CellOf(t.src, if t.flip then n - 1 - k else k)
  }

  /** The values t writes into its destination line, read from snapshot s. */
  function Carried(s: Faces, n: nat, t: Transfer): (values: seq<int>)
    requires Shaped(s, n) && TransferInCube(n, t)
    ensures |values| == n
    ensures forall k :: 0 <= k < n ==> InCube(n, SourceCell(n, t, k)) && values[k] == At(s, n, SourceCell(n, t, k))
  {
    seq(n, k requires 0 <= k < n => At(s, n, SourceCell(n, t, k)))
  }

  /** s with the cells of one line overwritten by values, everything else kept. */
  function WithLine(s: Faces, n: nat, line: Line, values: seq<int>): (r: Faces)
    requires Shaped(s, n) && LineInCube(n, line) && |values| == n
    ensures Shaped(r, n)
    ensures forall p :: InCube(n, p) ==>
      At(r, n, p) == if OnLine(p, line) then values[Offset(p, line)] else At(s, n, p)
  {
    seq(6, f requires 0 <= f < 6 =>
      seq(n, i requires 0 <= i < n =>
        seq(n, j requires 0 <= j < n =>
          if OnLine(Pos(f, i, j), line) then values[Offset(Pos(f, i, j), line)] else s[f][i][j])))
  }

  /** Four line transfers, as every edge and slice turn of the source has. */
  predicate CycleInCube(n: nat, ts: seq<Transfer>)
  {
    |ts| == 4 && forall k :: 0 <= k < 4 ==> TransferInCube(n, ts[k])
  }

  /** Snapshot first, write second: the four lines are written in order, each
      from the state the cube had before the first write. */
  function Cycled(s: Faces, n: nat, ts: seq<Transfer>): (r: Faces)
    requires Shaped(s, n) && CycleInCube(n, ts)
    ensures Shaped(r, n)
  {
    var s1 := WithLine(s, n, ts[0].dst, Carried(s, n, ts[0]));
    var s2 := WithLine(s1, n, ts[1].dst, Carried(s, n, ts[1]));
    var s3 := WithLine(s2, n, ts[2].dst, Carried(s, n, ts[2]));
    WithLine(s3, n, ts[3].dst, Carried(s, n, ts[3]))
  }

  /** The snapshot position whose sticker a cycle of transfers moves to p
      (the last write that covers p wins, as in the sequential writes). */
  function CycleSource(n: nat, ts: seq<Transfer>, p: Pos): Pos
    requires |ts| == 4
  {
    if OnLine(p, ts[3].dst) then SourceCell(n, ts[3], Offset(p, ts[3].dst))
    else if OnLine(p, ts[2].dst) then SourceCell(n, ts[2], Offset(p, ts[2].dst))
    else if OnLine(p, ts[1].dst) then SourceCell(n, ts[1], Offset(p, ts[1].dst))
    else if OnLine(p, ts[0].dst) then SourceCell(n, ts[0], Offset(p, ts[0].dst))
    else p
  }

  /** The sequential writes of Cycled move each sticker from CycleSource. */
  lemma CycledAt(s: Faces, n: nat, ts: seq<Transfer>, p: Pos)
    requires Shaped(s, n) && CycleInCube(n, ts) && InCube(n, p)
    ensures InCube(n, CycleSource(n, ts, p))
    ensures At(Cycled(s, n, ts), n, p) == At(s, n, CycleSource(n, ts, p))
  {
    var s1 := WithLine(s, n, ts[0].dst, Carried(s, n, ts[0]));
    var s2 := WithLine(s1, n, ts[1].dst, Carried(s, n, ts[1]));
    var s3 := WithLine(s2, n, ts[2].dst, Carried(s, n, ts[2]));
    var r := WithLine(s3, n, ts[3].dst, Carried(s, n, ts[3]));
    assert Cycled(s, n, ts) == r;
    if !OnLine(p, ts[3].dst) {
      assert At(r, n, p) == At(s3, n, p);
      if !OnLine(p, ts[2].dst) {
        assert At(s3, n, p) == At(s2, n, p);
        if !OnLine(p, ts[1].dst) {
          assert At(s2, n, p) == At(s1, n, p);
        }
      }
    }
  }
}
