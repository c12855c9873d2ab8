/** The Cube class of rubiks.py: a 6×N×N array of colour ids that the
    rotation methods update in place. Each method is proved to leave the
    array holding the value the pure functions of Moves and Loading compute. */
module Rubiks {
  import opened Stickers
  import opened Moves
  import opened Loading

  class Cube {
    /** edge_length: stickers along each edge. */
    const edgeLength: nat
    /** faces[face, row, col]: the colour id of each sticker. */
    var faces: array3<int>
    /** cw_rotate_take_idxs: the take grid of a clockwise face turn. */
    const takeIndices: array2<int>
    /** The stickers as a value. */
    ghost var Contents: Faces

    ghost predicate Valid()
      reads this, faces, takeIndices
    {
      faces.Length0 == 6 && faces.Length1 == edgeLength && faces.Length2 == edgeLength &&
      takeIndices.Length0 == edgeLength && takeIndices.Length1 == edgeLength &&
      Shaped(Contents, edgeLength) &&
      (forall f, i, j {:trigger faces[f, i, j]} :: 0 <= f < 6 && 0 <= i < edgeLength && 0 <= j < edgeLength ==>
        faces[f, i, j] == At(Contents, edgeLength, Pos(f, i, j))) &&
      (forall i, j :: 0 <= i < edgeLength && 0 <= j < edgeLength ==>
        takeIndices[i, j] == ClockwiseTakeIndex(edgeLength, i, j))
    }

    /** __init__ (rubiks.py:63-70): the take grid is arange(N*N).reshape(N, N)
        transposed and flipped along axis 1; face f is filled with colour f. */
    constructor (n: nat)
      ensures Valid() && fresh(faces) && fresh(takeIndices)
      ensures edgeLength == n && Contents == Solved(n)
    {
      var grid := ClockwiseTakeGrid(n);
      var solved := SolvedArray(n);
      edgeLength, takeIndices, faces := n, grid, solved;
      Contents := Solved(n);
    }

    /** copy (rubiks.py:72-76): a new cube whose faces array is a fresh copy,
        so turning one cube never changes the other. */
    method Copy() returns (clone: Cube)
      requires Valid()
      ensures fresh(clone) && fresh(clone.faces) && clone.Valid()
      ensures clone.edgeLength == edgeLength && clone.Contents == Contents
    {
      clone := new Cube(edgeLength);
      var copied := CopyFaces();
      clone.faces := copied;
      clone.Contents := Contents;
    }

    /** np.copy(self.faces). */
    method CopyFaces() returns (copied: array3<int>)
      requires Valid()
      ensures fresh(copied)
      ensures copied.Length0 == 6 && copied.Length1 == edgeLength && copied.Length2 == edgeLength
      ensures forall f, i, j :: 0 <= f < 6 && 0 <= i < edgeLength && 0 <= j < edgeLength ==>
        copied[f, i, j] == At(Contents, edgeLength, Pos(f, i, j))
    {
      var n := edgeLength;
      copied := new int[6, n, n]((f, i, j) reads this, faces
        requires 0 <= f < faces.Length0 && 0 <= i < faces.Length1 && 0 <= j < faces.Length2 => faces[f, i, j]);
    }

    /** Entry (i, j) of the grid rotate_face takes from: the clockwise grid, or
        that grid flattened and reversed (rubiks.py:109-112). */
    function TakeAt(rotation: int, i: int, j: int): (k: int)
      requires Valid() && 0 <= i < edgeLength && 0 <= j < edgeLength
      reads this, faces, takeIndices
      ensures k == TakeIndex(edgeLength, rotation, i, j)
    {
      var n := edgeLength;
      if rotation == 0 then takeIndices[i, j]
      else
        var q := n * n - 1 - FlatIndex(n, i, j);
        FlatIndexDecodes(n, n - 1 - i, n - 1 - j);
        assert q == FlatIndex(n, n - 1 - i, n - 1 - j);
        takeIndices[q / n, q % n]
    }

    /** rotate_face (rubiks.py:106-115): face action // 2 becomes np.take of
        itself through the take grid. */
    method RotateFace(action: int)
      requires Valid() && 0 <= action < 12
      modifies this`Contents, faces
      ensures Valid() && Contents == FaceTurn(old(Contents), edgeLength, action)
    {
      var n := edgeLength;
      var face, rotation := action / 2, action % 2;
      ghost var target := FaceTurn(Contents, n, action);
      var taken := new int[n, n]((i, j) reads this, faces, takeIndices requires Valid() && 0 <= i < n && 0 <= j < n =>
        var k := TakeAt(rotation, i, j);
        faces[face, k / n, k % n]);
      assert forall i, j :: 0 <= i < n && 0 <= j < n ==> taken[i, j] == At(target, n, Pos(face, i, j)) by {
        forall i, j | 0 <= i < n && 0 <= j < n
          ensures taken[i, j] == At(target, n, Pos(face, i, j))
        {
          FaceTurnAt(Contents, n, action, Pos(face, i, j));
        }
      }
      WriteFace(face, taken, target);
    }

    /** `self.faces[face] = grid`: the other faces keep their stickers. */
    method WriteFace(face: int, grid: array2<int>, ghost target: Faces)
      requires Valid() && 0 <= face < 6 && Shaped(target, edgeLength)
      requires grid.Length0 == edgeLength && grid.Length1 == edgeLength
      requires forall i, j :: 0 <= i < edgeLength && 0 <= j < edgeLength ==> grid[i, j] == At(target, edgeLength, Pos(face, i, j))
      requires forall f :: 0 <= f < 6 && f != face ==> target[f] == Contents[f]
      modifies this`Contents, faces
      ensures Valid() && Contents == target
    {
      var n := edgeLength;
      ghost var current := Contents;
      for i := 0 to n
        invariant forall f, i', j :: 0 <= f < 6 && 0 <= i' < n && 0 <= j < n ==>
          faces[f, i', j] == if f == face && i' < i then grid[i', j] else At(current, n, Pos(f, i', j))
      {
        for j := 0 to n
          invariant forall f, i', j' :: 0 <= f < 6 && 0 <= i' < n && 0 <= j' < n ==>
            faces[f, i', j'] == if f == face && (i' < i || (i' == i && j' < j)) then grid[i', j'] else At(current, n, Pos(f, i', j'))
        {
          faces[face, i, j] := grid[i, j];
        }
      }
      Contents := target;
    }

    /** `dst = src_copy` or `dst = np.flip(src_copy)`: line t.dst receives line
        t.src of the snapshot, whose stickers are those of `before`. */
    method CopyLine(t: Transfer, snapshot: array3<int>, ghost before: Faces)
      requires Valid() && TransferInCube(edgeLength, t) && Shaped(before, edgeLength)
      requires snapshot != faces
      requires snapshot.Length0 == 6 && snapshot.Length1 == edgeLength && snapshot.Length2 == edgeLength
      requires forall f, i, j :: 0 <= f < 6 && 0 <= i < edgeLength && 0 <= j < edgeLength ==>
        snapshot[f, i, j] == At(before, edgeLength, Pos(f, i, j))
      modifies this`Contents, faces
      ensures Valid() && Contents == WithLine(old(Contents), edgeLength, t.dst, Carried(before, edgeLength, t))
    {
      var n := edgeLength;
      ghost var values := Carried(before, n, t);
      ghost var current := Contents;
      ghost var target := WithLine(current, n, t.dst, values);
      for k := 0 to n
        invariant forall f, i, j :: 0 <= f < 6 && 0 <= i < n && 0 <= j < n ==>
          faces[f, i, j] == Written(current, n, t.dst, values, k, Pos(f, i, j))
      {
        var src, dst := SourceCell(n, t, k), CellOf(t.dst, k);
        assert snapshot[src.face, src.row, src.col] == values[k];
        faces[dst.face, dst.row, dst.col] := snapshot[src.face, src.row, src.col];
        forall f, i, j | 0 <= f < 6 && 0 <= i < n && 0 <= j < n
          ensures faces[f, i, j] == Written(current, n, t.dst, values, k + 1, Pos(f, i, j))
        {
          WrittenStep(current, n, t.dst, values, k, Pos(f, i, j));
        }
      }
      forall f, i, j | 0 <= f < 6 && 0 <= i < n && 0 <= j < n
        ensures faces[f, i, j] == At(target, n, Pos(f, i, j))
      {
      }
      Contents := target;
    }

    /** Snapshot, then the four line writes of an edge or slice turn. */
    method ApplyCycle(ts: seq<Transfer>)
      requires Valid() && CycleInCube(edgeLength, ts)
      modifies this`Contents, faces
      ensures Valid() && Contents == Cycled(old(Contents), edgeLength, ts)
    {
      var snapshot := CopyFaces();
      ghost var before := Contents;
      CopyLine(ts[0], snapshot, before);
      CopyLine(ts[1], snapshot, before);
      CopyLine(ts[2], snapshot, before);
      CopyLine(ts[3], snapshot, before);
    }

    /** rotate_edges (rubiks.py:117-222). */
    method RotateEdges(action: int)
      requires Valid() && 1 <= edgeLength && 0 <= action < 12
      modifies this`Contents, faces
      ensures Valid() && Contents == EdgeTurn(old(Contents), edgeLength, action)
    {
      ApplyCycle(EdgeCycle(edgeLength, action));
    }

    /** rotate_middle (rubiks.py:224-282): orientation, layer and direction are
        decoded from the action, then the layer's four lines are cycled. */
    method RotateMiddle(action: int)
      requires Valid() && 12 <= action < ActionCount(edgeLength)
      modifies this`Contents, faces
      ensures Valid() && Contents == SliceTurn(old(Contents), edgeLength, action)
    {
      var n := edgeLength;
      SliceDecode(n, action);
      var orientation := (action - 12) / ((n - 2) * 2);
      var rotation := action % 2;
      var index := 1 + ((action - 12) % ((n - 2) * 2)) / 2;
      ApplyCycle(LayerCycle(n, orientation, index, rotation));
    }

    /** rotate (rubiks.py:98-104). */
    method Rotate(action: int)
      requires Valid() && ValidAction(edgeLength, action)
      modifies this`Contents, faces
      ensures Valid() && Contents == Turn(old(Contents), edgeLength, action)
    {
      if action < 12 {
        RotateFace(action);
        RotateEdges(action);
      } else {
        RotateMiddle(action);
      }
    }

    /** random_rotation (rubiks.py:288-292) with the value random.choice
        returned passed in as `choice`; the action taken is returned. */
    method RandomRotation(choice: int) returns (action: int)
      requires Valid() && 1 <= edgeLength && 0 <= choice < ActionCount(edgeLength)
      modifies this`Contents, faces
      ensures Valid() && action == choice && Contents == Turn(old(Contents), edgeLength, action)
    {
      action := choice;
      Rotate(action);
    }

    /** scramble (rubiks.py:284-287) with the draws of random.choice passed
        in, one per iteration. */
    method Scramble(choices: seq<int>)
      requires Valid() && forall k :: 0 <= k < |choices| ==> ValidAction(edgeLength, choices[k])
      modifies this`Contents, faces
      ensures Valid() && Contents == Scrambled(old(Contents), edgeLength, choices)
    {
      for k := 0 to |choices|
        invariant Valid() && Contents == Scrambled(old(Contents), edgeLength, choices[..k])
      {
        ScrambledStep(old(Contents), edgeLength, choices, k);
        var action := RandomRotation(choices[k]);
      }
      assert choices[..|choices|] == choices;
    }

    /** load_from_dict (rubiks.py:79-96) over the dictionary's entries in
        iteration order; the warnings the source prints are returned. */
    method LoadFromDict(entries: seq<(string, string)>) returns (rejected: seq<Rejection>)
      requires Valid() && edgeLength >= 3
      modifies this`Contents, faces
      ensures Valid() && Contents == Loaded(old(Contents), edgeLength, entries)
      ensures rejected == Rejections(entries)
    {
      ghost var os := Outcomes(entries);
      OutcomesInCube(edgeLength, entries);
      rejected := [];
      for k := 0 to |entries|
        invariant Valid() && WritesInCube(edgeLength, os[..k])
        invariant Contents == Applied(old(Contents), edgeLength, os[..k])
        invariant rejected == Reasons(os[..k])
      {
        var outcome := Classify(entries[k]);
        PrefixStep(old(Contents), edgeLength, os, k);
        match outcome
        case Write(cell, colour) =>
          WriteCell(cell, colour);
        case Skip(reason) =>
          rejected := rejected + [reason];
      }
      assert os[..|entries|] == os;
    }

    /** `self.faces[face, row, col] = value`. */
    method WriteCell(p: Pos, value: int)
      requires Valid() && InCube(edgeLength, p)
      modifies this`Contents, faces
      ensures Valid() && Contents == SetCell(old(Contents), edgeLength, p, value)
    {
      faces[p.face, p.row, p.col] := value;
      Contents := SetCell(Contents, edgeLength, p, value);
    }

    /** __eq__ (rubiks.py:344-345): np.array_equal is false for arrays of
        different shapes and otherwise compares every sticker. */
    method Equals(other: Cube) returns (same: bool)
      requires Valid() && other.Valid()
      ensures same <==> edgeLength == other.edgeLength && Contents == other.Contents
    {
      if edgeLength != other.edgeLength {
        assert |Contents[0]| != |other.Contents[0]|;
        return false;
      }
      var n := edgeLength;
      for f := 0 to 6
        invariant forall f', i, j :: 0 <= f' < f && 0 <= i < n && 0 <= j < n ==>
          At(Contents, n, Pos(f', i, j)) == At(other.Contents, n, Pos(f', i, j))
      {
        for i := 0 to n
          invariant forall f', i', j :: 0 <= f' < 6 && 0 <= i' < n && 0 <= j < n && (f' < f || (f' == f && i' < i)) ==>
            At(Contents, n, Pos(f', i', j)) == At(other.Contents, n, Pos(f', i', j))
        {
          for j := 0 to n
            invariant forall f', i', j' ::
              0 <= f' < 6 && 0 <= i' < n && 0 <= j' < n && (f' < f || (f' == f && (i' < i || (i' == i && j' < j)))) ==>
              At(Contents, n, Pos(f', i', j')) == At(other.Contents, n, Pos(f', i', j'))
          {
            if faces[f, i, j] != other.faces[f, i, j] {
              return false;
            }
          }
        }
      }
      SameStickers(Contents, other.Contents, n);
      return true;
    }
  }

  /** cw_rotate_take_idxs (rubiks.py:66-68): arange(N*N).reshape(N, N),
      transposed, then flipped along axis 1. */
  method ClockwiseTakeGrid(n: nat) returns (grid: array2<int>)
    ensures fresh(grid) && grid.Length0 == n && grid.Length1 == n
    ensures forall i, j :: 0 <= i < n && 0 <= j < n ==> grid[i, j] == ClockwiseTakeIndex(n, i, j)
  {
    var arange := new int[n, n]((i, j) => FlatIndex(n, i, j));
    grid := new int[n, n]((i, j) reads arange requires 0 <= i < n && 0 <= j < n => arange[n - 1 - j, i]);
  }

  /** np.zeros([6, N, N]), then faces[f].fill(f) for each face (rubiks.py:64, 69-70). */
  method SolvedArray(n: nat) returns (a: array3<int>)
    ensures fresh(a) && a.Length0 == 6 && a.Length1 == n && a.Length2 == n
    ensures forall f, i, j :: 0 <= f < 6 && 0 <= i < n && 0 <= j < n ==> a[f, i, j] == f
  {
    a := new int[6, n, n]((f, i, j) => 0);
    for f := 0 to 6
      invariant forall f', i, j :: 0 <= f' < 6 && 0 <= i < n && 0 <= j < n ==>
        a[f', i, j] == if f' < f then f' else 0
    {
      Fill(a, f, f);
    }
  }

  /** `faces[face].fill(value)` on a 6×N×N array. */
  method Fill(a: array3<int>, face: int, value: int)
    requires 0 <= face < a.Length0
    modifies a
    ensures forall f, i, j :: 0 <= f < a.Length0 && 0 <= i < a.Length1 && 0 <= j < a.Length2 ==>
      a[f, i, j] == if f == face then value else old(a[f, i, j])
  {
    for i := 0 to a.Length1
      invariant forall f, i', j :: 0 <= f < a.Length0 && 0 <= i' < a.Length1 && 0 <= j < a.Length2 ==>
        a[f, i', j] == if f == face && i' < i then value else old(a[f, i', j])
    {
      for j := 0 to a.Length2
        invariant forall f, i', j' :: 0 <= f < a.Length0 && 0 <= i' < a.Length1 && 0 <= j' < a.Length2 ==>
          a[f, i', j'] == if f == face && (i' < i || (i' == i && j' < j)) then value else old(a[f, i', j'])
      {
        a[face, i, j] := value;
      }
    }
  }

  /** The stickers after the first k cells of a line have been overwritten. */
  ghost function Written(s: Faces, n: nat, line: Line, values: seq<int>, k: int, p: Pos): int
    requires Shaped(s, n) && InCube(n, p) && |values| == n
  {
    if OnLine(p, line) && Offset(p, line) < k then values[Offset(p, line)] else At(s, n, p)
  }

  /** Writing cell k of the line extends the written prefix by one. */
  lemma WrittenStep(s: Faces, n: nat, line: Line, values: seq<int>, k: int, p: Pos)
    requires Shaped(s, n) && InCube(n, p) && |values| == n && 0 <= k < n
    ensures Written(s, n, line, values, k + 1, p) ==
      if p == CellOf(line, k) then values[k] else Written(s, n, line, values, k, p)
  {
    if OnLine(p, line) && Offset(p, line) == k {
      CellOfOffset(p, line);
    }
  }
}
