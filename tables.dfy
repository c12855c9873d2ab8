/** The constant tables of rubiks.py: colour ids, the sticker keys of the
    loader, and the neighbour relation between faces. */
module CubeTables {
  import opened Stickers

  /** Colour ids; face f starts out with colour f (rubiks.py:28-29). */
  const Red := 0
  const White := 1
  const Green := 2
  const Yellow := 3
  const Blue := 4
  const Orange := 5

  /** Colour names and one-letter aliases (rubiks.py:28-32). */
  const Colours: map<string, int> := map[
    "red" := Red, "white" := White, "green" := Green, "yellow" := Yellow, "blue" := Blue, "orange" := Orange,
    "r" := Red, "w" := White, "g" := Green, "y" := Yellow, "b" := Blue, "o" := Orange]

  /** Sticker keys of a 3×3×3 cube mapped to (face, row, column), one face per
      line as in rubiks.py:36-43 (U white, L orange, F green, R red, B blue, D yellow). */
  const UKeys: map<string, Pos> :=
    map["U1" := Pos(1, 0, 0), "U2" := Pos(1, 0, 1), "U3" := Pos(1, 0, 2), "U4" := Pos(1, 1, 0), "U5" := Pos(1, 1, 1), "U6" := Pos(1, 1, 2), "U7" := Pos(1, 2, 0), "U8" := Pos(1, 2, 1), "U9" := Pos(1, 2, 2)]
  const LKeys: map<string, Pos> :=
    map["L1" := Pos(5, 0, 0), "L2" := Pos(5, 0, 1), "L3" := Pos(5, 0, 2), "L4" := Pos(5, 1, 0), "L5" := Pos(5, 1, 1), "L6" := Pos(5, 1, 2), "L7" := Pos(5, 2, 0), "L8" := Pos(5, 2, 1), "L9" := Pos(5, 2, 2)]
  const FKeys: map<string, Pos> :=
    map["F1" := Pos(2, 0, 0), "F2" := Pos(2, 0, 1), "F3" := Pos(2, 0, 2), "F4" := Pos(2, 1, 0), "F5" := Pos(2, 1, 1), "F6" := Pos(2, 1, 2), "F7" := Pos(2, 2, 0), "F8" := Pos(2, 2, 1), "F9" := Pos(2, 2, 2)]
  const RKeys: map<string, Pos> :=
    map["R1" := Pos(0, 0, 0), "R2" := Pos(0, 0, 1), "R3" := Pos(0, 0, 2), "R4" := Pos(0, 1, 0), "R5" := Pos(0, 1, 1), "R6" := Pos(0, 1, 2), "R7" := Pos(0, 2, 0), "R8" := Pos(0, 2, 1), "R9" := Pos(0, 2, 2)]
  const BKeys: map<string, Pos> :=
    map["B1" := Pos(4, 0, 0), "B2" := Pos(4, 0, 1), "B3" := Pos(4, 0, 2), "B4" := Pos(4, 1, 0), "B5" := Pos(4, 1, 1), "B6" := Pos(4, 1, 2), "B7" := Pos(4, 2, 0), "B8" := Pos(4, 2, 1), "B9" := Pos(4, 2, 2)]
  const DKeys: map<string, Pos> :=
    map["D1" := Pos(3, 0, 0), "D2" := Pos(3, 0, 1), "D3" := Pos(3, 0, 2), "D4" := Pos(3, 1, 0), "D5" := Pos(3, 1, 1), "D6" := Pos(3, 1, 2), "D7" := Pos(3, 2, 0), "D8" := Pos(3, 2, 1), "D9" := Pos(3, 2, 2)]

  const DictMapping: map<string, Pos> := UKeys + LKeys + FKeys + RKeys + BKeys + DKeys

  /** Every colour name stands for one of the six colour ids. */
  lemma ColoursAreIds(name: string)
    requires name in Colours
    ensures 0 <= Colours[name] < 6
  {
  }

  /** The full name and the one-letter alias of each colour id. */
  function ColourName(id: int): (string, string)
  {
    if id == Red then ("red", "r") else if id == White then ("white", "w")
    else if id == Green then ("green", "g") else if id == Yellow then ("yellow", "y")
    else if id == Blue then ("blue", "b") else ("orange", "o")
  }

  /** A colour name is looked up to the id it names, as full name or alias. */
  lemma ColourNamed(name: string)
    requires name in Colours
    ensures name == ColourName(Colours[name]).0 || name == ColourName(Colours[name]).1
  {
  }

  /** The face letter of the sticker keys. */
  function FaceLetter(face: int): char
  {
    if face == White then 'U' else if face == Orange then 'L' else if face == Green then 'F'
    else if face == Red then 'R' else if face == Blue then 'B' else 'D'
  }

  /** The key naming a cell of the 3×3 block: face letter, then 1-9 in reading order. */
  function StickerName(p: Pos): string
    requires InCube(3, p)
  {
    [FaceLetter(p.face), ('0' as int + 3 * p.row + p.col + 1) as char]
  }

  /** Every sticker key names a cell inside the top-left 3×3 block of a face,
      which is why loading needs an edge length of at least 3; and the key is
      that cell's name, so distinct keys name distinct cells. */
  lemma DictMappingCells(key: string)
    requires key in DictMapping
    ensures InCube(3, DictMapping[key]) && StickerName(DictMapping[key]) == key
  {
    if key in DKeys {
      DKeysInBlock(key);
    } else if key in BKeys {
      BKeysInBlock(key);
    } else if key in RKeys {
      RKeysInBlock(key);
    } else if key in FKeys {
      FKeysInBlock(key);
    } else if key in LKeys {
      LKeysInBlock(key);
    } else {
      UKeysInBlock(key);
    }
  }

  lemma DictMappingInjective(key1: string, key2: string)
    requires key1 in DictMapping && key2 in DictMapping && key1 != key2
    ensures DictMapping[key1] != DictMapping[key2]
  {
    DictMappingCells(key1);
    DictMappingCells(key2);
  }

  lemma UKeysInBlock(key: string)
    requires key in UKeys
    ensures InCube(3, UKeys[key]) && StickerName(UKeys[key]) == key
  {
  }

  lemma LKeysInBlock(key: string)
    requires key in LKeys
    ensures InCube(3, LKeys[key]) && StickerName(LKeys[key]) == key
  {
  }

  lemma FKeysInBlock(key: string)
    requires key in FKeys
    ensures InCube(3, FKeys[key]) && StickerName(FKeys[key]) == key
  {
  }

  lemma RKeysInBlock(key: string)
    requires key in RKeys
    ensures InCube(3, RKeys[key]) && StickerName(RKeys[key]) == key
  {
  }

  lemma BKeysInBlock(key: string)
    requires key in BKeys
    ensures InCube(3, BKeys[key]) && StickerName(BKeys[key]) == key
  {
  }

  lemma DKeysInBlock(key: string)
    requires key in DKeys
    ensures InCube(3, DKeys[key]) && StickerName(DKeys[key]) == key
  {
  }

  /** The four sides of a face, as the suffixes '_u', '_l', '_d', '_r' of face_relations. */
  datatype Side = Up | Left | Down | Right

  /** face_relations: the face on each side of a face (rubiks.py:52-59). */
  function Neighbour(face: int, side: Side): (g: int)
    requires 0 <= face < 6
    ensures 0 <= g < 6 && g != face
  {
    var around :=
      if face == Red then [White, Green, Yellow, Blue]
      else if face == Green then [White, Orange, Yellow, Red]
      else if face == Orange then [White, Blue, Yellow, Green]
      else if face == Blue then [White, Red, Yellow, Orange]
      else if face == White then [Orange, Green, Red, Blue]
      else [Red, Green, Orange, Blue];
    match side
    case Up => around[0]
    case Left => around[1]
    case Down => around[2]
    case Right => around[3]
  }

  predicate Adjacent(f: int, g: int)
    requires 0 <= f < 6
  {
    exists side :: Neighbour(f, side) == g
  }

  /** The table describes a cube: each face has four distinct neighbours,
      adjacency is symmetric, and exactly one face (the opposite one) is
      neither the face nor adjacent to it. */
  lemma FaceRelationsFormACube(f: int)
    requires 0 <= f < 6
    ensures Neighbour(f, Up) != Neighbour(f, Left) && Neighbour(f, Up) != Neighbour(f, Down)
    ensures Neighbour(f, Up) != Neighbour(f, Right) && Neighbour(f, Left) != Neighbour(f, Down)
    ensures Neighbour(f, Left) != Neighbour(f, Right) && Neighbour(f, Down) != Neighbour(f, Right)
    ensures forall side :: Adjacent(Neighbour(f, side), f)
    ensures Opposite(f) != f && !Adjacent(f, Opposite(f))
    ensures forall g :: 0 <= g < 6 && g != f && !Adjacent(f, g) ==> g == Opposite(f)
  {
    forall side ensures Adjacent(Neighbour(f, side), f) {
      var g := Neighbour(f, side);
      if Neighbour(g, Up) == f {
      } else if Neighbour(g, Left) == f {
      } else if Neighbour(g, Down) == f {
      } else {
        assert Neighbour(g, Right) == f;
      }
    }
    forall g | 0 <= g < 6 && g != f && !Adjacent(f, g) ensures g == Opposite(f) {
      assert Neighbour(f, Up) != g && Neighbour(f, Left) != g;
      assert Neighbour(f, Down) != g && Neighbour(f, Right) != g;
    }
    assert Neighbour(f, Up) != Opposite(f) && Neighbour(f, Left) != Opposite(f);
    assert Neighbour(f, Down) != Opposite(f) && Neighbour(f, Right) != Opposite(f);
    assert !Adjacent(f, Opposite(f)) by {
      forall side ensures Neighbour(f, side) != Opposite(f) {
        match side
        case Up =>
        case Left =>
        case Down =>
        case Right =>
      }
    }
  }

  /** The face across the cube: red/orange, white/yellow, green/blue. */
  function Opposite(f: int): int
  {
    if f == Red then Orange else if f == Orange then Red
    else if f == White then Yellow else if f == Yellow then White
    else if f == Green then Blue else Green
  }
}
