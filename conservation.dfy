/** Stickers are only ever moved, never repainted: every turn keeps the number
    of stickers of each colour, so a cube scrambled from solved still has
    N*N stickers of each of the six colours. */
module Conservation {
  import opened Stickers
  import opened Moves
  import opened Laws

  /** All 6*N*N sticker positions. */
  function Positions(n: nat): (ps: set<Pos>)
    ensures forall p :: p in ps <==> InCube(n, p)
  {
    var ps := set f, i, j | 0 <= f < 6 && 0 <= i < n && 0 <= j < n :: Pos(f, i, j);
    assert forall p :: InCube(n, p) ==> Pos(p.face, p.row, p.col) in ps;
    ps
  }

  /** The positions holding colour c. */
  function ColourCells(s: Faces, n: nat, c: int): set<Pos>
    requires Shaped(s, n)
  {
    set p | p in Positions(n) && At(s, n, p) == c
  }

  /** How many stickers of colour c the cube shows. */
  function Count(s: Faces, n: nat, c: int): nat
    requires Shaped(s, n)
  {
    |ColourCells(s, n, c)|
  }

  /** A map with a left inverse from a into b: a is no larger than b. */
  lemma {:induction false} InjectionBound(a: set<Pos>, b: set<Pos>, to: Pos -> Pos, back: Pos -> Pos)
    requires forall x :: x in a ==> to(x) in b && back(to(x)) == x
    ensures |a| <= |b|
    decreases |a|
  {
    if a != {} {
      var x :| x in a;
      var a', b' := a - {x}, b - {to(x)};
      forall x' | x' in a'
        ensures to(x') in b' && back(to(x')) == x'
      {
        assert back(to(x')) != back(to(x));
      }
      InjectionBound(a', b', to, back);
    }
  }

  /** Two sets related by mutually inverse maps have the same size. */
  lemma SameSize(a: set<Pos>, b: set<Pos>, to: Pos -> Pos, back: Pos -> Pos)
    requires forall x :: x in a ==> to(x) in b && back(to(x)) == x
    requires forall y :: y in b ==> back(y) in a && to(back(y)) == y
    ensures |a| == |b|
  {
    InjectionBound(a, b, to, back);
    InjectionBound(b, a, back, to);
  }

  /** rotate(action) keeps the number of stickers of every colour: the sticker
      moves of the action and of its partner are inverse bijections between
      the cells of colour c after and before the turn. */
  lemma TurnConservesColours(s: Faces, n: nat, action: int, c: int)
    requires Shaped(s, n) && ValidAction(n, action)
    ensures Count(Turn(s, n, action), n, c) == Count(s, n, c)
  {
    PartnerValid(n, action);
    var partner := Partner(action);
    var r := Turn(s, n, action);
    var after, before := ColourCells(r, n, c), ColourCells(s, n, c);
    var to := p => TurnSource(n, action, p);
    var back := p => TurnSource(n, partner, p);
    forall x | x in after
      ensures to(x) in before && back(to(x)) == x
    {
      TurnAt(s, n, action, x);
      TurnSourceInverse(n, partner, x);
    }
    forall y | y in before
      ensures back(y) in after && to(back(y)) == y
    {
      TurnAt(r, n, partner, y);
      TurnAt(s, n, action, TurnSource(n, partner, y));
      TurnSourceInverse(n, action, y);
    }
    SameSize(after, before, to, back);
  }

  /** scramble keeps the colour counts, whatever the draws. */
  lemma {:induction false} ScrambleConservesColours(s: Faces, n: nat, actions: seq<int>, c: int)
    requires Shaped(s, n) && forall k :: 0 <= k < |actions| ==> ValidAction(n, actions[k])
    ensures Count(Scrambled(s, n, actions), n, c) == Count(s, n, c)
    decreases |actions|
  {
    if |actions| > 0 {
      var init := actions[..|actions| - 1];
      ScrambleConservesColours(s, n, init, c);
      TurnConservesColours(Scrambled(s, n, init), n, actions[|actions| - 1], c);
    }
  }

  /** The first `rows` rows of face f. */
  function Block(n: nat, f: int, rows: int): set<Pos>
  {
    set p | p in Positions(n) && p.face == f && p.row < rows
  }

  /** The first `cols` cells of row i of face f. */
  function RowPrefix(n: nat, f: int, i: int, cols: int): set<Pos>
  {
    set p | p in Positions(n) && p.face == f && p.row == i && p.col < cols
  }

  lemma {:induction false} RowPrefixSize(n: nat, f: int, i: int, cols: nat)
    requires 0 <= f < 6 && 0 <= i < n && cols <= n
    ensures |RowPrefix(n, f, i, cols)| == cols
    decreases cols
  {
    if cols > 0 {
      RowPrefixSize(n, f, i, cols - 1);
      var prev, cell := RowPrefix(n, f, i, cols - 1), Pos(f, i, cols - 1);
      assert RowPrefix(n, f, i, cols) == prev + {cell} by {
        forall p | p in RowPrefix(n, f, i, cols)
          ensures p in prev + {cell}
        {
          if p.col == cols - 1 {
            assert p == cell;
          }
        }
      }
      assert cell !in prev;
    }
  }

  lemma {:induction false} BlockSize(n: nat, f: int, rows: nat)
    requires 0 <= f < 6 && rows <= n
    ensures |Block(n, f, rows)| == rows * n
    decreases rows
  {
    if rows > 0 {
      BlockSize(n, f, rows - 1);
      RowPrefixSize(n, f, rows - 1, n);
      var prev, row := Block(n, f, rows - 1), RowPrefix(n, f, rows - 1, n);
      assert Block(n, f, rows) == prev + row;
      assert prev !! row;
      assert |prev + row| == |prev| + |row|;
      assert rows * n == (rows - 1) * n + n;
    }
  }

  /** A new cube shows N*N stickers of each of its six colours, and no other colour. */
  lemma SolvedCounts(n: nat, c: int)
    ensures Count(Solved(n), n, c) == if 0 <= c < 6 then n * n else 0
  {
    var cells := ColourCells(Solved(n), n, c);
    if 0 <= c < 6 {
      assert cells == Block(n, c, n);
      BlockSize(n, c, n);
    } else {
      assert cells == {};
    }
  }

  /** After any scramble of a new cube each colour still covers N*N stickers. */
  lemma ScrambledFromSolvedCounts(n: nat, actions: seq<int>, c: int)
    requires forall k :: 0 <= k < |actions| ==> ValidAction(n, actions[k])
    ensures Count(Scrambled(Solved(n), n, actions), n, c) == if 0 <= c < 6 then n * n else 0
  {
    ScrambleConservesColours(Solved(n), n, actions, c);
    SolvedCounts(n, c);
  }
}
