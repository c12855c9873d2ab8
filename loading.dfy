/** load_from_dict (rubiks.py:79-96): a dictionary from sticker keys to colour
    names overwrites single stickers; entries with an unknown key or colour
    are reported and skipped. */
module Loading {
  import opened Stickers
  import opened CubeTables

  /** str.lower() on ASCII letters; every other character is kept. */
  function LowerChar(ch: char): char
  {
    if 'A' <= ch <= 'Z' then (ch as int - 'A' as int + 'a' as int) as char else ch
  }

  function Lower(text: string): (lowered: string)
    ensures |lowered| == |text|
    ensures forall k :: 0 <= k < |text| ==> lowered[k] == LowerChar(text[k])
  {
    seq(|text|, k requires 0 <= k < |text| => LowerChar(text[k]))
  }

  /** The warning the source prints for an entry it skips. */
  datatype Rejection = UnknownKey(key: string) | UnknownColour(key: string, colour: string)

  /** What one (key, colour name) entry does: write a colour into a cell, or be skipped. */
  datatype Outcome = Write(cell: Pos, colour: int) | Skip(reason: Rejection)

  /** The key is looked up first; only then the lower-cased colour name. */
  function Classify(entry: (string, string)): (o: Outcome)
    ensures o.Write? <==> entry.0 in DictMapping && Lower(entry.1) in Colours
    ensures o.Write? ==> InCube(3, o.cell) && StickerName(o.cell) == entry.0 && 0 <= o.colour < 6
    ensures o.Write? ==> o.cell == DictMapping[entry.0] && o.colour == Colours[Lower(entry.1)]
    ensures o.Write? ==> Lower(entry.1) == ColourName(o.colour).0 || Lower(entry.1) == ColourName(o.colour).1
    ensures o.Skip? ==> o.reason.key == entry.0
    ensures o.Skip? ==> (o.reason.UnknownColour? <==> entry.0 in DictMapping)
    ensures o.Skip? && o.reason.UnknownColour? ==> o.reason.colour == entry.1
  {
    var (key, name) := entry;
    if key !in DictMapping then Skip(UnknownKey(key))
    else if Lower(name) !in Colours then Skip(UnknownColour(key, name))
    else
      DictMappingCells(key);
      ColoursAreIds(Lower(name));
      ColourNamed(Lower(name));
      Write(DictMapping[key], Colours[Lower(name)])
  }

  /** `faces[face, row, col] = value`. */
  function SetCell(s: Faces, n: nat, p: Pos, value: int): (r: Faces)
    requires Shaped(s, n) && InCube(n, p)
    ensures Shaped(r, n)
    ensures forall q :: InCube(n, q) ==> At(r, n, q) == if q == p then value else At(s, n, q)
  {
    s[p.face := s[p.face][p.row := s[p.face][p.row][p.col := value]]]
  }

  /** Every entry classified, in iteration order. */
  function Outcomes(entries: seq<(string, string)>): (os: seq<Outcome>)
    ensures |os| == |entries|
    ensures forall k :: 0 <= k < |entries| ==> os[k] == Classify(entries[k])
  {
    seq(|entries|, k requires 0 <= k < |entries| => Classify(entries[k]))
  }

  /** Every write lands inside an N×N cube. */
  predicate WritesInCube(n: nat, os: seq<Outcome>)
  {
    forall k :: 0 <= k < |os| ==> os[k].Write? ==> InCube(n, os[k].cell)
  }

  /** The writes carried out one after another; skipped entries change nothing. */
  function Applied(s: Faces, n: nat, os: seq<Outcome>): (r: Faces)
    requires Shaped(s, n) && WritesInCube(n, os)
    ensures Shaped(r, n)
    decreases |os|
  {
    if |os| == 0 then s
    else
      var before := Applied(s, n, os[..|os| - 1]);
      match os[|os| - 1]
      case Write(cell, colour) => SetCell(before, n, cell, colour)
      case Skip(_) => before
  }

  /** The reasons of the skipped entries, in order. */
  function Reasons(os: seq<Outcome>): (reasons: seq<Rejection>)
    ensures |reasons| <= |os|
    ensures forall r :: r in reasons ==> exists k :: 0 <= k < |os| && os[k] == Skip(r)
    decreases |os|
  {
    if |os| == 0 then []
    else
      var before := Reasons(os[..|os| - 1]);
      match os[|os| - 1]
      case Write(_, _) => before
      case Skip(reason) => before + [reason]
  }

  /** The sticker keys all name cells of the 3×3 block, so they fit a cube of edge 3 or more. */
  lemma OutcomesInCube(n: nat, entries: seq<(string, string)>)
    requires n >= 3
    ensures WritesInCube(n, Outcomes(entries))
  {
  }

  /** The cube after the entries are processed in iteration order. */
  function Loaded(s: Faces, n: nat, entries: seq<(string, string)>): (r: Faces)
    requires Shaped(s, n) && n >= 3
    ensures Shaped(r, n)
  {
    OutcomesInCube(n, entries);
    Applied(s, n, Outcomes(entries))
  }

  /** How many of the outcomes are skips. */
  function SkipCount(os: seq<Outcome>): (count: nat)
    ensures count <= |os|
    decreases |os|
  {
    if |os| == 0 then 0
    else SkipCount(os[..|os| - 1]) + (if os[|os| - 1].Skip? then 1 else 0)
  }

  /** Every skip is reported, in order: the reason of a skipped outcome comes
      right after the reasons of the skips before it, and nothing else is
      reported. */
  lemma {:induction false} ReasonsInOrder(os: seq<Outcome>)
    ensures |Reasons(os)| == SkipCount(os)
    ensures forall k :: 0 <= k < |os| && os[k].Skip? ==>
      SkipCount(os[..k]) < |Reasons(os)| && Reasons(os)[SkipCount(os[..k])] == os[k].reason
    decreases |os|
  {
    if |os| > 0 {
      var init := os[..|os| - 1];
      ReasonsInOrder(init);
      forall k | 0 <= k < |os| && os[k].Skip?
        ensures SkipCount(os[..k]) < |Reasons(os)| && Reasons(os)[SkipCount(os[..k])] == os[k].reason
      {
        if k < |init| {
          assert init[..k] == os[..k];
          assert init[k] == os[k];
        } else {
          assert os[..k] == init;
        }
      }
    }
  }

  /** The warnings, in iteration order: one for each skipped entry, and each
      the reason a particular entry was skipped. The warning for entry k comes
      after exactly the warnings for the skipped entries before it. */
  function Rejections(entries: seq<(string, string)>): (warnings: seq<Rejection>)
    ensures |warnings| == SkipCount(Outcomes(entries)) <= |entries|
    ensures forall r :: r in warnings ==> exists k :: 0 <= k < |entries| && Classify(entries[k]) == Skip(r)
    ensures forall k :: 0 <= k < |entries| && Classify(entries[k]).Skip? ==>
      SkipCount(Outcomes(entries[..k])) < |warnings| && warnings[SkipCount(Outcomes(entries[..k]))] == Classify(entries[k]).reason
  {
    EntryReasons(entries);
    Reasons(Outcomes(entries))
  }

  /** Reasons and the skip count read through Classify, entry by entry. */
  lemma EntryReasons(entries: seq<(string, string)>)
    ensures |Reasons(Outcomes(entries))| == SkipCount(Outcomes(entries))
    ensures forall r :: r in Reasons(Outcomes(entries)) ==> exists k :: 0 <= k < |entries| && Classify(entries[k]) == Skip(r)
    ensures forall k :: 0 <= k < |entries| && Classify(entries[k]).Skip? ==>
      SkipCount(Outcomes(entries[..k])) < |Reasons(Outcomes(entries))| &&
      Reasons(Outcomes(entries))[SkipCount(Outcomes(entries[..k]))] == Classify(entries[k]).reason
  {
    ReasonsInOrder(Outcomes(entries));
    EntryReasonsSkipped(entries);
    EntryReasonsOrdered(entries);
  }

  /** The reason of skipped entry k follows the reasons of the skips before it. */
  lemma EntryReasonsOrdered(entries: seq<(string, string)>)
    ensures forall k :: 0 <= k < |entries| && Classify(entries[k]).Skip? ==>
      SkipCount(Outcomes(entries[..k])) < |Reasons(Outcomes(entries))| &&
      Reasons(Outcomes(entries))[SkipCount(Outcomes(entries[..k]))] == Classify(entries[k]).reason
  {
    var os := Outcomes(entries);
    var reasons := Reasons(os);
    ReasonsInOrder(os);
    forall k | 0 <= k < |entries| && Classify(entries[k]).Skip?
      ensures SkipCount(Outcomes(entries[..k])) < |reasons| && reasons[SkipCount(Outcomes(entries[..k]))] == Classify(entries[k]).reason
    {
      assert Outcomes(entries[..k]) == os[..k];
      assert os[k] == Classify(entries[k]);
    }
  }

  /** Each reason reported is that of a skipped entry. */
  lemma EntryReasonsSkipped(entries: seq<(string, string)>)
    ensures forall r :: r in Reasons(Outcomes(entries)) ==> exists k :: 0 <= k < |entries| && Classify(entries[k]) == Skip(r)
  {
    var os := Outcomes(entries);
    forall r | r in Reasons(os)
      ensures exists k :: 0 <= k < |entries| && Classify(entries[k]) == Skip(r)
    {
      var k :| 0 <= k < |os| && os[k] == Skip(r);
      assert Classify(entries[k]) == Skip(r);
    }
  }

  /** One more outcome: the prefix os[..k + 1] is os[..k] followed by os[k]. */
  lemma PrefixStep(s: Faces, n: nat, os: seq<Outcome>, k: int)
    requires Shaped(s, n) && WritesInCube(n, os) && 0 <= k < |os|
    ensures WritesInCube(n, os[..k]) && WritesInCube(n, os[..k + 1])
    ensures os[k].Write? ==> InCube(n, os[k].cell)
    ensures Applied(s, n, os[..k + 1]) ==
      if os[k].Write? then SetCell(Applied(s, n, os[..k]), n, os[k].cell, os[k].colour) else Applied(s, n, os[..k])
    ensures Reasons(os[..k + 1]) == if os[k].Write? then Reasons(os[..k]) else Reasons(os[..k]) + [os[k].reason]
  {
    assert os[..k + 1][..k] == os[..k];
  }

  /** A cell no write names keeps its sticker. */
  lemma {:induction false} AppliedKeepsUnwritten(s: Faces, n: nat, os: seq<Outcome>, p: Pos)
    requires Shaped(s, n) && WritesInCube(n, os) && InCube(n, p)
    requires forall k :: 0 <= k < |os| ==> !(os[k].Write? && os[k].cell == p)
    ensures At(Applied(s, n, os), n, p) == At(s, n, p)
    decreases |os|
  {
    if |os| > 0 {
      var init := os[..|os| - 1];
      assert forall k :: 0 <= k < |init| ==> init[k] == os[k];
      AppliedKeepsUnwritten(s, n, init, p);
    }
  }

  /** The k-th write decides its cell unless a later write names the same cell. */
  lemma {:induction false} AppliedLastWriteWins(s: Faces, n: nat, os: seq<Outcome>, k: int)
    requires Shaped(s, n) && WritesInCube(n, os) && 0 <= k < |os| && os[k].Write?
    requires forall m :: k < m < |os| ==> !(os[m].Write? && os[m].cell == os[k].cell)
    ensures At(Applied(s, n, os), n, os[k].cell) == os[k].colour
    decreases |os|
  {
    var last := |os| - 1;
    var init := os[..last];
    if k < last {
      assert forall m :: 0 <= m < |init| ==> init[m] == os[m];
      AppliedLastWriteWins(s, n, init, k);
    }
  }

  /** Nothing is reported exactly when nothing is skipped. */
  lemma {:induction false} NoReasons(os: seq<Outcome>)
    ensures Reasons(os) == [] <==> forall k :: 0 <= k < |os| ==> os[k].Write?
    decreases |os|
  {
    if |os| > 0 {
      var init := os[..|os| - 1];
      assert forall k :: 0 <= k < |init| ==> init[k] == os[k];
      NoReasons(init);
    }
  }

  /** A cell no accepted entry names keeps its sticker: every cell outside
      the 3×3 block, and every cell when all entries are rejected. */
  lemma LoadedKeepsUnnamed(s: Faces, n: nat, entries: seq<(string, string)>, p: Pos)
    requires Shaped(s, n) && n >= 3 && InCube(n, p)
    requires forall k :: 0 <= k < |entries| ==> !(Classify(entries[k]).Write? && Classify(entries[k]).cell == p)
    ensures At(Loaded(s, n, entries), n, p) == At(s, n, p)
  {
    OutcomesInCube(n, entries);
    AppliedKeepsUnwritten(s, n, Outcomes(entries), p);
  }

  /** Dictionary keys are distinct and name distinct cells, so every accepted
      entry's colour ends up in the cell its key names. */
  lemma LoadedDictionary(s: Faces, n: nat, entries: seq<(string, string)>, k: int)
    requires Shaped(s, n) && n >= 3 && 0 <= k < |entries| && Classify(entries[k]).Write?
    requires forall i, j :: 0 <= i < j < |entries| ==> entries[i].0 != entries[j].0
    ensures At(Loaded(s, n, entries), n, Classify(entries[k]).cell) == Classify(entries[k]).colour
    ensures StickerName(Classify(entries[k]).cell) == entries[k].0
    ensures Lower(entries[k].1) in {ColourName(Classify(entries[k]).colour).0, ColourName(Classify(entries[k]).colour).1}
  {
    var os := Outcomes(entries);
    OutcomesInCube(n, entries);
    forall m | k < m < |os|
      ensures !(os[m].Write? && os[m].cell == os[k].cell)
    {
      if os[m].Write? {
        DictMappingInjective(entries[k].0, entries[m].0);
      }
    }
    AppliedLastWriteWins(s, n, os, k);
  }

  /** Nothing is reported exactly when every entry is accepted. */
  lemma NoRejections(entries: seq<(string, string)>)
    ensures Rejections(entries) == [] <==> forall k :: 0 <= k < |entries| ==> Classify(entries[k]).Write?
  {
    NoReasons(Outcomes(entries));
  }
}
