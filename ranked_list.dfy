/** The ranked folder as `ResumeSorter` (resume_sorter.py) keeps it: the file
    at position i of the sorted listing is named `string_from_rank(i)`, a
    dash, and its original name. This module states the folder updates of
    `insert_unranked_file` and `unrank_files` as functions of the folders
    before them and proves that they keep the ranks contiguous. */
module RankedList {
  import opened Wrappers
  import opened Text
  import opened Listing
  import RankString

  /** The names of a contiguously ranked folder holding `bases` in order:
      base i carries the prefix of rank i. */
  function Ranked(bases: seq<string>): (names: seq<string>)
    ensures |names| == |bases|
    ensures forall i :: 0 <= i < |bases| ==> names[i] == RankString.AddRankString(bases[i], i)
  {
    seq(|bases|, i requires 0 <= i < |bases| => RankString.AddRankString(bases[i], i))
  }

  predicate Distinct(bases: seq<string>)
  {
    forall i, j :: 0 <= i < j < |bases| ==> bases[i] != bases[j]
  }

  /** The largest folder whose ranks all fit the three-digit prefix. */
  const MaxRanked: int := 1000

  /** Python's `names[start:]`: a negative start counts from the end, and the
      start is clamped to the bounds of the list. */
  function PySliceFrom(names: seq<string>, start: int): (tail: seq<string>)
    ensures start >= 0 ==> tail == names[if start > |names| then |names| else start..]
    ensures start < 0 ==> tail == names[if start + |names| < 0 then 0 else start + |names|..]
  {
    if start < 0 then names[if start + |names| < 0 then 0 else start + |names|..]
    else names[if start > |names| then |names| else start..]
  }

  /** A renaming loop over `names` inside one folder: each name in turn is
      renamed to what `rename` gives for it (a rename replaces any file
      already carrying the new name); the first name `rename` rejects
      raises its error, leaving the earlier renames done. */
  function RenameEach(folder: set<string>, names: seq<string>, rename: string -> Result<string>): (set<string>, Option<Error>)
    decreases |names|, 1
  {
    if |names| == 0 then (folder, None) else RenameFirst(folder, names, rename)
  }

  /** One turn of that loop: rename the first name, then the rest. */
  function RenameFirst(folder: set<string>, names: seq<string>, rename: string -> Result<string>): (set<string>, Option<Error>)
    requires |names| > 0
    decreases |names|, 0
  {
    match rename(names[0])
    case Err(e) => (folder, Some(e))
    case Ok(renamed) => RenameEach(folder - {names[0]} + {renamed}, names[1..], rename)
  }

  /** The loops that shift prefixes: each name to its prefix moved by `amount`. */
  function ShiftEach(folder: set<string>, names: seq<string>, amount: int): (set<string>, Option<Error>)
  {
    RenameEach(folder, names, name => RankString.IncrementRankedFilename(name, amount))
  }

  /** One turn of a shifting loop. */
  lemma ShiftEachFirst(folder: set<string>, names: seq<string>, amount: int)
    requires |names| > 0
    ensures ShiftEach(folder, names, amount)
         == match RankString.IncrementRankedFilename(names[0], amount)
            case Err(e) => (folder, Some(e))
            case Ok(renamed) => ShiftEach(folder - {names[0]} + {renamed}, names[1..], amount)
  {
    var rename := name => RankString.IncrementRankedFilename(name, amount);
    assert ShiftEach(folder, names, amount) == RenameFirst(folder, names, rename);
    assert rename(names[0]) == RankString.IncrementRankedFilename(names[0], amount);
  }

  // ---------------------------------------------------------------------
  // Ranked names.
  // ---------------------------------------------------------------------

  /** Two ranked names are equal only when rank and name both are. */
  lemma AddRankStringInjective(f: string, g: string, a: int, b: int)
    requires 0 <= a < MaxRanked && 0 <= b < MaxRanked
    requires RankString.AddRankString(f, a) == RankString.AddRankString(g, b)
    ensures a == b && f == g
  {
    RankString.AddThenGetRankString(f, a);
    RankString.AddThenGetRankString(g, b);
    RankString.StringFromRankRoundTrip(a);
    RankString.StringFromRankRoundTrip(b);
  }

  /** A contiguously ranked folder lists in rank order, so reading it sorted
      gives back exactly `Ranked(bases)`. */
  lemma RankedListing(bases: seq<string>)
    requires |bases| <= MaxRanked
    ensures StrictlySorted(Ranked(bases))
    ensures SortedOf(Elems(Ranked(bases))) == Ranked(bases)
  {
    var names := Ranked(bases);
    forall i, j | 0 <= i < j < |names|
      ensures LexLess(names[i], names[j])
    {
      RankString.RankedNameOrder(bases[i], bases[j], i, j);
    }
    SortedOfSorted(Elems(names));
    SortedUnique(names, SortedOf(Elems(names)));
  }

  /** Removing a ranked name's prefix gives back its original name. */
  lemma RankedBases(bases: seq<string>, i: int)
    requires |bases| <= MaxRanked && 0 <= i < |bases|
    ensures RankString.RmRankString(Ranked(bases)[i]) == bases[i]
  {
    RankString.AddThenGetRankString(bases[i], i);
  }

  // ---------------------------------------------------------------------
  // Renaming loops.
  // ---------------------------------------------------------------------

  /** A renaming loop whose every rename succeeds and whose new names never
      hit a name still waiting to be renamed replaces the old names by the
      new ones. */
  lemma {:induction false} RenameEachNoClash(folder: set<string>, names: seq<string>, rename: string -> Result<string>, renamed: seq<string>)
    requires |renamed| == |names|
    requires forall i :: 0 <= i < |names| ==> rename(names[i]) == Ok(renamed[i])
    requires forall i, j :: 0 <= i < j < |names| ==> renamed[i] != names[j]
    ensures RenameEach(folder, names, rename) == ((folder - Elems(names)) + Elems(renamed), None)
    decreases |names|
  {
    if |names| > 0 {
      var next := folder - {names[0]} + {renamed[0]};
      forall i | 0 <= i < |names| - 1
        ensures rename(names[1..][i]) == Ok(renamed[1..][i])
      {
        assert names[1..][i] == names[i + 1];
      }
      forall i, j | 0 <= i < j < |names| - 1
        ensures renamed[1..][i] != names[1..][j]
      {
        assert renamed[1..][i] == renamed[i + 1] && names[1..][j] == names[j + 1];
      }
      RenameEachNoClash(next, names[1..], rename, renamed[1..]);
      assert rename(names[0]) == Ok(renamed[0]);
      assert RenameEach(folder, names, rename) == RenameFirst(folder, names, rename) == RenameEach(next, names[1..], rename);
      ElemsCons(names);
      ElemsCons(renamed);
      assert renamed[0] !in Elems(names[1..]);
      assert (next - Elems(names[1..])) + Elems(renamed[1..]) == (folder - Elems(names)) + Elems(renamed);
    } else {
      EmptyElems(names);
      EmptyElems(renamed);
      assert (folder - Elems(names)) + Elems(renamed) == folder;
    }
  }

  /** An example of the renaming loop stopping at a name `int()` cannot
      read: with `abc-x` first, ValueError is raised before any rename. */
  lemma ShiftEachStops(folder: set<string>, amount: int)
    ensures ShiftEach(folder, ["abc-x", "000-y"], amount) == (folder, Some(ValueError("invalid literal for int()")))
  {
    assert RankString.GetRankString("abc-x").0 == "abc";
    assert !IsDigit("abc"[0]);
  }

  /** The ranked names of `bases` from rank `start` on, each moved by `amount`. */
  function ShiftedFrom(bases: seq<string>, start: int, amount: int): (names: seq<string>)
    requires 0 <= start <= |bases|
    ensures |names| == |bases| - start
    ensures forall i :: 0 <= i < |names| ==> names[i] == RankString.AddRankString(bases[start + i], start + i + amount)
  {
    seq(|bases| - start, i requires 0 <= i < |bases| - start => RankString.AddRankString(bases[start + i], start + i + amount))
  }

  /** Each name from rank `start` on shifts to the same name at its rank
      plus `amount`. */
  lemma ShiftTailRenames(bases: seq<string>, start: int, amount: int)
    requires |bases| <= MaxRanked && 0 <= start <= |bases|
    ensures forall i :: 0 <= i < |bases| - start ==>
      RankString.IncrementRankedFilename(Ranked(bases)[start + i], amount) == Ok(ShiftedFrom(bases, start, amount)[i])
  {
    forall i | 0 <= i < |bases| - start
      ensures RankString.IncrementRankedFilename(Ranked(bases)[start + i], amount) == Ok(ShiftedFrom(bases, start, amount)[i])
    {
      RankString.IncrementWellFormed(bases[start + i], start + i, amount);
    }
  }

  /** With distinct names, no shifted name is a name still to be visited. */
  lemma ShiftTailNoClash(bases: seq<string>, start: int, amount: int)
    requires |bases| <= MaxRanked && Distinct(bases) && 0 <= start <= |bases|
    requires start + amount >= 0 && |bases| + amount <= MaxRanked
    ensures forall i, k :: 0 <= i && start + i < k < |bases| ==> ShiftedFrom(bases, start, amount)[i] != Ranked(bases)[k]
  {
    forall i, k | 0 <= i && start + i < k < |bases|
      ensures ShiftedFrom(bases, start, amount)[i] != Ranked(bases)[k]
    {
      if ShiftedFrom(bases, start, amount)[i] == Ranked(bases)[k] {
        AddRankStringInjective(bases[start + i], bases[k], start + i + amount, k);
      }
    }
  }

  /** Shifting the tail of a contiguously ranked folder whose names are
      distinct renames exactly those files, as long as every new rank is
      between 0 and 999. */
  lemma ShiftTail(bases: seq<string>, start: int, amount: int, folder: set<string>)
    requires |bases| <= MaxRanked && Distinct(bases) && 0 <= start <= |bases|
    requires start + amount >= 0 && |bases| + amount <= MaxRanked
    ensures ShiftEach(folder, Ranked(bases)[start..], amount)
         == ((folder - Elems(Ranked(bases)[start..])) + Elems(ShiftedFrom(bases, start, amount)), None)
  {
    var names := Ranked(bases)[start..];
    var renamed := ShiftedFrom(bases, start, amount);
    var rename := name => RankString.IncrementRankedFilename(name, amount);
    ShiftTailRenames(bases, start, amount);
    ShiftTailNoClash(bases, start, amount);
    forall i | 0 <= i < |names| ensures rename(names[i]) == Ok(renamed[i]) {
      assert names[i] == Ranked(bases)[start + i];
    }
    forall i, j | 0 <= i < j < |names| ensures renamed[i] != names[j] {
      assert names[j] == Ranked(bases)[start + j];
    }
    RenameEachNoClash(folder, names, rename, renamed);
  }

  // ---------------------------------------------------------------------
  // insert_unranked_file.
  // ---------------------------------------------------------------------

  /** The two folders after `insert_unranked_file(rank)`, given the folders
      before and the listing `names` the sorter holds: every listed name from
      `rank` on (Python's `names[rank:]`) is shifted up by one, then the new
      file moves from the unranked folder into the ranked folder with the
      prefix of `rank`. */
  function InsertFolders(ranked: set<string>, unranked: set<string>, names: seq<string>, newcomer: string, rank: int)
    : (set<string>, set<string>, Option<Error>)
  {
    var (shifted, raised) := ShiftEach(ranked, PySliceFrom(names, rank), 1);
    if raised.Some? then (shifted, unranked, raised)
    else (shifted + {RankString.AddRankString(newcomer, rank)}, unranked - {newcomer}, None)
  }

  /** The ranked list after an insertion at `rank`: the names before it,
      the newcomer, and the names from it on each one rank lower. */
  lemma RankedInsert(bases: seq<string>, newcomer: string, rank: int)
    requires 0 <= rank <= |bases|
    ensures Ranked(bases[..rank] + [newcomer] + bases[rank..])
         == Ranked(bases)[..rank] + [RankString.AddRankString(newcomer, rank)] + ShiftedFrom(bases, rank, 1)
  {
    var after := bases[..rank] + [newcomer] + bases[rank..];
    IndexedInsert(RankString.AddRankString, bases, newcomer, rank, Ranked(bases), Ranked(after), ShiftedFrom(bases, rank, 1));
  }

  /** The same for any naming by position: naming the list with an element
      inserted at `rank` names the front as before, the inserted element at
      `rank`, and each later element at its position plus one. */
  lemma IndexedInsert<T, U>(name: (T, int) -> U, s: seq<T>, x: T, rank: int, named: seq<U>, namedAfter: seq<U>, namedBack: seq<U>)
    requires 0 <= rank <= |s|
    requires |named| == |s| && forall i :: 0 <= i < |s| ==> named[i] == name(s[i], i)
    requires |namedBack| == |s| - rank && forall j :: 0 <= j < |s| - rank ==> namedBack[j] == name(s[rank + j], rank + j + 1)
    requires |namedAfter| == |s| + 1
    requires forall i :: 0 <= i < |s| + 1 ==> namedAfter[i] == name((s[..rank] + [x] + s[rank..])[i], i)
    ensures namedAfter == named[..rank] + [name(x, rank)] + namedBack
  {
    var parts := named[..rank] + [name(x, rank)] + namedBack;
    forall k | 0 <= k < |s| + 1 ensures namedAfter[k] == parts[k] {
      InsertIndex(named[..rank], name(x, rank), namedBack, k);
      InsertIndex(s[..rank], x, s[rank..], k);
      if k < rank {
        assert parts[k] == named[k] == name(s[k], k) == namedAfter[k];
      } else if k == rank {
        assert parts[k] == name(x, rank) == namedAfter[k];
      } else {
        assert parts[k] == namedBack[k - rank - 1] == name(s[rank + (k - rank - 1)], k);
        assert rank + (k - rank - 1) == k - 1;
        assert namedAfter[k] == name(s[k - 1], k);
      }
    }
  }

  lemma InsertIndex<T>(front: seq<T>, x: T, back: seq<T>, k: int)
    requires 0 <= k < |front| + 1 + |back|
    ensures (front + [x] + back)[k] == if k < |front| then front[k] else if k == |front| then x else back[k - |front| - 1]
  {
  }

  lemma RemoveIndex<T>(front: seq<T>, back: seq<T>, k: int)
    requires 0 <= k < |front| + |back|
    ensures (front + back)[k] == if k < |front| then front[k] else back[k - |front|]
  {
  }

  /** Inserting at any rank 0..N into a contiguously ranked folder of N < 1000
      distinct names gives the contiguously ranked folder with the newcomer
      at that rank: names before it unchanged, names from it on moved down
      one rank with their original names kept, and the newcomer gone from
      the unranked folder. */
  lemma InsertKeepsRanksContiguous(bases: seq<string>, unranked: set<string>, newcomer: string, rank: int)
    requires |bases| < MaxRanked && Distinct(bases) && 0 <= rank <= |bases|
    ensures InsertFolders(Elems(Ranked(bases)), unranked, Ranked(bases), newcomer, rank)
         == (Elems(Ranked(bases[..rank] + [newcomer] + bases[rank..])), unranked - {newcomer}, None)
  {
    InsertedElems(bases, newcomer, rank);
    InsertFoldersRanked(bases, unranked, newcomer, rank);
  }

  lemma InsertFoldersRanked(bases: seq<string>, unranked: set<string>, newcomer: string, rank: int)
    requires |bases| < MaxRanked && Distinct(bases) && 0 <= rank <= |bases|
    requires Elems(Ranked(bases[..rank] + [newcomer] + bases[rank..]))
          == Elems(Ranked(bases)[..rank]) + Elems(ShiftedFrom(bases, rank, 1)) + {RankString.AddRankString(newcomer, rank)}
    ensures InsertFolders(Elems(Ranked(bases)), unranked, Ranked(bases), newcomer, rank)
         == (Elems(Ranked(bases[..rank] + [newcomer] + bases[rank..])), unranked - {newcomer}, None)
  {
    assert PySliceFrom(Ranked(bases), rank) == Ranked(bases)[rank..];
    ShiftRankedTail(bases, rank, 1);
  }

  /** The names after an insertion: those before the rank, the shifted
      ones, and the newcomer's. */
  lemma InsertedElems(bases: seq<string>, newcomer: string, rank: int)
    requires 0 <= rank <= |bases|
    ensures Elems(Ranked(bases[..rank] + [newcomer] + bases[rank..]))
         == Elems(Ranked(bases)[..rank]) + Elems(ShiftedFrom(bases, rank, 1)) + {RankString.AddRankString(newcomer, rank)}
  {
    var added := RankString.AddRankString(newcomer, rank);
    RankedInsert(bases, newcomer, rank);
    ElemsConcat(Ranked(bases)[..rank] + [added], ShiftedFrom(bases, rank, 1));
    ElemsConcat(Ranked(bases)[..rank], [added]);
    assert Elems([added]) == {added};
  }

  /** Inserting into an empty ranked folder gives the newcomer rank 0. */
  lemma InsertIntoEmpty(unranked: set<string>, newcomer: string)
    ensures InsertFolders({}, unranked, [], newcomer, 0) == ({"000-" + newcomer}, unranked - {newcomer}, None)
  {
    RankString.FirstPrefixes();
    assert PySliceFrom([], 0) == [];
    assert ShiftEach({}, [], 1) == ({}, None);
    assert RankString.AddRankString(newcomer, 0) == "000-" + newcomer;
    var r := InsertFolders({}, unranked, [], newcomer, 0);
    assert r == ({} + {RankString.AddRankString(newcomer, 0)}, unranked - {newcomer}, None);
    assert r.0 == {"000-" + newcomer};
  }

  // ---------------------------------------------------------------------
  // unrank_files.
  // ---------------------------------------------------------------------

  /** The original names of `names`: each without its rank prefix. */
  function Stripped(names: seq<string>): set<string>
  {
    set name | name in names :: RankString.RmRankString(name)
  }

  /** The folders after the first loop of `unrank_files`: the listed names
      at positions low..high-1 move to the unranked folder with their prefix
      removed. */
  function UnrankWindow(ranked: set<string>, unranked: set<string>, names: seq<string>, low: int, high: int): (set<string>, set<string>)
    requires 0 <= low <= |names| && 0 <= high <= |names|
  {
    var window := if low < high then names[low..high] else [];
    (ranked - Elems(window), unranked + Stripped(window))
  }

  /** The ranked folder after the second loop of `unrank_files`: re-read,
      every name from position `low` on is moved down by `high - low`. */
  ghost function CloseGap(ranked: set<string>, low: int, high: int): (set<string>, Option<Error>)
  {
    ShiftEach(ranked, PySliceFrom(SortedOf(ranked), low), -(high - low))
  }

  /** The ranked list after removing the window low..high-1: the names
      before it, and the names after it each `high - low` ranks better. */
  lemma RankedRemove(bases: seq<string>, low: int, high: int)
    requires 0 <= low <= high <= |bases|
    ensures Ranked(bases[..low] + bases[high..]) == Ranked(bases)[..low] + ShiftedFrom(bases, high, -(high - low))
  {
    var rest := bases[..low] + bases[high..];
    var shifted := ShiftedFrom(bases, high, -(high - low));
    var parts := Ranked(bases)[..low] + shifted;
    forall k | 0 <= k < |rest| ensures Ranked(rest)[k] == parts[k] {
      RemoveIndex(bases[..low], bases[high..], k);
      RemoveIndex(Ranked(bases)[..low], shifted, k);
      if k < low {
        assert rest[k] == bases[k] && parts[k] == Ranked(bases)[k];
      } else {
        var j := k - low;
        assert rest[k] == bases[high + j] && parts[k] == shifted[j];
        assert high + j + -(high - low) == k;
      }
    }
  }

  /** The names the first loop puts in the unranked folder are the original
      names of the window. */
  lemma UnrankedNames(bases: seq<string>, low: int, high: int)
    requires |bases| <= MaxRanked && 0 <= low < high <= |bases|
    ensures Stripped(Ranked(bases)[low..high]) == Elems(bases[low..high])
  {
    var window := Ranked(bases)[low..high];
    var originals := bases[low..high];
    forall i | 0 <= i < |window| ensures RankString.RmRankString(window[i]) == originals[i] {
      assert window[i] == Ranked(bases)[low + i] && originals[i] == bases[low + i];
      RankedBases(bases, low + i);
    }
    StrippedElems(window, originals);
  }

  /** Stripping the prefix of each of `window`, position by position giving
      `originals`, gives the set of `originals`. */
  lemma StrippedElems(window: seq<string>, originals: seq<string>)
    requires |window| == |originals|
    requires forall i :: 0 <= i < |window| ==> RankString.RmRankString(window[i]) == originals[i]
    ensures Stripped(window) == Elems(originals)
  {
    forall x | x in Stripped(window)
      ensures x in Elems(originals)
    {
      var i :| 0 <= i < |window| && x == RankString.RmRankString(window[i]);
      assert x == originals[i];
    }
    forall x | x in Elems(originals)
      ensures x in Stripped(window)
    {
      var i :| 0 <= i < |originals| && originals[i] == x;
      assert window[i] in window;
    }
  }

  /** The listing left by the first loop: the window's names are gone and
      the rest keep their order. */
  lemma UnrankWindowListing(bases: seq<string>, unranked: set<string>, low: int, high: int)
    requires |bases| <= MaxRanked && 0 <= low < high <= |bases|
    ensures UnrankWindow(Elems(Ranked(bases)), unranked, Ranked(bases), low, high)
         == (Elems(Ranked(bases)[..low] + Ranked(bases)[high..]), unranked + Elems(bases[low..high]))
    ensures SortedOf(Elems(Ranked(bases)[..low] + Ranked(bases)[high..])) == Ranked(bases)[..low] + Ranked(bases)[high..]
  {
    var names := Ranked(bases);
    RankedListing(bases);
    ElemsWithout(names, low, high);
    SortedWithout(names, low, high);
    UnrankedNames(bases, low, high);
    SortedOfSorted(Elems(names[..low] + names[high..]));
    SortedUnique(names[..low] + names[high..], SortedOf(Elems(names[..low] + names[high..])));
  }

  /** After the first loop the re-read listing from position `low` on is
      the part of the list after the window. */
  lemma CloseGapVisits(bases: seq<string>, low: int, high: int)
    requires |bases| <= MaxRanked && 0 <= low < high <= |bases|
    ensures CloseGap(Elems(Ranked(bases)[..low] + Ranked(bases)[high..]), low, high)
         == ShiftEach(Elems(Ranked(bases)[..low] + Ranked(bases)[high..]), Ranked(bases)[high..], -(high - low))
  {
    var names := Ranked(bases);
    UnrankWindowListing(bases, {}, low, high);
    assert PySliceFrom(names[..low] + names[high..], low) == names[high..];
  }

  lemma KeptWithoutTail(bases: seq<string>, low: int, high: int)
    requires |bases| <= MaxRanked && 0 <= low < high <= |bases|
    ensures Elems(Ranked(bases)[..low] + Ranked(bases)[high..]) - Elems(Ranked(bases)[high..]) == Elems(Ranked(bases)[..low])
  {
    RankedListing(bases);
    SortedKeepHead(Ranked(bases), low, high);
  }

  /** In a sorted listing without repeats, the names before a window are
      the names outside it less those after it. */
  lemma SortedKeepHead(names: seq<string>, low: int, high: int)
    requires StrictlySorted(names) && 0 <= low <= high <= |names|
    ensures Elems(names[..low] + names[high..]) - Elems(names[high..]) == Elems(names[..low])
  {
    var kept := names[..low] + names[high..];
    SortedWithout(names, low, high);
    ElemsWithout(kept, low, |kept|);
    assert kept[low..|kept|] == names[high..] && kept[..low] + kept[|kept|..] == names[..low];
  }

  lemma RankedRemoveElems(bases: seq<string>, low: int, high: int)
    requires 0 <= low < high <= |bases|
    ensures Elems(Ranked(bases[..low] + bases[high..])) == Elems(Ranked(bases)[..low]) + Elems(ShiftedFrom(bases, high, -(high - low)))
  {
    RankedRemove(bases, low, high);
    ElemsConcat(Ranked(bases)[..low], ShiftedFrom(bases, high, -(high - low)));
  }

  /** The second loop of `unrank_files` on the folder left by the first:
      every name after the window moves down by the window's width. */
  lemma CloseGapAfterWindow(bases: seq<string>, low: int, high: int)
    requires |bases| <= MaxRanked && Distinct(bases) && 0 <= low < high <= |bases|
    ensures CloseGap(Elems(Ranked(bases)[..low] + Ranked(bases)[high..]), low, high)
         == (Elems(Ranked(bases[..low] + bases[high..])), None)
  {
    var names := Ranked(bases);
    CloseGapVisits(bases, low, high);
    KeptWithoutTail(bases, low, high);
    ShiftTail(bases, high, -(high - low), Elems(names[..low] + names[high..]));
    RankedRemoveElems(bases, low, high);
  }

  /** Unranking the window low..high-1 of a contiguously ranked folder of
      distinct names gives the contiguously ranked folder of the remaining
      names, and the removed files reappear under their original names in
      the unranked folder. */
  lemma UnrankKeepsRanksContiguous(bases: seq<string>, unranked: set<string>, low: int, high: int)
    requires |bases| <= MaxRanked && Distinct(bases) && 0 <= low < high <= |bases|
    ensures UnrankWindow(Elems(Ranked(bases)), unranked, Ranked(bases), low, high).1 == unranked + Elems(bases[low..high])
    ensures CloseGap(UnrankWindow(Elems(Ranked(bases)), unranked, Ranked(bases), low, high).0, low, high)
         == (Elems(Ranked(bases[..low] + bases[high..])), None)
  {
    UnrankWindowListing(bases, unranked, low, high);
    CloseGapAfterWindow(bases, low, high);
  }

  /** With `low == high` nothing leaves and every name from `low` on is
      renamed to itself: the folders are unchanged. */
  lemma UnrankEmptyWindowKeepsFolders(bases: seq<string>, unranked: set<string>, low: int)
    requires |bases| <= MaxRanked && Distinct(bases) && 0 <= low <= |bases|
    ensures UnrankWindow(Elems(Ranked(bases)), unranked, Ranked(bases), low, low) == (Elems(Ranked(bases)), unranked)
    ensures CloseGap(Elems(Ranked(bases)), low, low) == (Elems(Ranked(bases)), None)
  {
    EmptyWindowMovesNothing(Elems(Ranked(bases)), unranked, Ranked(bases), low);
    CloseGapInPlace(bases, low);
    ShiftTail(bases, low, 0, Elems(Ranked(bases)));
    SplitElems(Ranked(bases), low);
  }

  lemma EmptyWindowMovesNothing(ranked: set<string>, unranked: set<string>, names: seq<string>, low: int)
    requires 0 <= low <= |names|
    ensures UnrankWindow(ranked, unranked, names, low, low) == (ranked, unranked)
  {
    var window: seq<string> := [];
    EmptyElems(window);
    var stripped := Stripped(window);
    assert stripped == {};
    assert UnrankWindow(ranked, unranked, names, low, low) == (ranked - Elems(window), unranked + stripped);
    assert ranked - Elems(window) == ranked && unranked + stripped == unranked;
  }

  lemma CloseGapInPlace(bases: seq<string>, low: int)
    requires |bases| <= MaxRanked && 0 <= low <= |bases|
    ensures CloseGap(Elems(Ranked(bases)), low, low) == ShiftEach(Elems(Ranked(bases)), Ranked(bases)[low..], 0)
    ensures ShiftedFrom(bases, low, 0) == Ranked(bases)[low..]
  {
    RankedListing(bases);
    assert PySliceFrom(Ranked(bases), low) == Ranked(bases)[low..];
  }

  lemma SplitElems(names: seq<string>, low: int)
    requires 0 <= low <= |names|
    ensures (Elems(names) - Elems(names[low..])) + Elems(names[low..]) == Elems(names)
  {
    ElemsConcat(names[..low], names[low..]);
    assert names[..low] + names[low..] == names;
  }

  /** The names of a contiguously ranked folder before rank `low` are the
      folder without its names from `low` on. */
  lemma RankedHead(bases: seq<string>, low: int)
    requires |bases| <= MaxRanked && 0 <= low <= |bases|
    ensures Elems(Ranked(bases)) - Elems(Ranked(bases)[low..]) == Elems(Ranked(bases)[..low])
  {
    var names := Ranked(bases);
    RankedListing(bases);
    ElemsWithout(names, low, |names|);
    assert names[low..|names|] == names[low..] && names[..low] + names[|names|..] == names[..low];
  }

  /** Shifting the names of a contiguously ranked folder from rank `low`
      on leaves the names before it and adds the shifted ones. */
  lemma ShiftRankedTail(bases: seq<string>, low: int, amount: int)
    requires |bases| <= MaxRanked && Distinct(bases) && 0 <= low <= |bases|
    requires low + amount >= 0 && |bases| + amount <= MaxRanked
    ensures ShiftEach(Elems(Ranked(bases)), Ranked(bases)[low..], amount)
         == (Elems(Ranked(bases)[..low]) + Elems(ShiftedFrom(bases, low, amount)), None)
  {
    ShiftTail(bases, low, amount, Elems(Ranked(bases)));
    RankedHead(bases, low);
  }

  lemma ReversedWindowMovesNothing(ranked: set<string>, unranked: set<string>, names: seq<string>, low: int, high: int)
    requires 0 <= high < low <= |names|
    ensures UnrankWindow(ranked, unranked, names, low, high) == (ranked, unranked)
  {
    var window: seq<string> := [];
    EmptyElems(window);
    var stripped := Stripped(window);
    assert stripped == {};
    assert UnrankWindow(ranked, unranked, names, low, high) == (ranked - Elems(window), unranked + stripped);
    assert ranked - Elems(window) == ranked && unranked + stripped == unranked;
  }

  lemma CloseGapReversed(bases: seq<string>, low: int, high: int)
    requires |bases| <= MaxRanked && Distinct(bases) && 0 <= high < low <= |bases|
    requires |bases| + (low - high) <= MaxRanked
    ensures CloseGap(Elems(Ranked(bases)), low, high) == (Elems(Ranked(bases)[..low]) + Elems(ShiftedFrom(bases, low, low - high)), None)
  {
    RankedListing(bases);
    assert PySliceFrom(Ranked(bases), low) == Ranked(bases)[low..];
    ShiftRankedTail(bases, low, low - high);
  }

  /** With `low > high` nothing leaves, but every name from `low` on moves
      UP by `low - high` ranks instead of down, so the ranks low .. 2 low - high - 1
      are left empty. */
  lemma UnrankReversedWindowOpensGap(bases: seq<string>, unranked: set<string>, low: int, high: int)
    requires |bases| <= MaxRanked && Distinct(bases) && 0 <= high < low <= |bases|
    requires |bases| + (low - high) <= MaxRanked
    ensures UnrankWindow(Elems(Ranked(bases)), unranked, Ranked(bases), low, high) == (Elems(Ranked(bases)), unranked)
    ensures CloseGap(Elems(Ranked(bases)), low, high) == (Elems(Ranked(bases)[..low]) + Elems(ShiftedFrom(bases, low, low - high)), None)
  {
    ReversedWindowMovesNothing(Elems(Ranked(bases)), unranked, Ranked(bases), low, high);
    CloseGapReversed(bases, low, high);
  }
}
