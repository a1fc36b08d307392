/** `ResumeSorter` (resume_sorter.py): ranks resumes by insertion. The ranked
    folder holds files named with a three-digit rank prefix (`RankString`);
    inserting a resume walks the sorted listing from its median with the
    comparator's verdicts (`RankWalk`), shifts every later file down one rank
    and moves the resume in with the rank it landed on. The two folders are
    sets of file names; the comparator is the sequence of verdicts it gives,
    one per call. */
module ResumeSorter {
  import opened Wrappers
  import opened Listing
  import RankWalk
  import opened RankedList
  import RankString

  /** The walk state of `find_rank` at a verdict position `pos` leads to the
      same end as the whole walk `target`, which has `pos` more probes. */
  ghost predicate Resumes(n: int, verdicts: seq<Option<bool>>, pos: nat, cur: int, first: Option<bool>, target: RankWalk.Walk)
  {
    && pos <= |verdicts|
    && RankWalk.WalkFrom(n, verdicts, pos, cur, first).end == target.end
    && pos + |RankWalk.WalkFrom(n, verdicts, pos, cur, first).probes| == |target.probes|
  }

  /** What `insert(newcomer)` does to the two folders, what it raises, and
      how many verdicts it uses: an empty ranked folder takes the newcomer
      as rank 0 without a comparison; otherwise the walk over the sorted
      listing picks the rank and `insert_unranked_file` puts it there. */
  ghost function InsertOutcome(ranked: set<string>, unranked: set<string>, newcomer: string, verdicts: seq<Option<bool>>)
    : (set<string>, set<string>, Option<Error>, nat)
  {
    if ranked == {} then
      (ranked + {RankString.AddRankString(newcomer, 0)}, unranked - {newcomer}, None, 0)
    else
      var walk := RankWalk.FindRankWalk(|ranked|, verdicts);
      var rank := RankWalk.WalkResult(walk.end);
      if rank.Err? then (ranked, unranked, Some(rank.error), |walk.probes|)
      else
        var after := InsertFolders(ranked, unranked, SortedOf(ranked), newcomer, rank.value);
        (after.0, after.1, after.2, |walk.probes|)
  }

  /** What `unrank_files(low, high)` does to the two folders, what it
      raises, and the listing it leaves in `ranked_filenames`. Absent
      bounds default to the whole list; the bounds are checked only after an
      empty folder has returned. */
  ghost function UnrankOutcome(ranked: set<string>, unranked: set<string>, low: Option<int>, high: Option<int>)
    : (set<string>, set<string>, Option<Error>, seq<string>)
  {
    var names := SortedOf(ranked);
    var n := |names|;
    if n == 0 then (ranked, unranked, None, names)
    else
      var idxLow := if low.None? then 0 else low.value;
      var idxHigh := if high.None? then n else high.value;
      if !(0 <= idxLow < n) then (ranked, unranked, Some(ValueError("bad low index")), names)
      else if !(1 <= idxHigh <= n) then (ranked, unranked, Some(ValueError("bad high index")), names)
      else UnrankRange(ranked, unranked, idxLow, idxHigh)
  }

  /** `unrank_files` once the bounds have passed: the window leaves, the
      folder is re-read and the gap is closed. */
  ghost function UnrankRange(ranked: set<string>, unranked: set<string>, idxLow: int, idxHigh: int)
    : (set<string>, set<string>, Option<Error>, seq<string>)
    requires 0 <= idxLow < |ranked| && 1 <= idxHigh <= |ranked|
  {
    var moved := UnrankWindow(ranked, unranked, SortedOf(ranked), idxLow, idxHigh);
    var closed := CloseGap(moved.0, idxLow, idxHigh);
    (closed.0, moved.1, closed.1, SortedOf(moved.0))
  }

  class Sorter {
    /** The `./ranked` and `./unranked` folders. */
    var rankedDir: set<string>
    var unrankedDir: set<string>
    /** The listing and its length as last read by `read_ranked_folder`. */
    var rankedFilenames: seq<string>
    var numRankedResumes: int
    var toBeRankedFilename: string

    /** The length and the listing were read together. */
    predicate Listed()
      reads this
    {
      numRankedResumes == |rankedFilenames|
    }

    /** A sorter over the two folders. The listing fields exist in Python only
        once `read_ranked_folder` has run; here they start empty. */
    constructor(ranked: set<string>, unranked: set<string>)
      ensures rankedDir == ranked && unrankedDir == unranked
      ensures rankedFilenames == [] && numRankedResumes == 0 && toBeRankedFilename == ""
      ensures Listed()
    {
      rankedDir := ranked;
      unrankedDir := unranked;
      rankedFilenames := [];
      numRankedResumes := 0;
      toBeRankedFilename := "";
    }

    /** `read_ranked_folder`: the count of files and the sorted listing. */
    method ReadRankedFolder()
      modifies this`rankedFilenames, this`numRankedResumes
      ensures rankedFilenames == SortedOf(rankedDir) && numRankedResumes == |rankedDir|
      ensures rankedDir == old(rankedDir) && Listed()
    {
      numRankedResumes := |rankedDir|;
      rankedFilenames := SortedListing(rankedDir);
    }

    /** `find_rank`: from the median, ask for a verdict at the current index
        until one is conclusive; the first conclusive verdict fixes the
        direction, an agreeing one moves the index a step (stopping as soon as
        it lands on either end), and the first disagreeing one ends the walk
        at the current index. `used` counts the verdicts consumed. */
    method FindRank(verdicts: seq<Option<bool>>) returns (rank: Result<int>, used: nat)
      requires Listed()
      ensures rank == RankWalk.WalkResult(RankWalk.FindRankWalk(numRankedResumes, verdicts).end)
      ensures used == |RankWalk.FindRankWalk(numRankedResumes, verdicts).probes|
    {
      var n := numRankedResumes;
      ghost var target := RankWalk.FindRankWalk(n, verdicts);
      var currentRank := (n - 1) / 2;
      var firstIsWin: Option<bool> := None;
      var oppositeResults := 0;
      used := 0;
      while oppositeResults < 1
        invariant used <= |verdicts|
        invariant oppositeResults == 0 || oppositeResults == 1
        invariant oppositeResults == 0 ==> Resumes(n, verdicts, used, currentRank, firstIsWin, target)
        invariant oppositeResults == 1 ==> target.end == RankWalk.Ranked(currentRank) && used == |target.probes|
        decreases |verdicts| - used, 1 - oppositeResults
      {
        // Ask again at the same index while the comparator names no winner.
        var verdict: Option<bool> := None;
        ghost var start := used;
        while verdict.None?
          invariant start <= used <= |verdicts|
          invariant verdict.None? ==> Resumes(n, verdicts, used, currentRank, firstIsWin, target)
          invariant verdict.Some? ==>
            && start < used && verdicts[used - 1] == verdict && RankWalk.PyIndexOk(n, currentRank)
            && Resumes(n, verdicts, used - 1, currentRank, firstIsWin, target)
          decreases |verdicts| - used, if verdict.None? then 1 else 0
        {
          if !(-|rankedFilenames| <= currentRank < |rankedFilenames|) {
            return Err(IndexError), used;
          }
          if used == |verdicts| {
            return Err(ScriptExhausted), used;
          }
          verdict := verdicts[used];
          used := used + 1;
        }
        var isWin := verdict.value;
        if firstIsWin.None? {
          firstIsWin := Some(isWin);
        }
        if firstIsWin.value != isWin {
          oppositeResults := oppositeResults + 1;
        } else {
          currentRank := currentRank + if firstIsWin.value then -1 else 1;
          if currentRank == 0 || currentRank == n - 1 {
            break;
          }
        }
      }
      rank := Ok(currentRank);
    }

    /** `insert_unranked_file(rank)`: shift every listed name from `rank` on
        up one rank, then move the resume being ranked into the ranked folder
        with the prefix of `rank`. A name whose prefix `int()` cannot read
        stops the loop with its error. */
    method InsertUnrankedFile(rank: int) returns (raised: Option<Error>)
      modifies this`rankedDir, this`unrankedDir
      ensures (rankedDir, unrankedDir, raised)
           == InsertFolders(old(rankedDir), old(unrankedDir), rankedFilenames, toBeRankedFilename, rank)
    {
      raised := ShiftListedFrom(rank, 1);
      if raised.Some? {
        return;
      }
      var newFilename := RankString.AddRankString(toBeRankedFilename, rank);
      unrankedDir := unrankedDir - {toBeRankedFilename};
      rankedDir := rankedDir + {newFilename};
    }

    /** `unrank_files(idx_low, idx_high)`: move the listed names at
        positions low .. high - 1 back to the unranked folder without their
        prefix, re-read the folder, and move every name from position low on
        down by `high - low` ranks. */
    method UnrankFiles(low: Option<int>, high: Option<int>) returns (raised: Option<Error>)
      modifies this`rankedDir, this`unrankedDir, this`rankedFilenames, this`numRankedResumes
      ensures (rankedDir, unrankedDir, raised, rankedFilenames) == UnrankOutcome(old(rankedDir), old(unrankedDir), low, high)
      ensures Listed()
    {
      ReadRankedFolder();
      assert |SortedOf(rankedDir)| == numRankedResumes;
      if numRankedResumes == 0 {
        return None;
      }
      var idxLow := if low.None? then 0 else low.value;
      var idxHigh := if high.None? then numRankedResumes else high.value;
      if !(0 <= idxLow < numRankedResumes) {
        return Some(ValueError("bad low index"));
      }
      if !(1 <= idxHigh <= numRankedResumes) {
        return Some(ValueError("bad high index"));
      }
      ghost var outcome := UnrankRange(rankedDir, unrankedDir, idxLow, idxHigh);
      assert UnrankOutcome(rankedDir, unrankedDir, low, high) == outcome;
      raised := UnrankRangeLoops(idxLow, idxHigh);
    }

    /** The two loops of `unrank_files`, once the bounds have passed. */
    method UnrankRangeLoops(idxLow: int, idxHigh: int) returns (raised: Option<Error>)
      requires 0 <= idxLow < |rankedDir| && 1 <= idxHigh <= |rankedDir|
      requires rankedFilenames == SortedOf(rankedDir)
      modifies this`rankedDir, this`unrankedDir, this`rankedFilenames, this`numRankedResumes
      ensures (rankedDir, unrankedDir, raised, rankedFilenames) == UnrankRange(old(rankedDir), old(unrankedDir), idxLow, idxHigh)
      ensures Listed()
    {
      MoveWindow(idxLow, idxHigh);
      raised := CloseGapLoop(idxLow, idxHigh);
    }

    /** The first loop of `unrank_files`: the listed names at positions
        low .. high - 1 move to the unranked folder without their prefix. */
    method MoveWindow(idxLow: int, idxHigh: int)
      requires 0 <= idxLow < |rankedFilenames| && 1 <= idxHigh <= |rankedFilenames|
      modifies this`rankedDir, this`unrankedDir
      ensures (rankedDir, unrankedDir) == UnrankWindow(old(rankedDir), old(unrankedDir), rankedFilenames, idxLow, idxHigh)
    {
      var i := idxLow;
      while i < idxHigh
        invariant idxLow <= i <= |rankedFilenames| && (i == idxLow || i <= idxHigh)
        invariant rankedDir == old(rankedDir) - Elems(rankedFilenames[idxLow..i])
        invariant unrankedDir == old(unrankedDir) + Stripped(rankedFilenames[idxLow..i])
      {
        var filename := rankedFilenames[i];
        var newFilename := RankString.RmRankString(filename);
        WindowGrows(rankedFilenames, idxLow, i);
        rankedDir := rankedDir - {filename};
        unrankedDir := unrankedDir + {newFilename};
        i := i + 1;
      }
      assert rankedFilenames[idxLow..i] == if idxLow < idxHigh then rankedFilenames[idxLow..idxHigh] else [];
    }

    /** The second half of `unrank_files`: re-read the ranked folder, then
        move every listed name from position low on down by `high - low`. */
    method CloseGapLoop(idxLow: int, idxHigh: int) returns (raised: Option<Error>)
      modifies this`rankedDir, this`rankedFilenames, this`numRankedResumes
      ensures rankedDir == CloseGap(old(rankedDir), idxLow, idxHigh).0
      ensures raised == CloseGap(old(rankedDir), idxLow, idxHigh).1
      ensures rankedFilenames == SortedOf(old(rankedDir)) && Listed()
    {
      ReadRankedFolder();
      CloseGapOfListing(rankedDir, rankedFilenames, idxLow, idxHigh);
      raised := ShiftListedFrom(idxLow, -(idxHigh - idxLow));
    }

    /** The renaming loops of `insert_unranked_file` and `unrank_files`:
        every listed name from position `start` on (Python's
        `ranked_filenames[start:]`) gets its prefix moved by `amount`. A name
        whose prefix `int()` cannot read stops the loop with its error. */
    method ShiftListedFrom(start: int, amount: int) returns (raised: Option<Error>)
      modifies this`rankedDir
      ensures rankedDir == ShiftEach(old(rankedDir), PySliceFrom(rankedFilenames, start), amount).0
      ensures raised == ShiftEach(old(rankedDir), PySliceFrom(rankedFilenames, start), amount).1
    {
      var tail := PySliceFrom(rankedFilenames, start);
      var i := 0;
      while i < |tail|
        invariant 0 <= i <= |tail|
        invariant ShiftEach(old(rankedDir), tail, amount) == ShiftEach(rankedDir, tail[i..], amount)
      {
        assert tail[i..][0] == tail[i] && tail[i..][1..] == tail[i + 1..];
        ShiftEachFirst(rankedDir, tail[i..], amount);
        var renamed := RankString.IncrementRankedFilename(tail[i], amount);
        if renamed.Err? {
          return Some(renamed.error);
        }
        rankedDir := rankedDir - {tail[i]} + {renamed.value};
        i := i + 1;
      }
      raised := None;
    }

    /** `insert(name)`: read the ranked folder; into an empty one the resume
        goes at rank 0 without a comparison; otherwise it becomes the resume
        being ranked, `find_rank` walks the listing and `insert_unranked_file`
        puts it at the rank found. An error from the walk leaves the folders
        as they were. */
    method Insert(toBeRanked: string, verdicts: seq<Option<bool>>) returns (raised: Option<Error>, used: nat)
      modifies this`rankedDir, this`unrankedDir, this`rankedFilenames, this`numRankedResumes, this`toBeRankedFilename
      ensures (rankedDir, unrankedDir, raised, used) == InsertOutcome(old(rankedDir), old(unrankedDir), toBeRanked, verdicts)
      ensures rankedFilenames == SortedOf(old(rankedDir)) && Listed()
      ensures toBeRankedFilename == if old(rankedDir) == {} then old(toBeRankedFilename) else toBeRanked
    {
      ReadRankedFolder();
      if numRankedResumes == 0 {
        var newFilename := RankString.AddRankString(toBeRanked, 0);
        unrankedDir := unrankedDir - {toBeRanked};
        rankedDir := rankedDir + {newFilename};
        return None, 0;
      }
      toBeRankedFilename := toBeRanked;
      var rank;
      rank, used := FindRank(verdicts);
      if rank.Err? {
        return Some(rank.error), used;
      }
      raised := InsertUnrankedFile(rank.value);
    }
  }

  /** The second loop of `unrank_files` renames the names of the listing
      just read. */
  lemma CloseGapOfListing(ranked: set<string>, names: seq<string>, low: int, high: int)
    requires names == SortedOf(ranked)
    ensures CloseGap(ranked, low, high) == ShiftEach(ranked, PySliceFrom(names, low), -(high - low))
  {
  }

  /** The loop of `unrank_files` takes one more name of the window. */
  lemma WindowGrows(names: seq<string>, low: int, i: int)
    requires 0 <= low <= i < |names|
    ensures Elems(names[low..i + 1]) == Elems(names[low..i]) + {names[i]}
    ensures Stripped(names[low..i + 1])
         == Stripped(names[low..i]) + {RankString.RmRankString(names[i])}
  {
    assert names[low..i + 1] == names[low..i] + [names[i]];
  }

  // ---------------------------------------------------------------------
  // insert and unrank_files on a contiguously ranked folder.
  // ---------------------------------------------------------------------

  /** A contiguously ranked folder has one file per base name. */
  lemma RankedFolderSize(bases: seq<string>)
    requires |bases| <= MaxRanked
    ensures |Elems(Ranked(bases))| == |bases|
    ensures SortedOf(Elems(Ranked(bases))) == Ranked(bases)
  {
    RankedListing(bases);
  }

  /** Inserting into an empty ranked folder names the resume `000-` plus its
      name and uses no verdict. */
  lemma InsertIntoEmptyFolder(unranked: set<string>, newcomer: string, verdicts: seq<Option<bool>>)
    ensures InsertOutcome({}, unranked, newcomer, verdicts) == ({"000-" + newcomer}, unranked - {newcomer}, None, 0)
  {
    RankString.FirstPrefixes();
    var added := RankString.AddRankString(newcomer, 0);
    assert added == "000-" + newcomer;
    assert InsertOutcome({}, unranked, newcomer, verdicts) == ({} + {added}, unranked - {newcomer}, None, 0);
    assert {} + {added} == {"000-" + newcomer};
  }

  /** Inserting into a contiguously ranked folder of 3 to 999 distinct names
      either runs out of verdicts and leaves both folders as they were, or
      lands on a rank inside the list and yields the contiguously ranked
      folder with the resume at that rank. */
  lemma InsertKeepsRanksContiguous(bases: seq<string>, unranked: set<string>, newcomer: string, verdicts: seq<Option<bool>>)
    requires 3 <= |bases| < MaxRanked && Distinct(bases)
    ensures var walk := RankWalk.FindRankWalk(|bases|, verdicts);
      && (walk.end.ScriptEnded? || (walk.end.Ranked? && 0 <= walk.end.rank < |bases|))
      && (walk.end.ScriptEnded? ==>
            InsertOutcome(Elems(Ranked(bases)), unranked, newcomer, verdicts)
            == (Elems(Ranked(bases)), unranked, Some(ScriptExhausted), |walk.probes|))
      && (walk.end.Ranked? ==>
            InsertOutcome(Elems(Ranked(bases)), unranked, newcomer, verdicts)
            == (Elems(Ranked(bases[..walk.end.rank] + [newcomer] + bases[walk.end.rank..])), unranked - {newcomer}, None, |walk.probes|))
  {
    var walk := RankWalk.FindRankWalk(|bases|, verdicts);
    RankedFolderSize(bases);
    RankWalk.FindRankBounds(|bases|, verdicts);
    assert Elems(Ranked(bases)) != {} by {
      assert Ranked(bases)[0] in Elems(Ranked(bases));
    }
    if walk.end.Ranked? {
      RankedList.InsertKeepsRanksContiguous(bases, unranked, newcomer, walk.end.rank);
    }
  }

  /** `unrank_files` leaves an empty ranked folder alone. */
  lemma UnrankEmptyFolder(unranked: set<string>, low: Option<int>, high: Option<int>)
    ensures UnrankOutcome({}, unranked, low, high) == ({}, unranked, None, [])
  {
    assert |SortedOf({})| == 0;
  }

  /** A bound out of range raises ValueError before anything moves: the low
      bound is checked first and must lie in [0, n - 1], the high bound in
      [1, n]. */
  lemma UnrankBadBounds(bases: seq<string>, unranked: set<string>, low: Option<int>, high: Option<int>)
    requires 0 < |bases| <= MaxRanked
    ensures var n := |bases|;
      var out := UnrankOutcome(Elems(Ranked(bases)), unranked, low, high);
      var idxLow := if low.None? then 0 else low.value;
      var idxHigh := if high.None? then n else high.value;
      && (!(0 <= idxLow < n) ==>
            out == (Elems(Ranked(bases)), unranked, Some(ValueError("bad low index")), Ranked(bases)))
      && (0 <= idxLow < n && !(1 <= idxHigh <= n) ==>
            out == (Elems(Ranked(bases)), unranked, Some(ValueError("bad high index")), Ranked(bases)))
  {
    RankedFolderSize(bases);
  }

  /** Unranking a proper window low < high of a contiguously ranked folder
      of distinct names leaves the remaining names contiguously ranked and
      puts the window's names, without prefix, in the unranked folder. */
  lemma UnrankWindowKeepsRanksContiguous(bases: seq<string>, unranked: set<string>, low: int, high: int)
    requires |bases| <= MaxRanked && Distinct(bases) && 0 <= low < high <= |bases|
    ensures var out := UnrankOutcome(Elems(Ranked(bases)), unranked, Some(low), Some(high));
      && out.0 == Elems(Ranked(bases[..low] + bases[high..]))
      && out.1 == unranked + Elems(bases[low..high])
      && out.2 == None
  {
    RankedFolderSize(bases);
    UnrankOutcomeInRange(Elems(Ranked(bases)), unranked, low, high);
    UnrankKeepsRanksContiguous(bases, unranked, low, high);
  }

  /** `unrank_files` with both bounds in range: the window leaves, then the
      gap is closed. */
  lemma {:induction false} UnrankOutcomeInRange(ranked: set<string>, unranked: set<string>, low: int, high: int)
    requires 0 <= low < |ranked| && 1 <= high <= |ranked|
    ensures var out := UnrankOutcome(ranked, unranked, Some(low), Some(high));
      var moved := UnrankWindow(ranked, unranked, SortedOf(ranked), low, high);
      && out.0 == CloseGap(moved.0, low, high).0
      && out.1 == moved.1
      && out.2 == CloseGap(moved.0, low, high).1
  {
  }

  /** `unrank_files()` with no bounds empties the ranked folder and puts
      every original name in the unranked folder. */
  lemma UnrankEverything(bases: seq<string>, unranked: set<string>)
    requires |bases| <= MaxRanked && Distinct(bases)
    ensures UnrankOutcome(Elems(Ranked(bases)), unranked, None, None).0 == {}
    ensures UnrankOutcome(Elems(Ranked(bases)), unranked, None, None).1 == unranked + Elems(bases)
  {
    var n := |bases|;
    RankedFolderSize(bases);
    if n == 0 {
      EmptyElems(Ranked(bases));
      EmptyElems(bases);
    } else {
      UnrankWindowKeepsRanksContiguous(bases, unranked, 0, n);
      assert UnrankOutcome(Elems(Ranked(bases)), unranked, None, None)
          == UnrankOutcome(Elems(Ranked(bases)), unranked, Some(0), Some(n));
      assert bases[..0] + bases[n..] == [] && bases[0..n] == bases;
      EmptyElems(Ranked([]));
    }
  }

  /** `unrank_files(low, high)` with high < low moves nothing out, yet moves
      every name from position low on UP by low - high ranks. */
  lemma UnrankReversedBoundsOpenGap(bases: seq<string>, unranked: set<string>, low: int, high: int)
    requires |bases| <= MaxRanked && Distinct(bases) && 1 <= high < low < |bases|
    requires |bases| + (low - high) <= MaxRanked
    ensures UnrankOutcome(Elems(Ranked(bases)), unranked, Some(low), Some(high))
         == (Elems(Ranked(bases)[..low]) + Elems(ShiftedFrom(bases, low, low - high)), unranked, None, Ranked(bases))
  {
    RankedFolderSize(bases);
    UnrankReversedWindowOpensGap(bases, unranked, low, high);
  }
}
