/** The `ResumeManager` of resume_manager.py: the bookkeeping between the
    `ranked` and `unranked` folders and `ratings.json`. The folders are sets
    of names and the JSON file is a map from a resume's plain name (its
    rank prefix removed) to its Glicko statistics; the file is read at the
    start of an operation and written back only when the operation ends
    without raising. */
module ResumeManager {
  import opened Wrappers
  import opened Listing
  import Text
  import opened MatchPlay
  import FilenameManager
  import StubRatingManager

  /** `RATING_DEFAULT`, `RD_DEFAULT` and `VOL_DEFAULT`. */
  const RatingDefault: int := 1500
  const DefaultStats: Stats := Stats(1500.0, 350.0, 0.06)

  /** The two folders and the contents of `ratings.json`. */
  datatype Store = Store(ranked: set<string>, unranked: set<string>, ratings: map<string, Stats>)

  // ---------------------------------------------------------------------
  // init_unranked
  // ---------------------------------------------------------------------

  /** The unranked files `init_unranked` takes in: those without an entry. */
  function Fresh(unranked: set<string>, ratings: map<string, Stats>): set<string>
  {
    set f | f in unranked && f !in ratings
  }

  /** The ranked names the taken files are moved to. */
  function Promoted(taken: set<string>): set<string>
  {
    set f | f in taken :: FilenameManager.AddRankString(f, RatingDefault)
  }

  /** `ratings_data` after `init_unranked`: every entry already there is
      kept as it was, and every other unranked file gets the default
      statistics. */
  function Initialised(ratings: map<string, Stats>, unranked: set<string>): (updated: map<string, Stats>)
    ensures updated.Keys == ratings.Keys + unranked
    ensures forall f :: f in ratings ==> updated[f] == ratings[f]
    ensures forall f :: f in Fresh(unranked, ratings) ==> updated[f] == DefaultStats
  {
    map f | f in ratings.Keys + unranked :: if f in ratings then ratings[f] else DefaultStats
  }

  /** The folders and `ratings.json` after `init_unranked`. */
  function InitOutcome(s: Store): Store
  {
    var taken := Fresh(s.unranked, s.ratings);
    Store(s.ranked + Promoted(taken), s.unranked - taken, Initialised(s.ratings, s.unranked))
  }

  // ---------------------------------------------------------------------
  // unrank_files
  // ---------------------------------------------------------------------

  /** Where the loop of `unrank_files` leaves the two folders, and either
      its local `ratings_data` or what it raised. */
  datatype Moves = Moves(ranked: set<string>, unranked: set<string>, data: Result<map<string, Stats>>)

  /** The loop of `unrank_files` from position `i` up to `high` of the
      listing `names`: each name has its prefix removed (IndexError for a
      name without a dash), moves to the unranked folder, and its plain name
      is popped from `ratings_data` (KeyError when it has no entry). */
  function UnrankFrom(ranked: set<string>, unranked: set<string>, data: map<string, Stats>,
                      names: seq<string>, i: nat, high: int): Moves
    requires i <= |names| && high <= |names|
    decreases high - i, 1
  {
    if i >= high then Moves(ranked, unranked, Ok(data)) else UnrankTurn(ranked, unranked, data, names, i, high)
  }

  /** One turn of that loop. */
  function UnrankTurn(ranked: set<string>, unranked: set<string>, data: map<string, Stats>,
                      names: seq<string>, i: nat, high: int): Moves
    requires i < high <= |names|
    decreases high - i, 0
  {
    match FilenameManager.RmRankString(names[i])
    case Err(e) => Moves(ranked, unranked, Err(e))
    case Ok(name) =>
      if name !in data then Moves(ranked - {names[i]}, unranked + {name}, Err(KeyError(name)))
      else UnrankFrom(ranked - {names[i]}, unranked + {name}, data - {name}, names, i + 1, high)
  }

  /** The plain names of the listed names at positions `i` .. `high - 1`. */
  function WindowKeys(names: seq<string>, i: int, high: int): set<string>
    requires 0 <= i && high <= |names|
  {
    set j | i <= j < high && FilenameManager.RmRankString(names[j]).Ok? :: FilenameManager.RmRankString(names[j]).value
  }

  /** The listed names at positions `i` .. `high - 1`. */
  function Window(names: seq<string>, i: int, high: int): set<string>
    requires 0 <= i && high <= |names|
  {
    set j | i <= j < high :: names[j]
  }

  /** What `unrank_files(idx_low, idx_high)` leaves in the folders and in
      `ratings.json`, and what it raises. The folder is listed first; an
      empty one returns at once. Absent bounds default to the whole list.
      Files moved before an error stay moved, but `ratings.json` is only
      written when the loop completes. */
  ghost function UnrankOutcome(s: Store, low: Option<int>, high: Option<int>): (Store, Option<Error>)
  {
    var names := SortedOf(s.ranked);
    var n := |names|;
    if n == 0 then (s, None)
    else
      var idxLow := if low.None? then 0 else low.value;
      var idxHigh := if high.None? then n else high.value;
      if !(0 <= idxLow < n) then (s, Some(ValueError("bad low index")))
      else if !(1 <= idxHigh <= n) then (s, Some(ValueError("bad high index")))
      else
        Settle(s, UnrankFrom(s.ranked, s.unranked, s.ratings, names, idxLow, idxHigh))
  }

  /** The end of `unrank_files` after its loop `m`: `ratings.json` is
      written only when the loop completed. */
  function Settle(s: Store, m: Moves): (Store, Option<Error>)
  {
    match m.data
    case Ok(data) => (Store(m.ranked, m.unranked, data), None)
    case Err(e) => (Store(m.ranked, m.unranked, s.ratings), Some(e))
  }

  /** One turn of the loop, as its caller sees it. */
  lemma UnrankStep(ranked: set<string>, unranked: set<string>, data: map<string, Stats>, names: seq<string>, i: nat, high: int)
    requires i < high <= |names|
    ensures var stripped := FilenameManager.RmRankString(names[i]);
      && (stripped.Err? ==> UnrankFrom(ranked, unranked, data, names, i, high) == Moves(ranked, unranked, Err(stripped.error)))
      && (stripped.Ok? && stripped.value !in data ==>
            UnrankFrom(ranked, unranked, data, names, i, high)
            == Moves(ranked - {names[i]}, unranked + {stripped.value}, Err(KeyError(stripped.value))))
      && (stripped.Ok? && stripped.value in data ==>
            UnrankFrom(ranked, unranked, data, names, i, high)
            == UnrankFrom(ranked - {names[i]}, unranked + {stripped.value}, data - {stripped.value}, names, i + 1, high))
  {
    assert UnrankFrom(ranked, unranked, data, names, i, high) == UnrankTurn(ranked, unranked, data, names, i, high);
  }

  /** A loop that completes has moved every name of the window, each under
      its plain name, and popped exactly the window's plain names, each of
      which had an entry; every other entry is untouched. */
  lemma {:induction false} UnrankFromShape(ranked: set<string>, unranked: set<string>, data: map<string, Stats>,
                                           names: seq<string>, i: nat, high: int)
    requires i <= |names| && high <= |names|
    requires UnrankFrom(ranked, unranked, data, names, i, high).data.Ok?
    ensures var m := UnrankFrom(ranked, unranked, data, names, i, high);
      && (forall j :: i <= j < high ==> FilenameManager.RmRankString(names[j]).Ok?)
      && WindowKeys(names, i, high) <= data.Keys
      && m.ranked == ranked - Window(names, i, high)
      && m.unranked == unranked + WindowKeys(names, i, high)
      && m.data.value == data - WindowKeys(names, i, high)
    decreases high - i
  {
    if i < high {
      UnrankStep(ranked, unranked, data, names, i, high);
      var name := FilenameManager.RmRankString(names[i]).value;
      UnrankFromShape(ranked - {names[i]}, unranked + {name}, data - {name}, names, i + 1, high);
      assert WindowKeys(names, i, high) == {name} + WindowKeys(names, i + 1, high);
      assert Window(names, i, high) == {names[i]} + Window(names, i + 1, high);
    } else {
      assert WindowKeys(names, i, high) == {};
      assert Window(names, i, high) == {};
    }
  }

  // ---------------------------------------------------------------------
  // Consistency of the folders with ratings.json.
  // ---------------------------------------------------------------------

  /** Every ranked file has a dash and an entry under its plain name. */
  predicate Tracked(ranked: set<string>, ratings: map<string, Stats>)
  {
    forall name :: name in ranked ==>
      FilenameManager.RmRankString(name).Ok? && FilenameManager.RmRankString(name).value in ratings
  }

  /** Every entry has a ranked file with that plain name. */
  predicate Covered(ranked: set<string>, ratings: map<string, Stats>)
  {
    forall key :: key in ratings ==> exists name :: name in ranked && FilenameManager.RmRankString(name) == Ok(key)
  }

  /** No two ranked files share a plain name. */
  predicate DistinctKeys(ranked: set<string>)
  {
    forall a, b :: a in ranked && b in ranked && FilenameManager.RmRankString(a).Ok? && FilenameManager.RmRankString(a) == FilenameManager.RmRankString(b) ==> a == b
  }

  /** `init_unranked` keeps the ranked folder and `ratings.json` in step:
      each file it takes in is ranked under its own plain name with an entry
      for it, and no entry or ranked file goes away. */
  lemma InitKeepsStep(s: Store)
    requires Tracked(s.ranked, s.ratings) && Covered(s.ranked, s.ratings)
    ensures Tracked(InitOutcome(s).ranked, InitOutcome(s).ratings)
    ensures Covered(InitOutcome(s).ranked, InitOutcome(s).ratings)
  {
    var out := InitOutcome(s);
    var taken := Fresh(s.unranked, s.ratings);
    forall name | name in out.ranked
      ensures FilenameManager.RmRankString(name).Ok? && FilenameManager.RmRankString(name).value in out.ratings
    {
      if name !in s.ranked {
        var f :| f in taken && name == FilenameManager.AddRankString(f, RatingDefault);
        FilenameManager.AddThenSplit(f, RatingDefault);
      }
    }
    forall key | key in out.ratings
      ensures exists name :: name in out.ranked && FilenameManager.RmRankString(name) == Ok(key)
    {
      if key !in s.ratings {
        var name := FilenameManager.AddRankString(key, RatingDefault);
        FilenameManager.AddThenSplit(key, RatingDefault);
        assert name in out.ranked;
      }
    }
  }

  /** Running `init_unranked` again right away changes nothing: every
      file still in the unranked folder already has an entry. */
  lemma InitIdempotent(s: Store)
    ensures InitOutcome(InitOutcome(s)) == InitOutcome(s)
  {
    var once := InitOutcome(s);
    assert Fresh(once.unranked, once.ratings) == {};
    assert Promoted({}) == {};
    assert Initialised(once.ratings, once.unranked) == once.ratings;
  }

  /** The names of the listing of a folder are the folder. */
  lemma ListingIsFolder(ranked: set<string>, j: int)
    requires 0 <= j < |SortedOf(ranked)|
    ensures SortedOf(ranked)[j] in ranked
  {
    assert SortedOf(ranked)[j] in Elems(SortedOf(ranked));
  }

  /** `unrank_files` keeps the folder and `ratings.json` in step: a run
      that raises nothing pops exactly the plain names of the files it moves
      out, so each remaining entry keeps its ranked file and, when plain
      names are not shared, each remaining ranked file keeps its entry. */
  lemma UnrankKeepsStep(s: Store, low: Option<int>, high: Option<int>)
    requires Tracked(s.ranked, s.ratings) && Covered(s.ranked, s.ratings) && DistinctKeys(s.ranked)
    requires UnrankOutcome(s, low, high).1.None?
    ensures Covered(UnrankOutcome(s, low, high).0.ranked, UnrankOutcome(s, low, high).0.ratings)
    ensures Tracked(UnrankOutcome(s, low, high).0.ranked, UnrankOutcome(s, low, high).0.ratings)
  {
    var names := SortedOf(s.ranked);
    var n := |names|;
    if n > 0 {
      var idxLow := if low.None? then 0 else low.value;
      var idxHigh := if high.None? then n else high.value;
      forall j | 0 <= j < n ensures names[j] in s.ranked {
        ListingIsFolder(s.ranked, j);
      }
      WindowKeepsCovered(s.ranked, s.unranked, s.ratings, names, idxLow, idxHigh);
      WindowKeepsTracked(s.ranked, s.unranked, s.ratings, names, idxLow, idxHigh);
    }
  }

  /** A completed loop of `unrank_files` leaves every remaining entry with
      a ranked file: the file of a popped entry's plain name would have to be
      one that moved out. */
  lemma WindowKeepsCovered(ranked: set<string>, unranked: set<string>, data: map<string, Stats>,
                           names: seq<string>, i: nat, high: int)
    requires i <= |names| && high <= |names|
    requires Covered(ranked, data) && UnrankFrom(ranked, unranked, data, names, i, high).data.Ok?
    ensures var m := UnrankFrom(ranked, unranked, data, names, i, high);
      Covered(m.ranked, m.data.value)
  {
    var m := UnrankFrom(ranked, unranked, data, names, i, high);
    UnrankFromShape(ranked, unranked, data, names, i, high);
    forall key | key in m.data.value
      ensures exists name :: name in m.ranked && FilenameManager.RmRankString(name) == Ok(key)
    {
      var name :| name in ranked && FilenameManager.RmRankString(name) == Ok(key);
      assert name in m.ranked;
    }
  }

  /** A completed loop of `unrank_files` over listed files leaves every
      remaining ranked file with its entry, when no two ranked files share a
      plain name. */
  lemma WindowKeepsTracked(ranked: set<string>, unranked: set<string>, data: map<string, Stats>,
                           names: seq<string>, i: nat, high: int)
    requires i <= |names| && high <= |names| && forall j :: 0 <= j < |names| ==> names[j] in ranked
    requires Tracked(ranked, data) && DistinctKeys(ranked) && UnrankFrom(ranked, unranked, data, names, i, high).data.Ok?
    ensures var m := UnrankFrom(ranked, unranked, data, names, i, high);
      Tracked(m.ranked, m.data.value)
  {
    var m := UnrankFrom(ranked, unranked, data, names, i, high);
    UnrankFromShape(ranked, unranked, data, names, i, high);
    forall name | name in m.ranked
      ensures FilenameManager.RmRankString(name).Ok? && FilenameManager.RmRankString(name).value in m.data.value
    {
      var key := FilenameManager.RmRankString(name).value;
      assert key !in WindowKeys(names, i, high);
    }
  }


  /** Unranking every file of a folder whose entries all have a ranked file
      empties both the ranked folder and `ratings.json`. */
  lemma UnrankAllEmpties(s: Store)
    requires Covered(s.ranked, s.ratings)
    requires UnrankOutcome(s, None, None).1.None?
    ensures UnrankOutcome(s, None, None).0.ranked == {}
    ensures UnrankOutcome(s, None, None).0.ratings == map[]
  {
    var names := SortedOf(s.ranked);
    var n := |names|;
    if n == 0 {
      assert s.ranked == {};
      assert forall key :: key !in s.ratings;
    } else {
      UnrankFromShape(s.ranked, s.unranked, s.ratings, names, 0, n);
      var out := UnrankOutcome(s, None, None).0;
      forall name | name in s.ranked ensures name in Window(names, 0, n) {
        assert name in Elems(names);
      }
      forall key | key in s.ratings ensures key in WindowKeys(names, 0, n) {
        var name :| name in s.ranked && FilenameManager.RmRankString(name) == Ok(key);
        assert name in Elems(names);
      }
    }
  }

  /** The initialisation in test_rating_manager.py: three unranked files and
      an empty `ratings.json` give three files ranked 1500 and three default
      entries. */
  lemma InitThreeFiles()
    ensures var out := InitOutcome(Store({}, {"a.png", "xxx.png", "zzz.png"}, map[]));
      && out.ranked == {"1500-a.png", "1500-xxx.png", "1500-zzz.png"}
      && out.unranked == {}
      && out.ratings == map["a.png" := DefaultStats, "xxx.png" := DefaultStats, "zzz.png" := DefaultStats]
  {
    var s := Store({}, {"a.png", "xxx.png", "zzz.png"}, map[]);
    FilenameManager.RankString1500();
    assert Fresh(s.unranked, s.ratings) == s.unranked;
    assert FilenameManager.AddRankString("a.png", 1500) == "1500-a.png";
    assert FilenameManager.AddRankString("xxx.png", 1500) == "1500-xxx.png";
    assert FilenameManager.AddRankString("zzz.png", 1500) == "1500-zzz.png";
  }

  /** Reading that ranked folder sorted lists the files in the order of
      their plain names. */
  lemma ThreeListed()
    ensures SortedOf({"1500-a.png", "1500-xxx.png", "1500-zzz.png"}) == ["1500-a.png", "1500-xxx.png", "1500-zzz.png"]
  {
    var a, b, c := "1500-a.png", "1500-xxx.png", "1500-zzz.png";
    assert a == "1500-" + "a.png";
    assert b == "1500-" + "xxx.png";
    assert c == "1500-" + "zzz.png";
    SameStemOrder("a.png", "xxx.png");
    SameStemOrder("xxx.png", "zzz.png");
    SameStemOrder("a.png", "zzz.png");
    SortedThree(a, b, c);
    ElemsThree(a, b, c);
    SortedOfSorted({a, b, c});
    SortedUnique([a, b, c], SortedOf({a, b, c}));
  }

  lemma ElemsThree(a: string, b: string, c: string)
    ensures Elems([a, b, c]) == {a, b, c}
  {
    assert [a, b, c][0] == a && [a, b, c][1] == b && [a, b, c][2] == c;
  }

  lemma SortedThree(a: string, b: string, c: string)
    requires Text.LexLess(a, b) && Text.LexLess(b, c) && Text.LexLess(a, c)
    ensures StrictlySorted([a, b, c])
  {
  }

  /** Two names ranked 1500 sort as the plain names do. */
  lemma SameStemOrder(a: string, b: string)
    requires |a| > 0 && |b| > 0 && a[0] < b[0]
    ensures Text.LexLess("1500-" + a, "1500-" + b)
  {
    assert Text.LexLess(a, b);
    Text.LexLessCommonPrefix("1500-", a, b);
  }

  // ---------------------------------------------------------------------
  // The manager.
  // ---------------------------------------------------------------------

  class ResumeManager {
    /** The `ranked` and `unranked` folders and `ratings.json`. */
    var rankedDir: set<string>
    var unrankedDir: set<string>
    var ratingsJson: map<string, Stats>
    /** The listing and its length as last read by `_read_ranked_folder`. */
    var rankedFilenames: seq<string>
    var numRankedResumes: int
    const ratingsMgr: StubRatingManager.RatingManager

    /** The length and the listing were read together. */
    predicate Listed()
      reads this
    {
      numRankedResumes == |rankedFilenames|
    }

    /** `__init__`: the ranked folder is read, and the rating manager is
        built over its listing. */
    constructor(ranked: set<string>, unranked: set<string>, ratings: map<string, Stats>)
      ensures rankedDir == ranked && unrankedDir == unranked && ratingsJson == ratings
      ensures rankedFilenames == SortedOf(ranked) && numRankedResumes == |ranked| && Listed()
      ensures fresh(ratingsMgr) && ratingsMgr.rankedResumes == rankedFilenames
    {
      rankedDir := ranked;
      unrankedDir := unranked;
      ratingsJson := ratings;
      var listing := SortedListing(ranked);
      rankedFilenames := listing;
      numRankedResumes := |ranked|;
      ratingsMgr := new StubRatingManager.RatingManager(listing);
    }

    /** `_read_ranked_folder`: the count of files and the sorted listing. */
    method ReadRankedFolder()
      modifies this`rankedFilenames, this`numRankedResumes
      ensures rankedFilenames == SortedOf(rankedDir) && numRankedResumes == |rankedDir|
      ensures Listed()
    {
      numRankedResumes := |rankedDir|;
      rankedFilenames := SortedListing(rankedDir);
    }

    /** `init_unranked`: each unranked file without an entry gets the
        default entry and moves to the ranked folder with prefix 1500; the
        others are skipped. The listing order of the unranked folder does
        not change the outcome. */
    method InitUnranked()
      modifies this`rankedDir, this`unrankedDir, this`ratingsJson
      ensures Store(rankedDir, unrankedDir, ratingsJson) == InitOutcome(old(Store(rankedDir, unrankedDir, ratingsJson)))
    {
      ghost var s := Store(rankedDir, unrankedDir, ratingsJson);
      var ratingsData := ratingsJson;
      var pending := unrankedDir;
      ghost var done: set<string> := {};
      while pending != {}
        invariant pending + done == s.unranked && pending !! done
        invariant ratingsData == Initialised(s.ratings, done)
        invariant unrankedDir == s.unranked - Fresh(done, s.ratings)
        invariant rankedDir == s.ranked + Promoted(Fresh(done, s.ratings))
        decreases pending
      {
        var filename :| filename in pending;
        pending := pending - {filename};
        if filename in ratingsData {
          assert Fresh(done + {filename}, s.ratings) == Fresh(done, s.ratings);
          assert Initialised(s.ratings, done + {filename}) == ratingsData;
          done := done + {filename};
          continue;
        }
        assert Fresh(done + {filename}, s.ratings) == Fresh(done, s.ratings) + {filename};
        assert Initialised(s.ratings, done + {filename}) == ratingsData[filename := DefaultStats];
        ratingsData := ratingsData[filename := DefaultStats];
        var newFilename := FilenameManager.AddRankString(filename, RatingDefault);
        unrankedDir := unrankedDir - {filename};
        rankedDir := rankedDir + {newFilename};
        done := done + {filename};
      }
      ratingsJson := ratingsData;
    }

    /** `unrank_files(idx_low, idx_high)`: after re-reading the ranked
        folder, the listed files at positions low .. high - 1 move back to
        the unranked folder without their prefix and their entries are
        popped from `ratings.json`. */
    method UnrankFiles(low: Option<int>, high: Option<int>) returns (raised: Option<Error>)
      modifies this`rankedDir, this`unrankedDir, this`ratingsJson, this`rankedFilenames, this`numRankedResumes
      ensures Store(rankedDir, unrankedDir, ratingsJson) == UnrankOutcome(old(Store(rankedDir, unrankedDir, ratingsJson)), low, high).0
      ensures raised == UnrankOutcome(old(Store(rankedDir, unrankedDir, ratingsJson)), low, high).1
      ensures rankedFilenames == SortedOf(old(rankedDir)) && Listed()
    {
      ReadRankedFolder();
      if numRankedResumes == 0 {
        return None;
      }
      var idxLow := if low.None? then 0 else low.value;
      var idxHigh := if high.None? then numRankedResumes else high.value;
      if !(0 <= idxLow < numRankedResumes) {
        return Some(ValueError("bad low index"));
      }
      if !(1 <= idxHigh <= numRankedResumes) {
        return Some(ValueError("bad high index"));
      }
      raised := UnrankRange(idxLow, idxHigh);
    }

    /** The loop of `unrank_files` over the positions `idxLow` .. `idxHigh - 1`
        of the listing, then the write of `ratings.json`. */
    method UnrankRange(idxLow: int, idxHigh: int) returns (raised: Option<Error>)
      requires 0 <= idxLow <= |rankedFilenames| && idxHigh <= |rankedFilenames|
      modifies this`rankedDir, this`unrankedDir, this`ratingsJson
      ensures var m := UnrankFrom(old(rankedDir), old(unrankedDir), old(ratingsJson), rankedFilenames, idxLow, idxHigh);
        && Store(rankedDir, unrankedDir, ratingsJson) == Settle(old(Store(rankedDir, unrankedDir, ratingsJson)), m).0
        && raised == Settle(old(Store(rankedDir, unrankedDir, ratingsJson)), m).1
    {
      var ratingsData := ratingsJson;
      ghost var total := UnrankFrom(rankedDir, unrankedDir, ratingsData, rankedFilenames, idxLow, idxHigh);
      var i := idxLow;
      while i < idxHigh
        invariant ratingsJson == old(ratingsJson)
        invariant idxLow <= i <= |rankedFilenames|
        invariant UnrankFrom(rankedDir, unrankedDir, ratingsData, rankedFilenames, i, idxHigh) == total
        decreases idxHigh - i
      {
        UnrankStep(rankedDir, unrankedDir, ratingsData, rankedFilenames, i, idxHigh);
        var filename := rankedFilenames[i];
        var newFilename := FilenameManager.RmRankString(filename);
        if newFilename.Err? {
          return Some(newFilename.error);
        }
        rankedDir := rankedDir - {filename};
        unrankedDir := unrankedDir + {newFilename.value};
        if newFilename.value !in ratingsData {
          return Some(KeyError(newFilename.value));
        }
        ratingsData := ratingsData - {newFilename.value};
        i := i + 1;
      }
      ratingsJson := ratingsData;
      raised := None;
    }
  }
}
