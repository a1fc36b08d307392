/** The `RatingManager` of resume_ratings_manager.py: the tournament draft
    whose comparison is a stand-in that prefers the name that sorts first.
    Matches are scheduled by `MatchSchedule.GenerateMatches`, played on the
    names without their rank prefix, aggregated by `MatchPlay.Tally`, and
    every entry of `ratings_data` is then given its Glicko update. */
module StubRatingManager {
  import opened Wrappers
  import opened Text
  import opened Listing
  import opened MatchSchedule
  import opened MatchPlay
  import FilenameManager

  /** `_compare_resumes`: 1 when the first name sorts before the second,
      otherwise 2. */
  function CompareResumes(resume1: string, resume2: string): int
  {
    if LexLess(resume1, resume2) then 1 else 2
  }

  /** The stand-in comparison names each of two different resumes as the
      winner from exactly one side: swapping the arguments swaps the answer. */
  lemma CompareResumesSwapped(resume1: string, resume2: string)
    requires resume1 != resume2
    ensures CompareResumes(resume1, resume2) in {1, 2}
    ensures CompareResumes(resume1, resume2) == 1 <==> CompareResumes(resume2, resume1) == 2
  {
    LexLessTotal(resume1, resume2);
    if LexLess(resume1, resume2) {
      LexLessAsymmetric(resume1, resume2);
    }
  }

  /** One match `[a, b]` of `_play_matches`: both names lose their rank
      prefix (IndexError for a name without a dash), then the stripped names
      are compared. */
  function StubBout(names: seq<string>, m: Match): Result<Bout>
    requires ValidMatch(|names|, m)
  {
    match FilenameManager.RmRankString(names[m.0])
    case Err(e) => Err(e)
    case Ok(resume1) =>
      match FilenameManager.RmRankString(names[m.1])
      case Err(e) => Err(e)
      case Ok(resume2) => Ok(Bout(resume1, resume2, CompareResumes(resume1, resume2)))
  }

  function StubBouts(names: seq<string>, matches: seq<Match>): (bouts: seq<Result<Bout>>)
    requires forall k :: 0 <= k < |matches| ==> ValidMatch(|names|, matches[k])
    ensures |bouts| == |matches|
    ensures forall k :: 0 <= k < |matches| ==> bouts[k] == StubBout(names, matches[k])
  {
    seq(|matches|, k requires 0 <= k < |matches| => StubBout(names, matches[k]))
  }

  /** `order` lists the keys of `ratings` once each: the iteration order of
      the dict. */
  predicate Enumerates(order: seq<string>, ratings: map<string, Stats>)
  {
    && (forall k :: 0 <= k < |order| ==> order[k] in ratings)
    && (forall j, k :: 0 <= j < k < |order| ==> order[j] != order[k])
    && (forall key :: key in ratings ==> key in order)
  }

  /** The position of the first key in `order` without match results, or
      `|order|` when every key has some. */
  function FirstUnplayed(order: seq<string>, results: map<string, Record>): (i: nat)
    ensures i <= |order|
    ensures forall k :: 0 <= k < i ==> order[k] in results
    ensures i < |order| ==> order[i] !in results
    decreases |order|
  {
    if |order| == 0 then 0
    else if order[0] !in results then 0
    else 1 + FirstUnplayed(order[1..], results)
  }

  /** What `_update_ratings` raises: the entries are updated in dict order
      until one has no match results, which raises KeyError. */
  function UpdateError(results: map<string, Record>, order: seq<string>): Option<Error>
  {
    var i := FirstUnplayed(order, results);
    if i < |order| then Some(KeyError(order[i])) else None
  }

  /** What `_update_ratings` leaves in `ratings_data`: the entries before
      the first one without match results have their Glicko update. */
  function UpdatedData(ratings: map<string, Stats>, results: map<string, Record>, order: seq<string>, glicko: Glicko): map<string, Stats>
  {
    Refreshed(ratings, results, Elems(order[..FirstUnplayed(order, results)]), glicko)
  }

  /** `_update_ratings` raises exactly when some entry of `ratings_data` has
      no match results, and otherwise gives every entry its Glicko update. */
  lemma UpdateOutcomeIff(ratings: map<string, Stats>, results: map<string, Record>, order: seq<string>, glicko: Glicko)
    requires Enumerates(order, ratings)
    ensures UpdateError(results, order).None? <==> ratings.Keys <= results.Keys
    ensures UpdateError(results, order).Some? ==>
      exists key :: key in ratings && key !in results && UpdateError(results, order) == Some(KeyError(key))
    ensures ratings.Keys <= results.Keys ==>
      UpdatedData(ratings, results, order, glicko) == map k | k in ratings :: glicko(ratings[k], results[k])
  {
    var i := FirstUnplayed(order, results);
    if ratings.Keys <= results.Keys {
      assert order[..i] == order;
      forall k | k in ratings ensures k in Elems(order[..i]) {
        var j :| 0 <= j < |order| && order[j] == k;
        assert order[..i][j] == k;
      }
    } else {
      var key :| key in ratings && key !in results;
      var j :| 0 <= j < |order| && order[j] == key;
      assert i < |order|;
    }
  }

  /** The result of `update_ratings` for a given schedule: the matches are
      played, then `_update_ratings` runs; the first error either raises
      stops the pipeline. */
  function StubOutcome(names: seq<string>, matches: seq<Match>, ratings: map<string, Stats>, order: seq<string>, glicko: Glicko)
    : Result<map<string, Stats>>
    requires forall k :: 0 <= k < |matches| ==> ValidMatch(|names|, matches[k])
  {
    match Tally(map[], StubBouts(names, matches), ratings)
    case Err(e) => Err(e)
    case Ok(results) =>
      match UpdateError(results, order)
      case Some(e) => Err(e)
      case None => Ok(UpdatedData(ratings, results, order, glicko))
  }

  class RatingManager {
    var rankedResumes: seq<string>
    var numRankedRes: int

    predicate Valid()
      reads this
    {
      numRankedRes == |rankedResumes|
    }

    constructor(rankedResumes: seq<string>)
      ensures this.rankedResumes == rankedResumes && Valid()
    {
      this.rankedResumes := rankedResumes;
      numRankedRes := |rankedResumes|;
    }

    /** `_play_matches(matches, ratings_data)`: for each match, both names
        are stripped, compared, and both records extended. */
    method PlayMatches(matches: seq<Match>, ratingsData: map<string, Stats>) returns (r: Result<map<string, Record>>)
      requires Valid()
      requires forall k :: 0 <= k < |matches| ==> ValidMatch(numRankedRes, matches[k])
      ensures r == Tally(map[], StubBouts(rankedResumes, matches), ratingsData)
    {
      ghost var bouts := StubBouts(rankedResumes, matches);
      var matchResults: map<string, Record> := map[];
      var i := 0;
      while i < |matches|
        invariant 0 <= i <= |matches|
        invariant Tally(map[], bouts, ratingsData) == Tally(matchResults, bouts[i..], ratingsData)
      {
        TallyAt(matchResults, bouts, i, ratingsData);
        ghost var before := matchResults;
        var (a, b) := matches[i];
        var stripped1 := FilenameManager.RmRankString(rankedResumes[a]);
        if stripped1.Err? {
          return Err(stripped1.error);
        }
        var stripped2 := FilenameManager.RmRankString(rankedResumes[b]);
        if stripped2.Err? {
          return Err(stripped2.error);
        }
        var resume1, resume2 := stripped1.value, stripped2.value;
        var winner := CompareResumes(resume1, resume2);
        if resume1 !in matchResults {
          matchResults := matchResults[resume1 := Record([], [], [])];
        }
        if resume2 !in matchResults {
          matchResults := matchResults[resume2 := Record([], [], [])];
        }
        if resume1 !in ratingsData {
          return Err(KeyError(resume1));
        }
        if resume2 !in ratingsData {
          return Err(KeyError(resume2));
        }
        var r1Stats, r2Stats := ratingsData[resume1], ratingsData[resume2];
        matchResults := matchResults[resume1 := Append(matchResults[resume1], r2Stats, if winner == 1 then 1 else 0)];
        matchResults := matchResults[resume2 := Append(matchResults[resume2], r1Stats, if winner == 2 then 1 else 0)];
        assert PlayBout(before, Bout(resume1, resume2, winner), ratingsData) == Ok(matchResults);
        i := i + 1;
      }
      r := Ok(matchResults);
    }

    /** `_update_ratings(match_results, ratings_data)`, with the dict order
        of `ratings_data` given as `order`: each entry in turn is replaced
        by its Glicko update, and the first entry without match results
        raises KeyError, leaving the earlier updates in place. */
    method UpdateFromResults(matchResults: map<string, Record>, ratingsData: map<string, Stats>, order: seq<string>, glicko: Glicko)
      returns (raised: Option<Error>, newData: map<string, Stats>)
      requires Enumerates(order, ratingsData)
      ensures raised == UpdateError(matchResults, order)
      ensures newData == UpdatedData(ratingsData, matchResults, order, glicko)
    {
      newData := ratingsData;
      ghost var done: set<string> := {};
      var i := 0;
      while i < |order|
        invariant 0 <= i <= |order|
        invariant forall k :: 0 <= k < i ==> order[k] in matchResults
        invariant done == Elems(order[..i])
        invariant newData == Refreshed(ratingsData, matchResults, done, glicko)
      {
        var resume := order[i];
        if resume !in matchResults {
          FirstUnplayedAt(order, matchResults, i);
          return Some(KeyError(resume)), newData;
        }
        ElemsSnoc(order, i);
        RefreshedStep(ratingsData, matchResults, done, resume, glicko);
        newData := newData[resume := glicko(ratingsData[resume], matchResults[resume])];
        done := done + {resume};
        i := i + 1;
      }
      FirstUnplayedAt(order, matchResults, |order|);
      raised := None;
    }

    /** `update_ratings(ratings_data, num_matches)`: schedule, play, update.
        `draws` is the stream `random.sample` draws from, `order` the dict
        order of `ratings_data` and `glicko` the Glicko-2 update. */
    method UpdateRatings(ratingsData: map<string, Stats>, numMatches: Option<int>, draws: seq<(int, int)>, order: seq<string>, glicko: Glicko)
      returns (r: Result<map<string, Stats>>, used: nat)
      requires Valid()
      requires forall k :: 0 <= k < |draws| ==> IsDraw(numRankedRes, draws[k])
      requires Enumerates(order, ratingsData)
      ensures used <= |draws|
      ensures var wanted := if numMatches.None? then MaxMatches(|rankedResumes|) else numMatches.value;
        && (wanted > MaxMatches(|rankedResumes|) ==> r == Err(ValueError("too many matches")))
        && (wanted == MaxMatches(|rankedResumes|) ==>
              && (forall k :: 0 <= k < |AllPairs(|rankedResumes|)| ==> ValidMatch(|rankedResumes|, AllPairs(|rankedResumes|)[k]))
              && r == StubOutcome(rankedResumes, AllPairs(|rankedResumes|), ratingsData, order, glicko))
        && (wanted < MaxMatches(|rankedResumes|) ==>
              || r == Err(ScriptExhausted)
              || (&& (forall k :: 0 <= k < |FirstSeen(draws[..used])| ==> ValidMatch(|rankedResumes|, FirstSeen(draws[..used])[k]))
                  && r == StubOutcome(rankedResumes, FirstSeen(draws[..used]), ratingsData, order, glicko)))
    {
      var matches;
      matches, used := GenerateMatches(numRankedRes, numMatches, draws, "too many matches");
      if matches.Err? {
        return Err(matches.error), used;
      }
      if numMatches.None? || numMatches.value == MaxMatches(numRankedRes) {
        AllPairsSchedule(numRankedRes);
      }
      var matchResults := PlayMatches(matches.value, ratingsData);
      if matchResults.Err? {
        return Err(matchResults.error), used;
      }
      var raised, newData := UpdateFromResults(matchResults.value, ratingsData, order, glicko);
      if raised.Some? {
        return Err(raised.value), used;
      }
      r := Ok(newData);
    }
  }

  /** `FirstUnplayed` is the index the update loop stops at. */
  lemma FirstUnplayedAt(order: seq<string>, results: map<string, Record>, i: nat)
    requires i <= |order| && forall k :: 0 <= k < i ==> order[k] in results
    requires i < |order| ==> order[i] !in results
    ensures FirstUnplayed(order, results) == i
  {
  }

  /** Taking one more element of a sequence adds it to the set of elements. */
  lemma ElemsSnoc(s: seq<string>, i: nat)
    requires i < |s|
    ensures Elems(s[..i + 1]) == Elems(s[..i]) + {s[i]}
  {
    assert s[..i + 1] == s[..i] + [s[i]];
  }

  // ---------------------------------------------------------------------
  // The exhaustive schedule.
  // ---------------------------------------------------------------------

  /** The stripped name of every ranked resume. */
  function Originals(names: seq<string>): set<string>
  {
    set k | 0 <= k < |names| && FilenameManager.RmRankString(names[k]).Ok? :: FilenameManager.RmRankString(names[k]).value
  }

  /** The stripped names of a ranked list all with a rank prefix: each
      position's, and only those. */
  lemma OriginalsAt(names: seq<string>, key: string)
    requires forall k :: 0 <= k < |names| ==> FilenameManager.RmRankString(names[k]).Ok?
    requires key in Originals(names)
    ensures exists i :: 0 <= i < |names| && FilenameManager.RmRankString(names[i]).value == key
  {
  }

  /** Every match of the exhaustive schedule plays two stripped names that
      have entries in `ratings_data`. */
  lemma AllPairsBoutsRated(names: seq<string>, ratings: map<string, Stats>)
    requires forall k :: 0 <= k < |names| ==> FilenameManager.RmRankString(names[k]).Ok?
    requires ratings.Keys == Originals(names)
    ensures forall k :: 0 <= k < |AllPairs(|names|)| ==> ValidMatch(|names|, AllPairs(|names|)[k])
    ensures forall k :: 0 <= k < |AllPairs(|names|)| ==>
      && StubBouts(names, AllPairs(|names|))[k].Ok?
      && StubBouts(names, AllPairs(|names|))[k].value.resume1 in ratings
      && StubBouts(names, AllPairs(|names|))[k].value.resume2 in ratings
  {
    var matches := AllPairs(|names|);
    AllPairsSchedule(|names|);
    assert forall k :: 0 <= k < |matches| ==> matches[k] in matches;
    forall k | 0 <= k < |matches|
      ensures StubBouts(names, matches)[k].Ok?
      ensures StubBouts(names, matches)[k].value.resume1 in ratings
      ensures StubBouts(names, matches)[k].value.resume2 in ratings
    {
      var m := matches[k];
      assert m in matches;
      assert FilenameManager.RmRankString(names[m.0]).value in Originals(names);
      assert FilenameManager.RmRankString(names[m.1]).value in Originals(names);
    }
  }

  /** With two or more ranked resumes, every stripped name is a side of
      some match of the exhaustive schedule. */
  lemma AllPairsNameEveryKey(names: seq<string>, key: string)
    requires |names| >= 2
    requires forall k :: 0 <= k < |names| ==> FilenameManager.RmRankString(names[k]).Ok?
    requires key in Originals(names)
    ensures forall k :: 0 <= k < |AllPairs(|names|)| ==> ValidMatch(|names|, AllPairs(|names|)[k])
    ensures key in Keys(StubBouts(names, AllPairs(|names|)))
  {
    var n := |names|;
    var matches := AllPairs(n);
    AllPairsSchedule(n);
    assert forall k :: 0 <= k < |matches| ==> matches[k] in matches;
    var bouts := StubBouts(names, matches);
    OriginalsAt(names, key);
    var i :| 0 <= i < n && FilenameManager.RmRankString(names[i]).value == key;
    EveryPlayerPlays(n, i);
    var m :| m in matches && (m.0 == i || m.1 == i);
    var j := IndexOfMatch(matches, m);
    StubBoutHasSide(names, m, i);
    KeysAt(bouts, j);
  }

  /** Where a scheduled match stands in the schedule. */
  lemma IndexOfMatch(matches: seq<Match>, m: Match) returns (j: nat)
    requires m in matches
    ensures j < |matches| && matches[j] == m
  {
    j :| 0 <= j < |matches| && matches[j] == m;
  }

  /** A match with player `i` on one side, between two names that strip,
      is a bout with `i`'s stripped name on that side. */
  lemma StubBoutHasSide(names: seq<string>, m: Match, i: int)
    requires ValidMatch(|names|, m) && (m.0 == i || m.1 == i)
    requires FilenameManager.RmRankString(names[m.0]).Ok? && FilenameManager.RmRankString(names[m.1]).Ok?
    ensures StubBout(names, m).Ok?
    ensures var b := StubBout(names, m).value;
      FilenameManager.RmRankString(names[i]).value == b.resume1 || FilenameManager.RmRankString(names[i]).value == b.resume2
  {
  }

  /** When the matches are all played and every entry of `ratings_data`
      has match results, `update_ratings` gives every entry its Glicko
      update from its own record. */
  lemma OutcomeWhenAllPlayed(names: seq<string>, matches: seq<Match>, ratings: map<string, Stats>, order: seq<string>, glicko: Glicko)
    requires forall k :: 0 <= k < |matches| ==> ValidMatch(|names|, matches[k])
    requires Enumerates(order, ratings)
    requires Tally(map[], StubBouts(names, matches), ratings).Ok?
    requires ratings.Keys <= Tally(map[], StubBouts(names, matches), ratings).value.Keys
    ensures StubOutcome(names, matches, ratings, order, glicko)
         == Ok(map k | k in ratings :: glicko(ratings[k], RecordOf(Tally(map[], StubBouts(names, matches), ratings).value, k)))
  {
    var results := Tally(map[], StubBouts(names, matches), ratings).value;
    UpdateOutcomeIff(ratings, results, order, glicko);
    StubOutcomeOk(names, matches, ratings, order, glicko, results);
    EveryRecordOf(ratings, results, glicko);
  }

  /** When every entry has match results, reading them with or without a
      default record gives the same update. */
  lemma EveryRecordOf(ratings: map<string, Stats>, results: map<string, Record>, glicko: Glicko)
    requires ratings.Keys <= results.Keys
    ensures (map k | k in ratings :: glicko(ratings[k], results[k]))
         == (map k | k in ratings :: glicko(ratings[k], RecordOf(results, k)))
  {
  }

  /** `update_ratings` succeeds with `_update_ratings`'s data when the
      matches are played and no entry raises. */
  lemma StubOutcomeOk(names: seq<string>, matches: seq<Match>, ratings: map<string, Stats>, order: seq<string>, glicko: Glicko,
                      results: map<string, Record>)
    requires forall k :: 0 <= k < |matches| ==> ValidMatch(|names|, matches[k])
    requires Tally(map[], StubBouts(names, matches), ratings) == Ok(results)
    requires UpdateError(results, order) == None
    ensures StubOutcome(names, matches, ratings, order, glicko) == Ok(UpdatedData(ratings, results, order, glicko))
  {
  }

  /** With two or more ranked resumes, all with a rank prefix, and
      `ratings_data` holding exactly their stripped names, the exhaustive
      schedule is played to the end and gives every entry match results. */
  lemma AllPairsPlayEveryEntry(names: seq<string>, ratings: map<string, Stats>)
    requires |names| >= 2
    requires forall k :: 0 <= k < |names| ==> FilenameManager.RmRankString(names[k]).Ok?
    requires ratings.Keys == Originals(names)
    ensures forall k :: 0 <= k < |AllPairs(|names|)| ==> ValidMatch(|names|, AllPairs(|names|)[k])
    ensures Tally(map[], StubBouts(names, AllPairs(|names|)), ratings).Ok?
    ensures ratings.Keys <= Tally(map[], StubBouts(names, AllPairs(|names|)), ratings).value.Keys
  {
    AllPairsBoutsRated(names, ratings);
    var bouts := StubBouts(names, AllPairs(|names|));
    TallySucceeds(map[], bouts, ratings);
    TallyShape(map[], bouts, ratings);
    forall key | key in ratings ensures key in Keys(bouts) {
      AllPairsNameEveryKey(names, key);
    }
  }

  /** Hence, with the exhaustive schedule, `update_ratings` raises no
      KeyError and every entry gets its Glicko update from its own record. */
  lemma AllPairsUpdateEveryEntry(names: seq<string>, ratings: map<string, Stats>, order: seq<string>, glicko: Glicko)
    requires |names| >= 2
    requires forall k :: 0 <= k < |names| ==> FilenameManager.RmRankString(names[k]).Ok?
    requires ratings.Keys == Originals(names)
    requires Enumerates(order, ratings)
    ensures forall k :: 0 <= k < |AllPairs(|names|)| ==> ValidMatch(|names|, AllPairs(|names|)[k])
    ensures Tally(map[], StubBouts(names, AllPairs(|names|)), ratings).Ok?
    ensures StubOutcome(names, AllPairs(|names|), ratings, order, glicko)
         == Ok(map k | k in ratings :: glicko(ratings[k], RecordOf(Tally(map[], StubBouts(names, AllPairs(|names|)), ratings).value, k)))
  {
    AllPairsPlayEveryEntry(names, ratings);
    OutcomeWhenAllPlayed(names, AllPairs(|names|), ratings, order, glicko);
  }

  /** The three matches of the end-to-end check of test_rating_manager.py:
      `a.png` beats `xxx.png` and `zzz.png`, and `xxx.png` beats `zzz.png`. */
  lemma ThreeResumesBouts()
    ensures StubBouts(["1500-a.png", "1500-xxx.png", "1500-zzz.png"], AllPairs(3))
         == [Ok(Bout("a.png", "xxx.png", 1)), Ok(Bout("a.png", "zzz.png", 1)), Ok(Bout("xxx.png", "zzz.png", 1))]
  {
    var names := ["1500-a.png", "1500-xxx.png", "1500-zzz.png"];
    ThreeNamesStripped();
    ThreeNamesOrdered();
    StubBoutsOfThree(names, Ok(Bout("a.png", "xxx.png", 1)), Ok(Bout("a.png", "zzz.png", 1)), Ok(Bout("xxx.png", "zzz.png", 1)));
  }

  /** The exhaustive schedule of three resumes plays the matches `[0, 1]`,
      `[0, 2]` and `[1, 2]`, in that order. */
  lemma StubBoutsOfThree(names: seq<string>, b0: Result<Bout>, b1: Result<Bout>, b2: Result<Bout>)
    requires |names| == 3
    requires StubBout(names, (0, 1)) == b0 && StubBout(names, (0, 2)) == b1 && StubBout(names, (1, 2)) == b2
    ensures forall k :: 0 <= k < |AllPairs(3)| ==> ValidMatch(3, AllPairs(3)[k])
    ensures StubBouts(names, AllPairs(3)) == [b0, b1, b2]
  {
    AllPairsOfThree();
  }

  /** The stripped names of that check sort as `a.png`, `xxx.png`, `zzz.png`. */
  lemma ThreeNamesOrdered()
    ensures LexLess("a.png", "xxx.png") && LexLess("a.png", "zzz.png") && LexLess("xxx.png", "zzz.png")
  {
    assert "a.png"[0] < "xxx.png"[0] < "zzz.png"[0];
  }

  /** The three names of that check lose their `1500-` prefix. */
  lemma ThreeNamesStripped()
    ensures FilenameManager.RmRankString("1500-a.png") == Ok("a.png")
    ensures FilenameManager.RmRankString("1500-xxx.png") == Ok("xxx.png")
    ensures FilenameManager.RmRankString("1500-zzz.png") == Ok("zzz.png")
  {
    FilenameManager.RankString1500();
    FilenameManager.AddThenSplit("a.png", 1500);
    FilenameManager.AddThenSplit("xxx.png", 1500);
    FilenameManager.AddThenSplit("zzz.png", 1500);
    assert FilenameManager.AddRankString("a.png", 1500) == "1500-a.png";
    assert FilenameManager.AddRankString("xxx.png", 1500) == "1500-xxx.png";
    assert FilenameManager.AddRankString("zzz.png", 1500) == "1500-zzz.png";
  }

  /** The tally of those three matches, with every resume at the entry `d`. */
  lemma ThreeBoutsTally(d: Stats)
    ensures Tally(map[], [Ok(Bout("a.png", "xxx.png", 1)), Ok(Bout("a.png", "zzz.png", 1)), Ok(Bout("xxx.png", "zzz.png", 1))],
                  map["a.png" := d, "xxx.png" := d, "zzz.png" := d])
         == Ok(map["a.png" := Record([d.rating, d.rating], [d.rd, d.rd], [1, 1]),
                   "xxx.png" := Record([d.rating, d.rating], [d.rd, d.rd], [0, 1]),
                   "zzz.png" := Record([d.rating, d.rating], [d.rd, d.rd], [0, 0])])
  {
    var a, x, z := "a.png", "xxx.png", "zzz.png";
    assert a != x && a != z && x[0] != z[0];
    var ratings := map[a := d, x := d, z := d];
    var bouts := [Ok(Bout(a, x, 1)), Ok(Bout(a, z, 1)), Ok(Bout(x, z, 1))];
    var e := Record([], [], []);
    var m1 := map[][a := Append(e, d, 1)][x := Append(e, d, 0)];
    PlayBoutDistinct(map[], bouts[0].value, ratings);
    var m2 := m1[a := Append(m1[a], d, 1)][z := Append(e, d, 0)];
    PlayBoutDistinct(m1, bouts[1].value, ratings);
    var m3 := m2[x := Append(m2[x], d, 1)][z := Append(m2[z], d, 0)];
    PlayBoutDistinct(m2, bouts[2].value, ratings);
    assert bouts[1..][1..] == bouts[2..] && bouts[2..][1..] == [];
    assert Tally(m2, bouts[2..], ratings) == Ok(m3);
    assert Tally(m1, bouts[1..], ratings) == Ok(m3);
    assert Append(Append(e, d, 1), d, 1) == Record([d.rating, d.rating], [d.rd, d.rd], [1, 1]);
    assert Append(Append(e, d, 0), d, 1) == Record([d.rating, d.rating], [d.rd, d.rd], [0, 1]);
    assert Append(Append(e, d, 0), d, 0) == Record([d.rating, d.rating], [d.rd, d.rd], [0, 0]);
    assert m3.Keys == {a, x, z};
    assert m3 == map[a := Record([d.rating, d.rating], [d.rd, d.rd], [1, 1]),
                     x := Record([d.rating, d.rating], [d.rd, d.rd], [0, 1]),
                     z := Record([d.rating, d.rating], [d.rd, d.rd], [0, 0])];
  }

  /** The end-to-end check of test_rating_manager.py on `a.png`, `xxx.png`
      and `zzz.png`, all at the same entry `d`: with every pair played,
      `a.png` wins both its matches, `xxx.png` one and `zzz.png` none, and
      every opponent is seen at `d`'s rating and deviation. */
  lemma ThreeResumesTally(d: Stats)
    ensures Tally(map[], StubBouts(["1500-a.png", "1500-xxx.png", "1500-zzz.png"], AllPairs(3)),
                  map["a.png" := d, "xxx.png" := d, "zzz.png" := d])
         == Ok(map["a.png" := Record([d.rating, d.rating], [d.rd, d.rd], [1, 1]),
                   "xxx.png" := Record([d.rating, d.rating], [d.rd, d.rd], [0, 1]),
                   "zzz.png" := Record([d.rating, d.rating], [d.rd, d.rd], [0, 0])])
  {
    ThreeResumesBouts();
    ThreeBoutsTally(d);
  }
}
