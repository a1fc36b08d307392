/** The `RatingManager` of resume_rating_manager.py: the tournament draft
    whose comparisons go to the LLM comparer. Each match compares the two
    full ranked names (rank prefix included), logs the comparer's answer in
    `comparisons`, and only then strips the prefixes to find the keys the
    match is recorded under. `_update_ratings` gives the Glicko update to
    the entries that played and leaves every other entry as it was.
    The coins and the model's answers of a run are a script `answers`, one
    item per comparison in order; a run that needs more answers than the
    script holds stops with ScriptExhausted before the match is compared. */
module LlmRatingManager {
  import opened Wrappers
  import opened Text
  import opened MatchSchedule
  import opened MatchPlay
  import opened ResumeComparer
  import FilenameManager
  import opened StepLoop

  /** `llm.compare_resumes(resume1, resume2)` with the coin and answer
      `answer`: fresh slots for the two names, then one call. */
  function LlmCompare(resume1: string, resume2: string, answer: (bool, string)): Result<Comparison>
  {
    match Constructed(resume1, resume2)
    case Err(e) => Err(e)
    case Ok(resumes) => Ok(Compared(resumes, true, answer.0, answer.1))
  }

  /** The comparison of match `[a, b]`, on the full ranked names. */
  function MatchCompare(names: seq<string>, m: Match, answer: (bool, string)): Result<Comparison>
    requires ValidMatch(|names|, m)
  {
    LlmCompare(names[m.0], names[m.1], answer)
  }

  /** `_compare_resumes`' reading of an answer: 1 when the `resume1` label
      is the winner, otherwise 2. */
  function Verdict(c: Comparison): int
  {
    if c.winner == Some(c.resume1) then 1 else 2
  }

  /** The bout a match of two ranked names with a verdict records: both
      names lose their rank prefix (IndexError for a name without a dash). */
  function NamedBout(resume1: string, resume2: string, winner: int): Result<Bout>
  {
    match FilenameManager.RmRankString(resume1)
    case Err(e) => Err(e)
    case Ok(name1) =>
      match FilenameManager.RmRankString(resume2)
      case Err(e) => Err(e)
      case Ok(name2) => Ok(Bout(name1, name2, winner))
  }

  /** The bout of the compared match `[a, b]`. */
  function StrippedBout(names: seq<string>, m: Match, c: Comparison): Result<Bout>
    requires ValidMatch(|names|, m)
  {
    NamedBout(names[m.0], names[m.1], Verdict(c))
  }

  /** The body of `_play_matches` once the winner is known: the records of
      both stripped names are created if new, both `ratings_data` entries
      read, and both records extended. */
  method RecordMatch(matchResults: map<string, Record>, resume1: string, resume2: string, winner: int, ratingsData: map<string, Stats>)
    returns (r: Result<map<string, Record>>)
    ensures NamedBout(resume1, resume2, winner).Err? ==> r == Err(NamedBout(resume1, resume2, winner).error)
    ensures NamedBout(resume1, resume2, winner).Ok? ==> r == PlayBout(matchResults, NamedBout(resume1, resume2, winner).value, ratingsData)
  {
    var stripped1 := FilenameManager.RmRankString(resume1);
    if stripped1.Err? {
      return Err(stripped1.error);
    }
    var stripped2 := FilenameManager.RmRankString(resume2);
    if stripped2.Err? {
      return Err(stripped2.error);
    }
    var name1, name2 := stripped1.value, stripped2.value;
    var results := matchResults;
    if name1 !in results {
      results := results[name1 := Record([], [], [])];
    }
    if name2 !in results {
      results := results[name2 := Record([], [], [])];
    }
    if name1 !in ratingsData {
      return Err(KeyError(name1));
    }
    if name2 !in ratingsData {
      return Err(KeyError(name2));
    }
    var r1Stats, r2Stats := ratingsData[name1], ratingsData[name2];
    results := results[name1 := Append(results[name1], r2Stats, if winner == 1 then 1 else 0)];
    results := results[name2 := Append(results[name2], r1Stats, if winner == 2 then 1 else 0)];
    r := Ok(results);
  }

  /** The bout the `k`-th match of `_play_matches` contributes. */
  function LlmBout(names: seq<string>, m: Match, answers: seq<(bool, string)>, k: nat): Result<Bout>
    requires ValidMatch(|names|, m)
  {
    if k >= |answers| then Err(ScriptExhausted)
    else
      match MatchCompare(names, m, answers[k])
      case Err(e) => Err(e)
      case Ok(c) => StrippedBout(names, m, c)
  }

  function LlmBouts(names: seq<string>, matches: seq<Match>, answers: seq<(bool, string)>): (bouts: seq<Result<Bout>>)
    requires forall k :: 0 <= k < |matches| ==> ValidMatch(|names|, matches[k])
    ensures |bouts| == |matches|
    ensures forall k :: 0 <= k < |matches| ==> bouts[k] == LlmBout(names, matches[k], answers, k)
  {
    seq(|matches|, k requires 0 <= k < |matches| => LlmBout(names, matches[k], answers, k))
  }

  /** The body of the loop of `_play_matches` for its `k`-th match `m`,
      on the records so far: what it leaves or raises. */
  function MatchStep(names: seq<string>, m: Match, answers: seq<(bool, string)>, k: nat,
                     results: map<string, Record>, ratings: map<string, Stats>): Result<map<string, Record>>
    requires ValidMatch(|names|, m)
  {
    match LlmBout(names, m, answers, k)
    case Err(e) => Err(e)
    case Ok(bout) => PlayBout(results, bout, ratings)
  }

  /** What that body appends to `self.comparisons`: the comparison, when
      the comparer returned one, even if the match raises after it. */
  function MatchLog(names: seq<string>, m: Match, answers: seq<(bool, string)>, k: nat): seq<Comparison>
    requires ValidMatch(|names|, m)
  {
    if k < |answers| && MatchCompare(names, m, answers[k]).Ok? then [MatchCompare(names, m, answers[k]).value] else []
  }

  /** The body of the loop of `_play_matches` as a step of a `StepLoop`:
      step `k` plays match `k`. */
  function LlmStep(names: seq<string>, matches: seq<Match>, answers: seq<(bool, string)>, ratings: map<string, Stats>)
    : (nat, map<string, Record>) -> Result<map<string, Record>>
    requires forall k :: 0 <= k < |matches| ==> ValidMatch(|names|, matches[k])
  {
    (k: nat, results: map<string, Record>) =>
      if k < |matches| then MatchStep(names, matches[k], answers, k, results, ratings) else Ok(results)
  }

  /** What step `k` of that loop logs. */
  function LlmLogOf(names: seq<string>, matches: seq<Match>, answers: seq<(bool, string)>): nat -> seq<Comparison>
    requires forall k :: 0 <= k < |matches| ==> ValidMatch(|names|, matches[k])
  {
    (k: nat) => if k < |matches| then MatchLog(names, matches[k], answers, k) else []
  }

  /** The loop of `_play_matches` from match `i` on, with the records so
      far in `results`: what it returns or raises. */
  function LlmPlay(names: seq<string>, matches: seq<Match>, answers: seq<(bool, string)>, ratings: map<string, Stats>,
                   results: map<string, Record>, i: nat): Result<map<string, Record>>
    requires i <= |matches| && forall k :: 0 <= k < |matches| ==> ValidMatch(|names|, matches[k])
  {
    RunFrom(LlmStep(names, matches, answers, ratings), |matches|, results, i)
  }

  /** The comparisons that loop appends to `self.comparisons`. */
  function LlmLog(names: seq<string>, matches: seq<Match>, answers: seq<(bool, string)>, ratings: map<string, Stats>,
                  results: map<string, Record>, i: nat): seq<Comparison>
    requires i <= |matches| && forall k :: 0 <= k < |matches| ==> ValidMatch(|names|, matches[k])
  {
    LogFrom(LlmStep(names, matches, answers, ratings), LlmLogOf(names, matches, answers), |matches|, results, i)
  }

  /** One turn of that loop: match `i` is played, then the rest. */
  lemma LlmTurn(names: seq<string>, matches: seq<Match>, answers: seq<(bool, string)>, ratings: map<string, Stats>,
                results: map<string, Record>, i: nat)
    requires i < |matches| && forall k :: 0 <= k < |matches| ==> ValidMatch(|names|, matches[k])
    ensures var step := MatchStep(names, matches[i], answers, i, results, ratings);
      && (step.Err? ==> LlmPlay(names, matches, answers, ratings, results, i) == Err(step.error))
      && (step.Err? ==> LlmLog(names, matches, answers, ratings, results, i) == MatchLog(names, matches[i], answers, i))
      && (step.Ok? ==> LlmPlay(names, matches, answers, ratings, results, i) == LlmPlay(names, matches, answers, ratings, step.value, i + 1))
      && (step.Ok? ==> LlmLog(names, matches, answers, ratings, results, i)
                       == MatchLog(names, matches[i], answers, i) + LlmLog(names, matches, answers, ratings, step.value, i + 1))
  {
    Turn(LlmStep(names, matches, answers, ratings), LlmLogOf(names, matches, answers), |matches|, results, i);
    assert LlmStep(names, matches, answers, ratings)(i, results) == MatchStep(names, matches[i], answers, i, results, ratings);
    assert LlmLogOf(names, matches, answers)(i) == MatchLog(names, matches[i], answers, i);
  }

  lemma AppendAssoc<T>(a: seq<T>, b: seq<T>, c: seq<T>)
    ensures (a + b) + c == a + (b + c)
  {
  }

  /** The result of `update_ratings` for a given schedule: the matches are
      played, then the entries that played get their Glicko update. */
  function LlmOutcome(names: seq<string>, matches: seq<Match>, answers: seq<(bool, string)>, ratings: map<string, Stats>, glicko: Glicko)
    : Result<map<string, Stats>>
    requires forall k :: 0 <= k < |matches| ==> ValidMatch(|names|, matches[k])
  {
    match LlmPlay(names, matches, answers, ratings, map[], 0)
    case Err(e) => Err(e)
    case Ok(results) => Ok(Refreshed(ratings, results, results.Keys, glicko))
  }

  // ---------------------------------------------------------------------
  // What the loop computes.
  // ---------------------------------------------------------------------

  /** The loop of `_play_matches` is the aggregation both drafts share,
      over the bouts the LLM comparisons give. */
  lemma {:induction false} LlmPlayTally(names: seq<string>, matches: seq<Match>, answers: seq<(bool, string)>, ratings: map<string, Stats>,
                                        results: map<string, Record>, i: nat)
    requires i <= |matches| && forall k :: 0 <= k < |matches| ==> ValidMatch(|names|, matches[k])
    ensures LlmPlay(names, matches, answers, ratings, results, i) == Tally(results, LlmBouts(names, matches, answers)[i..], ratings)
    decreases |matches| - i
  {
    var bouts := LlmBouts(names, matches, answers);
    if i < |matches| {
      TallyAt(results, bouts, i, ratings);
      LlmTurn(names, matches, answers, ratings, results, i);
      var next := MatchStep(names, matches[i], answers, i, results, ratings);
      if next.Ok? {
        LlmPlayTally(names, matches, answers, ratings, next.value, i + 1);
      }
    } else {
      assert bouts[i..] == [];
    }
  }

  /** A match whose step goes through has logged exactly its comparison. */
  lemma MatchLogged(names: seq<string>, m: Match, answers: seq<(bool, string)>, k: nat,
                    results: map<string, Record>, ratings: map<string, Stats>)
    requires ValidMatch(|names|, m) && MatchStep(names, m, answers, k, results, ratings).Ok?
    ensures k < |answers| && MatchCompare(names, m, answers[k]).Ok?
    ensures MatchLog(names, m, answers, k) == [MatchCompare(names, m, answers[k]).value]
  {
  }

  /** Each match logs at most one comparison, and exactly one when its
      step goes through. */
  lemma LlmLogOfSteps(names: seq<string>, matches: seq<Match>, answers: seq<(bool, string)>, ratings: map<string, Stats>)
    requires forall k :: 0 <= k < |matches| ==> ValidMatch(|names|, matches[k])
    ensures forall k :: 0 <= k < |matches| ==> |LlmLogOf(names, matches, answers)(k)| <= 1
    ensures forall k, t :: 0 <= k < |matches| && LlmStep(names, matches, answers, ratings)(k, t).Ok? ==>
      |LlmLogOf(names, matches, answers)(k)| == 1
  {
    forall k, t | 0 <= k < |matches| && LlmStep(names, matches, answers, ratings)(k, t).Ok?
      ensures |LlmLogOf(names, matches, answers)(k)| == 1
    {
      MatchLogged(names, matches[k], answers, k, t, ratings);
    }
  }

  /** At most one comparison is logged per match the loop reaches, and a
      run that completes has logged one for every match. */
  lemma LlmLogLength(names: seq<string>, matches: seq<Match>, answers: seq<(bool, string)>, ratings: map<string, Stats>,
                     results: map<string, Record>, i: nat)
    requires i <= |matches| && forall k :: 0 <= k < |matches| ==> ValidMatch(|names|, matches[k])
    ensures |LlmLog(names, matches, answers, ratings, results, i)| <= |matches| - i
    ensures LlmPlay(names, matches, answers, ratings, results, i).Ok? ==> |LlmLog(names, matches, answers, ratings, results, i)| == |matches| - i
  {
    LlmLogOfSteps(names, matches, answers, ratings);
    LogFromLength(LlmStep(names, matches, answers, ratings), LlmLogOf(names, matches, answers), |matches|, results, i);
  }

  /** The comparisons are logged in match order: entry `k - i` of the log
      is what match `k` logs, its comparison. */
  lemma LlmLogOrder(names: seq<string>, matches: seq<Match>, answers: seq<(bool, string)>, ratings: map<string, Stats>,
                    results: map<string, Record>, i: nat, k: nat)
    requires i <= |matches| && forall k :: 0 <= k < |matches| ==> ValidMatch(|names|, matches[k])
    requires i <= k < i + |LlmLog(names, matches, answers, ratings, results, i)|
    ensures k < |matches|
    ensures MatchLog(names, matches[k], answers, k) == [LlmLog(names, matches, answers, ratings, results, i)[k - i]]
  {
    LlmLogOfSteps(names, matches, answers, ratings);
    LogFromAt(LlmStep(names, matches, answers, ratings), LlmLogOf(names, matches, answers), |matches|, results, i, k);
    assert LlmLogOf(names, matches, answers)(k) == MatchLog(names, matches[k], answers, k);
  }

  /** A completed `_play_matches` records every key it names under its
      stripped name, with three lists of equal length whose length is the
      number of matches the key played, and reads only keys that have an
      entry in `ratings_data`. */
  lemma LlmPlayShape(names: seq<string>, matches: seq<Match>, answers: seq<(bool, string)>, ratings: map<string, Stats>)
    requires forall k :: 0 <= k < |matches| ==> ValidMatch(|names|, matches[k])
    requires LlmPlay(names, matches, answers, ratings, map[], 0).Ok?
    ensures var results := LlmPlay(names, matches, answers, ratings, map[], 0).value;
      && results.Keys == Keys(LlmBouts(names, matches, answers))
      && results.Keys <= ratings.Keys
      && Balanced(results)
      && forall k :: Played(results, k) == Sides(k, LlmBouts(names, matches, answers))
  {
    var bouts := LlmBouts(names, matches, answers);
    LlmPlayTally(names, matches, answers, ratings, map[], 0);
    assert bouts[0..] == bouts;
    TallyShape(map[], bouts, ratings);
    TallyKeysRated(bouts, ratings);
  }

  /** `update_ratings` keeps every entry of `ratings_data`, gives each
      resume that played at least one match its Glicko update on the
      matches it played, and leaves every other entry unchanged. */
  lemma LlmOutcomeEntries(names: seq<string>, matches: seq<Match>, answers: seq<(bool, string)>, ratings: map<string, Stats>, glicko: Glicko)
    requires forall k :: 0 <= k < |matches| ==> ValidMatch(|names|, matches[k])
    requires LlmOutcome(names, matches, answers, ratings, glicko).Ok?
    ensures var updated := LlmOutcome(names, matches, answers, ratings, glicko).value;
      var results := LlmPlay(names, matches, answers, ratings, map[], 0).value;
      && updated.Keys == ratings.Keys
      && results.Keys == Keys(LlmBouts(names, matches, answers))
      && Keys(LlmBouts(names, matches, answers)) <= ratings.Keys
      && forall key :: key in ratings ==>
           updated[key] == if key in Keys(LlmBouts(names, matches, answers)) then glicko(ratings[key], results[key]) else ratings[key]
  {
    LlmPlayShape(names, matches, answers, ratings);
  }

  /** What `update_ratings` returns: the updated ratings together with the
      comparison log, or what was raised. */
  function Paired(outcome: Result<map<string, Stats>>, log: seq<Comparison>): (r: Result<(map<string, Stats>, seq<Comparison>)>)
    ensures r.Ok? <==> outcome.Ok?
    ensures r.Ok? ==> r.value.0 == outcome.value && r.value.1 == log
    ensures r.Err? ==> r.error == outcome.error
  {
    match outcome
    case Err(e) => Err(e)
    case Ok(updated) => Ok((updated, log))
  }

  /** The comparison of a match is made on the full ranked names: the
      `resume1` label names the slot of the first one, and the verdict is 1
      exactly when the model preferred that slot. An answer naming no winner
      counts as a win for the second name. */
  lemma LlmVerdict(resume1: string, resume2: string, answer: (bool, string))
    requires resume1 != resume2 && LlmCompare(resume1, resume2, answer).Ok?
    ensures var c := LlmCompare(resume1, resume2, answer).value;
      && SlotFile(c, c.resume1) == resume1
      && SlotFile(c, OtherLabel(c.resume1)) == resume2
      && (Verdict(c) == 1 <==> c.winner.Some? && SlotFile(c, c.winner.value) == resume1)
      && (c.winner.None? ==> Verdict(c) == 2)
  {
    var resumes := Constructed(resume1, resume2).value;
    ComparedLabels(resumes, true, answer.0, answer.1, resume1, resume2);
    var c := LlmCompare(resume1, resume2, answer).value;
    WinMeansFirstArgumentWon(c, resume1, resume2);
  }

  class RatingManager {
    const resumeFolder: string
    var rankedResumes: seq<string>
    var numRankedRes: int
    const llm: Comparer
    var comparisons: seq<Comparison>

    predicate Valid()
      reads this, llm
    {
      numRankedRes == |rankedResumes| && llm.model in llm.numCalls
    }

    /** `__init__`: the comparer is created on the `haiku` model and the
        log starts empty. */
    constructor(resumeFolder: string, rankedResumes: seq<string>)
      ensures this.resumeFolder == resumeFolder && this.rankedResumes == rankedResumes
      ensures llm.model == "haiku" && llm.numCalls == map["haiku" := 0, "sonnet" := 0]
      ensures comparisons == [] && Valid()
    {
      this.resumeFolder := resumeFolder;
      this.rankedResumes := rankedResumes;
      numRankedRes := |rankedResumes|;
      llm := new Comparer("haiku");
      comparisons := [];
    }

    /** `_compare_resumes(resume1, resume2)`: one comparison, appended to
        the log, read as 1 or 2. */
    method CompareResumes(resume1: string, resume2: string, answer: (bool, string)) returns (r: Result<int>)
      requires Valid()
      modifies this`comparisons, llm`numCalls, llm`currentResumes, llm`aIs1
      ensures Valid()
      ensures LlmCompare(resume1, resume2, answer).Err? ==>
        r == Err(LlmCompare(resume1, resume2, answer).error) && comparisons == old(comparisons) && llm.numCalls == old(llm.numCalls)
      ensures LlmCompare(resume1, resume2, answer).Ok? ==>
        && r == Ok(Verdict(LlmCompare(resume1, resume2, answer).value))
        && comparisons == old(comparisons) + [LlmCompare(resume1, resume2, answer).value]
        && llm.numCalls == Counted(old(llm.numCalls), llm.model, 1)
    {
      var response := llm.CompareResumes(resume1, resume2, answer.0, answer.1);
      if response.Err? {
        return Err(response.error);
      }
      comparisons := comparisons + [response.value];
      if Some(response.value.resume1) == response.value.winner {
        r := Ok(1);
      } else {
        r := Ok(2);
      }
    }

    /** The body of the loop of `_play_matches` for its `k`-th match `m`:
        the full names are compared (the answer logged), then stripped, and
        both records extended. */
    method PlayMatch(names: seq<string>, m: Match, answers: seq<(bool, string)>, k: nat,
                     matchResults: map<string, Record>, ratingsData: map<string, Stats>)
      returns (r: Result<map<string, Record>>)
      requires Valid() && ValidMatch(|names|, m)
      modifies this`comparisons, llm`numCalls, llm`currentResumes, llm`aIs1
      ensures Valid()
      ensures r == MatchStep(names, m, answers, k, matchResults, ratingsData)
      ensures comparisons == old(comparisons) + MatchLog(names, m, answers, k)
      ensures llm.numCalls == Counted(old(llm.numCalls), llm.model, |MatchLog(names, m, answers, k)|)
    {
      CountedNone(llm.numCalls, llm.model);
      if k >= |answers| {
        return Err(ScriptExhausted);
      }
      var (a, b) := m;
      var winner := CompareResumes(names[a], names[b], answers[k]);
      if winner.Err? {
        return Err(winner.error);
      }
      r := RecordMatch(matchResults, names[a], names[b], winner.value, ratingsData);
    }

    /** The `for` loop of `_play_matches` from match `i` on, with the
        records so far in `matchResults`: one match is played, then the
        rest; the first match that raises ends it. */
    method PlayFrom(names: seq<string>, matches: seq<Match>, ratingsData: map<string, Stats>, answers: seq<(bool, string)>,
                    matchResults: map<string, Record>, i: nat)
      returns (r: Result<map<string, Record>>)
      requires Valid() && i <= |matches|
      requires forall k :: 0 <= k < |matches| ==> ValidMatch(|names|, matches[k])
      modifies this`comparisons, llm`numCalls, llm`currentResumes, llm`aIs1
      ensures Valid()
      ensures r == LlmPlay(names, matches, answers, ratingsData, matchResults, i)
      ensures comparisons == old(comparisons) + LlmLog(names, matches, answers, ratingsData, matchResults, i)
      ensures llm.numCalls == Counted(old(llm.numCalls), llm.model, |LlmLog(names, matches, answers, ratingsData, matchResults, i)|)
      decreases |matches| - i
    {
      CountedNone(llm.numCalls, llm.model);
      if i == |matches| {
        return Ok(matchResults);
      }
      ghost var calls0, log0 := llm.numCalls, comparisons;
      ghost var stepLog := MatchLog(names, matches[i], answers, i);
      LlmTurn(names, matches, answers, ratingsData, matchResults, i);
      var step := PlayMatch(names, matches[i], answers, i, matchResults, ratingsData);
      if step.Err? {
        return Err(step.error);
      }
      r := PlayFrom(names, matches, ratingsData, answers, step.value, i + 1);
      ghost var rest := LlmLog(names, matches, answers, ratingsData, step.value, i + 1);
      CountedMore(calls0, llm.model, |stepLog|, |rest|);
      AppendAssoc(log0, stepLog, rest);
    }

    /** `_play_matches(matches, ratings_data)`: the matches in order from
        empty records, `answers` holding one coin and answer per
        comparison. */
    method PlayMatches(matches: seq<Match>, ratingsData: map<string, Stats>, answers: seq<(bool, string)>)
      returns (r: Result<map<string, Record>>)
      requires Valid()
      requires forall k :: 0 <= k < |matches| ==> ValidMatch(numRankedRes, matches[k])
      modifies this`comparisons, llm`numCalls, llm`currentResumes, llm`aIs1
      ensures Valid()
      ensures r == LlmPlay(rankedResumes, matches, answers, ratingsData, map[], 0)
      ensures comparisons == old(comparisons) + LlmLog(rankedResumes, matches, answers, ratingsData, map[], 0)
      ensures llm.numCalls == Counted(old(llm.numCalls), llm.model, |LlmLog(rankedResumes, matches, answers, ratingsData, map[], 0)|)
    {
      r := PlayFrom(rankedResumes, matches, ratingsData, answers, map[], 0);
    }

    /** `_update_ratings(match_results, ratings_data)`: every key of the
        match results must have an entry (KeyError otherwise, raised before
        any entry changes); then each of those entries, and no other, is
        replaced by its Glicko update. */
    method UpdateMatched(matchResults: map<string, Record>, ratingsData: map<string, Stats>, glicko: Glicko)
      returns (r: Result<map<string, Stats>>)
      ensures r.Err? <==> !(matchResults.Keys <= ratingsData.Keys)
      ensures r.Err? ==> exists key :: key in matchResults && key !in ratingsData && r.error == KeyError(key)
      ensures r.Ok? ==> r.value == Refreshed(ratingsData, matchResults, matchResults.Keys, glicko)
      ensures r.Ok? ==> r.value.Keys == ratingsData.Keys
      ensures r.Ok? ==> forall key :: key in ratingsData ==>
        r.value[key] == if key in matchResults then glicko(ratingsData[key], matchResults[key]) else ratingsData[key]
    {
      var unchecked := matchResults.Keys;
      while unchecked != {}
        invariant unchecked <= matchResults.Keys
        invariant forall key :: key in matchResults && key !in unchecked ==> key in ratingsData
        decreases unchecked
      {
        var resume :| resume in unchecked;
        if resume !in ratingsData {
          return Err(KeyError(resume));
        }
        unchecked := unchecked - {resume};
      }
      var newData := ratingsData;
      var pending := matchResults.Keys;
      while pending != {}
        invariant pending <= matchResults.Keys
        invariant newData == Refreshed(ratingsData, matchResults, matchResults.Keys - pending, glicko)
        decreases pending
      {
        var resume :| resume in pending;
        RefreshedStep(ratingsData, matchResults, matchResults.Keys - pending, resume, glicko);
        newData := newData[resume := glicko(ratingsData[resume], matchResults[resume])];
        assert matchResults.Keys - (pending - {resume}) == (matchResults.Keys - pending) + {resume};
        pending := pending - {resume};
      }
      assert matchResults.Keys - pending == matchResults.Keys;
      r := Ok(newData);
    }

    /** `update_ratings(ratings_data, num_matches)`: schedule, play, update,
        and return the new ratings with the comparison log. `draws` is the
        stream `random.sample` draws from and `answers` the coins and
        answers of the comparisons; `glicko` is the Glicko-2 update. */
    method UpdateRatings(ratingsData: map<string, Stats>, numMatches: Option<int>, draws: seq<(int, int)>,
                         answers: seq<(bool, string)>, glicko: Glicko)
      returns (r: Result<(map<string, Stats>, seq<Comparison>)>, used: nat)
      requires Valid()
      requires forall k :: 0 <= k < |draws| ==> IsDraw(numRankedRes, draws[k])
      modifies this`comparisons, llm`numCalls, llm`currentResumes, llm`aIs1
      ensures Valid() && used <= |draws|
      ensures var n := |rankedResumes|;
        var wanted := if numMatches.None? then MaxMatches(n) else numMatches.value;
        && (wanted > MaxMatches(n) ==>
              && r == Err(ValueError("too many matches; maximum is " + IntToString(MaxMatches(n))))
              && comparisons == old(comparisons) && llm.numCalls == old(llm.numCalls))
        && (wanted == MaxMatches(n) ==>
              && (forall k :: 0 <= k < |AllPairs(n)| ==> ValidMatch(n, AllPairs(n)[k]))
              && r == Paired(LlmOutcome(rankedResumes, AllPairs(n), answers, ratingsData, glicko), comparisons)
              && comparisons == old(comparisons) + LlmLog(rankedResumes, AllPairs(n), answers, ratingsData, map[], 0)
              && llm.numCalls == Counted(old(llm.numCalls), llm.model, |LlmLog(rankedResumes, AllPairs(n), answers, ratingsData, map[], 0)|))
        && (wanted < MaxMatches(n) ==>
              || (&& r == Err(ScriptExhausted) && used == |draws|
                  && comparisons == old(comparisons) && llm.numCalls == old(llm.numCalls))
              || (&& (forall k :: 0 <= k < |FirstSeen(draws[..used])| ==> ValidMatch(n, FirstSeen(draws[..used])[k]))
                  && r == Paired(LlmOutcome(rankedResumes, FirstSeen(draws[..used]), answers, ratingsData, glicko), comparisons)
                  && comparisons == old(comparisons) + LlmLog(rankedResumes, FirstSeen(draws[..used]), answers, ratingsData, map[], 0)
                  && llm.numCalls == Counted(old(llm.numCalls), llm.model, |LlmLog(rankedResumes, FirstSeen(draws[..used]), answers, ratingsData, map[], 0)|)))
    {
      var maxNumMatches := MaxMatches(numRankedRes);
      var matches;
      matches, used := GenerateMatches(numRankedRes, numMatches, draws, "too many matches; maximum is " + IntToString(maxNumMatches));
      if matches.Err? {
        return Err(matches.error), used;
      }
      if numMatches.None? || numMatches.value == maxNumMatches {
        AllPairsSchedule(numRankedRes);
      }
      var matchResults := PlayMatches(matches.value, ratingsData, answers);
      if matchResults.Err? {
        return Err(matchResults.error), used;
      }
      LlmPlayShape(rankedResumes, matches.value, answers, ratingsData);
      var newData := UpdateMatched(matchResults.value, ratingsData, glicko);
      assert newData.Ok?;
      r := Ok((newData.value, comparisons));
    }
  }
}
