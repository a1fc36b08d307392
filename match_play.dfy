/** The aggregation loop of `_play_matches`, shared by both `RatingManager`
    drafts (resume_ratings_manager.py, resume_rating_manager.py): for every
    match, each side gets the other side's rating and rating deviation and a
    win flag appended to its record. The drafts differ only in how a match
    becomes a pair of keys and a winner (a `Bout`); that part lives with each
    draft. */
module MatchPlay {
  import opened Wrappers

  /** A resume's entry in `ratings_data`: `{"rating", "rd", "vol"}`. */
  datatype Stats = Stats(rating: real, rd: real, vol: real)

  /** A resume's entry in `match_results`: `([ratings], [rds], [wins])`. */
  datatype Record = Record(oppRatings: seq<real>, oppRds: seq<real>, wins: seq<int>)

  /** A match once both keys and the winner (1 or 2) are known. */
  datatype Bout = Bout(resume1: string, resume2: string, winner: int)

  function Append(rec: Record, opponent: Stats, win: int): Record
  {
    Record(rec.oppRatings + [opponent.rating], rec.oppRds + [opponent.rd], rec.wins + [win])
  }

  /** The rest of one loop iteration: both keys get a record if they have
      none, the two `ratings_data` entries are read (KeyError when missing),
      and each side's record takes the other's rating and deviation and its
      own win flag. */
  function PlayBout(results: map<string, Record>, bout: Bout, ratings: map<string, Stats>): Result<map<string, Record>>
  {
    var withFirst := if bout.resume1 in results then results else results[bout.resume1 := Record([], [], [])];
    var withBoth := if bout.resume2 in withFirst then withFirst else withFirst[bout.resume2 := Record([], [], [])];
    if bout.resume1 !in ratings then Err(KeyError(bout.resume1))
    else if bout.resume2 !in ratings then Err(KeyError(bout.resume2))
    else
      var first := Append(withBoth[bout.resume1], ratings[bout.resume2], if bout.winner == 1 then 1 else 0);
      var afterFirst := withBoth[bout.resume1 := first];
      Ok(afterFirst[bout.resume2 := Append(afterFirst[bout.resume2], ratings[bout.resume1], if bout.winner == 2 then 1 else 0)])
  }

  /** The loop of `_play_matches` over the matches in order. An item that
      failed before its comparison was recorded (a name without a rank
      prefix, an exhausted script) stops the loop with its error. */
  function Tally(results: map<string, Record>, bouts: seq<Result<Bout>>, ratings: map<string, Stats>): Result<map<string, Record>>
    decreases |bouts|
  {
    if |bouts| == 0 then Ok(results)
    else if bouts[0].Err? then Err(bouts[0].error)
    else
      match PlayBout(results, bouts[0].value, ratings)
      case Err(e) => Err(e)
      case Ok(next) => Tally(next, bouts[1..], ratings)
  }

  /** The loop of `_play_matches` at its `i`-th match. */
  lemma TallyAt(results: map<string, Record>, bouts: seq<Result<Bout>>, i: nat, ratings: map<string, Stats>)
    requires i < |bouts|
    ensures Tally(results, bouts[i..], ratings)
         == if bouts[i].Err? then Err(bouts[i].error)
            else match PlayBout(results, bouts[i].value, ratings)
                 case Err(e) => Err(e)
                 case Ok(next) => Tally(next, bouts[i + 1..], ratings)
  {
    assert bouts[i..][0] == bouts[i] && bouts[i..][1..] == bouts[i + 1..];
  }

  /** The keys a run of bouts names. */
  function Keys(bouts: seq<Result<Bout>>): set<string>
  {
    (set i | 0 <= i < |bouts| && bouts[i].Ok? :: bouts[i].value.resume1)
    + (set i | 0 <= i < |bouts| && bouts[i].Ok? :: bouts[i].value.resume2)
  }

  /** How many sides of the bouts are the resume `key`. */
  function Sides(key: string, bouts: seq<Result<Bout>>): nat
  {
    if |bouts| == 0 || bouts[0].Err? then 0
    else
      (if bouts[0].value.resume1 == key then 1 else 0)
      + (if bouts[0].value.resume2 == key then 1 else 0)
      + Sides(key, bouts[1..])
  }

  /** The number of matches a resume has a record of. */
  function Played(results: map<string, Record>, key: string): nat
  {
    if key in results then |results[key].wins| else 0
  }

  /** Each record's three lists have one entry per match. */
  predicate Balanced(results: map<string, Record>)
  {
    forall k :: k in results ==> |results[k].oppRatings| == |results[k].oppRds| == |results[k].wins|
  }

  /** Every win flag is 0 or 1. */
  predicate Flags(results: map<string, Record>)
  {
    forall k, i :: k in results && 0 <= i < |results[k].wins| ==> results[k].wins[i] in {0, 1}
  }

  // ---------------------------------------------------------------------
  // One match.
  // ---------------------------------------------------------------------

  /** A match between two different resumes appends to exactly their two
      records: each side gets the other side's rating and deviation from the
      incoming `ratings_data` and a win flag, and the flags are 1 for the
      winner and 0 for the other; all other records are unchanged. */
  lemma PlayBoutSides(results: map<string, Record>, bout: Bout, ratings: map<string, Stats>)
    requires bout.resume1 != bout.resume2 && bout.winner in {1, 2}
    requires bout.resume1 in ratings && bout.resume2 in ratings
    ensures PlayBout(results, bout, ratings).Ok?
    ensures var m := PlayBout(results, bout, ratings).value;
      var r1 := bout.resume1;
      var r2 := bout.resume2;
      var old1 := if r1 in results then results[r1] else Record([], [], []);
      var old2 := if r2 in results then results[r2] else Record([], [], []);
      && m.Keys == results.Keys + {r1, r2}
      && m[r1].oppRatings == old1.oppRatings + [ratings[r2].rating]
      && m[r1].oppRds == old1.oppRds + [ratings[r2].rd]
      && m[r2].oppRatings == old2.oppRatings + [ratings[r1].rating]
      && m[r2].oppRds == old2.oppRds + [ratings[r1].rd]
      && |m[r1].wins| == |old1.wins| + 1 && m[r1].wins[..|old1.wins|] == old1.wins
      && |m[r2].wins| == |old2.wins| + 1 && m[r2].wins[..|old2.wins|] == old2.wins
      && m[r1].wins[|old1.wins|] + m[r2].wins[|old2.wins|] == 1
      && m[r1].wins[|old1.wins|] == (if bout.winner == 1 then 1 else 0)
      && (forall k :: k in results && k != r1 && k != r2 ==> m[k] == results[k])
  {
    var r1 := bout.resume1;
    var r2 := bout.resume2;
    var old1 := if r1 in results then results[r1] else Record([], [], []);
    var old2 := if r2 in results then results[r2] else Record([], [], []);
    var m := PlayBout(results, bout, ratings).value;
    assert m[r1] == Append(old1, ratings[r2], if bout.winner == 1 then 1 else 0);
    assert m[r2] == Append(old2, ratings[r1], if bout.winner == 2 then 1 else 0);
  }

  /** A match between two different rated resumes, as two record updates. */
  lemma PlayBoutDistinct(results: map<string, Record>, bout: Bout, ratings: map<string, Stats>)
    requires bout.resume1 != bout.resume2
    requires bout.resume1 in ratings && bout.resume2 in ratings
    ensures PlayBout(results, bout, ratings)
         == Ok(results[bout.resume1 := Append(RecordOf(results, bout.resume1), ratings[bout.resume2], if bout.winner == 1 then 1 else 0)]
                      [bout.resume2 := Append(RecordOf(results, bout.resume2), ratings[bout.resume1], if bout.winner == 2 then 1 else 0)])
  {
    var r1, r2 := bout.resume1, bout.resume2;
    var first := Append(RecordOf(results, r1), ratings[r2], if bout.winner == 1 then 1 else 0);
    var second := Append(RecordOf(results, r2), ratings[r1], if bout.winner == 2 then 1 else 0);
    var withFirst := if r1 in results then results else results[r1 := Record([], [], [])];
    var withBoth := if r2 in withFirst then withFirst else withFirst[r2 := Record([], [], [])];
    assert withBoth[r1] == RecordOf(results, r1);
    assert withBoth[r1 := first][r2] == RecordOf(results, r2);
    assert withBoth[r1 := first][r2 := second] == results[r1 := first][r2 := second];
  }

  /** A resume's record before a match: its own, or a fresh one. */
  function RecordOf(results: map<string, Record>, key: string): Record
  {
    if key in results then results[key] else Record([], [], [])
  }

  /** `after` is `before` with `n` entries appended to each list, every
      new win flag 0 or 1. */
  predicate Grown(before: Record, after: Record, n: nat)
  {
    && |after.oppRatings| == |before.oppRatings| + n
    && |after.oppRds| == |before.oppRds| + n
    && |after.wins| == |before.wins| + n
    && after.wins[..|before.wins|] == before.wins
    && forall i :: |before.wins| <= i < |after.wins| ==> after.wins[i] in {0, 1}
  }

  lemma AppendGrows(rec: Record, opponent: Stats, win: int)
    requires win in {0, 1}
    ensures Grown(rec, Append(rec, opponent, win), 1)
  {
    assert (rec.wins + [win])[..|rec.wins|] == rec.wins;
  }

  lemma GrownTwice(a: Record, b: Record, c: Record, m: nat, n: nat)
    requires Grown(a, b, m) && Grown(b, c, n)
    ensures Grown(a, c, m + n)
  {
    assert c.wins[..|a.wins|] == c.wins[..|b.wins|][..|a.wins|];
    forall i | |a.wins| <= i < |c.wins| ensures c.wins[i] in {0, 1} {
      if i < |b.wins| {
        assert c.wins[i] == c.wins[..|b.wins|][i];
      }
    }
  }

  /** A resume's record after a match: its record before it (fresh if new)
      with one entry appended per side of the match it is on. */
  lemma PlayBoutRecord(results: map<string, Record>, bout: Bout, ratings: map<string, Stats>, k: string)
    requires PlayBout(results, bout, ratings).Ok?
    ensures var m := PlayBout(results, bout, ratings).value;
      && (k in m <==> k in results || k == bout.resume1 || k == bout.resume2)
      && (k in m ==> Grown(RecordOf(results, k), m[k], (if bout.resume1 == k then 1 else 0) + (if bout.resume2 == k then 1 else 0)))
  {
    var r1 := bout.resume1;
    var r2 := bout.resume2;
    var withFirst := if r1 in results then results else results[r1 := Record([], [], [])];
    var withBoth := if r2 in withFirst then withFirst else withFirst[r2 := Record([], [], [])];
    var w1 := if bout.winner == 1 then 1 else 0;
    var w2 := if bout.winner == 2 then 1 else 0;
    var first := Append(withBoth[r1], ratings[r2], w1);
    var afterFirst := withBoth[r1 := first];
    var second := Append(afterFirst[r2], ratings[r1], w2);
    var m := PlayBout(results, bout, ratings).value;
    assert m == afterFirst[r2 := second];
    assert withBoth[r1] == RecordOf(results, r1) && withBoth[r2] == RecordOf(results, r2);
    AppendGrows(withBoth[r1], ratings[r2], w1);
    AppendGrows(afterFirst[r2], ratings[r1], w2);
    if k == r2 && k == r1 {
      GrownTwice(RecordOf(results, k), first, second, 1, 1);
    } else if k == r2 {
      assert afterFirst[r2] == RecordOf(results, k);
    } else if k == r1 {
      assert m[k] == first;
    } else if k in m {
      assert m[k] == results[k];
    }
  }

  /** One match adds its two keys, keeps every record's lists the same
      length, keeps the flags 0 or 1, and adds one entry per side. */
  lemma PlayBoutCounts(results: map<string, Record>, bout: Bout, ratings: map<string, Stats>)
    requires PlayBout(results, bout, ratings).Ok?
    ensures var m := PlayBout(results, bout, ratings).value;
      && m.Keys == results.Keys + {bout.resume1, bout.resume2}
      && (Balanced(results) ==> Balanced(m))
      && (Flags(results) ==> Flags(m))
      && forall k :: Played(m, k) == Played(results, k) + (if bout.resume1 == k then 1 else 0) + (if bout.resume2 == k then 1 else 0)
  {
    PlayBoutKeys(results, bout, ratings);
    if Balanced(results) {
      PlayBoutBalanced(results, bout, ratings);
    }
    if Flags(results) {
      PlayBoutFlags(results, bout, ratings);
    }
  }

  /** The keys and match counts after one match. */
  lemma PlayBoutKeys(results: map<string, Record>, bout: Bout, ratings: map<string, Stats>)
    requires PlayBout(results, bout, ratings).Ok?
    ensures var m := PlayBout(results, bout, ratings).value;
      && m.Keys == results.Keys + {bout.resume1, bout.resume2}
      && forall k :: Played(m, k) == Played(results, k) + (if bout.resume1 == k then 1 else 0) + (if bout.resume2 == k then 1 else 0)
  {
    var m := PlayBout(results, bout, ratings).value;
    forall k ensures k in m <==> k in results || k == bout.resume1 || k == bout.resume2 {
      PlayBoutRecord(results, bout, ratings, k);
    }
    forall k ensures Played(m, k) == Played(results, k) + (if bout.resume1 == k then 1 else 0) + (if bout.resume2 == k then 1 else 0) {
      PlayBoutRecord(results, bout, ratings, k);
    }
  }

  /** One match keeps every record's three lists the same length. */
  lemma PlayBoutBalanced(results: map<string, Record>, bout: Bout, ratings: map<string, Stats>)
    requires PlayBout(results, bout, ratings).Ok? && Balanced(results)
    ensures Balanced(PlayBout(results, bout, ratings).value)
  {
    var m := PlayBout(results, bout, ratings).value;
    forall k | k in m ensures |m[k].oppRatings| == |m[k].oppRds| == |m[k].wins| {
      PlayBoutRecord(results, bout, ratings, k);
    }
  }

  /** One match keeps every win flag 0 or 1. */
  lemma PlayBoutFlags(results: map<string, Record>, bout: Bout, ratings: map<string, Stats>)
    requires PlayBout(results, bout, ratings).Ok? && Flags(results)
    ensures Flags(PlayBout(results, bout, ratings).value)
  {
    var m := PlayBout(results, bout, ratings).value;
    forall k, i | k in m && 0 <= i < |m[k].wins| ensures m[k].wins[i] in {0, 1} {
      PlayBoutRecord(results, bout, ratings, k);
      var r := RecordOf(results, k);
      if i < |r.wins| {
        assert m[k].wins[i] == m[k].wins[..|r.wins|][i];
      }
    }
  }

  // ---------------------------------------------------------------------
  // The whole loop.
  // ---------------------------------------------------------------------

  /** What `_play_matches` returns when it completes: its keys are the keys
      named in the matches, each key's three lists have equal length, that
      length is the number of match sides the key is on, and every win flag
      is 0 or 1. */
  lemma {:induction false} TallyShape(results: map<string, Record>, bouts: seq<Result<Bout>>, ratings: map<string, Stats>)
    requires Tally(results, bouts, ratings).Ok?
    ensures var m := Tally(results, bouts, ratings).value;
      && m.Keys == results.Keys + Keys(bouts)
      && (Balanced(results) ==> Balanced(m))
      && (Flags(results) ==> Flags(m))
      && forall k :: Played(m, k) == Played(results, k) + Sides(k, bouts)
    decreases |bouts|
  {
    if |bouts| > 0 {
      var next := PlayBout(results, bouts[0].value, ratings).value;
      PlayBoutCounts(results, bouts[0].value, ratings);
      TallyShape(next, bouts[1..], ratings);
      KeysCons(bouts);
    } else {
      assert Keys(bouts) == {};
    }
  }

  /** Both sides of a bout that was played are keys of the bouts. */
  lemma KeysAt(bouts: seq<Result<Bout>>, j: nat)
    requires j < |bouts| && bouts[j].Ok?
    ensures bouts[j].value.resume1 in Keys(bouts) && bouts[j].value.resume2 in Keys(bouts)
  {
  }

  lemma KeysCons(bouts: seq<Result<Bout>>)
    requires |bouts| > 0 && bouts[0].Ok?
    ensures Keys(bouts) == {bouts[0].value.resume1, bouts[0].value.resume2} + Keys(bouts[1..])
  {
    assert forall i :: 1 <= i < |bouts| ==> bouts[i] == bouts[1..][i - 1];
  }

  /** `_play_matches` completes exactly when every match produced its bout
      and every key it names has an entry in `ratings_data`. */
  lemma {:induction false} TallySucceeds(results: map<string, Record>, bouts: seq<Result<Bout>>, ratings: map<string, Stats>)
    ensures Tally(results, bouts, ratings).Ok? <==>
      forall i :: 0 <= i < |bouts| ==> bouts[i].Ok? && bouts[i].value.resume1 in ratings && bouts[i].value.resume2 in ratings
    decreases |bouts|
  {
    if |bouts| > 0 {
      if bouts[0].Ok? && bouts[0].value.resume1 in ratings && bouts[0].value.resume2 in ratings {
        var next := PlayBout(results, bouts[0].value, ratings).value;
        TallySucceeds(next, bouts[1..], ratings);
        assert forall i :: 1 <= i < |bouts| ==> bouts[i] == bouts[1..][i - 1];
      }
    }
  }

  // ---------------------------------------------------------------------
  // The rating update.
  // ---------------------------------------------------------------------

  /** A Glicko-2 update: the entry built from a resume's rating, deviation
      and volatility, after `update_player` with its opponents' ratings and
      deviations and its win flags. The update itself is glicko2's. */
  type Glicko = (Stats, Record) -> Stats

  /** `ratings_data` once the entries named in `keys` that have match
      results are replaced by their Glicko update; every other entry keeps
      its value. */
  function Refreshed(ratings: map<string, Stats>, results: map<string, Record>, keys: set<string>, glicko: Glicko): (updated: map<string, Stats>)
    ensures updated.Keys == ratings.Keys
  {
    map k | k in ratings :: if k in keys && k in results then glicko(ratings[k], results[k]) else ratings[k]
  }

  /** Updating one more entry with match results extends the refreshed keys by it. */
  lemma RefreshedStep(ratings: map<string, Stats>, results: map<string, Record>, keys: set<string>, key: string, glicko: Glicko)
    requires key in ratings && key in results
    ensures Refreshed(ratings, results, keys, glicko)[key := glicko(ratings[key], results[key])]
         == Refreshed(ratings, results, keys + {key}, glicko)
  {
    var before := Refreshed(ratings, results, keys, glicko)[key := glicko(ratings[key], results[key])];
    var after := Refreshed(ratings, results, keys + {key}, glicko);
    assert before.Keys == after.Keys;
    forall k | k in before ensures before[k] == after[k] {
      if k != key {
        assert before[k] == Refreshed(ratings, results, keys, glicko)[k];
      }
    }
  }

  /** Every key `_play_matches` records has an entry in `ratings_data`:
      the loop reads both entries of every match before it appends. */
  lemma TallyKeysRated(bouts: seq<Result<Bout>>, ratings: map<string, Stats>)
    requires Tally(map[], bouts, ratings).Ok?
    ensures Tally(map[], bouts, ratings).value.Keys <= ratings.Keys
  {
    TallyShape(map[], bouts, ratings);
    TallySucceeds(map[], bouts, ratings);
  }
}
