/** `_generate_matches` of both `RatingManager` drafts
    (resume_ratings_manager.py, resume_rating_manager.py): the schedule of
    pairwise matches between n ranked resumes, either every pair once or a
    requested number of distinct pairs drawn at random. A draw of
    `random.sample(range(n), 2)` is an element of a scripted stream. */
module MatchSchedule {
  import opened Wrappers

  /** A match `[i, j]` between the resumes at indices i and j. */
  type Match = (int, int)

  /** `n * (n - 1) // 2`: the number of distinct pairs among n players. */
  function MaxMatches(n: nat): nat
  {
    if n == 0 then 0 else n * (n - 1) / 2
  }

  /** The pairs `[i, j]` for j from i + 1 to n - 1. */
  function Row(i: nat, n: nat): (row: seq<Match>)
    requires i < n
    ensures |row| == n - i - 1
    ensures forall k :: 0 <= k < |row| ==> row[k] == (i, i + 1 + k)
  {
    seq(n - i - 1, k requires 0 <= k < n - i - 1 => (i, i + 1 + k))
  }

  /** `[[i, j] for i in range(start, n) for j in range(i + 1, n)]`. */
  function PairsFrom(start: nat, n: nat): seq<Match>
    decreases n - start
  {
    if start >= n then [] else Row(start, n) + PairsFrom(start + 1, n)
  }

  /** The exhaustive schedule of the shortcut branch. */
  function AllPairs(n: nat): seq<Match>
  {
    PairsFrom(0, n)
  }

  /** Pairs ordered by first index, then second: the order of the nested
      comprehension. */
  predicate PairLess(p: Match, q: Match)
  {
    p.0 < q.0 || (p.0 == q.0 && p.1 < q.1)
  }

  predicate ValidMatch(n: int, m: Match)
  {
    0 <= m.0 < m.1 < n
  }

  predicate Distinct(ms: seq<Match>)
  {
    forall a, b :: 0 <= a < b < |ms| ==> ms[a] != ms[b]
  }

  /** A draw of `random.sample(range(n), 2)`: two different players. */
  predicate IsDraw(n: int, d: (int, int))
  {
    0 <= d.0 < n && 0 <= d.1 < n && d.0 != d.1
  }

  /** `sorted(draw)`. */
  function SortedDraw(d: (int, int)): Match
  {
    if d.0 <= d.1 then d else (d.1, d.0)
  }

  /** The matches the rejection loop keeps from a run of draws: each sorted
      draw in turn, unless it is already scheduled. */
  function FirstSeen(draws: seq<(int, int)>): seq<Match>
  {
    if |draws| == 0 then []
    else
      var kept := FirstSeen(draws[..|draws| - 1]);
      var m := SortedDraw(draws[|draws| - 1]);
      if m in kept then kept else kept + [m]
  }

  /** `_generate_matches(n, num_matches)`. The requested count defaults to
      the maximum; more than the maximum raises ValueError with the draft's
      message `tooMany`; exactly the maximum returns every pair; anything
      less draws pairs until that many distinct ones are scheduled. `used`
      counts the draws consumed; a stream that runs dry ends the loop with
      ScriptExhausted. */
  method GenerateMatches(n: nat, numMatches: Option<int>, draws: seq<(int, int)>, tooMany: string)
    returns (r: Result<seq<Match>>, used: nat)
    requires forall k :: 0 <= k < |draws| ==> IsDraw(n, draws[k])
    ensures used <= |draws|
    ensures var wanted := if numMatches.None? then MaxMatches(n) else numMatches.value;
      && (wanted > MaxMatches(n) ==> r == Err(ValueError(tooMany)) && used == 0)
      && (wanted == MaxMatches(n) ==> r == Ok(AllPairs(n)) && used == 0)
      && (wanted < MaxMatches(n) && r.Ok? ==>
            && r.value == FirstSeen(draws[..used])
            && |r.value| == (if wanted < 0 then 0 else wanted)
            && Distinct(r.value)
            && (forall k :: 0 <= k < |r.value| ==> ValidMatch(n, r.value[k])))
      && (wanted < MaxMatches(n) && r.Err? ==> r.error == ScriptExhausted && used == |draws|)
  {
    var maxNumMatches := MaxMatches(n);
    var wanted := if numMatches.None? then maxNumMatches else numMatches.value;
    used := 0;
    if wanted > maxNumMatches {
      return Err(ValueError(tooMany)), used;
    }
    if wanted == maxNumMatches {
      return Ok(AllPairs(n)), used;
    }
    var matches: seq<Match> := [];
    while |matches| < wanted
      invariant used <= |draws|
      invariant matches == FirstSeen(draws[..used])
      invariant if wanted >= 0 then |matches| <= wanted else |matches| == 0
      decreases |draws| - used
    {
      if used == |draws| {
        return Err(ScriptExhausted), used;
      }
      var match_ := SortedDraw(draws[used]);
      assert draws[..used + 1][..used] == draws[..used];
      if match_ !in matches {
        matches := matches + [match_];
      }
      used := used + 1;
    }
    FirstSeenDistinct(draws[..used]);
    FirstSeenValid(n, draws[..used]);
    r := Ok(matches);
  }

  // ---------------------------------------------------------------------
  // The exhaustive schedule.
  // ---------------------------------------------------------------------

  /** The pairs from `start` on are exactly the pairs i < j with i >= start. */
  lemma {:induction false} PairsFromMembers(start: nat, n: nat, p: Match)
    ensures p in PairsFrom(start, n) <==> start <= p.0 < p.1 < n
    decreases n - start
  {
    if start < n {
      PairsFromMembers(start + 1, n, p);
      if p.0 == start && p.0 < p.1 < n {
        assert p == Row(start, n)[p.1 - start - 1];
      }
    }
  }

  /** `m * (m - 1) // 2` grows by `m - 1` from `m - 1` to `m`. */
  lemma MaxMatchesStep(m: nat)
    requires m >= 1
    ensures MaxMatches(m) == (m - 1) + MaxMatches(m - 1)
  {
    assert m * (m - 1) == 2 * (m - 1) + (m - 1) * (m - 2);
  }

  lemma {:induction false} PairsFromCount(start: nat, n: nat)
    ensures |PairsFrom(start, n)| == if start >= n then 0 else MaxMatches(n - start)
    decreases n - start
  {
    if start < n {
      PairsFromCount(start + 1, n);
      MaxMatchesStep(n - start);
    }
  }

  /** The exhaustive schedule is in strictly increasing (i, j) order. */
  lemma {:induction false} PairsFromOrdered(start: nat, n: nat)
    ensures forall a, b :: 0 <= a < b < |PairsFrom(start, n)| ==> PairLess(PairsFrom(start, n)[a], PairsFrom(start, n)[b])
    decreases n - start
  {
    if start < n {
      var row := Row(start, n);
      var rest := PairsFrom(start + 1, n);
      PairsFromOrdered(start + 1, n);
      var s := PairsFrom(start, n);
      forall a, b | 0 <= a < b < |s| ensures PairLess(s[a], s[b]) {
        if b >= |row| {
          PairsFromMembers(start + 1, n, s[b]);
          assert s[b] == rest[b - |row|];
          if a >= |row| {
            assert s[a] == rest[a - |row|];
          }
        }
      }
    }
  }

  /** With no count or the maximum, `_generate_matches` returns every pair
      `[i, j]` with 0 <= i < j < n once each, in i-major order:
      n (n - 1) / 2 of them. */
  lemma AllPairsSchedule(n: nat)
    ensures |AllPairs(n)| == MaxMatches(n)
    ensures forall p :: p in AllPairs(n) <==> ValidMatch(n, p)
    ensures forall a, b :: 0 <= a < b < |AllPairs(n)| ==> PairLess(AllPairs(n)[a], AllPairs(n)[b])
    ensures Distinct(AllPairs(n))
  {
    PairsFromCount(0, n);
    if n == 0 {
      assert MaxMatches(0) == 0;
    }
    forall p ensures p in AllPairs(n) <==> ValidMatch(n, p) {
      PairsFromMembers(0, n, p);
    }
    PairsFromOrdered(0, n);
  }

  /** The schedule the `__main__` block expects for three players. */
  lemma AllPairsOfThree()
    ensures AllPairs(3) == [(0, 1), (0, 2), (1, 2)]
  {
    assert Row(0, 3) == [(0, 1), (0, 2)];
    assert Row(1, 3) == [(1, 2)];
    assert PairsFrom(2, 3) == Row(2, 3) + PairsFrom(3, 3) == [];
  }

  /** With two or more players every player is in some match of the
      exhaustive schedule. */
  lemma EveryPlayerPlays(n: nat, i: int)
    requires n >= 2 && 0 <= i < n
    ensures exists m :: m in AllPairs(n) && (m.0 == i || m.1 == i)
  {
    var m := if i + 1 < n then (i, i + 1) else (i - 1, i);
    PairsFromMembers(0, n, m);
  }

  // ---------------------------------------------------------------------
  // The sampled schedule.
  // ---------------------------------------------------------------------

  /** The rejection loop never schedules a pair twice. */
  lemma {:induction false} FirstSeenDistinct(draws: seq<(int, int)>)
    ensures Distinct(FirstSeen(draws))
  {
    if |draws| > 0 {
      FirstSeenDistinct(draws[..|draws| - 1]);
    }
  }

  /** Every scheduled pair is a sorted draw, and every sorted draw is
      scheduled. */
  lemma {:induction false} FirstSeenElems(draws: seq<(int, int)>)
    ensures forall m :: m in FirstSeen(draws) <==> exists k :: 0 <= k < |draws| && m == SortedDraw(draws[k])
  {
    if |draws| > 0 {
      var init := draws[..|draws| - 1];
      FirstSeenElems(init);
      forall m ensures m in FirstSeen(draws) <==> exists k :: 0 <= k < |draws| && m == SortedDraw(draws[k]) {
        if m in FirstSeen(init) {
          var k :| 0 <= k < |init| && m == SortedDraw(init[k]);
          assert draws[k] == init[k];
        }
        if exists k :: 0 <= k < |draws| && m == SortedDraw(draws[k]) {
          var k :| 0 <= k < |draws| && m == SortedDraw(draws[k]);
          if k < |init| {
            assert init[k] == draws[k];
          }
        }
      }
    }
  }

  /** Every scheduled pair is a valid match `[i, j]` with i < j. */
  lemma FirstSeenValid(n: int, draws: seq<(int, int)>)
    requires forall k :: 0 <= k < |draws| ==> IsDraw(n, draws[k])
    ensures forall k :: 0 <= k < |FirstSeen(draws)| ==> ValidMatch(n, FirstSeen(draws)[k])
  {
    FirstSeenElems(draws);
    forall k | 0 <= k < |FirstSeen(draws)| ensures ValidMatch(n, FirstSeen(draws)[k]) {
      var m := FirstSeen(draws)[k];
      assert m in FirstSeen(draws);
      var j :| 0 <= j < |draws| && m == SortedDraw(draws[j]);
    }
  }

  function PairSet(ms: seq<Match>): set<Match>
  {
    set m | m in ms
  }

  lemma {:induction false} DistinctCard(ms: seq<Match>)
    requires Distinct(ms)
    ensures |PairSet(ms)| == |ms|
  {
    if |ms| > 0 {
      var init := ms[..|ms| - 1];
      DistinctCard(init);
      assert PairSet(ms) == PairSet(init) + {ms[|ms| - 1]};
      assert ms[|ms| - 1] !in PairSet(init);
    } else {
      assert PairSet(ms) == {};
    }
  }

  /** No more than n (n - 1) / 2 distinct valid pairs exist, so the
      ValueError check rejects exactly the requests no schedule can meet. */
  lemma DistinctPairsBound(n: nat, ms: seq<Match>)
    requires Distinct(ms) && forall k :: 0 <= k < |ms| ==> ValidMatch(n, ms[k])
    ensures |ms| <= MaxMatches(n)
  {
    AllPairsSchedule(n);
    DistinctCard(ms);
    DistinctCard(AllPairs(n));
    assert PairSet(ms) <= PairSet(AllPairs(n));
    SubsetCard(PairSet(ms), PairSet(AllPairs(n)));
  }

  lemma SubsetCard(a: set<Match>, b: set<Match>)
    requires a <= b
    ensures |a| <= |b|
  {
    assert b == a + (b - a);
  }
}
