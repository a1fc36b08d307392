/** The insertion walk of `ResumeSorter.find_rank` (resume_sorter.py), as a
    function of the number of ranked names and the verdicts the comparator
    returns, one per call, in order. A verdict is `Some(true)` when the
    to-be-ranked resume wins, `Some(false)` when it loses, and `None` when the
    comparator names no winner. The walk starts at the median, takes the
    direction of the first conclusive verdict, and steps one index per
    agreeing verdict (towards index 0 after a first win) until a verdict
    disagrees or the step lands on index 0 or n - 1. */
module RankWalk {
  import opened Wrappers

  datatype WalkEnd =
    | Ranked(rank: int)             // `find_rank` returns `rank`
    | IndexOutOfRange(index: int)   // `ranked_filenames[index]` raises IndexError
    | ScriptEnded                   // the comparator's verdicts ran out

  /** How the walk ended, and the list index used for each verdict consumed. */
  datatype Walk = Walk(end: WalkEnd, probes: seq<int>)

  /** Python accepts `names[i]` for `-n <= i < n`; negative indices count from the end. */
  predicate PyIndexOk(n: int, i: int)
  {
    -n <= i < n
  }

  function Prepend(probe: int, w: Walk): Walk
  {
    Walk(w.end, [probe] + w.probes)
  }

  /** One step of the walk: towards better ranks (lower indices) after a first win. */
  function Step(firstIsWin: bool): int
  {
    if firstIsWin then -1 else 1
  }

  /** The first conclusive verdict of a sequence, if any. */
  function FirstConclusive(verdicts: seq<Option<bool>>): Option<bool>
  {
    if |verdicts| == 0 then None
    else if verdicts[0].Some? then verdicts[0]
    else FirstConclusive(verdicts[1..])
  }

  /** The direction fixed so far, or the one the remaining verdicts will fix. */
  function Direction(first: Option<bool>, rest: seq<Option<bool>>): Option<bool>
  {
    if first.Some? then first else FirstConclusive(rest)
  }

  /** The number of conclusive verdicts among `verdicts[lo..hi]`. */
  function Conclusive(verdicts: seq<Option<bool>>, lo: nat, hi: nat): nat
    requires lo <= hi <= |verdicts|
    decreases hi - lo
  {
    if lo == hi then 0
    else (if verdicts[lo].Some? then 1 else 0) + Conclusive(verdicts, lo + 1, hi)
  }

  /** The walk from the loop state of `find_rank`: the next verdict is
      `verdicts[pos]`, the current index is `cur`, and `first` is
      `first_comparison_is_win`. */
  function WalkFrom(n: int, verdicts: seq<Option<bool>>, pos: nat, cur: int, first: Option<bool>): Walk
    requires pos <= |verdicts|
    decreases |verdicts| - pos
  {
    if !PyIndexOk(n, cur) then Walk(IndexOutOfRange(cur), [])
    else if pos == |verdicts| then Walk(ScriptEnded, [])
    else match verdicts[pos]
      case None => Prepend(cur, WalkFrom(n, verdicts, pos + 1, cur, first))
      case Some(isWin) =>
        var direction := if first.Some? then first.value else isWin;
        if direction != isWin then Walk(Ranked(cur), [cur])
        else
          var next := cur + Step(direction);
          if next == 0 || next == n - 1 then Walk(Ranked(next), [cur])
          else Prepend(cur, WalkFrom(n, verdicts, pos + 1, next, Some(direction)))
  }

  /** What `find_rank` returns or raises at the end of a walk. */
  function WalkResult(end: WalkEnd): Result<int>
  {
    match end
    case Ranked(rank) => Ok(rank)
    case IndexOutOfRange(_) => Err(IndexError)
    case ScriptEnded => Err(ScriptExhausted)
  }

  /** `find_rank` on `n` ranked names. The first index is `(n - 1) // 2`;
      Dafny's `/` by a positive divisor rounds down as Python's `//` does. */
  function FindRankWalk(n: int, verdicts: seq<Option<bool>>): Walk
  {
    WalkFrom(n, verdicts, 0, (n - 1) / 2, None)
  }

  // ---------------------------------------------------------------------
  // The shape of every walk.
  // ---------------------------------------------------------------------

  lemma {:induction false} FirstConclusiveSkipsNone(verdicts: seq<Option<bool>>)
    requires |verdicts| > 0 && verdicts[0].None?
    ensures FirstConclusive(verdicts) == FirstConclusive(verdicts[1..])
  {
  }

  /** One step of a trace: an inconclusive verdict keeps the index; a
      conclusive one agrees with the direction and moves one step. */
  predicate TraceStep(verdict: Option<bool>, direction: Option<bool>, from: int, to: int)
  {
    if verdict.None? then to == from
    else direction == verdict && to == from + Step(verdict.value)
  }

  /** Where a walk's comparisons start, and how many verdicts it consumes. */
  lemma {:induction false} WalkShape(n: int, verdicts: seq<Option<bool>>, pos: nat, cur: int, first: Option<bool>)
    requires pos <= |verdicts|
    ensures var w := WalkFrom(n, verdicts, pos, cur, first);
      && pos + |w.probes| <= |verdicts|
      && (|w.probes| > 0 ==> w.probes[0] == cur)
      && (w.end.ScriptEnded? ==> pos + |w.probes| == |verdicts|)
      && (w.end.Ranked? ==> |w.probes| > 0)
    decreases |verdicts| - pos
  {
    if PyIndexOk(n, cur) && pos < |verdicts| {
      match verdicts[pos]
      case None =>
        WalkShape(n, verdicts, pos + 1, cur, first);
      case Some(isWin) =>
        var direction := if first.Some? then first.value else isWin;
        var next := cur + Step(direction);
        if direction == isWin && next != 0 && next != n - 1 {
          WalkShape(n, verdicts, pos + 1, next, Some(direction));
        }
    }
  }

  /** Every verdict but the last: an inconclusive verdict is asked again at
      the same index, a conclusive one agrees with the direction and moves
      the index one step. */
  lemma {:induction false} WalkSteps(n: int, verdicts: seq<Option<bool>>, pos: nat, cur: int, first: Option<bool>)
    requires pos <= |verdicts|
    ensures var w := WalkFrom(n, verdicts, pos, cur, first);
      pos + |w.probes| <= |verdicts| &&
      forall j :: 0 <= j < |w.probes| - 1 ==>
        TraceStep(verdicts[pos + j], Direction(first, verdicts[pos..]), w.probes[j], w.probes[j + 1])
    decreases |verdicts| - pos
  {
    WalkShape(n, verdicts, pos, cur, first);
    if PyIndexOk(n, cur) && pos < |verdicts| {
      assert verdicts[pos..][0] == verdicts[pos];
      assert verdicts[pos..][1..] == verdicts[pos + 1..];
      var w := WalkFrom(n, verdicts, pos, cur, first);
      match verdicts[pos]
      case None =>
        WalkSteps(n, verdicts, pos + 1, cur, first);
        WalkShape(n, verdicts, pos + 1, cur, first);
        FirstConclusiveSkipsNone(verdicts[pos..]);
        var w' := WalkFrom(n, verdicts, pos + 1, cur, first);
        forall j | 1 <= j < |w.probes| - 1
          ensures TraceStep(verdicts[pos + j], Direction(first, verdicts[pos..]), w.probes[j], w.probes[j + 1])
        {
          assert w.probes[j] == w'.probes[j - 1] && w.probes[j + 1] == w'.probes[j];
          assert verdicts[pos + j] == verdicts[pos + 1 + (j - 1)];
        }
      case Some(isWin) =>
        var direction := if first.Some? then first.value else isWin;
        var next := cur + Step(direction);
        if direction == isWin && next != 0 && next != n - 1 {
          WalkSteps(n, verdicts, pos + 1, next, Some(direction));
          WalkShape(n, verdicts, pos + 1, next, Some(direction));
          var w' := WalkFrom(n, verdicts, pos + 1, next, Some(direction));
          forall j | 1 <= j < |w.probes| - 1
            ensures TraceStep(verdicts[pos + j], Direction(first, verdicts[pos..]), w.probes[j], w.probes[j + 1])
          {
            assert w.probes[j] == w'.probes[j - 1] && w.probes[j + 1] == w'.probes[j];
            assert verdicts[pos + j] == verdicts[pos + 1 + (j - 1)];
          }
        }
    }
  }

  /** The direction the verdicts from `pos` on fix: an inconclusive verdict
      leaves it to the rest, a conclusive one fixes it unless it is fixed. */
  lemma DirectionAt(first: Option<bool>, verdicts: seq<Option<bool>>, pos: nat)
    requires pos < |verdicts|
    ensures verdicts[pos].None? ==> Direction(first, verdicts[pos..]) == Direction(first, verdicts[pos + 1..])
    ensures verdicts[pos].Some? ==>
      Direction(first, verdicts[pos..]) == Some(if first.Some? then first.value else verdicts[pos].value)
  {
    assert verdicts[pos..][0] == verdicts[pos];
    assert verdicts[pos..][1..] == verdicts[pos + 1..];
  }

  /** How a walk `w` from verdict `pos` that returns a rank ends, given the
      direction `d`: on a conclusive verdict that either disagrees with `d`,
      and the rank is the index it was asked at, or agrees and lands on index
      0 or n - 1, which is returned without being compared. */
  predicate RankedEnding(n: int, verdicts: seq<Option<bool>>, pos: nat, d: Option<bool>, w: Walk)
  {
    w.end.Ranked? ==>
      && 0 < |w.probes| && pos + |w.probes| <= |verdicts|
      && verdicts[pos + |w.probes| - 1].Some? && d.Some?
      && (|| (verdicts[pos + |w.probes| - 1].value != d.value && w.end.rank == w.probes[|w.probes| - 1])
          || (verdicts[pos + |w.probes| - 1].value == d.value
              && w.end.rank == w.probes[|w.probes| - 1] + Step(d.value)
              && (w.end.rank == 0 || w.end.rank == n - 1)))
  }

  /** An inconclusive-or-agreeing verdict at `pos` before a walk keeps how it ends. */
  lemma RankedEndingPrepend(n: int, verdicts: seq<Option<bool>>, pos: nat, d: Option<bool>, cur: int, w: Walk)
    requires RankedEnding(n, verdicts, pos + 1, d, w)
    ensures RankedEnding(n, verdicts, pos, d, Prepend(cur, w))
  {
    var w' := Prepend(cur, w);
    if w.end.Ranked? {
      var k := |w.probes| - 1;
      assert |w'.probes| - 1 == k + 1 && pos + (k + 1) == pos + 1 + k;
      assert w'.probes[k + 1] == w.probes[k];
    }
  }

  /** Every walk that returns a rank ends as `RankedEnding` says, in the
      direction the verdicts fix. */
  lemma {:induction false} WalkEnding(n: int, verdicts: seq<Option<bool>>, pos: nat, cur: int, first: Option<bool>)
    requires pos <= |verdicts|
    ensures RankedEnding(n, verdicts, pos, Direction(first, verdicts[pos..]), WalkFrom(n, verdicts, pos, cur, first))
    decreases |verdicts| - pos
  {
    if PyIndexOk(n, cur) && pos < |verdicts| {
      DirectionAt(first, verdicts, pos);
      var d := Direction(first, verdicts[pos..]);
      match verdicts[pos]
      case None =>
        WalkEnding(n, verdicts, pos + 1, cur, first);
        RankedEndingPrepend(n, verdicts, pos, d, cur, WalkFrom(n, verdicts, pos + 1, cur, first));
      case Some(isWin) =>
        var direction := if first.Some? then first.value else isWin;
        var next := cur + Step(direction);
        if direction == isWin && next != 0 && next != n - 1 {
          WalkEnding(n, verdicts, pos + 1, next, Some(direction));
          RankedEndingPrepend(n, verdicts, pos, d, cur, WalkFrom(n, verdicts, pos + 1, next, Some(direction)));
        }
    }
  }

  /** A walk that stays inside a list of `n` names: it never indexes out of
      range, every comparison is at an index in [1, n - 2], and a returned
      rank lies in [0, n - 1]. */
  predicate Inside(n: int, w: Walk)
  {
    && !w.end.IndexOutOfRange?
    && (forall j :: 0 <= j < |w.probes| ==> 1 <= w.probes[j] <= n - 2)
    && (w.end.Ranked? ==> 0 <= w.end.rank <= n - 1)
  }

  /** A comparison at an inner index before a walk that stays inside keeps it inside. */
  lemma InsidePrepend(n: int, cur: int, w: Walk)
    requires Inside(n, w) && 1 <= cur <= n - 2
    ensures Inside(n, Prepend(cur, w))
  {
    var w' := Prepend(cur, w);
    forall j | 1 <= j < |w'.probes|
      ensures 1 <= w'.probes[j] <= n - 2
    {
      assert w'.probes[j] == w.probes[j - 1];
    }
  }

  /** How many conclusive verdicts a walk from `cur` can use: the distance
      to the end it walks towards, or to the farther end while undecided. */
  function Reach(n: int, cur: int, first: Option<bool>): int
  {
    if first == Some(true) then cur
    else if first == Some(false) then n - 1 - cur
    else if cur < n - 1 - cur then n - 1 - cur else cur
  }

  /** From an index strictly inside the list, the walk never leaves the list
      and uses no more verdicts than there are. */
  lemma {:induction false} WalkInside(n: int, verdicts: seq<Option<bool>>, pos: nat, cur: int, first: Option<bool>)
    requires pos <= |verdicts| && 1 <= cur <= n - 2
    ensures pos + |WalkFrom(n, verdicts, pos, cur, first).probes| <= |verdicts|
    ensures Inside(n, WalkFrom(n, verdicts, pos, cur, first))
    decreases |verdicts| - pos
  {
    var w := WalkFrom(n, verdicts, pos, cur, first);
    if pos < |verdicts| {
      match verdicts[pos]
      case None =>
        var w' := WalkFrom(n, verdicts, pos + 1, cur, first);
        WalkInside(n, verdicts, pos + 1, cur, first);
        assert w == Prepend(cur, w');
        InsidePrepend(n, cur, w');
      case Some(isWin) =>
        var direction := if first.Some? then first.value else isWin;
        var next := cur + Step(direction);
        if direction == isWin && next != 0 && next != n - 1 {
          var w' := WalkFrom(n, verdicts, pos + 1, next, Some(direction));
          WalkInside(n, verdicts, pos + 1, next, Some(direction));
          assert w == Prepend(cur, w');
          InsidePrepend(n, cur, w');
        }
    }
  }

  /** From an index strictly inside the list, the number of conclusive
      verdicts the walk uses is at most its `Reach`. */
  lemma {:induction false} WalkReach(n: int, verdicts: seq<Option<bool>>, pos: nat, cur: int, first: Option<bool>)
    requires pos <= |verdicts| && 1 <= cur <= n - 2
    requires pos + |WalkFrom(n, verdicts, pos, cur, first).probes| <= |verdicts|
    ensures Conclusive(verdicts, pos, pos + |WalkFrom(n, verdicts, pos, cur, first).probes|) <= Reach(n, cur, first)
    decreases |verdicts| - pos
  {
    var w := WalkFrom(n, verdicts, pos, cur, first);
    if pos < |verdicts| {
      match verdicts[pos]
      case None =>
        var w' := WalkFrom(n, verdicts, pos + 1, cur, first);
        assert w == Prepend(cur, w');
        WalkReach(n, verdicts, pos + 1, cur, first);
      case Some(isWin) =>
        var direction := if first.Some? then first.value else isWin;
        var next := cur + Step(direction);
        if direction == isWin && next != 0 && next != n - 1 {
          var w' := WalkFrom(n, verdicts, pos + 1, next, Some(direction));
          assert w == Prepend(cur, w');
          WalkReach(n, verdicts, pos + 1, next, Some(direction));
          assert Reach(n, next, Some(direction)) + 1 <= Reach(n, cur, first);
        } else {
          assert w.probes == [cur];
        }
    }
  }

  /** For n >= 3, `find_rank` only ever compares against names that exist,
      returns a rank in [0, n - 1], and uses at most n - 2 conclusive verdicts
      (the distance from the median to the farther end). */
  lemma FindRankBounds(n: int, verdicts: seq<Option<bool>>)
    requires n >= 3
    ensures var w := FindRankWalk(n, verdicts);
      && !w.end.IndexOutOfRange?
      && (forall j :: 0 <= j < |w.probes| ==> 0 <= w.probes[j] < n)
      && (w.end.Ranked? ==> 0 <= w.end.rank < n)
      && |w.probes| <= |verdicts|
      && Conclusive(verdicts, 0, |w.probes|) <= n - 2
  {
    WalkInside(n, verdicts, 0, (n - 1) / 2, None);
    WalkReach(n, verdicts, 0, (n - 1) / 2, None);
  }

  /** With one or two ranked names the median is index 0, and a first win
      steps to index -1, which Python reads as the LAST name. */
  lemma SmallListFirstWinGoesNegative(n: int, verdicts: seq<Option<bool>>)
    requires 1 <= n <= 2 && |verdicts| >= 2 && verdicts[0] == Some(true)
    ensures |FindRankWalk(n, verdicts).probes| >= 2
    ensures FindRankWalk(n, verdicts).probes[1] == -1
  {
    var rest := WalkFrom(n, verdicts, 1, -1, Some(true));
    assert FindRankWalk(n, verdicts) == Prepend(0, rest);
    match verdicts[1]
    case None =>
    case Some(isWin) =>
  }

  /** A single ranked name cannot be walked past: a first loss steps to index
      1, past the end, and two wins step to index -2; a win then a loss
      returns rank -1. */
  lemma SingleNameWalks()
    ensures FindRankWalk(1, [Some(false)]) == Walk(IndexOutOfRange(1), [0])
    ensures FindRankWalk(1, [Some(true), Some(true)]) == Walk(IndexOutOfRange(-2), [0, -1])
    ensures FindRankWalk(1, [Some(true), Some(false)]) == Walk(Ranked(-1), [0, -1])
  {
  }

  // ---------------------------------------------------------------------
  // Where the walk lands, compared with where the name belongs.
  // ---------------------------------------------------------------------

  /** `beats(i)`: the new resume beats the ranked name at index i. The ranked
      list is consistent with the comparator when beating a name implies
      beating every worse-ranked name. */
  ghost predicate Monotone(beats: int -> bool, n: int)
  {
    forall i, j :: 0 <= i <= j < n && beats(i) ==> beats(j)
  }

  /** Inserting at `rank` keeps the list ordered: the new resume loses to
      every name before `rank` and beats every name from `rank` on. */
  ghost predicate IsInsertionPoint(beats: int -> bool, n: int, rank: int)
  {
    && 0 <= rank <= n
    && (forall i :: 0 <= i < rank ==> !beats(i))
    && (forall i :: rank <= i < n ==> beats(i))
  }

  /** The verdicts a consistent comparator gives at the indices probed. */
  ghost predicate Consistent(beats: int -> bool, w: Walk, verdicts: seq<Option<bool>>)
  {
    forall j :: 0 <= j < |w.probes| && j < |verdicts| && verdicts[j].Some? ==> verdicts[j].value == beats(w.probes[j])
  }

  /** Inserting "b" into a, m, z: the resume beats m and z but not a, so it
      belongs at index 1, yet `find_rank` wins at the median, steps onto
      index 0 and returns 0 without ever comparing against a. */
  lemma UnprobedEndExample()
    ensures FindRankWalk(3, [Some(true)]) == Walk(Ranked(0), [1])
    ensures Consistent(i => i >= 1, FindRankWalk(3, [Some(true)]), [Some(true)])
    ensures !IsInsertionPoint(i => i >= 1, 3, 0) && IsInsertionPoint(i => i >= 1, 3, 1)
  {
    var beats: int -> bool := i => i >= 1;
    assert !beats(0);
  }

  /** In the upward direction the walk returns the index of the name the
      resume first loses to, one better than the rank it has earned: with
      five names it wins at index 2, loses at index 1, and gets rank 1
      instead of 2. */
  lemma UpwardOffByOneExample()
    ensures FindRankWalk(5, [Some(true), Some(false)]) == Walk(Ranked(1), [2, 1])
    ensures Consistent(i => i >= 2, FindRankWalk(5, [Some(true), Some(false)]), [Some(true), Some(false)])
    ensures !IsInsertionPoint(i => i >= 2, 5, 1) && IsInsertionPoint(i => i >= 2, 5, 2)
  {
    var beats: int -> bool := i => i >= 2;
    assert !beats(1);
  }

  /** In the downward direction the last name is never compared: a resume
      that loses to everything among three names gets rank 2 instead of 3. */
  lemma LastPlaceExample()
    ensures FindRankWalk(3, [Some(false)]) == Walk(Ranked(2), [1])
    ensures !IsInsertionPoint(i => false, 3, 2) && IsInsertionPoint(i => false, 3, 3)
  {
    var beats: int -> bool := i => false;
    assert !beats(2);
  }

  /** The walk with its end cases repaired: it compares against every index
      it steps onto, stops at a genuine boundary, and in the upward direction
      returns the index after the name the resume loses to. Whatever the
      comparator, the result is a boundary (a loss just before it, a win at
      it); when the list is consistent with the comparator it is the one
      place that keeps the list ordered. */
  method FindRankCorrected(n: int, beats: int -> bool) returns (rank: int)
    requires n >= 1
    ensures 0 <= rank <= n
    ensures rank > 0 ==> !beats(rank - 1)
    ensures rank < n ==> beats(rank)
    ensures Monotone(beats, n) ==> IsInsertionPoint(beats, n, rank)
  {
    var median := (n - 1) / 2;
    var cur := median;
    if beats(cur) {
      while cur > 0 && beats(cur - 1)
        invariant 0 <= cur <= median
        invariant forall i :: cur <= i <= median ==> beats(i)
      {
        cur := cur - 1;
      }
    } else {
      cur := cur + 1;
      while cur < n && !beats(cur)
        invariant median < cur <= n
        invariant forall i :: median <= i < cur ==> !beats(i)
      {
        cur := cur + 1;
      }
    }
    rank := cur;
  }
}
