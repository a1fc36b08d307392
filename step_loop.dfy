/** A `for` loop over steps `i`, `i + 1`, ..., `n - 1` that threads a state
    through each step and stops at the first step that raises, together with
    what the loop writes to a log as it goes. The loop of `_play_matches` is
    one of these; stating it once, apart from what a step does, keeps the
    facts about the loop's shape apart from the facts about one match. */
module StepLoop {
  import opened Wrappers

  /** What the loop returns or raises from step `i` on, in state `s`. */
  function RunFrom<S>(step: (nat, S) -> Result<S>, n: nat, s: S, i: nat): Result<S>
    decreases n - i, 1
  {
    if i >= n then Ok(s) else RunTurn(step, n, s, i)
  }

  /** One turn of that loop: step `i`, then the rest unless it raised. */
  function RunTurn<S>(step: (nat, S) -> Result<S>, n: nat, s: S, i: nat): Result<S>
    requires i < n
    decreases n - i, 0
  {
    match step(i, s)
    case Err(e) => Err(e)
    case Ok(next) => RunFrom(step, n, next, i + 1)
  }

  /** What the loop logs from step `i` on: step `k` logs `logOf(k)` whether
      it goes on to raise or not. */
  function LogFrom<S, L>(step: (nat, S) -> Result<S>, logOf: nat -> seq<L>, n: nat, s: S, i: nat): seq<L>
    decreases n - i, 1
  {
    if i >= n then [] else LogTurn(step, logOf, n, s, i)
  }

  /** What one turn of the loop logs, then what the rest logs. */
  function LogTurn<S, L>(step: (nat, S) -> Result<S>, logOf: nat -> seq<L>, n: nat, s: S, i: nat): seq<L>
    requires i < n
    decreases n - i, 0
  {
    logOf(i) + match step(i, s)
               case Err(_) => []
               case Ok(next) => LogFrom(step, logOf, n, next, i + 1)
  }

  /** One turn of the loop, as the caller of a step sees it. */
  lemma Turn<S, L>(step: (nat, S) -> Result<S>, logOf: nat -> seq<L>, n: nat, s: S, i: nat)
    requires i < n
    ensures step(i, s).Err? ==> RunFrom(step, n, s, i) == Err(step(i, s).error)
    ensures step(i, s).Err? ==> LogFrom(step, logOf, n, s, i) == logOf(i)
    ensures step(i, s).Ok? ==> RunFrom(step, n, s, i) == RunFrom(step, n, step(i, s).value, i + 1)
    ensures step(i, s).Ok? ==> LogFrom(step, logOf, n, s, i) == logOf(i) + LogFrom(step, logOf, n, step(i, s).value, i + 1)
  {
    assert RunFrom(step, n, s, i) == RunTurn(step, n, s, i);
    assert LogFrom(step, logOf, n, s, i) == LogTurn(step, logOf, n, s, i);
  }

  /** When each step logs at most one entry, and exactly one when it goes
      through, the loop logs at most one entry per step it reaches, and one
      for every step when it completes. */
  lemma {:induction false} LogFromLength<S, L>(step: (nat, S) -> Result<S>, logOf: nat -> seq<L>, n: nat, s: S, i: nat)
    requires i <= n
    requires forall k :: i <= k < n ==> |logOf(k)| <= 1
    requires forall k, t :: i <= k < n && step(k, t).Ok? ==> |logOf(k)| == 1
    ensures |LogFrom(step, logOf, n, s, i)| <= n - i
    ensures RunFrom(step, n, s, i).Ok? ==> |LogFrom(step, logOf, n, s, i)| == n - i
    decreases n - i
  {
    if i < n {
      Turn(step, logOf, n, s, i);
      match step(i, s)
      case Err(_) =>
      case Ok(next) =>
        LogFromLength(step, logOf, n, next, i + 1);
    }
  }

  /** Under the same assumptions, entry `k - i` of the log is the entry of
      step `k`: the log is in step order, with nothing skipped. */
  lemma {:induction false} LogFromAt<S, L>(step: (nat, S) -> Result<S>, logOf: nat -> seq<L>, n: nat, s: S, i: nat, k: nat)
    requires i <= n
    requires forall j :: i <= j < n ==> |logOf(j)| <= 1
    requires forall j, t :: i <= j < n && step(j, t).Ok? ==> |logOf(j)| == 1
    requires i <= k < i + |LogFrom(step, logOf, n, s, i)|
    ensures k < n && logOf(k) == [LogFrom(step, logOf, n, s, i)[k - i]]
    decreases k - i
  {
    var log := LogFrom(step, logOf, n, s, i);
    var head := logOf(i);
    Turn(step, logOf, n, s, i);
    if k == i && |head| > 0 {
      assert log[0] == head[0] && head == [head[0]];
    } else {
      match step(i, s)
      case Err(_) =>
        assert false;
      case Ok(next) =>
        var rest := LogFrom(step, logOf, n, next, i + 1);
        assert log == head + rest;
        LogFromAt(step, logOf, n, next, i + 1, k);
        assert log[k - i] == rest[k - (i + 1)];
    }
  }
}
