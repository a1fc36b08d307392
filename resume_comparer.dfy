/** `LLMResumeComparer` (resume_comparer.py): the bookkeeping around one LLM
    comparison of two resume images. The two files sit in slots "Resume A"
    and "Resume B"; before each call the slots are swapped on a coin flip,
    and `A_is_1` records which slot holds the first argument so that the
    comparison can report it under `resume1`. The model's answer is reduced
    to a winner label by looking for "prefer resume a" / "prefer resume b".
    The coin of `randint(0, 1)` and the model's response text are
    parameters; image data, the prompt and the API call are not modelled. */
module ResumeComparer {
  import opened Wrappers
  import opened Text

  /** A slot of `current_resumes`: the file and its media subtype. */
  datatype Slot = Slot(filename: string, imageType: string)

  /** `current_resumes`: what sits in "Resume A" and in "Resume B". */
  datatype Resumes = Resumes(a: Slot, b: Slot)

  /** The dict `compare_resumes_with_llm` returns. */
  datatype Comparison = Comparison(resumeA: string, resumeB: string, winner: Option<string>, resume1: string, claudeResponse: string)

  // ---------------------------------------------------------------------
  // The pure rules.
  // ---------------------------------------------------------------------

  /** The image type of `construct_resumes_dict`: "jpeg" when the second
      `.`-separated field is "jpg", "png" otherwise; IndexError when the name
      has no `.`. */
  function ImageType(filename: string): (r: Result<string>)
    ensures r.Ok? ==> r.value in {"jpeg", "png"}
  {
    var fields := Split(filename, '.');
    if |fields| < 2 then Err(IndexError)
    else if fields[1] == "jpg" then Ok("jpeg")
    else Ok("png")
  }

  /** The winner label read from the model's answer. */
  function ParseWinner(text: string): (winner: Option<string>)
    ensures winner.Some? ==> winner.value in {"Resume A", "Resume B"}
  {
    var lowered := Lower(text);
    if Contains(lowered, "prefer resume a") then Some("Resume A")
    else if Contains(lowered, "prefer resume b") then Some("Resume B")
    else None
  }

  /** The label `resume1` reports. */
  function Label(aIs1: bool): string
  {
    if aIs1 then "Resume A" else "Resume B"
  }

  function OtherLabel(name: string): string
  {
    if name == "Resume A" then "Resume B" else "Resume A"
  }

  /** The file a comparison shows in the slot a label names. */
  function SlotFile(c: Comparison, name: string): string
  {
    if name == "Resume A" then c.resumeA else c.resumeB
  }

  /** A dict lookup `comparison[key]` on the five keys the comparer returns. */
  function Lookup(c: Comparison, key: string): Result<Option<string>>
  {
    if key == "Resume A" then Ok(Some(c.resumeA))
    else if key == "Resume B" then Ok(Some(c.resumeB))
    else if key == "winner" then Ok(c.winner)
    else if key == "resume1" then Ok(Some(c.resume1))
    else if key == "claude_response" then Ok(Some(c.claudeResponse))
    else Err(KeyError(key))
  }

  /** The first argument wins the comparison. */
  predicate IsWin(c: Comparison)
  {
    c.winner == Some(c.resume1)
  }

  // ---------------------------------------------------------------------
  // The slot state, as functions of the coin flips and responses.
  // ---------------------------------------------------------------------

  /** `current_resumes` after `construct_resumes_dict(resume1, resume2)`. */
  function Constructed(resume1: string, resume2: string): Result<Resumes>
  {
    match ImageType(resume1)
    case Err(e) => Err(e)
    case Ok(type1) =>
      match ImageType(resume2)
      case Err(e) => Err(e)
      case Ok(type2) => Ok(Resumes(Slot(resume1, type1), Slot(resume2, type2)))
  }

  /** The slots and `A_is_1` after `randomise_resumes` with coin `flip`. */
  function Randomised(resumes: Resumes, aIs1: bool, flip: bool): (Resumes, bool)
  {
    if flip then (Resumes(resumes.b, resumes.a), !aIs1) else (resumes, aIs1)
  }

  /** The comparison one call reports, from the slots before it. */
  function Compared(resumes: Resumes, aIs1: bool, flip: bool, text: string): Comparison
  {
    var (shown, shownAIs1) := Randomised(resumes, aIs1, flip);
    Comparison(shown.a.filename, shown.b.filename, ParseWinner(text), Label(shownAIs1), text)
  }

  /** The slots after a run of calls, each with its coin and response. */
  function StateAfter(resumes: Resumes, aIs1: bool, script: seq<(bool, string)>): (Resumes, bool)
  {
    if |script| == 0 then (resumes, aIs1)
    else
      var (before, beforeAIs1) := StateAfter(resumes, aIs1, script[..|script| - 1]);
      Randomised(before, beforeAIs1, script[|script| - 1].0)
  }

  /** The comparisons a run of calls reports, in order. */
  function Replay(resumes: Resumes, aIs1: bool, script: seq<(bool, string)>): (cs: seq<Comparison>)
    ensures |cs| == |script|
  {
    if |script| == 0 then []
    else
      var prefix := script[..|script| - 1];
      var (before, beforeAIs1) := StateAfter(resumes, aIs1, prefix);
      Replay(resumes, aIs1, prefix) + [Compared(before, beforeAIs1, script[|script| - 1].0, script[|script| - 1].1)]
  }

  /** The number of comparisons the first argument won. */
  function Wins(cs: seq<Comparison>): (wins: nat)
    ensures wins <= |cs|
  {
    if |cs| == 0 then 0
    else Wins(cs[..|cs| - 1]) + (if IsWin(cs[|cs| - 1]) then 1 else 0)
  }

  function Losses(cs: seq<Comparison>): nat
  {
    |cs| - Wins(cs)
  }

  /** `A_is_1` tells where the two arguments are: the first in "Resume A"
      and the second in "Resume B" when it holds, the other way round when
      it does not. */
  predicate Tracks(resumes: Resumes, aIs1: bool, first: string, second: string)
  {
    if aIs1 then resumes.a.filename == first && resumes.b.filename == second
    else resumes.a.filename == second && resumes.b.filename == first
  }

  // ---------------------------------------------------------------------
  // Properties of the rules.
  // ---------------------------------------------------------------------

  /** The image type depends only on the field after the first `.`: with a
      stem free of dots, "jpg" there gives "jpeg" and anything else "png";
      a name with no dot raises IndexError. */
  lemma ImageTypeOfField(stem: string, rest: string)
    requires '.' !in stem
    ensures ImageType(stem + "." + rest) == Ok(if Split(rest, '.')[0] == "jpg" then "jpeg" else "png")
    ensures ImageType(stem) == Err(IndexError)
  {
    SplitAtFirst(stem, '.', rest);
    SplitNone(stem, '.');
  }

  /** A ".jpg" name is sent as "jpeg". */
  lemma JpgIsJpeg()
    ensures ImageType("resume.jpg") == Ok("jpeg")
  {
    assert "resume.jpg" == "resume" + "." + "jpg";
    ImageTypeOfField("resume", "jpg");
    SplitNone("jpg", '.');
  }

  /** Only the second field counts: "cv.v2.jpg" is sent as "png". */
  lemma SecondFieldDecides()
    ensures ImageType("cv.v2.jpg") == Ok("png")
  {
    assert "cv.v2.jpg" == "cv" + "." + "v2.jpg";
    ImageTypeOfField("cv", "v2.jpg");
    assert "v2.jpg" == "v2" + "." + "jpg";
    SplitAtFirst("v2", '.', "jpg");
  }

  lemma LowerConcat(s: string, t: string)
    ensures Lower(s + t) == Lower(s) + Lower(t)
  {
    assert forall i :: 0 <= i < |s + t| ==> Lower(s + t)[i] == (Lower(s) + Lower(t))[i];
  }

  /** Where `Contains` finds `sub`. */
  lemma {:induction false} ContainsOffset(s: string, sub: string) returns (k: nat)
    requires Contains(s, sub)
    ensures k + |sub| <= |s| && s[k..k + |sub|] == sub
  {
    if sub <= s {
      k := 0;
    } else {
      var j := ContainsOffset(s[1..], sub);
      k := j + 1;
      assert s[k..k + |sub|] == s[1..][j..j + |sub|];
    }
  }

  /** `Contains(s + t, sub)` where `sub` ends with a character `t` does
      not hold: the occurrence lies in `s`. */
  lemma ContainsInPrefix(s: string, t: string, sub: string)
    requires |sub| > 0 && sub[|sub| - 1] !in t
    requires Contains(s + t, sub)
    ensures Contains(s, sub)
  {
    var k := ContainsOffset(s + t, sub);
    if k + |sub| <= |s| {
      assert s[k..k + |sub|] == (s + t)[k..k + |sub|];
      ContainsAt(s, sub, k);
    } else {
      assert false;
    }
  }

  /** `s + t` contains `sub` when `t` ends with it. */
  lemma ContainsSuffix(s: string, t: string, sub: string)
    requires |sub| <= |t| && t[|t| - |sub|..] == sub
    ensures Contains(s + t, sub)
  {
    var st := s + t;
    assert st[|st| - |sub|..] == t[|t| - |sub|..];
    ContainsAt(st, sub, |st| - |sub|);
  }

  lemma LowerFinalLines()
    ensures Lower("I prefer Resume A") == "i prefer resume a"
    ensures Lower("I prefer Resume B") == "i prefer resume b"
  {
  }

  /** The lowered last line for B has no letter "a" in it. */
  lemma LineBLacksA()
    ensures 'a' !in "i prefer resume b"
  {
  }

  /** The answer format the prompt asks for: a last line "I prefer Resume
      A" reports "Resume A" whatever comes before it. */
  lemma FinalLineA(analysis: string)
    ensures ParseWinner(analysis + "I prefer Resume A") == Some("Resume A")
  {
    LowerConcat(analysis, "I prefer Resume A");
    LowerFinalLines();
    ContainsSuffix(Lower(analysis), "i prefer resume a", "prefer resume a");
  }

  /** A last line "I prefer Resume B" reports "Resume B" unless the text
      before it already says "prefer resume a". */
  lemma FinalLineB(analysis: string)
    ensures !Contains(Lower(analysis), "prefer resume a") ==>
      ParseWinner(analysis + "I prefer Resume B") == Some("Resume B")
  {
    LowerConcat(analysis, "I prefer Resume B");
    LowerFinalLines();
    LineBLacksA();
    var line := "i prefer resume b";
    ContainsSuffix(Lower(analysis), line, "prefer resume b");
    if !Contains(Lower(analysis), "prefer resume a") && Contains(Lower(analysis) + line, "prefer resume a") {
      ContainsInPrefix(Lower(analysis), line, "prefer resume a");
    }
  }

  /** Randomising keeps `A_is_1` telling where the arguments are, and every
      comparison reports under `resume1` the slot holding the first
      argument, the other slot holding the second. */
  lemma ComparedLabels(resumes: Resumes, aIs1: bool, flip: bool, text: string, first: string, second: string)
    requires Tracks(resumes, aIs1, first, second)
    ensures Tracks(Randomised(resumes, aIs1, flip).0, Randomised(resumes, aIs1, flip).1, first, second)
    ensures var c := Compared(resumes, aIs1, flip, text);
      && c.resume1 in {"Resume A", "Resume B"}
      && SlotFile(c, c.resume1) == first
      && SlotFile(c, OtherLabel(c.resume1)) == second
  {
  }

  /** `c` reports under `resume1` the slot holding `first`, the other slot
      holding `second`. */
  predicate LabelsFirst(c: Comparison, first: string, second: string)
  {
    SlotFile(c, c.resume1) == first && SlotFile(c, OtherLabel(c.resume1)) == second
  }

  /** Over any run of calls, the swap invariant holds after every call and
      every reported comparison labels the first argument correctly. */
  lemma {:induction false} ReplayLabels(resumes: Resumes, aIs1: bool, script: seq<(bool, string)>, first: string, second: string)
    requires Tracks(resumes, aIs1, first, second)
    ensures Tracks(StateAfter(resumes, aIs1, script).0, StateAfter(resumes, aIs1, script).1, first, second)
    ensures forall j :: 0 <= j < |script| ==> LabelsFirst(Replay(resumes, aIs1, script)[j], first, second)
  {
    if |script| > 0 {
      var prefix := script[..|script| - 1];
      ReplayLabels(resumes, aIs1, prefix, first, second);
      var (before, beforeAIs1) := StateAfter(resumes, aIs1, prefix);
      var last := Compared(before, beforeAIs1, script[|script| - 1].0, script[|script| - 1].1);
      ComparedLabels(before, beforeAIs1, script[|script| - 1].0, script[|script| - 1].1, first, second);
      assert LabelsFirst(last, first, second);
      var cs := Replay(resumes, aIs1, script);
      var earlier := Replay(resumes, aIs1, prefix);
      assert cs == earlier + [last];
      forall j | 0 <= j < |cs|
        ensures LabelsFirst(cs[j], first, second)
      {
        if j < |earlier| {
          assert cs[j] == earlier[j];
        } else {
          assert cs[j] == last;
        }
      }
    }
  }

  /** When the two files differ, the first argument wins a comparison
      exactly when the winner label names the slot that holds it. */
  lemma WinMeansFirstArgumentWon(c: Comparison, first: string, second: string)
    requires c.resume1 in {"Resume A", "Resume B"} && first != second
    requires c.winner.Some? ==> c.winner.value in {"Resume A", "Resume B"}
    requires SlotFile(c, c.resume1) == first && SlotFile(c, OtherLabel(c.resume1)) == second
    ensures IsWin(c) <==> c.winner.Some? && SlotFile(c, c.winner.value) == first
  {
  }

  /** `best_of_n` reads `comparison['to_be_ranked_resume']`, a key no
      comparison has: every lookup of it raises KeyError. */
  lemma ToBeRankedKeyMissing(c: Comparison)
    ensures Lookup(c, "to_be_ranked_resume") == Err(KeyError("to_be_ranked_resume"))
    ensures Lookup(c, "resume1") == Ok(Some(c.resume1)) && Lookup(c, "winner") == Ok(c.winner)
  {
  }

  /** Neither side of `cs`, nor of any prefix of it, has `need` results. */
  ghost predicate Undecided(cs: seq<Comparison>, need: int)
  {
    && Wins(cs) < need && Losses(cs) < need
    && (|cs| == 0 || Undecided(cs[..|cs| - 1], need))
  }

  /** `Undecided` speaks of every prefix. */
  lemma {:induction false} UndecidedPrefixes(cs: seq<Comparison>, need: int, k: nat)
    requires k <= |cs|
    ensures Undecided(cs, need) ==> Wins(cs[..k]) < need && Losses(cs[..k]) < need
    decreases |cs|
  {
    if k < |cs| && Undecided(cs, need) {
      var prefix := cs[..|cs| - 1];
      UndecidedPrefixes(prefix, need, k);
      assert prefix[..k] == cs[..k];
    } else if k == |cs| {
      assert cs[..k] == cs;
    }
  }

  /** What `best_of_n(n, ...)` reports after the comparisons `cs`: nothing,
      only when `n` is negative and nothing was compared; otherwise the last
      comparison, which gave its side `(n + 1) // 2` results when no earlier
      prefix had. */
  ghost predicate Reported(n: int, cs: seq<Comparison>, verdict: Option<Comparison>)
  {
    var need := (n + 1) / 2;
    match verdict
    case None => n < 0 && |cs| == 0
    case Some(c) =>
      && |cs| > 0 && c == cs[|cs| - 1]
      && Undecided(cs[..|cs| - 1], need)
      && (if IsWin(c) then Wins(cs) == need else Losses(cs) == need)
  }

  /** How a `best_of_n` run that made the comparisons `cs` can end: with
      the verdict `Reported` describes, out of script while still undecided,
      or with the comparer's own error before any comparison. */
  ghost predicate Outcome(n: int, cs: seq<Comparison>, r: Result<Option<Comparison>>, scriptEnded: bool)
  {
    match r
    case Ok(verdict) => Reported(n, cs, verdict)
    case Err(e) => if e == ScriptExhausted then scriptEnded && Undecided(cs, (n + 1) / 2) else |cs| == 0
  }

  /** The call counters after `k` more calls of `model`: counted only when
      the model has a counter (otherwise the first call raises). */
  function Counted(calls: map<string, int>, model: string, k: nat): map<string, int>
  {
    if model in calls then calls[model := calls[model] + k] else calls
  }

  /** One more call adds one to the model's counter. */
  lemma CountedStep(calls: map<string, int>, model: string, k: nat)
    requires model in calls
    ensures model in Counted(calls, model, k)
    ensures Counted(calls, model, k)[model := Counted(calls, model, k)[model] + 1] == Counted(calls, model, k + 1)
  {
    UpdateTwice(calls, model, calls[model] + k, calls[model] + k + 1);
  }

  /** `k` calls and then `j` more count as `k + j`. */
  lemma CountedMore(calls: map<string, int>, model: string, k: nat, j: nat)
    requires model in calls
    ensures Counted(Counted(calls, model, k), model, j) == Counted(calls, model, k + j)
  {
    UpdateTwice(calls, model, calls[model] + k, calls[model] + k + j);
  }

  /** No calls, no change. */
  lemma CountedNone(calls: map<string, int>, model: string)
    ensures Counted(calls, model, 0) == calls
  {
    if model in calls {
      UpdateSame(calls, model);
    }
  }

  /** Two updates of one key: the second one wins. */
  lemma UpdateTwice(m: map<string, int>, key: string, first: int, second: int)
    ensures m[key := first][key := second] == m[key := second]
  {
  }

  /** Writing back a key's own value changes nothing. */
  lemma UpdateSame(m: map<string, int>, key: string)
    requires key in m
    ensures m[key := m[key]] == m
  {
  }

  lemma WinsAppend(cs: seq<Comparison>, c: Comparison)
    ensures Wins(cs + [c]) == Wins(cs) + (if IsWin(c) then 1 else 0)
    ensures Losses(cs + [c]) == Losses(cs) + (if IsWin(c) then 0 else 1)
  {
    assert (cs + [c])[..|cs|] == cs;
  }

  lemma UndecidedAppend(cs: seq<Comparison>, c: Comparison, need: int)
    requires Undecided(cs, need)
    requires Wins(cs + [c]) < need && Losses(cs + [c]) < need
    ensures Undecided(cs + [c], need)
  {
    assert (cs + [c])[..|cs|] == cs;
  }

  /** One more call extends the replay by the comparison it reports. */
  lemma ReplayStep(resumes: Resumes, aIs1: bool, script: seq<(bool, string)>, k: nat)
    requires k < |script|
    ensures var (before, beforeAIs1) := StateAfter(resumes, aIs1, script[..k]);
      && StateAfter(resumes, aIs1, script[..k + 1]) == Randomised(before, beforeAIs1, script[k].0)
      && Replay(resumes, aIs1, script[..k + 1])
         == Replay(resumes, aIs1, script[..k]) + [Compared(before, beforeAIs1, script[k].0, script[k].1)]
  {
    assert script[..k + 1][..k] == script[..k];
  }

  /** The comparison that brings its side to `need` results, after an
      undecided run, is the verdict reported. */
  lemma ReportedDecision(n: int, before: seq<Comparison>, c: Comparison)
    requires Undecided(before, (n + 1) / 2)
    requires if IsWin(c) then Wins(before) + 1 == (n + 1) / 2 else Losses(before) + 1 == (n + 1) / 2
    ensures Reported(n, before + [c], Some(c))
  {
    WinsAppend(before, c);
    assert (before + [c])[..|before|] == before;
  }

  /** Replaying a prefix of the script gives a prefix of the replay. */
  lemma {:induction false} ReplayPrefix(resumes: Resumes, aIs1: bool, script: seq<(bool, string)>, k: nat)
    requires k <= |script|
    ensures Replay(resumes, aIs1, script[..k]) == Replay(resumes, aIs1, script)[..k]
    decreases |script|
  {
    if k < |script| {
      var prefix := script[..|script| - 1];
      ReplayPrefix(resumes, aIs1, prefix, k);
      assert prefix[..k] == script[..k];
    } else {
      assert script[..k] == script;
    }
  }

  /** For odd n >= 1, `best_of_n` decides within n comparisons: a run that
      has not decided after n comparisons does not exist. */
  lemma OddMajority(n: int, cs: seq<Comparison>)
    requires n >= 1 && n % 2 == 1 && |cs| >= n
    ensures !Undecided(cs, (n + 1) / 2)
  {
    UndecidedPrefixes(cs, (n + 1) / 2, n);
  }

  /** An undecided run of odd n >= 1 is shorter than n. */
  lemma UndecidedShort(n: int, cs: seq<Comparison>)
    requires n >= 1 && n % 2 == 1 && Undecided(cs, (n + 1) / 2)
    ensures |cs| < n
  {
    if |cs| >= n {
      OddMajority(n, cs);
    }
  }

  /** A reported verdict comes after at least one and at most n comparisons. */
  lemma ReportedWithinN(n: int, cs: seq<Comparison>, c: Comparison)
    requires n % 2 == 1 && Reported(n, cs, Some(c))
    ensures n >= 1 && 1 <= |cs| <= n
  {
    var prefix := cs[..|cs| - 1];
    WinsAppend(prefix, c);
    assert cs == prefix + [c];
  }

  /** The loop of `best_of_n` over the comparisons `cs` its calls report,
      from iteration `k` with the tallies so far: the result and the number
      of comparisons made. The loop runs while `k < n`; the comparison that
      brings its side to `(n + 1) // 2` results is the one the loop has just
      stored as that side's comparison, and is returned. */
  function VoteFrom(n: int, cs: seq<Comparison>, k: nat, wins: int, losses: int): (Result<Option<Comparison>>, nat)
    requires k <= |cs|
    decreases |cs| - k
  {
    if k >= n then (Ok(None), k)
    else if k == |cs| then (Err(ScriptExhausted), k)
    else if IsWin(cs[k]) then
      if wins + 1 == (n + 1) / 2 then (Ok(Some(cs[k])), k + 1)
      else VoteFrom(n, cs, k + 1, wins + 1, losses)
    else
      if losses + 1 == (n + 1) / 2 then (Ok(Some(cs[k])), k + 1)
      else VoteFrom(n, cs, k + 1, wins, losses + 1)
  }

  /** `best_of_n`'s loop from its start. */
  function Vote(n: int, cs: seq<Comparison>): (Result<Option<Comparison>>, nat)
  {
    VoteFrom(n, cs, 0, 0, 0)
  }

  /** The comparison at `k` that brings its side to `need` results is
      reported. */
  lemma VoteStepDecides(n: int, cs: seq<Comparison>, k: nat)
    requires k < |cs| && Undecided(cs[..k], (n + 1) / 2)
    requires if IsWin(cs[k]) then Wins(cs[..k]) + 1 == (n + 1) / 2 else Losses(cs[..k]) + 1 == (n + 1) / 2
    ensures Reported(n, cs[..k + 1], Some(cs[k]))
  {
    assert cs[..k + 1] == cs[..k] + [cs[k]];
    ReportedDecision(n, cs[..k], cs[k]);
  }

  /** The comparison at `k` counts for its side, and the run stays
      undecided while neither side reaches `need`. */
  lemma VoteStepCounts(cs: seq<Comparison>, k: nat, need: int)
    requires k < |cs| && Undecided(cs[..k], need)
    ensures Wins(cs[..k + 1]) == Wins(cs[..k]) + (if IsWin(cs[k]) then 1 else 0)
    ensures Losses(cs[..k + 1]) == Losses(cs[..k]) + (if IsWin(cs[k]) then 0 else 1)
    ensures Wins(cs[..k + 1]) < need && Losses(cs[..k + 1]) < need ==> Undecided(cs[..k + 1], need)
  {
    assert cs[..k + 1] == cs[..k] + [cs[k]];
    WinsAppend(cs[..k], cs[k]);
    if Wins(cs[..k + 1]) < need && Losses(cs[..k + 1]) < need {
      UndecidedAppend(cs[..k], cs[k], need);
    }
  }

  lemma {:induction false} VoteFromOutcome(n: int, cs: seq<Comparison>, k: nat, wins: int, losses: int)
    requires n % 2 != 0 && k <= |cs|
    requires wins == Wins(cs[..k]) && losses == Losses(cs[..k])
    requires if n > 0 then k < n && Undecided(cs[..k], (n + 1) / 2) else k == 0
    ensures k <= VoteFrom(n, cs, k, wins, losses).1 <= |cs|
    ensures Outcome(n, cs[..VoteFrom(n, cs, k, wins, losses).1], VoteFrom(n, cs, k, wins, losses).0,
                    VoteFrom(n, cs, k, wins, losses).1 == |cs|)
    decreases |cs| - k
  {
    var need := (n + 1) / 2;
    if k >= n || k == |cs| {
      VoteEnds(n, cs, k, wins, losses);
    } else if (IsWin(cs[k]) && wins + 1 == need) || (!IsWin(cs[k]) && losses + 1 == need) {
      VoteDecides(n, cs, k, wins, losses);
    } else {
      VoteGoesOn(n, cs, k, wins, losses);
      VoteFromOutcome(n, cs, k + 1, Wins(cs[..k + 1]), Losses(cs[..k + 1]));
    }
  }

  /** An iteration whose comparison decides nothing leaves the loop where
      the counts of one more comparison would start it, still undecided. */
  lemma VoteGoesOn(n: int, cs: seq<Comparison>, k: nat, wins: int, losses: int)
    requires n % 2 != 0 && 0 < n && k < n && k < |cs|
    requires wins == Wins(cs[..k]) && losses == Losses(cs[..k]) && Undecided(cs[..k], (n + 1) / 2)
    requires if IsWin(cs[k]) then wins + 1 != (n + 1) / 2 else losses + 1 != (n + 1) / 2
    ensures VoteFrom(n, cs, k, wins, losses) == VoteFrom(n, cs, k + 1, Wins(cs[..k + 1]), Losses(cs[..k + 1]))
    ensures k + 1 < n && Undecided(cs[..k + 1], (n + 1) / 2)
  {
    VoteStepCounts(cs, k, (n + 1) / 2);
    UndecidedShort(n, cs[..k + 1]);
  }

  /** The loop ends without a comparison: its count is used up (only for
      negative n, before any call) or the responses have run out while
      undecided. */
  lemma VoteEnds(n: int, cs: seq<Comparison>, k: nat, wins: int, losses: int)
    requires n % 2 != 0 && k <= |cs| && (k >= n || k == |cs|)
    requires if n > 0 then k < n && Undecided(cs[..k], (n + 1) / 2) else k == 0
    ensures VoteFrom(n, cs, k, wins, losses) == (if k >= n then Ok(None) else Err(ScriptExhausted), k)
    ensures Outcome(n, cs[..k], VoteFrom(n, cs, k, wins, losses).0, k == |cs|)
  {
    assert cs[..0] == [];
  }

  /** The iteration whose comparison brings its side to `(n + 1) // 2`
      results ends the loop with that comparison. */
  lemma VoteDecides(n: int, cs: seq<Comparison>, k: nat, wins: int, losses: int)
    requires n > 0 && k < n && k < |cs|
    requires wins == Wins(cs[..k]) && losses == Losses(cs[..k]) && Undecided(cs[..k], (n + 1) / 2)
    requires if IsWin(cs[k]) then wins + 1 == (n + 1) / 2 else losses + 1 == (n + 1) / 2
    ensures VoteFrom(n, cs, k, wins, losses) == (Ok(Some(cs[k])), k + 1)
    ensures Outcome(n, cs[..k + 1], Ok(Some(cs[k])), k + 1 == |cs|)
  {
    VoteStepDecides(n, cs, k);
  }

  /** What `best_of_n`'s loop reports over any comparisons, for odd n: the
      `Outcome` of the comparisons it made, and no more comparisons than
      there are. */
  lemma VoteOutcome(n: int, cs: seq<Comparison>)
    requires n % 2 != 0
    ensures Vote(n, cs).1 <= |cs|
    ensures Outcome(n, cs[..Vote(n, cs).1], Vote(n, cs).0, Vote(n, cs).1 == |cs|)
  {
    assert cs[..0] == [];
    VoteFromOutcome(n, cs, 0, 0, 0);
  }

  /** For odd n >= 1, `best_of_n`'s loop never falls out: unless the
      responses run out, it returns a comparison after between 1 and n of
      them. */
  lemma VoteWithinN(n: int, cs: seq<Comparison>)
    requires n >= 1 && n % 2 == 1
    ensures Vote(n, cs).0.Ok? ==> Vote(n, cs).0.value.Some? && 1 <= Vote(n, cs).1 <= n
  {
    VoteOutcome(n, cs);
    var (r, used) := Vote(n, cs);
    if r.Ok? && r.value.Some? {
      ReportedWithinN(n, cs[..used], r.value.value);
    }
  }

  // ---------------------------------------------------------------------
  // The comparer object.
  // ---------------------------------------------------------------------

  class Comparer {
    const model: string
    var numCalls: map<string, int>
    /** `None` until `construct_resumes_dict` has run. */
    var currentResumes: Option<Resumes>
    var aIs1: bool

    constructor(model: string)
      ensures this.model == model
      ensures numCalls == map["haiku" := 0, "sonnet" := 0]
      ensures currentResumes == None
    {
      this.model := model;
      numCalls := map["haiku" := 0, "sonnet" := 0];
      currentResumes := None;
      aIs1 := true;
    }

    /** `construct_resumes_dict`: both types are worked out before anything
        is stored, so a name without a `.` leaves the slots as they were. */
    method ConstructResumesDict(resume1: string, resume2: string) returns (raised: Option<Error>)
      modifies this`currentResumes, this`aIs1
      ensures Constructed(resume1, resume2).Err? ==>
        raised == Some(Constructed(resume1, resume2).error)
        && currentResumes == old(currentResumes) && aIs1 == old(aIs1)
      ensures Constructed(resume1, resume2).Ok? ==>
        raised == None && currentResumes == Some(Constructed(resume1, resume2).value) && aIs1
    {
      var imageType1 := ImageType(resume1);
      if imageType1.Err? {
        return Some(imageType1.error);
      }
      var imageType2 := ImageType(resume2);
      if imageType2.Err? {
        return Some(imageType2.error);
      }
      aIs1 := true;
      currentResumes := Some(Resumes(Slot(resume1, imageType1.value), Slot(resume2, imageType2.value)));
      raised := None;
    }

    /** `randomise_resumes` with the coin `flip`: on heads the slots swap
        and `A_is_1` flips with them. Only heads reads the slots, so tails
        changes nothing even before any slots exist. */
    method RandomiseResumes(flip: bool) returns (raised: Option<Error>)
      modifies this`currentResumes, this`aIs1
      ensures !flip ==> raised == None && currentResumes == old(currentResumes) && aIs1 == old(aIs1)
      ensures flip && old(currentResumes).None? ==>
        raised == Some(AttributeError("current_resumes")) && currentResumes == None && aIs1 == old(aIs1)
      ensures old(currentResumes).Some? ==>
        raised == None
        && currentResumes == Some(Randomised(old(currentResumes).value, old(aIs1), flip).0)
        && aIs1 == Randomised(old(currentResumes).value, old(aIs1), flip).1
    {
      if flip {
        if currentResumes.None? {
          return Some(AttributeError("current_resumes"));
        }
        var temp := currentResumes.value.a;
        currentResumes := Some(Resumes(currentResumes.value.b, temp));
        aIs1 := !aIs1;
      }
      raised := None;
    }

    /** `compare_resumes_with_llm` with coin `flip` and the model's answer
        `text`: the call is counted first, then the slots are randomised and
        the comparison reported. */
    method CompareResumesWithLlm(flip: bool, text: string) returns (r: Result<Comparison>)
      modifies this`numCalls, this`currentResumes, this`aIs1
      ensures model !in old(numCalls) ==>
        r == Err(KeyError(model)) && numCalls == old(numCalls)
        && currentResumes == old(currentResumes) && aIs1 == old(aIs1)
      ensures model in old(numCalls) ==> numCalls == old(numCalls)[model := old(numCalls)[model] + 1]
      ensures model in old(numCalls) && old(currentResumes).None? ==>
        r == Err(AttributeError("current_resumes")) && currentResumes == None && aIs1 == old(aIs1)
      ensures model in old(numCalls) && old(currentResumes).Some? ==>
        && r == Ok(Compared(old(currentResumes).value, old(aIs1), flip, text))
        && currentResumes == Some(Randomised(old(currentResumes).value, old(aIs1), flip).0)
        && aIs1 == Randomised(old(currentResumes).value, old(aIs1), flip).1
    {
      if model !in numCalls {
        return Err(KeyError(model));
      }
      numCalls := numCalls[model := numCalls[model] + 1];
      var raised := RandomiseResumes(flip);
      if raised.Some? {
        return Err(raised.value);
      }
      if currentResumes.None? {
        // Reading the media type of "Resume A" after a tails coin.
        return Err(AttributeError("current_resumes"));
      }
      var winner := ParseWinner(text);
      var shown := currentResumes.value;
      r := Ok(Comparison(shown.a.filename, shown.b.filename, winner, if aIs1 then "Resume A" else "Resume B", text));
    }

    /** `compare_resumes`: fresh slots for the two arguments, then one call.
        The reported `resume1` label names the slot of the first argument. */
    method CompareResumes(resume1: string, resume2: string, flip: bool, text: string) returns (r: Result<Comparison>)
      modifies this`numCalls, this`currentResumes, this`aIs1
      ensures Constructed(resume1, resume2).Err? ==> r == Err(Constructed(resume1, resume2).error)
      ensures Constructed(resume1, resume2).Ok? && model !in old(numCalls) ==> r == Err(KeyError(model))
      ensures numCalls == if Constructed(resume1, resume2).Ok? then Counted(old(numCalls), model, 1) else old(numCalls)
      ensures Constructed(resume1, resume2).Ok? && model in old(numCalls) ==>
        && r == Ok(Compared(Constructed(resume1, resume2).value, true, flip, text))
        && SlotFile(r.value, r.value.resume1) == resume1
        && SlotFile(r.value, OtherLabel(r.value.resume1)) == resume2
      ensures Constructed(resume1, resume2).Err? ==> currentResumes == old(currentResumes) && aIs1 == old(aIs1)
      ensures Constructed(resume1, resume2).Ok? && model !in old(numCalls) ==>
        currentResumes == Some(Constructed(resume1, resume2).value) && aIs1
      ensures Constructed(resume1, resume2).Ok? && model in old(numCalls) ==>
        && currentResumes == Some(Randomised(Constructed(resume1, resume2).value, true, flip).0)
        && aIs1 == Randomised(Constructed(resume1, resume2).value, true, flip).1
    {
      var raised := ConstructResumesDict(resume1, resume2);
      if raised.Some? {
        return Err(raised.value);
      }
      r := CompareResumesWithLlm(flip, text);
      ComparedLabels(Constructed(resume1, resume2).value, true, flip, text, resume1, resume2);
    }

    /** The slots are where the first `k` calls of `script` from `start` put them. */
    ghost predicate SlotsAfter(start: Resumes, script: seq<(bool, string)>, k: nat)
      requires k <= |script|
      reads this
    {
      currentResumes == Some(StateAfter(start, true, script[..k]).0) && aIs1 == StateAfter(start, true, script[..k]).1
    }

    /** The `k`-th call of a run from `start`: it reports the `k`-th
        comparison of the replay and leaves the slots where the replay has
        them. */
    method CompareNext(ghost start: Resumes, script: seq<(bool, string)>, k: nat) returns (r: Result<Comparison>)
      requires k < |script| && SlotsAfter(start, script, k)
      modifies this`numCalls, this`currentResumes, this`aIs1
      ensures model !in old(numCalls) ==>
        r == Err(KeyError(model)) && numCalls == old(numCalls) && SlotsAfter(start, script, k)
      ensures model in old(numCalls) ==>
        && numCalls == old(numCalls)[model := old(numCalls)[model] + 1]
        && r == Ok(Replay(start, true, script)[k])
        && SlotsAfter(start, script, k + 1)
    {
      ReplayStep(start, true, script, k);
      ReplayPrefix(start, true, script, k + 1);
      r := CompareResumesWithLlm(script[k].0, script[k].1);
    }

    /** `best_of_n(n, unranked, ranked)` as written: the first comparison is
        made and counted, and reading its `to_be_ranked_resume` key then
        raises KeyError, so no iteration ever gets as far as counting a win.
        A negative odd `n` runs no iteration and returns `None`. */
    method BestOfNAsWritten(n: int, unrankedFilename: string, rankedFilename: string, script: seq<(bool, string)>)
      returns (r: Result<Option<Comparison>>, used: nat)
      modifies this`numCalls, this`currentResumes, this`aIs1
      ensures n % 2 == 0 ==>
        r == Err(ValueError("n must be odd for best of n")) && used == 0 && numCalls == old(numCalls)
        && currentResumes == old(currentResumes) && aIs1 == old(aIs1)
      ensures n % 2 != 0 && Constructed(unrankedFilename, rankedFilename).Err? ==>
        r == Err(Constructed(unrankedFilename, rankedFilename).error) && used == 0 && numCalls == old(numCalls)
        && currentResumes == old(currentResumes) && aIs1 == old(aIs1)
      ensures n % 2 != 0 && Constructed(unrankedFilename, rankedFilename).Ok? && n < 0 ==>
        r == Ok(None) && used == 0 && numCalls == old(numCalls)
        && currentResumes == Some(Constructed(unrankedFilename, rankedFilename).value) && aIs1
      ensures n % 2 != 0 && 0 < n && Constructed(unrankedFilename, rankedFilename).Ok? && |script| == 0 ==>
        r == Err(ScriptExhausted) && used == 0 && numCalls == old(numCalls)
      ensures n % 2 != 0 && 0 < n && Constructed(unrankedFilename, rankedFilename).Ok? && 0 < |script| && model !in old(numCalls) ==>
        r == Err(KeyError(model)) && used == 0 && numCalls == old(numCalls)
      ensures n % 2 != 0 && 0 < n && Constructed(unrankedFilename, rankedFilename).Ok? && 0 < |script| && model in old(numCalls) ==>
        && r == Err(KeyError("to_be_ranked_resume")) && used == 1
        && numCalls == old(numCalls)[model := old(numCalls)[model] + 1]
        && SlotsAfter(Constructed(unrankedFilename, rankedFilename).value, script, 1)
    {
      used := 0;
      if n % 2 == 0 {
        return Err(ValueError("n must be odd for best of n")), used;
      }
      var raised := ConstructResumesDict(unrankedFilename, rankedFilename);
      if raised.Some? {
        return Err(raised.value), used;
      }
      if n < 0 {
        // `range(n)` is empty.
        return Ok(None), used;
      }
      // The first iteration of the `for` loop: it always raises.
      if |script| == 0 {
        return Err(ScriptExhausted), used;
      }
      ghost var start := currentResumes.value;
      assert script[..0] == [];
      var comparison := CompareNext(start, script, 0);
      if comparison.Err? {
        return Err(comparison.error), used;
      }
      used := 1;
      var toBeRanked := Lookup(comparison.value, "to_be_ranked_resume");
      ToBeRankedKeyMissing(comparison.value);
      r := Err(toBeRanked.error);
    }

    /** `best_of_n(n, unranked, ranked)` with the coin and answer of each
        call taken from `script`, reading the first argument's side from the
        `resume1` label. An even `n` is refused before anything happens;
        otherwise the result is `Vote` over the comparisons `Replay` reports
        from the fresh slots, unless the model has no call counter. */
    method BestOfN(n: int, unrankedFilename: string, rankedFilename: string, script: seq<(bool, string)>)
      returns (r: Result<Option<Comparison>>, used: nat)
      modifies this`numCalls, this`currentResumes, this`aIs1
      ensures n % 2 == 0 ==>
        r == Err(ValueError("n must be odd for best of n")) && used == 0 && numCalls == old(numCalls)
        && currentResumes == old(currentResumes) && aIs1 == old(aIs1)
      ensures n % 2 != 0 && Constructed(unrankedFilename, rankedFilename).Err? ==>
        r == Err(Constructed(unrankedFilename, rankedFilename).error) && used == 0 && numCalls == old(numCalls)
        && currentResumes == old(currentResumes) && aIs1 == old(aIs1)
      ensures n % 2 != 0 && Constructed(unrankedFilename, rankedFilename).Ok? ==>
        && (r, used) == (if model !in old(numCalls) && 0 < n && 0 < |script| then (Err(KeyError(model)), 0)
                         else Vote(n, Replay(Constructed(unrankedFilename, rankedFilename).value, true, script)))
        && numCalls == Counted(old(numCalls), model, used)
        && used <= |script| && SlotsAfter(Constructed(unrankedFilename, rankedFilename).value, script, used)
    {
      used := 0;
      if n % 2 == 0 {
        return Err(ValueError("n must be odd for best of n")), used;
      }
      var raised := ConstructResumesDict(unrankedFilename, rankedFilename);
      if raised.Some? {
        return Err(raised.value), used;
      }
      r, used := PlayBestOf(n, script, currentResumes.value);
    }

    /** The loop of `best_of_n` from freshly constructed slots `start`. */
    method PlayBestOf(n: int, script: seq<(bool, string)>, ghost start: Resumes)
      returns (r: Result<Option<Comparison>>, used: nat)
      requires currentResumes == Some(start) && aIs1
      modifies this`numCalls, this`currentResumes, this`aIs1
      ensures (r, used) == (if model !in old(numCalls) && 0 < n && 0 < |script| then (Err(KeyError(model)), 0)
                            else Vote(n, Replay(start, true, script)))
      ensures numCalls == Counted(old(numCalls), model, used)
      ensures used <= |script| && SlotsAfter(start, script, used)
    {
      ghost var all := Replay(start, true, script);
      used := 0;
      CountedNone(numCalls, model);
      var winsRequired := (n + 1) / 2;
      var toBeRankedWins, toBeRankedLosses := 0, 0;
      var winComparison: Option<Comparison> := None;
      var lossComparison: Option<Comparison> := None;
      assert script[..0] == [];
      while used < n
        invariant used <= |script|
        invariant SlotsAfter(start, script, used)
        invariant Vote(n, all) == VoteFrom(n, all, used, toBeRankedWins, toBeRankedLosses)
        invariant 0 < n ==> toBeRankedWins < winsRequired && toBeRankedLosses < winsRequired
        invariant numCalls == Counted(old(numCalls), model, used)
        invariant used > 0 ==> model in old(numCalls)
        decreases n - used
      {
        if used == |script| {
          return Err(ScriptExhausted), used;
        }
        var comparison := CompareNext(start, script, used);
        if comparison.Err? {
          return Err(comparison.error), used;
        }
        var c := comparison.value;
        CountedStep(old(numCalls), model, used);
        if Some(c.resume1) == c.winner {
          toBeRankedWins := toBeRankedWins + 1;
          winComparison := Some(c);
        } else {
          toBeRankedLosses := toBeRankedLosses + 1;
          lossComparison := Some(c);
        }
        used := used + 1;
        if toBeRankedWins == winsRequired {
          return Ok(winComparison), used;
        }
        if toBeRankedLosses == winsRequired {
          return Ok(lossComparison), used;
        }
      }
      r := Ok(None);
    }
  }
}
