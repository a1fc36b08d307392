/** `FilenameManager` (filename_mgr.py): the same naming convention as
    `RankString`, but the rank is everything before the FIRST dash, so a
    rank of 1000 or more (e.g. a rating such as `1500`) is read back whole.
    `string_from_rank`, `rank_from_rankstring` and the two `*_rankstring`
    helpers are the same code as in rankstring.py and are shared with it. */
module FilenameManager {
  import opened Wrappers
  import opened Text
  import RankString

  /** What the scan in `get_rankstring` computes: the text before the first
      dash and the text after it, or IndexError when the scan runs off the
      end of a name that has no dash. */
  function SplitAtFirstDash(filename: string): Result<(string, string)>
  {
    if |filename| == 0 then Err(IndexError)
    else if filename[0] == '-' then Ok(("", filename[1..]))
    else
      match SplitAtFirstDash(filename[1..])
      case Ok((rankstring, name)) => Ok(([filename[0]] + rankstring, name))
      case Err(e) => Err(e)
  }

  /** `get_rankstring`: accumulate characters until the first dash. */
  method GetRankString(filename: string) returns (r: Result<(string, string)>)
    ensures r == SplitAtFirstDash(filename)
  {
    var rankstring := "";
    var i := 0;
    match SplitAtFirstDash(filename) {
      case Ok((rs, name)) => assert "" + rs == rs;
      case Err(_) =>
    }
    while i < |filename| && filename[i] != '-'
      invariant 0 <= i <= |filename|
      invariant rankstring == filename[..i] && '-' !in rankstring
      invariant SplitAtFirstDash(filename) == SplitWithPrefix(rankstring, filename[i..])
    {
      SplitStep(filename[i..]);
      assert filename[..i + 1] == rankstring + [filename[i]];
      rankstring := rankstring + [filename[i]];
      i := i + 1;
    }
    if i == |filename| {
      // `filename[i]` raises IndexError once the scan passes the last character.
      assert filename[i..] == [];
      r := Err(IndexError);
    } else {
      assert filename[i..][1..] == filename[i + 1..] && rankstring + "" == rankstring;
      r := Ok((rankstring, filename[i + 1..]));
    }
  }

  /** `SplitAtFirstDash` of a suffix, with `prefix` put back in front of the rank. */
  function SplitWithPrefix(prefix: string, rest: string): Result<(string, string)>
  {
    match SplitAtFirstDash(rest)
    case Ok((rankstring, name)) => Ok((prefix + rankstring, name))
    case Err(e) => Err(e)
  }

  lemma SplitStep(rest: string)
    requires |rest| > 0 && rest[0] != '-'
    ensures forall p :: SplitWithPrefix(p, rest) == SplitWithPrefix(p + [rest[0]], rest[1..])
  {
    forall p ensures SplitWithPrefix(p, rest) == SplitWithPrefix(p + [rest[0]], rest[1..]) {
      match SplitAtFirstDash(rest[1..])
      case Ok((rs, name)) =>
        assert p + ([rest[0]] + rs) == (p + [rest[0]]) + rs;
      case Err(e) =>
    }
  }

  /** The split is exact: the rank holds no dash, and rank, dash and name give
      back the whole file name; it fails exactly when there is no dash. */
  lemma {:induction false} SplitAtFirstDashSpec(filename: string)
    ensures SplitAtFirstDash(filename).Err? <==> '-' !in filename
    ensures SplitAtFirstDash(filename).Ok? ==>
      var (rankstring, name) := SplitAtFirstDash(filename).value;
      '-' !in rankstring && filename == rankstring + "-" + name
  {
    if |filename| > 0 && filename[0] != '-' {
      SplitAtFirstDashSpec(filename[1..]);
      assert filename == [filename[0]] + filename[1..];
    }
  }

  /** Joining a dash-free prefix and any name with a dash, then splitting,
      gives the two parts back, whatever dashes the name itself holds. */
  lemma {:induction false} SplitAtFirstDashJoin(rankstring: string, name: string)
    requires '-' !in rankstring
    ensures SplitAtFirstDash(rankstring + "-" + name) == Ok((rankstring, name))
  {
    if |rankstring| == 0 {
      assert (rankstring + "-" + name)[1..] == name;
    } else {
      assert (rankstring + "-" + name)[1..] == rankstring[1..] + "-" + name;
      SplitAtFirstDashJoin(rankstring[1..], name);
      assert [rankstring[0]] + rankstring[1..] == rankstring;
    }
  }

  /** `increment_ranked_filename`. */
  function IncrementRankedFilename(filename: string, amount: int): Result<string>
  {
    match SplitAtFirstDash(filename)
    case Err(e) => Err(e)
    case Ok((rankstring, name)) =>
      match RankString.IncrementRankString(rankstring, amount)
      case Ok(shifted) => Ok(shifted + "-" + name)
      case Err(e) => Err(e)
  }

  /** `decrement_ranked_filename`: an increment by `-amount`. */
  function DecrementRankedFilename(filename: string, amount: int): Result<string>
  {
    IncrementRankedFilename(filename, -amount)
  }

  /** `add_rankstring_to_filename`. */
  function AddRankString(filename: string, rank: int): string
  {
    RankString.StringFromRank(rank) + "-" + filename
  }

  /** `rm_rankstring_from_filename`. */
  function RmRankString(filename: string): Result<string>
  {
    match SplitAtFirstDash(filename)
    case Ok((_, name)) => Ok(name)
    case Err(e) => Err(e)
  }

  /** `is_rank_consecutive`. */
  function IsRankConsecutive(filename1: string, filename2: string): Result<bool>
  {
    match SplitAtFirstDash(filename1)
    case Err(e) => Err(e)
    case Ok((rankstring1, _)) =>
      match SplitAtFirstDash(filename2)
      case Err(e) => Err(e)
      case Ok((rankstring2, _)) =>
        match RankString.RankFromRankString(rankstring1)
        case Err(e) => Err(e)
        case Ok(rank1) =>
          match RankString.RankFromRankString(rankstring2)
          case Err(e) => Err(e)
          case Ok(rank2) => Ok(rank1 == rank2 - 1)
  }

  // ---------------------------------------------------------------------
  // Properties of the codec.
  // ---------------------------------------------------------------------

  /** For every non-negative rank and every name, dashes included, splitting a
      freshly ranked name gives back the rank string and the name. */
  lemma AddThenSplit(filename: string, rank: int)
    requires rank >= 0
    ensures SplitAtFirstDash(AddRankString(filename, rank)) == Ok((RankString.StringFromRank(rank), filename))
    ensures RmRankString(AddRankString(filename, rank)) == Ok(filename)
  {
    RankString.StringFromRankDigits(rank);
    SplitAtFirstDashJoin(RankString.StringFromRank(rank), filename);
  }

  /** A name without a dash cannot be split, stripped or shifted. */
  lemma NoDashFails(filename: string, amount: int)
    requires '-' !in filename
    ensures SplitAtFirstDash(filename) == Err(IndexError)
    ensures RmRankString(filename) == Err(IndexError)
    ensures IncrementRankedFilename(filename, amount) == Err(IndexError)
  {
    SplitAtFirstDashSpec(filename);
    NoDashIndexError(filename);
  }

  lemma {:induction false} NoDashIndexError(filename: string)
    requires '-' !in filename
    ensures SplitAtFirstDash(filename) == Err(IndexError)
  {
    if |filename| > 0 {
      NoDashIndexError(filename[1..]);
    }
  }

  /** The checks at the bottom of filename_mgr.py: rank 1500 is not padded and
      is read back whole. */
  lemma MainAssertions()
    ensures AddRankString("test_string", 1500) == "1500-test_string"
    ensures SplitAtFirstDash("1500-test_string") == Ok(("1500", "test_string"))
  {
    RankString1500();
    AddThenSplit("test_string", 1500);
    assert "1500" + "-" + "test_string" == "1500-test_string";
  }

  lemma RankString1500()
    ensures RankString.StringFromRank(1500) == "1500"
  {
    RankString.StringFromRankUnpadded(1500);
    assert Text.NatToString(1) == "1";
    assert Text.NatToString(15) == "15";
    assert Text.NatToString(150) == "150";
    assert Text.NatToString(1500) == "1500";
  }

  /** Shifting a well-formed name by any amount that keeps the rank
      non-negative changes the rank and nothing else. */
  lemma IncrementWellFormed(filename: string, rank: int, amount: int)
    requires rank >= 0
    ensures IncrementRankedFilename(AddRankString(filename, rank), amount)
         == Ok(AddRankString(filename, rank + amount))
  {
    AddThenSplit(filename, rank);
    RankString.StringFromRankRoundTrip(rank);
  }

  /** The name part survives any successful shift that keeps the rank
      non-negative. */
  lemma IncrementKeepsName(filename: string, amount: int)
    requires SplitAtFirstDash(filename).Ok?
    requires RankString.RankFromRankString(SplitAtFirstDash(filename).value.0).Ok?
    requires RankString.RankFromRankString(SplitAtFirstDash(filename).value.0).value + amount >= 0
    ensures IncrementRankedFilename(filename, amount).Ok?
    ensures RmRankString(IncrementRankedFilename(filename, amount).value) == RmRankString(filename)
  {
    var (rankstring, name) := SplitAtFirstDash(filename).value;
    var rank := RankString.RankFromRankString(rankstring).value;
    assert IncrementRankedFilename(filename, amount) == Ok(AddRankString(name, rank + amount));
    AddThenSplit(name, rank + amount);
  }

  /** Shifting up then down by the same amount restores a well-formed name for
      every pair of non-negative ranks. */
  lemma IncrementDecrementRoundTrip(filename: string, rank: int, amount: int)
    requires rank >= 0 && rank + amount >= 0
    ensures DecrementRankedFilename(AddRankString(filename, rank + amount), amount)
         == Ok(AddRankString(filename, rank))
  {
    IncrementWellFormed(filename, rank + amount, -amount);
  }

  /** `is_rank_consecutive` on well-formed names, for ranks of any width. */
  lemma IsRankConsecutiveIff(f: string, g: string, a: int, b: int)
    requires a >= 0 && b >= 0
    ensures IsRankConsecutive(AddRankString(f, a), AddRankString(g, b)) == Ok(b == a + 1)
  {
    AddThenSplit(f, a);
    AddThenSplit(g, b);
    RankString.StringFromRankRoundTrip(a);
    RankString.StringFromRankRoundTrip(b);
  }
}
