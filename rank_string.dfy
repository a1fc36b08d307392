/** `RankString` (rankstring.py): the rank-prefix naming convention with a
    positional split. A ranked name is a zero-padded rank, a dash, and the
    original file name: `"012-my_cv.png"`. The split takes the first three
    characters as the rank and everything from index 4 on as the name,
    whatever the characters are. */
module RankString {
  import opened Wrappers
  import opened Text

  /** `len_string`: the width ranks are padded to. */
  const RankWidth: int := 3

  /** Python's `"0" * k`, which is empty when `k` is zero or negative. */
  function Zeros(k: int): (z: string)
    ensures |z| == (if k < 0 then 0 else k)
    ensures forall i :: 0 <= i < |z| ==> z[i] == '0'
  {
    seq(if k < 0 then 0 else k, i => '0')
  }

  /** `string_from_rank`: `str(rank)` left-padded with zeros to three characters.
      Nothing is truncated: a rank of 1000 or more keeps all its digits, and a
      negative rank keeps its sign after the padding (`-1` gives `"0-1"`). */
  function StringFromRank(rank: int): string
  {
    var digits := IntToString(rank);
    Zeros(RankWidth - |digits|) + digits
  }

  /** `rank_from_rankstring`: `int(rankstring)`. */
  function RankFromRankString(rankstring: string): Result<int>
  {
    match ParseInt(rankstring)
    case Some(rank) => Ok(rank)
    case None => Err(ValueError("invalid literal for int()"))
  }

  /** `increment_rankstring`. */
  function IncrementRankString(rankstring: string, amount: int): Result<string>
  {
    match RankFromRankString(rankstring)
    case Ok(rank) => Ok(StringFromRank(rank + amount))
    case Err(e) => Err(e)
  }

  /** `decrement_rankstring`. */
  function DecrementRankString(rankstring: string, amount: int): Result<string>
  {
    match RankFromRankString(rankstring)
    case Ok(rank) => Ok(StringFromRank(rank - amount))
    case Err(e) => Err(e)
  }

  /** `get_rankstring`: `(filename[:3], filename[4:])`, with Python's clamping of
      slice bounds to the length of the string. */
  function GetRankString(filename: string): (string, string)
  {
    (filename[..if |filename| < 3 then |filename| else 3],
     filename[if |filename| < 4 then |filename| else 4..])
  }

  /** `increment_ranked_filename`. */
  function IncrementRankedFilename(filename: string, amount: int): Result<string>
  {
    var (rankstring, name) := GetRankString(filename);
    match IncrementRankString(rankstring, amount)
    case Ok(shifted) => Ok(shifted + "-" + name)
    case Err(e) => Err(e)
  }

  /** `decrement_ranked_filename`: an increment by `-amount`. */
  function DecrementRankedFilename(filename: string, amount: int): Result<string>
  {
    IncrementRankedFilename(filename, -amount)
  }

  /** `add_rankstring_to_filename`. */
  function AddRankString(filename: string, rank: int): string
  {
    StringFromRank(rank) + "-" + filename
  }

  /** `rm_rankstring_from_filename`. */
  function RmRankString(filename: string): string
  {
    GetRankString(filename).1
  }

  /** `is_rank_consecutive`: the first name's prefix is read first, so its
      ValueError wins when both are unreadable. */
  function IsRankConsecutive(filename1: string, filename2: string): Result<bool>
  {
    match RankFromRankString(GetRankString(filename1).0)
    case Err(e) => Err(e)
    case Ok(rank1) =>
      match RankFromRankString(GetRankString(filename2).0)
      case Err(e) => Err(e)
      case Ok(rank2) => Ok(rank1 == rank2 - 1)
  }

  // ---------------------------------------------------------------------
  // Properties of the codec.
  // ---------------------------------------------------------------------

  /** A rank from 0 to 999 becomes exactly three decimal digits. */
  lemma StringFromRankThreeDigits(rank: int)
    requires 0 <= rank <= 999
    ensures |StringFromRank(rank)| == 3 && AllDigits(StringFromRank(rank))
  {
    NatToStringLength(rank);
    NatToStringDigits(rank);
  }

  /** A non-negative rank becomes a string of digits only, so it holds no dash. */
  lemma StringFromRankDigits(rank: int)
    requires rank >= 0
    ensures AllDigits(StringFromRank(rank)) && '-' !in StringFromRank(rank)
  {
    NatToStringDigits(rank);
    var s := StringFromRank(rank);
    forall i | 0 <= i < |s|
      ensures s[i] != '-'
    {
      assert IsDigit(s[i]);
    }
  }

  /** From 1000 on nothing is padded: the prefix is `str(rank)` itself, four digits or more. */
  lemma StringFromRankUnpadded(rank: int)
    requires rank >= 1000
    ensures StringFromRank(rank) == IntToString(rank) && |StringFromRank(rank)| >= 4
  {
    NatToStringLength(rank);
    assert Zeros(RankWidth - |IntToString(rank)|) == [];
  }

  /** `int(string_from_rank(r)) == r` for every non-negative rank, padded or not. */
  lemma StringFromRankRoundTrip(rank: int)
    requires rank >= 0
    ensures RankFromRankString(StringFromRank(rank)) == Ok(rank)
  {
    NatToStringDigits(rank);
    var digits := IntToString(rank);
    var z := Zeros(RankWidth - |digits|);
    DigitsValueLeadingZeros(z, digits);
  }

  /** For ranks 0..999 the string order of the prefixes is the numeric order. */
  lemma StringFromRankOrder(a: int, b: int)
    requires 0 <= a < b <= 999
    ensures LexLess(StringFromRank(a), StringFromRank(b))
  {
    StringFromRankThreeDigits(a);
    StringFromRankThreeDigits(b);
    StringFromRankRoundTrip(a);
    StringFromRankRoundTrip(b);
    ThreeDigitOrder(StringFromRank(a), StringFromRank(b));
  }

  /** Hence ranked names sort by rank, whatever the original names are. */
  lemma RankedNameOrder(f: string, g: string, a: int, b: int)
    requires 0 <= a < b <= 999
    ensures LexLess(AddRankString(f, a), AddRankString(g, b))
  {
    StringFromRankOrder(a, b);
    StringFromRankThreeDigits(a);
    StringFromRankThreeDigits(b);
    LexLessPrefixDecides(StringFromRank(a), StringFromRank(b), "-" + f, "-" + g);
    assert AddRankString(f, a) == StringFromRank(a) + ("-" + f);
    assert AddRankString(g, b) == StringFromRank(b) + ("-" + g);
  }

  /** Splitting a freshly ranked name gives back the padded rank and the name. */
  lemma AddThenGetRankString(filename: string, rank: int)
    requires 0 <= rank <= 999
    ensures GetRankString(AddRankString(filename, rank)) == (StringFromRank(rank), filename)
    ensures RmRankString(AddRankString(filename, rank)) == filename
  {
    StringFromRankThreeDigits(rank);
    var n := AddRankString(filename, rank);
    assert n[..3] == StringFromRank(rank);
    assert n[4..] == filename;
  }

  /** From rank 1000 on the positional split misreads both halves. */
  lemma WideRankMisread(filename: string, rank: int)
    requires rank >= 1000
    ensures GetRankString(AddRankString(filename, rank)).0 != StringFromRank(rank)
    ensures RmRankString(AddRankString(filename, rank)) != filename
  {
    StringFromRankUnpadded(rank);
  }

  /** The name `1000-f` splits into `100` and `-f`. */
  lemma WideRankExample()
    ensures GetRankString(AddRankString("f", 1000)) == ("100", "-f")
  {
    var s := StringFromRank(1000);
    StringFromRankUnpadded(1000);
    assert NatToString(1000) == NatToString(100) + "0";
    assert NatToString(100) == NatToString(10) + "0";
    assert NatToString(1) == "1";
    assert NatToString(10) == "10";
    assert s == "1000";
    var n := AddRankString("f", 1000);
    assert n == "1000-f";
    assert n[..3] == "100" && n[4..] == "-f";
  }

  /** Incrementing a well-formed name shifts its rank and keeps the name part. */
  lemma IncrementWellFormed(filename: string, rank: int, amount: int)
    requires 0 <= rank <= 999
    ensures IncrementRankedFilename(AddRankString(filename, rank), amount)
         == Ok(AddRankString(filename, rank + amount))
  {
    AddThenGetRankString(filename, rank);
    StringFromRankRoundTrip(rank);
  }

  /** Incrementing then decrementing by the same amount restores the name while
      both ranks stay within 0..999. */
  lemma IncrementDecrementRoundTrip(filename: string, rank: int, amount: int)
    requires 0 <= rank <= 999 && 0 <= rank + amount <= 999
    ensures IncrementRankedFilename(AddRankString(filename, rank), amount).Ok?
    ensures DecrementRankedFilename(IncrementRankedFilename(AddRankString(filename, rank), amount).value, amount)
         == Ok(AddRankString(filename, rank))
  {
    IncrementWellFormed(filename, rank, amount);
    IncrementWellFormed(filename, rank + amount, -amount);
  }

  /** The first few prefixes, written out. */
  lemma FirstPrefixes()
    ensures StringFromRank(0) == "000" && StringFromRank(1) == "001"
    ensures StringFromRank(2) == "002" && StringFromRank(3) == "003"
  {
    assert NatToString(0) == "0" && NatToString(1) == "1";
    assert NatToString(2) == "2" && NatToString(3) == "3";
    assert Zeros(2) == "00";
  }

  /** Decrementing rank 0 produces the prefix `"0-1"`, which `int()` rejects. */
  lemma DecrementBelowZero()
    ensures DecrementRankString("000", 1) == Ok("0-1")
    ensures RankFromRankString("0-1").Err?
  {
    ZerosValue("000");
    assert ParseInt("000") == Some(0);
    assert NatToString(1) == "1";
    assert IntToString(-1) == "-1";
    assert Zeros(1) == "0";
    assert StringFromRank(-1) == "0-1";
    assert !AllDigits("0-1") by { assert !IsDigit("0-1"[1]); }
  }

  /** `is_rank_consecutive` on well-formed names: the second rank is the first plus one. */
  lemma IsRankConsecutiveIff(f: string, g: string, a: int, b: int)
    requires 0 <= a <= 999 && 0 <= b <= 999
    ensures IsRankConsecutive(AddRankString(f, a), AddRankString(g, b)) == Ok(b == a + 1)
  {
    AddThenGetRankString(f, a);
    AddThenGetRankString(g, b);
    StringFromRankRoundTrip(a);
    StringFromRankRoundTrip(b);
  }
}
