# llm-resume-ranker, modelled in Dafny

llm-resume-ranker ranks resume images in two ways.

- **Insertion sort.** `ResumeSorter` keeps a `ranked` folder whose file names carry a three-digit rank prefix (`000-`, `001-`, …). It inserts an unranked resume by walking from the median of the ranked list, asking a comparator which of two resumes is better. It removes windows of ranked files again, shifting the later prefixes so that the ranks stay contiguous.
- **Rating tournament.** `ResumeManager` keeps a `ratings.json` of Glicko-2 statistics keyed by plain file name. Each ranked file carries its rating as a prefix (`1500-a.png`). A `RatingManager` schedules pairwise matches between the ranked resumes, plays them (with a stub comparator or with the LLM comparer) and feeds every resume's opponent ratings and win flags to Glicko-2.
- **LLM comparer.** `LLMResumeComparer` puts two resumes in slots "Resume A" and "Resume B", randomly swaps the slots, reads the model's preference from its answer, counts the calls per model and runs best-of-n votes. As written, `best_of_n` reads a key its comparisons do not have and raises KeyError after the first call; the vote is modelled both as written and as evidently intended.

The model keeps the state of each class as the fields of a Dafny `class` and turns every loop of the source into a loop or a recursive method. Each method is proved equal to a specification function of the old state, except for the fields "## Left out" names as unspecified. The properties the program relies on are lemmas about those functions.

Modelling conventions:

- A folder is a `set<string>` of names.
- `os.listdir` followed by `sort()` is the method `Listing.SortedListing`. It is proved to give the unique strictly sorted listing `SortedOf`.
- Python's string `<` is `Text.LexLess`.
- `os.rename` removes one name from a set and adds another.
- `ratings.json` is a `map<string, Stats>` that is read at the start of an operation and written at its end.
- Everything the program cannot decide by itself is an explicit input:
  - the comparator's verdicts, as a script;
  - the LLM's answers and the random slot swaps, as a script of `(flip, text)` pairs;
  - the pairs `random.sample` draws, as a script;
  - Glicko-2's update, as a function parameter `glicko`.
- An operation that runs out of its script returns `ScriptExhausted` rather than looping forever.
- Python exceptions are an `Error` datatype: `ValueError(message)`, `IndexError`, `KeyError(key)` and `AttributeError(name)`.

Module by module:

| module | file | models |
|---|---|---|
| `RankString` | rank_string.dfy | rankstring.py: fixed three-character prefix, positional split |
| `FilenameManager` | filename_manager.dfy | filename_mgr.py: prefix up to the first dash (the `while` loop of `get_rankstring` is a method) |
| `Text` | text.dfy | `str(int)`, `int(str)`, `lower()`, `in` on strings, `split('.')`, string order |
| `Listing` | listing.dfy | a sorted directory listing |
| `RankWalk` | rank_walk.dfy | the walk of `find_rank` as a function of the verdicts |
| `RankedList` | ranked_list.dfy | the folder renamings of `insert_unranked_file` and `unrank_files` on a contiguously ranked folder |
| `ResumeSorter` | resume_sorter.dfy | class `Sorter`, the state and loops of resume_sorter.py |
| `MatchSchedule` | match_schedule.dfy | `_generate_matches` (both drafts) |
| `MatchPlay` | match_play.dfy | the per-resume opponent lists and win flags of `_play_matches`, and the Glicko refresh of `_update_ratings` |
| `StubRatingManager` | stub_rating_manager.dfy | resume_ratings_manager.py, with the name-order stub comparator |
| `StepLoop` | step_loop.dfy | a `for` loop that threads a state, stops at the first raise and logs per step |
| `LlmRatingManager` | llm_rating_manager.dfy | resume_rating_manager.py, the draft that asks the LLM comparer and logs every comparison |
| `ResumeComparer` | resume_comparer.dfy | resume_comparer.py: slots, swap, verdict parsing, call counter, best-of-n |
| `ResumeManager` | resume_manager.dfy | resume_manager.py: `init_unranked`, `unrank_files`, `_read_ranked_folder` |

## Model

| member | source | states |
|---|---|---|
| RankString.StringFromRankThreeDigits | rankstring.py:8-12 | for 0 ≤ r ≤ 999 the prefix is exactly three decimal digits |
| RankString.StringFromRankDigits | rankstring.py:8-12 | for every r ≥ 0 the prefix is all digits and holds no dash |
| RankString.StringFromRankUnpadded | rankstring.py:8-12 | for r ≥ 1000 nothing is padded or cut: the prefix is `str(r)`, four or more characters |
| RankString.StringFromRankRoundTrip | rankstring.py:8-17 | `int(string_from_rank(r)) == r` for every r ≥ 0 |
| RankString.StringFromRankOrder | rankstring.py:8-12 | for 0 ≤ a < b ≤ 999, the prefix of a sorts strictly before the prefix of b |
| RankString.RankedNameOrder | rankstring.py:43-44 | names ranked a < b ≤ 999 sort in rank order whatever their stems, so sorting the folder sorts by rank |
| RankString.AddThenGetRankString | rankstring.py:30-48 | for 0 ≤ r ≤ 999, `get_rankstring(add_rankstring_to_filename(f, r)) == (string_from_rank(r), f)`, and removing the prefix gives back `f` |
| RankString.WideRankMisread | rankstring.py:30-32 | for r ≥ 1000 the positional split recovers neither the prefix nor the name |
| RankString.WideRankExample | rankstring.py:30-32 | `1000-f` splits into (`100`, `-f`) |
| RankString.IncrementWellFormed | rankstring.py:34-38 | incrementing a well-formed name by `by` keeps its stem and gives it rank r + by |
| RankString.IncrementDecrementRoundTrip | rankstring.py:34-41 | incrementing and then decrementing by the same amount restores the name while the ranks stay in 0..999 |
| RankString.DecrementBelowZero | rankstring.py:19-22 | decrementing `000` by one gives `0-1`, which `int()` then rejects |
| RankString.IsRankConsecutiveIff | rankstring.py:50-54 | on well-formed names, `is_rank_consecutive` holds iff the second rank is the first plus one |
| FilenameManager.GetRankString | filename_mgr.py:30-38 | the character loop returns exactly the split at the first dash, or IndexError when it runs off the end |
| FilenameManager.SplitAtFirstDashSpec | filename_mgr.py:30-38 | the split fails iff the name has no dash; on success the prefix holds no dash and prefix + `-` + rest is the name |
| FilenameManager.SplitAtFirstDashJoin | filename_mgr.py:30-38 | a dash-free prefix joined to any rest by a dash splits back into the two parts |
| FilenameManager.NoDashIndexError | filename_mgr.py:33-36 | a name without a dash makes the scan raise IndexError |
| FilenameManager.NoDashFails | filename_mgr.py:40-54 | a name without a dash makes increment and prefix removal raise IndexError too |
| FilenameManager.AddThenSplit | filename_mgr.py:49-54 | for every r ≥ 0 and every `f`, dashes included, the split of `add_rankstring_to_filename(f, r)` is (`string_from_rank(r)`, `f`), and removal gives `f` |
| FilenameManager.MainAssertions | filename_mgr.py:62-70 | `add_rankstring_to_filename('test_string', 1500) == '1500-test_string'`, which splits into (`1500`, `test_string`) |
| FilenameManager.RankString1500 | filename_mgr.py:8-12 | rank 1500 keeps its four digits, unpadded |
| FilenameManager.IncrementWellFormed | filename_mgr.py:40-44 | incrementing a well-formed name by `by` keeps its stem and gives it rank r + by |
| FilenameManager.IncrementKeepsName | filename_mgr.py:40-47 | whenever the prefix parses and the new rank is not negative, incrementing leaves the name part unchanged |
| FilenameManager.IncrementDecrementRoundTrip | filename_mgr.py:40-47 | decrementing by `by` undoes incrementing by `by` |
| FilenameManager.IsRankConsecutiveIff | filename_mgr.py:56-60 | `is_rank_consecutive` holds iff the integer prefixes differ by exactly +1 |
| Listing.LeastName | resume_sorter.py:113-116 | returns the name of the folder that sorts before every other |
| Listing.SortedListing | resume_sorter.py:113-116 | the listing is strictly sorted, holds exactly the folder's names, and is the one sequence `SortedOf` with both properties |
| Listing.SortedUnique | resume_sorter.py:113-116 | two strictly sorted listings of the same names are equal |
| RankWalk.WalkSteps | resume_sorter.py:28-48 | between consecutive probes a `None` verdict keeps the index, and an agreeing verdict moves it by -1 after a first win and by +1 after a first loss |
| RankWalk.WalkEnding | resume_sorter.py:40-48 | a returned rank is either the index of the first conclusive verdict against the first one, or 0 or N-1 right after a step onto it, without probing it |
| RankWalk.WalkShape | resume_sorter.py:28-48 | the walk consumes at most the verdicts given, starts at the index it is given, and reports a returned rank only after at least one probe |
| RankWalk.FindRankBounds | resume_sorter.py:23-48 | for N ≥ 3 every probed index and the result lie in [0, N-1], no index goes out of range, and at most N-2 conclusive verdicts are used |
| RankWalk.SmallListFirstWinGoesNegative | resume_sorter.py:23-47 | for N ≤ 2 a first win moves the index to -1 |
| RankWalk.SingleNameWalks | resume_sorter.py:23-48 | with one ranked name, a loss indexes past the end, two wins index below -1, and a win then a loss returns rank -1 |
| RankWalk.UnprobedEndExample | resume_sorter.py:43-48 | with three names, a win at the median returns rank 0 without comparing against index 0, where the resume does not belong |
| RankWalk.UpwardOffByOneExample | resume_sorter.py:43-48 | with five names, a win at index 2 and a loss at index 1 give rank 1, one better than the rank the resume earned |
| RankWalk.LastPlaceExample | resume_sorter.py:43-48 | a resume that loses to all three names gets rank 2 instead of 3 |
| RankWalk.FindRankCorrected | resume_sorter.py:14-51 | the repaired walk returns a rank in 0..N with a loss just before it and a win at it, which is the one order-keeping insertion point when the comparator is consistent |
| RankedList.AddRankStringInjective | rankstring.py:43-44 | two ranked names below 1000 are equal only when both rank and stem are equal |
| RankedList.RankedListing | resume_sorter.py:113-116 | a contiguously ranked folder lists in rank order, strictly sorted |
| RankedList.RankedBases | rankstring.py:46-48 | removing the prefix from the i-th name of a contiguously ranked folder gives its i-th stem |
| RankedList.ShiftEachFirst | resume_sorter.py:67-68 | one turn of the renaming loop: a name that fails to parse stops the loop with its error, otherwise it is renamed and the loop goes on |
| RankedList.RenameEachNoClash | resume_sorter.py:67-68 | when no new name hits a name still to be renamed, the loop replaces exactly the old names by the new ones |
| RankedList.ShiftEachStops | resume_sorter.py:108-111 | example: with `abc-x` first in the list, the loop stops with ValueError before any rename and the folder is unchanged |
| RankedList.ShiftTailRenames | resume_sorter.py:67-68 | shifting name k of a contiguous folder by `amount` gives its stem ranked k + amount |
| RankedList.ShiftTailNoClash | resume_sorter.py:67-68 | while the ranks stay in 0..999, no shifted name equals a later name still to be shifted |
| RankedList.ShiftTail | resume_sorter.py:67-68 | shifting the tail from `start` replaces it by the same stems ranked `amount` higher, with no error |
| RankedList.RankedInsert | resume_sorter.py:63-74 | ranking the stems with the newcomer inserted at `rank` keeps the names before `rank`, gives the newcomer prefix `rank`, and gives every later stem its rank + 1 |
| RankedList.InsertKeepsRanksContiguous | resume_sorter.py:63-76 | inserting at any rank 0..N into a contiguous folder gives the contiguous folder of the stems with the newcomer at `rank`, and takes the newcomer out of `unranked` |
| RankedList.InsertIntoEmpty | resume_sorter.py:71-74 | inserting into an empty folder gives `000-` + the newcomer |
| RankedList.RankedRemove | resume_sorter.py:103-111 | ranking the stems without the window [low, high) keeps the names before `low` and ranks every later stem high-low lower |
| RankedList.UnrankedNames | resume_sorter.py:96-101 | the window's names, with their prefixes removed, are exactly the window's stems |
| RankedList.UnrankWindowListing | resume_sorter.py:96-107 | moving the window out leaves the names outside it, in sorted order, and adds the window's stems to `unranked` |
| RankedList.CloseGapAfterWindow | resume_sorter.py:107-111 | the second loop turns the folder left by the window into the contiguous folder of the remaining stems, without error |
| RankedList.UnrankKeepsRanksContiguous | resume_sorter.py:96-111 | for 0 ≤ low < high ≤ N the window's stems go to `unranked` and the ranked folder becomes contiguous over the remaining stems |
| RankedList.UnrankEmptyWindowKeepsFolders | resume_sorter.py:96-111 | low == high moves nothing and renames every name to itself |
| RankedList.ShiftRankedTail | resume_sorter.py:108-111 | shifting the tail of a contiguous folder keeps the head and re-ranks the tail by `amount` |
| RankedList.ReversedWindowMovesNothing | resume_sorter.py:96-101 | low > high moves no file |
| RankedList.UnrankReversedWindowOpensGap | resume_sorter.py:96-111 | low > high is not rejected: nothing moves, and every name from `low` on is ranked low-high higher, opening a gap |
| ResumeSorter.Sorter.constructor | resume_sorter.py:6-12 | starts with an empty listing over the given folders |
| ResumeSorter.Sorter.ReadRankedFolder | resume_sorter.py:113-116 | the listing becomes the sorted names of the ranked folder and the count its size, leaving the folder alone |
| ResumeSorter.Sorter.FindRank | resume_sorter.py:14-51 | the loop with its inner `None`-retry loop returns the result of the walk `FindRankWalk` and consumes exactly its probes |
| ResumeSorter.Sorter.InsertUnrankedFile | resume_sorter.py:63-76 | the folders after the shifting loop and the final move are `InsertFolders` of the folders before |
| ResumeSorter.Sorter.MoveWindow | resume_sorter.py:96-101 | the first loop of `unrank_files` moves each window name, prefix removed, to `unranked` |
| ResumeSorter.Sorter.ShiftListedFrom | resume_sorter.py:67-68 | the renaming loop over `ranked_filenames[start:]`, Python slice semantics included, stopping at the first error |
| ResumeSorter.Sorter.CloseGapLoop | resume_sorter.py:107-111 | rereads the folder and shifts every name from `idx_low` on down by high-low |
| ResumeSorter.Sorter.UnrankRangeLoops | resume_sorter.py:96-111 | both loops of `unrank_files` for bounds already checked |
| ResumeSorter.Sorter.UnrankFiles | resume_sorter.py:78-111 | the folders, the error raised and the listing after `unrank_files` are those of `UnrankOutcome` |
| ResumeSorter.Sorter.Insert | resume_sorter.py:118-132 | the folders, error and verdicts used after `insert` are those of `InsertOutcome` |
| ResumeSorter.RankedFolderSize | resume_sorter.py:113-116 | a contiguous folder of N stems holds N names and lists in rank order |
| ResumeSorter.InsertIntoEmptyFolder | resume_sorter.py:122-126 | inserting into an empty ranked folder gives rank 0 and makes no comparison |
| ResumeSorter.InsertKeepsRanksContiguous | resume_sorter.py:118-132 | for 3 ≤ N < 1000 `insert` either runs out of verdicts and changes nothing, or inserts at the walk's rank in 0..N-1 and keeps the ranks contiguous |
| ResumeSorter.UnrankEmptyFolder | resume_sorter.py:80-83 | on an empty ranked folder `unrank_files` changes nothing and raises nothing |
| ResumeSorter.UnrankBadBounds | resume_sorter.py:85-94 | absent bounds default to 0 and N; a low bound outside [0, N-1] raises `bad low index` and a high bound outside [1, N] raises `bad high index`, both with nothing changed |
| ResumeSorter.UnrankWindowKeepsRanksContiguous | resume_sorter.py:96-111 | for 0 ≤ low < high ≤ N the window's stems go to `unranked` and the ranks of the rest stay contiguous |
| ResumeSorter.UnrankOutcomeInRange | resume_sorter.py:96-111 | with valid bounds the result is the window move followed by the gap-closing shift |
| ResumeSorter.UnrankEverything | resume_sorter.py:86-111 | with no bounds every ranked file goes back to `unranked` and the ranked folder empties |
| ResumeSorter.UnrankReversedBoundsOpenGap | resume_sorter.py:91-111 | low > high passes both checks, moves nothing, and raises the ranks from `low` on, leaving a gap |
| MatchSchedule.GenerateMatches | resume_ratings_manager.py:18-42 | raises `ValueError` above n(n-1)/2 matches; at the maximum returns all pairs; below it returns exactly `num_matches` distinct sorted valid pairs, the first-seen distinct draws |
| MatchSchedule.AllPairsSchedule | resume_ratings_manager.py:31-32 | the exhaustive schedule has n(n-1)/2 pairs, holds exactly the pairs 0 ≤ i < j < n, in i-major order, without repeats |
| MatchSchedule.AllPairsOfThree | resume_ratings_manager.py:120 | for n = 3 the schedule is [(0,1), (0,2), (1,2)] |
| MatchSchedule.EveryPlayerPlays | resume_ratings_manager.py:31-32 | for n ≥ 2 every player appears in some match of the exhaustive schedule |
| MatchSchedule.FirstSeenDistinct | resume_ratings_manager.py:37-40 | the sampled schedule never repeats a pair |
| MatchSchedule.FirstSeenElems | resume_ratings_manager.py:37-40 | the sampled schedule holds exactly the sorted draws |
| MatchSchedule.FirstSeenValid | resume_ratings_manager.py:34-40 | every sampled pair is 0 ≤ i < j < n |
| MatchSchedule.DistinctPairsBound | resume_ratings_manager.py:23-28 | no schedule of distinct valid pairs is longer than n(n-1)/2, which is why the sampling loop can only end below that bound |
| MatchPlay.PlayBoutSides | resume_ratings_manager.py:55-70 | one match appends the opponent's incoming rating and rd to each side, flag 1 to exactly one side, and touches no other key |
| MatchPlay.PlayBoutCounts | resume_ratings_manager.py:55-70 | one match adds both names as keys, keeps each key's three lists of equal length and its flags in {0, 1}, and adds one entry per side |
| MatchPlay.TallyShape | resume_ratings_manager.py:44-72 | the result's keys are the names in some match, each key's three lists have equal length, that length is the number of matches the key plays in, and every flag is 0 or 1 |
| MatchPlay.TallySucceeds | resume_ratings_manager.py:61-62 | playing the schedule succeeds iff every match's two names are keys of `ratings_data` |
| MatchPlay.TallyKeysRated | resume_ratings_manager.py:61-62 | every key of the result is a key of `ratings_data` |
| StubRatingManager.CompareResumesSwapped | resume_ratings_manager.py:92-94 | for distinct names the stub returns 1 or 2, and resume1 wins iff it loses with the arguments swapped |
| StubRatingManager.FirstUnplayed | resume_ratings_manager.py:83-84 | the entries before the result all have results and the entry at it has none |
| StubRatingManager.UpdateOutcomeIff | resume_ratings_manager.py:79-88 | `_update_ratings` raises a KeyError for a missing key iff some entry has no match results, and otherwise applies `glicko` to every entry |
| StubRatingManager.RatingManager.constructor | resume_ratings_manager.py:6-9 | keeps the ranked names and their count |
| StubRatingManager.RatingManager.PlayMatches | resume_ratings_manager.py:44-72 | the loop's result is `Tally` of the stub-decided, prefix-stripped matches |
| StubRatingManager.RatingManager.UpdateFromResults | resume_ratings_manager.py:74-90 | the in-place loop raises `UpdateError` and leaves `UpdatedData` |
| StubRatingManager.RatingManager.UpdateRatings | resume_ratings_manager.py:11-16 | the pipeline raises `too many matches`, or plays the schedule `_generate_matches` chose and returns `StubOutcome` |
| StubRatingManager.AllPairsBoutsRated | resume_ratings_manager.py:44-62 | with all-pairs and well-formed names, every match is between two rated names |
| StubRatingManager.AllPairsNameEveryKey | resume_ratings_manager.py:31-32 | with n ≥ 2 every rated name plays in some match of the all-pairs schedule |
| StubRatingManager.AllPairsPlayEveryEntry | resume_ratings_manager.py:44-72 | with n ≥ 2 and all-pairs, playing succeeds and every entry has results |
| StubRatingManager.AllPairsUpdateEveryEntry | resume_ratings_manager.py:79-88 | with n ≥ 2 and all-pairs, `update_ratings` succeeds and applies `glicko` to every entry with its own results |
| StubRatingManager.OutcomeWhenAllPlayed | resume_ratings_manager.py:74-90 | when every entry has results, the new data is `glicko` of each entry and its results |
| StubRatingManager.ThreeResumesBouts | test_rating_manager.py:32-33 | for `1500-a.png`, `1500-xxx.png`, `1500-zzz.png` the stub names the first of each pair the winner |
| StubRatingManager.ThreeResumesTally | test_rating_manager.py:72-75 | the three files get two opponents each at the default rating, with wins a = 2, xxx = 1, zzz = 0 |
| LlmRatingManager.RecordMatch | resume_rating_manager.py:57-75 | strips both prefixes (IndexError for a name without a dash), then appends the match like the stub draft |
| LlmRatingManager.LlmVerdict | resume_rating_manager.py:106-109 | verdict 1 iff the `resume1` label names the winner's slot, which holds the first argument; a `None` winner counts for resume2 |
| LlmRatingManager.LlmPlayTally | resume_rating_manager.py:54-75 | the compare-then-strip loop gives the same result as `Tally` over the per-match bouts |
| LlmRatingManager.LlmLogLength | resume_rating_manager.py:101-104 | at most one comparison is logged per match, and exactly one per match when every match completes |
| LlmRatingManager.LlmLogOrder | resume_rating_manager.py:101-104 | entry k of the log is the comparison of match k: the log is in match order |
| LlmRatingManager.LlmPlayShape | resume_rating_manager.py:49-77 | the result's keys are the stripped names in some match, all rated, with equal-length lists counting each key's matches |
| LlmRatingManager.LlmOutcomeEntries | resume_rating_manager.py:86-97 | `_update_ratings` applies `glicko` to exactly the entries with results and leaves every other entry unchanged |
| LlmRatingManager.RatingManager.constructor | resume_rating_manager.py:7-13 | a `haiku` comparer with zero calls and an empty log |
| LlmRatingManager.RatingManager.CompareResumes | resume_rating_manager.py:101-109 | asks the comparer once, appends its answer to `comparisons`, counts one call and returns the 1/2 verdict |
| LlmRatingManager.RatingManager.PlayMatch | resume_rating_manager.py:54-75 | one match: its result is `MatchStep`, with its one comparison logged and counted |
| LlmRatingManager.RatingManager.PlayFrom | resume_rating_manager.py:54-77 | the rest of the loop gives `LlmPlay`, logs `LlmLog` and counts one call per logged comparison |
| LlmRatingManager.RatingManager.PlayMatches | resume_rating_manager.py:49-77 | `_play_matches` from an empty dict gives `LlmPlay` and logs `LlmLog` |
| LlmRatingManager.RatingManager.UpdateMatched | resume_rating_manager.py:79-99 | raises KeyError iff some result has no entry; otherwise applies `glicko` to the entries with results and keeps the others |
| LlmRatingManager.RatingManager.UpdateRatings | resume_rating_manager.py:15-21 | raises `too many matches; maximum is …`, or returns the pair (updated data, comparisons log) for the chosen schedule, with one call counted per logged comparison |
| ResumeComparer.ImageTypeOfField | resume_comparer.py:64 | the type is `jpeg` iff the second `.`-separated field is `jpg`, otherwise `png`; a name without a dot raises IndexError |
| ResumeComparer.JpgIsJpeg | resume_comparer.py:64 | `resume.jpg` is a `jpeg` |
| ResumeComparer.SecondFieldDecides | resume_comparer.py:64 | `cv.v2.jpg` is a `png`, because only the second field counts |
| ResumeComparer.ParseWinner | resume_comparer.py:159-164 | the parsed winner is `Resume A`, `Resume B` or none |
| ResumeComparer.FinalLineA | resume_comparer.py:159-164 | any answer ending `I prefer Resume A` parses as `Resume A` |
| ResumeComparer.FinalLineB | resume_comparer.py:159-164 | an answer ending `I prefer Resume B` parses as `Resume B` unless its analysis already says `prefer resume a` |
| ResumeComparer.ComparedLabels | resume_comparer.py:79-86 | a swap keeps the slots and `A_is_1` in step, so the reported `resume1` label names the slot holding the first argument |
| ResumeComparer.ReplayLabels | resume_comparer.py:170-173 | across any sequence of swaps every comparison's `resume1` label names the first argument's slot |
| ResumeComparer.WinMeansFirstArgumentWon | resume_comparer.py:170-173 | `resume1 == winner` iff the winner's slot holds the first argument |
| ResumeComparer.ToBeRankedKeyMissing | resume_comparer.py:203 | a comparison has no `to_be_ranked_resume` key, so reading it raises KeyError, while `resume1` and `winner` are present |
| ResumeComparer.OddMajority | resume_comparer.py:201-218 | for odd n, n comparisons always decide the vote |
| ResumeComparer.ReportedWithinN | resume_comparer.py:201-218 | a decided vote for odd n used between 1 and n comparisons |
| ResumeComparer.VoteOutcome | resume_comparer.py:185-218 | the vote returns the deciding comparison as soon as wins or losses reach (n+1)//2, that comparison is the latest on the majority side, and the vote uses no more comparisons than it reads |
| ResumeComparer.VoteWithinN | resume_comparer.py:201-218 | for odd n ≥ 1 the vote never falls out of the loop: it returns a comparison after 1 to n comparisons, or runs out of answers |
| ResumeComparer.Comparer.constructor | resume_comparer.py:43-51 | zero calls for both models and no resumes loaded |
| ResumeComparer.Comparer.ConstructResumesDict | resume_comparer.py:59-77 | puts the first resume in slot A and the second in slot B with their image types and sets `A_is_1`; a bad image name raises and changes nothing |
| ResumeComparer.Comparer.RandomiseResumes | resume_comparer.py:79-86 | a flip swaps the slots and negates `A_is_1` together; no flip changes nothing; a flip before any slots exist raises AttributeError |
| ResumeComparer.Comparer.CompareResumesWithLlm | resume_comparer.py:88-174 | counts one call for the model (KeyError for an unknown model), swaps at random and returns the comparison of the answer; without slots it raises AttributeError on either coin |
| ResumeComparer.Comparer.CompareResumes | resume_comparer.py:220-222 | the comparison of two resumes names the first argument's slot in `resume1` and counts one call; the slots and `A_is_1` are left as the one random swap puts them (as built if the model has no counter, untouched if a name has no `.`) |
| ResumeComparer.Comparer.CompareNext | resume_comparer.py:201-202 | the k-th comparison of the vote is the k-th of the replayed script, with one call counted |
| ResumeComparer.Comparer.BestOfNAsWritten | resume_comparer.py:185-203 | as written: even n raises ValueError, a name without `.` raises IndexError, negative odd n returns `None`; for odd n ≥ 1 exactly one call is counted and one swap made, then KeyError('to_be_ranked_resume') |
| ResumeComparer.Comparer.BestOfN | resume_comparer.py:185-218 | with line 203 read as `resume1 == winner`: even n raises ValueError before any call and changes nothing; otherwise the result is `Vote` over the replayed comparisons, one call counted per comparison used, and the slots left where those swaps put them |
| ResumeComparer.Comparer.PlayBestOf | resume_comparer.py:196-218 | with line 203 read as `resume1 == winner`: the counting loop returns `Vote` of the replayed comparisons, counts the calls it made and leaves the slots where its swaps put them |
| ResumeManager.Initialised | resume_manager.py:57-66 | every existing entry is kept as it was, every new unranked file gets rating 1500, rd 350, vol 0.06, and no other key appears |
| ResumeManager.InitKeepsStep | resume_manager.py:46-74 | `init_unranked` keeps every ranked file paired with an entry under its plain name, and every entry with a ranked file |
| ResumeManager.InitIdempotent | resume_manager.py:57-61 | running `init_unranked` twice is the same as running it once, because files with an entry are skipped |
| ResumeManager.InitThreeFiles | test_rating_manager.py:48-55 | initialising `a.png`, `xxx.png`, `zzz.png` ranks them as `1500-…`, empties `unranked` and gives each the default entry |
| ResumeManager.ThreeListed | test_rating_manager.py:49-50 | the sorted listing of that ranked folder is [`1500-a.png`, `1500-xxx.png`, `1500-zzz.png`] |
| ResumeManager.UnrankStep | resume_manager.py:105-112 | one turn: a name without a dash raises IndexError, a plain name without an entry is moved and then raises KeyError, and otherwise the name moves and its entry is popped |
| ResumeManager.UnrankFromShape | resume_manager.py:105-112 | a completed loop moves exactly the window's files, adds their plain names to `unranked` and pops exactly their entries |
| ResumeManager.WindowKeepsCovered | resume_manager.py:105-112 | popping the window's entries keeps every remaining entry paired with a ranked file |
| ResumeManager.WindowKeepsTracked | resume_manager.py:105-112 | when no two ranked files share a plain name, every remaining ranked file keeps its entry |
| ResumeManager.UnrankKeepsStep | resume_manager.py:81-117 | an `unrank_files` that raises nothing keeps ranked files and entries paired one to one |
| ResumeManager.UnrankAllEmpties | test_rating_manager.py:42-45 | unranking everything without error leaves an empty ranked folder and an empty `ratings.json` |
| ResumeManager.ResumeManager.constructor | resume_manager.py:16-24 | lists the ranked folder and hands the listing to a new rating manager |
| ResumeManager.ResumeManager.ReadRankedFolder | resume_manager.py:76-79 | the listing becomes the sorted ranked folder and the count its size |
| ResumeManager.ResumeManager.InitUnranked | resume_manager.py:46-74 | the folders and `ratings.json` after the loop are `InitOutcome` of those before |
| ResumeManager.ResumeManager.UnrankRange | resume_manager.py:99-117 | the loop's moves and pops, with `ratings.json` written only when the loop completes |
| ResumeManager.ResumeManager.UnrankFiles | resume_manager.py:81-117 | the folders, `ratings.json` and the error after `unrank_files` are those of `UnrankOutcome`: no-op on an empty folder, default bounds, `bad low index`/`bad high index` with nothing changed |

## Left out

- File I/O: `os.listdir`, `os.rename`, `open`, `json.load`/`json.dump` and base64 image reading are not modelled. Folders are sets of names and `ratings.json` is a map. A rename whose source is missing is not modelled, nor is a crash between renames. A rename onto an existing name replaces it.
- LLM plumbing: the prompt, the `anthropic` client, the media-type retry after an exception, `print`, `input` and `pretty_print` are not modelled. The model's answer text is a script input.
- Randomness: `random.sample` and `randint` are scripts of draws and flips. The probability that the sampling loop or the `None`-retry loop of `find_rank` ends is not reasoned about. Running out of a script is `ScriptExhausted`.
- Glicko-2 is the function parameter `glicko` and its floats are opaque. Statistics are the `Stats` datatype of reals.
- `ResumeManager.update_ratings` (resume_manager.py:26-44) is not modelled. It renames every ranked file by `int(rating)` of a Glicko result, so it needs Glicko's arithmetic and float truncation.
- `ResumeSorter.insert_all` (resume_sorter.py:134-136) is not modelled. It inserts the unranked files in `os.listdir` order, which is unspecified, so it would only repeat `Insert` over an arbitrary order.
- `FilenameManager.rm_rankstring` does not exist: resume_manager.py:108 and both rating managers call `rm_rankstring`, which would raise AttributeError. The model calls `rm_rankstring_from_filename`, the method they evidently mean.
- `find_rank` and `_compare_with_ranked_at_curr` call `self.resume_comparer.main`, which the comparer does not have, and read `to_be_ranked_resume` (resume_sorter.py:56, 61). Its constructor calls `LLMResumeComparer()` without the required `resume_folder` argument (resume_sorter.py:7, resume_comparer.py:43), so `ResumeSorter()` as written raises TypeError before any state exists; `ResumeSorter.Sorter.constructor` models the object the rest of the class evidently expects. The sorter's comparisons are therefore its verdict script of `Option<bool>`.
- The `_play_matches` `for` loop of resume_rating_manager.py is the recursive method `PlayFrom`, one call per turn, not a `while` loop.
- Aliasing: `ratings_data` is a dict that `_update_ratings` changes in place and returns, so the caller's dict changes too. The model passes maps as values and returns the new one.
- The iteration order of dicts is the `order` parameter of `StubRatingManager`. It decides which missing key is named in a KeyError, not whether one is raised.
- The `__main__` blocks of the rating managers and the sorter call methods or constructors that do not exist. They are read only for the intended schedule of three players.
- test_resume_sorter.py exercises another draft of `ResumeSorter`. Only its contiguity check (test_resume_sorter.py:36-47) is modelled, by the contiguity lemmas.
- test_rating_manager.py:74 expects `xxx.png`'s win flags to be [1, 0], while the code appends them in match order as [0, 1] (`StubRatingManager.ThreeResumesTally`). The order of the flags does not change Glicko-2's update, so this difference alone would not fail the assertion at test_rating_manager.py:74; the test cannot reach it anyway, because `_play_matches` calls the missing `rm_rankstring`.
- RankWalk.FindRankBounds: proved for N ≥ 3 only; for N ≤ 2 the walk leaves the list (`SmallListFirstWinGoesNegative`, `SingleNameWalks`).
- `int(str)` (`Text.ParseInt`) is modelled for an optional sign followed by ASCII digits only. Python's `int()` also accepts surrounding whitespace, `_` between digits and non-ASCII digits, so a prefix such as `12 ` raises ValueError in the model but not in the source. The ValueError message is shortened to "invalid literal for int()", and `lower()` (`Text.Lower`) lower-cases ASCII letters only.
- LlmRatingManager.RatingManager.CompareResumes, LlmRatingManager.RatingManager.PlayMatch, LlmRatingManager.RatingManager.PlayFrom, LlmRatingManager.RatingManager.PlayMatches, LlmRatingManager.RatingManager.UpdateRatings: the comparer's slots and `A_is_1` after a match are left unspecified. Every comparison rebuilds them (resume_comparer.py:220-222), and the rating manager never reads them.
- ResumeComparer.ParseWinner: its contract gives only the possible values; the rule for each answer is in `FinalLineA` and `FinalLineB`.
- ResumeComparer.Comparer.BestOfN: models the evident reading of resume_comparer.py:203 (a win when `resume1` names the winner); the code as written raises KeyError after the first call, which `ResumeComparer.Comparer.BestOfNAsWritten` models.
- ResumeSorter.InsertKeepsRanksContiguous: proved for 3 ≤ N < 1000 only. With one ranked name the walk indexes out of range or returns rank -1 (`RankWalk.SingleNameWalks`, listed under Findings); with two, a first win walks to index -1 and past it, and only a first loss (rank 1) keeps the ranks contiguous, which the lemma does not state.

## Findings

| source | as written | input that shows it | evidently intended | confidence | as-written member | corrected member |
|---|---|---|---|---|---|---|
| resume_sorter.py:46-48 | the walk returns 0 as soon as it steps onto index 0, without comparing against it | three ranked names, the resume beats the median and the last but loses to the first: rank 0 | compare at the end before stopping, rank 1 | high, not executed | RankWalk.UnprobedEndExample | RankWalk.FindRankCorrected |
| resume_sorter.py:43-44 | going up, the walk returns the index of the name the resume first loses to | five names, a win at index 2 and a loss at index 1: rank 1 | the index after that name, rank 2 | high, not executed | RankWalk.UpwardOffByOneExample | RankWalk.FindRankCorrected |
| resume_sorter.py:47-48 | going down, the walk stops at N-1 without comparing the last name | three names, the resume loses to all of them: rank 2 | rank N = 3, after the last name | high, not executed | RankWalk.LastPlaceExample | RankWalk.FindRankCorrected |
| resume_comparer.py:203 | `best_of_n` reads `comparison['to_be_ranked_resume']`, a key no comparison has | any odd n ≥ 1 and two names with a `.`: KeyError after the first counted call | count a win when `resume1` names the winner (resume_comparer.py:173) and stop at (n+1)//2 | high, not executed | ResumeComparer.Comparer.BestOfNAsWritten | ResumeComparer.Comparer.BestOfN |
| resume_sorter.py:23-48 | with one ranked name the walk starts at index 0 and steps off it without checking the bounds | one ranked name and a loss: index 1 is read, IndexError; a win then a loss: rank -1 | an insertion point in 0..N | high, not executed | RankWalk.SingleNameWalks | RankWalk.FindRankCorrected |
| rankstring.py:32 | the prefix is split off by position, `[:3]` and `[4:]` | rank 1000, `add_rankstring_to_filename('f', 1000)` splits into (`100`, `-f`) | split at the first dash, as filename_mgr.py:30-38 does | medium, not executed | RankString.WideRankExample | FilenameManager.AddThenSplit |

The walk of `find_rank` is modelled as written, so `ResumeSorter.Sorter.Insert` inserts where the as-written walk lands. `RankWalk.FindRankCorrected` states the repaired search beside it. `ResumeComparer.Comparer.BestOfN` counts a win when `resume1` names the winner, and `ResumeComparer.Comparer.BestOfNAsWritten` gives what the code as written does.
