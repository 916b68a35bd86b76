# A verified model of an NBA prediction and betting pipeline

This project models the core of a daily batch pipeline that predicts NBA games and grades bets on them. Each stage turns flat tables of game rows into new tables. The model follows the stages in order:

1. **Ingestion.** It decodes box-score links, computes the window of dates to crawl, parses box scores and player logs, and merges new rows into the stored tables. The merge drops duplicates by key and keeps the last copy (modules `Links`, `BoxScore`, `GmscCrawler`, `Dedup`).
2. **Before-game statistics.** Every feature of a game uses only earlier rows of its group: cumulative player GmSc, team win percentages and margins, the signed streak, rest days, rolling windows, head-to-head windows, and advanced ratings with their prior means (`GmscCumulative`, `Streaks`, `Rolling`, `FeatureFrame`, `AdvancedStats`).
3. **Feature assembly.** Home and away rows of a game are joined on `game_id`. Home-minus-away differences are added, along with an injury impact: the season-average GmSc of absent players, divided by 80 (`FinalDataset`, `MergeFinal`).
4. **Live prediction and export.** For the day after the latest stored game, each scheduled team's latest earlier game is found. That team's own side of the row is read, its streak is advanced by one game, and the thirteen-feature vector is built. The classifier is a parameter. Confidence bands sit at 0.65 and 0.35 (`BattlePredictor`, `ExportPredictions`).
5. **Odds.** The newest prediction file is picked and the betting page of the following day is read. Its rows are grouped by game, Chinese team names are mapped to codes, and the odds are the last number in the bet cell (`Odds`).
6. **Decisions.** A side's expected value is `p·odds − 1`. Two signal rules are modelled: a simple value rule and a banded rule. The analysis history is upserted by `Date_Home` and kept newest date first (`Decision`).
7. **Grading.** The side bet on is read off the signal's markers, and each unsettled row gets its score, winner and outcome; settled rows are never rewritten. The run ends with win rate, net units and ROI (`Grading`).
8. **Evaluation.** This covers the 2026 season report (train/test split, `Is_Correct`, confidence labels), the ten-bin calibration check, and the daily and cumulative accuracy (`SeasonReport`, `Calibration`, `Accuracy`).

Shared modules hold common building blocks:
- `Common`: `Option`, confidence bands, sums and means.
- `Dates`: civil dates, day numbers and season years.
- `Cells`: string cells and number parsing.
- `Ordering`: lexicographic keys and a stable sort.
- `Joins`: inner and left merges.
- `Patterns`: regular-expression search.

The model's conventions:
- A table is a `seq` of records.
- A pandas NaN is `Option.None`.
- Rates, probabilities and odds are exact `real`s.
- A file, page or clock the program reads arrives as a parameter.

Code that works step by step keeps that form:
- Loops are methods proved against specification functions (for example `Grading.Report.GradeDay` and `Odds.GroupRows`).
- The graded report is a class whose array is updated in place.

## Model

| member | source | states |
|---|---|---|
| Common.ConfidenceBand | nba_battle_predictor.py:271-273 | a probability is high-home exactly when it is at least 0.65, high-away exactly when at most 0.35, and neutral exactly when strictly between |
| Common.BandSymmetric | nba_battle_predictor.py:271-273 | p is high-home exactly when 1 − p is high-away, and neutral exactly when 1 − p is |
| Common.FilterMapContents | v300_parse_data_incremental.py:227 | a list comprehension with a filter holds exactly the images of the accepted elements |
| Common.FilterMapAppend | v501_get_odds_for_prediction.py:80-147 | filtering a concatenation concatenates the filtered parts |
| Common.FilterMapOrder | v501_get_odds_for_prediction.py:80-147 | an accepted element's image sits at its slot, and later accepted elements sit at later slots |
| Common.SumAppend | v200_gmsc_cumulative.py:18-21 | the sum of two concatenated columns is the sum of their sums |
| Common.SumNonNegative | v200data_process9.py:113-117 | a sum of non-negative values is non-negative |
| Common.Mean | v1_update_v53.py:85 | a mean exists exactly for a non-empty column (pandas' NaN otherwise), and the mean times the count is the sum |
| Common.MeanBounds | predictions_2026_full_report.py:79-80 | the mean of values in [lo, hi] lies in [lo, hi] |
| Common.PadDigitsValue | nba_battle_predictor.py:35 | zero-padded rendering has exactly the requested width, only digits, and reads back as the value modulo the power of ten |
| Common.PadDigitsExact | nba_battle_predictor.py:35 | a value that fits the width reads back unchanged |
| Dates.NextDay | v300_get_links.py:86 | `+ timedelta(days=1)` yields a valid date whose day number is one more |
| Dates.DayNumberBounds | v300_get_links.py:79 | a valid date's ordinal lies inside its own year and month |
| Dates.DayNumberMonotone | v300_get_links.py:79 | calendar order implies a strictly smaller ordinal |
| Dates.DayNumberOrder | v300_get_links.py:79 | ordinal comparison is exactly calendar comparison, and equal ordinals mean equal dates |
| Dates.SeasonYear | v300_parse_data_incremental.py:148-150 | the season is the year, plus one exactly when the month is October or later |
| Dates.SeasonStartsInOctober | v200_gmsc_cumulative.py:27-28 | a date belongs to season s or later exactly when it is on or after 1 October of year s − 1 |
| Dates.SeasonYearMonotone | v200data_process9.py:27 | a later date never belongs to an earlier season |
| Dates.CompactDate | v501_get_odds_for_prediction.py:175 | `%Y%m%d` has eight digits |
| Dates.IsoDate | v200data_process9.py:162 | `%Y-%m-%d` has ten characters with dashes at positions 4 and 7 |
| Dates.CompactDateRoundTrip | v300_parse_data_incremental.py:148-149 | reading the `YYYYMMDD` slices back gives the date that was rendered |
| Dates.IsoFromCompact | v300_parse_data_incremental.py:156 | slicing `YYYYMMDD` into `YYYY-MM-DD` inserts dashes at 4 and 7 and keeps every digit |
| Dates.IsoFromCompactAgrees | v300_parse_data_incremental.py:156 | the sliced rewriting of a compact date is its ISO rendering |
| Links.PageLinks | v300_get_links.py:33-37 | a page yields at most one link per anchor |
| Links.PageLinksContents | v300_get_links.py:33-37 | every "Box Score" anchor with an href contributes the site base followed by that href, and every link comes from such an anchor |
| Links.LinksForDate | v300_get_links.py:10-44 | one scoreboard request yields the page's Box Score links, and none when the request fails |
| Links.AddDays | v300_get_links.py:86 | adding n days gives a valid date n ordinals later |
| Links.DatesFrom | v300_get_links.py:77-86 | the window has n days, the i-th being i days after the start |
| Links.DatesFromCovers | v300_get_links.py:79 | a calendar day is in the window exactly when its ordinal lies in [start, start + n) |
| Links.DatesFromAscending | v300_get_links.py:77-86 | the days are visited in strictly increasing calendar order, hence each once |
| Links.AllLinksSnoc | v300_get_links.py:80-82 | one more queried day appends that day's links |
| Links.AllLinksContents | v300_get_links.py:80-82 | the collected links are exactly those found on some queried day |
| Links.DatesFromSnoc | v300_get_links.py:86 | a window one day longer ends with the next day |
| Links.MaxDate | v300_get_links.py:58 | the stored maximum is one of the dates and no date is later |
| Links.WindowLength | v300_get_links.py:68-72 | the window runs from start through today inclusive, and is empty when start is after today |
| Links.UpdateLinks | v300_get_links.py:50-103 | a missing game table ends the run and an empty one fails; otherwise the days queried are the window from the day after the latest stored date through today, and the saved links are the sorted distinct links of those days (empty when nothing is found or the window is empty) |
| Links.LinkTableContents | v300_get_links.py:57-94 | a day is queried exactly when it is after every stored game and not after today; the saved links are strictly increasing and are exactly the links found on the queried days |
| BoxScore.DecodeBoxScoreUrl | v300_parse_data_incremental.py:40-45 | no fields exactly when no position of the URL matches `/boxscores/(\d{8})0(\w{3})\.html`; otherwise an eight-digit date and a three-character word team |
| BoxScore.MatchesAtShift | v300_parse_data_incremental.py:40 | a match of b stays a match after a prefix |
| BoxScore.BoxScorePathMatches | v300_parse_data_incremental.py:40 | the path the link crawler builds from a date and a team matches the pattern |
| BoxScore.NoMatchInSiteBase | v300_parse_data_incremental.py:40 | no match can start inside the site's base URL |
| BoxScore.DecodeAfterPrefix | v300_parse_data_incremental.py:40-45 | behind a prefix in which no match starts, a box-score path decodes to its date and home team |
| BoxScore.BoxScoreUrlRoundTrip | v300_get_links.py:36 | decoding a link the crawler produced gives back its date and home team |
| BoxScore.TeamFromHref | v300_parse_data_incremental.py:49-55 | no team exactly when `/teams/(\w{3})/` matches nowhere; otherwise a three-character word |
| BoxScore.TeamHrefRoundTrip | v300_parse_data_incremental.py:51 | a team link decodes to its team |
| BoxScore.GameIdFields | v300_parse_data_incremental.py:57 | the game id is 19 characters with the date, away and home teams at fixed offsets |
| BoxScore.GameIdInjective | v300_parse_data_incremental.py:57 | two games with the same id have the same date, away and home team |
| BoxScore.SeasonOfCompact | v300_parse_data_incremental.py:148-150 | the season read off `YYYYMMDD` is the season of that date |
| BoxScore.CompactDateFields | v300_parse_data_incremental.py:148-156 | for a real date, the season and the ISO rewriting computed from the compact string agree with the calendar |
| BoxScore.FetchPage | v300_parse_data_incremental.py:25-35 | the retry loop returns the outcome the attempt-by-attempt definition gives |
| BoxScore.FetchNoneIffAllRaised | v300_parse_data_incremental.py:25-35 | the page is abandoned exactly when every attempt raised; an HTTP error status still leaves a response |
| BoxScore.FetchFirstSuccess | v300_parse_data_incremental.py:26-30 | the first successful attempt's page is the one used |
| BoxScore.ReadTotals | v300_parse_data_incremental.py:99-114 | reading a footer row gives the totals the stat-by-stat definition gives |
| BoxScore.ReadStats | v300_parse_data_incremental.py:99-114 | the footer loop over any list of stats computes the stat-by-stat totals, stopping at the first cell that is not an integer |
| BoxScore.FirstFailureSticks | v300_parse_data_incremental.py:104-106 | once a stat cell fails to parse, the whole page fails |
| BoxScore.StatKeyInjective | v300_parse_data_incremental.py:106 | distinct stats give distinct `side_stat` keys |
| BoxScore.TotalsSucceed | v300_parse_data_incremental.py:104-106 | the totals succeed exactly when every present stat cell holds an integer |
| BoxScore.TotalsKeys | v300_parse_data_incremental.py:104-106 | the totals have a `side_stat` entry exactly for the stats whose cell is present |
| BoxScore.TotalsValues | v300_parse_data_incremental.py:106 | each entry is the integer its cell reads as |
| BoxScore.GameScoreValue | v300_parse_data_incremental.py:140-144 | a missing or blank cell gives 0, a number gives that number, an unparsable cell gives 0 |
| BoxScore.PlayerRecordsContents | v300_parse_data_incremental.py:120-160 | exactly the rows that are not header rows, have minutes and carry a player id contribute, each with its own record |
| BoxScore.PlayerRecordsFields | v300_parse_data_incremental.py:146-157 | every record carries the table's team, the season of the game date and the ISO date |
| BoxScore.ExtractPlayers | v300_parse_data_incremental.py:120-160 | the loop collects the records of a table's kept rows, none without a table or body |
| BoxScore.BoxScoreOf | v300_parse_data_incremental.py:35-57 | no response, an unmatched URL or a missing away team gives nothing; otherwise the game row carries `date_away_at_home` and both teams |
| BoxScore.ParseBoxScore | v300_parse_data_incremental.py:10-172 | the parse computes what the page-level definition gives |
| BoxScore.ParsedPageFacts | v300_parse_data_incremental.py:57-165 | a parsed page has a 19-character id starting with its date, the numeric date, and only players of its two teams with the game's season and ISO date |
| BoxScore.PresentColumns | v300_parse_data_incremental.py:227-228 | the kept columns keep the fixed order and are exactly the fixed columns that are present |
| BoxScore.PresentColumnsAll | v300_parse_data_incremental.py:227 | when every fixed column is present the selection is the fixed list itself |
| BoxScore.PresentColumnsPrefix | v300_parse_data_incremental.py:227 | when the first n fixed columns are present the selection starts with exactly those n |
| BoxScore.GameColumnsHas | v300_parse_data_incremental.py:217 | the batch frame has the six identifying columns and the keys of every new row's totals |
| BoxScore.NewTeamColumns | v300_parse_data_incremental.py:219-228 | the team batch's columns keep the fixed order, are exactly the fixed columns some new row has, and start with the six identifying columns |
| BoxScore.FullBatchColumns | v300_parse_data_incremental.py:219-232 | a batch in which some game has every total is appended in exactly the fixed 36-column order |
| BoxScore.PresentUrls | v300_parse_data_incremental.py:188 | `dropna` keeps exactly the non-blank link cells |
| BoxScore.PresentUrlsFilter | v300_parse_data_incremental.py:188 | the kept links are the present cells filtered in row order |
| BoxScore.PresentUrlsOrder | v300_parse_data_incremental.py:188 | a present cell above another is listed before it, so the later keep-last merges see the links in table order |
| BoxScore.RunDataUpdate | v300_parse_data_incremental.py:175-258 | no link table changes nothing; otherwise each table is the keep-last merge of stored and new rows on `game_id` or `(Player_ID, Date)`, and stays as stored when nothing new was scraped; new team rows are appended in the `existing_cols` order, nothing being appended when there are none |
| BoxScore.NoPresentUrls | v300_parse_data_incremental.py:188-192 | a link table of blank cells gives no URL |
| BoxScore.NoLinksNoChange | v300_parse_data_incremental.py:190-192 | with no links nothing new is scraped, so both tables stay as stored |
| Dedup.KeySetCons | v300_parse_data_incremental.py:238 | the keys of a table with one more leading row gain that row's key |
| Dedup.KeepLast | v300_parse_data_incremental.py:238 | `drop_duplicates(keep='last')` leaves every key once, loses no key, and never adds rows |
| Dedup.KeepLastKeepsLastOccurrences | v300_parse_data_incremental.py:238 | a row is kept exactly when no later row has its key |
| Dedup.DropKeys | v600_merge_analysis.py:146-150 | the filter keeps only rows of the table whose key is outside the given set |
| Dedup.DropKeysAppend | v600_merge_analysis.py:146-150 | filtering by key distributes over concatenation |
| Dedup.DropKeysNone | v600_merge_analysis.py:146-150 | a filter over every key of the table keeps nothing |
| Dedup.KeySetDropKeys | v600_merge_analysis.py:146-150 | the keys left after the filter are the table's keys minus the dropped ones |
| Dedup.DropKeysTwice | v600_merge_analysis.py:146-150 | filtering twice by the same keys changes nothing more |
| Dedup.DropKeysKeepLast | v300_parse_data_incremental.py:238 | filtering by key commutes with keeping last occurrences |
| Dedup.KeySetAppend | v300_parse_data_incremental.py:232-238 | the keys of a concatenation are the union of the keys |
| Dedup.KeepLastConsIn | v300_parse_data_incremental.py:238 | a leading row whose key occurs later is dropped |
| Dedup.KeepLastConsOut | v300_parse_data_incremental.py:238 | a leading row whose key does not occur later is kept in front |
| Dedup.KeepLastAppend | v300_parse_data_incremental.py:232-238 | appending a batch and deduplicating keeps the stored rows of other keys, then the deduplicated batch |
| Dedup.KeepLastUnique | v300_parse_data_incremental.py:238 | a table already unique on the key is left as it is |
| Dedup.KeepLastIdempotent | v300_parse_data_incremental.py:238 | deduplicating a deduplicated table changes nothing |
| Dedup.NewBatchWins | v300_parse_data_incremental.py:230-239 | on a key collision the merged table holds the new batch's last row for that key, and every such row is kept |
| Dedup.ReingestIdempotent | v300_parse_data_incremental.py:230-239 | appending the same batch again after a merge gives the same table |
| Joins.MatchesOf | v200data_process9.py:141 | a left row meets every right row with its key |
| Joins.MatchesOfSound | v200data_process9.py:141 | every row of the matches pairs the left row with a right row of its key |
| Joins.InnerJoin | v200data_process9.py:141 | every pair of rows with equal keys yields an output row |
| Joins.InnerJoinSound | v200data_process9.py:141 | every output row combines a left and a right row with equal keys |
| Joins.FindByKey | v600_merge_analysis.py:87-93 | the found row is in the right table with the key; none means no right row has it |
| Joins.LeftJoin | v600_merge_analysis.py:87-93 | a left merge keeps at least every left row |
| Joins.MatchesOfUnique | v600_merge_analysis.py:87-93 | with unique right keys a left row meets at most the one row with its key |
| Joins.LeftJoinUnique | v600_merge_analysis.py:87-93 | with unique right keys the left merge keeps the left table row for row, attaching the matching right row or none |
| Patterns.SearchFrom | v300_parse_data_incremental.py:40 | the found position matches and no earlier position from the start does; none means no position matches |
| Patterns.Search | v300_parse_data_incremental.py:40 | `re.search` finds the leftmost match, or reports that none exists |
| Patterns.SearchWhole | v501_get_odds_for_prediction.py:35 | a string that is exactly one instance of the pattern is found at position 0 |
| Cells.LeadingSpaces | v300_parse_data_incremental.py:127 | the count covers a blank prefix and stops at the first non-space |
| Cells.TrailingSpaces | v300_parse_data_incremental.py:127 | the count covers a blank suffix and stops at the last non-space |
| Cells.Strip | v300_parse_data_incremental.py:127 | `strip()` is empty exactly for blank text; otherwise it is the middle slice between the leading and trailing whitespace (the 29 characters `str.isspace` accepts), with no whitespace at either end |
| Cells.SplitSign | v300_parse_data_incremental.py:106 | an optional leading `+` or `-` becomes a factor of ±1 and the rest is kept |
| Cells.ParseInt | v300_parse_data_incremental.py:106 | `int(text)` succeeds exactly on stripped text of an optional sign and at least one digit, giving the signed decimal value |
| Cells.DotIndex | v300_parse_data_incremental.py:142 | the index is the first `.`, or the length when there is none |
| Cells.ParseDecimal | v300_parse_data_incremental.py:142 | `float(text)` on plain decimal text; `ParseDecimalSucceeds` states when it succeeds, `ParseDecimalValue` and `ParseDecimalInteger` its value |
| Cells.ParseDecimalSucceeds | v300_parse_data_incremental.py:142 | `float(text)` succeeds exactly when the stripped, unsigned text has a digit, only digits and points, and at most one point; so it never succeeds on blank text |
| Cells.ParseDecimalValue | v300_parse_data_incremental.py:142 | whitespace, an optional sign, `whole.frac` and whitespace read as the signed value of `whole.frac` |
| Cells.ParseDecimalInteger | v300_parse_data_incremental.py:142 | whitespace, an optional sign, a digit string and whitespace read as the signed integer value |
| Cells.ParseIntAgreesWithDecimal | v300_parse_data_incremental.py:142 | an integer text reads the same through `float` |
| Cells.ParseDigits | v300_parse_data_incremental.py:106 | a digit string reads as its decimal value |
| Cells.StripUnique | v200data_process9.py:110 | a padded name strips to its core, whatever the padding |
| Cells.StripUnchanged | v200data_process9.py:110 | text with no whitespace at either end is its own strip |
| Cells.FindChar | v200data_process9.py:110 | the index is the first occurrence of the character, or the length |
| Cells.Split | v200data_process9.py:110 | `split(',')` gives at least one piece and no piece holds a comma |
| Cells.StripAll | v200data_process9.py:110 | each piece is stripped, in order |
| Cells.SplitFirst | v200data_process9.py:110 | splitting at the first comma gives the text before it, then the split of the rest |
| Cells.SplitJoinFrom | v200data_process9.py:110 | splitting `", "`-joined names gives the first name, then each later name behind its space |
| Cells.StripTrimmed | v200data_process9.py:110 | a trimmed name, with or without the space of `", "` before it, strips to itself |
| Cells.StripPieces | v200data_process9.py:110 | stripping those pieces gives the names back |
| Cells.SplitJoinRoundTrip | v300_parse_data_incremental.py:96-97 | the inactive list written with `", ".join` is read back by `split(',')` and `strip()` as the same names, for names without commas or outer spaces |
| Ordering.KeyLessTransitive | v1_update_v53.py:80-82 | the multi-column sort order is transitive |
| Ordering.KeyLessTotal | v1_update_v53.py:80-82 | any two distinct keys are ordered one way or the other |
| Ordering.StrKeyInjective | v600_merge_analysis.py:161 | string keys compare code point by code point, and distinct strings have distinct keys |
| Ordering.DateKeyOrder | v1_update_v53.py:80-82 | the date key orders dates exactly as the calendar does |
| Ordering.Insert | v1_update_v53.py:73 | inserting into a sorted table keeps it sorted and adds exactly that row |
| Ordering.SortBy | v1_update_v53.py:73 | `sort_values` returns the same rows, sorted by the key |
| Ordering.InsertKeepsTies | v1_update_v53.py:73 | an inserted row goes before the rows with its key, and the rows of every key keep their order |
| Ordering.SortByStable | v1_update_v53.py:73 | for every key, the sorted rows with that key are the input's rows with that key, in input order: the sort is stable, as pandas' multi-column sort is |
| Ordering.Reverse | v600_merge_analysis.py:161 | the reverse puts the i-th row from the end at position i |
| Ordering.ReverseMultiset | v600_merge_analysis.py:161 | reversing keeps the same rows |
| Ordering.ReverseSortedDescending | v600_merge_analysis.py:161 | the reverse of an ascending sort is in descending order |
| Ordering.InsertUnique | v300_get_links.py:92 | inserting a string into a strictly increasing list keeps it strictly increasing and adds exactly that string |
| Ordering.SortedUnique | v300_get_links.py:92 | `sorted(list(set(xs)))` is strictly increasing and holds exactly the strings of xs |
| Ordering.KeySetMultiset | v200_get_gmsc.py:246-248 | reordering rows keeps the same keys |
| Ordering.KeepLastSorted | v200_get_gmsc.py:246-248 | deduplicating a sorted table keeps it sorted and only keeps its own rows |
| Ordering.ConsSorted | v200_get_gmsc.py:246-248 | a row no larger than the rows of a sorted table can go in front |
| GmscCrawler.FirstSuccess | v200_get_gmsc.py:36-41 | the index found is the first attempt whose status check passes; none means every attempt failed |
| GmscCrawler.Backoff | v200_get_gmsc.py:44-47 | the k-th wait (from 0) is `delay·(k+1)` |
| GmscCrawler.FetchGameLog | v200_get_gmsc.py:35-53 | the retry loop returns the first successful response, or none, and waits exactly the back-off schedule for the failures it retries |
| GmscCrawler.BackoffSchedule | v200_get_gmsc.py:36-50 | every waited-on attempt failed; there is no wait after the last attempt; the result is empty exactly when every attempt failed, and then there were retries − 1 waits |
| GmscCrawler.GmscValue | v200_get_gmsc.py:94-97 | a parsable GmSc gives its value and an unparsable one gives 0 |
| GmscCrawler.LogRecord | v200_get_gmsc.py:75-123 | a record exists exactly for a real game row (no header class, an integer ranker, a GmSc, a dated link), and carries the player, season, game number, GmSc, stripped date and team with its fallback chain |
| GmscCrawler.RowsRecords | v200_get_gmsc.py:74-123 | the records are exactly those of the game rows, all for the player and season |
| GmscCrawler.PageRecords | v200_get_gmsc.py:60-72 | the regular-season table, else the older one, gives records of the player and season only |
| GmscCrawler.ParseGameLog | v200_get_gmsc.py:55-129 | the row loop computes the page's records |
| GmscCrawler.SeasonRecords | v200_get_gmsc.py:197-203 | a season's records all belong to the player and season |
| GmscCrawler.SeasonsRecords | v200_get_gmsc.py:190-198 | only seasons up to `Year_Max + 1` are fetched |
| GmscCrawler.ActiveFetchesBothSeasons | v200_get_gmsc.py:168 | an active player (`Year_Max ≥ 2025`) has a cut-off of at least 2026, so both 2025 and 2026 are fetched |
| GmscCrawler.CollectedSkipsStored | v200_get_gmsc.py:184-186 | no new record belongs to a player already in the output file |
| GmscCrawler.Snapshots | v200_get_gmsc.py:213-221 | at most one snapshot per 50 players, each unique on (Player_ID, Date) |
| GmscCrawler.FinalTable | v200_get_gmsc.py:232-251 | nothing is saved exactly when there are no records; otherwise the table is sorted by (Player_ID, Date), unique on it, keeps every key, and holds only collected rows |
| GmscCrawler.CrawlPlayer | v200_get_gmsc.py:197-210 | the season loop gives the records of each season up to the cut-off |
| GmscCrawler.CrawlStep | v200_get_gmsc.py:179-221 | one more player in the list appends that player's records when crawled, and a snapshot when crawled at a multiple of 50 |
| GmscCrawler.Crawl | v200_get_gmsc.py:141-251 | the saved table is the final table of old plus new records, and the snapshots are those of the player loop |
| GmscCrawler.ResumeKeepsStored | v200_get_gmsc.py:144-186 | resuming keeps every stored (player, date), and a stored player's row is one of the stored rows |
| GmscCrawler.NothingLeftToCrawl | v200_get_gmsc.py:184-186 | with every active player stored, nothing is collected and no snapshot is saved |
| GmscCumulative.Scores | v200_gmsc_cumulative.py:17 | each row's score is its coerced GmSc, 0 where the cell is not a number |
| GmscCumulative.Groups | v200_gmsc_cumulative.py:21 | each row's group is its (Player_ID, Season_Year) |
| GmscCumulative.CumulativeColumn | v200_gmsc_cumulative.py:21 | one running total per row |
| GmscCumulative.BeforeColumn | v200_gmsc_cumulative.py:24 | one before-game value per row |
| GmscCumulative.CumulativeIsRunningSum | v200_gmsc_cumulative.py:18-21 | the running total is the sum of the group's earlier scores plus this one, i.e. the group's previous total plus this game's score, or just this score at the first game |
| GmscCumulative.BeforeIsPriorSum | v200_gmsc_cumulative.py:24 | the before-game value is the sum over strictly earlier games of the same player-season, and 0 at its first game |
| GmscCumulative.Computed | v200_gmsc_cumulative.py:18-24 | one computed row per sorted log |
| GmscCumulative.CumulativeGmsc | v200_gmsc_cumulative.py:5-31 | the saved table has at most as many rows as the logs |
| GmscCumulative.KeptRows | v200_gmsc_cumulative.py:27-28 | the filter keeps exactly the computed rows dated on or after 2015-10-01 |
| GmscCumulative.FilterOnlyRemoves | v200_gmsc_cumulative.py:27-28 | every saved row is a sorted row on or after the cutoff whose value sums its group's earlier games over the whole table, filtered rows included |
| GmscCumulative.CutoffKeepsWholeSeasons | v200_gmsc_cumulative.py:27-28 | for rows whose season is their date's, the cutoff keeps exactly the seasons from 2016 on and never splits a player-season |
| Streaks.StreakStep | v200data_process9.py:79-80 | a win gives `prev+1` after a winning run and 1 otherwise; a loss gives `prev−1` after a losing run and −1 otherwise |
| Streaks.TrailingRun | v200data_process9.py:77-80 | the final run of equal results is at least one long in a non-empty sequence |
| Streaks.StreakIsSignedRun | v200data_process9.py:74-81 | the streak after a sequence of results is the length of its final run of equal results, positive after a win and negative after a loss, 0 for no games |
| Streaks.StreakSeries | v200data_process9.py:74-82 | one before-game streak per game of the group |
| Streaks.StreakSeriesRecurrence | v200data_process9.py:74-81 | the first game of a group gets 0, and each later game the streak step of the game before it, so a game is given the streak before its own result |
| Rolling.GroupValuesBefore | v200data_process9.py:47 | a group's values before row n are at most n |
| Rolling.GroupPrev | v200data_process9.py:85 | the previous row of the same group is earlier, has the group's key, and no row in between has it; none means no earlier row of the group |
| Rolling.GroupPrevBelow | v200data_process9.py:85 | the last row of key k below n, or none when there is no such row |
| Rolling.ShiftedCumSumIsPriorSum | v200data_process9.py:47-49 | the grouped cumulative sum shifted one row inside the group is the sum over the group's earlier rows, never the row's own value |
| Rolling.HasPriorIffPrev | v200data_process9.py:48-49 | a row has earlier group rows exactly when it has a previous group row |
| Rolling.GroupShift | v200data_process9.py:85 | the grouped shift is present exactly for rows that are not first in their group |
| Rolling.PriorMean | v1_update_v53.py:85-86 | the shifted expanding mean exists exactly after the group's first row, and times the count is the sum of the earlier values |
| Rolling.GroupStart | v200data_process9.py:44 | in a frame sorted by group, the group's run starts at or before the row and holds only its key |
| Rolling.PriorIsSlice | v200data_process9.py:44-49 | in a frame of contiguous groups the earlier group rows are the slice from the group's start |
| Rolling.PriorCountIsOffset | v200data_process9.py:48 | `cumcount()` is the offset from the group's start |
| Rolling.PresentValues | v200data_process9.py:69 | the values present among the window's entries, no more than there are entries |
| Rolling.ShiftedColumn | v200data_process9.py:68-69 | the column the windows read is the grouped shift of the values |
| Rolling.LastN | v200data_process9.py:69 | the last n items, or all when there are fewer |
| Rolling.WindowGrouped | v200data_process9.py:69-72 | the intended window (the group's own previous w values) exists exactly after the group's first row |
| Rolling.WindowAsWrittenDeepInGroup | v200data_process9.py:69-72 | once a row has at least w earlier rows in its group, the frame-wide window as written equals the group's mean of its previous w values |
| Rolling.DeepWindowValues | v200data_process9.py:69-72 | once a row has at least w earlier rows in its group, the w entries of the grouped-shift column ending at that row are exactly the group's previous w values |
| Rolling.WindowAsWrittenReadsOnlyEarlierRows | v200data_process9.py:69-72 | the window as written never reads the row's own value or any later row |
| Rolling.RollingMeanMissing | v200data_process9.py:69 | the window is missing, and falls back to its default, only when every entry in it is missing |
| Rolling.RollingMeanPresent | v200data_process9.py:69 | one present entry in the window is enough for a value |
| Rolling.CumSumFrameShiftedInsideGroup | v200data_process9.py:63-64 | away from a group's first row the ungrouped shift of the grouped cumulative sum is the sum of the group's earlier rows |
| Rolling.FrameShift | v200data_process9.py:63-64 | `shift(1)` over the whole frame: nothing at row 0, else the previous row; `Rolling.CumSumFrameShiftedInsideGroup` and `FeatureFrame.LocationWinPctLeaksAcrossGroups` state what it does to a grouped cumulative sum |
| Rolling.CumSumColumn | v200data_process9.py:47 | each row holds its group's running total |
| Rolling.CountColumn | v200data_process9.py:48 | each row holds its group's `cumcount() + 1` |
| Rolling.PriorStep | v200data_process9.py:49 | the previous group row has one earlier group row fewer |
| Rolling.ShiftedRatioIsPriorMean | v200data_process9.py:49-50 | shifted running total over shifted running count is the mean of the group's earlier values, and 0 at the first row |
| Rolling.ShiftedCountIsPriorCount | v200data_process9.py:52 | the shifted count with NaN as 0 is the number of earlier group rows |
| Rolling.FrameShiftedRatioInsideGroup | v200data_process9.py:63-64 | away from a group's first row the frame-wide shifted ratio is the ratio over the group's earlier rows |
| Rolling.PriorRatioFirstRow | v200data_process9.py:63-66 | the intended ratio is 0 at a group's first row |
| Rolling.GroupSeriesAt | v200data_process9.py:82 | `groupby().apply` hands the function the group's series, in which the row sits right after its earlier group rows |
| FeatureFrame.SidesOfGame | v200data_process9.py:27-43 | the away row's win is 1 − home win and its margin the negated home margin; home wins exactly when it scored more; both rows carry the game's season and face each other, one Home and one Away |
| FeatureFrame.Melt | v200data_process9.py:43 | the frame holds two rows per game: all home rows, then all away rows |
| FeatureFrame.CumulativeFeaturesArePrior | v200data_process9.py:47-56 | Before_Game_Win_Pct and Avg_Margin are the means over the earlier rows of the (Season_Year, team) group, Total_Games their count, and all are 0 at the group's first game |
| FeatureFrame.LocationWinPctIntended | v200data_process9.py:58-66 | the grouped home/away win percentage is the wins over the games at that location among the group's earlier rows, 0 without any |
| FeatureFrame.LocationWinPctInsideGroup | v200data_process9.py:63-64 | after a group's first game the ungrouped shift as written gives the grouped value |
| FeatureFrame.LocationWinPctLeaksAcrossGroups | v200data_process9.py:63-64 | as written, a team's first game inherits the home record of the team sorted before it: 1.0 where the grouped value is 0 |
| FeatureFrame.WindowProperties | v200data_process9.py:68-72 | a row's own result never enters its window; with at least w earlier rows in a contiguous group both windows are the group's mean of its last w results; the default applies only when every window entry is missing (as written) or the group has no earlier row (intended) |
| FeatureFrame.WindowLeaksAcrossGroups | v200data_process9.py:69-72 | as written, a team's opener sees the previous team's last results: a last-5 win percentage of 1.0 where the grouped window is empty |
| FeatureFrame.BeforeStreakIsGroupStreak | v200data_process9.py:74-82 | the streak the group's `calculate_streak` writes at a row is the streak of the group's earlier results, 0 at the first game |
| FeatureFrame.DaysSinceLastGame | v200data_process9.py:84-86 | the day gap to the group's previous game, 7 at its first |
| FeatureFrame.Framed | v200data_process9.py:46-89 | one feature row per frame row, in frame order |
| FeatureFrame.CalculateStreak | v200data_process9.py:74-81 | the loop appends the current streak before advancing it, giving the streak of every prefix |
| FinalDataset.PlayerAvgPerGame | v200data_process9.py:98-102 | inside a player-season the before-game total is divided by the number of earlier games, giving the average GmSc before the game; a zero total gives a zero average |
| FinalDataset.GroupMeansEntries | v200data_process9.py:104 | the grouped mean has an entry exactly for the keys that occur, each the mean of that key's rows |
| FinalDataset.AvgBySeasonKeys | v200data_process9.py:104 | a (season, name) has an average exactly when some player row carries it |
| FinalDataset.MissingGmscStep | v200data_process9.py:113-116 | one more name adds its season average when known, and nothing otherwise |
| FinalDataset.CalculateInjuryImpact | v200data_process9.py:106-117 | the loop gives 0 for a missing or empty dnp, and otherwise the sum of the known (season, name) averages over the stripped comma-split names, divided by 80 |
| FinalDataset.MissingGmscAppend | v200data_process9.py:113-116 | the missing GmSc of two lists of names is the sum of theirs |
| FinalDataset.MissingGmscUnknown | v200data_process9.py:115 | names unknown for the season add nothing |
| FinalDataset.InjuryImpactOfNames | v200data_process9.py:106-117 | the inactive list as the box-score parser stores it is read back name by name: the impact is the sum of their season averages over 80 |
| FinalDataset.AddDiffs | v200data_process9.py:145-160 | the loop writes a Diff column exactly for the twelve paired columns, each home value minus opponent value |
| FinalDataset.FinalTable | v200data_process9.py:6-168 | `create_final_dataset_v108`: the inner join of the Home and the Away rows of the feature table on `game_id`; `FinalRowsArePairs` states which rows it holds |
| FinalDataset.FinalRowsArePairs | v200data_process9.py:121-141 | every output row pairs a Home row with an Away row of the same game id, and every such pair gives an output row |
| AdvancedStats.Possessions | v1_update_v53.py:26-27 | `fga + 0.44·fta - orb + tov`; `SidesMirror` states the pace built from it |
| AdvancedStats.GamePace | v1_update_v53.py:28 | the mean of the two possession counts; stated by `SidesMirror` |
| AdvancedStats.Per100 | v1_update_v53.py:30-31 | a rating times the pace is 100 times the count |
| AdvancedStats.ReboundShare | v1_update_v53.py:40-43 | the offensive-rebound share with 0 for 0/0; stated by `ReboundShareRange` |
| AdvancedStats.ReboundShareRange | v1_update_v53.py:40-43 | the offensive-rebound share lies in [0, 1], is 0 where pandas gets 0/0, and otherwise times (orb + opponent drb) is orb |
| AdvancedStats.SidesMirror | v1_update_v53.py:26-35 | both sides share the pace, which is the mean of the two possession counts; a side's def_rtg is the other's off_rtg, so home net rating is minus away's; off_rtg times pace is 100 times the points |
| AdvancedStats.Melt | v1_update_v53.py:56-72 | the frame holds every game's Home row, then every game's Away row |
| AdvancedStats.TwoRowsPerGame | v1_update_v53.py:72-73 | the sorted table is a permutation of the two rows per game: it has twice as many rows, each game's rows are in it, and every row is one of them |
| AdvancedStats.HomeAwayRows | v1_update_v53.py:46-70 | the Home row names the home team against the away team and the Away row the reverse, both with the game id and the season of the date, and opposite net ratings |
| AdvancedStats.Column | v1_update_v53.py:85 | the stat column of the table, row by row |
| AdvancedStats.AdvancedTable | v1_update_v53.py:72-93 | the saved table has one row per sorted team row |
| AdvancedStats.BeforeAvgIsPriorMean | v1_update_v53.py:83-90 | `Before_Game_Avg_X` is 0 at a group's first game and otherwise the mean of X over the earlier games of the (season_year, team) group |
| AdvancedStats.BeforeLineNoLookahead | v1_update_v53.py:83-90 | a row's before-game averages depend only on the rows up to it |
| AdvancedStats.GroupValuesBeforePrefix | v1_update_v53.py:83-86 | the same rows before n give the same group values before n |
| AdvancedStats.BeforeGameAverage | v1_update_v53.py:83-90 | the loop over the rows, keeping a running (sum, count) per group, writes the shifted expanding mean, 0 at each group's first row |
| AdvancedStats.BeforeLines | v1_update_v53.py:80-90 | the six before-game columns of the sorted table, row by row |
| AdvancedStats.UpdateAdvancedStats | v1_update_v53.py:24-93 | the method computes the saved table |
| MergeFinal.AvgColumnNames | v200_merge_final.py:42-83 | an average column, and its `Opp_` form, is neither `game_id`, `Opp_Abbr.1` nor a `Diff_` column, while its `Diff_` name is one |
| MergeFinal.PrefixInjective | v200_merge_final.py:52-83 | prefixing a column name is injective, so the renamed and the `Diff_` columns never collide |
| MergeFinal.AdvColumns | v200_merge_final.py:42 | the selected columns are exactly the `Before_Game_Avg_` columns of the advanced table |
| MergeFinal.Without | v200_merge_final.py:35-36 | dropping a column keeps every other column and nothing else |
| MergeFinal.OppColumns | v200_merge_final.py:52 | the away names are the averages with `Opp_` in front, position by position |
| MergeFinal.CleanBase | v200_merge_final.py:35-36 | the `Opp_Abbr.1` duplicate is dropped when present, every other cell is kept, and the table is unchanged without it |
| MergeFinal.HomeRow | v200_merge_final.py:46-63 | a home row keeps `game_id` and the average columns, with their cells |
| MergeFinal.AwayRow | v200_merge_final.py:49-71 | an away row keeps `game_id` and the averages renamed `Opp_X` with their cells; the team column is dropped |
| MergeFinal.AssignDiff | v200_merge_final.py:86 | the new `Diff_c` column holds `c - Opp_c` in every row, and every other column keeps its cells |
| MergeFinal.AddDiffColumns | v200_merge_final.py:80-86 | the loop over the averages builds the table the `Diff_` specification function describes |
| MergeFinal.WithDiffsEffect | v200_merge_final.py:80-86 | the loop keeps the row count and every column that is not a `Diff_` one; it adds `Diff_c = c - Opp_c` for each average whose two operands are present |
| MergeFinal.RenameColumns | v200_merge_final.py:61-74 | a shared column is renamed in place with the merge suffix, every other column keeps its name and position |
| MergeFinal.RenamedMember | v200_merge_final.py:61-74 | a name is in a renamed column list exactly when it was there unshared, or it is a shared name with the suffix |
| MergeFinal.MergeOnColumns | v200_merge_final.py:61-74 | `pd.merge` on `game_id` keeps the unshared columns of both tables, the key once, and each column both tables have twice, as `c_x` and `c_y` |
| MergeFinal.MergeOn | v200_merge_final.py:61-74 | the merge on `game_id` with pandas' default suffixes; its columns are stated by `MergeOnColumns`, its rows by `MergeOnRow` and `MergeOnComplete` |
| MergeFinal.Merged | v200_merge_final.py:61-74 | the two merges of the base table with the home and the away projections; stated by `MergedRows`, `MergedRowsComplete`, `MergedColumns`, `BaseHasAverage`, `BaseHasOppAverage` and `MergedDropsDuplicate` |
| MergeFinal.MergeFinal | v200_merge_final.py:25-91 | `merge_final_v200`: the merged table with the `Diff_` loop applied; stated by `MergeFinalDiffs` |
| MergeFinal.SuffixLetters | v200_merge_final.py:61-74 | a merge suffix keeps a name's first letter and ends it with `x` or `y` |
| MergeFinal.OppEndsWith | v200_merge_final.py:49-52 | a name ends with a suffix exactly when its `Opp_` form does |
| MergeFinal.SideFrameColumns | v200_merge_final.py:42-54 | the home projection holds `game_id` and the averages; the away projection `game_id` and the averages with `Opp_`, each of which it has |
| MergeFinal.SideInitials | v200_merge_final.py:42-54 | apart from `game_id`, a home projection column starts with `B` and an away one with `Opp_B` |
| MergeFinal.HomeRenamedInitial | v200_merge_final.py:42-66 | a home average renamed by the first merge still starts with `B` |
| MergeFinal.MergedColumns | v200_merge_final.py:61-85 | an average the base table has neither as `c` nor as `Opp_c` is present after both merges, with its `Opp_` form, so the guard keeps it |
| MergeFinal.BaseHasAverage | v200_merge_final.py:61-85 | an average the base table already has becomes `c_x` and `c_y` in the first merge, and the plain `c` is gone (unless `c` itself ends in `_x` or `_y`), so the guard skips it |
| MergeFinal.BaseHasOppAverage | v200_merge_final.py:61-74 | an average whose `Opp_` name the base table already has is met by the second merge, which keeps `Opp_c_x` and `Opp_c_y` |
| MergeFinal.BaseHasOppAverageGone | v200_merge_final.py:61-85 | that plain `Opp_c` is then gone (unless `c` ends in `_x` or `_y`), so the guard skips `c` |
| MergeFinal.WithDiffsSkips | v200_merge_final.py:80-86 | an average the loop does not visit, or whose two operands are not both present, leaves its `Diff_` column as it was, cell for cell |
| MergeFinal.OverlapSkipped | v200_merge_final.py:61-86 | an average the base table already has, as `c` or `Opp_c`, gets no `Diff_` column from the loop |
| MergeFinal.MergedDropsDuplicate | v200_merge_final.py:35-74 | the merged table has no `Opp_Abbr.1` column |
| MergeFinal.MergeFinalDiffs | v200_merge_final.py:61-89 | the saved table has the merged rows; every average the base table lacks (as `c` and as `Opp_c`) gets a correct `Diff_` column, every average it has gets none, the other cells are unchanged, and there is no duplicate column |
| MergeFinal.MergeFinalAdds | v200_merge_final.py:61-86 | the averages the base table lacks get `Diff_c = c - Opp_c` on every row |
| MergeFinal.MergeFinalSkips | v200_merge_final.py:61-86 | the averages the base table has get no new `Diff_` column |
| MergeFinal.MergeFinalKeeps | v200_merge_final.py:35-86 | the cells of the non-`Diff_` columns are those of the merged table, and there is no `Opp_Abbr.1` column |
| MergeFinal.CombineKey | v200_merge_final.py:61-66 | a merged row keeps the left row's `game_id`: the key is never suffixed and no suffixed name is `game_id` |
| MergeFinal.SideFrameRows | v200_merge_final.py:46-54 | each home (away) projection row comes from a Home (Away) row of the advanced table |
| MergeFinal.MergeOnRow | v200_merge_final.py:61-74 | an inner merge on `game_id` yields only combinations of a left and a right row with equal keys, with the shared columns suffixed |
| MergeFinal.MergeOnComplete | v200_merge_final.py:61-74 | every left and right row of one game meet in the merge |
| MergeFinal.MergedRows | v200_merge_final.py:61-74 | every merged row joins a base row with the home and the away advanced rows of the same game |
| MergeFinal.MergedRowsComplete | v200_merge_final.py:61-74 | conversely, every base row whose game has a home and an away advanced row reaches the merged table |
| BattlePredictor.Weekday | nba_battle_predictor.py:35-37 | the weekday number `%a` renders is below 7 |
| BattlePredictor.SevenStep | nba_battle_predictor.py:35-37 | adding a day moves the weekday count on by one, modulo 7 |
| BattlePredictor.WeekdayNext | nba_battle_predictor.py:35-37 | the day after a valid date falls on the next weekday |
| BattlePredictor.Decimal | nba_battle_predictor.py:37 | `str(day)` is a non-empty digit string, one digit exactly below 10 |
| BattlePredictor.DateLabelsDiffer | nba_battle_predictor.py:35-44 | the padded and the unpadded date labels agree from the 10th on and differ before it, so either schedule spelling matches |
| BattlePredictor.ScheduleSeason | nba_battle_predictor.py:20 | from October on the page is the next year's season, otherwise this year's |
| BattlePredictor.ScheduleGames | nba_battle_predictor.py:39-58 | the row loop lists the (home, visitor) pairs of the target day's rows that have both team links, in page order |
| BattlePredictor.ScheduleGamesPairs | nba_battle_predictor.py:39-57 | a pair is listed exactly when a row of the target day carries a home and a visitor link with those three-letter team codes |
| BattlePredictor.GmscSeason | nba_battle_predictor.py:91-92 | the season is 2026 exactly when the single-game file has a 2026 game, and 2025 otherwise |
| BattlePredictor.Ids | nba_battle_predictor.py:94 | the player-id column, row by row |
| BattlePredictor.Scores | nba_battle_predictor.py:94 | the single-game GmSc column, row by row |
| BattlePredictor.GmscMap | nba_battle_predictor.py:62-98 | `get_player_gmsc_dict`: empty without the cumulative or the single-game file, else the per-player mean GmSc of one season; its entries are stated by `GmscMapEntries` and its season by `GmscSeason` |
| BattlePredictor.GmscMapEntries | nba_battle_predictor.py:62-98 | a player has an entry exactly when they played a game in the chosen season, and the entry is the mean of their GmSc in it |
| BattlePredictor.TeamInjuries | nba_battle_predictor.py:102-103 | the team's rows are injuries of that team, and there are none exactly when no injury names the team |
| BattlePredictor.LiveContribution | nba_battle_predictor.py:108-116 | a player adds a non-negative amount, positive exactly when they have an id with a positive known average |
| BattlePredictor.LiveInjuryImpact | nba_battle_predictor.py:100-123 | `calculate_team_injury_impact` of the predictor: the team's summed contributions over 80; `CalculateTeamInjuryImpact` is proved to compute it and `LiveInjuryImpactBounds` bounds it |
| BattlePredictor.CalculateTeamInjuryImpact | nba_battle_predictor.py:100-123 | the accumulating loop returns the sum of the contributions divided by 80, and 0 for a table without the team |
| BattlePredictor.LiveMissingBounds | nba_battle_predictor.py:105-116 | the missing total is never negative, and is 0 when no player contributes |
| BattlePredictor.LiveInjuryImpactBounds | nba_battle_predictor.py:100-123 | the impact is never negative, and is 0 for a team with no injured players |
| BattlePredictor.CandidatesContents | nba_battle_predictor.py:204-205 | a row is a candidate exactly when the team is on either side of it and it precedes the target day |
| BattlePredictor.RowOrderLatest | nba_battle_predictor.py:205-208 | rows in date order are in calendar order |
| BattlePredictor.SortedLast | nba_battle_predictor.py:205-208 | the last row of the date-sorted games has no later row |
| BattlePredictor.LastGameBefore | nba_battle_predictor.py:203-209 | the last of the team's earlier games in date order; `LastGameBeforeSpec` states that it is the latest such game, and none exactly when there is none |
| BattlePredictor.LastGameBeforeSpec | nba_battle_predictor.py:203-209 | the chosen row is a game of the team before the target day with no later such game, and there is none exactly when the team has no earlier game |
| BattlePredictor.AdvanceStreak | nba_battle_predictor.py:232-234 | on a whole number the predictor's streak update equals the training table's streak step |
| BattlePredictor.AdvanceStreakAfter | nba_battle_predictor.py:232-234 | advancing the stored streak after some results by the next result yields the streak after all of them |
| BattlePredictor.StatsReadOwnSide | nba_battle_predictor.py:211-234 | whichever side the team played on, its own before-game values are read, and the streak advances by its own result (`Win == 1` at home, `Win == 0` on the other side) |
| BattlePredictor.StatsDefaults | nba_battle_predictor.py:214-234 | a row without the columns yields 0 everywhere, 0.5 for the head-to-head win rate, and a streak of 1 or -1 |
| BattlePredictor.GetStats | nba_battle_predictor.py:203-236 | `get_stats`: the stats read from the team's latest earlier game and its date, nothing without one; `LastGameBeforeSpec` states which game, `StatsReadOwnSide` that its own side's columns and streak are read, and `StatsDefaults` the defaults |
| BattlePredictor.FeatureIndex | nba_battle_predictor.py:142-148 | each stat has its own slot among the thirteen features, none the rest-day or the injury slot |
| BattlePredictor.FeatureIndexInjective | nba_battle_predictor.py:142-148 | different stats have different slots |
| BattlePredictor.FeatureColumnsNamed | nba_battle_predictor.py:142-148 | slot 0 is `Diff_Days_Since_Last_Game`, slot 9 `Diff_Total_Injury_Impact`, and each stat's slot is named after that stat's `Diff_` column |
| BattlePredictor.FeatureVector | nba_battle_predictor.py:251-265 | the thirteen features in `feature_columns` order: the rest-day difference in slot 0, the injury difference in slot 9, and in each stat's slot the home value minus the away value |
| BattlePredictor.FeatureVectorProperties | nba_battle_predictor.py:245-265 | the rest difference is the day gap between the away and the home last games, whatever the target day; swapping the teams negates every feature |
| BattlePredictor.PredictSingleGame | nba_battle_predictor.py:238-273 | there is no prediction exactly when either team has no earlier game; a prediction's probability is the model applied to the feature vector of both teams' latest games and live injury impacts, and its band is the confidence band of that probability |
| BattlePredictor.MaxDate | nba_battle_predictor.py:168 | the latest date exists exactly for a non-empty table, is one of its dates, and no date is later |
| BattlePredictor.TargetAfterEveryGame | nba_battle_predictor.py:168-169 | the target day exists for a non-empty table, follows every stored game, and is the day after the latest one |
| BattlePredictor.TargetDate | nba_battle_predictor.py:168-169 | the day after the latest stored game; `TargetAfterEveryGame` states that it follows every stored game |
| ExportPredictions.ChargedGmsc | v500_export_predictions.py:97-103 | a player is charged their known average when it is not exactly 0, and the 5.0 of a rotation player otherwise, so never 0 |
| ExportPredictions.Charged | v500_export_predictions.py:93-107 | only players charged a positive value are listed, and no more players than rows |
| ExportPredictions.ExportInjuryImpact | v500_export_predictions.py:85-110 | `calculate_team_injury_impact` of the export: the summed charge over 80 and the names charged; `CalculateExportInjuryImpact` is proved to compute it, `ExportInjuryBounds` and `ChargedRows` state its properties |
| ExportPredictions.ChargedStep | v500_export_predictions.py:97-107 | the rows up to k+1 list exactly the rows up to k plus row k when its charge is positive |
| ExportPredictions.ChargedSumSnoc | v500_export_predictions.py:106 | the accumulated sum grows by the charge of each added player |
| ExportPredictions.ChargeRows | v500_export_predictions.py:90-107 | the row loop returns the listed players and their summed charge |
| ExportPredictions.CalculateExportInjuryImpact | v500_export_predictions.py:85-110 | the method returns the impact (the summed charge divided by 80) and the listed names; (0, []) without the team |
| ExportPredictions.ChargedSumNonNegative | v500_export_predictions.py:105-106 | a sum of positive charges is never negative, and positive when any player is listed |
| ExportPredictions.ChargedRows | v500_export_predictions.py:97-107 | every row is listed exactly when every charge is positive, so only a negative average drops a player |
| ExportPredictions.ExportInjuryBounds | v500_export_predictions.py:85-110 | the impact is never negative, is (0, []) for a team without injuries, and is positive whenever a name is listed |
| ExportPredictions.ConfidenceLabel | v500_export_predictions.py:245-248 | "High (Home)", "High (Away)" and "Toss-up" are exactly the three confidence bands |
| ExportPredictions.GameRow | v500_export_predictions.py:177-261 | the export row of one game, nothing when either team lacks stats; `GameRowValues` states its fields and `ExportRowsSpec` when it exists |
| ExportPredictions.ExportGame | v500_export_predictions.py:177-261 | the loop body builds the export row of a game, or none when either team lacks stats |
| ExportPredictions.ExportGames | v500_export_predictions.py:173-263 | the game loop keeps, in schedule order, the rows of the games both teams have stats for |
| ExportPredictions.ExportRowsSpec | v500_export_predictions.py:175-261 | every exported row carries the target day, a scheduled pair and the label of its probability; a scheduled game is exported exactly when both teams have an earlier game |
| ExportPredictions.GameRowValues | v500_export_predictions.py:177-261 | an exported row comes from both teams' latest earlier games: its probability is the model on their feature vector, its label that probability's, its net-rating, injury and streak differences the vector's entries, and its injury lists the charged names |
| ExportPredictions.ExportRowValues | v500_export_predictions.py:173-263 | every row the game loop exports has those values for one of the scheduled games |
| ExportPredictions.OutputFile | v500_export_predictions.py:160-268 | a file is written exactly when some game was exported, and it is named `predictions_` + the ISO target day + `.csv` |
| Odds.MapTeam | v501_get_odds_for_prediction.py:12-136 | a listed Chinese name gives its three-letter code, and any other name gives "UNKNOWN" |
| Odds.GroupingContents | v501_get_odds_for_prediction.py:74-78 | a game id is a key exactly when some row carries it, and a game's list holds only page rows with that id |
| Odds.GameIdsProperties | v501_get_odds_for_prediction.py:74-78 | each game id is a key once, every key has at least one row, and an unseen id has none |
| Odds.GroupStep | v501_get_odds_for_prediction.py:75-78 | one more row extends its game's list and adds its id as a new key only the first time it appears |
| Odds.GroupedStep | v501_get_odds_for_prediction.py:75-78 | the loop invariant (keys in first-appearance order, each list its game's rows) survives one more row |
| Odds.GroupRows | v501_get_odds_for_prediction.py:74-78 | the grouping loop gives the ids in first-appearance order and each game's rows in page order |
| Odds.KnownNamesContents | v501_get_odds_for_prediction.py:101-106 | the collected names are exactly the first row's link texts that are listed team names |
| Odds.CollectKnownNames | v501_get_odds_for_prediction.py:101-106 | the loop collects the listed names of the first row's links, in order |
| Odds.FirstKnownIsFirst | v501_get_odds_for_prediction.py:90-98 | `extract_team_name` is the first of the collected names, or nothing when there are none |
| Odds.KnownNamesCons | v501_get_odds_for_prediction.py:104-106 | collecting over one more leading link adds that link exactly when it is a listed name |
| Odds.DigitRun | v501_get_odds_for_prediction.py:127 | the digit run from i is all digits and stops at a non-digit or at the end |
| Odds.DecimalAt | v501_get_odds_for_prediction.py:127 | a `[-+]?\d*\.\d+` match spans at least a point and one digit |
| Odds.IntegerAt | v501_get_odds_for_prediction.py:127 | a `\d+` match spans at least one character |
| Odds.MatchAt | v501_get_odds_for_prediction.py:127 | a match, decimal first, is never empty |
| Odds.TokensIffDigit | v501_get_odds_for_prediction.py:127-129 | `re.findall` finds a number exactly when the text holds a digit |
| Odds.PointAt | v501_get_odds_for_prediction.py:127-128 | the split position is the first point, or the end when there is none |
| Odds.MatchWellFormed | v501_get_odds_for_prediction.py:127 | every match has one of the two shapes of the pattern |
| Odds.PointAtFirst | v501_get_odds_for_prediction.py:127-128 | the first point is found |
| Odds.PointAtDigits | v501_get_odds_for_prediction.py:127-128 | a run of digits has no point |
| Odds.TokensWellFormed | v501_get_odds_for_prediction.py:127-128 | every token found has the shape `float` reads |
| Odds.CellOdds | v501_get_odds_for_prediction.py:121-129 | the odds are missing exactly when there is no cell or the cell has no digit |
| Odds.MatchStopsAtBarrier | v501_get_odds_for_prediction.py:127 | a match starting before a character that is neither digit, point nor sign ends at or before it |
| Odds.LastTokenAfterBarrier | v501_get_odds_for_prediction.py:127-128 | the last number found after such a character is the last number of the whole text |
| Odds.DecimalTokenValue | v501_get_odds_for_prediction.py:128 | `float` of an unsigned `whole.frac` token is the decimal value of `whole.frac` |
| Odds.IntegerTokenValue | v501_get_odds_for_prediction.py:128 | `float` of a digit token is its integer value |
| Odds.CellOddsDecimal | v501_get_odds_for_prediction.py:121-129 | a cell that is just `whole.frac` reads as the decimal value of `whole.frac` |
| Odds.CellOddsLastDecimal | v501_get_odds_for_prediction.py:121-129 | whatever precedes it (a handicap such as "+3.5"), a cell ending in a separator and `whole.frac` reads as the value of `whole.frac` |
| Odds.CellOddsLastInteger | v501_get_odds_for_prediction.py:121-129 | a cell ending in a separator and a digit string reads as that integer |
| Odds.CellOddsSignedInteger | v501_get_odds_for_prediction.py:127-128 | a sign is matched only before a point, so "-5" reads 5 |
| Odds.TeamNames | v501_get_odds_for_prediction.py:100-115 | when the first row names two known teams they are away and home in that order; otherwise each row's first known name is its side's |
| Odds.ParseGame | v501_get_odds_for_prediction.py:83-145 | a kept game has two rows and two known codes; the away code is the first row's first known name, the home code its second one or else the second row's first known name; the first row's odds are the away odds and the second row's the home odds |
| Odds.ParseGameKept | v501_get_odds_for_prediction.py:83-118 | a game is kept exactly when it has two rows and both names resolve, from the first row when it names two teams and from each row otherwise |
| Odds.CollectOdds | v501_get_odds_for_prediction.py:80-147 | the loop over the grouped games builds the daily odds list |
| Odds.DailyOddsSpec | v501_get_odds_for_prediction.py:74-147 | at most one record per game id, each parsed from a game with at least two rows and known codes on both sides |
| Odds.DailyOddsComplete | v501_get_odds_for_prediction.py:74-147 | every game that parses has its record in the list, in the order the games first appear on the page |
| Odds.DailyOddsEmpty | v501_get_odds_for_prediction.py:74-147 | the list is empty exactly when no game on the page parses |
| Odds.PredictionDateText | v501_get_odds_for_prediction.py:29-170 | a prediction file name yields a date text of the shape `\d{4}-\d{2}-\d{2}` |
| Odds.Newest | v501_get_odds_for_prediction.py:43 | the chosen file is one of the files, and none is newer |
| Odds.LatestPrediction | v501_get_odds_for_prediction.py:25-44 | a chosen file matches the pattern, and there is none exactly when no listed name matches |
| Odds.LatestPredictionNewest | v501_get_odds_for_prediction.py:39-44 | the chosen file is at least as new as every matching file |
| Odds.ParseIsoDate | v501_get_odds_for_prediction.py:171 | `strptime` accepts only a calendar day |
| Odds.IsoDateRoundTrip | v501_get_odds_for_prediction.py:171-192 | the ISO text of a valid day has the pattern's shape and parses back to that day |
| Odds.PlanForExport | v501_get_odds_for_prediction.py:157-192 | when the newest file is the export of day d, the page of the next day (Taiwan time) is fetched and the odds are saved as `odds_for_` + d + `.csv` |
| Odds.SavedOdds | v501_get_odds_for_prediction.py:186-198 | a file `odds_for_` + d + `.csv` is written with the day's non-empty odds list, and nothing is written when there is no plan or the list is empty |
| Odds.ManualTestDates | v501_manual_test.py:128-138 | the manual test's pair, 20251124 and 2025-11-23, follows the same one-day rule |
| Decision.HomeProb | v600_merge_analysis.py:34 | the home probability is `Home_Win_Prob`, else `Predicted_Prob_Win (1)`, else 0.5 |
| Decision.Ev | v600_merge_analysis.py:38-58 | a side's value is missing exactly when its odds are |
| Decision.EvFairOdds | v600_merge_analysis.py:49-58 | a bet has positive value exactly when the odds beat the fair odds 1/p, and the value does not fall as the odds rise |
| Decision.CalculateEv | v600_merge_analysis.py:31-60 | without a line both values are missing; otherwise home is valued at hp and away at 1 - hp, each on its own odds |
| Decision.EvSidesSum | v600_merge_analysis.py:49-58 | with both odds the two values add up to hp·oh + (1 - hp)·oa - 2 |
| Decision.SimpleSignalSpec | v600_merge_analysis.py:101-118 | the signal is "無賠率" exactly when a value is missing; otherwise it is "觀望" exactly when neither value is positive, and each positive side is listed once (home first), ★ exactly above 0.1 and 🔥 exactly in that side's confident band |
| Decision.SimpleTags | v600_merge_analysis.py:106-118 | a simple signal's text only ever holds 主, 客, 觀望 or 無賠率 |
| Decision.SimpleTagsSpec | v600_merge_analysis.py:108-118 | 主 is in the text exactly when the home value is positive, 客 exactly when the away value is, and 觀望 exactly when neither is |
| Decision.BandedSignalBands | v800_value_analyzer.py:62-102 | a missing value gives "無賠率" first; 80-90 % is the overconfidence pass, above 90 % the home lock and below 20 % the away lock, and 40-60 % without a bet the noise-zone pass, all whatever the values |
| Decision.BandedBetsDisjoint | v800_value_analyzer.py:75-102 | a home bet is signalled exactly in the strong band with a positive home value or in the home lock band, an away bet exactly in the sniper band with a positive away value or in the away lock band, never both; two entries can only be the two risky mentions |
| Decision.BandedTags | v800_value_analyzer.py:70-102 | the text is just "無賠率" exactly for missing odds, and just PASS exactly for the two pass signals |
| Decision.Analyze | v600_merge_analysis.py:77-132 | the left merge of the predictions with the odds lines, each row valued and signalled; stated by `AnalyzeKeepsEveryRow` and `UnmatchedHasNoOdds` |
| Decision.AnalyzeKeepsEveryRow | v600_merge_analysis.py:77-132 | every prediction is kept in order; without an odds file each row has no odds, no values and "無賠率"; with one, each row carries its own pair's line or none |
| Decision.UnmatchedHasNoOdds | v600_merge_analysis.py:87-106 | a prediction that the left merge leaves without a line gets "無賠率" under both rules |
| Decision.Upsert | v600_merge_analysis.py:137-161 | the batch plus the stored rows it does not replace, newest date first; stated by `UpsertSpec`, `KeptHistoryComplete` and `UpsertIdempotent` |
| Decision.UpsertSpec | v600_merge_analysis.py:137-161 | the written report holds exactly the batch plus the stored rows whose `Date_Home` key the batch lacks, each once, newest date first |
| Decision.KeptHistoryComplete | v600_merge_analysis.py:146-152 | every stored row whose key the batch lacks is kept |
| Decision.DropKeysKeeps | v600_merge_analysis.py:152 | the key filter keeps a row whose key is not dropped |
| Decision.DropKeysCount | v600_merge_analysis.py:152 | the key filter removes every copy of a row with a dropped key, and keeps every copy of the others |
| Decision.UpsertIdempotent | v600_merge_analysis.py:137-161 | writing the same batch twice leaves the same rows as writing it once |
| Decision.UpsertContents | v600_merge_analysis.py:137-161 | the written rows are, as a multiset, the kept stored rows plus the batch |
| Decision.KeptAfterUpsert | v600_merge_analysis.py:137-161 | upserting the batch again drops exactly the same stored rows: the rows kept from the written report are the rows kept from the table |
| Grading.BetSide | v700_grade_report.py:130-145 | the bet is on home exactly when the text names 主 or BET HOME and holds no 觀望, PASS or 無賠率; on away exactly when it names 客 or BET AWAY but not home and holds none of those; otherwise there is no bet |
| Grading.Winner | v700_grade_report.py:126 | the winner is home on a strictly higher home score, and away otherwise, a tie included |
| Grading.OutcomeOf | v700_grade_report.py:131-155 | the outcome is "-" exactly without a side, WIN exactly when the side bet on scored strictly more, LOSS otherwise |
| Grading.Graded | v700_grade_report.py:112-155 | a settled row, or one whose game has no score, is unchanged; any other row gets both scores, the winner and the outcome of its side; the teams, tags and odds are never touched |
| Grading.GradedIdempotent | v700_grade_report.py:106-114 | grading a graded row again against the same scores changes nothing |
| Grading.GradeAll | v700_grade_report.py:97-155 | grading keeps the number of rows |
| Grading.GradeAllSpec | v700_grade_report.py:97-155 | settled rows and rows without a score stay as they were, every other row gets an outcome, and a second pass changes nothing |
| Grading.UniqueDatesContents | v700_grade_report.py:97 | `unique()` lists each date once, and exactly the dates of the table |
| Grading.GradeDate | v700_grade_report.py:103-155 | grading one date keeps the number of rows |
| Grading.GradedUpTo | v700_grade_report.py:99-155 | grading the first dates keeps the number of rows |
| Grading.Report.constructor | v700_grade_report.py:89-95 | the report's array holds the table read |
| Grading.Report.GradeDay | v700_grade_report.py:112-155 | the row loop of one date updates the array in place to that date's rows, each graded against the day's scores, and leaves every other row alone |
| Grading.Report.Grade | v700_grade_report.py:97-160 | the date loop, skipping all-settled days and days without scores, leaves every row graded against its own day's scores |
| Grading.SkipSettledDay | v700_grade_report.py:105-107 | skipping a day whose rows are all WIN or LOSS loses nothing: grading it would change no row |
| Grading.SkipEmptyDay | v700_grade_report.py:109-110 | skipping a day without scores loses nothing |
| Grading.NextDate | v700_grade_report.py:99-155 | grading one more date extends the graded prefix of dates |
| Grading.Profit | v700_grade_report.py:176-187 | `odds - 1` on the side bet on for a win, `-1` for a loss, missing when the winning odd is; `NetBounds` and `RoiFloor` state the net built from it |
| Grading.CountOf | v700_grade_report.py:163-165 | a count of outcomes is at most the number of rows |
| Grading.SummaryOf | v700_grade_report.py:162-190 | the summary's wins and losses are the counts of WIN and LOSS rows |
| Grading.Summarize | v700_grade_report.py:162-190 | the counting and the ROI loop compute the summary |
| Grading.CountSettled | v700_grade_report.py:163-165 | wins plus losses is at most the row count, and is 0 exactly when no row is settled |
| Grading.WinRateBounds | v700_grade_report.py:166 | the win rate is a fraction, 0 when nothing is settled and 1 when every settled bet won |
| Grading.NetBounds | v700_grade_report.py:176-187 | with every win priced at odds of at least 1, the net is known, never below minus the losses, and exactly that with no win |
| Grading.RoiFloor | v700_grade_report.py:172-190 | one unit per bet loses at most everything: the ROI is at least -100 %, and exactly -100 % when every bet lost |
| Grading.SimpleSignalSide | v700_grade_report.py:130-145 | a simple-rule signal is graded as a home bet when the home value is positive, else as an away bet when the away value is, else not at all |
| Grading.BandedSignalSide | v700_grade_report.py:130-145 | a banded-rule signal with missing odds or a pass is never graded, the locks and the strong and sniper bets are graded on their own side |
| SeasonReport.MissingColumnsSpec | predictions_2026_full_report.py:28-31 | the missing list is exactly the feature columns the table lacks, and it is empty exactly when every feature column is present |
| SeasonReport.Filled | predictions_2026_full_report.py:33 | `fillna(0)` keeps every feature and replaces each missing one by 0 |
| SeasonReport.FilledRows | predictions_2026_full_report.py:33 | the filled table has the same rows, each filled in place |
| SeasonReport.SplitPartition | predictions_2026_full_report.py:36-41 | training holds exactly the rows before 2026 and testing exactly the 2026 rows, so the two share no row; with the later seasons they account for every row once |
| SeasonReport.GetConfidence | predictions_2026_full_report.py:71-76 | "High (Home)", "High (Away)" and "Normal" are exactly the three confidence bands |
| SeasonReport.ConfidenceLabelsAgree | predictions_2026_full_report.py:71-76 | the report's labels are the export's, except that the middle band is called "Normal" instead of "Toss-up" |
| SeasonReport.Scored | predictions_2026_full_report.py:65-68 | `Is_Correct` is 1 exactly when the result is the predicted class, and 0 otherwise |
| SeasonReport.ScoreAll | predictions_2026_full_report.py:61-76 | one result line per test row, each scored from the model's probability for that row |
| SeasonReport.HighConfidenceContents | predictions_2026_full_report.py:82 | the high-confidence lines are exactly the result lines not labelled "Normal" |
| SeasonReport.SumCorrectIsHits | predictions_2026_full_report.py:79-85 | the `Is_Correct` column sums to the number of right predictions |
| SeasonReport.MeanIsHitRate | predictions_2026_full_report.py:84 | the mean of `Is_Correct` is right predictions over lines |
| SeasonReport.ScoredBinary | predictions_2026_full_report.py:68-82 | every scored line, and so every high-confidence line, has `Is_Correct` 0 or 1 |
| SeasonReport.EvaluateValues | predictions_2026_full_report.py:36-85 | an evaluated report scores the test rows with the model fitted on the training rows; its accuracy is hits over lines, and the high-confidence accuracy hits over high-confidence lines |
| SeasonReport.CorrectValuesBounds | predictions_2026_full_report.py:68-79 | the `Is_Correct` values are 0 or 1 |
| SeasonReport.FullReportSpec | predictions_2026_full_report.py:28-89 | a missing column aborts; a written report has a line per 2026 game, each correct exactly when the prediction is the result, labelled by its probability; both accuracies are fractions, and the high-confidence one is missing exactly when every game is "Normal" |
| SeasonReport.AccuracyBounds | predictions_2026_full_report.py:79 | over a non-empty set of scored lines the accuracy is between 0 and 1 |
| SeasonReport.HighAccuracyBounds | predictions_2026_full_report.py:82-85 | the high-confidence accuracy is missing exactly when every line is "Normal", and otherwise lies between 0 and 1 |
| SeasonReport.FullReportValues | predictions_2026_full_report.py:28-85 | a written report comes from a present table; its lines are the 2026 rows scored by the model fitted on the earlier seasons; the accuracy is right predictions over 2026 games, and the high-confidence accuracy the same over the lines not labelled "Normal" |
| SeasonReport.NoTestSeasonSpec | predictions_2026_full_report.py:36-41 | the run stops for want of a 2026 season exactly when no row belongs to 2026 |
| Calibration.FirstBin | v850_calibration_check.py:33-34 | the bin found from i is the first whose upper edge reaches p |
| Calibration.BinOf | v850_calibration_check.py:33-34 | a probability gets a bin exactly when it lies in [0, 1] |
| Calibration.BinOfSpec | v850_calibration_check.py:33-34 | a probability in [0, 1] falls in exactly one bin, [0, 0.1] for the first and (i/10, (i+1)/10] for the others |
| Calibration.BinSummary | v850_calibration_check.py:37-51 | a bin has statistics exactly when it has games: its count, the mean result as the actual win rate and the mean predicted probability |
| Calibration.PredAvgInBin | v850_calibration_check.py:37-52 | a bin's mean prediction lies within the bin's edges |
| Calibration.MarkerOf | v850_calibration_check.py:57-61 | ✅ exactly within 5 points, ⚠️ exactly over 10 points too high, 💎 exactly over 10 points too low, nothing otherwise |
| Calibration.Stats | v850_calibration_check.py:37-38 | the grouped table has ten entries, each the statistics of its own bin |
| Calibration.BinStep | v850_calibration_check.py:52-71 | the loop body for a non-empty bin gives its line, its sweet spots and its danger zone |
| Calibration.AnalyzeCalibration | v850_calibration_check.py:45-71 | the bin loop collects every non-empty bin's line and the sweet spots and danger zones in bin order |
| Calibration.StatsWellFormed | v850_calibration_check.py:37-51 | each table entry names its own bin with a positive count, and is present exactly when the bin has games |
| Calibration.LinesSpec | v850_calibration_check.py:49-63 | exactly the non-empty bins are listed, each with its own statistics, the prediction-minus-actual difference and that difference's marker |
| Calibration.SweetOfSpec | v850_calibration_check.py:66-70 | a bin gives at most one spot, only with five games or more; it gives a home spot exactly when it has above 70 % actual and is under 5 points too high, and an away spot exactly when below 30 % actual and under 5 points too low |
| Calibration.SweetSpec | v850_calibration_check.py:49-70 | the collected sweet spots are exactly the spots of the bins of at least five games that meet their side's conditions: each collected spot meets them, and each such bin is collected |
| Calibration.SweetSound | v850_calibration_check.py:49-70 | every collected spot is of an earlier bin of at least five games meeting its side's conditions |
| Calibration.SweetComplete | v850_calibration_check.py:49-70 | every earlier bin meeting a side's conditions is collected as that side's spot |
| Calibration.SweetExclusive | v850_calibration_check.py:59-70 | no bin is both a home and an away sweet spot, and a home spot is never marked overconfident nor an away spot underconfident |
| Calibration.DangerSpec | v850_calibration_check.py:49-71 | a danger zone is exactly a bin of at least five games whose prediction is over 15 points high, and it is marked overconfident |
| Accuracy.DailyStats | plot_accuracy.py:22-31 | one chart row per date, each the counts, ratio and running sums of its date |
| Accuracy.IndicatorOnce | plot_accuracy.py:22 | summed over dates listed once, a game counts once when its date is listed, and not at all otherwise |
| Accuracy.OverDaysSnoc | plot_accuracy.py:22 | a game added at the end adds its own share to the date-by-date sum |
| Accuracy.Partition | plot_accuracy.py:22-30 | summed date by date over dates listing every game's date once, the per-date sums add up to the total over all games |
| Accuracy.ZeroOverDays | plot_accuracy.py:22 | with no games every date sum is 0 |
| Accuracy.TotalOne | plot_accuracy.py:22-23 | counting a 1 for each game gives the number of games |
| Accuracy.DaysSpec | plot_accuracy.py:17-22 | the chart's dates are distinct and are exactly the dates of the games |
| Accuracy.DailyStatsDays | plot_accuracy.py:17-26 | the chart's dates strictly increase, each has at least one game, and its daily accuracy is correct over total |
| Accuracy.RunningStep | plot_accuracy.py:29-30 | each running sum is the previous one plus the date's own count |
| Accuracy.RunningFirst | plot_accuracy.py:29-30 | the first running sums are the first date's counts |
| Accuracy.DailyStatsRunning | plot_accuracy.py:29-31 | the cumulative columns are the `cumsum` of the daily counts |
| Accuracy.FinalLine | plot_accuracy.py:29-30 | over dates listing every game's date once, the last running sums are the totals |
| Accuracy.DailyStatsFinal | plot_accuracy.py:22-31 | on a non-empty report the last cumulative total is the number of games and the last cumulative correct count is the number of right picks |
| Accuracy.PositiveCount | plot_accuracy.py:22 | a date that a game has has a positive count |
| Accuracy.WeightOnNonNegative | plot_accuracy.py:22 | a count is never negative |
| Accuracy.HitsBounded | plot_accuracy.py:22 | with `Is_Correct` 0 or 1, a date's correct count lies between 0 and its total |
| Accuracy.OverDaysBounded | plot_accuracy.py:29-30 | the running correct count lies between 0 and the running total |
| Accuracy.RatioBounds | plot_accuracy.py:26-31 | a count over a larger count is a fraction |
| Accuracy.AccuracyBounds | plot_accuracy.py:26-31 | with `Is_Correct` 0 or 1, every daily and cumulative accuracy lies in [0, 1] |

## Left out

- HTTP and HTML are not modelled: page fetches, BeautifulSoup navigation, the schedule scraper, `get_scores_from_bbr` and the DNP and `tfoot` extraction. Their results arrive as sequences of records: anchors, schedule rows, betting-page rows, box-score `Page` records and score tables. A failed request is `None`.
- v400_get_current_injuries.py is not part of this model. The current injury table is a parameter.
- Not modelled, as input/output: sleeps, time-outs, keyboard interrupts, console output, emoji and number formatting (`:.2f`, `round`).
  - The retry waits of the player crawler are stated as a schedule of delays.
- The matplotlib charts of plot_accuracy.py and v850_calibration_check.py, and `calibration_curve`, are not modelled. Only the numbers they print or plot are.
- CSV reading and writing, `os.path.exists`, `glob` and `os.path.getctime` are not modelled.
  - Files are in-memory tables or `Option`s.
  - Creation times are given with each file name.
  - The driver scripts master_run.py and update_all_data.py, the Streamlit app and fix_columns.py are outside the core.
- The scikit-learn scaler and random forest are functions passed in.
  - `SeasonReport.FullReport`'s `fit` stands for that training.
  - The predicted class is the more probable one, with a tie going to a loss.
- Floating point is replaced by exact reals, and NaN by `Option.None`. An infinite rating from a zero pace is outside the model, which divides only where the source's denominator is positive or handles 0 explicitly.
- Bins use exact tenths, not `np.linspace` floats. A probability exactly on an edge falls into the lower bin, as `pd.cut` with right-closed intervals does.
- `\w` and `\d` match ASCII letters, digits and `_` only, without Unicode classes.
- The interactive query loop of nba_battle_predictor.py:186-199 is terminal input.
- The `predictgame-table` fallback search of v501_get_odds_for_prediction.py:63-67 is HTML navigation. The page's rows arrive already found.
- The `Team_Abbr`/`Opp_Abbr` fallback for a table without `Home` and `Away` columns (v600_merge_analysis.py:82-85, v700_grade_report.py:116-117, v800_value_analyzer.py:125-128) is not modelled. Prediction rows always carry home and away codes.
- `find_latest_files` of v600_merge_analysis.py:7-29 and v800_value_analyzer.py:7-29 is not modelled separately. It is the same selection as `Odds.LatestPrediction`, followed by a file-existence test: the odds file is passed as an `Option`.
- Decision.HomeProb: v600's `get_signal` and v800's `get_v800_signal` read the probability again without the 0.5 default, so a row with neither probability column makes the source fail. The model uses the default of `calculate_ev` for both.
- Decision.Upsert: the order among rows of the same date after the descending sort is not fixed. The model reverses a stable ascending sort, and `Decision.UpsertSpec` states only the multiset and the date order.
- Grading.SummaryOf: the `try`/`except` around the ROI loop is modelled only for missing odds (a `None` net and ROI). A non-numeric odds text that makes `float` raise, leaving a partial net and an ROI of 0, is not modelled.
- Grading.BetSide: v700's substring tests on the upper-cased signal text are modelled on the set of markers a signal can contain (`Decision.SimpleTags`, `Decision.BandedTags`), not on free text.
- The missing-file and `Win_Prob`/`Win` column checks of v850_calibration_check.py:17-27 are not modelled; `Calibration` starts from the report's games.
- `ExportPredictions` uses the schedule, GmSc map and `get_stats` of `BattlePredictor`. v500_export_predictions.py:61-83 and 177-209 repeat nba_battle_predictor.py:62-98 and 203-236 with the same results. The only difference is that the date is returned inside the stats.
- Behaviours of the code that the model keeps as they are written:
  - v800_value_analyzer.py:89-92: the lock bets (home probability at least 0.90, or below 0.20) are emitted whatever the expected value, with no value test.
  - v800_value_analyzer.py:96-100: with no signal yet, a home probability in [0.40, 0.60) returns "PASS (Noise Zone)" before the `EV > 0.15` tests, so a high expected value is weighed only outside that band, as the comment at line 95 says.
  - v600_merge_analysis.py:106 and v800_value_analyzer.py:70: a missing expected value on either side gives "無賠率".
  - v700_grade_report.py:190: the ROI is a percentage, `(net_profit / total_bet) * 100`.
  - v200data_process9.py:92-95: the head-to-head windows are grouped by the ordered (team, opponent) pair, across seasons.
  - v200_get_gmsc.py:168,190,198: only players with `Year_Max >= 2025` are crawled and the cutoff is `Year_Max + 1`, so both seasons 2025 and 2026 are fetched for every crawled player.
  - v200_get_gmsc.py:179,213: the periodic save counts with the frame's original index `i`, not with the position among the active players.
  - v700_grade_report.py:137-140: 主 is tested before 客, so a simple signal with both sides positive grades as a home bet.
- MergeFinal.MergeOn: a renamed name that equals a name already present (a table with both `c` and `c_x`, say) gives duplicate columns, which recent pandas versions refuse with a `MergeError`. The model keeps one column of that name, the right table's cell winning; the real inputs have no such names.
- MergeFinal.MergeFinalDiffs: for an average the base table already has, "no new `Diff_` column" is proved only when the average's own name does not end in `_x` or `_y` (every `Before_Game_Avg_` column of the advanced table ends in a stat name). For such a name a renamed column could carry the plain name again, and the model does not say which cells the guard then reads.
- BoxScore.RunDataUpdate: a table is modelled as rows of named cells, so the merge is proved by column name. The source appends each batch to the CSV file without a header (v300_parse_data_incremental.py:232, 248), so cells land by position. The merge stated therefore holds only when the appended columns are the stored file's header, in its order. For the team table, `teamColumns` is the order the batch is written in, and `BoxScore.FullBatchColumns` proves it is the fixed 36-column order once some new game has every total. A batch with fewer columns would shift cells under the wrong headings, and one with a column the header lacks makes `read_csv` fail; neither is modelled. The player batch is appended in the order of its records' fields, with no reordering, and the model assumes that order matches the stored header too.
- Cells.ParseDecimal: accepts only plain decimal notation in ASCII digits; Python's `float` also reads exponents (`1e3`), `inf` and `nan` and their spellings, digit-group underscores and non-ASCII decimal digits.
- Cells.ParseInt: accepts only ASCII digits; Python's `int` also reads digit-group underscores and non-ASCII decimal digits.

## Findings

| source | as written | input that shows it | evidently intended | confidence | as-written member | corrected member |
|---|---|---|---|---|---|---|
| v200data_process9.py:63-64 | the per-group cumulative home (away) wins and games are shifted over the whole frame, so a team's first game reads the previous team's last cumulative values | two Home rows, BOS then LAL, BOS winning: LAL's first game gets a home win percentage of 1.0 | the shift inside the (Season_Year, team) group, giving 0 at a group's first game | not executed | FeatureFrame.LocationWinPctLeaksAcrossGroups | FeatureFrame.LocationWinPctIntended |
| v200data_process9.py:69-72 | the grouped `shift(1)` is followed by a `rolling` window over the whole frame, so the first rows of a group average the tail of the previous group; the head-to-head windows at lines 93-95 do the same | keys (2026, BOS), (2026, BOS), (2026, LAL) with wins 1, 1, 0: LAL's opener gets a last-5 win percentage of 1.0 instead of the default | the window inside the group, empty (the default) at a group's first game | not executed | FeatureFrame.WindowLeaksAcrossGroups | FeatureFrame.WindowProperties |

Both readings are kept. `FeatureFrame.Build` selects `AsWritten` or `Intended`, and `FeatureFrame.Framed` and `FinalDataset` take it as a parameter. The properties proved about the intended build are the grouped ones stated in `FeatureFrame.LocationWinPctIntended` and `FeatureFrame.WindowProperties`.
