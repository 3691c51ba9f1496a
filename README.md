# pprofiler query layer in Dafny

This project models the query and aggregation layer of the `Profiler` class
in `pprofiler.py`. The layer works over one profiling run that is already
loaded. A run has a total `duration` and a sequence of files
(`command_profile`). Each file has a `file_name`, a `duration` and a sequence
of measured lines (`file_profile`). Each line has `line_no`, `line` (the
source text), `duration`, `hits` and `block_id`.

The modules follow the program's structure:

- `Decimal` (decimal.dfy): powers of ten, the decimal exponent behind
  `'%E' % d`, and `str()` of integers.
- `Grouping` (grouping.dfy): the two regroupings the profiler uses,
  `setdefault(k, []).append(x)` over a sequence and `itertools.groupby`.
- `Profile` (profile.dfy): the run, its errors, `overhead` and
  `_resolve_filedesc`.
- `Partition` (partition.dfy): `get_partitioned_stats`.
- `Query` (query.dfy): `_get_stats_by_loc` and `get_filtered_profile`.
- `Dump` (dump.dfy): `get_dump` with and without block mode.
- `Render` (render.dfy): the rows that `ls`, `cat` and `grep` print, and the
  uncolored text fallback of `_colorize_code`.

Modelling choices:

- The run is an immutable value. The profiler never changes it after loading.
  `_resolve_filedesc` hands out a deep copy of one file, so what `get_dump`
  returns never shares state with the run. `get_partitioned_stats` and
  `get_filtered_profile` hand out the run's own line entries; see
  "## Left out".
- The loops of the source are methods with loop invariants. Each method is
  proved equal to a specification function, and the properties are lemmas
  about those functions.
- Durations are `real`, so float rounding is ignored.
- Regular-expression matching is a parameter `m(pattern, text)`. It stands
  for `re.match`, which matches at position 0 only.
- Raised exceptions are `Err` values of one `Error` datatype.
- An integer file descriptor follows Python list indexing, as the source
  does. A negative index counts from the end, and an index outside the list
  raises `IndexOutOfRange`. A name resolves to the first file with exactly
  that name.

Where the code and the design description differ:

- Without a highlighter, the code's uncolored fallback prints one character
  per line instead of the line's text. `Render.UncoloredDisplay` models the
  code as written; the rows of `Render.Cat` and `Render.Grep` carry each
  line's own text, as the design intends. See "## Findings".
- The tie order of `get_filtered_profile` is the dict's iteration order fed
  to a stable sort. It is not a specified order, and the model follows the
  code in leaving it open.

## Model

| member | source | states |
|---|---|---|
| Decimal.Pow10 | pprofiler.py:129 | `10**k` as a real; always positive |
| Decimal.Pow10Monotone | pprofiler.py:129 | a larger exponent gives a strictly larger power of ten |
| Decimal.Pow10Injective | pprofiler.py:129 | distinct exponents give distinct outer bucket keys |
| Decimal.Exponent | pprofiler.py:115 | the exponent of `%E`: 10^e <= abs(d) < 10^(e+1), and 0 for d == 0 |
| Decimal.ExponentUnique | pprofiler.py:120 | exactly one exponent's decade holds abs(d) |
| Decimal.NatToString | pprofiler.py:149-152 | `'%s' % line_no` is a non-empty string of digits |
| Decimal.ParseNatToString | pprofiler.py:149-152 | reading the digits back gives the number |
| Decimal.NatToStringInjective | pprofiler.py:149-152 | distinct line numbers render differently |
| Decimal.DigitsHaveNoColon | pprofiler.py:149-152 | a rendered line number contains no ':' |
| Decimal.ColonSplitUnique | pprofiler.py:149-152 | a key of the form `prefix:suffix`, with no ':' in the suffix, splits in one way only |
| Decimal.IntToString | pprofiler.py:203 | `str(bid)` is non-empty and has no ':' |
| Decimal.IntToStringInjective | pprofiler.py:203 | distinct block ids render differently |
| Grouping.GroupBy | pprofiler.py:118-123 | the dict built by `setdefault(key(x), []).append(x)` over a sequence: each key that occurs maps to its elements in order (its properties are the Grouping lemmas below) |
| Grouping.Select | pprofiler.py:121 | a group holds only elements with its key, and at most all elements |
| Grouping.AppendUnder | pprofiler.py:121 | one `setdefault(k, []).append(x)` adds k to the keys |
| Grouping.GroupBySnoc | pprofiler.py:121 | grouping one more element is exactly one setdefault-append step |
| Grouping.GroupByPrefixStep | pprofiler.py:121 | the loop step: grouping one more element of the input is one setdefault-append step |
| Grouping.GroupByEmpty | pprofiler.py:111 | grouping nothing gives the empty dict |
| Grouping.GroupByThree | pprofiler.py:206 | grouping three elements is three setdefault-append steps from the empty dict |
| Grouping.SelectAppend | pprofiler.py:121 | earlier elements stay ahead of later ones in every group |
| Grouping.SelectCount | pprofiler.py:121 | an element is in its own group as often as it occurs, and in no other group |
| Grouping.GroupByLossless | pprofiler.py:110-129 | keys are exactly the keys that occur; groups are non-empty; each element is in its own group with its multiplicity; groups hold only elements of the input |
| Grouping.Runs | pprofiler.py:201-205 | `itertools.groupby`: the cut of a sequence into maximal runs of one key (RunsDecompose and RunDecompositionUnique state it) |
| Grouping.RunLength | pprofiler.py:201-205 | the longest prefix of one key; the next element has a different key |
| Grouping.RunsDecompose | pprofiler.py:201-205 | groupby's runs are non-empty and of one key each; neighbouring runs differ in key; together they concatenate to the input |
| Grouping.FirstRunOfDecomposition | pprofiler.py:201-205 | in any cut into maximal runs, the first piece is the longest prefix of one key |
| Grouping.TailOfDecomposition | pprofiler.py:201-205 | in any cut into maximal runs, the remaining pieces cut the rest into maximal runs |
| Grouping.RunDecompositionUnique | pprofiler.py:201-205 | any cut with those properties is groupby's cut |
| Grouping.FlattenMember | pprofiler.py:201-205 | an element of the concatenated runs is in one of the runs |
| Profile.SumDurations | pprofiler.py:103 | `sum` of the file durations; with no negative duration, every file's duration is at most the sum |
| Profile.SumDurationsAppend | pprofiler.py:103 | the sum over two lists of files is the sum of the two sums |
| Profile.SumDurationsNonNegative | pprofiler.py:103 | with no negative file duration the sum is not negative |
| Profile.RemoveOneSum | pprofiler.py:103 | taking one file out of the list takes its duration out of the sum |
| Profile.RemoveOneMultiset | pprofiler.py:103 | taking the same file out of two reorderings of a list leaves two reorderings |
| Profile.SumDurationsPermutation | pprofiler.py:103 | the sum does not depend on the order of the files |
| Profile.Overhead | pprofiler.py:102-108 | `total` is the run's duration; `actual` is the sum of the file durations; `actual + overhead == total` |
| Profile.OverheadBounded | pprofiler.py:102-108 | with no negative file duration, `actual >= 0` and `overhead <= total` |
| Profile.IndexOfName | pprofiler.py:188 | `list.index`: the first position holding the name, or none when the name is absent |
| Profile.ResolveFile | pprofiler.py:178-194 | an integer succeeds exactly within `-n <= i < n` and picks Python's `files[i]`; a name succeeds exactly when some file has it, and picks the first such file and its position; otherwise IndexError or "No such file" |
| Profile.ResolveByIndexOrName | pprofiler.py:178-194 | resolving position i and resolving the name of file i give the same result when no earlier file has that name |
| Partition.Summaries | pprofiler.py:123-127 | one summary per file, in order, holding its name, duration and grouped lines |
| Partition.PowerKeyed | pprofiler.py:129 | bucket e becomes key `10**e` with the same list, and no other keys appear |
| Partition.GroupLines | pprofiler.py:118-121 | the inner setdefault loop groups a file's lines by their exponent |
| Partition.Partitioned | pprofiler.py:110-129 | the value `get_partitioned_stats` returns: summaries grouped by file exponent, keyed by `10**e` (PartitionPlacesEveryFile and PartitionHoldsOnlyRunFiles state its meaning) |
| Partition.PartitionedStats | pprofiler.py:110-129 | raises exactly when the run has files and a zero total (the division on line 114); otherwise returns the files grouped by the exponent of their duration, keyed by `10**e` |
| Partition.PartitionPlacesEveryFile | pprofiler.py:110-129 | each file's summary is in the bucket of its own decade as often as it occurs in the run, and in no other bucket |
| Partition.PartitionHoldsOnlyRunFiles | pprofiler.py:110-129 | buckets are non-empty and hold only summaries of the run's files of their decade |
| Partition.DetailsPlaceEveryLine | pprofiler.py:116-121 | each line is under its raw exponent as often as it occurs in the file, and under no other exponent |
| Partition.ExampleDecades | pprofiler.py:115 | 12.3 has exponent 1 and 0.045 has exponent -2 |
| Partition.ExampleGroups | pprofiler.py:123 | two summaries of exponents 1 and -2 land in two buckets |
| Partition.ExampleKeys | pprofiler.py:129 | exponents 1 and -2 become keys 10 and 0.01 |
| Partition.PartitionExample | pprofiler.py:110-129 | files of 12.3 and 0.045 land in buckets 10 and 0.01 |
| Query.FirstColon | pprofiler.py:164 | the position of the first ':' or the end of the string |
| Query.ParseFilter | pprofiler.py:164 | `split(':', 1)` fails exactly on a string without ':'; otherwise `kind + ':' + pattern` is the string and the kind has no ':' |
| Query.ParseFilterRoundTrip | pprofiler.py:164 | writing a filter as `kind:pattern` and parsing it gives the filter back |
| Query.ParseFilters | pprofiler.py:162-166 | the filter-list comprehension, failing on the first malformed string (ParseFiltersOk, ParseFiltersEach and ParseFiltersFirstError state its meaning) |
| Query.ParseFiltersOk | pprofiler.py:162-166 | parsing the filter list succeeds exactly when every string has a ':' |
| Query.ParseFiltersEach | pprofiler.py:162-166 | a successful parse yields one filter per string, each string split at its first ':', in order |
| Query.ParseFiltersFirstError | pprofiler.py:162-166 | a failed parse reports the first string without ':' |
| Query.FilterMatch | pprofiler.py:138-143 | one filter: raises exactly for a kind other than `file` or `line`; otherwise the pattern's anchored match on the file name or on the line's text |
| Query.HitFrom | pprofiler.py:136-146 | the filter loop from a running flag, stopping at the first match (HitFromValue and HitFromError state its meaning) |
| Query.IsHit | pprofiler.py:136-146 | the hit test of one line, starting from `hit = True` (HitMeaning states its meaning) |
| Query.HitFromValue | pprofiler.py:136-146 | without error the loop's flag ends true exactly when some filter matches, or when it started true and there are no filters |
| Query.HitFromReachesError | pprofiler.py:142-143 | a filter of unknown kind reached with no earlier match makes the loop raise |
| Query.HitFromErrorCause | pprofiler.py:142-143 | when the loop raises, it is with the unknown-kind error, at a filter of unknown kind with no earlier match |
| Query.HitFromError | pprofiler.py:136-146 | the loop raises exactly when a filter of unknown kind comes before any match |
| Query.HitMeaning | pprofiler.py:136-146 | no filters: every line is a hit; otherwise a line is a hit exactly when some filter matches, and the test raises exactly when an unknown kind comes before any match |
| Query.FileData | pprofiler.py:153-157 | each line's record holds the containing FILE's duration and name, and the line |
| Query.Entries | pprofiler.py:134-135 | the records of the run's lines, file after file, in loop order (EntriesAreLines and EntriesPrefix state its meaning) |
| Query.EntriesAreLines | pprofiler.py:134-135 | the records visited are exactly the run's lines, each with its own file's name and duration |
| Query.Address | pprofiler.py:149-152 | `'%s:%s' % (file_name, line_no)` (AddressInjective states that it identifies the line) |
| Query.AddressInjective | pprofiler.py:149-152 | two lines share an address only when file name and line number are equal |
| Query.Collect | pprofiler.py:131-159 | the flat dict after visiting the records in order, or the first raised error (the Collect lemmas below state its meaning) |
| Query.CollectErrSticky | pprofiler.py:142-143 | once a hit test has raised, later lines change nothing |
| Query.CollectFails | pprofiler.py:142-143 | the flattening raises exactly when some line's hit test raises, and only with the unknown-kind error |
| Query.CollectKeys | pprofiler.py:148-157 | the flat dict's addresses are exactly those of the lines that are hits |
| Query.CollectValues | pprofiler.py:148-157 | each address holds a hit record whose own address it is |
| Query.CollectLastWins | pprofiler.py:153-157 | an address holds the last hit line with that address |
| Query.EvaluateFilters | pprofiler.py:136-146 | the loop with its running flag and early exit computes the hit test |
| Query.CollectFileLines | pprofiler.py:135-157 | one file's lines extend the flat dict as the specification of the whole flattening does |
| Query.StatsByLoc | pprofiler.py:131-159 | the nested loops compute the specified flattening, error included |
| Query.EntriesPrefix | pprofiler.py:134-135 | the records of the first files come first |
| Query.InsertByDuration | pprofiler.py:168-176 | inserting adds exactly the one row and keeps the others |
| Query.InsertKeepsSorted | pprofiler.py:168-176 | inserting into rows sorted by line duration, longest first, keeps them sorted |
| Query.SortByDuration | pprofiler.py:168-176 | `sorted(..., reverse=True)` by line duration: non-increasing, and a permutation of its input |
| Query.SortKeepsRows | pprofiler.py:168-176 | sorting keeps exactly the rows it is given, each as often |
| Query.FilteredProfile | pprofiler.py:161-176 | a malformed filter string or an unknown filter kind raises; otherwise it succeeds, and the rows are exactly the flat dict's entries whose line duration reaches t, each once, sorted by line duration, longest first |
| Query.NoFiltersAllHit | pprofiler.py:136 | with no filters every line is a hit and the flattening cannot raise |
| Query.NoFiltersKeepEveryAddress | pprofiler.py:131-159 | with no filters the flat dict's addresses are exactly the addresses of the run's lines |
| Query.UnfilteredProfile | pprofiler.py:161-176 | with no filters the query succeeds; every row is a line's address; when every line reaches t, every line's address has a row |
| Dump.ByBlock | pprofiler.py:199-206 | the block map: groupby's runs of one block key, each appended under its key (ByBlockKeys and ByBlockLossless state its meaning) |
| Dump.BlockKey | pprofiler.py:202-204 | the key is empty exactly for an empty block id |
| Dump.BlockKeyColon | pprofiler.py:202-204 | the key contains ':' exactly when the id has two or more parts |
| Dump.BlockKeySnoc | pprofiler.py:202-204 | the key of two or more parts is the key of all but the last part, then ':', then the last part |
| Dump.BlockKeyLastPart | pprofiler.py:202-204 | equal keys of two or more parts have equal last parts and equal keys for the rest |
| Dump.BlockKeyInjective | pprofiler.py:202-204 | two lines get the same block key only when their block ids are equal |
| Dump.GroupBlocks | pprofiler.py:200-206 | the loop over groupby's runs appends each run under its key |
| Dump.GetDump | pprofiler.py:196-212 | resolution errors propagate; otherwise the resolved file's name and duration with its lines, or with its lines regrouped by block in block mode |
| Dump.BlockRunsAreMaximal | pprofiler.py:201-205 | the runs are non-empty and of one block key; neighbours differ in key; in order they concatenate back to the lines; no other cut has these properties |
| Dump.LineKeyInByBlock | pprofiler.py:206 | every line's block key is a key of the block map |
| Dump.ByBlockKeyOfLine | pprofiler.py:206 | every key of the block map is some line's block key |
| Dump.ByBlockKeys | pprofiler.py:199-210 | the block map's keys are exactly the lines' block keys |
| Dump.ByBlockLossless | pprofiler.py:199-210 | every run is under its own key as often as it occurs; a key holds exactly the runs with that key, in source order |
| Dump.ExampleKeys | pprofiler.py:202-204 | block ids [1] and [2] give keys "1" and "2" |
| Dump.ExampleRuns | pprofiler.py:201-205 | keys a, a, b, a, a give three runs |
| Dump.ExampleGroups | pprofiler.py:206 | runs with keys "1", "2", "1" give two keys, the first with two runs |
| Dump.ExampleAppends | pprofiler.py:206 | appending runs under "1", "2", "1" gives two keys, the first with two runs |
| Dump.BlockModeExample | pprofiler.py:199-210 | block ids 1, 1, 2, 1, 1 give `{"1": [[l0, l1], [l3, l4]], "2": [[l2]]}` |
| Render.RowsOf | pprofiler.py:227-231 | one row per line, in order, with the line's duration, hits, number and text |
| Render.ListedCount | pprofiler.py:236-247 | the length of the longest prefix of files whose durations reach t; the file after it is below t |
| Render.ListedCountIsPrefix | pprofiler.py:236-247 | that prefix length is the only one with those properties |
| Render.ListedWhenSorted | pprofiler.py:236-247 | on files sorted longest first, `ls` lists exactly the files reaching t |
| Render.ListedStopsEarly | pprofiler.py:245-246 | on unsorted files `ls` stops before a later file that reaches t |
| Render.Ls | pprofiler.py:236-247 | rows for exactly that prefix, each with its 0-based position, duration and name |
| Render.CatLow | pprofiler.py:225 | the first position printed, clipped to the file |
| Render.CatHigh | pprofiler.py:225 | one past the last position printed, clipped to the file |
| Render.CatBoundsStep | pprofiler.py:225 | one more line grows the printed slice by that line when it is in range, and otherwise leaves it unchanged |
| Render.RowsOfSnoc | pprofiler.py:224-234 | the rows of a slice one longer are the rows of the slice and the row of the next line |
| Render.CatSliceInRange | pprofiler.py:225 | every position of the printed slice satisfies the range test |
| Render.CatRows | pprofiler.py:223-234 | the rows of the lines whose position passes the range test, in order (CatRowsSlice states that this is one contiguous slice) |
| Render.CatSliceStep | pprofiler.py:223-234 | one more line extends the rows of the printed slice by that line's row exactly when the line is in range |
| Render.CatRowsSlice | pprofiler.py:223-234 | the 1-based inclusive range selects one contiguous slice of the lines |
| Render.Cat | pprofiler.py:217-234 | resolution errors propagate; otherwise the rows of exactly that slice, in order, each inside the range and showing its line's own text |
| Render.GrepTargets | pprofiler.py:250-258 | the resolved file with its index when a descriptor is given; otherwise every file with its position |
| Render.MatchRows | pprofiler.py:268-283 | the rows of one file's matching lines, in order (MatchRowsMeaning states which lines) |
| Render.GrepFile | pprofiler.py:262-283 | one file's rows: a header before the first match, then the matches (GrepFileShape states it) |
| Render.GrepRows | pprofiler.py:262-283 | the rows of the searched files, file after file (GrepHeaderPerFile counts their headers) |
| Render.MatchRowsMeaning | pprofiler.py:269-270 | a line is shown exactly when the pattern matches its text at position 0 |
| Render.GrepFileShape | pprofiler.py:262-283 | a file yields nothing when no line matches, and otherwise one header first, then exactly its matching lines in order |
| Render.GrepHeaderPerFile | pprofiler.py:262-274 | the number of headers equals the number of searched files with a matching line |
| Render.GrepLines | pprofiler.py:262-283 | the line loop with its `headed` flag computes one file's rows |
| Render.Grep | pprofiler.py:249-283 | resolution errors propagate; otherwise the rows of the searched files, file after file |
| Render.GrepAnchoredExample | pprofiler.py:270 | "foo" matches "foobar()" but not "xfoobar()" |
| Render.JoinLines | pprofiler.py:219-221 | the joined text is at least as long as each line, and at least one character per separator |
| Render.JoinLinesShape | pprofiler.py:219-221 | the joined text starts with the first line and ends with the last; with two or more lines a '\n' follows the first line and the rest is the join of the other lines |
| Render.UncoloredDisplay | pprofiler.py:49-60 | as written: a non-empty joined text yields one character per row, and an index past its end raises |
| Render.UncoloredDisplayTruncates | pprofiler.py:231 | a line of two or more characters is never printed as itself |
| Render.UncoloredDisplayExample | pprofiler.py:280 | lines "ab" and "cd" print as "a" and "b" |
| Render.JoinLength | pprofiler.py:219-221 | the joined text's length is the sum of the line lengths plus the separators |
| Render.UncoloredDisplayRaises | pprofiler.py:231 | two or more empty lines raise on the last line |

## Left out

- Loading and saving the cache in `__init__` (pprofiler.py:62-93). This is file I/O, JSON, and running the external profiling engine. The run is a parameter instead.
- The md5-based cache file name (pprofiler.py:35-46). It is a foreign hash call plus path formatting.
- The disabled cProfile path (pprofiler.py:8-11, 95-99).
- Colorization by pygments in `jprint` and `_colorize_code` (pprofiler.py:19-31, 49-60). It is a foreign library. Rows carry the raw, uncolored line text.
- `dump` (pprofiler.py:214-215). It only prints what `get_dump` returns.
- Printf-style formatting of rows (`%5.1f`, `%-9d`, `%04d`, `%6.1f`). The rows carry the raw values.
- The regular-expression engine and `re.compile` errors. Matching is a parameter.
- Decimal.Exponent: does not model the rounding of `'%E' % d` to seven significant digits. A value just below a power of ten, such as 9.9999996, formats as `1.000000E+01` and lands one decade up. The model uses the exact floor of log10.
- Python float arithmetic. Durations are exact reals, so `sum` and the `total - actual` subtraction have no rounding.
- The threshold `t` of `get_dump` and `dump`. It is never read.
- Query.FilteredProfile: ties between rows of equal line duration are left in no particular order. The source's order is that of the flat dict's items, which the model does not fix.
- Query.FilteredProfile: the dict entries are modelled as a map, so insertion order is not captured.
- Sharing of line entries: the records of `get_partitioned_stats` (pprofiler.py:121) and `get_filtered_profile` (pprofiler.py:156, 173) hold the run's own line dicts, so a caller that mutates a returned line mutates the run. The model works on values and does not capture this aliasing.

## Findings

| source | as written | input that shows it | evidently intended | confidence | as-written member | corrected member |
|---|---|---|---|---|---|---|
| pprofiler.py:49-60, 231, 280 | Without pygments, `_colorize_code` returns the joined text itself, and `cat`/`grep` index it by line position, so `color_lines[i]` is one character | a file with lines "ab" and "cd" prints "a" and "b"; a file of two empty lines raises IndexError on the second | each row shows its own line's uncolored text | high; not executed | Render.UncoloredDisplay | Render.Cat |
