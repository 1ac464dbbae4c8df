# GUFI snapshot generators, ring-buffer queue, cumulative-times parser and trace scanner

This project models five sequential pieces of GUFI, the Grand Unified File
Index, and proves properties of them in Dafny.

- **Longitudinal snapshot generators.** There are two: the current
  `contrib/longitudinal_snapshot/DT.py` (module `SnapshotDT`) and the older
  `contrib/longitudinal_snapshot.py` (module `SnapshotLegacy`). Both compile
  statistic descriptor tables into two parallel lists: column declarations and
  select expressions. They then assemble the six SQL fragments (`-I -T -E -K
  -J -G`) that the tree-walking query engine `gufi_query` runs, and write a
  metadata row once the engine succeeds. What the two share lives in
  `SnapshotSql`:
  - value-expression templates over a table alias, and Python's `str.format`
    completing them;
  - the ceil-log2 bucket sizer;
  - the column plan and its flattening loops;
  - uniqueness of column names;
  - the metadata write.

  `SqliteText` gives SQLite's `REPLACE`, `RTRIM`, `LENGTH` and `LIKE` a
  meaning, and proves what the extension and depth expressions compute.
  `PyStr` holds the Python string built-ins used: `str()` of an integer,
  one-argument `str.format`, `strip`/`rstrip` and `join`.
- **Growable ring-buffer queue.** `src/RbQueue.c` becomes module `RbQueue`: a
  class `Rbq` over an array of `Option` slots, where `None` is a NULL pointer.
  A ghost `Contents` sequence holds the items, and `Valid()` is the
  representation invariant. `RbQueueLaws` proves that the queue is FIFO.
- **Cumulative-times parser.** The debug-output parser of
  `contrib/performance/performance_pkg/extraction/common.py` becomes module
  `CumulativeTimes`. Column names are tried longest first. The `create_table`
  and `insert` statements are modelled as text.
- **Trace scanner.** `src/gufi_trace2index.c` becomes module `TraceScan`. It
  covers the scout thread, which partitions trace lines into directory work
  items, and the row loop of `processdir`.

The trace file is an in-memory sequence of lines. The thread pool's queue is
an output sequence. The engine, `build_query` and the SQL type mapping are
function parameters.

Three facts about the code that are easy to get wrong:

- The extension histogram gets the text after the last `.`, without the dot
  (`report.v2.txt` gives `txt`). See `SqliteText.ExtensionIsAfterLastDot`.
- The current generator has no extended-attribute families. Only the older one
  has `xattr_name` and `xattr_value`.
- The scout thread as written does not always wake the main thread (see
  Findings).

## Model

| member | source | states |
|---|---|---|
| SnapshotSql.TypeName | contrib/longitudinal_snapshot.py:81-85 | each storage type has a non-empty SQLite type name with no blank in it |
| SnapshotSql.CreateTemplate | contrib/longitudinal_snapshot/DT.py:199-200 | after its first `.format`, the Python text of the CREATE template is exactly `CREATE TABLE {0}` followed by the column list |
| SnapshotSql.Format | contrib/longitudinal_snapshot/DT.py:206-207 | `.format(alias)` on any template (CREATE or descriptor) succeeds: Python's `str.format` returns the template with every alias slot bound to the alias |
| SnapshotSql.FormatCompletes | contrib/longitudinal_snapshot/DT.py:110-145 | for every template (its literal parts are brace-free by type), Python's one-argument `str.format` on its `{0}` text returns exactly the template bound to the alias |
| SnapshotSql.RenderField | contrib/longitudinal_snapshot/DT.py:112-117 | a `{{0}}.col` template reads column `col` of whichever table the alias names |
| SnapshotSql.RenderWrap | contrib/longitudinal_snapshot/DT.py:119 | wrapping a template in literal SQL wraps its bound text in the same SQL |
| SnapshotSql.RenderCreate | contrib/longitudinal_snapshot/DT.py:199-207 | the CREATE template bound to a table name is `CREATE TABLE <name><body>` |
| SnapshotSql.RenderAppend | contrib/longitudinal_snapshot/DT.py:110-145 | binding distributes over concatenation of templates |
| SnapshotSql.CeilLog2 | contrib/longitudinal_snapshot/DT.py:340-341 | for a positive bound b, the result k is the least k with b <= 2^k |
| SnapshotSql.CeilLog2Unique | contrib/longitudinal_snapshot/DT.py:340-341 | any k with the bucket property equals CeilLog2(b), so the property pins the count down |
| SnapshotSql.CeilLog2OfPow2 | contrib/longitudinal_snapshot/DT.py:340-341 | the bucket count of 2^k is exactly k (for example 256 gives 8, and 1 gives 0) |
| SnapshotSql.Pow2Monotone | contrib/longitudinal_snapshot/DT.py:340-341 | 2^j <= 2^k whenever j <= k |
| SnapshotSql.NameFamilies | contrib/longitudinal_snapshot/DT.py:290-305 | the family table lists the given families in the given order, each with its own statistics list |
| SnapshotSql.PlanLayout | contrib/longitudinal_snapshot/DT.py:309-315 | the plan has one column per summary field plus one per family statistic, and the summary fields come first with their bare names, bound to the summary alias |
| SnapshotSql.PlanFamilyColumn | contrib/longitudinal_snapshot/DT.py:317-321 | statistic j of family k sits at position \|summary\| + (statistics of families before k) + j, named `{family}_{stat}`, bound to the entries alias |
| SnapshotSql.FamiliesLayout | contrib/longitudinal_snapshot/DT.py:317-321 | within the families' part, family after family in table order, each family's statistics in declared order |
| SnapshotSql.PlanAliases | contrib/longitudinal_snapshot/DT.py:312-321 | every summary field reads VRXSUMMARY and every family statistic reads VRXPENTRIES |
| SnapshotSql.FamiliesOwnTheirColumns | contrib/longitudinal_snapshot/DT.py:317-321 | every column of the families' part reads as `<family>_...` for one of the families |
| SnapshotSql.ApartFamiliesApartNames | contrib/longitudinal_snapshot/DT.py:320 | two families, neither of whose names reads as a column of the other, never produce the same column name |
| SnapshotSql.FamiliesPartDistinct | contrib/longitudinal_snapshot/DT.py:317-321 | with distinct family names, kept apart, each with distinct statistic names, the families' column names are all distinct |
| SnapshotSql.PlanNamesDistinct | contrib/longitudinal_snapshot/DT.py:309-321 | no two plan columns share a name, given distinct summary fields, separate families, and no summary field that reads as a family column |
| SnapshotSql.Flatten | contrib/longitudinal_snapshot/DT.py:309-321 | the two loops build IK and E as exactly the declarations and the select expressions of the column plan, so the lists are equally long and agree position by position; each E entry is what Python's `sql.format(alias)` returns for that column's template and alias |
| SnapshotSql.FlattenFamily | contrib/longitudinal_snapshot/DT.py:317-321 | the inner loop appends one family's columns in declared order to both lists |
| SnapshotSql.WriteMetadata | contrib/longitudinal_snapshot/DT.py:442-460 | with replace, or when no metadata table exists, the table holds exactly one row (timestamp, index, notes); without replace and with an existing table, the CREATE fails and nothing changes |
| SqliteText.ExtensionIsAfterLastDot | contrib/longitudinal_snapshot/DT.py:280-288 | the extension expression is NULL for a NULL name and for a name with no `.`, and otherwise the text after the last `.`, without the dot |
| SqliteText.DepthCountsSlashes | contrib/longitudinal_snapshot/DT.py:229-230 | the depth expression is level() plus the number of `/` in the name (NULL for a NULL name) |
| SqliteText.LikeHasDot | contrib/longitudinal_snapshot/DT.py:282 | `name LIKE '%.%'` holds exactly when the name contains a `.` |
| SqliteText.TrimToLastDot | contrib/longitudinal_snapshot/DT.py:285 | RTRIM of a dotted name by its dot-free characters stops just after the last `.` |
| SqliteText.CutThroughLastDot | contrib/longitudinal_snapshot/DT.py:285 | REPLACE of that prefix by nothing leaves exactly the text after the last `.` |
| SqliteText.ReplaceCharByNothing | contrib/longitudinal_snapshot/DT.py:230 | REPLACE(s, c, '') removes every c and nothing else |
| SqliteText.WithoutLength | contrib/longitudinal_snapshot/DT.py:230 | removing every c shortens s by the number of c in it |
| SnapshotDT.ValueHistCol | contrib/longitudinal_snapshot/DT.py:106-107 | a value histogram is stored as TEXT, and for every alias it renders as `category_hist(CAST(<column> AS TEXT), 1)` around the rendered column |
| SnapshotDT.TimeColsNames | contrib/longitudinal_snapshot/DT.py:110-120 | a timestamp family has exactly min, max, mean, median, mode, stdev, age_hist and hour_hist, all distinct |
| SnapshotDT.AgeHistBakesReftime | contrib/longitudinal_snapshot/DT.py:118 | age_hist, bound to an alias, is `time_hist(<alias>.<col>, <reftime in decimal>)` |
| SnapshotDT.FTimeColsNames | contrib/longitudinal_snapshot/DT.py:122-133 | the lifetime family has exactly min, max, mean, median, mode and stdev |
| SnapshotDT.StrColsNames | contrib/longitudinal_snapshot/DT.py:136-145 | a string family has the six statistics plus hist, all distinct |
| SnapshotDT.NameHistBakesBuckets | contrib/longitudinal_snapshot/DT.py:144 | the length histogram carries the name-length bucket count in decimal |
| SnapshotDT.IdColsNames | contrib/longitudinal_snapshot/DT.py:238-250 | uid and gid each have exactly min, max, hist and num_unique |
| SnapshotDT.SizeColsNames | contrib/longitudinal_snapshot/DT.py:252-262 | the size family has the six statistics plus sum and hist |
| SnapshotDT.SizeHistBakesBuckets | contrib/longitudinal_snapshot/DT.py:260-261 | the size histogram carries the size bucket count in decimal |
| SnapshotDT.PermColsNames | contrib/longitudinal_snapshot/DT.py:264-266 | the permissions family is a single hist |
| SnapshotDT.ExtColsNames | contrib/longitudinal_snapshot/DT.py:280-288 | the extensions family is a single hist |
| SnapshotDT.SummaryCols | contrib/longitudinal_snapshot/DT.py:217-236 | the summary fields are the seventeen names of the table, in table order |
| SnapshotDT.SummaryHeadNames | contrib/longitudinal_snapshot/DT.py:218-226 | the first nine summary fields, in order |
| SnapshotDT.SummaryTailNames | contrib/longitudinal_snapshot/DT.py:227-235 | the remaining eight summary fields, in order |
| SnapshotDT.Families | contrib/longitudinal_snapshot/DT.py:268-305 | the twelve entry families, uid through extensions, in table order |
| SnapshotDT.EntriesCols | contrib/longitudinal_snapshot/DT.py:290-305 | the family table has twelve families named in table order |
| SnapshotDT.FamilyOrderSeparate | contrib/longitudinal_snapshot/DT.py:290-305 | the family names are distinct and none has an `_`, so no family name reads as another family's column |
| SnapshotDT.SummaryNamesDistinct | contrib/longitudinal_snapshot/DT.py:217-236 | the summary field names are distinct |
| SnapshotDT.StatListsDistinct | contrib/longitudinal_snapshot/DT.py:268-305 | within every family the statistic names are distinct, whatever the reference time and bucket counts |
| SnapshotDT.EntriesColsDistinct | contrib/longitudinal_snapshot/DT.py:290-305 | the family table keeps each family's distinct statistic names |
| SnapshotDT.SummaryOutsideFamilies | contrib/longitudinal_snapshot/DT.py:217-236 | no summary field reads as a family column: only filesystem_type has an `_`, and no family is named filesystem |
| SnapshotDT.ColumnNamesDistinct | contrib/longitudinal_snapshot/DT.py:309-321 | the summary table's column names are unique for every reference time and bucket count |
| SnapshotDT.ViewProjection | contrib/longitudinal_snapshot/DT.py:208-210 | the view projection renames every tree-summary column, in order, to `ts_<name>` |
| SnapshotDT.Treesummary | contrib/longitudinal_snapshot/DT.py:147-211 | the intermediate and final tree-summary CREATE statements come from the one column list and differ only in the table name |
| SnapshotDT.Summary | contrib/longitudinal_snapshot/DT.py:214-333 | the intermediate and final summary CREATEs share one column list built from the plan, and the select list is the plan's expressions |
| SnapshotDT.ReplaceOnlyAddsDrops | contrib/longitudinal_snapshot/DT.py:381-409 | with replace, -K is prefixed by drops of treesummary and summary, -G by `DROP VIEW IF EXISTS snapshot`; -I, -T, -E and -J are unchanged, and without replace -K and -G are the plain CREATE forms |
| SnapshotDT.SharedColumnLists | contrib/longitudinal_snapshot/DT.py:354-388 | -I and -K create the intermediate and the final tables from the same two column lists |
| SnapshotDT.CommandLine | contrib/longitudinal_snapshot/DT.py:412-424 | the engine gets 19 arguments in this order: the engine, the index, `-n` and the thread count as decimal text (any integer, a minus sign when negative), `-x`, `-O` and the output name, then `-I -T -E -K -J -G` each followed by its own fragment; both generators use it |
| SnapshotDT.Compose | contrib/longitudinal_snapshot/DT.py:354-409 | the fragments, with -K and -G reassigned under replace, are the assembled fragments |
| SnapshotDT.BuildCommand | contrib/longitudinal_snapshot/DT.py:335-424 | the command uses reftime (defaulting to now) and ceil-log2 of the maximum size and name length |
| SnapshotDT.Execute | contrib/longitudinal_snapshot/DT.py:434-460 | a non-zero engine code is returned unchanged with no metadata written; on success the metadata table holds exactly one row timestamped now, or the CREATE fails if it existed without replace |
| SnapshotDT.Run | contrib/longitudinal_snapshot/DT.py:335-464 | the whole run: the command built from the arguments, then the outcome Execute states |
| SnapshotLegacy.TimeColsNames | contrib/longitudinal_snapshot.py:88-97 | a timestamp family has exactly min, max, mean, median, mode, stdev and hist |
| SnapshotLegacy.IdColsNames | contrib/longitudinal_snapshot.py:164-176 | uid and gid each have min, max, hist and num_unique, with hist typed as the table says |
| SnapshotLegacy.HistTypesVerbatim | contrib/longitudinal_snapshot.py:167-174 | uid_hist is declared INT64 and gid_hist TEXT, carried over verbatim |
| SnapshotLegacy.ExtColsNames | contrib/longitudinal_snapshot.py:203-211 | the extensions family is a single hist |
| SnapshotLegacy.SummaryCols | contrib/longitudinal_snapshot.py:144-162 | the summary fields are the same seventeen names, in the same order as the current variant |
| SnapshotLegacy.SummaryTailNames | contrib/longitudinal_snapshot.py:154-161 | the last eight summary fields, in order |
| SnapshotLegacy.Families | contrib/longitudinal_snapshot.py:193-227 | the thirteen families, uid through extensions with xattr_name and xattr_value, in table order |
| SnapshotLegacy.EntriesCols | contrib/longitudinal_snapshot.py:213-227 | the family table has thirteen families named in table order |
| SnapshotLegacy.FamilyOrderSeparate | contrib/longitudinal_snapshot.py:213-227 | the family names are distinct; only xattr_name and xattr_value hold an `_`, and xattr names no family |
| SnapshotLegacy.XattrNames | contrib/longitudinal_snapshot.py:224-225 | xattr_name and xattr_value each have a single `_`, after xattr |
| SnapshotLegacy.FamiliesApart | contrib/longitudinal_snapshot.py:213-227 | no family name reads as a column of another family |
| SnapshotLegacy.SummaryOutsideFamilies | contrib/longitudinal_snapshot.py:144-162 | no summary field reads as a family column |
| SnapshotLegacy.StatListsDistinct | contrib/longitudinal_snapshot.py:193-227 | within every family the statistic names are distinct |
| SnapshotLegacy.EntriesColsDistinct | contrib/longitudinal_snapshot.py:213-227 | the family table keeps each family's distinct statistic names |
| SnapshotLegacy.ColumnNamesDistinct | contrib/longitudinal_snapshot.py:231-244 | the summary table's column names, bare and `{family}_{stat}`, are unique |
| SnapshotLegacy.SharedColumnList | contrib/longitudinal_snapshot.py:247-291 | -I and -K create intermediate and summary from the one table_cols_sql, and both tree-summary tables from the one schema |
| SnapshotLegacy.BuildCommand | contrib/longitudinal_snapshot.py:229-298 | the flattening loops and the fixed argument order give the command the model defines, for any thread count the server configuration holds |
| SnapshotLegacy.Run | contrib/longitudinal_snapshot.py:261-334 | a non-zero engine code is returned before any metadata write; otherwise the metadata table is created unconditionally and holds one row; the thread count is passed on unchecked |
| RbQueue.WrapIsMod | src/RbQueue.c:103 | the wrapped index is the remainder the C code takes with `%` |
| RbQueue.Copy | src/RbQueue.c:91 | memcpy: the copied range holds the source items and nothing else changes |
| RbQueue.ItemsAppend | src/RbQueue.c:153-161 | the items of two runs of slots are the items of the first followed by those of the second |
| RbQueue.SourceRun | src/RbQueue.c:176-186 | a non-wrapping run of the queue's buffer holds exactly the corresponding items |
| RbQueue.Rbq.constructor | src/RbQueue.c:27-32 | an empty queue: head = tail = 0, capacity 8, every slot NULL |
| RbQueue.Rbq.Used | src/RbQueue.c:52-57 | used is the count of items: tail lies `used` slots after head, and used < capacity |
| RbQueue.Rbq.Avail | src/RbQueue.c:65-68 | avail + used + 1 == capacity |
| RbQueue.Rbq.Grow | src/RbQueue.c:73-98 | capacity doubles and the contents and their order are kept; tail moves up by the old capacity exactly when the buffer wrapped |
| RbQueue.Rbq.Push | src/RbQueue.c:100-115 | the item is appended at the back; the buffer doubles exactly when the push would have filled it, so no item is lost |
| RbQueue.Rbq.Pop | src/RbQueue.c:117-132 | an empty queue gives None and is unchanged; otherwise the front item is returned and removed, its slot cleared and head advanced modulo capacity |
| RbQueue.Rbq.DropN | src/RbQueue.c:138-143 | for n <= used, the first n items are gone and head moves n slots on |
| RbQueue.Rbq.WriteRun | src/RbQueue.c:153-161 | the two memcpy calls write the run from tail on, wrapping at the end, and touch no other slot; the source may be the queue's own buffer when the run lies apart from the slots written |
| RbQueue.Rbq.PushN | src/RbQueue.c:149-164 | for n <= avail, the n source items are appended in order |
| RbQueue.Rbq.PushRun | src/RbQueue.c:176-186 | one push_n of a contiguous run of the source appends those items |
| RbQueue.Rbq.CopyFront | src/RbQueue.c:173-187 | the first n source items are appended in one run, or in two when they wrap |
| RbQueue.Rbq.PushOwnRun | src/RbQueue.c:149-164 | push_n from the queue's own used slots: items i .. i + m of the queue are appended at its back |
| RbQueue.Rbq.WriteOwnRun | src/RbQueue.c:153-161 | the memcpy calls reading the queue's own used slots put items i .. i + m in the free slots from tail on and move no item |
| RbQueue.Rbq.AdvanceTail | src/RbQueue.c:163 | moving tail on by m after the run was written makes the run the last m items |
| RbQueue.Rbq.CopyOwnFront | src/RbQueue.c:173-187 | with dst == src, the queue's first n items are appended at its own back, in one run or two |
| RbQueue.Rbq.AppendN | src/RbQueue.c:169-190 | after growing until they fit, dst is old dst followed by the first n items of src, and src keeps the rest; appending a queue to itself moves its first n items round to the back |
| RbQueue.Rbq.Append | src/RbQueue.c:195-197 | dst ends with all of src's items, in order, and src is empty; a queue appended to itself ends as it began |
| RbQueueLaws.UsedIsMod | src/RbQueue.c:52-57 | used == (tail - head) mod capacity |
| RbQueueLaws.PushAllPopAll | src/RbQueue.c:100-132 | pushing any items onto a new queue and popping them all returns them in the same order, and the queue is then empty |
| CumulativeTimes.ProcessLine | contrib/performance/performance_pkg/extraction/common.py:73-77 | the result has no key but event; it is empty exactly when the stripped line consists of rstrip characters; otherwise the value is the stripped line less its trailing rstrip characters |
| CumulativeTimes.RStripMeaning | contrib/performance/performance_pkg/extraction/common.py:74 | rstrip empties a line exactly when every character is in the set, and otherwise leaves a prefix that does not end in one |
| CumulativeTimes.FormatValue | contrib/performance/performance_pkg/extraction/common.py:80-86 | NULL for type None, the value in double quotes (no escaping) for str, and str(value) otherwise |
| CumulativeTimes.Declarations | contrib/performance/performance_pkg/extraction/common.py:68-71 | one declaration per column, in column order, each the double-quoted name and its SQLite type |
| CumulativeTimes.QuotedNames | contrib/performance/performance_pkg/extraction/common.py:89 | one double-quoted name per column, in column order |
| CumulativeTimes.Values | contrib/performance/performance_pkg/extraction/common.py:90 | values exist exactly when every column is in the dict (otherwise a KeyError), one per column, in order, each formatted by its type |
| CumulativeTimes.CreateTableSql | contrib/performance/performance_pkg/extraction/common.py:68-71 | the statement is `CREATE TABLE <table> (`, the declarations joined by `, `, then `);`; it carries no contract of its own: what the declarations are is stated by Declarations, and their agreement with insert by CreateAndInsertAligned |
| CumulativeTimes.InsertSql | contrib/performance/performance_pkg/extraction/common.py:88-91 | the INSERT statement, or KeyError when Values is None; it carries no contract of its own, InsertFailsIffMissing states it |
| CumulativeTimes.InsertFailsIffMissing | contrib/performance/performance_pkg/extraction/common.py:88-91 | insert fails with KeyError exactly when some column is missing from the parsed dict; otherwise the statement names the quoted columns (QuotedNames) and lists the formatted values (Values) |
| CumulativeTimes.CreateAndInsertAligned | contrib/performance/performance_pkg/extraction/common.py:68-91 | the i-th declared column of create_table is the i-th named column of insert, and the i-th inserted value belongs to it |
| CumulativeTimes.SortByLength | contrib/performance/performance_pkg/extraction/common.py:106 | the names sorted shortest first are a permutation of the names |
| CumulativeTimes.InsertByLengthSorted | contrib/performance/performance_pkg/extraction/common.py:106 | inserting a name after every name no longer than it keeps a list sorted by length and adds exactly that name |
| CumulativeTimes.ReversePermutes | contrib/performance/performance_pkg/extraction/common.py:107 | reversing keeps the same names |
| CumulativeTimes.LongestFirst | contrib/performance/performance_pkg/extraction/common.py:105-107 | the sorted names are a permutation of the column names, longest first |
| CumulativeTimes.HeadIsPrefix | contrib/performance/performance_pkg/extraction/common.py:116 | `value == line[:len(value)]` holds exactly when value starts the line |
| CumulativeTimes.MatchEmpty | contrib/performance/performance_pkg/extraction/common.py:115-123 | the empty line is never claimed |
| CumulativeTimes.MatchSound | contrib/performance/performance_pkg/extraction/common.py:115-123 | a claiming name is one of the names, starts the line and is shorter than it; the value is the rest less one leading `:` |
| CumulativeTimes.MatchLongest | contrib/performance/performance_pkg/extraction/common.py:101-123 | with names longest first, no longer name starts the line than the one that claims it |
| CumulativeTimes.MatchNone | contrib/performance/performance_pkg/extraction/common.py:115-123 | a line is unclaimed exactly when it is itself a name or no name is a proper prefix of it |
| CumulativeTimes.LongestNameClaims | contrib/performance/performance_pkg/extraction/common.py:101-123 | a line is claimed, exactly when some name is a proper prefix of it and it is not a name itself, by the longest such name |
| CumulativeTimes.PrefixCannotCapture | contrib/performance/performance_pkg/extraction/common.py:101-107 | a name that is a prefix of a longer declared name never takes a line of the longer one |
| CumulativeTimes.Claim | contrib/performance/performance_pkg/extraction/common.py:115-123 | an unclaimed line changes nothing; a claimed line sets the claiming name's entry to its processed value, or changes nothing when that value strips to empty, and every other entry keeps its value |
| CumulativeTimes.Step | contrib/performance/performance_pkg/extraction/common.py:110-123 | a blank line changes nothing, and no line removes a key |
| CumulativeTimes.ParseOneMore | contrib/performance/performance_pkg/extraction/common.py:110-123 | parsing one more line is one more step |
| CumulativeTimes.InitialKeysKept | contrib/performance/performance_pkg/extraction/common.py:95-99 | id, commit and branch are in the dict after any input |
| CumulativeTimes.LastLineWins | contrib/performance/performance_pkg/extraction/common.py:110-123 | a later line for a column overwrites the earlier value |
| CumulativeTimes.FirstMissing | contrib/performance/performance_pkg/extraction/common.py:126-128 | None exactly when every declared column has a value; otherwise the first declared column without one |
| CumulativeTimes.ExtractSucceedsIffComplete | contrib/performance/performance_pkg/extraction/common.py:125-130 | the extraction succeeds exactly when every declared column was found, and then the dict holds them with id, commit and branch |
| CumulativeTimes.FindClaim | contrib/performance/performance_pkg/extraction/common.py:115-123 | the inner loop, including its `continue` when a name is the whole line, claims what MatchLine says |
| CumulativeTimes.MissingColumn | contrib/performance/performance_pkg/extraction/common.py:126-128 | the check loop finds the first declared column without a value |
| CumulativeTimes.CumulativeTimesExtract | contrib/performance/performance_pkg/extraction/common.py:93-130 | the sort, reverse, parse and check loops compute Extract: the parsed dict, or the missing-column error naming the column and commit |
| TraceScan.InitRow | src/gufi_trace2index.c:31-39 | a fresh row has no line and no entries, first_delim is SIZE_MAX and offset is -1 |
| TraceScan.FirstDelimFrom | src/gufi_trace2index.c:107-116 | the first delimiter at or after i, or SIZE_MAX when none follows |
| TraceScan.ParseFirst | src/gufi_trace2index.c:107-116 | first_delim is the least index of the delimiter, and SIZE_MAX exactly when the line has none |
| TraceScan.TypeIndexWraps | src/gufi_trace2index.c:187 | first_delim + 1 is taken modulo 2^64, so a missing delimiter reads character 0 |
| TraceScan.ScoutSignalled | src/gufi_trace2index.c:144-232 | the corrected scout: the same queue and counters as written, with processed -1 exactly when the trace cannot be opened, and 1 otherwise |
| TraceScan.ScoutFunction | src/gufi_trace2index.c:144-232 | the scout loop, with the signal raised on every way out, computes ScoutSignalled |
| TraceScan.StartPartition | src/gufi_trace2index.c:161-174 | the first line opens the first item, with no entries, and dir_count starts at 1 |
| TraceScan.ChainGrows | src/gufi_trace2index.c:187-203 | a directory line closes the current item and chains a new one starting on the line after it |
| TraceScan.LayoutGrows | src/gufi_trace2index.c:187-203 | a directory line queues the current item and opens a new one on that line |
| TraceScan.LayoutExtends | src/gufi_trace2index.c:205-208 | any other line becomes one more entry of the current item |
| TraceScan.CountEmptyAppend | src/gufi_trace2index.c:190 | queuing an item adds one to empty exactly when it has no entries |
| TraceScan.DirStepKeepsPartition | src/gufi_trace2index.c:187-204 | the directory branch keeps the partition invariant |
| TraceScan.FileStepKeepsPartition | src/gufi_trace2index.c:205-209 | the entry branch keeps the partition invariant |
| TraceScan.StepKeepsPartition | src/gufi_trace2index.c:178-213 | every loop iteration keeps the partition invariant |
| TraceScan.ScanStepKeepsPartition | src/gufi_trace2index.c:178-213 | the scan of m lines is a partition if the scan of m - 1 lines is |
| TraceScan.ScanPartitions | src/gufi_trace2index.c:161-213 | after any number of lines, the items tile the lines read, and the counters agree with them |
| TraceScan.FinalQueue | src/gufi_trace2index.c:217 | the last item is queued after the loop, and the queue partitions the whole trace |
| TraceScan.ScoutCounts | src/gufi_trace2index.c:172-228 | files + dirs is the number of lines, one item per directory, the first item starts after line 0, and empty counts the closed items with no entries |
| TraceScan.QueueInTraceOrder | src/gufi_trace2index.c:194-217 | items are queued once each, in trace order (strictly increasing offsets) |
| TraceScan.OffsetsIncrease | src/gufi_trace2index.c:194-217 | offsets that increase step by step increase throughout |
| TraceScan.SignalNeedsSecondDirectory | src/gufi_trace2index.c:196-201 | as written, main proceeds exactly when a directory line follows the first line |
| TraceScan.SingleDirectoryTraceHangs | src/gufi_trace2index.c:438-442 | a one-directory trace leaves processed at 0, so main waits for ever |
| TraceScan.SignalledAlwaysProceeds | src/gufi_trace2index.c:438-442 | with the corrected signal, main always proceeds and the queue is unchanged |
| TraceScan.NextDir | src/gufi_trace2index.c:298-316 | the first directory line at or after a position, or the end of the trace |
| TraceScan.NextDirIs | src/gufi_trace2index.c:313-316 | a position after non-directory lines that is a directory line or the end is NextDir |
| TraceScan.ProcessRows | src/gufi_trace2index.c:295-335 | the rows inserted are exactly those from the offset up to the next directory or the end, and the transaction restarts once per 100001 rows |
| TraceScan.ProcessedRowsMatchEntries | src/gufi_trace2index.c:295-316 | each queued item, processed, inserts exactly its entry count of rows, so the scout's counts and processdir agree |
| TraceScan.ClosedItemRows | src/gufi_trace2index.c:313-316 | a closed item's rows stop at the directory line that closed it |
| TraceScan.LastItemRows | src/gufi_trace2index.c:301-303 | the last item's rows run to the end of the trace |

## Left out

- I/O and glue are left out: process launch, stdout suppression, `print_query`, the `verbose` flag, argparse defaults, `sqlite3` connect, execute and commit, and `gufi_config`. The query engine is a parameter (`Engine`) that returns an exit code and a database. The database is reduced to its table names and metadata rows.
- The current time (`time.time()`) is the parameter `now`.
- `gufi_common` is not part of this model. `build_query` is the parameter `BuildQuery`, and `get_positive` is the precondition that the size and name-length bounds are positive. The current generator reads its thread count through `get_positive` too; the older one takes it from the server configuration unchecked, and the command renders any integer. The table-name constants (`VRXSUMMARY`, `VRXPENTRIES`, `SUMMARY`, `TREESUMMARY`, `METADATA`, `SNAPSHOT`, and the `SQLITE3_*` names) are given GUFI's values. The proofs use only that they are brace-free and distinct.
- The SQL aggregates the templates call have no modelled meaning, only their text. These are `median`, `stdevp`, `AVG`, `category_hist`, `log2_hist`, `time_hist`, `mode_count`, `level` and `strftime`. Join execution is not modelled either.
- SnapshotSql.CeilLog2: the bucket count is integer ceil-log2. The source uses floating-point `math.ceil(math.log(x, 2))`, which can differ by one at some exact powers of two, so it is not claimed equal to the Python value for every input.
- SnapshotLegacy.TreesummaryBody: the older variant writes its tree-summary schema as one literal. That literal is, character for character, the current variant's generated column list plus `;`, so it is defined from that list.
- The literal text of a template is brace-free by type (`SqlText`), as every descriptor string in both generators is once their first `.format` has run, so the failing `str.format` paths (`KeyError`/`ValueError`) cannot arise and are not modelled.
- SnapshotDT.Execute and SnapshotLegacy.Run: a failing metadata CREATE, which raises `sqlite3.OperationalError` in the source, is modelled as a `Failure` result.
- CumulativeTimes.SortByLength and CumulativeTimes.LongestFirst: the in-place `list.sort(key=len)` and `list.reverse()` are functions on sequences (a stable insertion sort and a reversal), not array updates.
- CumulativeTimes: `common.TYPE_TO_SQLITE` is the parameter `sqlType`, and values are text, integer or None. Floating-point values and their `str()` are not modelled.
- CumulativeTimes.CreateTableSql and CumulativeTimes.InsertSql: the statements are built as text, and `con.execute` is left out.
- RbQueue: `malloc`, `realloc`, `free` and `calloc` become `new` arrays, and the items are kept in a fresh array when the buffer grows. Out-of-memory panics are left out.
- RbQueue.Rbq.Grow: the `__builtin_mul_overflow` check is left out, because integers are unbounded here.
- RbQueue.Rbq.DropN, RbQueue.Rbq.PushN and RbQueue.Rbq.AppendN: their panics (dropping more than `used`, pushing more than `avail`) are preconditions.
- RbQueue.Rbq.AppendN: the source copies before `drop_n` panics, so it can copy slots past the used ones when `n > used(src)`. That case is excluded by the precondition.
- RbQueue.Rbq.AppendN and RbQueue.Rbq.Append: two distinct queue headers sharing one buffer are excluded (`src != this ==> src.data != data`). `rbq_init` gives every queue its own buffer, so that aliasing cannot arise through the queue functions.
- RbQueue.Rbq.Pop: the panic on a NULL front slot cannot arise, because stored items are never NULL (`T`, not `Option<T>`).
- RbQueue: `rbq_destroy` and `rbq_exit` only free memory. `rbq_replace` and `rbq_replace_n` are declared in the header but defined nowhere.
- RbQueue: the `void *` byte arithmetic of the `memcpy` calls is modelled as indices into an array of slots.
- TraceScan: the threads are left out. So are the `QPTPool` queue (an output sequence), the mutex and condition-variable handshake (the final `processed` value main waits on), the per-thread `FILE *` handles, timing and the `PRINT_STAGE` counters.
- TraceScan: `ftell` byte offsets are modelled as line numbers. The offset of an item is the index of the first line after its directory line.
- TraceScan.ParseFirst: `len` is a line length here. In the source it is `getline`'s buffer size, and the scan past the terminator that this allows is not reproduced.
- TraceScan.ProcessRows: `linetowork`, `dupdir`, `copy_template`, `opendb2`, the summary (`sumit`, `insertsumdb`) and the sqlite inserts are left out. A row is classified by the character after its first delimiter, as the scout does, and the inserted rows are returned as lines.

## Findings

| source | as written | input that shows it | evidently intended | confidence | as-written member | corrected member |
|---|---|---|---|---|---|---|
| src/gufi_trace2index.c:196-201 | `scout_function` sets `sa->processed = 1` and broadcasts only when it meets a directory line after the first line. Its early returns (trace cannot be opened, trace empty) and its normal end never set it, and nothing ever sets -1. `main` (lines 438-442) waits while `processed == 0`. | a trace holding a single directory line, e.g. `/top\x1Ed\x1E` | the scout signals on every way out: 1 once it has scanned, -1 when the trace cannot be opened, which `main` already checks for at line 444 | not executed | TraceScan.ScoutAsWritten (TraceScan.SignalNeedsSecondDirectory, TraceScan.SingleDirectoryTraceHangs) | TraceScan.ScoutSignalled (TraceScan.ScoutFunction, TraceScan.SignalledAlwaysProceeds) |
