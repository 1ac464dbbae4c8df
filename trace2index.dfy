/**
 * Building an index from a trace file: every line of the trace describes
 * one entry, a directory line followed by the lines of the files in it.
 * A scout reads the trace once and queues one work item per directory,
 * recording where the directory's files start and how many there are; each
 * work item is then processed by reading rows from that offset up to the
 * next directory line.
 *
 * A trace is a sequence of lines; offsets are line numbers (the index of
 * the line after a directory line) rather than byte positions.
 */
module TraceScan {
  /** SIZE_MAX of a 64-bit size_t, which is what -1 becomes in one. */
  const SizeMax: nat := 0xFFFF_FFFF_FFFF_FFFF

  /** Rows inserted before processdir commits and restarts its transaction. */
  const TxnLimit: nat := 100000

  /**
   * struct row: a trace line, the position of its first delimiter, the
   * offset of the line after it and the number of file lines under it.
   */
  datatype Row = Row(line: string, firstDelim: nat, offset: int, entries: nat)

  /** init_row: everything zero except first_delim and offset, which are -1. */
  function InitRow(): (r: Row)
    ensures r.line == "" && r.entries == 0
    ensures r.firstDelim == SizeMax && r.offset == -1
  {
    Row("", SizeMax, -1, 0)
  }

  /** The first position at or after i that holds delim, or SizeMax when none does. */
  function FirstDelimFrom(line: string, delim: char, i: nat): (r: nat)
    requires |line| < SizeMax
    decreases |line| - i
    ensures r == SizeMax || (i <= r < |line| && line[r] == delim)
    ensures forall k :: i <= k < |line| && k < r ==> line[k] != delim
  {
    if i >= |line| then SizeMax
    else if line[i] == delim then i
    else FirstDelimFrom(line, delim, i + 1)
  }

  function FirstDelim(line: string, delim: char): nat
    requires |line| < SizeMax
  {
    FirstDelimFrom(line, delim, 0)
  }

  /**
   * parsefirst: the index of the first delim in the line, or SIZE_MAX when
   * the line has none.
   */
  method ParseFirst(delim: char, work: Row) returns (r: Row)
    requires |work.line| < SizeMax
    ensures r == work.(firstDelim := FirstDelim(work.line, delim))
    ensures r.firstDelim == SizeMax <==> delim !in work.line
    ensures r.firstDelim < |work.line| ==> work.line[r.firstDelim] == delim && delim !in work.line[..r.firstDelim]
  {
    var fd := 0;
    while fd < |work.line| && work.line[fd] != delim
      invariant 0 <= fd <= |work.line|
      invariant delim !in work.line[..fd]
      invariant FirstDelimFrom(work.line, delim, fd) == FirstDelim(work.line, delim)
    {
      assert work.line[..fd + 1] == work.line[..fd] + [work.line[fd]];
      fd := fd + 1;
    }
    if fd == |work.line| {
      assert work.line[..fd] == work.line;
      fd := SizeMax;
    }
    r := work.(firstDelim := fd);
  }

  /** first_delim + 1 in size_t arithmetic: SIZE_MAX wraps round to 0. */
  function TypeIndex(fd: nat): nat
    requires fd <= SizeMax
  {
    if fd == SizeMax then 0 else fd + 1
  }

  /** TypeIndex is the sum taken modulo 2^64. */
  lemma TypeIndexWraps(fd: nat)
    requires fd <= SizeMax
    ensures TypeIndex(fd) == (fd + 1) % (SizeMax + 1)
  {
  }

  /** A character of a C string: the terminating NUL past the end. */
  function CharAt(line: string, k: nat): char {
    if k < |line| then line[k] else '\0'
  }

  /**
   * A directory line: the character after the first delimiter is 'd'; with
   * no delimiter that is the line's first character.
   */
  predicate IsDir(line: string, delim: char)
    requires |line| < SizeMax
  {
    CharAt(line, TypeIndex(FirstDelim(line, delim))) == 'd'
  }

  predicate Bounded(lines: seq<string>) {
    forall i :: 0 <= i < |lines| ==> |lines[i]| < SizeMax
  }

  // ---------------------------------------------------------------------
  // The scout

  /** The scout's variables: the queue, the current work item and the counters. */
  datatype Scout = Scout(queue: seq<Row>, work: Row, files: nat, dirs: nat, empty: nat, processed: int)

  /** A parsed row for line i, as new_row and parsefirst leave it. */
  function ParsedRow(lines: seq<string>, i: nat, delim: char): (r: Row)
    requires Bounded(lines) && i < |lines|
  {
    InitRow().(line := lines[i], firstDelim := FirstDelim(lines[i], delim))
  }

  /** The state after the first line: it always opens the first directory. */
  function ScoutStart(lines: seq<string>, delim: char): Scout
    requires Bounded(lines) && |lines| > 0
  {
    Scout([], ParsedRow(lines, 0, delim).(offset := 1), 0, 1, 0, 0)
  }

  /**
   * One more line i: a directory line queues the current item and opens a
   * new one; any other line counts as a file of the current item.
   */
  function ScoutStep(s: Scout, lines: seq<string>, i: nat, delim: char): Scout
    requires Bounded(lines) && 0 < i < |lines|
  {
    var next := ParsedRow(lines, i, delim);
    if CharAt(next.line, TypeIndex(next.firstDelim)) == 'd' then
      Scout(s.queue + [s.work], next.(offset := i + 1), s.files, s.dirs + 1,
            s.empty + (if s.work.entries == 0 then 1 else 0), 1)
    else
      s.(work := s.work.(entries := s.work.entries + 1), files := s.files + 1)
  }

  /** The scout's variables after reading the first m lines. */
  function ScoutScan(lines: seq<string>, m: nat, delim: char): Scout
    requires Bounded(lines) && 1 <= m <= |lines|
  {
    if m == 1 then ScoutStart(lines, delim)
    else ScoutStep(ScoutScan(lines, m - 1, delim), lines, m - 1, delim)
  }

  /** What the scout leaves: the queued items, the counters and the signal to main. */
  datatype Outcome = Outcome(queue: seq<Row>, files: nat, dirs: nat, empty: nat, processed: int)

  function Finish(s: Scout): Outcome {
    Outcome(s.queue + [s.work], s.files, s.dirs, s.empty, s.processed)
  }

  /**
   * scout_function as written: an unopenable or empty trace returns at once
   * with nothing queued and processed still 0; otherwise the last item is
   * queued after the loop, and processed is 1 only if some line after the
   * first was a directory.
   */
  function ScoutAsWritten(lines: seq<string>, delim: char, readable: bool): Outcome
    requires Bounded(lines)
  {
    if !readable || lines == [] then Outcome([], 0, 0, 0, 0)
    else Finish(ScoutScan(lines, |lines|, delim))
  }

  /**
   * scout_function with the signal main waits for raised on every way out:
   * -1 when the trace cannot be opened, 1 otherwise.
   */
  function ScoutSignalled(lines: seq<string>, delim: char, readable: bool): (r: Outcome)
    requires Bounded(lines)
    ensures r.processed != 0
    ensures r.processed == -1 <==> !readable
    ensures r == ScoutAsWritten(lines, delim, readable).(processed := r.processed)
  {
    var o := ScoutAsWritten(lines, delim, readable);
    o.(processed := if readable then 1 else -1)
  }

  /** main waits on the condition variable until processed is non-zero. */
  predicate MainProceeds(o: Outcome) {
    o.processed != 0
  }

  /**
   * The scout thread. Its loop is scout_function's; the signal to main is
   * also raised when the trace cannot be opened, is empty, or holds a single
   * directory.
   */
  method ScoutFunction(lines: seq<string>, delim: char, readable: bool)
    returns (queue: seq<Row>, files: nat, dirs: nat, empty: nat, processed: int)
    requires Bounded(lines)
    ensures Outcome(queue, files, dirs, empty, processed) == ScoutSignalled(lines, delim, readable)
  {
    if !readable {
      return [], 0, 0, 0, -1;
    }
    if |lines| == 0 {
      return [], 0, 0, 0, 1;
    }
    var work := InitRow().(line := lines[0]);
    work := ParseFirst(delim, work);
    work := work.(offset := 1);
    queue := [];
    files := 0;
    dirs := 1;
    empty := 0;
    processed := 0;
    var i := 1;
    while i < |lines|
      invariant 1 <= i <= |lines|
      invariant Scout(queue, work, files, dirs, empty, processed) == ScoutScan(lines, i, delim)
      invariant processed == 0 || processed == 1
    {
      var next := InitRow().(line := lines[i]);
      next := ParseFirst(delim, next);
      if CharAt(next.line, TypeIndex(next.firstDelim)) == 'd' {
        dirs := dirs + 1;
        empty := empty + (if work.entries == 0 then 1 else 0);
        next := next.(offset := i + 1);
        queue := queue + [work];
        if processed == 0 {
          processed := 1;
        }
        work := next;
      } else {
        work := work.(entries := work.entries + 1);
        files := files + 1;
      }
      i := i + 1;
    }
    queue := queue + [work];
    processed := 1;
  }

  // ---------------------------------------------------------------------
  // What the scout's queue says about the trace

  /**
   * Item r covers the lines r.offset .. end - 1: r's own line is the one
   * just before them, and none of them is a directory line.
   */
  ghost predicate Segment(lines: seq<string>, r: Row, end: nat, delim: char)
    requires Bounded(lines)
  {
    && 1 <= r.offset <= end <= |lines|
    && r.line == lines[r.offset - 1]
    && r.offset + r.entries == end
    && forall j :: r.offset <= j < end ==> !IsDir(lines[j], delim)
  }

  /** An item closed by the directory line just after its entries. */
  ghost predicate Closed(lines: seq<string>, r: Row, delim: char)
    requires Bounded(lines)
  {
    && 1 <= r.offset && r.offset + r.entries < |lines|
    && Segment(lines, r, r.offset + r.entries, delim)
    && IsDir(lines[r.offset + r.entries], delim)
  }

  /** Where the item after queue[k] starts. */
  function NextStart(queue: seq<Row>, work: Row, k: nat): int
    requires k < |queue|
  {
    if k + 1 < |queue| then queue[k + 1].offset else work.offset
  }

  /** Each queued item is closed, and the next item starts on the line after. */
  ghost predicate Chain(lines: seq<string>, q: seq<Row>, work: Row, delim: char)
    requires Bounded(lines)
  {
    forall k :: 0 <= k < |q| ==>
      Closed(lines, q[k], delim) && NextStart(q, work, k) == q[k].offset + q[k].entries + 1
  }

  /** Number of items with no entries. */
  function CountEmpty(items: seq<Row>): nat {
    if items == [] then 0
    else CountEmpty(items[..|items| - 1]) + (if items[|items| - 1].entries == 0 then 1 else 0)
  }

  /**
   * The queued items and the current one cut lines 0 .. m - 1 into
   * consecutive segments, the first starting at line 0 and each but the
   * last ended by a directory line.
   */
  ghost predicate Layout(lines: seq<string>, q: seq<Row>, work: Row, m: nat, delim: char)
    requires Bounded(lines)
  {
    && m <= |lines|
    && (if |q| == 0 then work.offset == 1 else q[0].offset == 1)
    && Segment(lines, work, m, delim)
    && Chain(lines, q, work, delim)
  }

  /** The scout's variables after m lines: a layout, and counters that agree with it. */
  ghost predicate Partition(lines: seq<string>, s: Scout, m: nat, delim: char)
    requires Bounded(lines)
  {
    && Layout(lines, s.queue, s.work, m, delim)
    && s.dirs == |s.queue| + 1
    && s.files + s.dirs == m
    && s.empty == CountEmpty(s.queue)
    && s.processed == (if |s.queue| > 0 then 1 else 0)
  }

  /** A directory line closes the current item and chains a new one after it. */
  lemma ChainGrows(lines: seq<string>, q: seq<Row>, work: Row, next: Row, m: nat, delim: char)
    requires Bounded(lines) && m < |lines|
    requires Chain(lines, q, work, delim)
    requires Segment(lines, work, m, delim) && IsDir(lines[m], delim)
    requires next.offset == m + 1
    ensures Chain(lines, q + [work], next, delim)
  {
    var q2 := q + [work];
    forall k | 0 <= k < |q2|
      ensures Closed(lines, q2[k], delim) && NextStart(q2, next, k) == q2[k].offset + q2[k].entries + 1
    {
      if k < |q| {
        assert q2[k] == q[k];
        assert NextStart(q2, next, k) == NextStart(q, work, k);
      }
    }
  }

  /** A directory line m queues the current item and opens a new one on that line. */
  lemma LayoutGrows(lines: seq<string>, q: seq<Row>, work: Row, next: Row, m: nat, delim: char)
    requires Bounded(lines) && m < |lines|
    requires Layout(lines, q, work, m, delim) && IsDir(lines[m], delim)
    requires next.offset == m + 1 && next.entries == 0 && next.line == lines[m]
    ensures Layout(lines, q + [work], next, m + 1, delim)
  {
    ChainGrows(lines, q, work, next, m, delim);
    assert (q + [work])[0] == if |q| == 0 then work else q[0];
  }

  /** The chain depends on the current item only through where it starts. */
  lemma ChainKeepsStart(lines: seq<string>, q: seq<Row>, work: Row, w: Row, delim: char)
    requires Bounded(lines)
    requires Chain(lines, q, work, delim) && w.offset == work.offset
    ensures Chain(lines, q, w, delim)
  {
    forall k | 0 <= k < |q| ensures NextStart(q, w, k) == NextStart(q, work, k) {
    }
  }

  /** A segment ending at a non-directory line m extends over it. */
  lemma SegmentExtends(lines: seq<string>, r: Row, m: nat, delim: char)
    requires Bounded(lines) && m < |lines|
    requires Segment(lines, r, m, delim) && !IsDir(lines[m], delim)
    ensures Segment(lines, r.(entries := r.entries + 1), m + 1, delim)
  {
  }

  /** Any other line m becomes one more entry of the current item. */
  lemma LayoutExtends(lines: seq<string>, q: seq<Row>, work: Row, m: nat, delim: char)
    requires Bounded(lines) && m < |lines|
    requires Layout(lines, q, work, m, delim) && !IsDir(lines[m], delim)
    ensures Layout(lines, q, work.(entries := work.entries + 1), m + 1, delim)
  {
    var w := work.(entries := work.entries + 1);
    ChainKeepsStart(lines, q, work, w, delim);
    SegmentExtends(lines, work, m, delim);
  }

  /** Appending an item adds one to the count exactly when it has no entries. */
  lemma CountEmptyAppend(q: seq<Row>, w: Row)
    ensures CountEmpty(q + [w]) == CountEmpty(q) + (if w.entries == 0 then 1 else 0)
  {
    assert (q + [w])[..|q|] == q;
  }

  lemma DirStepKeepsPartition(lines: seq<string>, s: Scout, m: nat, delim: char)
    requires Bounded(lines) && 1 <= m < |lines|
    requires Partition(lines, s, m, delim) && IsDir(lines[m], delim)
    ensures Partition(lines, ScoutStep(s, lines, m, delim), m + 1, delim)
  {
    var t := ScoutStep(s, lines, m, delim);
    LayoutGrows(lines, s.queue, s.work, t.work, m, delim);
    CountEmptyAppend(s.queue, s.work);
  }

  lemma FileStepKeepsPartition(lines: seq<string>, s: Scout, m: nat, delim: char)
    requires Bounded(lines) && 1 <= m < |lines|
    requires Partition(lines, s, m, delim) && !IsDir(lines[m], delim)
    ensures Partition(lines, ScoutStep(s, lines, m, delim), m + 1, delim)
  {
    LayoutExtends(lines, s.queue, s.work, m, delim);
  }

  lemma StepKeepsPartition(lines: seq<string>, s: Scout, m: nat, delim: char)
    requires Bounded(lines) && 1 <= m < |lines|
    requires Partition(lines, s, m, delim)
    ensures Partition(lines, ScoutStep(s, lines, m, delim), m + 1, delim)
  {
    if IsDir(lines[m], delim) {
      DirStepKeepsPartition(lines, s, m, delim);
    } else {
      FileStepKeepsPartition(lines, s, m, delim);
    }
  }

  /** The step from m - 1 scanned lines to m, stated on the scan itself. */
  lemma ScanStepKeepsPartition(lines: seq<string>, m: nat, delim: char)
    requires Bounded(lines) && 2 <= m <= |lines|
    requires Partition(lines, ScoutScan(lines, m - 1, delim), m - 1, delim)
    ensures Partition(lines, ScoutScan(lines, m, delim), m, delim)
  {
    StepKeepsPartition(lines, ScoutScan(lines, m - 1, delim), m - 1, delim);
  }

  /** The first line alone: one open item with no entries. */
  lemma StartPartition(lines: seq<string>, delim: char)
    requires Bounded(lines) && |lines| > 0
    ensures Partition(lines, ScoutStart(lines, delim), 1, delim)
  {
    var s := ScoutStart(lines, delim);
    assert s.work.offset == 1 && s.work.entries == 0 && s.work.line == lines[0];
    assert Segment(lines, s.work, 1, delim);
  }

  lemma {:induction false} ScanPartitions(lines: seq<string>, m: nat, delim: char)
    requires Bounded(lines) && 1 <= m <= |lines|
    ensures Partition(lines, ScoutScan(lines, m, delim), m, delim)
  {
    if m == 1 {
      StartPartition(lines, delim);
    } else {
      ScanPartitions(lines, m - 1, delim);
      ScanStepKeepsPartition(lines, m, delim);
    }
  }

  /** The queue the scout leaves on a readable, non-empty trace. */
  lemma FinalQueue(lines: seq<string>, delim: char)
    requires Bounded(lines) && |lines| > 0
    ensures var s := ScoutScan(lines, |lines|, delim);
      && ScoutSignalled(lines, delim, true) == Finish(s).(processed := 1)
      && Partition(lines, s, |lines|, delim)
  {
    ScanPartitions(lines, |lines|, delim);
  }

  /**
   * Every line is counted once, as a file or a directory; every directory
   * gets exactly one item, the first for line 0; and empty counts the items
   * other than the last that have no entries.
   */
  lemma ScoutCounts(lines: seq<string>, delim: char)
    requires Bounded(lines) && |lines| > 0
    ensures var o := ScoutSignalled(lines, delim, true);
      && o.files + o.dirs == |lines|
      && |o.queue| == o.dirs
      && o.queue[0].offset == 1 && o.queue[0].line == lines[0]
      && o.empty == CountEmpty(o.queue[..|o.queue| - 1])
  {
    FinalQueue(lines, delim);
    var s := ScoutScan(lines, |lines|, delim);
    var q := s.queue + [s.work];
    assert q[..|q| - 1] == s.queue;
    if |s.queue| > 0 {
      assert q[0] == s.queue[0];
      assert Segment(lines, s.queue[0], s.queue[0].offset + s.queue[0].entries, delim);
    }
  }

  /** The items are queued in trace order. */
  lemma QueueInTraceOrder(lines: seq<string>, delim: char)
    requires Bounded(lines) && |lines| > 0
    ensures var q := ScoutSignalled(lines, delim, true).queue;
      forall k, l :: 0 <= k < l < |q| ==> q[k].offset < q[l].offset
  {
    FinalQueue(lines, delim);
    var s := ScoutScan(lines, |lines|, delim);
    var q := s.queue + [s.work];
    forall k | 0 <= k < |q| - 1 ensures q[k].offset < q[k + 1].offset {
      assert q[k] == s.queue[k];
      assert NextStart(s.queue, s.work, k) == q[k + 1].offset;
    }
    forall k, l | 0 <= k < l < |q| ensures q[k].offset < q[l].offset {
      OffsetsIncrease(q, k, l);
    }
  }

  lemma {:induction false} OffsetsIncrease(q: seq<Row>, k: nat, l: nat)
    requires forall j :: 0 <= j < |q| - 1 ==> q[j].offset < q[j + 1].offset
    requires k < l < |q|
    ensures q[k].offset < q[l].offset
    decreases l - k
  {
    if k + 1 < l {
      OffsetsIncrease(q, k + 1, l);
    }
  }

  /**
   * main waits for processed to become non-zero; as written that happens
   * only when a directory line follows the first line.
   */
  lemma SignalNeedsSecondDirectory(lines: seq<string>, delim: char)
    requires Bounded(lines) && |lines| > 0
    ensures MainProceeds(ScoutAsWritten(lines, delim, true)) <==>
      exists i :: 1 <= i < |lines| && IsDir(lines[i], delim)
  {
    var s := ScoutScan(lines, |lines|, delim);
    ScanPartitions(lines, |lines|, delim);
    assert ScoutAsWritten(lines, delim, true) == Finish(s);
    if |s.queue| > 0 {
      var i := s.queue[0].offset + s.queue[0].entries;
      assert IsDir(lines[i], delim);
    } else {
      assert Segment(lines, s.work, |lines|, delim);
      assert forall i :: 1 <= i < |lines| ==> !IsDir(lines[i], delim);
    }
  }

  /**
   * A trace of a single directory: the scout never raises processed, so main
   * waits on the condition variable for ever.
   */
  lemma SingleDirectoryTraceHangs()
    ensures var lines := ["/top\U{1E}d\U{1E}\n"];
      Bounded(lines) && !MainProceeds(ScoutAsWritten(lines, '\U{1E}', true))
  {
    var lines := ["/top\U{1E}d\U{1E}\n"];
    assert ScoutAsWritten(lines, '\U{1E}', true) == Finish(ScoutStart(lines, '\U{1E}'));
  }

  /** With the signal on every way out, main always proceeds. */
  lemma SignalledAlwaysProceeds(lines: seq<string>, delim: char, readable: bool)
    requires Bounded(lines)
    ensures MainProceeds(ScoutSignalled(lines, delim, readable))
    ensures ScoutSignalled(lines, delim, readable).queue == ScoutAsWritten(lines, delim, readable).queue
  {
  }

  // ---------------------------------------------------------------------
  // Processing one directory

  /** The first directory line at or after from, or the end of the trace. */
  function NextDir(lines: seq<string>, from: nat, delim: char): (r: nat)
    requires Bounded(lines) && from <= |lines|
    decreases |lines| - from
    ensures from <= r <= |lines|
    ensures r < |lines| ==> IsDir(lines[r], delim)
    ensures forall j :: from <= j < r ==> !IsDir(lines[j], delim)
  {
    if from == |lines| then from
    else if IsDir(lines[from], delim) then from
    else NextDir(lines, from + 1, delim)
  }

  lemma {:induction false} NextDirIs(lines: seq<string>, from: nat, end: nat, delim: char)
    requires Bounded(lines) && from <= end <= |lines|
    requires forall j :: from <= j < end ==> !IsDir(lines[j], delim)
    requires end == |lines| || IsDir(lines[end], delim)
    ensures NextDir(lines, from, delim) == end
    decreases end - from
  {
    if from < end {
      NextDirIs(lines, from + 1, end, delim);
    }
  }

  /**
   * The row loop of processdir: reads rows from the item's offset and
   * inserts each one until a directory row or the end of the trace, and
   * commits and restarts the transaction each time more than TxnLimit rows
   * have gone in since the last restart.
   */
  method ProcessRows(lines: seq<string>, w: Row, delim: char)
    returns (inserted: seq<string>, restarts: nat, rowCount: nat)
    requires Bounded(lines) && 0 <= w.offset <= |lines|
    ensures inserted == lines[w.offset..NextDir(lines, w.offset, delim)]
    ensures |inserted| == restarts * (TxnLimit + 1) + rowCount && rowCount <= TxnLimit
  {
    var pos: nat := w.offset;
    inserted := [];
    restarts := 0;
    rowCount := 0;
    while pos < |lines|
      invariant w.offset <= pos <= |lines|
      invariant inserted == lines[w.offset..pos]
      invariant forall j :: w.offset <= j < pos ==> !IsDir(lines[j], delim)
      invariant |inserted| == restarts * (TxnLimit + 1) + rowCount && rowCount <= TxnLimit
    {
      var line := lines[pos];
      var row := ParseFirst(delim, InitRow().(line := line));
      if CharAt(line, TypeIndex(row.firstDelim)) == 'd' {
        break;
      }
      inserted := inserted + [line];
      pos := pos + 1;
      rowCount := rowCount + 1;
      if rowCount > TxnLimit {
        restarts := restarts + 1;
        rowCount := 0;
      }
    }
    NextDirIs(lines, w.offset, pos, delim);
  }

  /**
   * Each queued item, processed, inserts exactly its entries rows: the
   * scout's count and processdir's reading agree.
   */
  lemma ProcessedRowsMatchEntries(lines: seq<string>, delim: char, k: nat)
    requires Bounded(lines) && |lines| > 0
    requires k < |ScoutSignalled(lines, delim, true).queue|
    ensures var r := ScoutSignalled(lines, delim, true).queue[k];
      && 1 <= r.offset <= |lines|
      && NextDir(lines, r.offset, delim) == r.offset + r.entries
  {
    FinalQueue(lines, delim);
    var s := ScoutScan(lines, |lines|, delim);
    var q := s.queue + [s.work];
    if k < |s.queue| {
      assert q[k] == s.queue[k];
      ClosedItemRows(lines, q[k], delim);
    } else {
      LastItemRows(lines, s.work, delim);
    }
  }

  lemma ClosedItemRows(lines: seq<string>, r: Row, delim: char)
    requires Bounded(lines) && Closed(lines, r, delim)
    ensures NextDir(lines, r.offset, delim) == r.offset + r.entries
  {
    NextDirIs(lines, r.offset, r.offset + r.entries, delim);
  }

  lemma LastItemRows(lines: seq<string>, r: Row, delim: char)
    requires Bounded(lines) && Segment(lines, r, |lines|, delim)
    ensures NextDir(lines, r.offset, delim) == r.offset + r.entries
  {
    NextDirIs(lines, r.offset, |lines|, delim);
  }
}
