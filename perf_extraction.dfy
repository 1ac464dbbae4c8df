/**
 * The parser for the cumulative-times debug output of the performance
 * history tools: each line of the output starts with a column name and
 * carries that column's value; the parsed values are stored in a table
 * whose CREATE and INSERT statements are built here as text.
 */
module CumulativeTimes {
  import opened Wrappers
  import opened PyStr

  /** The Python type a column declares; NoType is a column typed None. */
  datatype ColType = NoType | StrType | IntType | FloatType

  /** A value of the parsed dict: None, text or an integer. */
  datatype Value = NoneValue | Text(s: string) | Integer(i: int)

  /** A declared column: its name and its Python type. */
  datatype Column = Column(name: string, ty: ColType)

  function Names(columns: seq<Column>): (r: seq<string>)
    ensures |r| == |columns|
    ensures forall i :: 0 <= i < |r| ==> r[i] == columns[i].name
  {
    if columns == [] then [] else [columns[0].name] + Names(columns[1..])
  }

  /** Python's str(value). */
  function Str(v: Value): string {
    match v
    case NoneValue => "None"
    case Text(s) => s
    case Integer(i) => IntToString(i)
  }

  /** The characters s.rstrip(chars) removes: whitespace when chars is None. */
  function StripSet(chars: Option<string>): set<char> {
    match chars
    case None => Whitespace
    case Some(cs) => set c | c in cs
  }

  /**
   * process_line: the line stripped of whitespace and then of trailing
   * characters of rstrip; nothing when that leaves no text, else the text
   * under the key event. The contract speaks of t, the line after strip().
   */
  function ProcessLine(line: string, event: string, rstrip: Option<string>): (r: map<string, string>)
    ensures var t := Strip(line); var cs := StripSet(rstrip);
      && r.Keys <= {event}
      && (r == map[] <==> forall i :: 0 <= i < |t| ==> t[i] in cs)
      && (event in r ==> TrailingStripped(t, r[event], cs))
  {
    var t := Strip(line);
    var cs := StripSet(rstrip);
    var stripped := RStrip(t, cs);
    RStripMeaning(t, cs);
    if stripped == "" then map[] else map[event := stripped]
  }

  /**
   * s.rstrip(cs) is empty exactly when every character of s is in cs, and
   * otherwise is s less its trailing run of characters of cs.
   */
  lemma RStripMeaning(s: string, cs: set<char>)
    ensures RStrip(s, cs) == "" <==> forall i :: 0 <= i < |s| ==> s[i] in cs
    ensures RStrip(s, cs) != "" ==> TrailingStripped(s, RStrip(s, cs), cs)
  {
    var r := RStrip(s, cs);
    if r != "" {
      assert s[|r| - 1] == r[|r| - 1];
    }
  }

  /** v is non-empty, is t less a run of trailing characters of cs, and does not end in one. */
  predicate TrailingStripped(t: string, v: string, cs: set<char>) {
    && v != "" && |v| <= |t| && v == t[..|v|]
    && v[|v| - 1] !in cs
    && (forall i :: |v| <= i < |t| ==> t[i] in cs)
  }

  /**
   * format_value: NULL for a column typed None, the value between double
   * quotes (nothing escaped) for str, and str(value) for any other type.
   */
  function FormatValue(v: Value, ty: ColType): (r: string)
    ensures ty == NoType ==> r == "NULL"
    ensures ty == StrType ==> |r| == |Str(v)| + 2 && r[0] == '"' && r[|r| - 1] == '"' && r[1..|r| - 1] == Str(v)
    ensures ty != NoType && ty != StrType ==> r == Str(v)
  {
    match ty
    case NoType => "NULL"
    case StrType => "\"" + Str(v) + "\""
    case _ => Str(v)
  }

  function Quote(name: string): string {
    "\"" + name + "\""
  }

  /** The column declarations of create_table, in the order of columns. */
  function Declarations(columns: seq<Column>, sqlType: ColType -> string): (r: seq<string>)
    ensures |r| == |columns|
    ensures forall i :: 0 <= i < |r| ==> r[i] == Quote(columns[i].name) + " " + sqlType(columns[i].ty)
  {
    if columns == [] then [] else [Quote(columns[0].name) + " " + sqlType(columns[0].ty)] + Declarations(columns[1..], sqlType)
  }

  /** The quoted column names of insert, in the order of columns. */
  function QuotedNames(columns: seq<Column>): (r: seq<string>)
    ensures |r| == |columns|
    ensures forall i :: 0 <= i < |r| ==> r[i] == Quote(columns[i].name)
  {
    if columns == [] then [] else [Quote(columns[0].name)] + QuotedNames(columns[1..])
  }

  /**
   * The formatted values of insert, in the order of columns; None when a
   * column has no value in parsed (Python raises KeyError).
   */
  function Values(parsed: map<string, Value>, columns: seq<Column>): (r: Option<seq<string>>)
    ensures r.Some? <==> forall i :: 0 <= i < |columns| ==> columns[i].name in parsed
    ensures r.Some? ==> |r.value| == |columns|
    ensures r.Some? ==> forall i :: 0 <= i < |columns| ==> r.value[i] == FormatValue(parsed[columns[i].name], columns[i].ty)
  {
    if columns == [] then Some([])
    else if columns[0].name !in parsed then None
    else match Values(parsed, columns[1..])
      case None => None
      case Some(rest) => Some([FormatValue(parsed[columns[0].name], columns[0].ty)] + rest)
  }

  /**
   * The statement create_table executes. The mapping from Python types to
   * SQLite types is a parameter.
   */
  function CreateTableSql(table: string, columns: seq<Column>, sqlType: ColType -> string): string
  {
    "CREATE TABLE " + table + " (" + Join(Declarations(columns, sqlType), ", ") + ");"
  }

  /**
   * The statement insert executes, or a failure for a missing column.
   */
  function InsertSql(parsed: map<string, Value>, table: string, columns: seq<Column>): Result<string, string>
  {
    match Values(parsed, columns)
    case None => Failure("KeyError")
    case Some(vals) =>
      Success("INSERT INTO " + table + " (" + Join(QuotedNames(columns), ", ") + ") VALUES (" + Join(vals, ", ") + ");")
  }

  /**
   * insert raises KeyError exactly when some column is missing from the
   * parsed map; otherwise it names every column and gives its value.
   */
  lemma InsertFailsIffMissing(parsed: map<string, Value>, table: string, columns: seq<Column>)
    ensures InsertSql(parsed, table, columns).Failure? <==> exists i :: 0 <= i < |columns| && columns[i].name !in parsed
    ensures InsertSql(parsed, table, columns).Failure? ==> InsertSql(parsed, table, columns).error == "KeyError"
    ensures InsertSql(parsed, table, columns).Success? ==>
              InsertSql(parsed, table, columns).value
                == "INSERT INTO " + table + " (" + Join(QuotedNames(columns), ", ") + ") VALUES ("
                   + Join(Values(parsed, columns).value, ", ") + ");"
  {
  }

  /**
   * The i-th column create_table declares is the i-th column insert names,
   * and the i-th value insert gives belongs to that column.
   */
  lemma CreateAndInsertAligned(parsed: map<string, Value>, columns: seq<Column>, sqlType: ColType -> string, i: nat)
    requires i < |columns|
    requires forall k :: 0 <= k < |columns| ==> columns[k].name in parsed
    ensures Values(parsed, columns).Some?
    ensures Declarations(columns, sqlType)[i] == QuotedNames(columns)[i] + " " + sqlType(columns[i].ty)
    ensures Values(parsed, columns).value[i] == FormatValue(parsed[columns[i].name], columns[i].ty)
  {
  }

  // ---------------------------------------------------------------------
  // Ordering the column names longest first

  predicate Ascending(s: seq<string>) {
    forall i, j :: 0 <= i < j < |s| ==> |s[i]| <= |s[j]|
  }

  predicate Descending(s: seq<string>) {
    forall i, j :: 0 <= i < j < |s| ==> |s[i]| >= |s[j]|
  }

  /** A lower bound on the lengths of s and of x bounds every element of a permutation of s with x added. */
  lemma LengthBoundKept(lo: nat, s: seq<string>, x: string, r: seq<string>)
    requires forall k :: 0 <= k < |s| ==> lo <= |s[k]|
    requires lo <= |x|
    requires multiset(r) == multiset(s) + multiset{x}
    ensures forall k :: 0 <= k < |r| ==> lo <= |r[k]|
  {
    forall k | 0 <= k < |r| ensures lo <= |r[k]| {
      assert r[k] in multiset(r);
      if r[k] != x {
        assert r[k] in multiset(s);
        var j :| 0 <= j < |s| && s[j] == r[k];
      }
    }
  }

  /** A name no longer than any of a sorted list can go in front of it. */
  lemma ConsAscending(x: string, s: seq<string>)
    requires Ascending(s)
    requires forall k :: 0 <= k < |s| ==> |x| <= |s[k]|
    ensures Ascending([x] + s)
  {
    var r := [x] + s;
    forall i, j | 0 <= i < j < |r| ensures |r[i]| <= |r[j]| {
      assert r[j] == s[j - 1];
      if i > 0 {
        assert r[i] == s[i - 1];
      }
    }
  }

  /** Inserts x after every name no longer than it, which keeps the sort stable. */
  function InsertByLength(x: string, s: seq<string>): (r: seq<string>)
    ensures |r| == |s| + 1
  {
    if s == [] then [x]
    else if |x| < |s[0]| then [x] + s
    else [s[0]] + InsertByLength(x, s[1..])
  }

  /** Inserting into a sorted list keeps it sorted and adds exactly x. */
  lemma {:induction false} InsertByLengthSorted(x: string, s: seq<string>)
    requires Ascending(s)
    ensures Ascending(InsertByLength(x, s))
    ensures multiset(InsertByLength(x, s)) == multiset(s) + multiset{x}
  {
    if s == [] {
    } else if |x| < |s[0]| {
      assert forall k :: 0 <= k < |s| ==> |s[0]| <= |s[k]|;
      ConsAscending(x, s);
      assert multiset([x] + s) == multiset{x} + multiset(s);
    } else {
      var rest := InsertByLength(x, s[1..]);
      assert InsertByLength(x, s) == [s[0]] + rest;
      InsertByLengthSorted(x, s[1..]);
      assert multiset(s) == multiset{s[0]} + multiset(s[1..]) by {
        assert s == [s[0]] + s[1..];
      }
      LengthBoundKept(|s[0]|, s[1..], x, rest);
      ConsAscending(s[0], rest);
      assert multiset([s[0]] + rest) == multiset{s[0]} + multiset(rest);
    }
  }

  /** list.sort(key=len): a stable sort by length, shortest first. */
  function SortByLength(s: seq<string>): (r: seq<string>)
    ensures Ascending(r)
    ensures multiset(r) == multiset(s)
  {
    if s == [] then []
    else
      assert s == s[..|s| - 1] + [s[|s| - 1]];
      InsertByLengthSorted(s[|s| - 1], SortByLength(s[..|s| - 1]));
      InsertByLength(s[|s| - 1], SortByLength(s[..|s| - 1]))
  }

  function Reverse<X>(s: seq<X>): (r: seq<X>)
    ensures |r| == |s|
    ensures forall i :: 0 <= i < |s| ==> r[i] == s[|s| - 1 - i]
  {
    if s == [] then [] else [s[|s| - 1]] + Reverse(s[..|s| - 1])
  }

  lemma {:induction false} ReversePermutes<X>(s: seq<X>)
    ensures multiset(Reverse(s)) == multiset(s)
  {
    if s != [] {
      ReversePermutes(s[..|s| - 1]);
      assert s == s[..|s| - 1] + [s[|s| - 1]];
    }
  }

  /** The column names sorted by length and then reversed: longest first. */
  function LongestFirst(names: seq<string>): (r: seq<string>)
    ensures multiset(r) == multiset(names)
    ensures Descending(r)
  {
    var sorted := SortByLength(names);
    ReversePermutes(sorted);
    Reverse(sorted)
  }

  // ---------------------------------------------------------------------
  // Assigning lines to columns

  /** line[:k] in Python: the whole line when k is past its end. */
  function Head(line: string, k: nat): string {
    if k <= |line| then line[..k] else line
  }

  /** line starts with n. */
  predicate StartsWith(line: string, n: string) {
    |n| <= |line| && line[..|n|] == n
  }

  /** n starts line and is shorter than it. */
  predicate ProperPrefix(n: string, line: string) {
    |n| < |line| && line[..|n|] == n
  }

  /** value == line[:len(value)] holds exactly when value is a prefix of line. */
  lemma HeadIsPrefix(value: string, line: string)
    ensures value == Head(line, |value|) <==> StartsWith(line, value)
  {
  }

  /** One leading colon dropped. */
  function DropColon(rest: string): string {
    if rest != "" && rest[0] == ':' then rest[1..] else rest
  }

  /**
   * The inner loop over the sorted names: the first name that starts line
   * claims it, together with the text after the name (less one colon).
   * When the name is the whole line, the scan goes on with the empty line,
   * which no non-empty name can start.
   */
  function MatchLine(line: string, sorted: seq<string>): Option<(string, string)>
  {
    if sorted == [] then None
    else if sorted[0] == Head(line, |sorted[0]|) then
      var rest := line[|sorted[0]|..];
      if rest == "" then MatchLine(rest, sorted[1..])
      else Some((sorted[0], DropColon(rest)))
    else MatchLine(line, sorted[1..])
  }

  /** The empty line is never claimed. */
  lemma {:induction false} MatchEmpty(sorted: seq<string>)
    ensures MatchLine("", sorted) == None
  {
    if sorted != [] {
      MatchEmpty(sorted[1..]);
    }
  }

  /** A claim is made by a listed name that starts the line and is shorter than it. */
  lemma {:induction false} MatchSound(line: string, sorted: seq<string>)
    ensures MatchLine(line, sorted).Some? ==>
      var (c, v) := MatchLine(line, sorted).value;
      c in sorted && ProperPrefix(c, line) && v == DropColon(line[|c|..])
  {
    if sorted != [] {
      MatchSound(line, sorted[1..]);
      if sorted[0] == Head(line, |sorted[0]|) && line[|sorted[0]|..] == "" {
        MatchEmpty(sorted[1..]);
      }
    }
  }

  /** With the names longest first, the claiming name is the longest that starts the line. */
  lemma {:induction false} MatchLongest(line: string, sorted: seq<string>)
    requires Descending(sorted)
    ensures MatchLine(line, sorted).Some? ==>
      forall n :: n in sorted && StartsWith(line, n) ==> |n| <= |MatchLine(line, sorted).value.0|
  {
    if sorted != [] {
      var n0 := sorted[0];
      assert Descending(sorted[1..]);
      MatchLongest(line, sorted[1..]);
      if n0 == Head(line, |n0|) {
        if line[|n0|..] == "" {
          MatchEmpty(sorted[1..]);
        } else {
          forall n | n in sorted && StartsWith(line, n) ensures |n| <= |n0| {
            var j :| 0 <= j < |sorted| && sorted[j] == n;
            if j > 0 {
              assert |sorted[0]| >= |sorted[j]|;
            }
          }
        }
      } else {
        assert !StartsWith(line, n0);
      }
    }
  }

  /**
   * With the names longest first, a line is left unclaimed exactly when it is
   * itself a name or no name is a proper prefix of it.
   */
  lemma {:induction false} MatchNone(line: string, sorted: seq<string>)
    requires Descending(sorted)
    ensures MatchLine(line, sorted).None? <==> (line in sorted || forall n :: n in sorted ==> !ProperPrefix(n, line))
  {
    if sorted != [] {
      var n0 := sorted[0];
      assert Descending(sorted[1..]);
      MatchNone(line, sorted[1..]);
      if n0 == Head(line, |n0|) {
        if line[|n0|..] == "" {
          MatchEmpty(sorted[1..]);
          assert n0 == line;
        } else {
          assert ProperPrefix(n0, line) && n0 in sorted;
        }
      } else {
        assert !StartsWith(line, n0) && n0 != line;
        assert MatchLine(line, sorted) == MatchLine(line, sorted[1..]);
        assert line in sorted <==> line in sorted[1..] by {
          assert sorted == [n0] + sorted[1..];
        }
        assert (forall n :: n in sorted ==> !ProperPrefix(n, line)) <==> (forall n :: n in sorted[1..] ==> !ProperPrefix(n, line)) by {
          assert sorted == [n0] + sorted[1..];
        }
      }
    }
  }

  /**
   * With the names longest first, a line is claimed by the longest name that
   * starts it and is shorter than it, provided no name is the whole line; the
   * value is the rest of the line after that name, less one leading colon.
   */
  lemma LongestNameClaims(line: string, sorted: seq<string>)
    requires Descending(sorted)
    ensures MatchLine(line, sorted).Some? <==>
      (line !in sorted && exists n :: n in sorted && ProperPrefix(n, line))
    ensures MatchLine(line, sorted).Some? ==>
      var (c, v) := MatchLine(line, sorted).value;
      && c in sorted && ProperPrefix(c, line)
      && v == DropColon(line[|c|..])
      && (forall n :: n in sorted && StartsWith(line, n) ==> |n| <= |c|)
  {
    MatchSound(line, sorted);
    MatchLongest(line, sorted);
    MatchNone(line, sorted);
  }

  /**
   * A name that starts a longer name never takes a line of the longer one:
   * with both declared, the line goes to the longer one (or a longer still).
   */
  lemma PrefixCannotCapture(names: seq<string>, short: string, long: string, line: string)
    requires short in names && long in names
    requires ProperPrefix(short, long) && ProperPrefix(long, line)
    requires line !in names
    ensures MatchLine(line, LongestFirst(names)).Some?
    ensures MatchLine(line, LongestFirst(names)).value.0 != short
  {
    var sorted := LongestFirst(names);
    SameNames(names, sorted);
    LongestNameClaims(line, sorted);
  }

  lemma SameNames(names: seq<string>, sorted: seq<string>)
    requires multiset(sorted) == multiset(names)
    ensures forall n :: n in names <==> n in sorted
  {
    forall n ensures n in names <==> n in sorted {
      assert n in names <==> n in multiset(names);
      assert n in sorted <==> n in multiset(sorted);
    }
  }

  /** The dict the parser starts from. */
  function Initial(commit: string, branch: string): map<string, Value> {
    map["id" := NoneValue, "commit" := Text(commit), "branch" := Text(branch)]
  }

  /** data.update(process_line(value, name, 's')). */
  function Store(data: map<string, Value>, name: string, value: string): map<string, Value> {
    var found := ProcessLine(value, name, Some("s"));
    if name in found then data[name := Text(found[name])] else data
  }

  /**
   * The names tried against a non-blank line: the claiming name stores its
   * value, and no other entry changes.
   */
  function Claim(data: map<string, Value>, line: string, sorted: seq<string>): (r: map<string, Value>)
    ensures data.Keys <= r.Keys
    ensures MatchLine(line, sorted).None? ==> r == data
    ensures MatchLine(line, sorted).Some? ==>
      var name := MatchLine(line, sorted).value.0;
      r.Keys <= data.Keys + {name} && forall k :: k in data && k != name ==> r[k] == data[k]
    ensures MatchLine(line, sorted).Some? ==>
      var (name, value) := MatchLine(line, sorted).value;
      var found := ProcessLine(value, name, Some("s"));
      (name in found ==> name in r && r[name] == Text(found[name])) && (name !in found ==> r == data)
  {
    match MatchLine(line, sorted)
    case None => data
    case Some((name, value)) => Store(data, name, value)
  }

  /** One line of the debug output: blank lines and unclaimed lines change nothing. */
  function Step(data: map<string, Value>, raw: string, sorted: seq<string>): (r: map<string, Value>)
    ensures Strip(raw) == "" ==> r == data
    ensures data.Keys <= r.Keys
  {
    var line := Strip(raw);
    if line == "" then data else Claim(data, line, sorted)
  }

  /** The parse loop over all lines, as a fold from the first line on. */
  function ParseLines(lines: seq<string>, sorted: seq<string>, init: map<string, Value>): map<string, Value> {
    if lines == [] then init
    else Step(ParseLines(lines[..|lines| - 1], sorted, init), lines[|lines| - 1], sorted)
  }

  /** The parse of one more line is one more Step. */
  lemma ParseOneMore(src: seq<string>, i: nat, sorted: seq<string>, init: map<string, Value>)
    requires i < |src|
    ensures ParseLines(src[..i + 1], sorted, init) == Step(ParseLines(src[..i], sorted, init), src[i], sorted)
  {
    var lines := src[..i + 1];
    assert lines[..|lines| - 1] == src[..i];
    assert ParseLines(lines, sorted, init) == Step(ParseLines(src[..i], sorted, init), lines[i], sorted);
  }

  /** The keys the parser starts with, id, commit and branch, are never lost. */
  lemma {:induction false} InitialKeysKept(lines: seq<string>, sorted: seq<string>, commit: string, branch: string)
    ensures {"id", "commit", "branch"} <= ParseLines(lines, sorted, Initial(commit, branch)).Keys
  {
    if lines != [] {
      InitialKeysKept(lines[..|lines| - 1], sorted, commit, branch);
    }
  }

  /**
   * A later line for a column overwrites the earlier value: after a line that
   * a column claims with a value that strips to text, the column holds that
   * text whatever came before.
   */
  lemma LastLineWins(lines: seq<string>, raw: string, sorted: seq<string>, init: map<string, Value>, name: string, value: string)
    requires Strip(raw) != ""
    requires MatchLine(Strip(raw), sorted) == Some((name, value))
    requires name in ProcessLine(value, name, Some("s"))
    ensures ParseLines(lines + [raw], sorted, init)[name] == Text(ProcessLine(value, name, Some("s"))[name])
  {
    assert (lines + [raw])[..|lines|] == lines;
  }

  /** The first declared column the parsed dict lacks, if any. */
  function FirstMissing(columns: seq<Column>, data: map<string, Value>): (r: Option<string>)
    ensures r.None? <==> forall i :: 0 <= i < |columns| ==> columns[i].name in data
    ensures r.Some? ==> exists i :: (0 <= i < |columns| && columns[i].name == r.value && r.value !in data
      && forall k :: 0 <= k < i ==> columns[k].name in data)
  {
    if columns == [] then None
    else if columns[0].name !in data then Some(columns[0].name)
    else
      var r := FirstMissing(columns[1..], data);
      if r.Some? then
        var i :| (0 <= i < |columns[1..]| && columns[1..][i].name == r.value && r.value !in data
          && forall k :: 0 <= k < i ==> columns[1..][k].name in data);
        assert columns[i + 1].name == r.value;
        r
      else r
  }

  function MissingMessage(name: string, commit: string): string {
    "Cumulative times data missing \"" + name + "\" on commit " + commit
  }

  /** What cumulative_times_extract returns or raises. */
  function Extract(src: seq<string>, commit: string, branch: string, columns: seq<Column>): Result<map<string, Value>, string> {
    var data := ParseLines(src, LongestFirst(Names(columns)), Initial(commit, branch));
    match FirstMissing(columns, data)
    case Some(name) => Failure(MissingMessage(name, commit))
    case None => Success(data)
  }

  /**
   * The parse succeeds exactly when every declared column was found, and then
   * the dict holds every declared column besides id, commit and branch.
   */
  lemma ExtractSucceedsIffComplete(src: seq<string>, commit: string, branch: string, columns: seq<Column>)
    ensures var data := ParseLines(src, LongestFirst(Names(columns)), Initial(commit, branch));
      Extract(src, commit, branch, columns).Success? <==> forall i :: 0 <= i < |columns| ==> columns[i].name in data
    ensures Extract(src, commit, branch, columns).Success? ==>
      var data := Extract(src, commit, branch, columns).value;
      && {"id", "commit", "branch"} <= data.Keys
      && forall i :: 0 <= i < |columns| ==> columns[i].name in data
  {
    var sorted := LongestFirst(Names(columns));
    var data := ParseLines(src, sorted, Initial(commit, branch));
    InitialKeysKept(src, sorted, commit, branch);
    var missing := FirstMissing(columns, data);
    assert Extract(src, commit, branch, columns) == if missing.Some? then Failure(MissingMessage(missing.value, commit)) else Success(data);
  }

  /**
   * The inner loop of the parse for one non-blank line: the names are tried
   * in order until one starts the line; the loop breaks with that name and
   * the text after it, less one colon.
   */
  method FindClaim(line: string, sorted: seq<string>) returns (m: Option<(string, string)>)
    ensures m == MatchLine(line, sorted)
  {
    var rest := line;
    var j := 0;
    while j < |sorted|
      invariant 0 <= j <= |sorted|
      invariant MatchLine(line, sorted) == MatchLine(rest, sorted[j..])
    {
      var value := sorted[j];
      assert sorted[j..] == [value] + sorted[j + 1..];
      if value == Head(rest, |value|) {
        rest := rest[|value|..];
        if rest == "" {
          j := j + 1;
          continue;
        }
        if rest[0] == ':' {
          rest := rest[1..];
        }
        return Some((value, rest));
      }
      j := j + 1;
    }
    return None;
  }

  /** The check for missing input: the first declared column without a value. */
  method MissingColumn(columns: seq<Column>, data: map<string, Value>) returns (r: Option<string>)
    ensures r == FirstMissing(columns, data)
  {
    var k := 0;
    while k < |columns|
      invariant 0 <= k <= |columns|
      invariant FirstMissing(columns, data) == FirstMissing(columns[k..], data)
    {
      assert columns[k..] == [columns[k]] + columns[k + 1..];
      if columns[k].name !in data {
        return Some(columns[k].name);
      }
      k := k + 1;
    }
    return None;
  }

  /** A non-blank line is claimed by MatchLine's name, or changes nothing. */
  lemma StepClaims(data: map<string, Value>, raw: string, sorted: seq<string>)
    requires Strip(raw) != ""
    ensures Step(data, raw, sorted) ==
      match MatchLine(Strip(raw), sorted)
      case None => data
      case Some((name, value)) => Store(data, name, value)
  {
  }

  /**
   * cumulative_times_extract: orders the names longest first, assigns each
   * non-blank line to the first name that starts it, and fails naming the
   * first declared column that never got a value.
   */
  method CumulativeTimesExtract(src: seq<string>, commit: string, branch: string, columns: seq<Column>)
    returns (r: Result<map<string, Value>, string>)
    ensures r == Extract(src, commit, branch, columns)
  {
    var data := Initial(commit, branch);
    var sorted := LongestFirst(Names(columns));
    var i := 0;
    while i < |src|
      invariant 0 <= i <= |src|
      invariant data == ParseLines(src[..i], sorted, Initial(commit, branch))
    {
      ParseOneMore(src, i, sorted, Initial(commit, branch));
      var line := Strip(src[i]);
      if line != "" {
        var m := FindClaim(line, sorted);
        StepClaims(ParseLines(src[..i], sorted, Initial(commit, branch)), src[i], sorted);
        if m.Some? {
          data := Store(data, m.value.0, m.value.1);
        }
      }
      i := i + 1;
    }
    assert src[..i] == src;
    var missing := MissingColumn(columns, data);
    if missing.Some? {
      return Failure(MissingMessage(missing.value, commit));
    }
    return Success(data);
  }
}
