/**
 * What the two longitudinal-snapshot generators share: SQLite storage types,
 * value-expression templates over a table alias, the bucket sizer, the SQLite
 * string functions the extension and depth expressions are built from, and the
 * column plan that flattens the statistic descriptor tables.
 */
module SnapshotSql {
  import opened Wrappers
  import opened PyStr

  // ---------------------------------------------------------------------------
  // Storage types and table names

  /** The storage types a column is declared with. */
  datatype SqlType = Null | Int64 | Double | Text | Blob

  /** The SQLITE3_* spellings of the storage types. */
  function TypeName(t: SqlType): (r: SqlText)
    ensures ' ' !in r && |r| > 0
  {
    match t
    case Null => "NULL"
    case Int64 => "INT64"
    case Double => "DOUBLE"
    case Text => "TEXT"
    case Blob => "BLOB"
  }

  /** Table and column names shared with the rest of GUFI. */
  const VRXSUMMARY: SqlText := "vrxsummary"
  const VRXPENTRIES: SqlText := "vrxpentries"
  const SUMMARY: SqlText := "summary"
  const TREESUMMARY: SqlText := "treesummary"
  const INODE: SqlText := "inode"
  const PINODE: SqlText := "pinode"
  const METADATA: SqlText := "metadata"
  const SNAPSHOT: SqlText := "snapshot"

  /** The entries columns the statistic families are computed over. */
  const UID: SqlText := "uid"
  const GID: SqlText := "gid"
  const CTIME: SqlText := "ctime"
  const ATIME: SqlText := "atime"
  const MTIME: SqlText := "mtime"
  const CRTIME: SqlText := "crtime"
  const NAME: SqlText := "name"
  const LINKNAME: SqlText := "linkname"
  const XATTR_NAME: SqlText := "xattr_name"
  const XATTR_VALUE: SqlText := "xattr_value"

  // ---------------------------------------------------------------------------
  // Value-expression templates

  /** A character str.format copies through: anything but a brace. */
  type SqlChar = c: char | c != '{' && c != '}' witness ' '

  /** Text that str.format copies through unchanged. */
  type SqlText = seq<SqlChar>

  lemma SqlTextNoBraces(s: SqlText)
    ensures NoBraces(s)
  {
  }

  /** n blanks: the indentation inside triple-quoted SQL. */
  function Spaces(n: nat): (r: SqlText)
    ensures |r| == n && forall i :: 0 <= i < n ==> r[i] == ' '
  {
    seq(n, _ => ' ')
  }

  /**
   * A descriptor's SQL, as its generator leaves it: literal text and places
   * where the table alias goes ("{0}" in the Python string).  Every literal
   * brace was consumed by the generator's own .format ("{{0}}" became "{0}"),
   * so the literal text is brace-free by type.
   */
  datatype Piece = Txt(text: SqlText) | Alias

  type Template = seq<Piece>

  function PieceText(p: Piece, alias: string): string {
    if p.Alias? then alias else p.text
  }

  /** The SQL text of a template bound to a table alias. */
  function Render(t: Template, alias: string): string {
    if |t| == 0 then "" else PieceText(t[0], alias) + Render(t[1..], alias)
  }

  /** The Python string the generator produces: each alias slot reads "{0}". */
  function PyText(t: Template): string {
    Render(t, "{0}")
  }

  /** Literal SQL with no alias slot. */
  function Lit(s: SqlText): Template {
    [Txt(s)]
  }

  /** pre + "{0}." + field + post: one column of the aliased table. */
  function Field(pre: SqlText, field: SqlText, post: SqlText): Template {
    [Txt(pre), Alias, Txt("." + field + post)]
  }

  /** pre + t + post: a template wrapped in literal SQL. */
  function Wrap(pre: SqlText, t: Template, post: SqlText): Template {
    [Txt(pre)] + t + [Txt(post)]
  }

  /**
   * 'CREATE TABLE {{0}}' + body after its first .format: a CREATE statement
   * whose table name is still the alias slot.
   */
  function CreateTemplate(body: SqlText): (r: Template)
    ensures PyText(r) == "CREATE TABLE {0}" + body
  {
    var r := [Txt("CREATE TABLE "), Alias, Txt(body)];
    assert r[1..][1..] == [Txt(body)];
    RenderOne(Txt(body), "{0}");
    assert Render(r[1..], "{0}") == "{0}" + body;
    r
  }

  /**
   * The generator's second .format(alias): by FormatCompletes it always
   * succeeds and binds every alias slot.
   */
  function Format(t: Template, alias: string): (r: string)
    ensures FormatOne(PyText(t), alias) == Some(r)
    ensures r == Render(t, alias)
  {
    FormatCompletes(t, alias);
    FormatOne(PyText(t), alias).value
  }

  lemma RenderOne(p: Piece, alias: string)
    ensures Render([p], alias) == PieceText(p, alias)
  {
    assert [p][1..] == [];
  }

  /** A field reads the named column of whichever table the alias names. */
  lemma RenderField(pre: SqlText, field: SqlText, post: SqlText, alias: string)
    ensures Render(Field(pre, field, post), alias) == pre + alias + "." + field + post
  {
    var t := Field(pre, field, post);
    assert t[1..][1..] == [Txt("." + field + post)];
    RenderOne(Txt("." + field + post), alias);
  }

  lemma RenderWrap(pre: SqlText, t: Template, post: SqlText, alias: string)
    ensures Render(Wrap(pre, t, post), alias) == pre + Render(t, alias) + post
  {
    RenderAppend([Txt(pre)] + t, [Txt(post)], alias);
    RenderAppend([Txt(pre)], t, alias);
    RenderOne(Txt(pre), alias);
    RenderOne(Txt(post), alias);
  }

  /** A CREATE TABLE statement: the table's name, then its column list. */
  function CreateTable(name: string, body: string): string {
    "CREATE TABLE " + name + body
  }

  lemma RenderCreate(body: SqlText, table: string)
    ensures Render(CreateTemplate(body), table) == CreateTable(table, body)
  {
    var t := CreateTemplate(body);
    assert t[1..][1..] == [Txt(body)];
    RenderOne(Txt(body), table);
  }

  /**
   * One .format(alias) completes every template: Python's str.format yields
   * exactly the template bound to the alias.
   */
  lemma {:induction false} FormatCompletes(t: Template, alias: string)
    ensures FormatOne(PyText(t), alias) == Some(Render(t, alias))
  {
    if |t| > 0 {
      FormatCompletes(t[1..], alias);
      var rest := PyText(t[1..]);
      if t[0].Alias? {
        assert PyText(t) == "{0}" + rest;
        FormatOnePlaceholder(rest, alias);
      } else {
        assert PyText(t) == t[0].text + rest;
        SqlTextNoBraces(t[0].text);
        FormatOneLiteral(t[0].text, rest, alias);
      }
    }
  }

  lemma {:induction false} RenderAppend(a: Template, b: Template, alias: string)
    ensures Render(a + b, alias) == Render(a, alias) + Render(b, alias)
  {
    if |a| == 0 {
      assert a + b == b;
    } else {
      assert (a + b)[1..] == a[1..] + b;
      RenderAppend(a[1..], b, alias);
    }
  }

  // ---------------------------------------------------------------------------
  // Bucket sizer

  function Pow2(k: nat): (r: nat)
    ensures r >= 1
  {
    if k == 0 then 1 else 2 * Pow2(k - 1)
  }

  /**
   * The number of log2 buckets that covers every value up to b: the least k
   * with b <= 2^k.
   */
  function CeilLog2(b: nat): (k: nat)
    requires b > 0
    ensures b <= Pow2(k)
    ensures k > 0 ==> Pow2(k - 1) < b
    decreases b
  {
    if b == 1 then 0 else 1 + CeilLog2((b + 1) / 2)
  }

  lemma {:induction false} Pow2Monotone(j: nat, k: nat)
    requires j <= k
    ensures Pow2(j) <= Pow2(k)
    decreases k
  {
    if j < k {
      Pow2Monotone(j, k - 1);
    }
  }

  /** Any k with the bucket property is CeilLog2(b): the property pins it down. */
  lemma CeilLog2Unique(b: nat, k: nat)
    requires b > 0
    requires b <= Pow2(k) && (k > 0 ==> Pow2(k - 1) < b)
    ensures k == CeilLog2(b)
  {
    var c := CeilLog2(b);
    if k < c {
      Pow2Monotone(k, c - 1);
    } else if c < k {
      Pow2Monotone(c, k - 1);
    }
  }

  lemma CeilLog2OfPow2(k: nat)
    ensures CeilLog2(Pow2(k)) == k
  {
    if k > 0 {
      assert Pow2(k - 1) < Pow2(k);
    }
    CeilLog2Unique(Pow2(k), k);
  }

  // ---------------------------------------------------------------------------
  // Column plan

  /** One statistic: its name, its value expression and its storage type. */
  datatype Stat = Stat(name: SqlText, sql: Template, ty: SqlType)

  /** An attribute family and its statistics, in declared order. */
  datatype Family = Family(name: SqlText, stats: seq<Stat>)

  /** Each family name paired with its statistics, in order. */
  function NameFamilies(names: seq<SqlText>, stats: seq<seq<Stat>>): (r: seq<Family>)
    requires |names| == |stats|
    ensures FamilyNames(r) == names
    ensures forall a :: 0 <= a < |r| ==> r[a].stats == stats[a]
  {
    seq(|names|, i requires 0 <= i < |names| => Family(names[i], stats[i]))
  }

  /** ', '.join(decls): a column list. */
  function ColumnList(decls: seq<SqlText>): SqlText {
    Join<SqlChar>(decls, ", ")
  }

  /** A compiled column: declared name and type, expression and the alias it reads. */
  datatype Column = Column(name: SqlText, ty: SqlType, sql: Template, alias: string)

  /** '{0} {1}'.format(name, type): the column's declaration. */
  function Decl(c: Column): SqlText {
    c.name + " " + TypeName(c.ty)
  }

  /** sql.format(alias): the column's select expression, bound to its alias. */
  function Select(c: Column): string {
    Format(c.sql, c.alias)
  }

  function StatNames(stats: seq<Stat>): (r: seq<string>)
    ensures |r| == |stats| && forall i :: 0 <= i < |stats| ==> r[i] == stats[i].name
  {
    seq(|stats|, i requires 0 <= i < |stats| => stats[i].name)
  }

  function FamilyNames(fams: seq<Family>): (r: seq<string>)
    ensures |r| == |fams| && forall i :: 0 <= i < |fams| ==> r[i] == fams[i].name
  {
    seq(|fams|, i requires 0 <= i < |fams| => fams[i].name)
  }

  function Names(cols: seq<Column>): (r: seq<string>)
    ensures |r| == |cols| && forall i :: 0 <= i < |cols| ==> r[i] == cols[i].name
  {
    seq(|cols|, i requires 0 <= i < |cols| => cols[i].name)
  }

  /** The declarations, in plan order (IK / create_cols). */
  function Decls(cols: seq<Column>): (r: seq<SqlText>)
    ensures |r| == |cols| && forall i :: 0 <= i < |cols| ==> r[i] == Decl(cols[i])
  {
    seq(|cols|, i requires 0 <= i < |cols| => Decl(cols[i]))
  }

  /** The select expressions, in plan order (E / select_cols). */
  function Selects(cols: seq<Column>): (r: seq<string>)
    ensures |r| == |cols| && forall i :: 0 <= i < |cols| ==> r[i] == Select(cols[i])
  {
    seq(|cols|, i requires 0 <= i < |cols| => Select(cols[i]))
  }

  function SummaryColumn(s: Stat, alias: string): Column {
    Column(s.name, s.ty, s.sql, alias)
  }

  /** A family statistic is named '{family}_{stat}'. */
  function FamilyColumn(family: SqlText, s: Stat, alias: string): Column {
    Column(family + "_" + s.name, s.ty, s.sql, alias)
  }

  function SummaryPart(cols: seq<Stat>, alias: string): (r: seq<Column>)
    ensures |r| == |cols| && forall i :: 0 <= i < |cols| ==> r[i] == SummaryColumn(cols[i], alias)
  {
    seq(|cols|, i requires 0 <= i < |cols| => SummaryColumn(cols[i], alias))
  }

  function StatsPart(f: Family, alias: string): (r: seq<Column>)
    ensures |r| == |f.stats| && forall j :: 0 <= j < |f.stats| ==> r[j] == FamilyColumn(f.name, f.stats[j], alias)
  {
    seq(|f.stats|, j requires 0 <= j < |f.stats| => FamilyColumn(f.name, f.stats[j], alias))
  }

  /** The families' columns: family after family, each in its declared order. */
  function FamiliesPart(fams: seq<Family>, alias: string): seq<Column> {
    if |fams| == 0 then [] else FamiliesPart(fams[..|fams| - 1], alias) + StatsPart(fams[|fams| - 1], alias)
  }

  /** The whole plan: summary fields first, then the families. */
  function ColumnPlan(summary: seq<Stat>, summaryAlias: string, fams: seq<Family>, familyAlias: string): seq<Column> {
    SummaryPart(summary, summaryAlias) + FamiliesPart(fams, familyAlias)
  }

  /** The number of statistics the families declare. */
  function StatCount(fams: seq<Family>): nat {
    if |fams| == 0 then 0 else StatCount(fams[..|fams| - 1]) + |fams[|fams| - 1].stats|
  }

  lemma {:induction false} StatCountPrefix(fams: seq<Family>, k: nat)
    requires k < |fams|
    ensures StatCount(fams[..k]) + |fams[k].stats| <= StatCount(fams)
    decreases |fams|
  {
    if k < |fams| - 1 {
      var init := fams[..|fams| - 1];
      assert init[..k] == fams[..k] && init[k] == fams[k];
      StatCountPrefix(init, k);
    } else {
      assert fams[..|fams| - 1] == fams[..k];
    }
  }

  /**
   * Statistic j of family k sits at position StatCount(fams[..k]) + j of the
   * families' part, named '{family}_{stat}', with the family alias.
   */
  lemma {:induction false} FamiliesLayout(fams: seq<Family>, alias: string, k: nat, j: nat)
    requires k < |fams| && j < |fams[k].stats|
    ensures |FamiliesPart(fams, alias)| == StatCount(fams)
    ensures StatCount(fams[..k]) + j < StatCount(fams)
    ensures FamiliesPart(fams, alias)[StatCount(fams[..k]) + j] == FamilyColumn(fams[k].name, fams[k].stats[j], alias)
    decreases |fams|
  {
    var init := fams[..|fams| - 1];
    StatCountPrefix(fams, k);
    if k < |fams| - 1 {
      assert init[..k] == fams[..k] && init[k] == fams[k];
      FamiliesLayout(init, alias, k, j);
    } else {
      assert init == fams[..k];
      FamiliesLength(init, alias);
    }
  }

  lemma {:induction false} FamiliesLength(fams: seq<Family>, alias: string)
    ensures |FamiliesPart(fams, alias)| == StatCount(fams)
    decreases |fams|
  {
    if |fams| > 0 {
      FamiliesLength(fams[..|fams| - 1], alias);
    }
  }

  /**
   * Plan layout: the summary fields come first, with their bare names and the
   * summary alias, followed by exactly the families' statistics.
   */
  lemma PlanLayout(summary: seq<Stat>, sa: string, fams: seq<Family>, fa: string)
    ensures |ColumnPlan(summary, sa, fams, fa)| == |summary| + StatCount(fams)
    ensures forall i :: 0 <= i < |summary| ==> ColumnPlan(summary, sa, fams, fa)[i] == SummaryColumn(summary[i], sa)
  {
    FamiliesLength(fams, fa);
  }

  /** Statistic j of family k is named '{family}_{stat}' and reads the family alias. */
  lemma PlanFamilyColumn(summary: seq<Stat>, sa: string, fams: seq<Family>, fa: string, k: nat, j: nat)
    requires k < |fams| && j < |fams[k].stats|
    ensures |summary| + StatCount(fams[..k]) + j < |ColumnPlan(summary, sa, fams, fa)|
    ensures ColumnPlan(summary, sa, fams, fa)[|summary| + StatCount(fams[..k]) + j] == FamilyColumn(fams[k].name, fams[k].stats[j], fa)
  {
    FamiliesLayout(fams, fa, k, j);
  }

  lemma {:induction false} FamiliesAlias(fams: seq<Family>, alias: string)
    ensures forall i :: 0 <= i < |FamiliesPart(fams, alias)| ==> FamiliesPart(fams, alias)[i].alias == alias
    decreases |fams|
  {
    if |fams| > 0 {
      FamiliesAlias(fams[..|fams| - 1], alias);
    }
  }

  /**
   * Every summary field reads the summary alias and every family statistic the
   * family alias.
   */
  lemma PlanAliases(summary: seq<Stat>, sa: string, fams: seq<Family>, fa: string)
    ensures forall i :: 0 <= i < |summary| ==> ColumnPlan(summary, sa, fams, fa)[i].alias == sa
    ensures forall i :: |summary| <= i < |ColumnPlan(summary, sa, fams, fa)| ==> ColumnPlan(summary, sa, fams, fa)[i].alias == fa
  {
    var plan := ColumnPlan(summary, sa, fams, fa);
    FamiliesAlias(fams, fa);
    forall i | |summary| <= i < |plan| ensures plan[i].alias == fa {
      assert plan[i] == FamiliesPart(fams, fa)[i - |summary|];
    }
  }

  // ---------------------------------------------------------------------------
  // Unique column names

  predicate Distinct(s: seq<string>) {
    forall i, j :: 0 <= i < j < |s| ==> s[i] != s[j]
  }

  /** n reads as a column of family f: f, then '_', then more. */
  predicate StartsWithFamily(n: string, f: string) {
    |f| < |n| && n[..|f|] == f && n[|f|] == '_'
  }

  /**
   * What keeps '{family}_{stat}' names apart: distinct family names, no family
   * name that reads as a column of another family, and distinct statistic
   * names within each family.
   */
  predicate SeparateFamilies(fams: seq<Family>) {
    && Distinct(FamilyNames(fams))
    && (forall a, b :: 0 <= a < |fams| && 0 <= b < |fams| ==> !StartsWithFamily(fams[a].name, fams[b].name))
    && (forall a :: 0 <= a < |fams| ==> Distinct(StatNames(fams[a].stats)))
  }

  /** No summary field reads as a column of a family. */
  predicate OutsideFamilies(names: seq<string>, fams: seq<Family>) {
    forall i, a :: 0 <= i < |names| && 0 <= a < |fams| ==> !StartsWithFamily(names[i], fams[a].name)
  }

  lemma FamilyColumnStarts(f: string, s: string)
    ensures StartsWithFamily(f + "_" + s, f)
  {
    var n := f + "_" + s;
    assert n[..|f|] == f;
    assert n[|f|] == '_';
  }

  /** Two family readings of one name: the same family, or one family extends the other. */
  lemma TwoFamilies(n: string, f1: string, f2: string)
    requires StartsWithFamily(n, f1) && StartsWithFamily(n, f2)
    ensures f1 == f2 || StartsWithFamily(f1, f2) || StartsWithFamily(f2, f1)
  {
    if |f1| < |f2| {
      assert f2[..|f1|] == n[..|f2|][..|f1|] == n[..|f1|];
      assert f2[|f1|] == n[|f1|];
    } else if |f2| < |f1| {
      assert f1[..|f2|] == n[..|f1|][..|f2|] == n[..|f2|];
      assert f1[|f2|] == n[|f2|];
    }
  }

  /** Columns of two families kept apart never share a name. */
  lemma ApartFamiliesApartNames(n: string, m: string, f1: string, f2: string)
    requires StartsWithFamily(n, f1) && StartsWithFamily(m, f2)
    requires f1 != f2 && !StartsWithFamily(f1, f2) && !StartsWithFamily(f2, f1)
    ensures n != m
  {
    if n == m {
      TwoFamilies(n, f1, f2);
    }
  }

  lemma DistinctAppend(a: seq<string>, b: seq<string>)
    requires Distinct(a) && Distinct(b)
    requires forall i, j :: 0 <= i < |a| && 0 <= j < |b| ==> a[i] != b[j]
    ensures Distinct(a + b)
  {
    forall i, j | 0 <= i < j < |a + b| ensures (a + b)[i] != (a + b)[j] {
      if j < |a| {
      } else if i < |a| {
        assert (a + b)[j] == b[j - |a|];
      } else {
        assert (a + b)[i] == b[i - |a|] && (a + b)[j] == b[j - |a|];
      }
    }
  }

  lemma NamesAppend(a: seq<Column>, b: seq<Column>)
    ensures Names(a + b) == Names(a) + Names(b)
  {
  }

  /** Every column of the families' part reads as a column of one of the families. */
  lemma {:induction false} FamiliesOwnTheirColumns(fams: seq<Family>, alias: string, i: nat)
    requires i < |FamiliesPart(fams, alias)|
    ensures exists a :: 0 <= a < |fams| && StartsWithFamily(FamiliesPart(fams, alias)[i].name, fams[a].name)
    decreases |fams|
  {
    var init := fams[..|fams| - 1];
    var last := fams[|fams| - 1];
    var head := FamiliesPart(init, alias);
    if i < |head| {
      FamiliesOwnTheirColumns(init, alias, i);
      var a :| 0 <= a < |init| && StartsWithFamily(head[i].name, init[a].name);
      assert init[a] == fams[a];
    } else {
      var j := i - |head|;
      assert FamiliesPart(fams, alias)[i] == FamilyColumn(last.name, last.stats[j], alias);
      FamilyColumnStarts(last.name, last.stats[j].name);
    }
  }

  lemma StatsPartDistinct(f: Family, alias: string)
    requires Distinct(StatNames(f.stats))
    ensures Distinct(Names(StatsPart(f, alias)))
  {
    var ns := Names(StatsPart(f, alias));
    forall i, j | 0 <= i < j < |ns| ensures ns[i] != ns[j] {
      var p := f.name + "_";
      assert ns[i] == p + f.stats[i].name && ns[j] == p + f.stats[j].name;
      assert ns[i][|p|..] == f.stats[i].name && ns[j][|p|..] == f.stats[j].name;
      assert StatNames(f.stats)[i] == f.stats[i].name && StatNames(f.stats)[j] == f.stats[j].name;
    }
  }

  lemma SeparateFamiliesPrefix(fams: seq<Family>, k: nat)
    requires SeparateFamilies(fams) && k <= |fams|
    ensures SeparateFamilies(fams[..k])
  {
    var init := fams[..k];
    assert FamilyNames(init) == FamilyNames(fams)[..k];
  }

  lemma {:induction false} FamiliesPartDistinct(fams: seq<Family>, alias: string)
    requires SeparateFamilies(fams)
    ensures Distinct(Names(FamiliesPart(fams, alias)))
    decreases |fams|
  {
    if |fams| > 0 {
      var init := fams[..|fams| - 1];
      var last := fams[|fams| - 1];
      SeparateFamiliesPrefix(fams, |fams| - 1);
      FamiliesPartDistinct(init, alias);
      StatsPartDistinct(last, alias);
      var a := Names(FamiliesPart(init, alias));
      var b := Names(StatsPart(last, alias));
      forall i, j | 0 <= i < |a| && 0 <= j < |b| ensures a[i] != b[j] {
        FamiliesOwnTheirColumns(init, alias, i);
        var x :| 0 <= x < |init| && StartsWithFamily(a[i], init[x].name);
        FamilyColumnStarts(last.name, last.stats[j].name);
        assert FamilyNames(fams)[x] == init[x].name && init[x] == fams[x];
        assert FamilyNames(fams)[|fams| - 1] == last.name;
        ApartFamiliesApartNames(a[i], b[j], init[x].name, last.name);
      }
      DistinctAppend(a, b);
      NamesAppend(FamiliesPart(init, alias), StatsPart(last, alias));
    }
  }

  /**
   * No two columns of the plan share a name, provided the summary fields are
   * distinct, the families are kept apart and no summary field reads as a
   * family column.
   */
  lemma PlanNamesDistinct(summary: seq<Stat>, sa: string, fams: seq<Family>, fa: string)
    requires Distinct(StatNames(summary))
    requires SeparateFamilies(fams)
    requires OutsideFamilies(StatNames(summary), fams)
    ensures Distinct(Names(ColumnPlan(summary, sa, fams, fa)))
  {
    var a := Names(SummaryPart(summary, sa));
    var b := Names(FamiliesPart(fams, fa));
    assert a == StatNames(summary);
    FamiliesPartDistinct(fams, fa);
    forall i, j | 0 <= i < |a| && 0 <= j < |b| ensures a[i] != b[j] {
      FamiliesOwnTheirColumns(fams, fa, j);
    }
    DistinctAppend(a, b);
    NamesAppend(SummaryPart(summary, sa), FamiliesPart(fams, fa));
  }

  /** n has exactly one '_', at position k. */
  predicate SingleUnderscoreAt(n: string, k: nat) {
    k < |n| && n[k] == '_' && '_' !in n[..k] && '_' !in n[k + 1..]
  }

  /**
   * A name with a single '_', at k, reads as a column of f only when f is the
   * part before it.
   */
  lemma SingleUnderscore(n: string, k: nat, f: string)
    requires SingleUnderscoreAt(n, k)
    requires f != n[..k]
    ensures !StartsWithFamily(n, f)
  {
    assert forall i :: 0 <= i < k ==> n[..k][i] == n[i];
    assert forall i :: k + 1 <= i < |n| ==> n[k + 1..][i - k - 1] == n[i];
  }

  /** A name with no '_' cannot read as any family's column. */
  lemma NoUnderscoreOutside(n: string, f: string)
    requires '_' !in n
    ensures !StartsWithFamily(n, f)
  {
  }

  // ---------------------------------------------------------------------------
  // Column compiler

  /**
   * The flattening loops: summary fields first, then every family's statistics
   * in order, appending a declaration and a select expression per column.
   * Each select expression is what Python's sql.format(alias) returns.
   */
  method Flatten(summary: seq<Stat>, sa: string, fams: seq<Family>, fa: string)
    returns (decls: seq<SqlText>, selects: seq<string>)
    ensures decls == Decls(ColumnPlan(summary, sa, fams, fa))
    ensures selects == Selects(ColumnPlan(summary, sa, fams, fa))
    ensures forall i :: 0 <= i < |selects| ==>
      FormatOne(PyText(ColumnPlan(summary, sa, fams, fa)[i].sql), ColumnPlan(summary, sa, fams, fa)[i].alias) == Some(selects[i])
  {
    decls, selects := [], [];
    ghost var cols: seq<Column> := [];
    for i := 0 to |summary|
      invariant cols == SummaryPart(summary[..i], sa)
      invariant decls == Decls(cols) && selects == Selects(cols)
    {
      var c := SummaryColumn(summary[i], sa);
      decls, selects := decls + [Decl(c)], selects + [Select(c)];
      AppendColumn(cols, c);
      cols := cols + [c];
      assert summary[..i + 1] == summary[..i] + [summary[i]];
    }
    assert summary[..|summary|] == summary;
    ghost var head := cols;
    for k := 0 to |fams|
      invariant cols == head + FamiliesPart(fams[..k], fa)
      invariant decls == Decls(cols) && selects == Selects(cols)
    {
      decls, selects := FlattenFamily(fams[k], fa, decls, selects, cols);
      cols := cols + StatsPart(fams[k], fa);
      assert fams[..k + 1][..k] == fams[..k];
    }
    assert fams[..|fams|] == fams;
  }

  /** The inner loop: one family's statistics, in declared order. */
  method FlattenFamily(f: Family, fa: string, decls0: seq<SqlText>, selects0: seq<string>, ghost cols: seq<Column>)
    returns (decls: seq<SqlText>, selects: seq<string>)
    requires decls0 == Decls(cols) && selects0 == Selects(cols)
    ensures decls == Decls(cols + StatsPart(f, fa))
    ensures selects == Selects(cols + StatsPart(f, fa))
  {
    decls, selects := decls0, selects0;
    for j := 0 to |f.stats|
      invariant decls == Decls(cols + StatsPart(f, fa)[..j])
      invariant selects == Selects(cols + StatsPart(f, fa)[..j])
    {
      var c := FamilyColumn(f.name, f.stats[j], fa);
      AppendColumn(cols + StatsPart(f, fa)[..j], c);
      decls, selects := decls + [Decl(c)], selects + [Select(c)];
      assert cols + StatsPart(f, fa)[..j + 1] == (cols + StatsPart(f, fa)[..j]) + [c];
    }
    assert StatsPart(f, fa)[..|f.stats|] == StatsPart(f, fa);
  }

  lemma AppendColumn(cols: seq<Column>, c: Column)
    ensures Decls(cols + [c]) == Decls(cols) + [Decl(c)]
    ensures Selects(cols + [c]) == Selects(cols) + [Select(c)]
  {
  }

  // ---------------------------------------------------------------------------
  // The query engine and the snapshot database

  /**
   * gufi_common.build_query(columns, tables, where, group_by): its text is not
   * part of this model, so it is a parameter.
   */
  type BuildQuery = (seq<string>, seq<string>, Option<string>, Option<seq<string>>) -> string

  /** The one row of user data a snapshot records. */
  datatype MetaRow = MetaRow(timestamp: int, src: string, notes: Option<string>)

  /** The snapshot database file, as far as the generator touches it. */
  datatype Db = Db(tables: set<string>, metadata: seq<MetaRow>)

  /**
   * The tree-walking query engine run on a command line: its exit code and the
   * database it leaves behind.
   */
  type Engine = (seq<string>, Db) -> (int, Db)

  /**
   * The finishing step once the engine succeeded: optionally drop the metadata
   * table, create it (an error if it already exists) and insert its one row.
   */
  method WriteMetadata(db: Db, replace: bool, timestamp: int, src: string, notes: Option<string>)
    returns (rc: Result<int, string>, out: Db)
    ensures replace || METADATA !in db.tables ==>
      rc == Success(0) && out == Db(db.tables + {METADATA}, [MetaRow(timestamp, src, notes)])
    ensures !replace && METADATA in db.tables ==>
      rc == Failure("table " + METADATA + " already exists") && out == db
  {
    out := db;
    if replace {
      out := Db(out.tables - {METADATA}, []);
    }
    if METADATA in out.tables {
      return Failure("table " + METADATA + " already exists"), db;
    }
    out := Db(out.tables + {METADATA}, []);
    out := out.(metadata := out.metadata + [MetaRow(timestamp, src, notes)]);
    rc := Success(0);
  }

  // ---------------------------------------------------------------------------
  // The extension expression

  /**
   * The CASE expression that feeds the extensions histogram: NULL for a name
   * without a '.', otherwise the name with everything up to its last '.'
   * removed (SqliteText.ExtensionExpr gives its meaning).
   */
  function ExtensionCase(): Template {
    Field("CASE WHEN ", "name", ExtensionGuard()) + Field("", "name", ", RTRIM(")
      + Field("", "name", ", REPLACE(") + Field("", "name", ExtensionTail())
  }

  /** From the first name to the outer REPLACE of the ELSE arm. */
  function ExtensionGuard(): SqlText {
    " NOT LIKE '%.%' THEN\n" + Spaces(39) + "NULL\n" + Spaces(35) + "ELSE\n" + Spaces(39) + "REPLACE("
  }

  function ExtensionTail(): SqlText {
    ", '.', '')), '')\n" + Spaces(35) + "END"
  }
}
