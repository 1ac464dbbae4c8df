/**
 * The current longitudinal snapshot generator: the statistic descriptor
 * tables, the summary column compiler, the tree-summary tables, the six SQL
 * fragments handed to the tree-walking query engine (gufi_query) and the
 * metadata row written once the engine succeeds.
 */
module SnapshotDT {
  import opened Wrappers
  import opened PyStr
  import opened SnapshotSql

  // ---------------------------------------------------------------------------
  // Descriptor generators

  /** A histogram of a column's values, each value counted as text. */
  function ValueHistCol(col: Template): (r: (Template, SqlType))
    ensures r.1 == Text
    ensures forall a :: Render(r.0, a) == "category_hist(CAST(" + Render(col, a) + " AS TEXT), 1)"
  {
    var t := Wrap("category_hist(CAST(", col, " AS TEXT), 1)");
    assert forall a :: Render(t, a) == "category_hist(CAST(" + Render(col, a) + " AS TEXT), 1)" by {
      forall a ensures Render(t, a) == "category_hist(CAST(" + Render(col, a) + " AS TEXT), 1)" {
        RenderWrap("category_hist(CAST(", col, " AS TEXT), 1)", a);
      }
    }
    (t, Text)
  }

  /** The statistics of a timestamp column; the reference time is baked in. */
  function TimeCols(col: SqlText, reftime: int): seq<Stat>
  {
    var hour := ValueHistCol(Field("strftime('%H', ", col, ")"));
    [ Stat("min", Field("", "dmin" + col, ""), Int64),
      Stat("max", Field("", "dmax" + col, ""), Int64),
      Stat("mean", Field("AVG(", col, ")"), Double),
      Stat("median", Field("median(", col, ")"), Double),
      Stat("mode", Field("mode_count(", col, ")"), Text),
      Stat("stdev", Field("stdevp(", col, ")"), Double),
      Stat("age_hist", AgeHist(col, reftime), Text),
      Stat("hour_hist", hour.0, hour.1) ]
  }

  lemma TimeColsNames(col: SqlText, reftime: int)
    ensures StatNames(TimeCols(col, reftime)) == ["min", "max", "mean", "median", "mode", "stdev", "age_hist", "hour_hist"]
    ensures Distinct(StatNames(TimeCols(col, reftime)))
  {
    StatNameListsDistinct();
  }

  function AgeHist(col: SqlText, reftime: int): Template {
    Field("time_hist(", col, ", " + IntToString(reftime) + ")")
  }

  /** atime - mtime: how long a file lived between its last change and last use. */
  function FTime(): Template {
    Field("", "atime - ", "") + Field("", "mtime", "")
  }

  /** The statistics of the file lifetime atime - mtime. */
  function FTimeCols(): seq<Stat>
  {
    [ Stat("min", Wrap("MIN(", FTime(), ")"), Int64),
      Stat("max", Wrap("MAX(", FTime(), ")"), Int64),
      Stat("mean", Wrap("AVG(", FTime(), ")"), Double),
      Stat("median", Wrap("median(", FTime(), ")"), Double),
      Stat("mode", Wrap("mode_count(", FTime(), ")"), Text),
      Stat("stdev", Wrap("stdevp(", FTime(), ")"), Double) ]
  }

  lemma FTimeColsNames()
    ensures StatNames(FTimeCols()) == ["min", "max", "mean", "median", "mode", "stdev"]
    ensures Distinct(StatNames(FTimeCols()))
  {
    StatNameListsDistinct();
  }

  /** The statistics of a string column's length; the bucket count is baked in. */
  function StrCols(col: SqlText, buckets: nat): seq<Stat>
  {
    [ Stat("min", Field("MIN(LENGTH(", col, "))"), Int64),
      Stat("max", Field("MAX(LENGTH(", col, "))"), Int64),
      Stat("mean", Field("AVG(LENGTH(", col, "))"), Double),
      Stat("median", Field("median(LENGTH(", col, "))"), Double),
      Stat("mode", Field("mode_count(LENGTH(", col, "))"), Text),
      Stat("stdev", Field("stdevp(LENGTH(", col, "))"), Double),
      Stat("hist", LengthHist(col, buckets), Text) ]
  }

  lemma StrColsNames(col: SqlText, buckets: nat)
    ensures StatNames(StrCols(col, buckets)) == ["min", "max", "mean", "median", "mode", "stdev", "hist"]
    ensures Distinct(StatNames(StrCols(col, buckets)))
  {
    StatNameListsDistinct();
  }

  function LengthHist(col: SqlText, buckets: nat): Template {
    Field("log2_hist(LENGTH(", col, "), " + IntToString(buckets) + ")")
  }

  /** uid and gid: extremes, a histogram of the ids and the number of distinct ids. */
  function IdCols(id: SqlText): seq<Stat>
  {
    var hist := ValueHistCol(Field("", id, ""));
    [ Stat("min", Field("", "dmin" + id, ""), Int64),
      Stat("max", Field("", "dmax" + id, ""), Int64),
      Stat("hist", hist.0, hist.1),
      Stat("num_unique", Field("COUNT(DISTINCT ", id, ")"), Int64) ]
  }

  lemma IdColsNames(id: SqlText)
    ensures StatNames(IdCols(id)) == ["min", "max", "hist", "num_unique"]
    ensures Distinct(StatNames(IdCols(id)))
  {
    StatNameListsDistinct();
  }

  /** File sizes; the size bucket count is baked in. */
  function SizeCols(buckets: nat): seq<Stat>
  {
    [ Stat("min", Field("", "dminsize", ""), Int64),
      Stat("max", Field("", "dmaxsize", ""), Int64),
      Stat("mean", Field("AVG(", "size", ")"), Double),
      Stat("median", Field("median(", "size", ")"), Double),
      Stat("mode", Field("mode_count(CAST(", "size", " AS TEXT))"), Text),
      Stat("stdev", Field("stdevp(", "size", ")"), Double),
      Stat("sum", Field("", "dtotsize", ""), Int64),
      Stat("hist", SizeHist(buckets), Text) ]
  }

  lemma SizeColsNames(buckets: nat)
    ensures StatNames(SizeCols(buckets)) == ["min", "max", "mean", "median", "mode", "stdev", "sum", "hist"]
    ensures Distinct(StatNames(SizeCols(buckets)))
  {
    StatNameListsDistinct();
  }

  function SizeHist(buckets: nat): Template {
    Field("log2_hist(", "size", ", " + IntToString(buckets) + ")")
  }

  function PermCols(): seq<Stat>
  {
    [Stat("hist", Field("mode_hist(", "mode", ")"), Text)]
  }

  lemma PermColsNames()
    ensures StatNames(PermCols()) == ["hist"]
    ensures Distinct(StatNames(PermCols()))
  {
  }

  /** Filename extensions: NULL for names without a '.'. */
  function ExtCols(): seq<Stat>
  {
    [Stat("hist", Wrap("category_hist(", ExtensionCase(), ", 1)"), Text)]
  }

  lemma ExtColsNames()
    ensures StatNames(ExtCols()) == ["hist"]
    ensures Distinct(StatNames(ExtCols()))
  {
  }

  /** The per-directory fields, in table order, each keeping its bare name. */
  function SummaryCols(): (r: seq<Stat>)
    ensures StatNames(r) == SummaryNames()
  {
    SummaryHeadNames();
    SummaryTailNames();
    SummaryHead() + SummaryTail()
  }

  function SummaryHead(): seq<Stat>
  {
    [ Stat("name", Field("basename(", "name", ")"), Text),
      Stat(INODE, Field("", INODE, ""), Text),
      Stat("mode", Field("", "mode", ""), Int64),
      Stat("nlink", Field("", "nlink", ""), Int64),
      Stat("uid", Field("", "uid", ""), Int64),
      Stat("gid", Field("", "gid", ""), Int64),
      Stat("blksize", Field("", "blksize", ""), Int64),
      Stat("blocks", Field("", "blocks", ""), Int64),
      Stat("atime", Field("", "atime", ""), Int64) ]
  }

  lemma SummaryHeadNames()
    ensures StatNames(SummaryHead()) == SummaryNames()[..9]
  {
  }

  function SummaryTail(): seq<Stat>
  {
    [ Stat("mtime", Field("", "mtime", ""), Int64),
      Stat("ctime", Field("", "ctime", ""), Int64),
      Stat("depth", DepthSql(), Int64),
      Stat("filesystem_type", Lit(TypeName(Null)), Blob),
      Stat(PINODE, Field("", PINODE, ""), Text),
      Stat("totfiles", Field("", "totfiles", ""), Int64),
      Stat("totlinks", Field("", "totlinks", ""), Int64),
      Stat("totsubdirs", Field("subdirs(", "srollsubdirs", ", ") + Field("", "sroll", ")"), Int64) ]
  }

  lemma SummaryTailNames()
    ensures StatNames(SummaryTail()) == SummaryNames()[9..]
  {
  }

  /**
   * The directory's depth: the engine's level() plus the number of '/' in the
   * stored name (SqliteText.DepthExpr gives its meaning).
   */
  function DepthSql(): Template {
    Field("level() + LENGTH(", "name", ") - LENGTH(REPLACE(") + Field("", "name", ", '/', ''))")
  }

  function SummaryNames(): seq<string> {
    [ "name", "inode", "mode", "nlink", "uid", "gid", "blksize", "blocks", "atime", "mtime", "ctime",
      "depth", "filesystem_type", "pinode", "totfiles", "totlinks", "totsubdirs" ]
  }

  /** The attribute families of the entries, in table order. */
  function Families(reftime: int, sizeBuckets: nat, nameBuckets: nat): (r: seq<Family>)
    ensures FamilyNames(r) == FamilyOrder()
  {
    EntriesCols(IdCols(UID), IdCols(GID), SizeCols(sizeBuckets), PermCols(),
      TimeCols(CTIME, reftime), TimeCols(ATIME, reftime), TimeCols(MTIME, reftime), TimeCols(CRTIME, reftime),
      FTimeCols(), StrCols(NAME, nameBuckets), StrCols(LINKNAME, nameBuckets), ExtCols())
  }

  /** The family table assembled from each family's statistics. */
  function EntriesCols(uid: seq<Stat>, gid: seq<Stat>, size: seq<Stat>, perm: seq<Stat>,
                       ctime: seq<Stat>, atime: seq<Stat>, mtime: seq<Stat>, crtime: seq<Stat>,
                       ftime: seq<Stat>, name: seq<Stat>, linkname: seq<Stat>, ext: seq<Stat>): (r: seq<Family>)
    ensures FamilyNames(r) == FamilyOrder()
    ensures |r| == 12
  {
    NameFamilies(FamilyOrder(), [uid, gid, size, perm, ctime, atime, mtime, crtime, ftime, name, linkname, ext])
  }

  function FamilyOrder(): seq<SqlText> {
    [ "uid", "gid", "size", "permissions", "ctime", "atime", "mtime", "crtime", "ftime",
      "name", "linkname", "extensions" ]
  }

  // ---------------------------------------------------------------------------
  // Tree summary

  /** A tree-summary column and its type. */
  datatype TsCol = TsCol(name: SqlText, ty: SqlType)

  /** The tree-summary columns, in table order. */
  function TsCols(): seq<TsCol> {
    [ TsCol("inode", Text),
      TsCol("totsubdirs", Int64),
      TsCol("maxsubdirfiles", Int64),
      TsCol("maxsubdirlinks", Int64),
      TsCol("maxsubdirsize", Int64),
      TsCol("totfiles", Int64),
      TsCol("totlinks", Int64),
      TsCol("minuid", Int64),
      TsCol("maxuid", Int64),
      TsCol("mingid", Int64),
      TsCol("maxgid", Int64),
      TsCol("minsize", Int64),
      TsCol("maxsize", Int64),
      TsCol("totzero", Int64),
      TsCol("totltk", Int64),
      TsCol("totmtk", Int64),
      TsCol("totltm", Int64),
      TsCol("totmtm", Int64),
      TsCol("totmtg", Int64),
      TsCol("totmtt", Int64),
      TsCol("totsize", Int64),
      TsCol("minctime", Int64),
      TsCol("maxctime", Int64),
      TsCol("minmtime", Int64),
      TsCol("maxmtime", Int64),
      TsCol("minatime", Int64),
      TsCol("maxatime", Int64),
      TsCol("minblocks", Int64),
      TsCol("maxblocks", Int64),
      TsCol("totxattr", Int64),
      TsCol("depth", Int64),
      TsCol("mincrtime", Int64),
      TsCol("maxcrtime", Int64),
      TsCol("minossint1", Int64),
      TsCol("maxossint1", Int64),
      TsCol("totossint1", Int64),
      TsCol("minossint2", Int64),
      TsCol("maxossint2", Int64),
      TsCol("totossint2", Int64),
      TsCol("minossint3", Int64),
      TsCol("maxossint3", Int64),
      TsCol("totossint3", Int64),
      TsCol("minossint4", Int64),
      TsCol("maxossint4", Int64),
      TsCol("totossint4", Int64),
      TsCol("rectype", Int64),
      TsCol("uid", Int64),
      TsCol("gid", Int64) ]
  }

  function TsDecls(): (r: seq<SqlText>)
    ensures |r| == |TsCols()|
  {
    seq(|TsCols()|, i requires 0 <= i < |TsCols()| => TsCols()[i].name + " " + TypeName(TsCols()[i].ty))
  }

  /** What follows the table name in both tree-summary CREATE statements. */
  function TsBody(): SqlText {
    " (" + ColumnList(TsDecls()) + ")"
  }

  /** The view's projection of the tree summary: every column renamed ts_<name>. */
  function ViewProjection(): (r: seq<string>)
    ensures |r| == |TsCols()|
    ensures forall i :: 0 <= i < |r| ==> r[i] == TsCols()[i].name + " AS ts_" + TsCols()[i].name
  {
    seq(|TsCols()|, i requires 0 <= i < |TsCols()| => TsCols()[i].name + " AS ts_" + TsCols()[i].name)
  }

  const IntermediateTreesummary: SqlText := "intermediate_treesummary"
  const IntermediateSummary: SqlText := "intermediate_summary"

  /**
   * The intermediate table's name, the two CREATE statements (intermediate and
   * final, from one template) and the renaming projection for the view.
   */
  function Treesummary(bq: BuildQuery): (r: (SqlText, string, string, string))
    ensures r.0 == IntermediateTreesummary
    ensures r.1 == CreateTable(r.0, TsBody())
    ensures r.2 == CreateTable(TREESUMMARY, TsBody())
  {
    var create := CreateTemplate(TsBody());
    RenderCreate(TsBody(), IntermediateTreesummary);
    RenderCreate(TsBody(), TREESUMMARY);
    ( IntermediateTreesummary,
      Format(create, IntermediateTreesummary),
      Format(create, TREESUMMARY),
      bq(ViewProjection(), [TREESUMMARY], None, None) )
  }

  // ---------------------------------------------------------------------------
  // Summary

  /** The summary table's columns: bare summary fields, then {family}_{stat}. */
  function Plan(reftime: int, sizeBuckets: nat, nameBuckets: nat): seq<Column> {
    ColumnPlan(SummaryCols(), VRXSUMMARY, Families(reftime, sizeBuckets, nameBuckets), VRXPENTRIES)
  }

  /** What follows the table name in both summary CREATE statements. */
  function SummaryBody(reftime: int, sizeBuckets: nat, nameBuckets: nat): SqlText {
    "(" + ColumnList(Decls(Plan(reftime, sizeBuckets, nameBuckets))) + ")"
  }

  /**
   * Compiles the descriptor tables: the intermediate table's name, the two
   * CREATE statements from one column list, and the select expressions.
   */
  method Summary(reftime: int, sizeBuckets: nat, nameBuckets: nat)
    returns (intermediate: SqlText, createI: string, createK: string, e: seq<string>)
    ensures intermediate == IntermediateSummary
    ensures createI == CreateTable(intermediate, SummaryBody(reftime, sizeBuckets, nameBuckets))
    ensures createK == CreateTable(SUMMARY, SummaryBody(reftime, sizeBuckets, nameBuckets))
    ensures e == Selects(Plan(reftime, sizeBuckets, nameBuckets))
  {
    var ik, sel := Flatten(SummaryCols(), VRXSUMMARY, Families(reftime, sizeBuckets, nameBuckets), VRXPENTRIES);
    var create := CreateTemplate("(" + ColumnList(ik) + ")");
    intermediate := IntermediateSummary;
    createI := Format(create, intermediate);
    createK := Format(create, SUMMARY);
    RenderCreate("(" + ColumnList(ik) + ")", intermediate);
    RenderCreate("(" + ColumnList(ik) + ")", SUMMARY);
    e := sel;
  }

  // ---------------------------------------------------------------------------
  // Fragments

  /** The SQL handed to the engine's -I, -T, -E, -K, -J and -G options. */
  datatype Fragments = Fragments(i: string, t: string, e: string, k: string, j: string, g: string)

  const JoinEntries: string := VRXSUMMARY + " LEFT JOIN " + VRXPENTRIES + " ON " + VRXSUMMARY + "." + INODE + " == " + VRXPENTRIES + "." + PINODE

  /** -K with replace: both tables dropped before they are created again. */
  function DropThenCreate(k: string): string {
    "\n            DROP TABLE IF EXISTS " + TREESUMMARY + ";\n            DROP TABLE IF EXISTS " + SUMMARY + ";\n            " + k + "\n            "
  }

  /** -J: both intermediate tables copied into the final ones. */
  function Aggregate(tsInt: string, sumInt: string): string {
    "\n        INSERT INTO " + TREESUMMARY + " SELECT * FROM " + tsInt + ";\n        INSERT INTO " + SUMMARY + " SELECT * FROM " + sumInt + ";\n        "
  }

  /** -G: the snapshot view, the summary left joined with the renamed tree summary. */
  function View(tsG: string): string {
    "\n        CREATE VIEW " + SNAPSHOT + "\n        AS\n          SELECT *\n          FROM   " + SUMMARY
      + "\n                 LEFT JOIN (" + tsG + ") AS ts\n                        ON " + SUMMARY + "." + INODE + " == ts.ts_" + INODE + ";\n        "
  }

  /**
   * The six fragments from the tree-summary statements (intermediate name,
   * intermediate CREATE, final CREATE, view projection) and the summary ones
   * (intermediate name, intermediate CREATE, final CREATE, select list).
   */
  function Assemble(replace: bool, ts: (SqlText, string, string, string),
                    sumInt: string, sumI: string, sumK: string, sumCols: seq<string>, bq: BuildQuery): Fragments
  {
    var k := ts.2 + "; " + sumK + ";";
    var g := View(ts.3);
    Fragments(
      ts.1 + "; " + sumI + ";",
      "INSERT INTO " + ts.0 + " SELECT * FROM " + TREESUMMARY + "; SELECT 1;",
      "INSERT INTO " + sumInt + " " + bq(sumCols, [JoinEntries], None, Some([VRXSUMMARY + "." + INODE])) + ";",
      if replace then DropThenCreate(k) else k,
      Aggregate(ts.0, sumInt),
      if replace then "DROP VIEW IF EXISTS " + SNAPSHOT + "; " + g else g)
  }

  /** The six fragments for the given options. */
  function SqlFragments(replace: bool, reftime: int, sizeBuckets: nat, nameBuckets: nat, bq: BuildQuery): Fragments {
    var body := SummaryBody(reftime, sizeBuckets, nameBuckets);
    Assemble(replace, Treesummary(bq), IntermediateSummary, CreateTable(IntermediateSummary, body),
             CreateTable(SUMMARY, body), Selects(Plan(reftime, sizeBuckets, nameBuckets)), bq)
  }

  // ---------------------------------------------------------------------------
  // What the fragments promise

  /**
   * --replace changes nothing but -K, which drops both final tables before
   * creating them, and -G, which drops the view before creating it.
   */
  lemma ReplaceOnlyAddsDrops(ts: (SqlText, string, string, string), sumInt: string, sumI: string, sumK: string,
                             sumCols: seq<string>, bq: BuildQuery)
    ensures var plain := Assemble(false, ts, sumInt, sumI, sumK, sumCols, bq);
            var dropped := Assemble(true, ts, sumInt, sumI, sumK, sumCols, bq);
            && dropped.i == plain.i && dropped.t == plain.t && dropped.e == plain.e && dropped.j == plain.j
            && dropped.k == DropThenCreate(plain.k)
            && dropped.g == "DROP VIEW IF EXISTS " + SNAPSHOT + "; " + plain.g
  {
  }

  /**
   * The intermediate and the final tables are created from the same column
   * lists: -I and -K (without --replace) differ only in the table names.
   */
  lemma SharedColumnLists(reftime: int, sizeBuckets: nat, nameBuckets: nat, bq: BuildQuery)
    ensures var f := SqlFragments(false, reftime, sizeBuckets, nameBuckets, bq);
            var body := SummaryBody(reftime, sizeBuckets, nameBuckets);
            && f.i == CreateTable(IntermediateTreesummary, TsBody()) + "; " + CreateTable(IntermediateSummary, body) + ";"
            && f.k == CreateTable(TREESUMMARY, TsBody()) + "; " + CreateTable(SUMMARY, body) + ";"
  {
  }

  // ---------------------------------------------------------------------------
  // Parameters baked into the select expressions

  /** age_hist counts ages against the reference time, written out in decimal. */
  lemma AgeHistBakesReftime(col: SqlText, reftime: int, alias: string)
    ensures Render(AgeHist(col, reftime), alias) == "time_hist(" + alias + "." + col + ", " + IntToString(reftime) + ")"
  {
    RenderField("time_hist(", col, ", " + IntToString(reftime) + ")", alias);
  }

  /** The size histogram has ceil(log2(max size)) buckets, as given. */
  lemma SizeHistBakesBuckets(buckets: nat, alias: string)
    ensures Render(SizeHist(buckets), alias) == "log2_hist(" + alias + "." + "size" + ", " + IntToString(buckets) + ")"
  {
    RenderField("log2_hist(", "size", ", " + IntToString(buckets) + ")", alias);
  }

  /** The name-length histograms have the given number of buckets. */
  lemma NameHistBakesBuckets(col: SqlText, buckets: nat, alias: string)
    ensures Render(LengthHist(col, buckets), alias) == "log2_hist(LENGTH(" + alias + "." + col + "), " + IntToString(buckets) + ")"
  {
    RenderField("log2_hist(LENGTH(", col, "), " + IntToString(buckets) + ")", alias);
  }

  // ---------------------------------------------------------------------------
  // Unique summary columns

  predicate NoUnderscore(names: seq<string>) {
    forall i :: 0 <= i < |names| ==> '_' !in names[i]
  }

  lemma FamilyOrderSeparate()
    ensures Distinct(FamilyOrder()) && NoUnderscore(FamilyOrder())
  {
  }

  lemma SummaryNamesDistinct()
    ensures Distinct(SummaryNames())
  {
  }

  /** Each family's statistic names are distinct. */
  lemma StatListsDistinct(reftime: int, sizeBuckets: nat, nameBuckets: nat)
    ensures forall a :: 0 <= a < 12 ==> Distinct(StatNames(Families(reftime, sizeBuckets, nameBuckets)[a].stats))
  {
    IdColsNames("uid");
    IdColsNames("gid");
    SizeColsNames(sizeBuckets);
    PermColsNames();
    TimeColsNames("ctime", reftime);
    TimeColsNames("atime", reftime);
    TimeColsNames("mtime", reftime);
    TimeColsNames("crtime", reftime);
    FTimeColsNames();
    StrColsNames("name", nameBuckets);
    StrColsNames("linkname", nameBuckets);
    ExtColsNames();
    EntriesColsDistinct(IdCols(UID), IdCols(GID), SizeCols(sizeBuckets), PermCols(),
      TimeCols(CTIME, reftime), TimeCols(ATIME, reftime), TimeCols(MTIME, reftime), TimeCols(CRTIME, reftime),
      FTimeCols(), StrCols(NAME, nameBuckets), StrCols(LINKNAME, nameBuckets), ExtCols());
  }

  lemma EntriesColsDistinct(uid: seq<Stat>, gid: seq<Stat>, size: seq<Stat>, perm: seq<Stat>,
                            ctime: seq<Stat>, atime: seq<Stat>, mtime: seq<Stat>, crtime: seq<Stat>,
                            ftime: seq<Stat>, name: seq<Stat>, linkname: seq<Stat>, ext: seq<Stat>)
    requires Distinct(StatNames(uid)) && Distinct(StatNames(gid)) && Distinct(StatNames(size))
    requires Distinct(StatNames(perm)) && Distinct(StatNames(ctime)) && Distinct(StatNames(atime))
    requires Distinct(StatNames(mtime)) && Distinct(StatNames(crtime)) && Distinct(StatNames(ftime))
    requires Distinct(StatNames(name)) && Distinct(StatNames(linkname)) && Distinct(StatNames(ext))
    ensures var r := EntriesCols(uid, gid, size, perm, ctime, atime, mtime, crtime, ftime, name, linkname, ext);
            forall a :: 0 <= a < 12 ==> Distinct(StatNames(r[a].stats))
  {
  }

  lemma StatNameListsDistinct()
    ensures Distinct(["min", "max", "mean", "median", "mode", "stdev", "age_hist", "hour_hist"])
    ensures Distinct(["min", "max", "mean", "median", "mode", "stdev", "hist"])
    ensures Distinct(["min", "max", "mean", "median", "mode", "stdev", "sum", "hist"])
    ensures Distinct(["min", "max", "hist", "num_unique"])
    ensures Distinct(["min", "max", "mean", "median", "mode", "stdev"])
  {
  }

  /**
   * filesystem_type is the one summary field with an '_', and the part before
   * it is filesystem.
   */
  lemma SummaryNamesShape()
    ensures forall i :: 0 <= i < |SummaryNames()| && i != 12 ==> '_' !in SummaryNames()[i]
    ensures SingleUnderscoreAt(SummaryNames()[12], 10) && SummaryNames()[12][..10] == "filesystem"
  {
  }

  /** Only filesystem_type has an '_', and no family is named filesystem. */
  lemma SummaryOutsideFamilies(fams: seq<Family>)
    requires FamilyNames(fams) == FamilyOrder()
    ensures OutsideFamilies(SummaryNames(), fams)
  {
    var names := SummaryNames();
    SummaryNamesShape();
    assert "filesystem" !in FamilyOrder();
    forall i, a | 0 <= i < |names| && 0 <= a < |fams| ensures !StartsWithFamily(names[i], fams[a].name) {
      assert fams[a].name == FamilyOrder()[a];
      if i == 12 {
        SingleUnderscore(names[i], 10, fams[a].name);
      } else {
        NoUnderscoreOutside(names[i], fams[a].name);
      }
    }
  }

  /** The summary table's column names are unique, whatever the parameters. */
  lemma ColumnNamesDistinct(reftime: int, sizeBuckets: nat, nameBuckets: nat)
    ensures Distinct(Names(Plan(reftime, sizeBuckets, nameBuckets)))
  {
    var fams := Families(reftime, sizeBuckets, nameBuckets);
    SummaryNamesDistinct();
    FamilyOrderSeparate();
    StatListsDistinct(reftime, sizeBuckets, nameBuckets);
    forall a, b | 0 <= a < |fams| && 0 <= b < |fams| ensures !StartsWithFamily(fams[a].name, fams[b].name) {
      assert fams[a].name == FamilyOrder()[a];
      NoUnderscoreOutside(fams[a].name, fams[b].name);
    }
    SummaryOutsideFamilies(fams);
    PlanNamesDistinct(SummaryCols(), VRXSUMMARY, fams, VRXPENTRIES);
  }

  // ---------------------------------------------------------------------------
  // Command line and metadata

  /** The parsed command line (the verbose flag only prints and is left out). */
  datatype Args = Args(
    index: string,
    outname: string,
    reftime: Option<int>,
    maxSize: int,
    maxNameLen: int,
    notes: Option<string>,
    replace: bool,
    gufiQuery: string,
    threads: int)

  /** The flags that introduce the six fragments, in the order they are passed. */
  const FragmentFlags: seq<string> := ["-I", "-T", "-E", "-K", "-J", "-G"]

  /** The six fragments in the order of their flags. */
  function FragmentList(f: Fragments): seq<string> {
    [f.i, f.t, f.e, f.k, f.j, f.g]
  }

  /** Each flag followed by its value. */
  function FlagPairs(flags: seq<string>, values: seq<string>): (r: seq<string>)
    requires |flags| == |values|
    ensures |r| == 2 * |flags|
    ensures forall i :: 0 <= i < |flags| ==> r[2 * i] == flags[i] && r[2 * i + 1] == values[i]
  {
    if |flags| == 0 then [] else [flags[0], values[0]] + FlagPairs(flags[1..], values[1..])
  }

  /**
   * The engine invocation: the engine's path and the index, then -n with the
   * thread count, -x, -O with the output database, and -I -T -E -K -J -G
   * each followed by its fragment.
   */
  function CommandLine(query: string, index: string, threads: int, outname: string, f: Fragments): (r: seq<string>)
    ensures |r| == 19
    ensures r[0] == query && r[1] == index && r[2] == "-n" && r[3] == IntToString(threads)
    ensures r[4] == "-x" && r[5] == "-O" && r[6] == outname
    ensures forall i :: 0 <= i < 6 ==> r[7 + 2 * i] == FragmentFlags[i] && r[8 + 2 * i] == FragmentList(f)[i]
  {
    var head := [query, index, "-n", IntToString(threads), "-x", "-O", outname];
    var pairs := FlagPairs(FragmentFlags, FragmentList(f));
    assert forall i :: 0 <= i < 6 ==> (head + pairs)[7 + 2 * i] == pairs[2 * i] && (head + pairs)[8 + 2 * i] == pairs[2 * i + 1];
    head + pairs
  }

  /**
   * The engine invocation for the parsed arguments: the reference time
   * defaults to now and the bucket counts are ceil(log2) of the largest size
   * and of the longest name.
   */
  function Command(args: Args, now: int, bq: BuildQuery): seq<string>
    requires args.maxSize > 0 && args.maxNameLen > 0
  {
    var reftime := if args.reftime.Some? then args.reftime.value else now;
    var f := SqlFragments(args.replace, reftime, CeilLog2(args.maxSize), CeilLog2(args.maxNameLen), bq);
    CommandLine(args.gufiQuery, args.index, args.threads, args.outname, f)
  }

  /**
   * The six fragments, the replacing forms of -K and -G reassigned over the
   * plain ones.
   */
  method Compose(replace: bool, ts: (SqlText, string, string, string),
                 sumInt: string, sumI: string, sumK: string, sumCols: seq<string>, bq: BuildQuery)
    returns (f: Fragments)
    ensures f == Assemble(replace, ts, sumInt, sumI, sumK, sumCols, bq)
  {
    var i := ts.1 + "; " + sumI + ";";
    var t := "INSERT INTO " + ts.0 + " SELECT * FROM " + TREESUMMARY + "; SELECT 1;";
    var e := "INSERT INTO " + sumInt + " " + bq(sumCols, [JoinEntries], None, Some([VRXSUMMARY + "." + INODE])) + ";";
    var k := ts.2 + "; " + sumK + ";";
    if replace {
      k := DropThenCreate(k);
    }
    var j := Aggregate(ts.0, sumInt);
    var g := View(ts.3);
    if replace {
      g := "DROP VIEW IF EXISTS " + SNAPSHOT + "; " + g;
    }
    f := Fragments(i, t, e, k, j, g);
  }

  /** Compiles the tables and puts the engine invocation together. */
  method BuildCommand(args: Args, now: int, bq: BuildQuery) returns (cmd: seq<string>)
    requires args.maxSize > 0 && args.maxNameLen > 0
    ensures cmd == Command(args, now, bq)
  {
    var reftime := if args.reftime.Some? then args.reftime.value else now;
    var sizeBuckets := CeilLog2(args.maxSize);
    var nameBuckets := CeilLog2(args.maxNameLen);

    var ts := Treesummary(bq);
    var sumInt, sumI, sumK, sumCols := Summary(reftime, sizeBuckets, nameBuckets);
    var f := Compose(args.replace, ts, sumInt, sumI, sumK, sumCols, bq);
    cmd := CommandLine(args.gufiQuery, args.index, args.threads, args.outname, f);
  }

  /**
   * What a run leaves behind once the engine returned code and database
   * after: a non-zero status is returned as it is with the database untouched;
   * on success the metadata table holds exactly one row (timestamped now, not
   * with the reference time), unless it already existed without --replace,
   * which is an error.
   */
  predicate Outcome(args: Args, now: int, engineResult: (int, Db), rc: Result<int, string>, out: Db) {
    var (code, after) := engineResult;
    && (code != 0 ==> rc == Success(code) && out == after)
    && (code == 0 && (args.replace || METADATA !in after.tables) ==>
          rc == Success(0) && out == Db(after.tables + {METADATA}, [MetaRow(now, args.index, args.notes)]))
    && (code == 0 && !args.replace && METADATA in after.tables ==> rc.Failure? && out == after)
  }

  /**
   * Runs the engine once on the command; when it succeeded, writes the
   * metadata table (timestamped now, not with the reference time) into its
   * output database. A non-zero engine status is returned as it is.
   */
  method Execute(cmd: seq<string>, args: Args, now: int, engine: Engine, db: Db)
    returns (rc: Result<int, string>, out: Db)
    ensures Outcome(args, now, engine(cmd, db), rc, out)
  {
    var (code, after) := engine(cmd, db);
    if code != 0 {
      return Success(code), after;
    }
    rc, out := WriteMetadata(after, args.replace, now, args.index, args.notes);
  }

  /** The whole run: build the command, then execute it. */
  method Run(args: Args, now: int, bq: BuildQuery, engine: Engine, db: Db)
    returns (cmd: seq<string>, rc: Result<int, string>, out: Db)
    requires args.maxSize > 0 && args.maxNameLen > 0
    ensures cmd == Command(args, now, bq)
    ensures Outcome(args, now, engine(cmd, db), rc, out)
  {
    var timestamp := now;
    cmd := BuildCommand(args, timestamp, bq);
    rc, out := Execute(cmd, args, timestamp, engine, db);
  }
}
