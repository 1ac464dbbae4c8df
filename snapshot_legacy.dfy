/**
 * The older longitudinal snapshot generator: the same summary table built
 * from descriptor tables whose templates are bound to the entries view when
 * they are written, thirteen attribute families (with the extended-attribute
 * names and values), a literal tree-summary schema and no replace mode.
 */
module SnapshotLegacy {
  import opened Wrappers
  import opened PyStr
  import opened SnapshotSql
  import SnapshotDT

  // ---------------------------------------------------------------------------
  // Descriptor tables

  /** The statistics of a timestamp column; the histogram ages against reftime. */
  function TimeCols(col: SqlText, reftime: int): seq<Stat>
  {
    [ Stat("min", Field("", "dmin" + col, ""), Int64),
      Stat("max", Field("", "dmax" + col, ""), Int64),
      Stat("mean", Field("AVG(", col, ")"), Double),
      Stat("median", Field("median(", col, ")"), Double),
      Stat("mode", Field("mode_count(", col, ")"), Text),
      Stat("stdev", Field("stdevp(", col, ")"), Double),
      Stat("hist", SnapshotDT.AgeHist(col, reftime), Text) ]
  }

  lemma TimeColsNames(col: SqlText, reftime: int)
    ensures StatNames(TimeCols(col, reftime)) == ["min", "max", "mean", "median", "mode", "stdev", "hist"]
    ensures Distinct(StatNames(TimeCols(col, reftime)))
  {
    SnapshotDT.StatNameListsDistinct();
  }

  /**
   * uid and gid: extremes, a histogram of the raw ids and the number of
   * distinct ids; the histogram's declared type differs between the two.
   */
  function IdCols(id: SqlText, histType: SqlType): seq<Stat>
  {
    [ Stat("min", Field("", "dmin" + id, ""), Int64),
      Stat("max", Field("", "dmax" + id, ""), Int64),
      Stat("hist", Field("category_hist(", id, ")"), histType),
      Stat("num_unique", Field("COUNT(DISTINCT ", id, ")"), Int64) ]
  }

  lemma IdColsNames(id: SqlText, histType: SqlType)
    ensures StatNames(IdCols(id, histType)) == ["min", "max", "hist", "num_unique"]
    ensures IdCols(id, histType)[2].ty == histType
    ensures Distinct(StatNames(IdCols(id, histType)))
  {
    SnapshotDT.StatNameListsDistinct();
  }

  /** Filename extensions, NULL for names without a '.'. */
  function ExtCols(): seq<Stat>
  {
    [Stat("hist", Wrap("category_hist(", ExtensionCase(), ")"), Text)]
  }

  lemma ExtColsNames()
    ensures StatNames(ExtCols()) == ["hist"]
    ensures Distinct(StatNames(ExtCols()))
  {
  }

  /** The per-directory fields; depth is the engine's level() alone. */
  function SummaryCols(): (r: seq<Stat>)
    ensures StatNames(r) == SnapshotDT.SummaryNames()
  {
    SnapshotDT.SummaryHeadNames();
    SummaryTailNames();
    SnapshotDT.SummaryHead() + SummaryTail()
  }

  function SummaryTail(): seq<Stat>
  {
    [ Stat("mtime", Field("", "mtime", ""), Int64),
      Stat("ctime", Field("", "ctime", ""), Int64),
      Stat("depth", Lit("level()"), Int64),
      Stat("filesystem_type", Lit(TypeName(Null)), Blob),
      Stat(PINODE, Field("", PINODE, ""), Text),
      Stat("totfiles", Field("", "totfiles", ""), Int64),
      Stat("totlinks", Field("", "totlinks", ""), Int64),
      Stat("totsubdirs", Field("subdirs(", "srollsubdirs", ", ") + Field("", "sroll", ")"), Int64) ]
  }

  lemma SummaryTailNames()
    ensures StatNames(SummaryTail()) == SnapshotDT.SummaryNames()[9..]
  {
  }

  /** The thirteen attribute families, in table order. */
  function Families(reftime: int, sizeBuckets: nat, nameBuckets: nat): (r: seq<Family>)
    ensures FamilyNames(r) == FamilyOrder()
  {
    EntriesCols(IdCols(UID, Int64), IdCols(GID, Text), SnapshotDT.SizeCols(sizeBuckets), SnapshotDT.PermCols(),
      TimeCols(CTIME, reftime), TimeCols(ATIME, reftime), TimeCols(MTIME, reftime), TimeCols(CRTIME, reftime),
      SnapshotDT.StrCols(NAME, nameBuckets), SnapshotDT.StrCols(LINKNAME, nameBuckets),
      SnapshotDT.StrCols(XATTR_NAME, nameBuckets), SnapshotDT.StrCols(XATTR_VALUE, nameBuckets), ExtCols())
  }

  /** The family table assembled from each family's statistics. */
  function EntriesCols(uid: seq<Stat>, gid: seq<Stat>, size: seq<Stat>, perm: seq<Stat>,
                       ctime: seq<Stat>, atime: seq<Stat>, mtime: seq<Stat>, crtime: seq<Stat>,
                       name: seq<Stat>, linkname: seq<Stat>, xname: seq<Stat>, xvalue: seq<Stat>,
                       ext: seq<Stat>): (r: seq<Family>)
    ensures FamilyNames(r) == FamilyOrder()
    ensures |r| == 13
  {
    NameFamilies(FamilyOrder(), [uid, gid, size, perm, ctime, atime, mtime, crtime, name, linkname, xname, xvalue, ext])
  }

  function FamilyOrder(): seq<SqlText> {
    [ "uid", "gid", "size", "permissions", "ctime", "atime", "mtime", "crtime",
      "name", "linkname", "xattr_name", "xattr_value", "extensions" ]
  }

  /** The summary table's columns: bare summary fields, then {family}_{stat}. */
  function Plan(reftime: int, sizeBuckets: nat, nameBuckets: nat): seq<Column> {
    ColumnPlan(SummaryCols(), VRXSUMMARY, Families(reftime, sizeBuckets, nameBuckets), VRXPENTRIES)
  }

  /**
   * The tree-summary schema, written out as one literal with a trailing ';'.
   * Its text is the current variant's generated column list, character for
   * character, so it is given by that list here.
   */
  function TreesummaryBody(): string {
    SnapshotDT.TsBody() + ";"
  }

  const Intermediate: string := "intermediate"
  const IntermediateTreesummary: string := "intermediate_treesummary"

  // ---------------------------------------------------------------------------
  // Fragments and command line

  /** The shared column list, in parentheses after the table name. */
  function TableBody(tableCols: string): string {
    "(" + tableCols + ")"
  }

  /** The six fragments from the flattened column list and select expressions. */
  function Assemble(tableCols: string, selectCols: seq<string>, bq: BuildQuery): SnapshotDT.Fragments {
    SnapshotDT.Fragments(
      CreateTable(Intermediate, TableBody(tableCols)) + "; " + CreateTable(IntermediateTreesummary, TreesummaryBody()) + ";",
      "INSERT INTO " + IntermediateTreesummary + " SELECT * FROM " + TREESUMMARY + "; SELECT 1 FROM " + TREESUMMARY + ";",
      "INSERT INTO " + Intermediate + " " + bq(selectCols, [SnapshotDT.JoinEntries], None, Some([VRXSUMMARY + "." + INODE])) + ";",
      CreateTable(SUMMARY, TableBody(tableCols)) + "; " + CreateTable(TREESUMMARY, TreesummaryBody()) + ";",
      "INSERT INTO " + SUMMARY + " SELECT * FROM " + Intermediate + "; INSERT INTO " + TREESUMMARY + " SELECT * FROM " + IntermediateTreesummary + ";",
      "CREATE VIEW " + SNAPSHOT + " AS SELECT * FROM " + SUMMARY + " LEFT JOIN " + TREESUMMARY + " ON "
        + SUMMARY + "." + INODE + " == " + TREESUMMARY + "." + INODE + ";")
  }

  /** The fragments for the given reference time and bucket counts. */
  function SqlFragments(reftime: int, sizeBuckets: nat, nameBuckets: nat, bq: BuildQuery): SnapshotDT.Fragments {
    var plan := Plan(reftime, sizeBuckets, nameBuckets);
    Assemble(ColumnList(Decls(plan)), Selects(plan), bq)
  }

  /** The parsed command line (the verbose flag only prints and is left out). */
  datatype Args = Args(
    index: string,
    outname: string,
    reftime: Option<int>,
    maxSize: int,
    maxNameLen: int,
    notes: Option<string>)

  /** The server configuration: the engine's path and its thread count. */
  datatype Config = Config(query: string, threads: int)

  /** The engine invocation for the parsed arguments and the configuration. */
  function Command(args: Args, config: Config, now: int, bq: BuildQuery): seq<string>
    requires args.maxSize > 0 && args.maxNameLen > 0
  {
    var reftime := if args.reftime.Some? then args.reftime.value else now;
    var f := SqlFragments(reftime, CeilLog2(args.maxSize), CeilLog2(args.maxNameLen), bq);
    SnapshotDT.CommandLine(config.query, args.index, config.threads, args.outname, f)
  }

  /** Flattens the tables and puts the engine invocation together. */
  method BuildCommand(args: Args, config: Config, now: int, bq: BuildQuery) returns (cmd: seq<string>)
    requires args.maxSize > 0 && args.maxNameLen > 0
    ensures cmd == Command(args, config, now, bq)
  {
    var reftime := if args.reftime.Some? then args.reftime.value else now;
    var sizeBuckets := CeilLog2(args.maxSize);
    var nameBuckets := CeilLog2(args.maxNameLen);
    var createCols, selectCols := Flatten(SummaryCols(), VRXSUMMARY, Families(reftime, sizeBuckets, nameBuckets), VRXPENTRIES);
    var tableCols := ColumnList(createCols);
    var f := Assemble(tableCols, selectCols, bq);
    cmd := SnapshotDT.CommandLine(config.query, args.index, config.threads, args.outname, f);
  }

  /**
   * What a run leaves behind once the engine returned code and database
   * after: a non-zero status is returned as it is with the database untouched;
   * otherwise the metadata table is created (an error if it exists) and holds
   * one row timestamped now.
   */
  predicate Outcome(args: Args, now: int, engineResult: (int, Db), rc: Result<int, string>, out: Db) {
    var (code, after) := engineResult;
    && (code != 0 ==> rc == Success(code) && out == after)
    && (code == 0 && METADATA !in after.tables ==>
          rc == Success(0) && out == Db(after.tables + {METADATA}, [MetaRow(now, args.index, args.notes)]))
    && (code == 0 && METADATA in after.tables ==> rc.Failure? && out == after)
  }

  /** Builds the command, runs the engine once, then writes the metadata. */
  method Run(args: Args, config: Config, now: int, bq: BuildQuery, engine: Engine, db: Db)
    returns (cmd: seq<string>, rc: Result<int, string>, out: Db)
    requires args.maxSize > 0 && args.maxNameLen > 0
    ensures cmd == Command(args, config, now, bq)
    ensures Outcome(args, now, engine(cmd, db), rc, out)
  {
    var timestamp := now;
    cmd := BuildCommand(args, config, timestamp, bq);
    var (code, after) := engine(cmd, db);
    if code != 0 {
      return cmd, Success(code), after;
    }
    rc, out := WriteMetadata(after, false, timestamp, args.index, args.notes);
  }

  // ---------------------------------------------------------------------------
  // What the fragments promise

  /**
   * The intermediate and the final summary tables are created from the one
   * flattened column list, as are the two tree-summary tables from the one
   * literal schema.
   */
  lemma SharedColumnList(reftime: int, sizeBuckets: nat, nameBuckets: nat, bq: BuildQuery)
    ensures var f := SqlFragments(reftime, sizeBuckets, nameBuckets, bq);
            var body := TableBody(ColumnList(Decls(Plan(reftime, sizeBuckets, nameBuckets))));
            && f.i == CreateTable("intermediate", body) + "; " + CreateTable("intermediate_treesummary", TreesummaryBody()) + ";"
            && f.k == CreateTable(SUMMARY, body) + "; " + CreateTable(TREESUMMARY, TreesummaryBody()) + ";"
  {
  }

  /** The uid histogram is declared INT64 and the gid histogram TEXT, as written. */
  lemma HistTypesVerbatim(reftime: int, sizeBuckets: nat, nameBuckets: nat)
    ensures var fams := Families(reftime, sizeBuckets, nameBuckets);
            && fams[0].name == "uid" && fams[0].stats[2].name == "hist" && fams[0].stats[2].ty == Int64
            && fams[1].name == "gid" && fams[1].stats[2].name == "hist" && fams[1].stats[2].ty == Text
  {
    IdColsNames("uid", Int64);
    IdColsNames("gid", Text);
  }

  // ---------------------------------------------------------------------------
  // Unique summary columns

  /**
   * The family names are distinct; only xattr_name and xattr_value hold an
   * '_', after "xattr", which names no family.
   */
  lemma FamilyOrderSeparate()
    ensures Distinct(FamilyOrder())
    ensures forall i :: 0 <= i < 13 && i != 10 && i != 11 ==> '_' !in FamilyOrder()[i]
    ensures "xattr" !in FamilyOrder()
  {
  }

  lemma XattrNames()
    ensures SingleUnderscoreAt("xattr_name", 5) && "xattr_name"[..5] == "xattr"
    ensures SingleUnderscoreAt("xattr_value", 5) && "xattr_value"[..5] == "xattr"
  {
  }

  lemma FamiliesApart(fams: seq<Family>)
    requires FamilyNames(fams) == FamilyOrder()
    ensures forall a, b :: 0 <= a < |fams| && 0 <= b < |fams| ==> !StartsWithFamily(fams[a].name, fams[b].name)
  {
    FamilyOrderSeparate();
    XattrNames();
    forall a, b | 0 <= a < |fams| && 0 <= b < |fams| ensures !StartsWithFamily(fams[a].name, fams[b].name) {
      var n := fams[a].name;
      assert n == FamilyOrder()[a];
      assert fams[b].name == FamilyOrder()[b];
      if a == 10 || a == 11 {
        SingleUnderscore(n, 5, fams[b].name);
      } else {
        NoUnderscoreOutside(n, fams[b].name);
      }
    }
  }

  /** Only filesystem_type has an '_', and no family is named filesystem. */
  lemma SummaryOutsideFamilies(fams: seq<Family>)
    requires FamilyNames(fams) == FamilyOrder()
    ensures OutsideFamilies(SnapshotDT.SummaryNames(), fams)
  {
    var names := SnapshotDT.SummaryNames();
    SnapshotDT.SummaryNamesShape();
    assert "filesystem" !in FamilyOrder();
    forall i, a | 0 <= i < |names| && 0 <= a < |fams| ensures !StartsWithFamily(names[i], fams[a].name) {
      assert fams[a].name == FamilyOrder()[a];
      if i == 12 {
        SingleUnderscore(names[i], 10, fams[a].name);
      } else {
        NoUnderscoreOutside(names[i], fams[a].name);
      }
    }
  }

  /** Each family's statistic names are distinct. */
  lemma StatListsDistinct(reftime: int, sizeBuckets: nat, nameBuckets: nat)
    ensures forall a :: 0 <= a < 13 ==> Distinct(StatNames(Families(reftime, sizeBuckets, nameBuckets)[a].stats))
  {
    IdColsNames("uid", Int64);
    IdColsNames("gid", Text);
    SnapshotDT.SizeColsNames(sizeBuckets);
    SnapshotDT.PermColsNames();
    TimeColsNames("ctime", reftime);
    TimeColsNames("atime", reftime);
    TimeColsNames("mtime", reftime);
    TimeColsNames("crtime", reftime);
    SnapshotDT.StrColsNames("name", nameBuckets);
    SnapshotDT.StrColsNames("linkname", nameBuckets);
    SnapshotDT.StrColsNames("xattr_name", nameBuckets);
    SnapshotDT.StrColsNames("xattr_value", nameBuckets);
    ExtColsNames();
    EntriesColsDistinct(IdCols(UID, Int64), IdCols(GID, Text), SnapshotDT.SizeCols(sizeBuckets), SnapshotDT.PermCols(),
      TimeCols(CTIME, reftime), TimeCols(ATIME, reftime), TimeCols(MTIME, reftime), TimeCols(CRTIME, reftime),
      SnapshotDT.StrCols(NAME, nameBuckets), SnapshotDT.StrCols(LINKNAME, nameBuckets),
      SnapshotDT.StrCols(XATTR_NAME, nameBuckets), SnapshotDT.StrCols(XATTR_VALUE, nameBuckets), ExtCols());
  }

  lemma EntriesColsDistinct(uid: seq<Stat>, gid: seq<Stat>, size: seq<Stat>, perm: seq<Stat>,
                            ctime: seq<Stat>, atime: seq<Stat>, mtime: seq<Stat>, crtime: seq<Stat>,
                            name: seq<Stat>, linkname: seq<Stat>, xname: seq<Stat>, xvalue: seq<Stat>,
                            ext: seq<Stat>)
    requires Distinct(StatNames(uid)) && Distinct(StatNames(gid)) && Distinct(StatNames(size))
    requires Distinct(StatNames(perm)) && Distinct(StatNames(ctime)) && Distinct(StatNames(atime))
    requires Distinct(StatNames(mtime)) && Distinct(StatNames(crtime)) && Distinct(StatNames(name))
    requires Distinct(StatNames(linkname)) && Distinct(StatNames(xname)) && Distinct(StatNames(xvalue))
    requires Distinct(StatNames(ext))
    ensures var r := EntriesCols(uid, gid, size, perm, ctime, atime, mtime, crtime, name, linkname, xname, xvalue, ext);
            forall a :: 0 <= a < 13 ==> Distinct(StatNames(r[a].stats))
  {
  }

  /** The summary table's column names are unique, whatever the parameters. */
  lemma ColumnNamesDistinct(reftime: int, sizeBuckets: nat, nameBuckets: nat)
    ensures Distinct(Names(Plan(reftime, sizeBuckets, nameBuckets)))
  {
    var fams := Families(reftime, sizeBuckets, nameBuckets);
    SnapshotDT.SummaryNamesDistinct();
    FamilyOrderSeparate();
    StatListsDistinct(reftime, sizeBuckets, nameBuckets);
    FamiliesApart(fams);
    SummaryOutsideFamilies(fams);
    PlanNamesDistinct(SummaryCols(), VRXSUMMARY, fams, VRXPENTRIES);
  }
}
