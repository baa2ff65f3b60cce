/**
 * The relational store of src/database/db.ts: which schema objects are installed, the
 * persisted `user_version`, and the rows of the Novel, Chapter and Summaries tables.
 *
 * SQL statements are values of `Statement`; `Step` is what the engine does with one of
 * them and `Run` what it does with a transaction's worth, given a `Fault` oracle that
 * names the statement (if any) at which the engine reports an error. The class
 * `Database` executes statements by updating its fields in place and rolls a failed
 * transaction back, as `withTransactionSync` does.
 */
module Store {
  import opened Common
  import opened Strings

  // ---------------------------------------------------------------------------
  // Rows
  // ---------------------------------------------------------------------------

  /** A TEXT timestamp column value; SQLite's MAX compares these with `TextLe`. */
  type Timestamp = string

  datatype Chapter = Chapter(
    id: int,
    novelId: int,
    path: string,
    isDownloaded: int,
    unread: int,
    readTime: Option<Timestamp>,
    updatedTime: Option<Timestamp>)

  /** A Novel row; the five derived fields are meaningful once their columns exist. */
  datatype Novel = Novel(
    pluginId: string,
    chaptersDownloaded: int,
    chaptersUnread: int,
    totalChapters: int,
    lastReadAt: Option<Timestamp>,
    lastUpdatedAt: Option<Timestamp>)

  datatype SummaryRow = SummaryRow(summary: string, updatedAt: Timestamp)

  /** The five derived Novel columns that version 1 of the schema adds. */
  datatype Column = ChaptersDownloaded | ChaptersUnread | TotalChapters | LastReadAt | LastUpdatedAt

  function ColumnName(c: Column): string {
    match c
    case ChaptersDownloaded => "chaptersDownloaded"
    case ChaptersUnread => "chaptersUnread"
    case TotalChapters => "totalChapters"
    case LastReadAt => "lastReadAt"
    case LastUpdatedAt => "lastUpdatedAt"
  }

  /**
   * Named schema objects. All but the Summaries table and its two triggers are defined
   * by query strings imported from the tables/ modules, whose text is not part of this
   * model: they are opaque names here.
   */
  datatype SchemaObject =
    | NovelTable | NovelIndex | CategoryTable | DefaultCategory | NovelCategoryTable
    | ChapterTable | CategoryTrigger | ChapterIndex | RepositoryTable
    | SummariesTable | SummaryInsertTrigger | SummaryUpdateTrigger
    | NovelInsertTrigger | NovelUpdateTrigger | NovelDeleteTrigger
    | NovelColumn(column: Column)

  /**
   * The table that the CREATE of an index or trigger names after ON, which SQLite
   * requires to exist. The Novel and Chapter indexes are on the tables they are named
   * after; the summary triggers are `ON Chapter`. For the other imported objects the
   * text is not part of this model, so no such table is checked.
   */
  function HostTable(o: SchemaObject): Option<SchemaObject> {
    match o
    case NovelIndex => Some(NovelTable)
    case ChapterIndex => Some(ChapterTable)
    case SummaryInsertTrigger => Some(ChapterTable)
    case SummaryUpdateTrigger => Some(ChapterTable)
    case _ => None
  }

  /** SQLite's error for a CREATE INDEX or CREATE TRIGGER whose table `o` is missing. */
  function NoHostTable(o: SchemaObject): string {
    if o == NovelTable then "no such table: main.Novel" else "no such table: main.Chapter"
  }

  /** The five columns, in the order the migration adds and fills them. */
  const ColumnList: seq<Column> := [ChaptersDownloaded, ChaptersUnread, TotalChapters, LastReadAt, LastUpdatedAt]

  function ColumnSet(cols: seq<Column>): set<SchemaObject> {
    set c | c in cols :: NovelColumn(c)
  }

  const ColumnObjects: set<SchemaObject> := ColumnSet(ColumnList)

  /** The Novel counter triggers, in the order both schema paths create them. */
  const NovelTriggerList: seq<SchemaObject> := [NovelInsertTrigger, NovelUpdateTrigger, NovelDeleteTrigger]

  const NovelTriggers: set<SchemaObject> := set o | o in NovelTriggerList

  /** What the first-run transaction creates, in order. */
  const FreshObjectList: seq<SchemaObject> :=
    [NovelTable, NovelIndex, CategoryTable, DefaultCategory, NovelCategoryTable, ChapterTable,
     CategoryTrigger, ChapterIndex, RepositoryTable, SummariesTable, SummaryInsertTrigger,
     SummaryUpdateTrigger, NovelInsertTrigger, NovelUpdateTrigger, NovelDeleteTrigger]

  const FreshObjects: set<SchemaObject> := set o | o in FreshObjectList

  // ---------------------------------------------------------------------------
  // The Chapter table: rows in rowid order, `id` the primary key
  // ---------------------------------------------------------------------------

  function IdsOf(cs: seq<Chapter>): set<int>
    decreases |cs|
  {
    if cs == [] then {} else {cs[0].id} + IdsOf(cs[1..])
  }

  predicate UniqueIds(cs: seq<Chapter>)
    decreases |cs|
  {
    cs == [] || (cs[0].id !in IdsOf(cs[1..]) && UniqueIds(cs[1..]))
  }

  lemma {:induction false} InIds(cs: seq<Chapter>, c: Chapter)
    requires c in cs
    ensures c.id in IdsOf(cs)
    decreases |cs|
  {
    if cs[0] != c { InIds(cs[1..], c); }
  }

  /** The first row whose id is `id` (with unique ids, the only one). */
  function FindChapter(cs: seq<Chapter>, id: int): (r: Option<Chapter>)
    ensures r.Some? <==> id in IdsOf(cs)
    ensures r.Some? ==> r.value in cs && r.value.id == id
    decreases |cs|
  {
    if cs == [] then None
    else if cs[0].id == id then Some(cs[0])
    else FindChapter(cs[1..], id)
  }

  lemma {:induction false} AppendChapter(cs: seq<Chapter>, c: Chapter)
    requires UniqueIds(cs) && c.id !in IdsOf(cs)
    ensures IdsOf(cs + [c]) == IdsOf(cs) + {c.id}
    ensures UniqueIds(cs + [c])
    decreases |cs|
  {
    if cs != [] {
      assert (cs + [c])[1..] == cs[1..] + [c];
      AppendChapter(cs[1..], c);
    } else {
      assert [c][1..] == [];
    }
  }

  /** The table after `DELETE FROM Chapter WHERE id = ?`. */
  function RemoveChapter(cs: seq<Chapter>, id: int): (r: seq<Chapter>)
    ensures IdsOf(r) == IdsOf(cs) - {id}
    ensures UniqueIds(cs) ==> UniqueIds(r)
    ensures forall c :: c in r <==> c in cs && c.id != id
    decreases |cs|
  {
    if cs == [] then []
    else if cs[0].id == id then RemoveChapter(cs[1..], id)
    else [cs[0]] + RemoveChapter(cs[1..], id)
  }

  /** The table after the row whose id is `c.id` is overwritten with `c`. */
  function ReplaceChapter(cs: seq<Chapter>, c: Chapter): (r: seq<Chapter>)
    ensures |r| == |cs|
    ensures IdsOf(r) == IdsOf(cs)
    ensures UniqueIds(cs) ==> UniqueIds(r)
    ensures forall i :: 0 <= i < |cs| ==> r[i] == if cs[i].id == c.id then c else cs[i]
    decreases |cs|
  {
    if cs == [] then []
    else [if cs[0].id == c.id then c else cs[0]] + ReplaceChapter(cs[1..], c)
  }

  // ---------------------------------------------------------------------------
  // The correlated aggregates of the version-1 backfill
  // ---------------------------------------------------------------------------

  /** Which `COUNT(*)` of the backfill: all of a novel's chapters, the downloaded ones, the unread ones. */
  datatype Tally = AllChapters | Downloaded | Unread

  predicate Counted(c: Chapter, n: int, w: Tally) {
    && c.novelId == n
    && match w
       case AllChapters => true
       case Downloaded => c.isDownloaded == 1
       case Unread => c.unread == 1
  }

  /** `SELECT COUNT(*) FROM Chapter WHERE Chapter.novelId = n [AND ...]`. */
  function CountChapters(cs: seq<Chapter>, n: int, w: Tally): (count: nat)
    ensures count <= |cs|
    decreases |cs|
  {
    if cs == [] then 0 else (if Counted(cs[0], n, w) then 1 else 0) + CountChapters(cs[1..], n, w)
  }

  datatype TimeField = ReadTime | UpdatedTime

  function TimeOf(c: Chapter, f: TimeField): Option<Timestamp> {
    match f
    case ReadTime => c.readTime
    case UpdatedTime => c.updatedTime
  }

  /** A chapter of novel `n` whose `f` column is not NULL. */
  predicate HasTime(c: Chapter, n: int, f: TimeField) {
    c.novelId == n && TimeOf(c, f).Some?
  }

  /** SQL `MAX` of two values, NULLs ignored. */
  function OptMax(a: Option<Timestamp>, b: Option<Timestamp>): Option<Timestamp> {
    match (a, b)
    case (None, _) => b
    case (_, None) => a
    case (Some(x), Some(y)) => Some(TextMax(x, y))
  }

  /** `SELECT MAX(f) FROM Chapter WHERE Chapter.novelId = n`. */
  function MaxTime(cs: seq<Chapter>, n: int, f: TimeField): Option<Timestamp>
    decreases |cs|
  {
    if cs == [] then None
    else OptMax(if cs[0].novelId == n then TimeOf(cs[0], f) else None, MaxTime(cs[1..], n, f))
  }

  /** A novel's row after one backfill `UPDATE` of column `c`. */
  function Backfilled(nv: Novel, c: Column, cs: seq<Chapter>, n: int): Novel {
    match c
    case ChaptersDownloaded => nv.(chaptersDownloaded := CountChapters(cs, n, Downloaded))
    case ChaptersUnread => nv.(chaptersUnread := CountChapters(cs, n, Unread))
    case TotalChapters => nv.(totalChapters := CountChapters(cs, n, AllChapters))
    case LastReadAt => nv.(lastReadAt := MaxTime(cs, n, ReadTime))
    case LastUpdatedAt => nv.(lastUpdatedAt := MaxTime(cs, n, UpdatedTime))
  }

  /** A novel's row as `ALTER TABLE ADD COLUMN` leaves it: `DEFAULT 0`, or NULL for TEXT. */
  function Defaulted(nv: Novel, c: Column): Novel {
    match c
    case ChaptersDownloaded => nv.(chaptersDownloaded := 0)
    case ChaptersUnread => nv.(chaptersUnread := 0)
    case TotalChapters => nv.(totalChapters := 0)
    case LastReadAt => nv.(lastReadAt := None)
    case LastUpdatedAt => nv.(lastUpdatedAt := None)
  }

  /** A novel's row with all five derived columns computed from the Chapter table. */
  function Migrated(nv: Novel, cs: seq<Chapter>, n: int): (m: Novel)
    ensures m.pluginId == nv.pluginId
    ensures m.chaptersDownloaded <= m.totalChapters && m.chaptersUnread <= m.totalChapters
  {
    TalliesBoundedByTotal(cs, n);
    nv.(chaptersDownloaded := CountChapters(cs, n, Downloaded),
        chaptersUnread := CountChapters(cs, n, Unread),
        totalChapters := CountChapters(cs, n, AllChapters),
        lastReadAt := MaxTime(cs, n, ReadTime),
        lastUpdatedAt := MaxTime(cs, n, UpdatedTime))
  }

  /** A novel's row after the ALTER TABLEs of `cols`, in order. */
  function DefaultedAll(nv: Novel, cols: seq<Column>): Novel
    decreases |cols|
  {
    if cols == [] then nv else DefaultedAll(Defaulted(nv, cols[0]), cols[1..])
  }

  /** A novel's row after the backfills of `cols`, in order. */
  function BackfilledAll(nv: Novel, cols: seq<Column>, cs: seq<Chapter>, n: int): Novel
    decreases |cols|
  {
    if cols == [] then nv else BackfilledAll(Backfilled(nv, cols[0], cs, n), cols[1..], cs, n)
  }

  /** The primary keys of the chapters that a count selects. */
  function CountedIds(cs: seq<Chapter>, n: int, w: Tally): set<int> {
    set c | c in cs && Counted(c, n, w) :: c.id
  }

  lemma CountedIdsCons(cs: seq<Chapter>, n: int, w: Tally)
    requires cs != []
    ensures CountedIds(cs, n, w) == (if Counted(cs[0], n, w) then {cs[0].id} else {}) + CountedIds(cs[1..], n, w)
  {
    assert forall c :: c in cs <==> c == cs[0] || c in cs[1..] by {
      assert cs == [cs[0]] + cs[1..];
    }
  }

  /** Each count equals the number of distinct chapters (by primary key) that it selects. */
  lemma {:induction false} CountIsCardinality(cs: seq<Chapter>, n: int, w: Tally)
    requires UniqueIds(cs)
    ensures CountChapters(cs, n, w) == |CountedIds(cs, n, w)|
    decreases |cs|
  {
    if cs != [] {
      var rest := cs[1..];
      CountIsCardinality(rest, n, w);
      CountedIdsCons(cs, n, w);
      forall c | c in rest ensures c.id != cs[0].id { InIds(rest, c); }
      assert cs[0].id !in CountedIds(rest, n, w);
    }
  }

  /** The downloaded and unread counts never exceed the total. */
  lemma {:induction false} TalliesBoundedByTotal(cs: seq<Chapter>, n: int)
    ensures CountChapters(cs, n, Downloaded) <= CountChapters(cs, n, AllChapters)
    ensures CountChapters(cs, n, Unread) <= CountChapters(cs, n, AllChapters)
    decreases |cs|
  {
    if cs != [] { TalliesBoundedByTotal(cs[1..], n); }
  }

  /** A novel with no chapters gets counts of 0 and NULL timestamps (the subqueries are correlated, not joined). */
  lemma {:induction false} NoChaptersGivesZero(cs: seq<Chapter>, n: int)
    requires forall c :: c in cs ==> c.novelId != n
    ensures CountChapters(cs, n, AllChapters) == 0 && CountChapters(cs, n, Downloaded) == 0
    ensures CountChapters(cs, n, Unread) == 0
    ensures MaxTime(cs, n, ReadTime) == None && MaxTime(cs, n, UpdatedTime) == None
    decreases |cs|
  {
    if cs != [] {
      assert cs[0] in cs;
      assert forall c :: c in cs[1..] ==> c in cs;
      NoChaptersGivesZero(cs[1..], n);
    }
  }

  /** MAX is NULL exactly when no chapter of the novel has a value; otherwise it is one of the values and bounds them all. */
  lemma {:induction false} MaxTimeIsMaximum(cs: seq<Chapter>, n: int, f: TimeField)
    ensures MaxTime(cs, n, f).None? <==> forall c :: c in cs ==> !HasTime(c, n, f)
    ensures MaxTime(cs, n, f).Some? ==>
              exists c :: c in cs && HasTime(c, n, f) && TimeOf(c, f) == MaxTime(cs, n, f)
    ensures MaxTime(cs, n, f).Some? ==>
              forall c :: c in cs && HasTime(c, n, f) ==> TextLe(TimeOf(c, f).value, MaxTime(cs, n, f).value)
    decreases |cs|
  {
    if cs != [] {
      var rest := cs[1..];
      MaxTimeIsMaximum(rest, n, f);
      assert forall c :: c in cs <==> c == cs[0] || c in rest by {
        assert cs == [cs[0]] + rest;
      }
      var here := if cs[0].novelId == n then TimeOf(cs[0], f) else None;
      var m := MaxTime(cs, n, f);
      var mr := MaxTime(rest, n, f);
      assert m == OptMax(here, mr);
      assert here.Some? <==> HasTime(cs[0], n, f);
      match (here, mr)
      case (None, _) =>
      case (Some(x), None) =>
        TextLeReflexive(x);
      case (Some(x), Some(y)) =>
        var z := TextMax(x, y);
        forall c | c in cs && HasTime(c, n, f) ensures TextLe(TimeOf(c, f).value, z) {
          if c != cs[0] { TextLeTransitive(TimeOf(c, f).value, y, z); }
        }
        if z == y {
          var w :| w in rest && HasTime(w, n, f) && TimeOf(w, f) == mr;
          assert w in cs;
        }
    }
  }

  // ---------------------------------------------------------------------------
  // Statements and transactions
  // ---------------------------------------------------------------------------

  datatype Statement =
    | Create(obj: SchemaObject)     // CREATE ... IF NOT EXISTS, or the default-category insert
    | DropIndex(index: SchemaObject)
    | AddColumn(column: Column)     // ALTER TABLE Novel ADD COLUMN ...
    | Backfill(column: Column)      // UPDATE Novel SET column = (correlated subquery over Chapter)
    | SetUserVersion(version: int)  // PRAGMA user_version = ...

  /** The engine reports an error, with `message`, at statement number `at` of a transaction. */
  datatype Fault = Fault(at: nat, message: string)

  predicate FaultWithin(fault: Option<Fault>, n: nat) {
    fault.Some? && fault.value.at < n
  }

  predicate AtFault(fault: Option<Fault>, i: nat) {
    fault.Some? && fault.value.at == i
  }

  predicate FaultIn(fault: Option<Fault>, lo: nat, hi: nat) {
    fault.Some? && lo <= fault.value.at < hi
  }

  /** Everything a transaction can change and a rollback restores. */
  datatype Tables = Tables(
    installed: set<SchemaObject>,
    userVersion: int,
    novels: map<int, Novel>,
    chapters: seq<Chapter>,
    summaries: map<int, SummaryRow>)

  /** Chapter ids are a primary key; a missing Summaries table holds no rows. */
  predicate Consistent(t: Tables) {
    && UniqueIds(t.chapters)
    && (SummariesTable !in t.installed ==> t.summaries == map[])
  }

  /**
   * One statement. A CREATE fails while the table it is ON is missing, and otherwise
   * only installs what is absent; the Novel definition in use carries the five derived
   * columns, since a fresh install is recorded as version 1 and never migrated. The
   * two DROP INDEX statements behave as DROP INDEX IF EXISTS: dropping an absent
   * index succeeds. No statement touches the Chapter or Summaries rows, and only
   * DROP INDEX removes anything from the schema.
   */
  function Step(t: Tables, s: Statement): (r: Result<Tables, string>)
    ensures r.Ok? ==> r.value.chapters == t.chapters && r.value.summaries == t.summaries
    ensures r.Ok? ==> t.installed - {NovelIndex, ChapterIndex} <= r.value.installed
    ensures r.Ok? && !s.SetUserVersion? ==> r.value.userVersion == t.userVersion
    ensures s.Create? ==> (r.Ok? <==> HostTable(s.obj).None? || HostTable(s.obj).value in t.installed)
    ensures s.Create? && r.Ok? ==> s.obj in r.value.installed
  {
    match s
    case Create(o) =>
      if HostTable(o).Some? && HostTable(o).value !in t.installed then Err(NoHostTable(HostTable(o).value))
      else if o == NovelTable && NovelTable !in t.installed then Ok(t.(installed := t.installed + {o} + ColumnObjects))
      else Ok(t.(installed := t.installed + {o}))
    case DropIndex(o) =>
      if o == NovelIndex || o == ChapterIndex then Ok(t.(installed := t.installed - {o}))
      else Err("no such index")
    case AddColumn(c) =>
      if NovelTable !in t.installed then Err("no such table: Novel")
      else if NovelColumn(c) in t.installed then Err("duplicate column name: " + ColumnName(c))
      else Ok(t.(installed := t.installed + {NovelColumn(c)},
                 novels := map n | n in t.novels :: Defaulted(t.novels[n], c)))
    case Backfill(c) =>
      if NovelTable !in t.installed then Err("no such table: Novel")
      else if ChapterTable !in t.installed then Err("no such table: Chapter")
      else if NovelColumn(c) !in t.installed then Err("no such column: " + ColumnName(c))
      else Ok(t.(novels := map n | n in t.novels :: Backfilled(t.novels[n], c, t.chapters, n)))
    case SetUserVersion(v) =>
      Ok(t.(userVersion := v))
  }

  /** Statements `stmts[i..]`, stopping at the first error. */
  function Run(t: Tables, stmts: seq<Statement>, fault: Option<Fault>, i: nat): Result<Tables, string>
    requires i <= |stmts|
    decreases |stmts| - i
  {
    if i == |stmts| then Ok(t)
    else if AtFault(fault, i) then Err(fault.value.message)
    else match Step(t, stmts[i])
      case Err(m) => Err(m)
      case Ok(next) => Run(next, stmts, fault, i + 1)
  }

  /** The statements that create `objs`, in order. */
  function Creates(objs: seq<SchemaObject>): seq<Statement> {
    seq(|objs|, k requires 0 <= k < |objs| => Create(objs[k]))
  }

  /** The ALTER TABLE statements that add `cols`, in order. */
  function AddColumns(cols: seq<Column>): seq<Statement> {
    seq(|cols|, k requires 0 <= k < |cols| => AddColumn(cols[k]))
  }

  /** The UPDATE statements that fill `cols`, in order. */
  function Backfills(cols: seq<Column>): seq<Statement> {
    seq(|cols|, k requires 0 <= k < |cols| => Backfill(cols[k]))
  }

  /** src/database/db.ts:47-75, the first-run schema. */
  const FreshSchema: seq<Statement> := Creates(FreshObjectList) + [SetUserVersion(1)]

  /** src/database/db.ts:113-159, the migration to version 1. */
  const MigrationV1: seq<Statement> :=
    AddColumns(ColumnList) + Backfills(ColumnList) + Creates(NovelTriggerList) + [SetUserVersion(1)]

  /** src/database/db.ts:96-99, the index rebuild. */
  const IndexRebuild: seq<Statement> := [
    DropIndex(NovelIndex), DropIndex(ChapterIndex), Create(NovelIndex), Create(ChapterIndex)]

  /** What `createTables` does to the tables, given the onboarded flag and the `PRAGMA user_version` row. */
  function CreateTablesEffect(t: Tables, onboarded: bool, versionRow: Option<int>, fault: Option<Fault>): (r: Result<Tables, string>)
    ensures r.Ok? ==> r.value.chapters == t.chapters && r.value.summaries == t.summaries
    ensures r.Ok? ==> r.value.userVersion == 1 || r.value == t
    ensures !onboarded && r.Ok? ==> FreshObjects <= r.value.installed
  {
    RunFrame(t, FreshSchema, fault, 0);
    RunFrame(t, MigrationV1, fault, 0);
    FreshSchemaOutcome(t, fault);
    MigrationV1Completes(t, fault);
    if !onboarded then Run(t, FreshSchema, fault, 0)
    else if versionRow.GetOr(0) < 1 then Run(t, MigrationV1, fault, 0)
    else Ok(t)
  }

  // ---------------------------------------------------------------------------
  // What the transactions do
  // ---------------------------------------------------------------------------

  /**
   * What no transaction changes: the Chapter and Summaries rows, and every installed
   * object but the two indexes. So a transaction keeps the store consistent, and a
   * fault in its range makes it fail.
   */
  lemma {:induction false} RunFrame(t: Tables, stmts: seq<Statement>, fault: Option<Fault>, i: nat)
    requires i <= |stmts|
    ensures var r := Run(t, stmts, fault, i);
            && (r.Ok? ==> r.value.chapters == t.chapters && r.value.summaries == t.summaries)
            && (r.Ok? ==> t.installed - {NovelIndex, ChapterIndex} <= r.value.installed)
            && (r.Ok? && Consistent(t) ==> Consistent(r.value))
            && (FaultIn(fault, i, |stmts|) ==> r.Err?)
    decreases |stmts| - i
  {
    if i < |stmts| && !AtFault(fault, i) && Step(t, stmts[i]).Ok? {
      RunFrame(Step(t, stmts[i]).value, stmts, fault, i + 1);
    }
  }

  /** A transaction that commits met no fault after its starting point. */
  lemma {:induction false} CommitMeansNoFault(t: Tables, stmts: seq<Statement>, fault: Option<Fault>, i: nat)
    requires i <= |stmts|
    requires Run(t, stmts, fault, i).Ok?
    ensures !FaultIn(fault, i, |stmts|)
    decreases |stmts| - i
  {
    if i < |stmts| {
      RunOkNext(t, stmts, fault, i);
      CommitMeansNoFault(Step(t, stmts[i]).value, stmts, fault, i + 1);
    }
  }

  /** One statement of a committing transaction: no fault there, the statement succeeds, and the rest commits. */
  lemma RunOkNext(t: Tables, stmts: seq<Statement>, fault: Option<Fault>, i: nat)
    requires i < |stmts|
    requires Run(t, stmts, fault, i).Ok?
    ensures !AtFault(fault, i) && Step(t, stmts[i]).Ok?
    ensures Run(Step(t, stmts[i]).value, stmts, fault, i + 1) == Run(t, stmts, fault, i)
  {
  }

  /** One CREATE, on a store with its Novel table and the table `o` is on, only installs `o`. */
  lemma RunCreateStep(t: Tables, stmts: seq<Statement>, fault: Option<Fault>, i: nat, o: SchemaObject)
    requires i < |stmts| && stmts[i] == Create(o)
    requires NovelTable in t.installed
    requires HostTable(o).Some? ==> HostTable(o).value in t.installed
    ensures Run(t, stmts, fault, i) ==
              if AtFault(fault, i) then Err(fault.value.message)
              else Run(t.(installed := t.installed + {o}), stmts, fault, i + 1)
  {
  }

  /** The statements of `Creates(objs)` found at `stmts[i..]`: the first, and the rest. */
  lemma CreatesSplit(stmts: seq<Statement>, i: nat, objs: seq<SchemaObject>)
    requires objs != [] && i + |objs| <= |stmts| && stmts[i..i + |objs|] == Creates(objs)
    ensures stmts[i] == Create(objs[0])
    ensures stmts[i + 1..i + |objs|] == Creates(objs[1..])
  {
    assert stmts[i] == stmts[i..i + |objs|][0];
    assert stmts[i + 1..i + |objs|] == stmts[i..i + |objs|][1..];
  }

  lemma ElementsCons<T>(xs: seq<T>)
    requires xs != []
    ensures (set o | o in xs) == {xs[0]} + set o | o in xs[1..]
  {
    assert xs == [xs[0]] + xs[1..];
  }

  lemma InstalledCons(installed: set<SchemaObject>, objs: seq<SchemaObject>)
    requires objs != []
    ensures (installed + {objs[0]}) + (set o | o in objs[1..]) == installed + (set o | o in objs)
  {
    ElementsCons(objs);
  }

  /** Each object of `objs` finds the table it is ON installed already or created earlier in `objs`. */
  predicate HostsReady(installed: set<SchemaObject>, objs: seq<SchemaObject>) {
    forall k :: 0 <= k < |objs| && HostTable(objs[k]).Some? ==>
      HostTable(objs[k]).value in installed || HostTable(objs[k]).value in objs[..k]
  }

  lemma HostsReadyTail(installed: set<SchemaObject>, objs: seq<SchemaObject>)
    requires objs != [] && HostsReady(installed, objs)
    ensures HostTable(objs[0]).Some? ==> HostTable(objs[0]).value in installed
    ensures HostsReady(installed + {objs[0]}, objs[1..])
  {
    var rest := objs[1..];
    forall k | 0 <= k < |rest| && HostTable(rest[k]).Some?
      ensures HostTable(rest[k]).value in installed + {objs[0]} || HostTable(rest[k]).value in rest[..k]
    {
      assert rest[k] == objs[k + 1];
      assert objs[..k + 1] == [objs[0]] + rest[..k];
    }
  }

  /** A run of CREATE statements on a store that has its Novel table adds exactly the created objects. */
  lemma {:induction false} RunCreates(t: Tables, stmts: seq<Statement>, fault: Option<Fault>, i: nat, objs: seq<SchemaObject>)
    requires i + |objs| <= |stmts| && stmts[i..i + |objs|] == Creates(objs)
    requires NovelTable in t.installed && HostsReady(t.installed, objs)
    ensures Run(t, stmts, fault, i) ==
              if FaultIn(fault, i, i + |objs|) then Err(fault.value.message)
              else Run(t.(installed := t.installed + set o | o in objs), stmts, fault, i + |objs|)
    decreases |objs|
  {
    if objs == [] {
      assert t.installed + (set o | o in objs) == t.installed;
    } else {
      CreatesSplit(stmts, i, objs);
      HostsReadyTail(t.installed, objs);
      RunCreateStep(t, stmts, fault, i, objs[0]);
      var next := t.(installed := t.installed + {objs[0]});
      RunCreates(next, stmts, fault, i + 1, objs[1..]);
      InstalledCons(t.installed, objs);
    }
  }

  /**
   * The first run: without a fault it installs every first-run object (the derived
   * columns with a new Novel table), records version 1, and leaves all rows alone.
   */
  lemma FreshSchemaOutcome(t: Tables, fault: Option<Fault>)
    ensures !FaultWithin(fault, |FreshSchema|) ==>
              Run(t, FreshSchema, fault, 0) == Ok(t.(
                installed := t.installed + FreshObjects + (if NovelTable in t.installed then {} else ColumnObjects),
                userVersion := 1))
    ensures FaultWithin(fault, |FreshSchema|) ==> Run(t, FreshSchema, fault, 0) == Err(fault.value.message)
  {
    var extra := if NovelTable in t.installed then {} else ColumnObjects;
    FreshSchemaRun(t, fault);
    var L := FreshObjectList;
    assert forall o :: o in L <==> o == NovelTable || o in L[1..] by {
      assert L == [NovelTable] + L[1..];
    }
    assert Step(t, Create(NovelTable)).value.installed + (set o | o in L[1..]) == t.installed + FreshObjects + extra;
  }

  /** The first run statement by statement: the Novel table, the other fourteen objects, the version. */
  lemma FreshSchemaRun(t: Tables, fault: Option<Fault>)
    ensures var s0 := Step(t, Create(NovelTable)).value;
            var s14 := s0.(installed := s0.installed + set o | o in FreshObjectList[1..]);
            Run(t, FreshSchema, fault, 0) ==
              if FaultWithin(fault, |FreshSchema|) then Err(fault.value.message) else Ok(s14.(userVersion := 1))
  {
    var L := FreshObjectList;
    assert |FreshSchema| == 16 && FreshSchema[0] == Create(NovelTable) && FreshSchema[15] == SetUserVersion(1);
    var s0 := Step(t, Create(NovelTable)).value;
    assert Run(t, FreshSchema, fault, 0) == if AtFault(fault, 0) then Err(fault.value.message) else Run(s0, FreshSchema, fault, 1);
    assert FreshSchema[1..15] == Creates(L[1..]) by {
      assert FreshSchema[1..15] == Creates(L)[1..];
    }
    FreshHostsReady(s0.installed);
    RunCreates(s0, FreshSchema, fault, 1, L[1..]);
    var s14 := s0.(installed := s0.installed + set o | o in L[1..]);
    FreshSchemaLast(s14, fault);
  }

  /** The last statement of the first run records version 1 and ends the run. */
  lemma FreshSchemaLast(t: Tables, fault: Option<Fault>)
    ensures Run(t, FreshSchema, fault, 15) == if AtFault(fault, 15) then Err(fault.value.message) else Ok(t.(userVersion := 1))
  {
    assert |FreshSchema| == 16 && FreshSchema[15] == SetUserVersion(1);
    assert Step(t, SetUserVersion(1)) == Ok(t.(userVersion := 1));
  }

  /** In the first-run list, the Novel index follows the Novel table and the Chapter index and summary triggers follow the Chapter table. */
  lemma FreshHostsReady(installed: set<SchemaObject>)
    requires NovelTable in installed
    ensures HostsReady(installed, FreshObjectList[1..])
  {
    var objs := FreshObjectList[1..];
    assert objs[4] == ChapterTable;
    forall k | 0 <= k < |objs| && HostTable(objs[k]).Some?
      ensures HostTable(objs[k]).value in installed || HostTable(objs[k]).value in objs[..k]
    {
      assert k == 0 || k == 6 || k == 9 || k == 10;
      if k != 0 {
        assert objs[..k][4] == ChapterTable;
      }
    }
  }

  /** The tables after the ALTER TABLEs of `cols`. */
  function AfterAdds(t: Tables, cols: seq<Column>): Tables {
    t.(installed := t.installed + ColumnSet(cols),
       novels := map n | n in t.novels :: DefaultedAll(t.novels[n], cols))
  }

  /** The tables after the backfills of `cols`. */
  function AfterBackfills(t: Tables, cols: seq<Column>): Tables {
    t.(novels := map n | n in t.novels :: BackfilledAll(t.novels[n], cols, t.chapters, n))
  }

  lemma AfterAddsCons(t: Tables, cols: seq<Column>)
    requires cols != []
    ensures AfterAdds(t.(installed := t.installed + {NovelColumn(cols[0])},
                         novels := map n | n in t.novels :: Defaulted(t.novels[n], cols[0])), cols[1..])
            == AfterAdds(t, cols)
  {
    var next := t.(installed := t.installed + {NovelColumn(cols[0])},
                   novels := map n | n in t.novels :: Defaulted(t.novels[n], cols[0]));
    assert ColumnSet(cols) == {NovelColumn(cols[0])} + ColumnSet(cols[1..]) by {
      assert forall c :: c in cols <==> c == cols[0] || c in cols[1..] by {
        assert cols == [cols[0]] + cols[1..];
      }
    }
    assert AfterAdds(next, cols[1..]).installed == AfterAdds(t, cols).installed;
    forall n | n in t.novels ensures AfterAdds(next, cols[1..]).novels[n] == AfterAdds(t, cols).novels[n] {
      assert next.novels[n] == Defaulted(t.novels[n], cols[0]);
    }
    assert AfterAdds(next, cols[1..]).novels == AfterAdds(t, cols).novels;
  }

  /** One ALTER TABLE ADD COLUMN of a column not yet present, at position i. */
  lemma RunAddColumnStep(t: Tables, stmts: seq<Statement>, fault: Option<Fault>, i: nat, c: Column)
    requires i < |stmts| && stmts[i] == AddColumn(c)
    requires NovelTable in t.installed && NovelColumn(c) !in t.installed
    ensures Step(t, AddColumn(c)).Ok?
    ensures Run(t, stmts, fault, i) ==
              if AtFault(fault, i) then Err(fault.value.message) else Run(Step(t, AddColumn(c)).value, stmts, fault, i + 1)
  {
  }

  /** Distinct columns, none of them present yet, each added in turn with no fault: all are added and defaulted. */
  lemma {:induction false} RunAddColumns(t: Tables, stmts: seq<Statement>, fault: Option<Fault>, i: nat, cols: seq<Column>)
    requires i + |cols| <= |stmts| && stmts[i..i + |cols|] == AddColumns(cols)
    requires NovelTable in t.installed && ColumnSet(cols) !! t.installed
    requires forall j, k :: 0 <= j < k < |cols| ==> cols[j] != cols[k]
    ensures Run(t, stmts, fault, i) ==
              if FaultIn(fault, i, i + |cols|) then Err(fault.value.message)
              else Run(AfterAdds(t, cols), stmts, fault, i + |cols|)
    decreases |cols|
  {
    if cols == [] {
      assert ColumnSet(cols) == {};
      assert t.installed + ColumnSet(cols) == t.installed;
      assert (map n | n in t.novels :: DefaultedAll(t.novels[n], cols)) == t.novels;
      assert AfterAdds(t, cols) == t;
    } else {
      var n := |cols|;
      var c, rest := cols[0], cols[1..];
      assert stmts[i] == stmts[i..i + n][0] == AddColumn(c);
      assert NovelColumn(c) in ColumnSet(cols);
      RunAddColumnStep(t, stmts, fault, i, c);
      var next := Step(t, AddColumn(c)).value;
      assert stmts[i + 1..i + n] == stmts[i..i + n][1..];
      assert AddColumns(cols)[1..] == AddColumns(rest);
      assert c !in rest by {
        forall k | 0 <= k < |rest| ensures rest[k] != c { assert rest[k] == cols[k + 1]; }
      }
      assert ColumnSet(rest) <= ColumnSet(cols);
      RunAddColumns(next, stmts, fault, i + 1, rest);
      AfterAddsCons(t, cols);
    }
  }

  /** A committing run of ALTER TABLEs found the Novel table and none of the columns, and added them all. */
  lemma {:induction false} RunAddColumnsCommitted(t: Tables, stmts: seq<Statement>, fault: Option<Fault>, i: nat, cols: seq<Column>)
    requires i + |cols| <= |stmts| && stmts[i..i + |cols|] == AddColumns(cols)
    requires Run(t, stmts, fault, i).Ok?
    ensures cols != [] ==> NovelTable in t.installed
    ensures ColumnSet(cols) !! t.installed
    ensures Run(AfterAdds(t, cols), stmts, fault, i + |cols|) == Run(t, stmts, fault, i)
    decreases |cols|
  {
    if cols == [] {
      assert ColumnSet(cols) == {};
      assert t.installed + ColumnSet(cols) == t.installed;
      assert (map n | n in t.novels :: DefaultedAll(t.novels[n], cols)) == t.novels;
      assert AfterAdds(t, cols) == t;
    } else {
      var n := |cols|;
      var c, rest := cols[0], cols[1..];
      assert stmts[i] == stmts[i..i + n][0] == AddColumn(c);
      RunOkNext(t, stmts, fault, i);
      var next := Step(t, AddColumn(c)).value;
      assert stmts[i + 1..i + n] == stmts[i..i + n][1..];
      assert AddColumns(cols)[1..] == AddColumns(rest);
      RunAddColumnsCommitted(next, stmts, fault, i + 1, rest);
      AfterAddsCons(t, cols);
    }
  }

  /** One backfill UPDATE of a present column, at position i. */
  lemma RunBackfillStep(t: Tables, stmts: seq<Statement>, fault: Option<Fault>, i: nat, c: Column)
    requires i < |stmts| && stmts[i] == Backfill(c)
    requires NovelTable in t.installed && ChapterTable in t.installed && NovelColumn(c) in t.installed
    ensures Step(t, Backfill(c)) == Ok(t.(novels := map n | n in t.novels :: Backfilled(t.novels[n], c, t.chapters, n)))
    ensures Run(t, stmts, fault, i) ==
              if AtFault(fault, i) then Err(fault.value.message) else Run(Step(t, Backfill(c)).value, stmts, fault, i + 1)
  {
  }

  lemma AfterBackfillsCons(t: Tables, cols: seq<Column>)
    requires cols != []
    ensures AfterBackfills(t.(novels := map n | n in t.novels :: Backfilled(t.novels[n], cols[0], t.chapters, n)), cols[1..])
            == AfterBackfills(t, cols)
  {
    var next := t.(novels := map n | n in t.novels :: Backfilled(t.novels[n], cols[0], t.chapters, n));
    forall n | n in t.novels ensures AfterBackfills(next, cols[1..]).novels[n] == AfterBackfills(t, cols).novels[n] {
      assert next.novels[n] == Backfilled(t.novels[n], cols[0], t.chapters, n);
    }
    assert AfterBackfills(next, cols[1..]).novels == AfterBackfills(t, cols).novels;
  }

  /** Backfills of present columns with no fault: every novel row is refilled column by column. */
  lemma {:induction false} RunBackfills(t: Tables, stmts: seq<Statement>, fault: Option<Fault>, i: nat, cols: seq<Column>)
    requires i + |cols| <= |stmts| && stmts[i..i + |cols|] == Backfills(cols)
    requires NovelTable in t.installed && ChapterTable in t.installed && ColumnSet(cols) <= t.installed
    ensures Run(t, stmts, fault, i) ==
              if FaultIn(fault, i, i + |cols|) then Err(fault.value.message)
              else Run(AfterBackfills(t, cols), stmts, fault, i + |cols|)
    decreases |cols|
  {
    if cols == [] {
      assert (map n | n in t.novels :: BackfilledAll(t.novels[n], cols, t.chapters, n)) == t.novels;
      assert AfterBackfills(t, cols) == t;
    } else {
      var n := |cols|;
      var c, rest := cols[0], cols[1..];
      assert stmts[i] == stmts[i..i + n][0] == Backfill(c);
      assert NovelColumn(c) in ColumnSet(cols);
      RunBackfillStep(t, stmts, fault, i, c);
      var next := Step(t, Backfill(c)).value;
      assert stmts[i + 1..i + n] == stmts[i..i + n][1..];
      assert Backfills(cols)[1..] == Backfills(rest);
      assert ColumnSet(rest) <= ColumnSet(cols);
      RunBackfills(next, stmts, fault, i + 1, rest);
      AfterBackfillsCons(t, cols);
    }
  }

  /** Adding the five columns and then filling them in order gives each novel its migrated row. */
  lemma MigratedByColumns(nv: Novel, cs: seq<Chapter>, n: int)
    ensures BackfilledAll(DefaultedAll(nv, ColumnList), ColumnList, cs, n) == Migrated(nv, cs, n)
  {
    var L := ColumnList;
    assert L[1..] == [ChaptersUnread, TotalChapters, LastReadAt, LastUpdatedAt];
    assert L[1..][1..] == [TotalChapters, LastReadAt, LastUpdatedAt];
    assert L[1..][1..][1..] == [LastReadAt, LastUpdatedAt];
    assert L[1..][1..][1..][1..] == [LastUpdatedAt];
    assert L[1..][1..][1..][1..][1..] == [];
  }

  /**
   * The migration: it succeeds exactly when the Novel and Chapter tables exist, none
   * of the five columns does, and no fault intervenes. It then adds the columns, fills
   * every novel's counters and timestamps from its chapters, installs the Novel
   * triggers and records version 1 -- and does not create the Summaries table or its
   * triggers.
   */
  lemma MigrationV1Outcome(t: Tables, fault: Option<Fault>)
    ensures (NovelTable in t.installed && ChapterTable in t.installed && ColumnObjects !! t.installed
             && !FaultWithin(fault, |MigrationV1|)) ==>
              Run(t, MigrationV1, fault, 0) == Ok(t.(
                installed := t.installed + ColumnObjects + NovelTriggers,
                userVersion := 1,
                novels := map n | n in t.novels :: Migrated(t.novels[n], t.chapters, n)))
  {
    if NovelTable in t.installed && ChapterTable in t.installed && ColumnObjects !! t.installed
       && !FaultWithin(fault, |MigrationV1|) {
      MigrationV1Run(t, fault);
      MigratedNovels(t);
    }
  }

  /** The ALTER TABLEs and backfills together: the five columns are installed and every novel is migrated. */
  lemma MigratedNovels(t: Tables)
    ensures var b := AfterBackfills(AfterAdds(t, ColumnList), ColumnList);
            && b.installed == t.installed + ColumnObjects
            && b.chapters == t.chapters && b.summaries == t.summaries && b.userVersion == t.userVersion
            && b.novels == map n | n in t.novels :: Migrated(t.novels[n], t.chapters, n)
  {
    var b := AfterBackfills(AfterAdds(t, ColumnList), ColumnList);
    var migrated := map n | n in t.novels :: Migrated(t.novels[n], t.chapters, n);
    forall n | n in t.novels ensures b.novels[n] == migrated[n] {
      MigratedByColumns(t.novels[n], t.chapters, n);
    }
    assert b.novels == migrated;
  }

  /** The migration's statements in three runs: the ALTER TABLEs, the backfills, the triggers; then the version. */
  lemma MigrationV1Run(t: Tables, fault: Option<Fault>)
    requires NovelTable in t.installed && ChapterTable in t.installed && ColumnObjects !! t.installed
    requires !FaultWithin(fault, |MigrationV1|)
    ensures var b := AfterBackfills(AfterAdds(t, ColumnList), ColumnList);
            Run(t, MigrationV1, fault, 0) == Ok(b.(installed := b.installed + NovelTriggers, userVersion := 1))
  {
    MigrationV1Parts();
    RunAddColumns(t, MigrationV1, fault, 0, ColumnList);
    var a := AfterAdds(t, ColumnList);
    RunBackfills(a, MigrationV1, fault, 5, ColumnList);
    var b := AfterBackfills(a, ColumnList);
    NovelTriggersNeedNoHost(b.installed);
    RunCreates(b, MigrationV1, fault, 10, NovelTriggerList);
    var c := b.(installed := b.installed + NovelTriggers);
    MigrationV1Last(c, fault);
  }

  /** The last statement of the migration records version 1 and ends the run. */
  lemma MigrationV1Last(t: Tables, fault: Option<Fault>)
    ensures Run(t, MigrationV1, fault, 13) == if AtFault(fault, 13) then Err(fault.value.message) else Ok(t.(userVersion := 1))
  {
    MigrationV1Parts();
    assert Step(t, SetUserVersion(1)) == Ok(t.(userVersion := 1));
  }

  /** The imported Novel triggers name no table this model checks. */
  lemma NovelTriggersNeedNoHost(installed: set<SchemaObject>)
    ensures HostsReady(installed, NovelTriggerList)
  {
    forall k | 0 <= k < |NovelTriggerList| ensures HostTable(NovelTriggerList[k]).None? {
      assert k == 0 || k == 1 || k == 2;
    }
  }

  /** Where each part of the migration sits in its statement list. */
  lemma MigrationV1Parts()
    ensures |MigrationV1| == 14
    ensures MigrationV1[0..5] == AddColumns(ColumnList)
    ensures MigrationV1[5..10] == Backfills(ColumnList)
    ensures MigrationV1[10..13] == Creates(NovelTriggerList)
    ensures MigrationV1[13] == SetUserVersion(1)
    ensures forall j, k :: 0 <= j < k < |ColumnList| ==> ColumnList[j] != ColumnList[k]
  {
    var A, B, C := AddColumns(ColumnList), Backfills(ColumnList), Creates(NovelTriggerList);
    assert MigrationV1 == A + B + C + [SetUserVersion(1)];
    assert MigrationV1[0..5] == A;
    assert MigrationV1[5..10] == B;
    assert MigrationV1[10..13] == C;
  }

  /** The migration is not re-runnable: once a derived column exists, it fails on the first ALTER TABLE. */
  lemma MigrationV1NotRerunnable(t: Tables, fault: Option<Fault>)
    requires NovelTable in t.installed && NovelColumn(ChaptersDownloaded) in t.installed
    requires !FaultWithin(fault, 1)
    ensures Run(t, MigrationV1, fault, 0) == Err("duplicate column name: chaptersDownloaded")
  {
    assert MigrationV1[0] == AddColumn(ChaptersDownloaded);
    assert "duplicate column name: " + ColumnName(ChaptersDownloaded) == "duplicate column name: chaptersDownloaded";
  }

  /**
   * The index rebuild changes no row. It commits exactly when the Novel and Chapter
   * tables exist and no fault intervenes, and then leaves both indexes installed;
   * otherwise the error is the fault's, or "no such table" for the first missing table.
   */
  lemma IndexRebuildOutcome(t: Tables, fault: Option<Fault>)
    ensures Run(t, IndexRebuild, fault, 0).Ok? <==>
              !FaultWithin(fault, |IndexRebuild|) && NovelTable in t.installed && ChapterTable in t.installed
    ensures Run(t, IndexRebuild, fault, 0).Ok? ==>
              Run(t, IndexRebuild, fault, 0).value == t.(installed := t.installed + {NovelIndex, ChapterIndex})
    ensures FaultWithin(fault, 2) ==> Run(t, IndexRebuild, fault, 0) == Err(fault.value.message)
    ensures !FaultWithin(fault, 3) && NovelTable !in t.installed ==>
              Run(t, IndexRebuild, fault, 0) == Err("no such table: main.Novel")
    ensures !FaultWithin(fault, 4) && NovelTable in t.installed && ChapterTable !in t.installed ==>
              Run(t, IndexRebuild, fault, 0) == Err("no such table: main.Chapter")
  {
    var t1 := t.(installed := t.installed - {NovelIndex});
    var t2 := t1.(installed := t1.installed - {ChapterIndex});
    assert Run(t, IndexRebuild, fault, 0) ==
             if AtFault(fault, 0) then Err(fault.value.message) else Run(t1, IndexRebuild, fault, 1);
    assert Run(t1, IndexRebuild, fault, 1) ==
             if AtFault(fault, 1) then Err(fault.value.message) else Run(t2, IndexRebuild, fault, 2);
    IndexRebuildCreates(t2, fault);
    assert t2.installed + {NovelIndex, ChapterIndex} == t.installed + {NovelIndex, ChapterIndex};
  }

  /** The two CREATE INDEX statements of the rebuild, each needing its table. */
  lemma IndexRebuildCreates(t: Tables, fault: Option<Fault>)
    ensures Run(t, IndexRebuild, fault, 2) ==
              if AtFault(fault, 2) then Err(fault.value.message)
              else if NovelTable !in t.installed then Err("no such table: main.Novel")
              else if AtFault(fault, 3) then Err(fault.value.message)
              else if ChapterTable !in t.installed then Err("no such table: main.Chapter")
              else Ok(t.(installed := t.installed + {NovelIndex, ChapterIndex}))
  {
    var t3 := t.(installed := t.installed + {NovelIndex});
    var t4 := t3.(installed := t3.installed + {ChapterIndex});
    assert IndexRebuild[2] == Create(NovelIndex) && IndexRebuild[3] == Create(ChapterIndex) && |IndexRebuild| == 4;
    assert Run(t, IndexRebuild, fault, 2) ==
             if AtFault(fault, 2) then Err(fault.value.message)
             else if NovelTable !in t.installed then Err("no such table: main.Novel")
             else Run(t3, IndexRebuild, fault, 3);
    assert Run(t3, IndexRebuild, fault, 3) ==
             if AtFault(fault, 3) then Err(fault.value.message)
             else if ChapterTable !in t.installed then Err("no such table: main.Chapter")
             else Run(t4, IndexRebuild, fault, 4);
    assert t4.installed == t.installed + {NovelIndex, ChapterIndex};
  }

  /** Running `createTables` a second time, on what the first run committed, changes nothing. */
  lemma CreateTablesIdempotent(t: Tables, onboarded: bool, versionRow: Option<int>)
    requires CreateTablesEffect(t, onboarded, versionRow, None).Ok?
    requires versionRow.None? || versionRow.value == t.userVersion
    ensures var t1 := CreateTablesEffect(t, onboarded, versionRow, None).value;
            CreateTablesEffect(t1, onboarded, Some(t1.userVersion), None) == Ok(t1)
  {
    var t1 := CreateTablesEffect(t, onboarded, versionRow, None).value;
    if !onboarded {
      FreshSchemaOutcome(t, None);
      FreshSchemaOutcome(t1, None);
      assert NovelTable in FreshObjects;
      assert FreshObjects <= t1.installed;
      assert t1.installed + FreshObjects + {} == t1.installed;
      assert t1.(installed := t1.installed, userVersion := 1) == t1;
    } else if versionRow.GetOr(0) < 1 {
      MigrationV1Completes(t, None);
    }
  }

  /** Whenever the migration commits, it has recorded version 1. */
  lemma {:induction false} MigrationV1Completes(t: Tables, fault: Option<Fault>)
    ensures Run(t, MigrationV1, fault, 0).Ok? ==> Run(t, MigrationV1, fault, 0).value.userVersion == 1
  {
    RunEndsWithVersion(t, MigrationV1, fault, 0);
  }

  /** A statement list whose last statement sets the version leaves that version when it commits. */
  lemma {:induction false} RunEndsWithVersion(t: Tables, stmts: seq<Statement>, fault: Option<Fault>, i: nat)
    requires i <= |stmts| && |stmts| > 0 && stmts[|stmts| - 1].SetUserVersion?
    requires forall k :: 0 <= k < |stmts| - 1 ==> !stmts[k].SetUserVersion?
    requires i == |stmts| ==> t.userVersion == stmts[|stmts| - 1].version
    ensures Run(t, stmts, fault, i).Ok? ==> Run(t, stmts, fault, i).value.userVersion == stmts[|stmts| - 1].version
    decreases |stmts| - i
  {
    if i < |stmts| && !AtFault(fault, i) {
      match Step(t, stmts[i])
      case Err(_) =>
      case Ok(next) => RunEndsWithVersion(next, stmts, fault, i + 1);
    }
  }

  // ---------------------------------------------------------------------------
  // The database connection
  // ---------------------------------------------------------------------------

  /** A change to the Chapter table, as the Novel counter triggers see it. */
  datatype ChapterChange = Inserted(row: Chapter) | Updated(before: Chapter, after: Chapter) | Deleted(row: Chapter)

  /**
   * The effect of the Novel counter triggers (createNovelTriggerQuery*), whose bodies
   * are not part of this model: a function of the change and the Novel rows.
   */
  type CounterTriggers = (ChapterChange, map<int, Novel>) -> map<int, Novel>

  class Database {
    var installed: set<SchemaObject>
    var userVersion: int
    var novels: map<int, Novel>
    var chapters: seq<Chapter>
    var summaries: map<int, SummaryRow>
    /** `PRAGMA foreign_keys`: a connection setting, off when a connection opens. */
    var foreignKeysOn: bool

    function Snapshot(): Tables
      reads this
    {
      Tables(installed, userVersion, novels, chapters, summaries)
    }

    ghost predicate Valid()
      reads this
    {
      Consistent(Snapshot())
    }

    /** Open an existing database file holding `t`. */
    constructor Open(t: Tables)
      requires Consistent(t)
      ensures Valid() && Snapshot() == t && !foreignKeysOn
    {
      installed, userVersion, novels, chapters, summaries := t.installed, t.userVersion, t.novels, t.chapters, t.summaries;
      foreignKeysOn := false;
    }

    /** Rollback: put back the tables saved when the transaction began. */
    method Restore(t: Tables)
      modifies this`installed, this`userVersion, this`novels, this`chapters, this`summaries
      ensures Snapshot() == t
    {
      installed, userVersion, novels, chapters, summaries := t.installed, t.userVersion, t.novels, t.chapters, t.summaries;
    }

    /** `db.runSync(statement)`. */
    method RunSync(s: Statement) returns (r: Outcome<string>)
      requires Valid()
      modifies this`installed, this`userVersion, this`novels
      ensures Valid()
      ensures Step(old(Snapshot()), s).Ok? ==> r == Pass && Snapshot() == Step(old(Snapshot()), s).value
      ensures Step(old(Snapshot()), s).Err? ==> r == Fail(Step(old(Snapshot()), s).error) && Snapshot() == old(Snapshot())
    {
      match Step(Snapshot(), s)
      case Ok(next) =>
        installed, userVersion, novels := next.installed, next.userVersion, next.novels;
        r := Pass;
      case Err(m) =>
        r := Fail(m);
    }

    /** `db.withTransactionSync`: run the statements in order; on the first error roll back and rethrow. */
    method WithTransaction(stmts: seq<Statement>, fault: Option<Fault>) returns (r: Outcome<string>)
      requires Valid()
      modifies this`installed, this`userVersion, this`novels, this`chapters, this`summaries
      ensures Valid()
      ensures r.Pass? <==> Run(old(Snapshot()), stmts, fault, 0).Ok?
      ensures r.Pass? ==> Snapshot() == Run(old(Snapshot()), stmts, fault, 0).value
      ensures r.Fail? ==> r.error == Run(old(Snapshot()), stmts, fault, 0).error && Snapshot() == old(Snapshot())
    {
      var saved := Snapshot();
      var i := 0;
      while i < |stmts|
        invariant 0 <= i <= |stmts|
        invariant Valid()
        invariant Run(saved, stmts, fault, 0) == Run(Snapshot(), stmts, fault, i)
      {
        if AtFault(fault, i) {
          Restore(saved);
          return Fail(fault.value.message);
        }
        var step := RunSync(stmts[i]);
        if step.Fail? {
          Restore(saved);
          return step;
        }
        i := i + 1;
      }
      return Pass;
    }

    /**
     * `createTables`: switch foreign keys on, read the version (a missing row counts
     * as 0), then either build the schema from scratch (not onboarded), migrate
     * (onboarded, below version 1) or do nothing. A failure propagates to the caller
     * after its transaction has been rolled back.
     */
    method CreateTables(onboarded: bool, versionRow: Option<int>, fault: Option<Fault>) returns (r: Outcome<string>)
      requires Valid()
      // `PRAGMA user_version` reads the stored version; `versionRow` is None where no row comes back
      requires versionRow.None? || versionRow.value == userVersion
      modifies this
      ensures Valid() && foreignKeysOn
      ensures r.Pass? <==> CreateTablesEffect(old(Snapshot()), onboarded, versionRow, fault).Ok?
      ensures r.Pass? ==> Snapshot() == CreateTablesEffect(old(Snapshot()), onboarded, versionRow, fault).value
      ensures r.Fail? ==> Snapshot() == old(Snapshot())
      // first run: the whole schema, Summaries and its two triggers included, at version 1
      ensures !onboarded && !FaultWithin(fault, |FreshSchema|) ==>
                r.Pass? && userVersion == 1 && FreshObjects <= installed
                && novels == old(novels) && chapters == old(chapters) && summaries == old(summaries)
      // onboarded at version 1 or later: nothing changes
      ensures onboarded && versionRow.GetOr(0) >= 1 ==> r.Pass? && Snapshot() == old(Snapshot())
      // onboarded below version 1: the migration decides
      ensures onboarded && versionRow.GetOr(0) < 1 && r.Pass? ==>
                userVersion == 1 && chapters == old(chapters) && summaries == old(summaries)
                && (SummariesTable in installed <==> SummariesTable in old(installed))
                && forall n :: n in old(novels) ==> n in novels && novels[n] == Migrated(old(novels)[n], chapters, n)
    {
      foreignKeysOn := true;
      var version := versionRow.GetOr(0);
      ghost var before := Snapshot();
      if !onboarded {
        r := WithTransaction(FreshSchema, fault);
        FreshSchemaOutcome(before, fault);
      } else if version < 1 {
        r := UpdateToDBVersion1(fault);
      } else {
        r := Pass;
      }
    }

    /** `updateToDBVersion1`: the five columns, their backfill, the Novel triggers and version 1, in one transaction. */
    method UpdateToDBVersion1(fault: Option<Fault>) returns (r: Outcome<string>)
      requires Valid()
      modifies this`installed, this`userVersion, this`novels, this`chapters, this`summaries
      ensures Valid()
      ensures r.Pass? <==> Run(old(Snapshot()), MigrationV1, fault, 0).Ok?
      ensures r.Pass? ==> Snapshot() == Run(old(Snapshot()), MigrationV1, fault, 0).value
      ensures r.Fail? ==> Snapshot() == old(Snapshot())
      ensures r.Pass? ==>
                userVersion == 1 && chapters == old(chapters) && summaries == old(summaries)
                && installed == old(installed) + ColumnObjects + NovelTriggers
                && forall n :: n in old(novels) ==> n in novels && novels[n] == Migrated(old(novels)[n], chapters, n)
      ensures (NovelTable in old(installed) && ChapterTable in old(installed) && ColumnObjects !! old(installed)
               && !FaultWithin(fault, |MigrationV1|)) ==> r.Pass?
    {
      ghost var before := Snapshot();
      r := WithTransaction(MigrationV1, fault);
      MigrationV1Outcome(before, fault);
      if r.Pass? {
        MigrationV1Succeeds(before, fault);
      }
    }

    /**
     * `recreateDBIndex`: drop and recreate the Novel and Chapter indexes in one
     * transaction. It never throws: a failure becomes the toast message it returns.
     */
    method RecreateDBIndex(fault: Option<Fault>) returns (toast: Option<string>)
      requires Valid()
      modifies this
      ensures Valid() && foreignKeysOn
      ensures novels == old(novels) && chapters == old(chapters) && summaries == old(summaries)
      ensures userVersion == old(userVersion)
      ensures toast.None? <==>
                !FaultWithin(fault, |IndexRebuild|) && NovelTable in old(installed) && ChapterTable in old(installed)
      ensures toast.None? ==> installed == old(installed) + {NovelIndex, ChapterIndex}
      ensures toast.Some? ==> installed == old(installed)
      ensures toast.Some? ==> toast.value == Run(old(Snapshot()), IndexRebuild, fault, 0).error
      ensures FaultWithin(fault, 2) ==> toast == Some(fault.value.message)
      ensures !FaultWithin(fault, 3) && NovelTable !in old(installed) ==> toast == Some("no such table: main.Novel")
    {
      foreignKeysOn := true;
      ghost var before := Snapshot();
      IndexRebuildOutcome(before, fault);
      var r := WithTransaction(IndexRebuild, fault);
      if r.Fail? {
        toast := Some(r.error);
      } else {
        toast := None;
      }
    }

    /**
     * `INSERT INTO Chapter`. With the summary insert trigger installed, any summary
     * stored under the new id goes; the Novel insert trigger updates the counters.
     */
    method InsertChapter(c: Chapter, counters: CounterTriggers) returns (r: Outcome<string>)
      requires Valid()
      modifies this`chapters, this`summaries, this`novels
      ensures Valid()
      ensures ChapterTable !in installed ==> r == Fail("no such table: Chapter")
      ensures ChapterTable in installed && c.id in IdsOf(old(chapters)) ==> r == Fail("UNIQUE constraint failed: Chapter.id")
      ensures r.Pass? <==> ChapterTable in installed && c.id !in IdsOf(old(chapters))
      ensures r.Fail? ==> Snapshot() == old(Snapshot())
      ensures r.Pass? ==> chapters == old(chapters) + [c]
      ensures r.Pass? ==> summaries == if SummaryInsertTrigger in installed then old(summaries) - {c.id} else old(summaries)
      ensures r.Pass? ==> novels == if NovelInsertTrigger in installed then counters(Inserted(c), old(novels)) else old(novels)
    {
      if ChapterTable !in installed {
        return Fail("no such table: Chapter");
      }
      if FindChapter(chapters, c.id).Some? {
        return Fail("UNIQUE constraint failed: Chapter.id");
      }
      AppendChapter(chapters, c);
      chapters := chapters + [c];
      if SummaryInsertTrigger in installed {
        summaries := summaries - {c.id};
      }
      if NovelInsertTrigger in installed {
        novels := counters(Inserted(c), novels);
      }
      r := Pass;
    }

    /**
     * `UPDATE Chapter ... WHERE id = c.id`. When the row exists, the summary update
     * trigger removes that chapter's summary; no row, no trigger.
     */
    method UpdateChapter(c: Chapter, counters: CounterTriggers) returns (r: Outcome<string>)
      requires Valid()
      modifies this`chapters, this`summaries, this`novels
      ensures Valid()
      ensures r == (if ChapterTable in installed then Pass else Fail("no such table: Chapter"))
      ensures r.Fail? || c.id !in IdsOf(old(chapters)) ==> Snapshot() == old(Snapshot())
      ensures r.Pass? && c.id in IdsOf(old(chapters)) ==>
                && chapters == ReplaceChapter(old(chapters), c)
                && summaries == (if SummaryUpdateTrigger in installed then old(summaries) - {c.id} else old(summaries))
                && novels == (if NovelUpdateTrigger in installed
                              then counters(Updated(FindChapter(old(chapters), c.id).value, c), old(novels))
                              else old(novels))
    {
      if ChapterTable !in installed {
        return Fail("no such table: Chapter");
      }
      var before := FindChapter(chapters, c.id);
      if before.Some? {
        chapters := ReplaceChapter(chapters, c);
        if SummaryUpdateTrigger in installed {
          summaries := summaries - {c.id};
        }
        if NovelUpdateTrigger in installed {
          novels := counters(Updated(before.value, c), novels);
        }
      }
      r := Pass;
    }

    /**
     * `DELETE FROM Chapter WHERE id = id`. With foreign keys on, the Summaries foreign
     * key's ON DELETE CASCADE removes that chapter's summary.
     */
    method DeleteChapter(id: int, counters: CounterTriggers) returns (r: Outcome<string>)
      requires Valid()
      modifies this`chapters, this`summaries, this`novels
      ensures Valid()
      ensures r == (if ChapterTable in installed then Pass else Fail("no such table: Chapter"))
      ensures r.Fail? || id !in IdsOf(old(chapters)) ==> Snapshot() == old(Snapshot())
      ensures r.Pass? && id in IdsOf(old(chapters)) ==>
                && chapters == RemoveChapter(old(chapters), id)
                && summaries == (if foreignKeysOn then old(summaries) - {id} else old(summaries))
                && novels == (if NovelDeleteTrigger in installed
                              then counters(Deleted(FindChapter(old(chapters), id).value), old(novels))
                              else old(novels))
    {
      if ChapterTable !in installed {
        return Fail("no such table: Chapter");
      }
      var row := FindChapter(chapters, id);
      if row.Some? {
        chapters := RemoveChapter(chapters, id);
        if foreignKeysOn {
          summaries := summaries - {id};
        }
        if NovelDeleteTrigger in installed {
          novels := counters(Deleted(row.value), novels);
        }
      }
      r := Pass;
    }
  }

  /** The migration can only commit from a store that has both tables and none of the five columns. */
  lemma MigrationV1Succeeds(t: Tables, fault: Option<Fault>)
    requires Run(t, MigrationV1, fault, 0).Ok?
    ensures NovelTable in t.installed && ChapterTable in t.installed && ColumnObjects !! t.installed
    ensures !FaultWithin(fault, |MigrationV1|)
  {
    MigrationV1Parts();
    CommitMeansNoFault(t, MigrationV1, fault, 0);
    RunAddColumnsCommitted(t, MigrationV1, fault, 0, ColumnList);
    var a := AfterAdds(t, ColumnList);
    RunOkNext(a, MigrationV1, fault, 5);
    assert MigrationV1[5] == Backfill(ChaptersDownloaded);
  }
}
