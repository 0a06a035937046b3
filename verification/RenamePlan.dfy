/** The planner that moves bare table names to qualified ones (schematools/qualify_migration.go),
    and the catalog its statements run on. */
module RenamePlan {
  import opened Wrappers

  datatype Kind = Table | Index | Sequence | ForeignKey

  /** One catalog object; table is the owner's name, "" for tables. */
  datatype Entry = Entry(kind: Kind, name: string, table: string)

  type Catalog = seq<Entry>

  /** What the planner reads of a loaded model. The unique keys and indexes are listed in the
      order the map ranges gave them, which may be any. */
  datatype Model = Model(short: Option<string>, table: Option<string>, service: Option<string>, history: bool,
                         uniqueKeys: seq<string>, indexes: seq<string>)

  datatype Statement =
    | RenameTable(was: string, becomes: string)
    | RenameIndex(was: string, becomes: string)
    | RenameSequence(was: string, becomes: string)
    | RenameConstraint(table: string, was: string, becomes: string)
    | WidenDiffType
    | WidenBatchTableName
    | UpdateDiffType(table: string, short: string)
    | UpdateBatchTable(table: string, service: string, short: string)

  datatype Skip = BothExist(short: string, table: string) | NameTaken(table: string, was: string, target: string)

  datatype Plan = Plan(statements: seq<Statement>, renamed: seq<(string, string)>, skipped: seq<Skip>)

  /** The planner's variables. A name once known stays in exists, even after its rename. */
  datatype Progress = Progress(known: set<(Kind, string)>, ddl: seq<Statement>, renamed: seq<(string, string)>, skipped: seq<Skip>)

  const HISTORY := "_history"
  const DIFFS := "ohc_diffs"
  const BATCHES := "ohc_batch_numbers"

  // ---- The planner as functions ----

  function TrimPrefix(s: string, prefix: string): string {
    if prefix <= s then s[|prefix|..] else s
  }

  function BeforeUnderscore(s: string): string {
    if s == [] || s[0] == '_' then [] else [s[0]] + BeforeUnderscore(s[1..])
  }

  function Known(catalog: Catalog): set<(Kind, string)> {
    set e | e in catalog :: (e.kind, e.name)
  }

  function Owned(catalog: Catalog, table: string): seq<Entry> {
    if catalog == [] then []
    else
      var e := catalog[|catalog| - 1];
      Owned(catalog[..|catalog| - 1], table) + if e.table != "" && e.table == table then [e] else []
  }

  /** The names a model's unique keys and indexes had before the service prefix. */
  function YamlNames(names: seq<string>, service: string): map<string, string> {
    if names == [] then map[]
    else
      var name := names[|names| - 1];
      YamlNames(names[..|names| - 1], service)[TrimPrefix(name, service + "_") := name]
  }

  predicate Taken(known: set<(Kind, string)>, name: string) {
    (Table, name) in known || (Index, name) in known || (Sequence, name) in known
  }

  /** A model's own names, and one of its tables being renamed. */
  datatype Job = Job(short: string, table: string, was: string, becomes: string, yaml: map<string, string>)

  /** The name an index or sequence should get, "" for none. */
  function Target(e: Entry, j: Job): string {
    if e.kind == Index && e.name in j.yaml then j.yaml[e.name]
    else if e.kind.Index? || e.kind.Sequence? then
      if j.was + "_" <= e.name then j.becomes + "_" + e.name[|j.was| + 1..] else ""
    else ""
  }

  function RenameOf(e: Entry, becomes: string): Statement {
    match e.kind
    case Table => RenameTable(e.name, becomes)
    case Index => RenameIndex(e.name, becomes)
    case Sequence => RenameSequence(e.name, becomes)
    case ForeignKey => RenameConstraint(e.table, e.name, becomes)
  }

  function KnownWith(known: set<(Kind, string)>, e: Entry, becomes: string): set<(Kind, string)> {
    if e.kind == ForeignKey then known else known + {(e.kind, becomes)}
  }

  function PlanOne(e: Entry, j: Job, p: Progress): Progress {
    var prefix := "fk_" + j.short + "_history_";
    if e.kind == ForeignKey then
      if prefix <= e.name && j.was == j.short + HISTORY
      then p.(ddl := p.ddl + [RenameOf(e.(table := j.becomes), "fk_" + j.table + "_history_" + e.name[|prefix|..])])
      else p
    else
      var target := Target(e, j);
      if target == "" || target == e.name then p
      else if Taken(p.known, target) then p.(skipped := p.skipped + [NameTaken(j.table, e.name, target)])
      else p.(ddl := p.ddl + [RenameOf(e, target)], known := KnownWith(p.known, e, target))
  }

  function PlanOwned(owned: seq<Entry>, j: Job, p: Progress): Progress {
    if owned == [] then p else PlanOne(owned[|owned| - 1], j, PlanOwned(owned[..|owned| - 1], j, p))
  }

  function PlanTable(catalog: Catalog, j: Job, p: Progress): Progress {
    PlanOwned(Owned(catalog, j.was), j, p.(ddl := p.ddl + [RenameTable(j.was, j.becomes)], known := p.known + {(Table, j.becomes)}))
  }

  function TablesOf(catalog: Catalog, tables: seq<(string, string)>, short: string, table: string, yaml: map<string, string>, p: Progress): Progress {
    if tables == [] then p
    else
      var (was, becomes) := tables[|tables| - 1];
      PlanTable(catalog, Job(short, table, was, becomes, yaml), TablesOf(catalog, tables[..|tables| - 1], short, table, yaml, p))
  }

  /** A model that has a qualified name other than its bare one. */
  predicate Considered(m: Model) {
    m.short.Some? && m.table.Some? && m.service.Some? && m.short.value != m.table.value
  }

  function Yaml(m: Model): map<string, string>
    requires Considered(m)
  {
    YamlNames(m.uniqueKeys + m.indexes, m.service.value)
  }

  /** The model's table, and its history table if it is tracked and there. */
  function TablesToRename(m: Model, known: set<(Kind, string)>): seq<(string, string)>
    requires Considered(m)
  {
    var (short, table) := (m.short.value, m.table.value);
    if m.history && (Table, short + HISTORY) in known
    then [(short, table), (short + HISTORY, table + HISTORY)]
    else [(short, table)]
  }

  function PlanModel(catalog: Catalog, m: Model, p: Progress): Progress {
    if !Considered(m) || (Table, m.short.value) !in p.known then p
    else
      var short, table := m.short.value, m.table.value;
      if (Table, table) in p.known then p.(skipped := p.skipped + [BothExist(short, table)])
      else
        var p' := TablesOf(catalog, TablesToRename(m, p.known), short, table, Yaml(m), p);
        p'.(renamed := p'.renamed + [(short, table)])
  }

  function PlanAll(catalog: Catalog, loaded: seq<Model>): Progress {
    if loaded == [] then Progress(Known(catalog), [], [], [])
    else PlanModel(catalog, loaded[|loaded| - 1], PlanAll(catalog, loaded[..|loaded| - 1]))
  }

  /** The updates of the rows that hold a renamed table's name. */
  function FixUps(known: set<(Kind, string)>, renamed: seq<(string, string)>): seq<Statement> {
    if renamed == [] then IfKnown(known, WidenDiffType, WidenBatchTableName)
    else
      var (short, table) := renamed[|renamed| - 1];
      FixUps(known, renamed[..|renamed| - 1])
      + IfKnown(known, UpdateDiffType(table, short), UpdateBatchTable(table, BeforeUnderscore(table), short))
  }

  /** The statements for the two tables that hold table names, those that are there. */
  function IfKnown(known: set<(Kind, string)>, forDiffs: Statement, forBatches: Statement): seq<Statement> {
    (if (Table, DIFFS) in known then [forDiffs] else []) + (if (Table, BATCHES) in known then [forBatches] else [])
  }

  function PlanOf(catalog: Catalog, loaded: seq<Model>): Plan {
    var p := PlanAll(catalog, loaded);
    Plan(p.ddl + (if p.renamed == [] then [] else FixUps(p.known, p.renamed)), p.renamed, p.skipped)
  }

  // ---- The planner as its loops ----

  method PlanOwnedEntries(owned: seq<Entry>, j: Job, p: Progress) returns (r: Progress)
    ensures r == PlanOwned(owned, j, p)
  {
    r := p;
    var i := 0;
    while i < |owned|
      invariant 0 <= i <= |owned|
      invariant r == PlanOwned(owned[..i], j, p)
    {
      assert owned[..i + 1][..i] == owned[..i];
      r := PlanOne(owned[i], j, r);
      i := i + 1;
    }
    assert owned[..i] == owned;
  }

  method YamlIndex(m: Model) returns (yaml: map<string, string>)
    requires Considered(m)
    ensures yaml == Yaml(m)
  {
    yaml := map[];
    var names, i := m.uniqueKeys + m.indexes, 0;
    while i < |names|
      invariant 0 <= i <= |names|
      invariant yaml == YamlNames(names[..i], m.service.value)
    {
      assert names[..i + 1][..i] == names[..i];
      yaml := yaml[TrimPrefix(names[i], m.service.value + "_") := names[i]];
      i := i + 1;
    }
    assert names[..i] == names;
  }

  method ReadCatalog(catalog: Catalog) returns (known: set<(Kind, string)>, owned: map<string, seq<Entry>>)
    ensures known == Known(catalog)
    ensures Groups(owned, catalog)
  {
    known, owned := {}, map[];
    var i := 0;
    while i < |catalog|
      invariant 0 <= i <= |catalog|
      invariant known == Known(catalog[..i])
      invariant Groups(owned, catalog[..i])
    {
      var e := catalog[i];
      assert catalog[..i + 1] == catalog[..i] + [e];
      KnownGrows(catalog[..i], e);
      GroupsGrow(owned, catalog[..i], e);
      known := known + {(e.kind, e.name)};
      if e.table != "" {
        owned := owned[e.table := OwnedIn(owned, e.table) + [e]];
      }
      i := i + 1;
    }
    assert catalog[..i] == catalog;
  }

  function OwnedIn(owned: map<string, seq<Entry>>, table: string): seq<Entry> {
    if table in owned then owned[table] else []
  }

  ghost predicate Groups(owned: map<string, seq<Entry>>, catalog: Catalog) {
    forall t :: OwnedIn(owned, t) == Owned(catalog, t)
  }

  lemma KnownGrows(catalog: Catalog, e: Entry)
    ensures Known(catalog + [e]) == Known(catalog) + {(e.kind, e.name)}
  {
  }

  lemma GroupsGrow(before: map<string, seq<Entry>>, catalog: Catalog, e: Entry)
    requires Groups(before, catalog)
    ensures Groups(if e.table != "" then before[e.table := OwnedIn(before, e.table) + [e]] else before, catalog + [e])
  {
    var after := if e.table != "" then before[e.table := OwnedIn(before, e.table) + [e]] else before;
    assert (catalog + [e])[..|catalog|] == catalog;
    forall t ensures OwnedIn(after, t) == Owned(catalog + [e], t) {
      assert OwnedIn(before, t) == Owned(catalog, t);
    }
  }

  /** The loop over a model's table and, if tracked, its history table. */
  method PlanTables(tables: seq<(string, string)>, short: string, table: string, yaml: map<string, string>,
                    owned: map<string, seq<Entry>>, ghost catalog: Catalog, p: Progress) returns (r: Progress)
    requires Groups(owned, catalog)
    ensures r == TablesOf(catalog, tables, short, table, yaml, p)
  {
    r := p;
    var k := 0;
    while k < |tables|
      invariant 0 <= k <= |tables|
      invariant r == TablesOf(catalog, tables[..k], short, table, yaml, p)
    {
      assert tables[..k + 1][..k] == tables[..k];
      var (was, becomes) := tables[k];
      r := r.(ddl := r.ddl + [RenameTable(was, becomes)], known := r.known + {(Table, becomes)});
      assert OwnedIn(owned, was) == Owned(catalog, was);
      r := PlanOwnedEntries(OwnedIn(owned, was), Job(short, table, was, becomes, yaml), r);
      k := k + 1;
    }
    assert tables[..k] == tables;
  }

  method DataFixUps(known: set<(Kind, string)>, renamed: seq<(string, string)>) returns (updates: seq<Statement>)
    ensures updates == FixUps(known, renamed)
  {
    updates := [];
    if (Table, DIFFS) in known {
      updates := updates + [WidenDiffType];
    }
    if (Table, BATCHES) in known {
      updates := updates + [WidenBatchTableName];
    }
    var k := 0;
    while k < |renamed|
      invariant 0 <= k <= |renamed|
      invariant updates == FixUps(known, renamed[..k])
    {
      assert renamed[..k + 1][..k] == renamed[..k];
      var (short, table) := renamed[k];
      ghost var before := updates;
      if (Table, DIFFS) in known {
        updates := updates + [UpdateDiffType(table, short)];
      }
      if (Table, BATCHES) in known {
        updates := updates + [UpdateBatchTable(table, BeforeUnderscore(table), short)];
      }
      assert updates == before + IfKnown(known, UpdateDiffType(table, short), UpdateBatchTable(table, BeforeUnderscore(table), short));
      k := k + 1;
    }
    assert renamed[..k] == renamed;
  }

  method PlanQualifiedRenames(catalog: Catalog, loaded: seq<Model>) returns (plan: Plan)
    ensures plan == PlanOf(catalog, loaded)
  {
    var known, owned := ReadCatalog(catalog);
    var p, i := Progress(known, [], [], []), 0;
    while i < |loaded|
      invariant 0 <= i <= |loaded|
      invariant p == PlanAll(catalog, loaded[..i])
    {
      var m := loaded[i];
      assert PlanAll(catalog, loaded[..i + 1]) == PlanModel(catalog, m, p) by {
        assert loaded[..i + 1][..i] == loaded[..i];
      }
      i := i + 1;
      if !Considered(m) || (Table, m.short.value) !in p.known {
        continue;
      }
      var short, table := m.short.value, m.table.value;
      if (Table, table) in p.known {
        p := p.(skipped := p.skipped + [BothExist(short, table)]);
        continue;
      }
      var yaml := YamlIndex(m);
      var tables := [(short, table)];
      if m.history && (Table, short + HISTORY) in p.known {
        tables := tables + [(short + HISTORY, table + HISTORY)];
      }
      assert tables == TablesToRename(m, p.known);
      p := PlanTables(tables, short, table, yaml, owned, catalog, p);
      p := p.(renamed := p.renamed + [(short, table)]);
    }
    assert loaded[..i] == loaded;
    plan := Plan(p.ddl, p.renamed, p.skipped);
    if |p.renamed| == 0 {
      return;
    }
    var updates := DataFixUps(p.known, p.renamed);
    plan := plan.(statements := p.ddl + updates);
  }

  // ---- What the statements do to a catalog ----

  predicate Relation(k: Kind) {
    !k.ForeignKey?
  }

  /** What one statement makes of one object. */
  function Move(e: Entry, s: Statement): (r: Entry)
    ensures r.kind == e.kind
  {
    match s
    case RenameTable(was, becomes) =>
      if e.kind == Table then (if e.name == was then e.(name := becomes) else e)
      else if e.table == was then e.(table := becomes) else e
    case RenameIndex(was, becomes) => if e.kind == Index && e.name == was then e.(name := becomes) else e
    case RenameSequence(was, becomes) => if e.kind == Sequence && e.name == was then e.(name := becomes) else e
    case RenameConstraint(table, was, becomes) =>
      if e.kind == ForeignKey && e.table == table && e.name == was then e.(name := becomes) else e
    case _ => e
  }

  function Exec(catalog: Catalog, s: Statement): (r: Catalog)
    ensures |r| == |catalog| && forall i :: 0 <= i < |r| ==> r[i] == Move(catalog[i], s)
  {
    seq(|catalog|, i requires 0 <= i < |catalog| => Move(catalog[i], s))
  }

  /** Running statements changes names only: the objects stay, in number and kind. */
  function ExecAll(catalog: Catalog, ss: seq<Statement>): (r: Catalog)
    ensures |r| == |catalog| && forall i :: 0 <= i < |r| ==> r[i].kind == catalog[i].kind
    decreases |ss|
  {
    if ss == [] then catalog else Exec(ExecAll(catalog, ss[..|ss| - 1]), ss[|ss| - 1])
  }

  predicate HasTable(catalog: Catalog, name: string) {
    Entry(Table, name, "") in catalog
  }

  predicate InUse(catalog: Catalog, name: string) {
    exists e :: e in catalog && Relation(e.kind) && e.name == name
  }

  /** What the statement renames is there. */
  predicate SourcePresent(catalog: Catalog, s: Statement) {
    match s
    case RenameTable(was, _) => HasTable(catalog, was)
    case RenameIndex(was, _) => exists e :: e in catalog && e.kind == Index && e.name == was
    case RenameSequence(was, _) => exists e :: e in catalog && e.kind == Sequence && e.name == was
    case RenameConstraint(table, was, _) => Entry(ForeignKey, was, table) in catalog
    case WidenDiffType => HasTable(catalog, DIFFS)
    case UpdateDiffType(_, _) => HasTable(catalog, DIFFS)
    case WidenBatchTableName => HasTable(catalog, BATCHES)
    case UpdateBatchTable(_, _, _) => HasTable(catalog, BATCHES)
  }

  predicate TargetFree(catalog: Catalog, s: Statement) {
    match s
    case RenameTable(_, becomes) => !InUse(catalog, becomes)
    case RenameIndex(_, becomes) => !InUse(catalog, becomes)
    case RenameSequence(_, becomes) => !InUse(catalog, becomes)
    case RenameConstraint(table, _, becomes) => Entry(ForeignKey, becomes, table) !in catalog
    case _ => true
  }

  predicate Possible(catalog: Catalog, s: Statement) {
    SourcePresent(catalog, s) && TargetFree(catalog, s)
  }

  /** Every statement works when its turn comes. */
  predicate Succeeds(catalog: Catalog, ss: seq<Statement>)
    decreases |ss|
  {
    ss == [] || (Succeeds(catalog, ss[..|ss| - 1]) && Possible(ExecAll(catalog, ss[..|ss| - 1]), ss[|ss| - 1]))
  }

  /** Two objects the database cannot hold together. */
  predicate Clash(a: Entry, b: Entry) {
    || (Relation(a.kind) && Relation(b.kind) && a.name == b.name)
    || (a.kind == ForeignKey && b.kind == ForeignKey && a.table == b.table && a.name == b.name)
  }

  ghost predicate Distinct(catalog: Catalog) {
    forall i, j :: 0 <= i < j < |catalog| ==> !Clash(catalog[i], catalog[j])
  }

  /** What a database guarantees of its catalog. */
  ghost predicate WellFormed(catalog: Catalog) {
    && Distinct(catalog)
    && (forall e :: e in catalog && e.kind == Table ==> e.table == "" && e.name != "")
    && (forall e :: e in catalog && e.kind != Table && e.table != "" ==> HasTable(catalog, e.table))
  }

  lemma Kept(catalog: Catalog, s: Statement, e: Entry)
    requires e in catalog
    ensures Move(e, s) in Exec(catalog, s)
  {
    var i :| 0 <= i < |catalog| && catalog[i] == e;
    assert Exec(catalog, s)[i] == Move(e, s);
  }

  lemma Source(catalog: Catalog, s: Statement, e: Entry)
    requires e in Exec(catalog, s)
    ensures exists b :: b in catalog && Move(b, s) == e
  {
    var i :| 0 <= i < |catalog| && Exec(catalog, s)[i] == e;
    assert catalog[i] in catalog && Move(catalog[i], s) == e;
  }

  /** In a well-formed catalog the name tells the relation. */
  lemma OneRelation(catalog: Catalog, a: Entry, b: Entry)
    requires Distinct(catalog) && a in catalog && b in catalog && Clash(a, b)
    ensures a == b
  {
    var i :| 0 <= i < |catalog| && catalog[i] == a;
    var j :| 0 <= j < |catalog| && catalog[j] == b;
    assert Clash(catalog[i], catalog[j]) && Clash(catalog[j], catalog[i]);
  }

  lemma MovedApart(catalog: Catalog, s: Statement, i: nat, j: nat)
    requires WellFormed(catalog) && Possible(catalog, s) && i < j < |catalog|
    requires s.RenameTable? ==> s.was != "" && s.becomes != ""
    ensures !Clash(Move(catalog[i], s), Move(catalog[j], s))
  {
    var a, b := catalog[i], catalog[j];
    assert a in catalog && b in catalog && !Clash(a, b);
    if s.RenameTable? || s.RenameIndex? || s.RenameSequence? {
      assert forall e :: e in catalog && Relation(e.kind) ==> e.name != s.becomes by { assert !InUse(catalog, s.becomes); }
    }
    if s.RenameTable? {
      assert !HasTable(catalog, s.becomes);
      assert a.kind != Table && a.table != "" ==> HasTable(catalog, a.table);
      assert b.kind != Table && b.table != "" ==> HasTable(catalog, b.table);
    }
  }

  lemma ExecWellFormed(catalog: Catalog, s: Statement)
    requires WellFormed(catalog) && Possible(catalog, s)
    requires s.RenameTable? ==> s.was != "" && s.becomes != ""
    ensures WellFormed(Exec(catalog, s))
  {
    var r := Exec(catalog, s);
    forall i, j | 0 <= i < j < |r| ensures !Clash(r[i], r[j]) {
      MovedApart(catalog, s, i, j);
    }
    forall e | e in r
      ensures e.kind == Table ==> e.table == "" && e.name != ""
      ensures e.kind != Table && e.table != "" ==> HasTable(r, e.table)
    {
      Source(catalog, s, e);
      var b :| b in catalog && Move(b, s) == e;
      if b.kind != Table && b.table != "" {
        Kept(catalog, s, Entry(Table, b.table, ""));
      }
    }
  }

  // ---- Names, told from the statements alone ----

  /** The statement renames a relation of this kind and name. */
  predicate Takes(s: Statement, k: Kind, name: string) {
    match s
    case RenameTable(was, _) => k == Table && name == was
    case RenameIndex(was, _) => k == Index && name == was
    case RenameSequence(was, _) => k == Sequence && name == was
    case _ => false
  }

  /** The statement renames a relation of this kind to this name. */
  predicate Gives(s: Statement, k: Kind, name: string) {
    match s
    case RenameTable(_, becomes) => k == Table && name == becomes
    case RenameIndex(_, becomes) => k == Index && name == becomes
    case RenameSequence(_, becomes) => k == Sequence && name == becomes
    case _ => false
  }

  predicate TakenIn(ss: seq<Statement>, k: Kind, name: string) {
    exists s :: s in ss && Takes(s, k, name)
  }

  predicate GivenIn(ss: seq<Statement>, k: Kind, name: string) {
    exists s :: s in ss && Gives(s, k, name)
  }

  /** A relation has the name after the statements: one had it and they do not rename it, or
      they give it. */
  predicate Stands(catalog: Catalog, ss: seq<Statement>, k: Kind, name: string) {
    ((k, name) in Known(catalog) && !TakenIn(ss, k, name)) || GivenIn(ss, k, name)
  }

  predicate KeyTaken(ss: seq<Statement>, table: string, name: string) {
    exists s :: s in ss && s.RenameConstraint? && s.table == table && s.was == name
  }

  predicate KeyGiven(ss: seq<Statement>, table: string, name: string) {
    exists s :: s in ss && s.RenameConstraint? && s.table == table && s.becomes == name
  }

  /** The same for a foreign key of a table renamed from was. */
  predicate KeyStands(catalog: Catalog, ss: seq<Statement>, was: string, table: string, name: string) {
    (Entry(ForeignKey, name, was) in catalog && !KeyTaken(ss, table, name)) || KeyGiven(ss, table, name)
  }

  predicate EndsIn(s: string, tail: string) {
    |s| >= |tail| && s[|s| - |tail|..] == tail
  }

  /** The names the planner does not check are free: a table's among indexes and sequences, a
      history table's among tables too, and a foreign key's among its table's. It is told from
      the catalog before the migration and the statements planned earlier. */
  predicate Clear(catalog: Catalog, before: seq<Statement>, s: Statement) {
    match s
    case RenameTable(was, becomes) =>
      && !Stands(catalog, before, Index, becomes) && !Stands(catalog, before, Sequence, becomes)
      && (EndsIn(was, HISTORY) && EndsIn(becomes, HISTORY) ==> !HasTable(catalog, becomes))
    case RenameConstraint(table, _, becomes) =>
      forall t :: t in before && t.RenameTable? && t.becomes == table ==> !KeyStands(catalog, before, t.was, table, becomes)
    case _ => true
  }

  predicate ClearAt(catalog: Catalog, ss: seq<Statement>, k: nat)
    requires k < |ss|
  {
    Clear(catalog, ss[..k], ss[k])
  }

  // ---- What the planner makes sure of ----

  /** No statement so far is about a table of this name. */
  ghost predicate Unnamed(ss: seq<Statement>, table: string) {
    forall s :: s in ss ==> !Takes(s, Table, table) && !Gives(s, Table, table) && (s.RenameConstraint? ==> s.table != table)
  }

  /** What holds of each planned statement and those before it: it renames an original object
      that was not renamed before, and an index or sequence to a name that no relation had or
      was given. */
  ghost predicate Fits(catalog: Catalog, before: seq<Statement>, s: Statement) {
    match s
    case RenameTable(was, becomes) =>
      && HasTable(catalog, was) && was != becomes && becomes != "" && Unnamed(before, was) && Unnamed(before, becomes)
      && (HasTable(catalog, becomes) ==> EndsIn(was, HISTORY) && EndsIn(becomes, HISTORY))
    case RenameIndex(was, becomes) => FitsObject(catalog, before, Index, was, becomes)
    case RenameSequence(was, becomes) => FitsObject(catalog, before, Sequence, was, becomes)
    case RenameConstraint(table, was, _) =>
      && (exists t :: t in before && t.RenameTable? && t.becomes == table && Entry(ForeignKey, was, t.was) in catalog)
      && !KeyTaken(before, table, was)
    case WidenDiffType => Stands(catalog, before, Table, DIFFS)
    case UpdateDiffType(_, _) => Stands(catalog, before, Table, DIFFS)
    case WidenBatchTableName => Stands(catalog, before, Table, BATCHES)
    case UpdateBatchTable(_, _, _) => Stands(catalog, before, Table, BATCHES)
  }

  ghost predicate FitsObject(catalog: Catalog, before: seq<Statement>, k: Kind, was: string, becomes: string) {
    && (k, was) in Known(catalog) && !TakenIn(before, k, was) && !GivenIn(before, k, was)
    && forall q: Kind :: Relation(q) ==> (q, becomes) !in Known(catalog) && !GivenIn(before, q, becomes)
  }

  ghost predicate WellPlanned(catalog: Catalog, ss: seq<Statement>) {
    ss == [] || (WellPlanned(catalog, ss[..|ss| - 1]) && Fits(catalog, ss[..|ss| - 1], ss[|ss| - 1]))
  }

  lemma PlannedMore(catalog: Catalog, ss: seq<Statement>, s: Statement)
    requires WellPlanned(catalog, ss) && Fits(catalog, ss, s)
    ensures WellPlanned(catalog, ss + [s])
  {
    assert (ss + [s])[..|ss|] == ss;
  }

  lemma {:induction false} PlannedBefore(catalog: Catalog, ss: seq<Statement>, k: nat)
    requires WellPlanned(catalog, ss) && k <= |ss|
    ensures WellPlanned(catalog, ss[..k])
    ensures k < |ss| ==> Fits(catalog, ss[..k], ss[k])
    decreases |ss|
  {
    if k < |ss| - 1 {
      PlannedBefore(catalog, ss[..|ss| - 1], k);
      PrefixOfPrefix(ss, k);
    }
    assert k == |ss| ==> ss[..k] == ss;
  }

  // ---- The names the statements leave are those told from them ----

  ghost predicate NamesMirror(catalog: Catalog, ss: seq<Statement>, now: Catalog) {
    forall k: Kind, n :: Relation(k) ==> ((k, n) in Known(now) <==> Stands(catalog, ss, k, n))
  }

  /** A table that no statement is about keeps its foreign keys. */
  ghost predicate KeysKept(catalog: Catalog, ss: seq<Statement>, now: Catalog) {
    forall n, x :: Unnamed(ss, n) ==> (Entry(ForeignKey, x, n) in now <==> Entry(ForeignKey, x, n) in catalog)
  }

  /** A renamed table has its foreign keys, each under its own name or the one it was given; no
      key is given the name of one that still has its own. */
  ghost predicate KeysMirror(catalog: Catalog, ss: seq<Statement>, now: Catalog) {
    forall t, x :: t in ss && t.RenameTable? ==>
      && (Entry(ForeignKey, x, t.becomes) in now <==> KeyStands(catalog, ss, t.was, t.becomes, x))
      && !(Entry(ForeignKey, x, t.was) in catalog && !KeyTaken(ss, t.becomes, x) && KeyGiven(ss, t.becomes, x))
  }

  ghost predicate Mirrors(catalog: Catalog, ss: seq<Statement>, now: Catalog) {
    WellFormed(now) && NamesMirror(catalog, ss, now) && KeysKept(catalog, ss, now) && KeysMirror(catalog, ss, now)
  }

  /** A statement whose source is there takes one name away and gives one. */
  lemma KnownMoves(now: Catalog, s: Statement)
    requires SourcePresent(now, s)
    ensures forall k: Kind, n :: Relation(k) ==>
              ((k, n) in Known(Exec(now, s)) <==> ((k, n) in Known(now) && !Takes(s, k, n)) || Gives(s, k, n))
  {
    forall k: Kind, n | Relation(k)
      ensures (k, n) in Known(Exec(now, s)) <==> ((k, n) in Known(now) && !Takes(s, k, n)) || Gives(s, k, n)
    {
      if (k, n) in Known(Exec(now, s)) {
        var e :| e in Exec(now, s) && e.kind == k && e.name == n;
        Source(now, s, e);
      }
      if (k, n) in Known(now) && !Takes(s, k, n) {
        var e :| e in now && e.kind == k && e.name == n;
        Kept(now, s, e);
      }
      if Gives(s, k, n) {
        var e :| e in now && Takes(s, e.kind, e.name);
        Kept(now, s, e);
      }
    }
  }

  lemma KeyMoves(now: Catalog, s: Statement, x: string, n: string)
    ensures Entry(ForeignKey, x, n) in Exec(now, s) <==>
            exists e :: e in now && Move(e, s) == Entry(ForeignKey, x, n)
  {
    if Entry(ForeignKey, x, n) in Exec(now, s) { Source(now, s, Entry(ForeignKey, x, n)); }
    forall e | e in now && Move(e, s) == Entry(ForeignKey, x, n) ensures Entry(ForeignKey, x, n) in Exec(now, s) {
      Kept(now, s, e);
    }
  }

  lemma StandsMore(catalog: Catalog, ss: seq<Statement>, s: Statement)
    ensures forall k, n :: TakenIn(ss + [s], k, n) <==> TakenIn(ss, k, n) || Takes(s, k, n)
    ensures forall k, n :: GivenIn(ss + [s], k, n) <==> GivenIn(ss, k, n) || Gives(s, k, n)
  {
    assert s in ss + [s];
    assert forall t :: t in ss + [s] <==> t in ss || t == s;
  }

  lemma KeyStandsMore(ss: seq<Statement>, s: Statement)
    ensures forall t, n :: KeyTaken(ss + [s], t, n) <==> KeyTaken(ss, t, n) || (s.RenameConstraint? && s.table == t && s.was == n)
    ensures forall t, n :: KeyGiven(ss + [s], t, n) <==> KeyGiven(ss, t, n) || (s.RenameConstraint? && s.table == t && s.becomes == n)
    ensures forall n :: Unnamed(ss + [s], n) ==> Unnamed(ss, n)
  {
    assert s in ss + [s];
    assert forall t :: t in ss + [s] <==> t in ss || t == s;
  }

  /** The next statement finds what it renames, and works exactly if its new name is free among
      those not checked. */
  lemma NextStatement(catalog: Catalog, before: seq<Statement>, now: Catalog, s: Statement)
    requires WellFormed(catalog) && Mirrors(catalog, before, now) && Fits(catalog, before, s)
    ensures SourcePresent(now, s)
    ensures Possible(now, s) <==> Clear(catalog, before, s)
    ensures s.RenameIndex? || s.RenameSequence? ==> !InUse(now, s.becomes)
  {
    KnownTables(now);
    KnownTables(catalog);
    match s
    case RenameTable(was, becomes) => InUseIs(now, becomes); assert Stands(catalog, before, Table, was);
    case RenameIndex(was, becomes) => InUseIs(now, becomes); assert Stands(catalog, before, Index, was);
    case RenameSequence(was, becomes) => InUseIs(now, becomes); assert Stands(catalog, before, Sequence, was);
    case RenameConstraint(table, was, becomes) =>
      var t :| t in before && t.RenameTable? && t.becomes == table && Entry(ForeignKey, was, t.was) in catalog;
      assert KeyStands(catalog, before, t.was, table, was);
    case _ =>
  }

  lemma InUseIs(catalog: Catalog, name: string)
    ensures InUse(catalog, name) <==>
              (Table, name) in Known(catalog) || (Index, name) in Known(catalog) || (Sequence, name) in Known(catalog)
  {
  }

  lemma KnownTables(catalog: Catalog)
    requires WellFormed(catalog)
    ensures forall n :: (Table, n) in Known(catalog) <==> HasTable(catalog, n)
  {
    forall n ensures (Table, n) in Known(catalog) <==> HasTable(catalog, n) {
      if (Table, n) in Known(catalog) {
        var e :| e in catalog && e.kind == Table && e.name == n;
        assert e == Entry(Table, n, "");
      }
    }
  }

  lemma KeptKeysStep(catalog: Catalog, before: seq<Statement>, now: Catalog, s: Statement)
    requires KeysKept(catalog, before, now)
    ensures KeysKept(catalog, before + [s], Exec(now, s))
  {
    KeyStandsMore(before, s);
    forall n, x | Unnamed(before + [s], n) ensures Entry(ForeignKey, x, n) in Exec(now, s) <==> Entry(ForeignKey, x, n) in catalog {
      assert s in before + [s];
      KeyMoves(now, s, x, n);
      assert Move(Entry(ForeignKey, x, n), s) == Entry(ForeignKey, x, n);
    }
  }

  /** Renaming a table brings its foreign keys under the new name. */
  lemma TableKeysStep(catalog: Catalog, before: seq<Statement>, now: Catalog, s: Statement)
    requires s.RenameTable? && WellFormed(now) && KeysKept(catalog, before, now) && KeysMirror(catalog, before, now)
    requires Fits(catalog, before, s) && Possible(now, s)
    ensures KeysMirror(catalog, before + [s], Exec(now, s))
  {
    var after := Exec(now, s);
    KeyStandsMore(before, s);
    forall t, x | t in before + [s] && t.RenameTable?
      ensures Entry(ForeignKey, x, t.becomes) in after <==> KeyStands(catalog, before + [s], t.was, t.becomes, x)
      ensures !(Entry(ForeignKey, x, t.was) in catalog && !KeyTaken(before + [s], t.becomes, x) && KeyGiven(before + [s], t.becomes, x))
    {
      KeyMoves(now, s, x, t.becomes);
      if t == s {
        assert !HasTable(now, s.becomes);
        assert Entry(ForeignKey, x, s.becomes) !in now;
        assert Move(Entry(ForeignKey, x, s.was), s) == Entry(ForeignKey, x, s.becomes);
        assert !KeyGiven(before, s.becomes, x) && !KeyTaken(before, s.becomes, x);
      } else {
        assert Gives(t, Table, t.becomes);
        assert Move(Entry(ForeignKey, x, t.becomes), s) == Entry(ForeignKey, x, t.becomes);
      }
    }
  }

  lemma ConstraintStep(catalog: Catalog, before: seq<Statement>, now: Catalog, s: Statement)
    requires s.RenameConstraint? && KeysMirror(catalog, before, now)
    requires Fits(catalog, before, s) && Possible(now, s)
    ensures KeysMirror(catalog, before + [s], Exec(now, s))
  {
    var after := Exec(now, s);
    KeyStandsMore(before, s);
    var o :| o in before && o.RenameTable? && o.becomes == s.table && Entry(ForeignKey, s.was, o.was) in catalog;
    assert !KeyGiven(before, s.table, s.was);
    forall t, x | t in before + [s] && t.RenameTable?
      ensures Entry(ForeignKey, x, t.becomes) in after <==> KeyStands(catalog, before + [s], t.was, t.becomes, x)
      ensures !(Entry(ForeignKey, x, t.was) in catalog && !KeyTaken(before + [s], t.becomes, x) && KeyGiven(before + [s], t.becomes, x))
    {
      KeyMoves(now, s, x, t.becomes);
      assert t in before;
      if Entry(ForeignKey, x, t.becomes) in now {
        var e := Entry(ForeignKey, x, t.becomes);
        assert Move(e, s) == if t.becomes == s.table && x == s.was then e.(name := s.becomes) else e;
      }
      assert Move(Entry(ForeignKey, s.was, s.table), s) == Entry(ForeignKey, s.becomes, s.table);
    }
  }

  lemma OtherKeysStep(catalog: Catalog, before: seq<Statement>, now: Catalog, s: Statement)
    requires !s.RenameTable? && !s.RenameConstraint? && KeysMirror(catalog, before, now)
    ensures KeysMirror(catalog, before + [s], Exec(now, s))
  {
    KeyStandsMore(before, s);
    forall t, x | t in before + [s] && t.RenameTable?
      ensures Entry(ForeignKey, x, t.becomes) in Exec(now, s) <==> Entry(ForeignKey, x, t.becomes) in now
    {
      KeyMoves(now, s, x, t.becomes);
      assert Move(Entry(ForeignKey, x, t.becomes), s) == Entry(ForeignKey, x, t.becomes);
    }
  }

  lemma NamesStep(catalog: Catalog, before: seq<Statement>, now: Catalog, s: Statement)
    requires NamesMirror(catalog, before, now) && Fits(catalog, before, s) && SourcePresent(now, s)
    ensures NamesMirror(catalog, before + [s], Exec(now, s))
  {
    KnownMoves(now, s);
    StandsMore(catalog, before, s);
    forall k: Kind, n | Relation(k)
      ensures (k, n) in Known(Exec(now, s)) <==> Stands(catalog, before + [s], k, n)
    {
      assert Takes(s, k, n) ==> !GivenIn(before, k, n) && !Gives(s, k, n);
    }
  }

  lemma MirrorsStep(catalog: Catalog, before: seq<Statement>, now: Catalog, s: Statement)
    requires WellFormed(catalog) && Mirrors(catalog, before, now) && Fits(catalog, before, s) && Possible(now, s)
    ensures Mirrors(catalog, before + [s], Exec(now, s))
  {
    if s.RenameTable? {
      assert s.was != "" by { assert Entry(Table, s.was, "").name == s.was; }
      TableKeysStep(catalog, before, now, s);
    } else if s.RenameConstraint? {
      ConstraintStep(catalog, before, now, s);
    } else {
      OtherKeysStep(catalog, before, now, s);
    }
    ExecWellFormed(now, s);
    NamesStep(catalog, before, now, s);
    KeptKeysStep(catalog, before, now, s);
  }

  /** While the statements work, the names in the catalog are those told from the statements. */
  lemma {:induction false} NamesAfter(catalog: Catalog, ss: seq<Statement>)
    requires WellFormed(catalog) && WellPlanned(catalog, ss) && Succeeds(catalog, ss)
    ensures Mirrors(catalog, ss, ExecAll(catalog, ss))
  {
    if ss == [] {
      MirrorsStart(catalog);
    } else {
      var n := |ss| - 1;
      ButLastAndLast(ss);
      NamesAfter(catalog, ss[..n]);
      MirrorsNext(catalog, ss[..n], ss[n]);
    }
  }

  lemma ButLastAndLast<X>(s: seq<X>)
    requires s != []
    ensures s == s[..|s| - 1] + [s[|s| - 1]]
  {
  }

  lemma MirrorsNext(catalog: Catalog, ss: seq<Statement>, s: Statement)
    requires WellFormed(catalog) && Mirrors(catalog, ss, ExecAll(catalog, ss)) && Fits(catalog, ss, s)
    requires Possible(ExecAll(catalog, ss), s)
    ensures Mirrors(catalog, ss + [s], ExecAll(catalog, ss + [s]))
  {
    Extend(catalog, ss, s);
    MirrorsStep(catalog, ss, ExecAll(catalog, ss), s);
  }

  lemma MirrorsStart(catalog: Catalog)
    requires WellFormed(catalog)
    ensures Mirrors(catalog, [], catalog)
  {
  }

  predicate AllClear(catalog: Catalog, ss: seq<Statement>, n: nat)
    requires n <= |ss|
  {
    n == 0 || (AllClear(catalog, ss, n - 1) && ClearAt(catalog, ss, n - 1))
  }

  lemma {:induction false} AllClearIs(catalog: Catalog, ss: seq<Statement>, n: nat)
    requires n <= |ss|
    ensures AllClear(catalog, ss, n) <==> forall k :: 0 <= k < n ==> ClearAt(catalog, ss, k)
  {
    if n > 0 {
      AllClearIs(catalog, ss, n - 1);
    }
  }

  lemma {:induction false} WorksUpTo(catalog: Catalog, ss: seq<Statement>, n: nat)
    requires WellFormed(catalog) && WellPlanned(catalog, ss) && n <= |ss|
    ensures Succeeds(catalog, ss[..n]) <==> AllClear(catalog, ss, n)
  {
    if n > 0 {
      WorksUpTo(catalog, ss, n - 1);
      WorksStep(catalog, ss, n - 1);
    }
  }

  lemma WorksStep(catalog: Catalog, ss: seq<Statement>, k: nat)
    requires WellFormed(catalog) && WellPlanned(catalog, ss) && k < |ss|
    ensures Succeeds(catalog, ss[..k + 1]) <==> Succeeds(catalog, ss[..k]) && ClearAt(catalog, ss, k)
  {
    assert ss[..k + 1] == ss[..k] + [ss[k]];
    Extend(catalog, ss[..k], ss[k]);
    if Succeeds(catalog, ss[..k]) {
      NextWorks(catalog, ss, k);
    }
  }

  lemma NextWorks(catalog: Catalog, ss: seq<Statement>, k: nat)
    requires WellFormed(catalog) && WellPlanned(catalog, ss) && k < |ss| && Succeeds(catalog, ss[..k])
    ensures NextSound(catalog, ss, k)
  {
    PlannedBefore(catalog, ss, k);
    NamesAfter(catalog, ss[..k]);
    NextStatement(catalog, ss[..k], ExecAll(catalog, ss[..k]), ss[k]);
  }

  /** When its turn comes a statement finds its source, and works exactly if the names not checked
      are free; an index or sequence gets a name that no relation has. */
  predicate NextSound(catalog: Catalog, ss: seq<Statement>, k: nat)
    requires k < |ss|
  {
    var now := ExecAll(catalog, ss[..k]);
    && SourcePresent(now, ss[k])
    && (Possible(now, ss[k]) <==> ClearAt(catalog, ss, k))
    && (ss[k].RenameIndex? || ss[k].RenameSequence? ==> !InUse(now, ss[k].becomes))
  }

  lemma Extend(catalog: Catalog, ss: seq<Statement>, s: Statement)
    ensures ExecAll(catalog, ss + [s]) == Exec(ExecAll(catalog, ss), s)
    ensures Succeeds(catalog, ss + [s]) <==> Succeeds(catalog, ss) && Possible(ExecAll(catalog, ss), s)
  {
    assert (ss + [s])[..|ss|] == ss;
  }

  // ---- What may be planned for ----

  /** The models whose tables the plan moves: the bare table is there alone. */
  predicate Moving(catalog: Catalog, m: Model) {
    Considered(m) && HasTable(catalog, m.short.value) && !HasTable(catalog, m.table.value)
  }

  predicate Tracked(catalog: Catalog, m: Model)
    requires Considered(m)
  {
    m.history && HasTable(catalog, m.short.value + HISTORY)
  }

  /** The tables that a model's move renames, and what to. */
  function Olds(catalog: Catalog, m: Model): set<string> {
    if !Moving(catalog, m) then {}
    else {m.short.value} + if Tracked(catalog, m) then {m.short.value + HISTORY} else {}
  }

  function News(catalog: Catalog, m: Model): set<string> {
    if !Moving(catalog, m) then {}
    else {m.table.value} + if Tracked(catalog, m) then {m.table.value + HISTORY} else {}
  }

  /** The bare names the planner looks up for a model. */
  function LookedUp(catalog: Catalog, m: Model): set<string> {
    if !Considered(m) then {}
    else {m.short.value} + if m.history && Moving(catalog, m) then {m.short.value + HISTORY} else {}
  }

  const SYSTEM := {DIFFS, BATCHES}

  predicate Apart(catalog: Catalog, m: Model, other: Model) {
    (Olds(catalog, m) + News(catalog, m)) !! (Olds(catalog, other) + News(catalog, other))
  }

  /** No two of the tables to be moved share an old or a new name, and none comes to a name that
      is looked up as some model's bare one. A model whose bare table is not there takes part in
      the second only. No table is moved away from a model that has both of its tables, nor from
      the system tables the updates are made to. */
  ghost predicate NamesApart(catalog: Catalog, loaded: seq<Model>) {
    && (forall i, j :: 0 <= i < j < |loaded| ==> Apart(catalog, loaded[i], loaded[j]))
    && (forall m :: m in loaded ==> Olds(catalog, m) !! News(catalog, m) && "" !in News(catalog, m) && Olds(catalog, m) !! SYSTEM)
    && (forall m, other :: m in loaded && other in loaded ==> LookedUp(catalog, other) !! News(catalog, m))
    && (forall m, other :: m in loaded && other in loaded && Considered(other) && HasTable(catalog, other.short.value)
                           ==> other.table.value !in Olds(catalog, m))
  }

  /** The loaded models and the catalog fit the migration. */
  ghost predicate Migratable(catalog: Catalog, loaded: seq<Model>) {
    WellFormed(catalog) && NamesApart(catalog, loaded)
  }

  lemma MigratablePrefix(catalog: Catalog, loaded: seq<Model>)
    requires Migratable(catalog, loaded) && loaded != []
    ensures Migratable(catalog, loaded[..|loaded| - 1])
    ensures forall i :: 0 <= i < |loaded| - 1 ==> Apart(catalog, loaded[i], loaded[|loaded| - 1])
  {
    var less := loaded[..|loaded| - 1];
    assert forall m :: m in less ==> m in loaded;
    assert forall i :: 0 <= i < |less| ==> less[i] == loaded[i];
  }

  // ---- Each planned statement fits ----

  /** No statement so far has to do with an index or sequence of this name. */
  ghost predicate Untouched(ss: seq<Statement>, e: Entry) {
    e.kind.Index? || e.kind.Sequence? ==> !TakenIn(ss, e.kind, e.name) && !GivenIn(ss, e.kind, e.name)
  }

  ghost predicate KnownIs(catalog: Catalog, p: Progress) {
    forall k: Kind, n :: Relation(k) ==> ((k, n) in p.known <==> (k, n) in Known(catalog) || GivenIn(p.ddl, k, n))
  }

  /** The names in keep are those the planner has not come to yet. */
  ghost predicate Inv(catalog: Catalog, p: Progress, keep: set<string>) {
    && WellPlanned(catalog, p.ddl) && KnownIs(catalog, p)
    && (forall n :: n in keep ==> Unnamed(p.ddl, n))
    && (forall e :: e in catalog && e.table in keep ==> Untouched(p.ddl, e))
    && (forall n :: n in SYSTEM ==> !TakenIn(p.ddl, Table, n))
  }

  ghost predicate SameTables(ss: seq<Statement>, ss': seq<Statement>) {
    forall s: Statement :: s.RenameTable? ==> (s in ss <==> s in ss')
  }

  /** An owned object that the planner has not come to. */
  ghost predicate Waiting(ss: seq<Statement>, e: Entry, becomes: string) {
    Untouched(ss, e) && (e.kind.ForeignKey? ==> !KeyTaken(ss, becomes, e.name))
  }

  lemma AppendKeeps(catalog: Catalog, e: Entry, becomes: string, j: Job, p: Progress, keep: set<string>)
    requires WellFormed(catalog) && Inv(catalog, p, keep) && j.was !in keep && j.becomes !in keep && RenameTable(j.was, j.becomes) in p.ddl
    requires e in catalog && e.table == j.was && e.kind != Table && Waiting(p.ddl, e, j.becomes)
    requires e.kind != ForeignKey ==> !Taken(p.known, becomes)
    ensures Inv(catalog, p.(ddl := p.ddl + [RenameOf(e.(table := j.becomes), becomes)], known := KnownWith(p.known, e, becomes)), keep)
  {
    var s := RenameOf(e.(table := j.becomes), becomes);
    PlannedMore(catalog, p.ddl, s) by {
      assert e.kind != ForeignKey ==> FitsObject(catalog, p.ddl, e.kind, e.name, becomes);
    }
    StandsMore(catalog, p.ddl, s);
    forall x | x in catalog && x.table in keep ensures Untouched(p.ddl + [s], x) {
      assert Untouched(p.ddl, x);
      if Relation(x.kind) { AppendTouchesNone(catalog, e, becomes, j, p, x); }
    }
    forall n | n in keep ensures Unnamed(p.ddl + [s], n) {
      assert Unnamed(p.ddl, n);
    }
  }

  /** The new statement has to do with no other object of the catalog. */
  lemma AppendTouchesNone(catalog: Catalog, e: Entry, becomes: string, j: Job, p: Progress, x: Entry)
    requires WellFormed(catalog) && KnownIs(catalog, p) && e in catalog && e.table == j.was && e.kind != Table
    requires e.kind != ForeignKey ==> !Taken(p.known, becomes)
    requires x in catalog && x != e && x.kind != ForeignKey
    ensures var s := RenameOf(e.(table := j.becomes), becomes); !Takes(s, x.kind, x.name) && !Gives(s, x.kind, x.name)
  {
    if Takes(RenameOf(e.(table := j.becomes), becomes), x.kind, x.name) {
      OneRelation(catalog, x, e);
    }
    assert (x.kind, x.name) in Known(catalog) && (x.kind, x.name) in p.known;
  }

  /** One owned object. */
  lemma PlanOneKeeps(catalog: Catalog, e: Entry, j: Job, p: Progress, keep: set<string>)
    requires WellFormed(catalog) && Inv(catalog, p, keep) && j.was !in keep && j.becomes !in keep && RenameTable(j.was, j.becomes) in p.ddl
    requires e in catalog && e.table == j.was && e.kind != Table && Waiting(p.ddl, e, j.becomes)
    ensures Inv(catalog, PlanOne(e, j, p), keep) && SameTables(p.ddl, PlanOne(e, j, p).ddl)
    ensures forall x :: x in catalog && x.kind != Table && (x.kind != e.kind || x.name != e.name) && Waiting(p.ddl, x, j.becomes)
              ==> Waiting(PlanOne(e, j, p).ddl, x, j.becomes)
  {
    var p' := PlanOne(e, j, p);
    if p'.ddl != p.ddl {
      var becomes := if e.kind == ForeignKey then "fk_" + j.table + "_history_" + e.name[|"fk_" + j.short + "_history_"|..] else Target(e, j);
      AppendKeeps(catalog, e, becomes, j, p, keep);
      var s := RenameOf(e.(table := j.becomes), becomes);
      assert p'.ddl == p.ddl + [s];
      StandsMore(catalog, p.ddl, s);
      KeyStandsMore(p.ddl, s);
      forall x | x in catalog && x.kind != Table && (x.kind != e.kind || x.name != e.name) && Waiting(p.ddl, x, j.becomes)
        ensures Waiting(p'.ddl, x, j.becomes)
      {
        if Relation(x.kind) { AppendTouchesNone(catalog, e, becomes, j, p, x); }
      }
    }
  }

  ghost predicate EachOnce(owned: seq<Entry>) {
    forall i, k :: 0 <= i < k < |owned| ==> owned[i].kind != owned[k].kind || owned[i].name != owned[k].name
  }

  lemma OwnedIs(catalog: Catalog, table: string)
    requires WellFormed(catalog)
    ensures forall e :: e in Owned(catalog, table) <==> e in catalog && e.table != "" && e.table == table
    ensures EachOnce(Owned(catalog, table))
  {
    OwnedIsIn(catalog, table);
  }

  lemma {:induction false} OwnedIsIn(catalog: Catalog, table: string)
    requires Distinct(catalog)
    requires forall e :: e in catalog && e.kind == Table ==> e.table == ""
    ensures forall e :: e in Owned(catalog, table) <==> e in catalog && e.table != "" && e.table == table
    ensures EachOnce(Owned(catalog, table))
  {
    if catalog != [] {
      var n := |catalog| - 1;
      OwnedIsIn(catalog[..n], table);
      assert catalog == catalog[..n] + [catalog[n]];
      var before := Owned(catalog[..n], table);
      forall i | 0 <= i < |before| && catalog[n].table == table && table != ""
        ensures before[i].kind != catalog[n].kind || before[i].name != catalog[n].name
      {
        assert before[i] in catalog[..n];
        var k :| 0 <= k < n && catalog[k] == before[i];
        assert !Clash(catalog[k], catalog[n]);
      }
    }
  }

  /** No object of owned is x's namesake. */
  ghost predicate NoneLike(owned: seq<Entry>, x: Entry) {
    forall e :: e in owned ==> x.kind != e.kind || x.name != e.name
  }

  lemma LastIsAlone(owned: seq<Entry>)
    requires EachOnce(owned) && owned != []
    ensures EachOnce(owned[..|owned| - 1]) && NoneLike(owned[..|owned| - 1], owned[|owned| - 1])
  {
    var n := |owned| - 1;
    forall x | x in owned[..n] ensures owned[n].kind != x.kind || owned[n].name != x.name {
      var i :| 0 <= i < n && owned[i] == x;
      assert owned[i].kind != owned[n].kind || owned[i].name != owned[n].name;
    }
  }

  /** The owned objects are in the catalog, under the job's table, and wait their turn. */
  ghost predicate Ready(catalog: Catalog, owned: seq<Entry>, j: Job, ss: seq<Statement>) {
    forall e :: e in owned ==> e in catalog && e.table == j.was && e.kind != Table && Waiting(ss, e, j.becomes)
  }

  lemma {:induction false} PlanOwnedKeeps(catalog: Catalog, owned: seq<Entry>, j: Job, p: Progress, keep: set<string>)
    requires WellFormed(catalog) && Inv(catalog, p, keep) && j.was !in keep && j.becomes !in keep && RenameTable(j.was, j.becomes) in p.ddl
    requires EachOnce(owned) && Ready(catalog, owned, j, p.ddl)
    ensures Inv(catalog, PlanOwned(owned, j, p), keep) && SameTables(p.ddl, PlanOwned(owned, j, p).ddl)
    ensures forall x :: x in catalog && x.kind != Table && NoneLike(owned, x) && Waiting(p.ddl, x, j.becomes)
              ==> Waiting(PlanOwned(owned, j, p).ddl, x, j.becomes)
  {
    if owned != [] {
      var n := |owned| - 1;
      var e, p1 := owned[n], PlanOwned(owned[..n], j, p);
      assert e in owned && forall x :: x in owned[..n] ==> x in owned;
      LastIsAlone(owned);
      PlanOwnedKeeps(catalog, owned[..n], j, p, keep);
      PlanOneKeeps(catalog, e, j, p1, keep);
      forall x | NoneLike(owned, x) ensures NoneLike(owned[..n], x) && (x.kind != e.kind || x.name != e.name) {
      }
    }
  }

  function Renaming(j: Job, p: Progress): Progress {
    p.(ddl := p.ddl + [RenameTable(j.was, j.becomes)], known := p.known + {(Table, j.becomes)})
  }

  lemma RenameTableKeeps(catalog: Catalog, j: Job, p: Progress, keep: set<string>)
    requires WellFormed(catalog) && Inv(catalog, p, keep) && {j.was, j.becomes} <= keep
    requires HasTable(catalog, j.was) && j.was != j.becomes && j.was !in SYSTEM && j.becomes != ""
    requires HasTable(catalog, j.becomes) ==> EndsIn(j.was, HISTORY) && EndsIn(j.becomes, HISTORY)
    ensures Inv(catalog, Renaming(j, p), keep - {j.was, j.becomes})
  {
    var s, less := RenameTable(j.was, j.becomes), keep - {j.was, j.becomes};
    PlannedMore(catalog, p.ddl, s);
    StandsMore(catalog, p.ddl, s);
    forall n | n in less ensures Unnamed(p.ddl + [s], n) {
      assert Unnamed(p.ddl, n);
    }
    forall e | e in catalog && e.table in less ensures Untouched(p.ddl + [s], e) {
      assert Untouched(p.ddl, e);
    }
  }

  lemma OwnedWaits(catalog: Catalog, j: Job, p: Progress, keep: set<string>)
    requires WellFormed(catalog) && Inv(catalog, p, keep) && {j.was, j.becomes} <= keep
    ensures Ready(catalog, Owned(catalog, j.was), j, Renaming(j, p).ddl)
  {
    OwnedIs(catalog, j.was);
    StandsMore(catalog, p.ddl, RenameTable(j.was, j.becomes));
    KeyStandsMore(p.ddl, RenameTable(j.was, j.becomes));
    assert Unnamed(p.ddl, j.becomes);
  }

  /** Renaming one table adds its rename, and no other rename of a table. */
  lemma PlanTableKeeps(catalog: Catalog, j: Job, p: Progress, keep: set<string>)
    requires WellFormed(catalog) && Inv(catalog, p, keep) && {j.was, j.becomes} <= keep
    requires HasTable(catalog, j.was) && j.was != j.becomes && j.was !in SYSTEM && j.becomes != ""
    requires HasTable(catalog, j.becomes) ==> EndsIn(j.was, HISTORY) && EndsIn(j.becomes, HISTORY)
    ensures Inv(catalog, PlanTable(catalog, j, p), keep - {j.was, j.becomes})
    ensures SameTables(p.ddl + [RenameTable(j.was, j.becomes)], PlanTable(catalog, j, p).ddl)
  {
    RenameTableKeeps(catalog, j, p, keep);
    OwnedWaits(catalog, j, p, keep);
    OwnedIs(catalog, j.was);
    PlanOwnedKeeps(catalog, Owned(catalog, j.was), j, Renaming(j, p), keep - {j.was, j.becomes});
  }

  lemma {:induction false} PlanOwnedKnows(owned: seq<Entry>, j: Job, p: Progress)
    ensures p.known <= PlanOwned(owned, j, p).known && PlanOwned(owned, j, p).renamed == p.renamed
  {
    if owned != [] {
      PlanOwnedKnows(owned[..|owned| - 1], j, p);
    }
  }

  function MainJob(m: Model): Job
    requires Considered(m)
  {
    Job(m.short.value, m.table.value, m.short.value, m.table.value, Yaml(m))
  }

  function HistoryJob(m: Model): Job
    requires Considered(m)
  {
    Job(m.short.value, m.table.value, m.short.value + HISTORY, m.table.value + HISTORY, Yaml(m))
  }

  predicate Planned(m: Model, known: set<(Kind, string)>) {
    Considered(m) && (Table, m.short.value) in known && (Table, m.table.value) !in known
  }

  predicate WithHistory(m: Model, known: set<(Kind, string)>)
    requires Considered(m)
  {
    m.history && (Table, m.short.value + HISTORY) in known
  }

  /** Planning a model, without the list of its tables. */
  lemma PlanModelIs(catalog: Catalog, m: Model, p: Progress)
    requires Planned(m, p.known)
    ensures var p1 := PlanTable(catalog, MainJob(m), p);
            var p2 := if WithHistory(m, p.known) then PlanTable(catalog, HistoryJob(m), p1) else p1;
            && PlanModel(catalog, m, p) == p2.(renamed := p.renamed + [(m.short.value, m.table.value)])
            && p.known <= p1.known <= p2.known && p2.renamed == p.renamed
  {
    var p1 := PlanTable(catalog, MainJob(m), p);
    var p2 := if WithHistory(m, p.known) then PlanTable(catalog, HistoryJob(m), p1) else p1;
    var first, second := (m.short.value, m.table.value), (m.short.value + HISTORY, m.table.value + HISTORY);
    assert [first, second][..1] == [first] && [first][..0] == [];
    assert TablesOf(catalog, [first], m.short.value, m.table.value, Yaml(m), p) == p1;
    assert TablesOf(catalog, [first, second], m.short.value, m.table.value, Yaml(m), p) == PlanTable(catalog, HistoryJob(m), p1);
    forall j: Job, q: Progress ensures q.known <= PlanTable(catalog, j, q).known && PlanTable(catalog, j, q).renamed == q.renamed {
      PlanOwnedKnows(Owned(catalog, j.was), j, Renaming(j, q));
    }
  }

  /** The renames of tables that a moving model brings. */
  predicate Moves(catalog: Catalog, m: Model, s: Statement) {
    && Moving(catalog, m)
    && (s == RenameTable(m.short.value, m.table.value)
        || (Tracked(catalog, m) && s == RenameTable(m.short.value + HISTORY, m.table.value + HISTORY)))
  }

  /** The planner's look-ups for the model find what is in the catalog. */
  ghost predicate SeenAsIs(catalog: Catalog, m: Model, known: set<(Kind, string)>) {
    && (Planned(m, known) <==> Moving(catalog, m))
    && (Moving(catalog, m) ==> (WithHistory(m, known) <==> Tracked(catalog, m)))
  }

  lemma MainTableKeeps(catalog: Catalog, m: Model, p: Progress, keep: set<string>)
    requires WellFormed(catalog) && Inv(catalog, p, keep) && Olds(catalog, m) + News(catalog, m) <= keep && Moving(catalog, m)
    requires Olds(catalog, m) !! News(catalog, m) && "" !in News(catalog, m) && Olds(catalog, m) !! SYSTEM
    ensures var p1 := PlanTable(catalog, MainJob(m), p);
            && Inv(catalog, p1, keep - {m.short.value, m.table.value})
            && SameTables(p.ddl + [RenameTable(m.short.value, m.table.value)], p1.ddl)
  {
    PlanTableKeeps(catalog, MainJob(m), p, keep);
  }

  lemma HistoryTableKeeps(catalog: Catalog, m: Model, p: Progress, keep: set<string>)
    requires WellFormed(catalog) && Inv(catalog, p, keep) && Moving(catalog, m) && Tracked(catalog, m)
    requires {m.short.value + HISTORY, m.table.value + HISTORY} <= keep
    requires Olds(catalog, m) !! News(catalog, m) && "" !in News(catalog, m) && Olds(catalog, m) !! SYSTEM
    ensures var p1 := PlanTable(catalog, HistoryJob(m), p);
            && Inv(catalog, p1, keep - {m.short.value + HISTORY, m.table.value + HISTORY})
            && SameTables(p.ddl + [RenameTable(m.short.value + HISTORY, m.table.value + HISTORY)], p1.ddl)
  {
    PlanTableKeeps(catalog, HistoryJob(m), p, keep);
  }

  ghost predicate Adds(catalog: Catalog, m: Model, ss: seq<Statement>, ss': seq<Statement>) {
    forall s: Statement :: s.RenameTable? ==> (s in ss' <==> s in ss || Moves(catalog, m, s))
  }

  lemma PlanModelKeeps(catalog: Catalog, m: Model, p: Progress, keep: set<string>)
    requires WellFormed(catalog) && Inv(catalog, p, keep) && Olds(catalog, m) + News(catalog, m) <= keep && SeenAsIs(catalog, m, p.known)
    requires Olds(catalog, m) !! News(catalog, m) && "" !in News(catalog, m) && Olds(catalog, m) !! SYSTEM
    ensures Inv(catalog, PlanModel(catalog, m, p), keep - Olds(catalog, m) - News(catalog, m))
    ensures Adds(catalog, m, p.ddl, PlanModel(catalog, m, p).ddl)
  {
    var p', less := PlanModel(catalog, m, p), keep - Olds(catalog, m) - News(catalog, m);
    if Moving(catalog, m) {
      PlanModelIs(catalog, m, p);
      MainTableKeeps(catalog, m, p, keep);
      var p1, keep1 := PlanTable(catalog, MainJob(m), p), keep - {m.short.value, m.table.value};
      if Tracked(catalog, m) {
        HistoryTableKeeps(catalog, m, p1, keep1);
        var p2 := PlanTable(catalog, HistoryJob(m), p1);
        SameDdlKeeps(catalog, p2, p', keep1 - {m.short.value + HISTORY, m.table.value + HISTORY}, less);
      } else {
        SameDdlKeeps(catalog, p1, p', keep1, less);
      }
    } else {
      SameDdlKeeps(catalog, p, p', keep, less);
    }
  }

  lemma SameDdlKeeps(catalog: Catalog, p: Progress, p': Progress, keep: set<string>, less: set<string>)
    requires Inv(catalog, p, keep) && less <= keep && p'.ddl == p.ddl && p'.known == p.known
    ensures Inv(catalog, p', less)
  {
  }

  // ---- The whole plan ----

  ghost predicate MovesAre(catalog: Catalog, loaded: seq<Model>, ss: seq<Statement>) {
    forall s: Statement :: s.RenameTable? ==> (s in ss <==> exists m :: m in loaded && Moves(catalog, m, s))
  }

  ghost predicate Unmentioned(catalog: Catalog, loaded: seq<Model>, keep: set<string>) {
    forall m :: m in loaded ==> (Olds(catalog, m) + News(catalog, m)) !! keep
  }

  lemma TakenTables(catalog: Catalog, loaded: seq<Model>, ss: seq<Statement>, n: string)
    requires MovesAre(catalog, loaded, ss)
    ensures TakenIn(ss, Table, n) <==> exists m :: m in loaded && n in Olds(catalog, m)
    ensures GivenIn(ss, Table, n) <==> exists m :: m in loaded && n in News(catalog, m)
  {
    if TakenIn(ss, Table, n) {
      var s :| s in ss && Takes(s, Table, n);
      var m :| m in loaded && Moves(catalog, m, s);
      MovesTakes(catalog, m, n);
    }
    if GivenIn(ss, Table, n) {
      var s :| s in ss && Gives(s, Table, n);
      var m :| m in loaded && Moves(catalog, m, s);
      MovesTakes(catalog, m, n);
    }
    forall m | m in loaded ensures n in Olds(catalog, m) ==> TakenIn(ss, Table, n) {
      MovesTakes(catalog, m, n);
    }
    forall m | m in loaded ensures n in News(catalog, m) ==> GivenIn(ss, Table, n) {
      MovesTakes(catalog, m, n);
    }
  }

  lemma MovesTakes(catalog: Catalog, m: Model, n: string)
    ensures n in Olds(catalog, m) <==> exists s :: Moves(catalog, m, s) && Takes(s, Table, n)
    ensures n in News(catalog, m) <==> exists s :: Moves(catalog, m, s) && Gives(s, Table, n)
  {
    if Moving(catalog, m) {
      var main, history := RenameTable(m.short.value, m.table.value), RenameTable(m.short.value + HISTORY, m.table.value + HISTORY);
      assert Moves(catalog, m, main) && (Tracked(catalog, m) ==> Moves(catalog, m, history));
      assert Takes(main, Table, main.was) && Takes(history, Table, history.was);
      assert Gives(main, Table, main.becomes) && Gives(history, Table, history.becomes);
    }
  }

  /** When the last model's turn comes, the planner sees its names as they are in the catalog. */
  lemma LastSeenAsIs(catalog: Catalog, loaded: seq<Model>, p: Progress)
    requires Migratable(catalog, loaded) && loaded != [] && KnownIs(catalog, p)
    requires MovesAre(catalog, loaded[..|loaded| - 1], p.ddl)
    ensures SeenAsIs(catalog, loaded[|loaded| - 1], p.known)
  {
    var n := |loaded| - 1;
    var m := loaded[n];
    assert m in loaded;
    KnownTables(catalog);
    MigratablePrefix(catalog, loaded);
    forall x | (Table, x) in p.known && !HasTable(catalog, x)
      ensures x !in LookedUp(catalog, m) && (Moving(catalog, m) ==> x != m.table.value)
    {
      assert GivenIn(p.ddl, Table, x);
      EarlierNewName(catalog, loaded, p.ddl, x);
    }
  }

  lemma EarlierNewName(catalog: Catalog, loaded: seq<Model>, ss: seq<Statement>, x: string)
    requires Migratable(catalog, loaded) && loaded != [] && MovesAre(catalog, loaded[..|loaded| - 1], ss) && GivenIn(ss, Table, x)
    ensures var m := loaded[|loaded| - 1]; x !in LookedUp(catalog, m) && (Moving(catalog, m) ==> x != m.table.value)
  {
    var n := |loaded| - 1;
    TakenTables(catalog, loaded[..n], ss, x);
    var o :| o in loaded[..n] && x in News(catalog, o);
    MigratablePrefix(catalog, loaded);
    var i :| 0 <= i < n && loaded[..n][i] == o;
    assert Apart(catalog, loaded[i], loaded[n]);
    assert o in loaded && loaded[n] in loaded;
    assert Moving(catalog, loaded[n]) ==> loaded[n].table.value in News(catalog, loaded[n]);
  }

  lemma {:induction false} PlanAllKeeps(catalog: Catalog, loaded: seq<Model>, keep: set<string>)
    requires Migratable(catalog, loaded) && Unmentioned(catalog, loaded, keep)
    ensures Inv(catalog, PlanAll(catalog, loaded), keep) && MovesAre(catalog, loaded, PlanAll(catalog, loaded).ddl)
  {
    if loaded != [] {
      var n := |loaded| - 1;
      var m, p := loaded[n], PlanAll(catalog, loaded[..n]);
      var more := keep + Olds(catalog, m) + News(catalog, m);
      MigratablePrefix(catalog, loaded);
      MoreUnmentioned(catalog, loaded, keep);
      PlanAllKeeps(catalog, loaded[..n], more);
      LastSeenAsIs(catalog, loaded, p);
      assert m in loaded;
      PlanModelKeeps(catalog, m, p, more);
      SameDdlKeeps(catalog, PlanModel(catalog, m, p), PlanModel(catalog, m, p), more - Olds(catalog, m) - News(catalog, m), keep);
      LastMoves(catalog, loaded, p.ddl, PlanModel(catalog, m, p).ddl);
    }
  }

  lemma MoreUnmentioned(catalog: Catalog, loaded: seq<Model>, keep: set<string>)
    requires Migratable(catalog, loaded) && loaded != [] && Unmentioned(catalog, loaded, keep)
    ensures var n := |loaded| - 1; var m := loaded[n];
            && Unmentioned(catalog, loaded[..n], keep + Olds(catalog, m) + News(catalog, m))
            && keep <= keep + Olds(catalog, m) + News(catalog, m) - Olds(catalog, m) - News(catalog, m)
  {
    var n := |loaded| - 1;
    MigratablePrefix(catalog, loaded);
    assert loaded[n] in loaded;
    forall o | o in loaded[..n] ensures o in loaded && Apart(catalog, o, loaded[n]) {
      var i :| 0 <= i < n && loaded[..n][i] == o;
    }
  }

  lemma LastMoves(catalog: Catalog, loaded: seq<Model>, ss: seq<Statement>, ss': seq<Statement>)
    requires loaded != [] && MovesAre(catalog, loaded[..|loaded| - 1], ss) && Adds(catalog, loaded[|loaded| - 1], ss, ss')
    ensures MovesAre(catalog, loaded, ss')
  {
    var n := |loaded| - 1;
    assert loaded == loaded[..n] + [loaded[n]];
  }

  lemma {:induction false} FixUpsFit(catalog: Catalog, ddl: seq<Statement>, known: set<(Kind, string)>, renamed: seq<(string, string)>)
    requires WellPlanned(catalog, ddl) && forall n :: n in SYSTEM && (Table, n) in known ==> Stands(catalog, ddl, Table, n)
    ensures WellPlanned(catalog, ddl + FixUps(known, renamed)) && SameTables(ddl, ddl + FixUps(known, renamed))
  {
    if renamed == [] {
      IfKnownFits(catalog, ddl, ddl, known, WidenDiffType, WidenBatchTableName);
    } else {
      var n := |renamed| - 1;
      var (short, table) := renamed[n];
      var update, batch := UpdateDiffType(table, short), UpdateBatchTable(table, BeforeUnderscore(table), short);
      FixUpsFit(catalog, ddl, known, renamed[..n]);
      IfKnownFits(catalog, ddl, ddl + FixUps(known, renamed[..n]), known, update, batch);
      Joined(ddl, FixUps(known, renamed[..n]), IfKnown(known, update, batch));
    }
  }

  lemma Joined<X>(a: seq<X>, b: seq<X>, c: seq<X>)
    ensures a + b + c == a + (b + c)
  {
  }

  lemma IfKnownFits(catalog: Catalog, ddl: seq<Statement>, ss: seq<Statement>, known: set<(Kind, string)>, s: Statement, t: Statement)
    requires WellPlanned(catalog, ss) && SameTables(ddl, ss)
    requires (s.WidenDiffType? || s.UpdateDiffType?) && (t.WidenBatchTableName? || t.UpdateBatchTable?)
    requires forall n :: n in SYSTEM && (Table, n) in known ==> Stands(catalog, ddl, Table, n)
    ensures WellPlanned(catalog, ss + IfKnown(known, s, t)) && SameTables(ddl, ss + IfKnown(known, s, t))
  {
    var first := if (Table, DIFFS) in known then [s] else [];
    if (Table, DIFFS) in known { OneFits(catalog, ddl, ss, s, DIFFS); }
    assert ss + [] == ss;
    if (Table, BATCHES) in known { OneFits(catalog, ddl, ss + first, t, BATCHES); }
    assert ss + IfKnown(known, s, t) == ss + first + if (Table, BATCHES) in known then [t] else [];
  }

  lemma OneFits(catalog: Catalog, ddl: seq<Statement>, ss: seq<Statement>, s: Statement, n: string)
    requires WellPlanned(catalog, ss) && SameTables(ddl, ss) && Stands(catalog, ddl, Table, n)
    requires if n == DIFFS then s.WidenDiffType? || s.UpdateDiffType? else n == BATCHES && (s.WidenBatchTableName? || s.UpdateBatchTable?)
    ensures WellPlanned(catalog, ss + [s]) && SameTables(ddl, ss + [s])
  {
    assert GivenIn(ddl, Table, n) ==> GivenIn(ss, Table, n);
    assert TakenIn(ss, Table, n) ==> TakenIn(ddl, Table, n);
    PlannedMore(catalog, ss, s);
  }

  /** The whole plan fits, and renames exactly the tables of the moving models. */
  lemma PlanFits(catalog: Catalog, loaded: seq<Model>)
    requires Migratable(catalog, loaded)
    ensures var ss := PlanOf(catalog, loaded).statements; WellPlanned(catalog, ss) && MovesAre(catalog, loaded, ss)
  {
    var p := PlanAll(catalog, loaded);
    PlanAllKeeps(catalog, loaded, {});
    if p.renamed == [] {
      assert p.ddl + [] == p.ddl;
    } else {
      FixUpsFit(catalog, p.ddl, p.known, p.renamed);
    }
  }

  /** Run in order, each statement finds what it renames or updates, and works if the names that
      the planner does not check are free. No index or sequence is ever renamed onto a
      relation's name. */
  lemma StatementsFindTheirSource(catalog: Catalog, loaded: seq<Model>, k: nat)
    requires Migratable(catalog, loaded) && k < |PlanOf(catalog, loaded).statements|
    requires Succeeds(catalog, PlanOf(catalog, loaded).statements[..k])
    ensures NextSound(catalog, PlanOf(catalog, loaded).statements, k)
  {
    PlanFits(catalog, loaded);
    NextWorks(catalog, PlanOf(catalog, loaded).statements, k);
  }

  /** The plan works exactly when every name it does not check is free. Each is told from the
      catalog before the migration and the names planned earlier. */
  lemma PlanWorksIff(catalog: Catalog, loaded: seq<Model>)
    requires Migratable(catalog, loaded)
    ensures var ss := PlanOf(catalog, loaded).statements;
            Succeeds(catalog, ss) <==> forall k :: 0 <= k < |ss| ==> ClearAt(catalog, ss, k)
  {
    var ss := PlanOf(catalog, loaded).statements;
    PlanFits(catalog, loaded);
    WorksUpTo(catalog, ss, |ss|);
    AllClearIs(catalog, ss, |ss|);
    assert ss[..|ss|] == ss;
  }

  const USERS := Model(Some("users"), Some("ohc_users"), Some("ohc"), false, [], [])
  const INDEXED := [Entry(Table, "users", ""), Entry(Table, "logs", ""), Entry(Index, "ohc_users", "logs")]

  /** The check that is missing: an index that has the table's qualified name stops the plan. */
  lemma TableNameNotCheckedAgainstIndexes()
    ensures var plan := PlanOf(INDEXED, [USERS]);
            plan.statements == [RenameTable("users", "ohc_users")] && plan.skipped == [] && !Succeeds(INDEXED, plan.statements)
  {
    IndexedKnown();
    OwnsNothing(INDEXED, "users");
    NameInUseStops(INDEXED, USERS, INDEXED[2]);
  }

  lemma NameInUseStops(catalog: Catalog, m: Model, other: Entry)
    requires Planned(m, Known(catalog)) && !WithHistory(m, Known(catalog)) && Owned(catalog, m.short.value) == []
    requires m.table.value !in SYSTEM && (Table, DIFFS) !in Known(catalog) && (Table, BATCHES) !in Known(catalog)
    requires other in catalog && Relation(other.kind) && other.name == m.table.value
    ensures var plan := PlanOf(catalog, [m]);
            plan.statements == [RenameTable(m.short.value, m.table.value)] && plan.skipped == [] && !Succeeds(catalog, plan.statements)
  {
    PlanOfOne(catalog, m);
    OneStatement(catalog, RenameTable(m.short.value, m.table.value));
  }

  lemma IndexedKnown()
    ensures Planned(USERS, Known(INDEXED)) && (Table, DIFFS) !in Known(INDEXED) && (Table, BATCHES) !in Known(INDEXED)
  {
    assert INDEXED[0] in INDEXED;
    assert forall e :: e in INDEXED && e.kind == Table ==> e.name == "users" || e.name == "logs";
  }

  lemma {:induction false} OwnsNothing(catalog: Catalog, table: string)
    requires forall e :: e in catalog ==> e.table != table
    ensures Owned(catalog, table) == []
  {
    if catalog != [] {
      var n := |catalog| - 1;
      assert catalog[n] in catalog && forall e :: e in catalog[..n] ==> e in catalog;
      OwnsNothing(catalog[..n], table);
    }
  }

  lemma PlanOfOne(catalog: Catalog, m: Model)
    requires Planned(m, Known(catalog)) && !WithHistory(m, Known(catalog)) && Owned(catalog, m.short.value) == []
    requires m.table.value !in SYSTEM && (Table, DIFFS) !in Known(catalog) && (Table, BATCHES) !in Known(catalog)
    ensures var plan := PlanOf(catalog, [m]);
            plan.statements == [RenameTable(m.short.value, m.table.value)] && plan.skipped == []
  {
    var p := PlanAll(catalog, []);
    assert [m][..0] == [];
    PlanModelIs(catalog, m, p);
    var p1 := PlanAll(catalog, [m]);
    assert p1.renamed == [(m.short.value, m.table.value)] && p1.renamed[..0] == [];
    assert FixUps(p1.known, p1.renamed) == [];
  }

  lemma OneStatement(catalog: Catalog, s: Statement)
    ensures Succeeds(catalog, [s]) <==> Possible(catalog, s)
  {
    assert [s][..0] == [];
  }

  // ---- What the plan leaves behind ----

  /** The tables once the planned statements have run: those of the moving models have their new
      names instead of their old ones, and no other table has come, gone or been renamed. */
  lemma TablesAfter(catalog: Catalog, loaded: seq<Model>, n: string)
    requires Migratable(catalog, loaded) && Succeeds(catalog, PlanOf(catalog, loaded).statements)
    ensures var end := ExecAll(catalog, PlanOf(catalog, loaded).statements);
            HasTable(end, n) <==>
              || (HasTable(catalog, n) && forall m :: m in loaded ==> n !in Olds(catalog, m))
              || exists m :: m in loaded && n in News(catalog, m)
  {
    var ss := PlanOf(catalog, loaded).statements;
    PlanFits(catalog, loaded);
    NamesAfter(catalog, ss);
    KnownTables(catalog);
    KnownTables(ExecAll(catalog, ss));
    TakenTables(catalog, loaded, ss, n);
  }

  /** A model whose bare table was there has its qualified one afterwards, and the bare one is
      left only where both were there. */
  lemma EachTableEndsUp(catalog: Catalog, loaded: seq<Model>, m: Model)
    requires Migratable(catalog, loaded) && Succeeds(catalog, PlanOf(catalog, loaded).statements)
    requires m in loaded && Considered(m) && HasTable(catalog, m.short.value)
    ensures var end, short, table := ExecAll(catalog, PlanOf(catalog, loaded).statements), m.short.value, m.table.value;
            && HasTable(end, table)
            && (HasTable(end, short) ==> HasTable(catalog, table))
            && (m.history && HasTable(catalog, short + "_history") && !HasTable(catalog, table) ==>
                  HasTable(end, table + "_history") && !HasTable(end, short + "_history"))
  {
    var short, table := m.short.value, m.table.value;
    TablesAfter(catalog, loaded, short);
    TablesAfter(catalog, loaded, table);
    TablesAfter(catalog, loaded, short + HISTORY);
    TablesAfter(catalog, loaded, table + HISTORY);
    assert Moving(catalog, m) ==> short in Olds(catalog, m) && table in News(catalog, m);
    assert short in LookedUp(catalog, m);
  }

  /** Planning again on the result renames nothing. */
  lemma ReplanRenamesNothing(catalog: Catalog, loaded: seq<Model>)
    requires Migratable(catalog, loaded) && Succeeds(catalog, PlanOf(catalog, loaded).statements)
    ensures var end := ExecAll(catalog, PlanOf(catalog, loaded).statements);
            PlanOf(end, loaded).statements == [] && PlanOf(end, loaded).renamed == []
  {
    var ss := PlanOf(catalog, loaded).statements;
    var end := ExecAll(catalog, ss);
    PlanFits(catalog, loaded);
    NamesAfter(catalog, ss);
    KnownTables(end);
    forall m | m in loaded ensures !Planned(m, Known(end)) {
      if Considered(m) {
        TablesAfter(catalog, loaded, m.short.value);
        if HasTable(catalog, m.short.value) { EachTableEndsUp(catalog, loaded, m); }
        assert m.short.value in LookedUp(catalog, m);
      }
    }
    NothingPlanned(end, loaded);
  }

  lemma {:induction false} NothingPlanned(catalog: Catalog, loaded: seq<Model>)
    requires forall m :: m in loaded ==> !Planned(m, Known(catalog))
    ensures var p := PlanAll(catalog, loaded); p.ddl == [] && p.renamed == [] && p.known == Known(catalog)
  {
    if loaded != [] {
      var n := |loaded| - 1;
      assert loaded[n] in loaded && forall m :: m in loaded[..n] ==> m in loaded;
      NothingPlanned(catalog, loaded[..n]);
    }
  }

  predicate IsMoved(catalog: Catalog, m: Model, short: string, table: string) {
    && m.short == Some(short) && m.table == Some(table) && m.service.Some? && short != table
    && HasTable(catalog, short) && !HasTable(catalog, table)
  }

  /** The plan lists exactly the models whose bare table is there alone. */
  lemma RenamedAre(catalog: Catalog, loaded: seq<Model>, short: string, table: string)
    requires Migratable(catalog, loaded)
    ensures (short, table) in PlanOf(catalog, loaded).renamed <==>
              exists m :: m in loaded && IsMoved(catalog, m, short, table)
  {
    RenamedIn(catalog, loaded, short, table);
  }

  lemma {:induction false} RenamedIn(catalog: Catalog, loaded: seq<Model>, short: string, table: string)
    requires Migratable(catalog, loaded)
    ensures (short, table) in PlanAll(catalog, loaded).renamed <==> exists m :: m in loaded && IsMoved(catalog, m, short, table)
  {
    if loaded != [] {
      var n := |loaded| - 1;
      LastRenamed(catalog, loaded);
      RenamedIn(catalog, loaded[..n], short, table);
      assert forall m :: m in loaded <==> m in loaded[..n] || m == loaded[n];
      var m := loaded[n];
      assert IsMoved(catalog, m, short, table) <==> Moving(catalog, m) && (m.short.value, m.table.value) == (short, table);
    }
  }

  lemma LastRenamed(catalog: Catalog, loaded: seq<Model>)
    requires Migratable(catalog, loaded) && loaded != []
    ensures Migratable(catalog, loaded[..|loaded| - 1])
    ensures var m := loaded[|loaded| - 1];
            PlanAll(catalog, loaded).renamed
            == PlanAll(catalog, loaded[..|loaded| - 1]).renamed + if Moving(catalog, m) then [(m.short.value, m.table.value)] else []
  {
    var n := |loaded| - 1;
    var m, p := loaded[n], PlanAll(catalog, loaded[..n]);
    MigratablePrefix(catalog, loaded);
    PlanAllKeeps(catalog, loaded[..n], {});
    LastSeenAsIs(catalog, loaded, p);
    if Moving(catalog, m) { PlanModelIs(catalog, m, p); }
  }

  // ---- The names and rows that follow a table ----

  predicate NamedBy(name: string, service: string, k: string) {
    name == k || name == service + "_" + k
  }

  /** A YAML name is kept under itself without the service prefix. */
  lemma {:induction false} YamlNamesAre(names: seq<string>, service: string)
    ensures forall k :: k in YamlNames(names, service) ==>
              YamlNames(names, service)[k] in names && NamedBy(YamlNames(names, service)[k], service, k)
  {
    if names != [] {
      var n := |names| - 1;
      YamlNamesAre(names[..n], service);
      TrimmedName(names[n], service);
      assert forall x :: x in names[..n] ==> x in names;
    }
  }

  lemma TrimmedName(name: string, service: string)
    ensures NamedBy(name, service, TrimPrefix(name, service + "_"))
  {
    var prefix := service + "_";
    if prefix <= name {
      assert name == name[..|prefix|] + name[|prefix|..];
    }
  }

  /** An index or sequence keeps its own name: it gains the service prefix, as the YAML gives it,
      or its table's old name in front becomes the new one. */
  lemma TargetKeepsName(m: Model, e: Entry, j: Job)
    requires Considered(m) && j.yaml == Yaml(m) && Target(e, j) != ""
    ensures e.kind == Index || e.kind == Sequence
    ensures (e.kind == Index && (Target(e, j) == e.name || Target(e, j) == m.service.value + "_" + e.name))
         || exists rest: string :: e.name == j.was + "_" + rest && Target(e, j) == j.becomes + "_" + rest
  {
    YamlNamesAre(m.uniqueKeys + m.indexes, m.service.value);
    if !(e.kind == Index && e.name in j.yaml) {
      var rest := e.name[|j.was| + 1..];
      assert e.name == j.was + "_" + rest;
      assert Target(e, j) == j.becomes + "_" + rest;
    }
  }

  /** What a data statement makes of a table name it looks for. */
  function Updated(t: string, s: Statement): string {
    match s
    case UpdateDiffType(table, short) => if t == short then table else t
    case UpdateBatchTable(table, _, short) => if t == short then table else t
    case _ => t
  }

  /** What the statements make of a diff row's type, and of a batch row's table. */
  function DiffTypeAfter(t: string, ss: seq<Statement>): string {
    if ss == [] then t
    else
      var s, before := ss[|ss| - 1], DiffTypeAfter(t, ss[..|ss| - 1]);
      if s.UpdateDiffType? then Updated(before, s) else before
  }

  function BatchTableAfter(t: string, ss: seq<Statement>): string {
    if ss == [] then t
    else
      var s, before := ss[|ss| - 1], BatchTableAfter(t, ss[..|ss| - 1]);
      if s.UpdateBatchTable? then Updated(before, s) else before
  }

  lemma OneUpdate(t: string, ss: seq<Statement>, after: seq<Statement>, known: set<(Kind, string)>, u: Statement, b: Statement)
    requires !u.UpdateBatchTable? && !b.UpdateDiffType? && after == ss + IfKnown(known, u, b)
    ensures DiffTypeAfter(t, after) == (if (Table, DIFFS) in known && u.UpdateDiffType? then Updated(DiffTypeAfter(t, ss), u) else DiffTypeAfter(t, ss))
    ensures BatchTableAfter(t, after) == (if (Table, BATCHES) in known && b.UpdateBatchTable? then Updated(BatchTableAfter(t, ss), b) else BatchTableAfter(t, ss))
  {
    var first := ss + if (Table, DIFFS) in known then [u] else [];
    assert after == if (Table, BATCHES) in known then first + [b] else first;
    assert (first + [b])[..|first|] == first;
    assert (Table, DIFFS) in known ==> (ss + [u])[..|ss|] == ss;
    assert (Table, DIFFS) !in known ==> first == ss;
  }

  /** The new name of a table that was renamed, any other name as it is. */
  function NameAfter(t: string, renamed: seq<(string, string)>): string {
    if renamed == [] then t
    else if renamed[|renamed| - 1].0 == t then renamed[|renamed| - 1].1
    else NameAfter(t, renamed[..|renamed| - 1])
  }

  ghost predicate PairsApart(renamed: seq<(string, string)>) {
    && (forall i, k :: 0 <= i < k < |renamed| ==> renamed[i].0 != renamed[k].0)
    && (forall i, k :: 0 <= i < |renamed| && 0 <= k < |renamed| ==> renamed[i].1 != renamed[k].0)
  }

  lemma {:induction false} NameAfterIs(t: string, renamed: seq<(string, string)>)
    ensures NameAfter(t, renamed) == t || exists i :: 0 <= i < |renamed| && renamed[i].0 == t && renamed[i].1 == NameAfter(t, renamed)
    ensures (forall i :: 0 <= i < |renamed| ==> renamed[i].0 != t) ==> NameAfter(t, renamed) == t
  {
    if renamed != [] {
      NameAfterIs(t, renamed[..|renamed| - 1]);
    }
  }

  lemma {:induction false} RowsFollowPairs(t: string, known: set<(Kind, string)>, renamed: seq<(string, string)>)
    requires PairsApart(renamed)
    ensures RowsAre(t, FixUps(known, renamed), known, NameAfter(t, renamed))
  {
    if renamed == [] {
      OneUpdate(t, [], FixUps(known, renamed), known, WidenDiffType, WidenBatchTableName);
    } else {
      var n := |renamed| - 1;
      LastPairFollows(t, renamed);
      RowsFollowPairs(t, known, renamed[..n]);
      NextPair(t, FixUps(known, renamed[..n]), FixUps(known, renamed), known, renamed[n].0, renamed[n].1, NameAfter(t, renamed[..n]));
    }
  }

  /** The statements give a row that holds t this name, where its table is there. */
  ghost predicate RowsAre(t: string, ss: seq<Statement>, known: set<(Kind, string)>, name: string) {
    && DiffTypeAfter(t, ss) == (if (Table, DIFFS) in known then name else t)
    && BatchTableAfter(t, ss) == (if (Table, BATCHES) in known then name else t)
  }

  lemma NextPair(t: string, ss: seq<Statement>, after: seq<Statement>, known: set<(Kind, string)>, short: string, table: string, name: string)
    requires RowsAre(t, ss, known, name)
    requires after == ss + IfKnown(known, UpdateDiffType(table, short), UpdateBatchTable(table, BeforeUnderscore(table), short))
    ensures RowsAre(t, after, known, if name == short then table else name)
  {
    OneUpdate(t, ss, after, known, UpdateDiffType(table, short), UpdateBatchTable(table, BeforeUnderscore(table), short));
  }

  /** A name that an earlier pair gave is not one that the last pair looks for. */
  lemma LastPairFollows(t: string, renamed: seq<(string, string)>)
    requires PairsApart(renamed) && renamed != []
    ensures var n := |renamed| - 1;
            && PairsApart(renamed[..n])
            && NameAfter(t, renamed) == if NameAfter(t, renamed[..n]) == renamed[n].0 then renamed[n].1 else NameAfter(t, renamed[..n])
  {
    var n := |renamed| - 1;
    NameAfterIs(t, renamed[..n]);
    assert forall i :: 0 <= i < n ==> renamed[..n][i] == renamed[i];
  }

  lemma {:induction false} RenamedPairsApart(catalog: Catalog, loaded: seq<Model>)
    requires Migratable(catalog, loaded)
    ensures PairsApart(PlanAll(catalog, loaded).renamed)
  {
    if loaded != [] {
      var n := |loaded| - 1;
      var m, p := loaded[n], PlanAll(catalog, loaded[..n]);
      LastRenamed(catalog, loaded);
      RenamedPairsApart(catalog, loaded[..n]);
      if Moving(catalog, m) {
        forall i | 0 <= i < |p.renamed|
          ensures p.renamed[i].0 != m.short.value && p.renamed[i].1 != m.short.value && p.renamed[i].0 != m.table.value
        {
          EarlierPairApart(catalog, loaded, p.renamed[i].0, p.renamed[i].1);
        }
      }
    }
  }

  lemma EarlierPairApart(catalog: Catalog, loaded: seq<Model>, short: string, table: string)
    requires Migratable(catalog, loaded) && loaded != [] && Moving(catalog, loaded[|loaded| - 1])
    requires (short, table) in PlanAll(catalog, loaded[..|loaded| - 1]).renamed
    ensures var m := loaded[|loaded| - 1]; short != m.short.value && table != m.short.value && short != m.table.value
  {
    var n := |loaded| - 1;
    MigratablePrefix(catalog, loaded);
    RenamedIn(catalog, loaded[..n], short, table);
    var o :| o in loaded[..n] && IsMoved(catalog, o, short, table);
    var i :| 0 <= i < n && loaded[..n][i] == o;
    assert Apart(catalog, loaded[i], loaded[n]);
    assert short in Olds(catalog, o) && table in News(catalog, o);
    assert loaded[n].short.value in Olds(catalog, loaded[n]) && loaded[n].table.value in News(catalog, loaded[n]);
  }

  /** A row's table name afterwards: the new name of a renamed table, any other as it was. */
  ghost predicate Follows(t: string, after: string, renamed: seq<(string, string)>) {
    && (after != t ==> (t, after) in renamed)
    && (forall r :: r in renamed && r.0 == t ==> after == r.1)
  }

  /** Rows that name a renamed table name it by its new name afterwards, and no other row
      changes: a name already moved is not moved again. Each of the two tables with such rows is
      updated if it is there, whether or not the other is. */
  lemma RowsFollowTables(catalog: Catalog, loaded: seq<Model>, t: string)
    requires Migratable(catalog, loaded)
    ensures var p := PlanAll(catalog, loaded); var ss := FixUps(p.known, p.renamed);
            && (if (Table, DIFFS) in p.known then Follows(t, DiffTypeAfter(t, ss), p.renamed) else DiffTypeAfter(t, ss) == t)
            && (if (Table, BATCHES) in p.known then Follows(t, BatchTableAfter(t, ss), p.renamed) else BatchTableAfter(t, ss) == t)
  {
    var p := PlanAll(catalog, loaded);
    RenamedPairsApart(catalog, loaded);
    RowsFollowPairs(t, p.known, p.renamed);
    NameFollows(t, p.renamed);
  }

  lemma NameFollows(t: string, renamed: seq<(string, string)>)
    requires PairsApart(renamed)
    ensures Follows(t, NameAfter(t, renamed), renamed)
  {
    NameAfterIs(t, renamed);
    forall r | r in renamed && r.0 == t ensures NameAfter(t, renamed) == r.1 {
      var k :| 0 <= k < |renamed| && renamed[k] == r;
      NameAfterAt(renamed, k);
    }
  }

  lemma {:induction false} NameAfterAt(renamed: seq<(string, string)>, k: nat)
    requires PairsApart(renamed) && k < |renamed|
    ensures NameAfter(renamed[k].0, renamed) == renamed[k].1
  {
    if k < |renamed| - 1 {
      assert renamed[..|renamed| - 1][k] == renamed[k];
      NameAfterAt(renamed[..|renamed| - 1], k);
    }
  }

  /** The service a batch row gets is the table's own, as no service has a '_'. */
  lemma {:induction false} ServiceOfQualified(service: string, short: string)
    requires '_' !in service
    ensures BeforeUnderscore(service + "_" + short) == service
  {
    if service == [] {
      assert service + "_" + short == "_" + short;
    } else {
      ServiceOfQualified(service[1..], short);
      assert (service + "_" + short)[1..] == service[1..] + "_" + short;
    }
  }

  // ---- Every object of a moved table is dealt with ----

  /** A relation of this kind had the name, or one of the statements gives it. */
  predicate Had(catalog: Catalog, ss: seq<Statement>, k: Kind, name: string) {
    (k, name) in Known(catalog) || GivenIn(ss, k, name)
  }

  predicate TakenName(catalog: Catalog, ss: seq<Statement>, name: string) {
    Had(catalog, ss, Table, name) || Had(catalog, ss, Index, name) || Had(catalog, ss, Sequence, name)
  }

  /** One of the statements renames the object, to a name that was free until then. */
  ghost predicate Renamed(catalog: Catalog, ss: seq<Statement>, e: Entry, name: string) {
    exists k :: 0 <= k < |ss| && ss[k] == RenameOf(e, name) && !TakenName(catalog, ss[..k], name)
  }

  /** An index or sequence that should get this name has a rename to it, unless the name is taken:
      then it keeps its own, and a skip says so. */
  ghost predicate Named(catalog: Catalog, ss: seq<Statement>, skipped: seq<Skip>, table: string, e: Entry, name: string) {
    if name == e.name then !TakenIn(ss, e.kind, e.name)
    else
      || Renamed(catalog, ss, e, name)
      || (NameTaken(table, e.name, name) in skipped && TakenName(catalog, ss, name) && !TakenIn(ss, e.kind, e.name))
  }

  /** A foreign key named after the bare table of a moved history table, and its new name. */
  function KeyTarget(e: Entry, j: Job): Option<string> {
    var prefix := "fk_" + j.short + "_history_";
    if prefix <= e.name && j.was == j.short + HISTORY then Some("fk_" + j.table + "_history_" + e.name[|prefix|..]) else None
  }

  ghost predicate Handled(catalog: Catalog, ss: seq<Statement>, skipped: seq<Skip>, e: Entry, j: Job) {
    if e.kind == ForeignKey then
      match KeyTarget(e, j)
      case Some(name) => RenameConstraint(j.becomes, e.name, name) in ss
      case None => !KeyTaken(ss, j.becomes, e.name)
    else if Target(e, j) == "" then !TakenIn(ss, e.kind, e.name)
    else Named(catalog, ss, skipped, j.table, e, Target(e, j))
  }

  /** The planner has not come to the object. */
  ghost predicate Waits(ss: seq<Statement>, e: Entry, j: Job) {
    if e.kind == ForeignKey then !KeyTaken(ss, j.becomes, e.name) else !TakenIn(ss, e.kind, e.name)
  }

  /** More statements that do not rename the object. */
  ghost predicate Stable(ss: seq<Statement>, ss': seq<Statement>, e: Entry, j: Job) {
    && ss <= ss'
    && (if e.kind == ForeignKey then KeyTaken(ss', j.becomes, e.name) <==> KeyTaken(ss, j.becomes, e.name)
        else TakenIn(ss', e.kind, e.name) <==> TakenIn(ss, e.kind, e.name))
  }

  ghost predicate SkipsKept(skipped: seq<Skip>, skipped': seq<Skip>) {
    forall x :: x in skipped ==> x in skipped'
  }

  lemma TakenNameStays(catalog: Catalog, ss: seq<Statement>, ss': seq<Statement>, name: string)
    requires ss <= ss' && TakenName(catalog, ss, name)
    ensures TakenName(catalog, ss', name)
  {
    assert forall s :: s in ss ==> s in ss';
  }

  lemma HandledStays(catalog: Catalog, ss: seq<Statement>, ss': seq<Statement>, skipped: seq<Skip>, skipped': seq<Skip>, e: Entry, j: Job)
    requires Handled(catalog, ss, skipped, e, j) && Stable(ss, ss', e, j) && SkipsKept(skipped, skipped')
    ensures Handled(catalog, ss', skipped', e, j)
  {
    assert forall s :: s in ss ==> s in ss';
    if e.kind != ForeignKey && Target(e, j) != "" && Target(e, j) != e.name {
      var name := Target(e, j);
      if Renamed(catalog, ss, e, name) {
        var k :| 0 <= k < |ss| && ss[k] == RenameOf(e, name) && !TakenName(catalog, ss[..k], name);
        assert ss'[..k] == ss[..k] && ss'[k] == ss[k];
      } else {
        TakenNameStays(catalog, ss, ss', name);
      }
    }
  }

  lemma KnownTaken(catalog: Catalog, p: Progress, name: string)
    requires KnownIs(catalog, p)
    ensures Taken(p.known, name) <==> TakenName(catalog, p.ddl, name)
  {
  }

  lemma OneHandles(catalog: Catalog, e: Entry, j: Job, p: Progress)
    requires KnownIs(catalog, p) && e.kind != Table && Waits(p.ddl, e, j)
    ensures Handled(catalog, PlanOne(e, j, p).ddl, PlanOne(e, j, p).skipped, e, j)
  {
    var p' := PlanOne(e, j, p);
    if e.kind != ForeignKey {
      var name := Target(e, j);
      KnownTaken(catalog, p, name);
      if p'.ddl != p.ddl {
        assert p'.ddl[|p.ddl|] == RenameOf(e, name) && p'.ddl[..|p.ddl|] == p.ddl;
      }
    }
  }

  lemma OneGrows(catalog: Catalog, e: Entry, j: Job, p: Progress)
    requires KnownIs(catalog, p) && e.kind != Table
    ensures var p' := PlanOne(e, j, p); KnownIs(catalog, p') && p.ddl <= p'.ddl && SkipsKept(p.skipped, p'.skipped)
  {
    var p' := PlanOne(e, j, p);
    if p'.ddl != p.ddl {
      StandsMore(catalog, p.ddl, p'.ddl[|p.ddl|]);
      assert p'.ddl == p.ddl + [p'.ddl[|p.ddl|]];
    }
  }

  /** Another object, of the same table or of one that another job renames. */
  predicate Other(e: Entry, j: Job, x: Entry, jx: Job) {
    if j == jx then x.kind != e.kind || x.name != e.name else j.was != jx.was && j.becomes != jx.becomes
  }

  lemma OneOthers(catalog: Catalog, e: Entry, j: Job, p: Progress, x: Entry, jx: Job)
    requires WellFormed(catalog) && e in catalog && x in catalog && e.kind != Table && x.kind != Table
    requires e.table == j.was && x.table == jx.was && Other(e, j, x, jx)
    ensures Stable(p.ddl, PlanOne(e, j, p).ddl, x, jx)
  {
    var p' := PlanOne(e, j, p);
    if p'.ddl != p.ddl {
      var s := p'.ddl[|p.ddl|];
      assert p'.ddl == p.ddl + [s];
      StandsMore(catalog, p.ddl, s);
      KeyStandsMore(p.ddl, s);
      if Takes(s, x.kind, x.name) {
        OneRelation(catalog, x, e);
      }
    }
  }

  ghost predicate OwnedBy(catalog: Catalog, owned: seq<Entry>, j: Job) {
    forall e :: e in owned ==> e in catalog && e.table == j.was && e.kind != Table
  }

  lemma {:induction false} OwnedGrows(catalog: Catalog, owned: seq<Entry>, j: Job, p: Progress)
    requires KnownIs(catalog, p) && OwnedBy(catalog, owned, j)
    ensures var p' := PlanOwned(owned, j, p); KnownIs(catalog, p') && p.ddl <= p'.ddl && SkipsKept(p.skipped, p'.skipped)
  {
    if owned != [] {
      var n := |owned| - 1;
      assert owned[n] in owned && forall e :: e in owned[..n] ==> e in owned;
      OwnedGrows(catalog, owned[..n], j, p);
      OneGrows(catalog, owned[n], j, PlanOwned(owned[..n], j, p));
    }
  }

  lemma {:induction false} OwnedOthers(catalog: Catalog, owned: seq<Entry>, j: Job, p: Progress, x: Entry, jx: Job)
    requires WellFormed(catalog) && KnownIs(catalog, p) && OwnedBy(catalog, owned, j) && x in catalog && x.kind != Table && x.table == jx.was
    requires forall e :: e in owned ==> Other(e, j, x, jx)
    ensures Stable(p.ddl, PlanOwned(owned, j, p).ddl, x, jx)
  {
    if owned != [] {
      var n := |owned| - 1;
      assert owned[n] in owned && forall e :: e in owned[..n] ==> e in owned;
      OwnedOthers(catalog, owned[..n], j, p, x, jx);
      OneOthers(catalog, owned[n], j, PlanOwned(owned[..n], j, p), x, jx);
    }
  }

  lemma {:induction false} OwnedHandles(catalog: Catalog, owned: seq<Entry>, j: Job, p: Progress, e: Entry)
    requires WellFormed(catalog) && KnownIs(catalog, p) && OwnedBy(catalog, owned, j) && EachOnce(owned) && e in owned && Waits(p.ddl, e, j)
    ensures Handled(catalog, PlanOwned(owned, j, p).ddl, PlanOwned(owned, j, p).skipped, e, j)
  {
    var n := |owned| - 1;
    var p1 := PlanOwned(owned[..n], j, p);
    assert owned[n] in owned && forall x :: x in owned[..n] ==> x in owned;
    OwnedGrows(catalog, owned[..n], j, p);
    LastIsAlone(owned);
    if e == owned[n] {
      OwnedOthers(catalog, owned[..n], j, p, e, j);
      OneHandles(catalog, e, j, p1);
    } else {
      OwnedHandles(catalog, owned[..n], j, p, e);
      OneGrows(catalog, owned[n], j, p1);
      assert e in owned[..n];
      OneOthers(catalog, owned[n], j, p1, e, j);
      HandledStays(catalog, p1.ddl, PlanOwned(owned, j, p).ddl, p1.skipped, PlanOwned(owned, j, p).skipped, e, j);
    }
  }

  lemma TableStarts(catalog: Catalog, j: Job, p: Progress)
    requires WellFormed(catalog) && KnownIs(catalog, p)
    ensures KnownIs(catalog, Renaming(j, p)) && OwnedBy(catalog, Owned(catalog, j.was), j) && EachOnce(Owned(catalog, j.was))
    ensures forall x: Entry, jx: Job :: x.kind != Table ==> Stable(p.ddl, Renaming(j, p).ddl, x, jx)
  {
    StandsMore(catalog, p.ddl, RenameTable(j.was, j.becomes));
    KeyStandsMore(p.ddl, RenameTable(j.was, j.becomes));
    OwnedIs(catalog, j.was);
  }

  /** One table's job handles each object it owns, and renames no other table's. */
  lemma TableHandles(catalog: Catalog, j: Job, p: Progress, e: Entry)
    requires WellFormed(catalog) && KnownIs(catalog, p) && e in catalog && e.kind != Table && e.table == j.was && j.was != "" && Waits(p.ddl, e, j)
    ensures Handled(catalog, PlanTable(catalog, j, p).ddl, PlanTable(catalog, j, p).skipped, e, j)
  {
    TableStarts(catalog, j, p);
    OwnedIs(catalog, j.was);
    OwnedHandles(catalog, Owned(catalog, j.was), j, Renaming(j, p), e);
  }

  lemma TableOthers(catalog: Catalog, j: Job, p: Progress, x: Entry, jx: Job)
    requires WellFormed(catalog) && KnownIs(catalog, p) && x in catalog && x.kind != Table && x.table == jx.was
    requires j.was != jx.was && j.becomes != jx.becomes
    ensures var p' := PlanTable(catalog, j, p);
            KnownIs(catalog, p') && Stable(p.ddl, p'.ddl, x, jx) && SkipsKept(p.skipped, p'.skipped)
  {
    TableStarts(catalog, j, p);
    OwnedGrows(catalog, Owned(catalog, j.was), j, Renaming(j, p));
    OwnedOthers(catalog, Owned(catalog, j.was), j, Renaming(j, p), x, jx);
  }

  lemma TableKnown(catalog: Catalog, j: Job, p: Progress)
    requires WellFormed(catalog) && KnownIs(catalog, p)
    ensures var p' := PlanTable(catalog, j, p); KnownIs(catalog, p') && p.ddl <= p'.ddl && SkipsKept(p.skipped, p'.skipped)
  {
    TableStarts(catalog, j, p);
    OwnedGrows(catalog, Owned(catalog, j.was), j, Renaming(j, p));
  }

  /** The jobs of a moving model. */
  predicate JobOf(catalog: Catalog, m: Model, j: Job) {
    Moving(catalog, m) && (j == MainJob(m) || (Tracked(catalog, m) && j == HistoryJob(m)))
  }

  lemma JobNames(catalog: Catalog, m: Model, j: Job)
    requires JobOf(catalog, m, j)
    ensures j.was in Olds(catalog, m) && j.becomes in News(catalog, m) && Moves(catalog, m, RenameTable(j.was, j.becomes))
  {
  }

  lemma ModelHandles(catalog: Catalog, m: Model, p: Progress, e: Entry, j: Job)
    requires WellFormed(catalog) && KnownIs(catalog, p) && SeenAsIs(catalog, m, p.known) && JobOf(catalog, m, j)
    requires e in catalog && e.kind != Table && e.table == j.was && j.was != "" && Waits(p.ddl, e, j)
    ensures Handled(catalog, PlanModel(catalog, m, p).ddl, PlanModel(catalog, m, p).skipped, e, j)
  {
    PlanModelIs(catalog, m, p);
    var p1 := PlanTable(catalog, MainJob(m), p);
    TableKnown(catalog, MainJob(m), p);
    if j == MainJob(m) {
      TableHandles(catalog, j, p, e);
      if Tracked(catalog, m) {
        TableOthers(catalog, HistoryJob(m), p1, e, j);
        HandledStays(catalog, p1.ddl, PlanModel(catalog, m, p).ddl, p1.skipped, PlanModel(catalog, m, p).skipped, e, j);
      }
    } else {
      TableOthers(catalog, MainJob(m), p, e, j);
      TableHandles(catalog, j, p1, e);
    }
  }

  lemma ModelOthers(catalog: Catalog, m: Model, p: Progress, x: Entry, jx: Job)
    requires WellFormed(catalog) && KnownIs(catalog, p) && SeenAsIs(catalog, m, p.known)
    requires x in catalog && x.kind != Table && x.table == jx.was && jx.was !in Olds(catalog, m) && jx.becomes !in News(catalog, m)
    ensures var p' := PlanModel(catalog, m, p); Stable(p.ddl, p'.ddl, x, jx) && SkipsKept(p.skipped, p'.skipped)
  {
    if Moving(catalog, m) {
      PlanModelIs(catalog, m, p);
      TableOthers(catalog, MainJob(m), p, x, jx);
      if Tracked(catalog, m) {
        TableOthers(catalog, HistoryJob(m), PlanTable(catalog, MainJob(m), p), x, jx);
      }
    }
  }

  lemma WaitsBefore(catalog: Catalog, p: Progress, keep: set<string>, e: Entry, j: Job)
    requires Inv(catalog, p, keep) && {j.was, j.becomes} <= keep && e in catalog && e.kind != Table && e.table == j.was
    ensures Waits(p.ddl, e, j)
  {
    assert Unnamed(p.ddl, j.becomes) && Untouched(p.ddl, e);
  }

  lemma {:induction false} AllHandled(catalog: Catalog, loaded: seq<Model>, m: Model, e: Entry, j: Job)
    requires Migratable(catalog, loaded) && m in loaded && JobOf(catalog, m, j)
    requires e in catalog && e.kind != Table && e.table == j.was
    ensures Handled(catalog, PlanAll(catalog, loaded).ddl, PlanAll(catalog, loaded).skipped, e, j)
  {
    var n := |loaded| - 1;
    if m == loaded[n] {
      LastHandled(catalog, loaded, e, j);
    } else {
      assert m in loaded[..n] by { assert loaded == loaded[..n] + [loaded[n]]; }
      MigratablePrefix(catalog, loaded);
      AllHandled(catalog, loaded[..n], m, e, j);
      LastStable(catalog, loaded, m, e, j);
      HandledStays(catalog, PlanAll(catalog, loaded[..n]).ddl, PlanAll(catalog, loaded).ddl,
                   PlanAll(catalog, loaded[..n]).skipped, PlanAll(catalog, loaded).skipped, e, j);
    }
  }

  lemma LastHandled(catalog: Catalog, loaded: seq<Model>, e: Entry, j: Job)
    requires Migratable(catalog, loaded) && loaded != [] && JobOf(catalog, loaded[|loaded| - 1], j)
    requires e in catalog && e.kind != Table && e.table == j.was
    ensures Handled(catalog, PlanAll(catalog, loaded).ddl, PlanAll(catalog, loaded).skipped, e, j)
  {
    var n := |loaded| - 1;
    var last, p := loaded[n], PlanAll(catalog, loaded[..n]);
    var names := {} + Olds(catalog, last) + News(catalog, last);
    MigratablePrefix(catalog, loaded);
    MoreUnmentioned(catalog, loaded, {});
    PlanAllKeeps(catalog, loaded[..n], names);
    LastSeenAsIs(catalog, loaded, p);
    JobNames(catalog, last, j);
    assert j.was != "" by { assert Entry(Table, j.was, "").name == j.was; }
    WaitsBefore(catalog, p, names, e, j);
    ModelHandles(catalog, last, p, e, j);
  }

  lemma LastStable(catalog: Catalog, loaded: seq<Model>, m: Model, e: Entry, j: Job)
    requires Migratable(catalog, loaded) && loaded != [] && m in loaded[..|loaded| - 1] && JobOf(catalog, m, j)
    requires e in catalog && e.kind != Table && e.table == j.was
    ensures var n := |loaded| - 1;
            && Stable(PlanAll(catalog, loaded[..n]).ddl, PlanAll(catalog, loaded).ddl, e, j)
            && SkipsKept(PlanAll(catalog, loaded[..n]).skipped, PlanAll(catalog, loaded).skipped)
  {
    var n := |loaded| - 1;
    MigratablePrefix(catalog, loaded);
    PlanAllKeeps(catalog, loaded[..n], {});
    LastSeenAsIs(catalog, loaded, PlanAll(catalog, loaded[..n]));
    JobNames(catalog, m, j);
    var i :| 0 <= i < n && loaded[..n][i] == m;
    assert Apart(catalog, loaded[i], loaded[n]);
    ModelOthers(catalog, loaded[n], PlanAll(catalog, loaded[..n]), e, j);
  }

  // ---- Which models are skipped ----

  ghost predicate SameBoth(skipped: seq<Skip>, skipped': seq<Skip>) {
    forall x: Skip :: x.BothExist? ==> (x in skipped <==> x in skipped')
  }

  lemma {:induction false} OwnedSkips(owned: seq<Entry>, j: Job, p: Progress)
    ensures SameBoth(p.skipped, PlanOwned(owned, j, p).skipped)
  {
    if owned != [] {
      OwnedSkips(owned[..|owned| - 1], j, p);
    }
  }

  lemma ModelSkips(catalog: Catalog, m: Model, p: Progress)
    requires Planned(m, p.known)
    ensures SameBoth(p.skipped, PlanModel(catalog, m, p).skipped)
  {
    PlanModelIs(catalog, m, p);
    OwnedSkips(Owned(catalog, m.short.value), MainJob(m), Renaming(MainJob(m), p));
    if WithHistory(m, p.known) {
      var p1 := PlanTable(catalog, MainJob(m), p);
      OwnedSkips(Owned(catalog, HistoryJob(m).was), HistoryJob(m), Renaming(HistoryJob(m), p1));
    }
  }

  predicate HasBoth(catalog: Catalog, m: Model, short: string, table: string) {
    && m.short == Some(short) && m.table == Some(table) && m.service.Some? && short != table
    && HasTable(catalog, short) && HasTable(catalog, table)
  }

  /** The models that are left where they are, with a skip that says so, are exactly those whose
      bare and qualified tables both are there. */
  lemma BothExistAre(catalog: Catalog, loaded: seq<Model>, short: string, table: string)
    requires Migratable(catalog, loaded)
    ensures BothExist(short, table) in PlanOf(catalog, loaded).skipped <==> exists m :: m in loaded && HasBoth(catalog, m, short, table)
  {
    BothExistIn(catalog, loaded, short, table);
  }

  lemma {:induction false} BothExistIn(catalog: Catalog, loaded: seq<Model>, short: string, table: string)
    requires Migratable(catalog, loaded)
    ensures BothExist(short, table) in PlanAll(catalog, loaded).skipped <==> exists m :: m in loaded && HasBoth(catalog, m, short, table)
  {
    if loaded != [] {
      var n := |loaded| - 1;
      MigratablePrefix(catalog, loaded);
      BothExistIn(catalog, loaded[..n], short, table);
      LastSkips(catalog, loaded, short, table);
      assert forall m :: m in loaded <==> m in loaded[..n] || m == loaded[n];
    }
  }

  lemma LastSkips(catalog: Catalog, loaded: seq<Model>, short: string, table: string)
    requires Migratable(catalog, loaded) && loaded != []
    ensures var n := |loaded| - 1;
            BothExist(short, table) in PlanAll(catalog, loaded).skipped <==>
              BothExist(short, table) in PlanAll(catalog, loaded[..n]).skipped || HasBoth(catalog, loaded[n], short, table)
  {
    var n := |loaded| - 1;
    var m, p := loaded[n], PlanAll(catalog, loaded[..n]);
    MigratablePrefix(catalog, loaded);
    PlanAllKeeps(catalog, loaded[..n], {});
    LastSeenAsIs(catalog, loaded, p);
    ShortKnownIff(catalog, loaded, p);
    if Planned(m, p.known) { ModelSkips(catalog, m, p); }
  }

  lemma ShortKnownIff(catalog: Catalog, loaded: seq<Model>, p: Progress)
    requires Migratable(catalog, loaded) && loaded != [] && KnownIs(catalog, p) && MovesAre(catalog, loaded[..|loaded| - 1], p.ddl)
    ensures var m := loaded[|loaded| - 1];
            Considered(m) ==>
              && ((Table, m.short.value) in p.known <==> HasTable(catalog, m.short.value))
              && (HasTable(catalog, m.table.value) ==> (Table, m.table.value) in p.known)
  {
    var m := loaded[|loaded| - 1];
    KnownTables(catalog);
    assert Considered(m) ==> m.short.value in LookedUp(catalog, m);
    if Considered(m) && GivenIn(p.ddl, Table, m.short.value) {
      EarlierNewName(catalog, loaded, p.ddl, m.short.value);
    }
  }

  // ---- The names that are wanted ----

  /** A YAML name stands for its part behind the service prefix, or for itself without one. */
  predicate StandsFor(q: string, service: string, k: string) {
    q == service + "_" + k || (q == k && !(service + "_" <= q))
  }

  /** The name that an index or sequence of a moved table should get: for an index named in the
      YAML that name, and for any other its own with the table's new name in front. */
  ghost predicate Wants(m: Model, was: string, becomes: string, e: Entry, name: string)
    requires Considered(m)
  {
    var names, service := m.uniqueKeys + m.indexes, m.service.value;
    if e.kind == Index && exists q :: q in names && StandsFor(q, service, e.name) then name in names && StandsFor(name, service, e.name)
    else exists rest: string :: e.name == was + "_" + rest && name == becomes + "_" + rest
  }

  lemma TrimIs(q: string, service: string, k: string)
    ensures StandsFor(q, service, k) <==> TrimPrefix(q, service + "_") == k
  {
    var prefix := service + "_";
    if prefix <= q {
      assert q == prefix + q[|prefix|..];
    }
    assert prefix <= prefix + k && (prefix + k)[|prefix|..] == k;
  }

  lemma {:induction false} YamlHas(names: seq<string>, service: string, k: string)
    ensures k in YamlNames(names, service) <==> exists q :: q in names && StandsFor(q, service, k)
    ensures k in YamlNames(names, service) ==> YamlNames(names, service)[k] in names && StandsFor(YamlNames(names, service)[k], service, k)
  {
    if names != [] {
      var n := |names| - 1;
      YamlHas(names[..n], service, k);
      TrimIs(names[n], service, k);
      assert forall q :: q in names <==> q in names[..n] || q == names[n];
    }
  }

  /** The planner's target is the wanted name, and it has none just where none is wanted. */
  lemma TargetIsWanted(catalog: Catalog, m: Model, e: Entry, j: Job)
    requires JobOf(catalog, m, j) && (e.kind == Index || e.kind == Sequence) && "" !in m.uniqueKeys + m.indexes
    ensures Target(e, j) != "" ==> Wants(m, j.was, j.becomes, e, Target(e, j))
    ensures Target(e, j) == "" ==> forall name :: !Wants(m, j.was, j.becomes, e, name)
  {
    var names, service := m.uniqueKeys + m.indexes, m.service.value;
    YamlHas(names, service, e.name);
    if j.was + "_" <= e.name {
      assert e.name == j.was + "_" + e.name[|j.was| + 1..];
    }
    forall rest: string | e.name == j.was + "_" + rest ensures j.was + "_" <= e.name && e.name[|j.was| + 1..] == rest {
      assert |j.was + "_"| == |j.was| + 1;
    }
  }

  lemma StatementsHandle(catalog: Catalog, loaded: seq<Model>, m: Model, e: Entry, j: Job)
    requires Migratable(catalog, loaded) && m in loaded && JobOf(catalog, m, j) && e in catalog && e.kind != Table && e.table == j.was
    ensures Handled(catalog, PlanOf(catalog, loaded).statements, PlanOf(catalog, loaded).skipped, e, j)
  {
    var p := PlanAll(catalog, loaded);
    AllHandled(catalog, loaded, m, e, j);
    var more := if p.renamed == [] then [] else FixUps(p.known, p.renamed);
    FixUpsRename(p.known, p.renamed);
    assert forall s :: s in p.ddl + more <==> s in p.ddl || s in more;
    assert Stable(p.ddl, p.ddl + more, e, j);
    HandledStays(catalog, p.ddl, p.ddl + more, p.skipped, p.skipped, e, j);
  }

  lemma {:induction false} FixUpsRename(known: set<(Kind, string)>, renamed: seq<(string, string)>)
    ensures forall s :: s in FixUps(known, renamed) ==> !s.RenameTable? && !s.RenameIndex? && !s.RenameSequence? && !s.RenameConstraint?
  {
    if renamed != [] {
      FixUpsRename(known, renamed[..|renamed| - 1]);
    }
  }

  /** Each index and sequence of a moved table gets the name it should, unless that is its own or
      taken, and is not renamed otherwise. The name counts as taken exactly when a relation had
      it or was given it by an earlier statement; then a skip says so. */
  lemma ObjectsFollow(catalog: Catalog, loaded: seq<Model>, m: Model, was: string, becomes: string, e: Entry)
    requires Migratable(catalog, loaded) && m in loaded && Moves(catalog, m, RenameTable(was, becomes)) && "" !in m.uniqueKeys + m.indexes
    requires e in catalog && (e.kind == Index || e.kind == Sequence) && e.table == was
    ensures var plan := PlanOf(catalog, loaded);
            if exists name :: Wants(m, was, becomes, e, name)
            then exists name :: Wants(m, was, becomes, e, name) && Named(catalog, plan.statements, plan.skipped, m.table.value, e, name)
            else !TakenIn(plan.statements, e.kind, e.name)
  {
    var j := if was == m.short.value then MainJob(m) else HistoryJob(m);
    StatementsHandle(catalog, loaded, m, e, j);
    TargetIsWanted(catalog, m, e, j);
  }

  /** Each foreign key of a moved history table that is named after the bare table is renamed after
      the qualified one, and no other foreign key of a moved table is. */
  lemma KeysFollow(catalog: Catalog, loaded: seq<Model>, m: Model, was: string, becomes: string, e: Entry)
    requires Migratable(catalog, loaded) && m in loaded && Moves(catalog, m, RenameTable(was, becomes))
    requires e in catalog && e.kind == ForeignKey && e.table == was
    ensures var ss, short, table := PlanOf(catalog, loaded).statements, m.short.value, m.table.value;
            && (forall rest: string :: was == short + HISTORY && e.name == "fk_" + short + "_history_" + rest ==>
                  RenameConstraint(becomes, e.name, "fk_" + table + "_history_" + rest) in ss)
            && (was == short || !("fk_" + short + "_history_" <= e.name) ==> !KeyTaken(ss, becomes, e.name))
  {
    var j := if was == m.short.value then MainJob(m) else HistoryJob(m);
    StatementsHandle(catalog, loaded, m, e, j);
    var prefix := "fk_" + m.short.value + "_history_";
    forall rest: string | e.name == prefix + rest ensures prefix <= e.name && e.name[|prefix|..] == rest {
    }
  }

  // ---- Two models with one bare name ----

  lemma {:induction false} SucceedsBefore(catalog: Catalog, ss: seq<Statement>, k: nat)
    requires Succeeds(catalog, ss) && k <= |ss|
    ensures Succeeds(catalog, ss[..k])
    decreases |ss|
  {
    if k == |ss| {
      assert ss[..k] == ss;
    } else {
      SucceedsBefore(catalog, ss[..|ss| - 1], k);
      PrefixOfPrefix(ss, k);
    }
  }

  lemma PrefixOfPrefix<X>(s: seq<X>, k: nat)
    requires k < |s|
    ensures s[..|s| - 1][..k] == s[..k]
  {
  }

  /** A table that was renamed is gone until a rename gives its name again. */
  lemma {:induction false} GoneUnlessGiven(catalog: Catalog, ss: seq<Statement>, k: nat, name: string)
    requires k < |ss| && Takes(ss[k], Table, name)
    requires forall i :: k <= i < |ss| ==> !Gives(ss[i], Table, name)
    ensures !HasTable(ExecAll(catalog, ss), name)
    decreases |ss|
  {
    var n := |ss| - 1;
    var before := ExecAll(catalog, ss[..n]);
    if k < n { GoneUnlessGiven(catalog, ss[..n], k, name); }
    forall e | e in before ensures Move(e, ss[n]) != Entry(Table, name, "") {
      assert e == Entry(Table, name, "") ==> k == n;
    }
    if HasTable(Exec(before, ss[n]), name) {
      Source(before, ss[n], Entry(Table, name, ""));
    }
  }

  lemma TwiceTakenFails(catalog: Catalog, ss: seq<Statement>, k: nat, j: nat, name: string)
    requires k < j < |ss| && Takes(ss[k], Table, name) && Takes(ss[j], Table, name)
    requires forall i :: k <= i < j ==> !Gives(ss[i], Table, name)
    ensures !Succeeds(catalog, ss)
  {
    GoneUnlessGiven(catalog, ss[..j], k, name);
    assert ss[..j + 1] == ss[..j] + [ss[j]];
    Extend(catalog, ss[..j], ss[j]);
    if Succeeds(catalog, ss) {
      SucceedsBefore(catalog, ss, j + 1);
    }
  }

  /** The names a model's tables may be renamed to. */
  function Targets(m: Model): set<string> {
    if !Considered(m) then {}
    else {m.table.value} + if m.history then {m.table.value + HISTORY} else {}
  }

  ghost predicate NoTables(ss: seq<Statement>, from: nat) {
    forall i :: from <= i < |ss| ==> !ss[i].RenameTable?
  }

  lemma {:induction false} PlanOwnedGrows(owned: seq<Entry>, j: Job, p: Progress)
    requires forall e :: e in owned ==> e.kind != Table
    ensures var p' := PlanOwned(owned, j, p);
            && p.ddl <= p'.ddl && NoTables(p'.ddl, |p.ddl|) && p.known <= p'.known
            && forall n :: (Table, n) in p'.known <==> (Table, n) in p.known
  {
    if owned != [] {
      assert owned[|owned| - 1] in owned;
      PlanOwnedGrows(owned[..|owned| - 1], j, p);
    }
  }

  lemma PlanTableGrows(catalog: Catalog, j: Job, p: Progress)
    requires WellFormed(catalog)
    ensures var p' := PlanTable(catalog, j, p);
            && p.ddl + [RenameTable(j.was, j.becomes)] <= p'.ddl && NoTables(p'.ddl, |p.ddl| + 1) && p.known <= p'.known
            && forall n :: (Table, n) in p'.known <==> (Table, n) in p.known || n == j.becomes
  {
    OwnedIs(catalog, j.was);
    PlanOwnedGrows(Owned(catalog, j.was), j, Renaming(j, p));
  }

  /** What a planned model adds: first the rename of its own table, and no rename of a table but
      to its targets. */
  ghost predicate Grown(m: Model, p: Progress, p': Progress)
    requires Considered(m)
  {
    && p.ddl + [RenameTable(m.short.value, m.table.value)] <= p'.ddl && p.known <= p'.known
    && (forall i :: |p.ddl| <= i < |p'.ddl| && p'.ddl[i].RenameTable? ==> p'.ddl[i].becomes in Targets(m))
    && (forall n :: (Table, n) in p'.known ==> (Table, n) in p.known || n in Targets(m))
  }

  lemma PlanModelGrows(catalog: Catalog, m: Model, p: Progress)
    requires WellFormed(catalog) && Planned(m, p.known)
    ensures Grown(m, p, PlanModel(catalog, m, p))
  {
    PlanModelIs(catalog, m, p);
    PlanTableGrows(catalog, MainJob(m), p);
    if WithHistory(m, p.known) {
      PlanTableGrows(catalog, HistoryJob(m), PlanTable(catalog, MainJob(m), p));
    }
  }

  /** A table the planner knows was in the catalog or is some model's target. */
  lemma {:induction false} KnownFrom(catalog: Catalog, loaded: seq<Model>)
    requires WellFormed(catalog)
    ensures Known(catalog) <= PlanAll(catalog, loaded).known
    ensures forall n :: (Table, n) in PlanAll(catalog, loaded).known ==> HasTable(catalog, n) || exists m :: m in loaded && n in Targets(m)
  {
    if loaded == [] {
      KnownTables(catalog);
    } else {
      var n := |loaded| - 1;
      var m, p := loaded[n], PlanAll(catalog, loaded[..n]);
      KnownFrom(catalog, loaded[..n]);
      assert m in loaded && forall o :: o in loaded[..n] ==> o in loaded;
      if Planned(m, p.known) { PlanModelGrows(catalog, m, p); }
    }
  }

  /** A bare name that is known is not given to a table by any later model, as a model's own
      table is not renamed to a known name. */
  lemma {:induction false} NotGivenLater(catalog: Catalog, loaded: seq<Model>, i: nat, short: string)
    requires WellFormed(catalog) && i <= |loaded| && (Table, short) in PlanAll(catalog, loaded[..i]).known
    requires forall m :: m in loaded && Considered(m) && m.history ==> m.table.value + HISTORY != short
    ensures var before, ss := PlanAll(catalog, loaded[..i]).ddl, PlanAll(catalog, loaded).ddl;
            before <= ss && forall k :: |before| <= k < |ss| ==> !Gives(ss[k], Table, short)
    ensures (Table, short) in PlanAll(catalog, loaded).known
    decreases |loaded|
  {
    if i == |loaded| {
      assert loaded[..i] == loaded;
    } else {
      var n := |loaded| - 1;
      assert loaded[..n][..i] == loaded[..i];
      assert loaded[n] in loaded && forall o :: o in loaded[..n] ==> o in loaded;
      NotGivenLater(catalog, loaded[..n], i, short);
      NotGivenByLast(catalog, loaded, short);
    }
  }

  lemma NotGivenByLast(catalog: Catalog, loaded: seq<Model>, short: string)
    requires WellFormed(catalog) && loaded != [] && (Table, short) in PlanAll(catalog, loaded[..|loaded| - 1]).known
    requires var m := loaded[|loaded| - 1]; Considered(m) && m.history ==> m.table.value + HISTORY != short
    ensures var before, ss := PlanAll(catalog, loaded[..|loaded| - 1]).ddl, PlanAll(catalog, loaded).ddl;
            before <= ss && forall k :: |before| <= k < |ss| ==> !Gives(ss[k], Table, short)
    ensures (Table, short) in PlanAll(catalog, loaded).known
  {
    var m, p := loaded[|loaded| - 1], PlanAll(catalog, loaded[..|loaded| - 1]);
    if Planned(m, p.known) {
      PlanModelGrows(catalog, m, p);
      GrownGivesNot(m, p, PlanModel(catalog, m, p), short);
    }
  }

  lemma GrownGivesNot(m: Model, p: Progress, p': Progress, short: string)
    requires Planned(m, p.known) && Grown(m, p, p') && (Table, short) in p.known
    requires m.history ==> m.table.value + HISTORY != short
    ensures p.ddl <= p'.ddl && forall k :: |p.ddl| <= k < |p'.ddl| ==> !Gives(p'.ddl[k], Table, short)
  {
  }

  /** When a moving model's turn comes it is planned, unless its qualified name is another's
      target too, and its statement stands where the plan had come to. */
  lemma PlannedAtTurn(catalog: Catalog, loaded: seq<Model>, i: nat)
    requires WellFormed(catalog) && i < |loaded| && Moving(catalog, loaded[i])
    requires forall x :: 0 <= x < i ==> loaded[i].table.value !in Targets(loaded[x])
    ensures Planned(loaded[i], PlanAll(catalog, loaded[..i]).known)
    ensures var p, p' := PlanAll(catalog, loaded[..i]), PlanAll(catalog, loaded[..i + 1]);
            Grown(loaded[i], p, p')
  {
    KnownFrom(catalog, loaded[..i]);
    KnownTables(catalog);
    forall m | m in loaded[..i] ensures loaded[i].table.value !in Targets(m) {
      var x :| 0 <= x < i && loaded[..i][x] == m;
    }
    assert loaded[..i + 1][..i] == loaded[..i];
    PlanModelGrows(catalog, loaded[i], PlanAll(catalog, loaded[..i]));
  }

  /** Where the plan had come to at the model's turn, its statement takes the bare name, which no
      statement gives from there on. */
  lemma TurnIs(catalog: Catalog, loaded: seq<Model>, i: nat)
    requires WellFormed(catalog) && i < |loaded| && Moving(catalog, loaded[i])
    requires forall x :: 0 <= x < i ==> loaded[i].table.value !in Targets(loaded[x])
    requires forall m :: m in loaded && Considered(m) && m.history ==> m.table.value + HISTORY != loaded[i].short.value
    ensures var short, at, ss := loaded[i].short.value, |PlanAll(catalog, loaded[..i]).ddl|, PlanAll(catalog, loaded).ddl;
            && at < |PlanAll(catalog, loaded[..i + 1]).ddl| <= |ss| && Takes(ss[at], Table, short)
            && (forall k :: at <= k < |ss| ==> !Gives(ss[k], Table, short))
            && (Table, short) in PlanAll(catalog, loaded[..i + 1]).known
  {
    var short := loaded[i].short.value;
    PlannedAtTurn(catalog, loaded, i);
    NotGivenLater(catalog, loaded, i, short);
    NotGivenLater(catalog, loaded, i + 1, short);
  }

  /** A bare name stays known after its rename, so two services' models with one bare name are
      both planned to take the one table, and the second finds it gone: no plan for a loaded list
      that holds two such models works. Only another model's history table, were it to get the
      bare name, could stand in for the table. */
  lemma SharedBareNameNeverWorks(catalog: Catalog, loaded: seq<Model>, i: nat, k: nat)
    requires WellFormed(catalog) && i < k < |loaded| && Moving(catalog, loaded[i]) && Moving(catalog, loaded[k])
    requires loaded[i].short == loaded[k].short
    requires forall x :: 0 <= x < i ==> loaded[i].table.value !in Targets(loaded[x])
    requires forall x :: 0 <= x < k ==> loaded[k].table.value !in Targets(loaded[x])
    requires forall m :: m in loaded && Considered(m) && m.history ==> m.table.value + HISTORY != loaded[i].short.value
    ensures !Succeeds(catalog, PlanOf(catalog, loaded).statements)
  {
    var ss, all := PlanAll(catalog, loaded).ddl, PlanOf(catalog, loaded).statements;
    TurnIs(catalog, loaded, i);
    TurnIs(catalog, loaded, k);
    assert |PlanAll(catalog, loaded[..i + 1]).ddl| <= |PlanAll(catalog, loaded[..k]).ddl| by {
      assert loaded[..k][..i + 1] == loaded[..i + 1] && forall m :: m in loaded[..k] ==> m in loaded;
      NotGivenLater(catalog, loaded[..k], i + 1, loaded[i].short.value);
    }
    TwiceTakenFails(catalog, ss, |PlanAll(catalog, loaded[..i]).ddl|, |PlanAll(catalog, loaded[..k]).ddl|, loaded[i].short.value);
    assert all[..|ss|] == ss;
    if Succeeds(catalog, all) {
      SucceedsBefore(catalog, all, |ss|);
    }
  }
}
