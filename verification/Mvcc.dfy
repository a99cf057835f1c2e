/** The multi-version engine: version chains, secondary indexes, first-committer-wins
    validation and per-client admission, as functions of the engine's value. */
module Mvcc {
  import opened Wrappers
  import opened Ordering
  import opened OrderedKeys

  type TableId = nat
  type IndexId = nat
  type Row = seq<Value>
  type ClientId = Bytes
  type Hash = Bytes

  const MAX_VALUE_BYTES: nat := 16 * 1024 * 1024
  const MAX_ROW_COLUMNS: nat := 4096

  // --------------------------------------------------------------------- catalog

  datatype Column = Column(name: string, typeTag: nat, nullable: bool, primaryKey: bool)

  datatype TableMeta = TableMeta(id: TableId, name: string, columns: seq<Column>, primaryKeyColumn: nat)

  datatype IndexMeta = IndexMeta(id: IndexId, name: string, table: TableId, column: nat)

  datatype CatalogMutation = CreateTable(tableMeta: TableMeta) | CreateIndex(indexMeta: IndexMeta)

  /** Names are compared in their normalized form. */
  datatype Catalog = Catalog(schemaEpoch: nat, tables: map<TableId, TableMeta>, indexes: map<IndexId, IndexMeta>)

  predicate SchemaOk(columns: seq<Column>, primary: nat) {
    && 0 < |columns| <= MAX_ROW_COLUMNS && primary < |columns|
    && columns[primary].primaryKey && !columns[primary].nullable
    && (forall i :: 0 <= i < |columns| ==> columns[i].name != "" && (columns[i].primaryKey ==> i == primary))
    && (forall i, j :: 0 <= i < j < |columns| ==> columns[i].name != columns[j].name)
  }

  predicate RowOk(columns: seq<Column>, row: Row) {
    && |row| == |columns|
    && forall i :: 0 <= i < |row| ==>
                     if row[i].IsNull() then columns[i].nullable else row[i].TypeTag() == columns[i].typeTag
  }

  function CreateOne(c: Catalog, m: CatalogMutation): Option<Catalog> {
    match m
    case CreateTable(t) =>
      if t.id != 0 && SchemaOk(t.columns, t.primaryKeyColumn) && t.id !in c.tables
         && (forall i :: i in c.tables ==> c.tables[i].name != t.name)
      then Some(c.(tables := c.tables[t.id := t])) else None
    case CreateIndex(x) =>
      if x.id != 0 && x.id !in c.indexes && (forall i :: i in c.indexes ==> c.indexes[i].name != x.name)
         && x.table in c.tables && x.column < |c.tables[x.table].columns|
      then Some(c.(indexes := c.indexes[x.id := x])) else None
  }

  function CreateAll(c: Catalog, ms: seq<CatalogMutation>): Option<Catalog>
    decreases |ms|
  {
    if ms == [] then Some(c)
    else
      match CreateOne(c, ms[0])
      case None => None
      case Some(d) => CreateAll(d, ms[1..])
  }

  function ApplyMutations(c: Catalog, ms: seq<CatalogMutation>): Option<Catalog> {
    match CreateAll(c, ms)
    case None => None
    case Some(d) => Some(if ms == [] then d else d.(schemaEpoch := d.schemaEpoch + 1))
  }

  function NewIndexes(ms: seq<CatalogMutation>): seq<IndexMeta> {
    if ms == [] then []
    else (if ms[0].CreateIndex? then [ms[0].indexMeta] else []) + NewIndexes(ms[1..])
  }

  /** The committed indexes of a table, in id order. */
  function IndexesOf(c: Catalog, table: TableId): seq<IndexMeta> {
    var ids := SortedIds(set i | i in c.indexes && c.indexes[i].table == table);
    seq(|ids|, n requires 0 <= n < |ids| => if ids[n] in c.indexes then c.indexes[ids[n]] else IndexMeta(0, "", 0, 0))
  }

  // ---------------------------------------------------------------- transactions

  datatype LogicalKey = LogicalKey(table: TableId, primaryKey: Bytes)

  datatype Mutation = Put(row: Row) | Delete

  datatype TxnWrite = TxnWrite(table: TableId, primaryKey: Value, mutation: Mutation) {
    function Key(): LogicalKey {
      LogicalKey(table, EncodeOrdered(primaryKey))
    }

    function NewRow(): Option<Row> {
      if mutation.Put? then Some(mutation.row) else None
    }
  }

  datatype Attempt = Attempt(
    client: ClientId, sequence: nat, leaderTerm: nat, readTs: nat, schemaEpoch: nat,
    writes: seq<TxnWrite>, mutations: seq<CatalogMutation>)

  predicate ValueFits(v: Value) {
    (v.Text? ==> |v.utf8| <= MAX_VALUE_BYTES) && (v.Blob? ==> |v.data| <= MAX_VALUE_BYTES)
  }

  predicate KeyLess(a: LogicalKey, b: LogicalKey) {
    a.table < b.table || (a.table == b.table && Less(a.primaryKey, b.primaryKey))
  }

  predicate MutationLess(a: CatalogMutation, b: CatalogMutation) {
    match (a, b)
    case (CreateTable(s), CreateTable(t)) => s.id < t.id
    case (CreateTable(_), CreateIndex(_)) => true
    case (CreateIndex(_), CreateTable(_)) => false
    case (CreateIndex(x), CreateIndex(y)) => x.id < y.id
  }

  /** Writes strictly ordered by key, catalog mutations by kind and id. */
  predicate Canonical(a: Attempt) {
    && (forall i :: 0 <= i < |a.writes| ==> ValueFits(a.writes[i].primaryKey))
    && (forall i :: 0 < i < |a.writes| ==> KeyLess(a.writes[i - 1].Key(), a.writes[i].Key()))
    && (forall i :: 0 < i < |a.mutations| ==> MutationLess(a.mutations[i - 1], a.mutations[i]))
  }

  /** A transaction's private overlay. */
  datatype Transaction = Transaction(readTs: nat, schemaEpoch: nat, writes: map<LogicalKey, TxnWrite>)

  // --------------------------------------------------------------------- results

  datatype AbortReason =
    | WriteConflict(table: TableId, primaryKey: Value, winningCommit: nat)
    | SchemaChanged(expected: nat, actual: nat)
    | SnapshotVacuumed(readTs: nat, retainedFloor: nat)
    | Validation

  datatype CommitResult =
    | Committed(commitIndex: nat, affectedRows: nat, schemaEpoch: nat)
    | Aborted(abortIndex: nat, reason: AbortReason)

  datatype Rejection =
    | FirstSequenceMustBeOne(actual: nat)
    | SequenceGap(expected: nat, actual: nat)
    | SequenceTooOld(latest: nat, actual: nat)
    | SequenceHashMismatch(sequence: nat)

  datatype Outcome =
    | Applied(result: CommitResult)
    | Duplicate(result: CommitResult)
    | Rejected(rejection: Rejection)
    | NoopApplied

  datatype EngineError = InvalidAttempt | ApplyHashMismatch(index: nat) | ApplyGap(expected: nat,
        actual: nat) | FloorAhead

  datatype ClientRecord = ClientRecord(sequence: nat, requestHash: Hash, result: CommitResult)

  // ---------------------------------------------------------------------- chains

  datatype RowVersion = RowVersion(commit: nat, row: Option<Row>)

  datatype SecondaryKey = SecondaryKey(index: IndexId, value: Bytes, primaryKey: Bytes)

  datatype SecondaryVersion = SecondaryVersion(commit: nat, present: bool)

  type Primary = map<LogicalKey, seq<RowVersion>>
  type Secondary = map<SecondaryKey, seq<SecondaryVersion>>

  datatype Engine = Engine(
    catalog: Catalog,
    primary: Primary,
    secondary: Secondary,
    clients: map<ClientId, ClientRecord>,
    lastApplied: nat,
    lastApplyHash: Option<Hash>,
    lastApplyOutcome: Option<Outcome>,
    retainedFloor: nat)

  function Fresh(): Engine {
    Engine(Catalog(0, map[], map[]), map[], map[], map[], 0, None, None, 0)
  }

  function Rows(p: Primary, k: LogicalKey): seq<RowVersion> {
    if k in p then p[k] else []
  }

  function Marks(s: Secondary, k: SecondaryKey): seq<SecondaryVersion> {
    if k in s then s[k] else []
  }

  /** The newest version at or before `ts`. */
  function VisibleRow(versions: seq<RowVersion>, ts: nat): Option<Row> {
    if versions == [] then None
    else if versions[0].commit <= ts then versions[0].row
    else VisibleRow(versions[1..], ts)
  }

  function VisibleMark(versions: seq<SecondaryVersion>, ts: nat): bool {
    if versions == [] then false
    else if versions[0].commit <= ts then versions[0].present
    else VisibleMark(versions[1..], ts)
  }

  function Read(e: Engine, k: LogicalKey, ts: nat): Option<Row> {
    VisibleRow(Rows(e.primary, k), ts)
  }

  function Cell(row: Option<Row>, column: nat): Option<Value> {
    if row.Some? && column < |row.value| then Some(row.value[column]) else None
  }

  // ------------------------------------------------------------------- admission

  datatype Admission = New | Again(result: CommitResult) | Refused(rejection: Rejection)

  function Admit(e: Engine, client: ClientId, sequence: nat, hash: Hash): Admission {
    if client !in e.clients then
      if sequence == 1 then New else Refused(FirstSequenceMustBeOne(sequence))
    else
      var r := e.clients[client];
      if sequence < r.sequence then Refused(SequenceTooOld(r.sequence, sequence))
      else if sequence == r.sequence then
        if hash == r.requestHash then Again(r.result) else Refused(SequenceHashMismatch(sequence))
      else if sequence == r.sequence + 1 then New
      else Refused(SequenceGap(r.sequence + 1, sequence))
  }

  // ------------------------------------------------------------------ validation

  function CheckWrite(e: Engine, c: Catalog, readTs: nat, w: TxnWrite): Option<AbortReason> {
    if w.table !in c.tables then Some(Validation)
    else
      var t := c.tables[w.table];
      if t.primaryKeyColumn >= |t.columns| || w.primaryKey.IsNull()
         || w.primaryKey.TypeTag() != t.columns[t.primaryKeyColumn].typeTag then Some(Validation)
      else if w.mutation.Put?
        && !(RowOk(t.columns, w.mutation.row) && w.mutation.row[t.primaryKeyColumn] == w.primaryKey) then
        Some(Validation)
      else
        var versions := Rows(e.primary, w.Key());
        if versions != [] && versions[0].commit > readTs
          then Some(WriteConflict(w.table, w.primaryKey, versions[0].commit))
        else None
  }

  function CheckWrites(e: Engine, c: Catalog, readTs: nat, ws: seq<TxnWrite>): Option<AbortReason>
    decreases |ws|
  {
    if ws == [] then None
    else
      match CheckWrite(e, c, readTs, ws[0])
      case Some(reason) => Some(reason)
      case None => CheckWrites(e, c, readTs, ws[1..])
  }

  function ValidateAttempt(e: Engine, a: Attempt): Result<Catalog, AbortReason> {
    if a.readTs < e.retainedFloor then Err(SnapshotVacuumed(a.readTs, e.retainedFloor))
    else if a.readTs > e.lastApplied then Err(Validation)
    else if a.schemaEpoch != e.catalog.schemaEpoch then Err(SchemaChanged(a.schemaEpoch, e.catalog.schemaEpoch))
    else if !Canonical(a) then Err(Validation)
    else
      match ApplyMutations(e.catalog, a.mutations)
      case None => Err(Validation)
      case Some(c) =>
        match CheckWrites(e, c, a.readTs, a.writes)
        case Some(reason) => Err(reason)
        case None => Ok(c)
  }

  // ----------------------------------------------------------------- application

  function PushMark(s: Secondary, index: IndexId, v: Value, pk: Bytes, commit: nat, present: bool): Secondary {
    var k := SecondaryKey(index, EncodeOrdered(v), pk);
    s[k := [SecondaryVersion(commit, present)] + Marks(s, k)]
  }

  /** One index follows one row from `was` to `now`. */
  function UpdateMark(s: Secondary, x: IndexMeta, pk: Bytes, was: Option<Row>, now: Option<Row>,
                      commit: nat): Secondary {
    var o, n := Cell(was, x.column), Cell(now, x.column);
    if o == n then s
    else
      var s1 := if o.Some? && !o.value.IsNull() then PushMark(s, x.id, o.value, pk, commit, false) else s;
      if n.Some? && !n.value.IsNull() then PushMark(s1, x.id, n.value, pk, commit, true) else s1
  }

  function UpdateMarks(s: Secondary, xs: seq<IndexMeta>, pk: Bytes, was: Option<Row>, now: Option<Row>,
                       commit: nat): Secondary
    decreases |xs|
  {
    if xs == [] then s else UpdateMarks(UpdateMark(s, xs[0], pk, was, now, commit), xs[1..], pk, was, now, commit)
  }

  function PushRow(p: Primary, k: LogicalKey, commit: nat, row: Option<Row>): Primary {
    p[k := [RowVersion(commit, row)] + Rows(p, k)]
  }

  /** Writes one after the other, each followed by the indexes that existed before. */
  function ApplyWrites(e: Engine, c: Catalog, base: nat, commit: nat, ws: seq<TxnWrite>): Engine
    decreases |ws|
  {
    if ws == [] then e
    else
      var k, now := ws[0].Key(), ws[0].NewRow();
      var e1 := e.(secondary := UpdateMarks(e.secondary, IndexesOf(c, ws[0].table), k.primaryKey, Read(e, k, base),
                                            now, commit),
                   primary := PushRow(e.primary, k, commit, now));
      ApplyWrites(e1, c, base, commit, ws[1..])
  }

  /** A new index is filled from the rows visible at its own commit. */
  function BackfillKeys(s: Secondary, p: Primary, x: IndexMeta, pks: seq<Bytes>, commit: nat): Secondary
    decreases |pks|
  {
    if pks == [] then s
    else
      var v := Cell(VisibleRow(Rows(p, LogicalKey(x.table, pks[0])), commit), x.column);
      BackfillKeys(if v.Some? && !v.value.IsNull() then PushMark(s, x.id, v.value, pks[0], commit, true) else s,
                   p, x, pks[1..], commit)
  }

  function TableKeys(p: Primary, table: TableId): seq<Bytes> {
    Sorted(set k | k in p && k.table == table :: k.primaryKey)
  }

  function Backfill(s: Secondary, p: Primary, xs: seq<IndexMeta>, commit: nat): Secondary
    decreases |xs|
  {
    if xs == [] then s else Backfill(BackfillKeys(s, p, xs[0], TableKeys(p, xs[0].table), commit), p, xs[1..], commit)
  }

  function Commit(e: Engine, index: nat, a: Attempt, c: Catalog): Engine {
    var w := ApplyWrites(e, e.catalog, e.lastApplied, index, a.writes);
    w.(catalog := c, secondary := Backfill(w.secondary, w.primary, NewIndexes(a.mutations), index))
  }

  function Evaluate(e: Engine, index: nat, a: Attempt): (Engine, CommitResult) {
    match ValidateAttempt(e, a)
    case Err(reason) => (e, Aborted(index, reason))
    case Ok(c) => (Commit(e, index, a, c), Committed(index, |a.writes|, c.schemaEpoch))
  }

  function Decide(e: Engine, index: nat, requestHash: Hash, a: Attempt): (Engine, Outcome) {
    match Admit(e, a.client, a.sequence, requestHash)
    case New =>
      var (f, result) := Evaluate(e, index, a);
      (f.(clients := f.clients[a.client := ClientRecord(a.sequence, requestHash, result)]), Applied(result))
    case Again(result) => (e, Duplicate(result))
    case Refused(rejection) => (e, Rejected(rejection))
  }

  function Apply(e: Engine, index: nat, applyHash: Hash, requestHash: Hash, a: Attempt): Result<(Engine, Outcome),
    EngineError> {
    if !Canonical(a) then Err(InvalidAttempt)
    else if index == e.lastApplied then
      if e.lastApplyHash != Some(applyHash) || e.lastApplyOutcome.None? then Err(ApplyHashMismatch(index))
      else Ok((e, e.lastApplyOutcome.value))
    else if index != e.lastApplied + 1 then Err(ApplyGap(e.lastApplied + 1, index))
    else
      var (f, outcome) := Decide(e, index, requestHash, a);
      Ok((f.(lastApplied := index, lastApplyHash := Some(applyHash), lastApplyOutcome := Some(outcome)), outcome))
  }

  function ApplyNoop(e: Engine, index: nat, hash: Hash): Result<(Engine, Outcome), EngineError> {
    if index == e.lastApplied then
      if e.lastApplyHash != Some(hash) || e.lastApplyOutcome != Some(NoopApplied) then Err(ApplyHashMismatch(index))
      else Ok((e, NoopApplied))
    else if index != e.lastApplied + 1 then Err(ApplyGap(e.lastApplied + 1, index))
    else Ok((e.(lastApplied := index, lastApplyHash := Some(hash), lastApplyOutcome := Some(NoopApplied)), NoopApplied))
  }

  // ---------------------------------------------------------------------- vacuum

  /** Versions newer than the floor, and the one the floor itself sees unless it is a tombstone. */
  function VacuumRows(versions: seq<RowVersion>, floor: nat): seq<RowVersion> {
    if versions == [] then []
    else if versions[0].commit > floor then [versions[0]] + VacuumRows(versions[1..], floor)
    else if versions[0].row.Some? then [versions[0]] else []
  }

  function VacuumMarks(versions: seq<SecondaryVersion>, floor: nat): seq<SecondaryVersion> {
    if versions == [] then []
    else if versions[0].commit > floor then [versions[0]] + VacuumMarks(versions[1..], floor)
    else if versions[0].present then [versions[0]] else []
  }

  function Vacuum(e: Engine, retainFrom: nat): Result<Engine, EngineError> {
    if retainFrom > e.lastApplied then Err(FloorAhead)
    else
      var floor := if retainFrom <= e.retainedFloor then e.retainedFloor else retainFrom;
      Ok(e.(primary := map k | k in e.primary && VacuumRows(e.primary[k], floor) != [] ::
              VacuumRows(e.primary[k], floor),
            secondary := map k | k in e.secondary && VacuumMarks(e.secondary[k], floor) != [] ::
                VacuumMarks(e.secondary[k], floor),
            retainedFloor := floor))
  }

  // ----------------------------------------------------------------------- scans

  function ReadKey(e: Engine, t: Transaction, k: LogicalKey): Option<Row> {
    if k in t.writes then t.writes[k].NewRow() else Read(e, k, t.readTs)
  }

  /** A row, if it carries the value in the column. */
  function Matching(row: Option<Row>, filter: Option<(nat, Value)>): Option<Row> {
    if filter.None? || Cell(row, filter.value.0) == Some(filter.value.1) then row else None
  }

  /** The rows found at the listed keys, in order, filtered. */
  function Collect(e: Engine, t: Transaction, table: TableId, pks: seq<Bytes>, filter: Option<(nat, Value)>): seq<Row>
    decreases |pks|
  {
    if pks == [] then []
    else
      var r := Matching(ReadKey(e, t, LogicalKey(table, pks[0])), filter);
      (if r.Some? then [r.value] else []) + Collect(e, t, table, pks[1..], filter)
  }

  function OverlayKeys(t: Transaction, table: TableId): set<Bytes> {
    set k | k in t.writes && k.table == table :: k.primaryKey
  }

  function StoredKeys(e: Engine, table: TableId): set<Bytes> {
    set k | k in e.primary && k.table == table :: k.primaryKey
  }

  function IndexedKeys(e: Engine, index: IndexId, v: Value, ts: nat): set<Bytes> {
    set k | k in e.secondary && k.index == index && k.value == EncodeOrdered(v)
      && VisibleMark(e.secondary[k], ts) :: k.primaryKey
  }

  function ScanTable(e: Engine, t: Transaction, table: TableId): seq<Row> {
    Collect(e, t, table, Sorted(StoredKeys(e, table) + OverlayKeys(t, table)), None)
  }

  function ScanSecondary(e: Engine, t: Transaction, x: IndexMeta, v: Value): seq<Row> {
    if v.IsNull() then []
    else Collect(e, t, x.table, Sorted(IndexedKeys(e, x.id, v, t.readTs) + OverlayKeys(t, x.table)),
                 Some((x.column, v)))
  }

  /** The rows that carry the value in the column, in order. */
  function RowsWith(rows: seq<Row>, column: nat, v: Value): seq<Row>
    decreases |rows|
  {
    if rows == [] then []
    else (if Cell(Some(rows[0]), column) == Some(v) then [rows[0]] else []) + RowsWith(rows[1..], column, v)
  }
}
