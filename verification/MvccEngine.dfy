/** The engine as the mutable object it is: maps updated in place, loops over writes,
    indexes and chains, each method proved to do what the function of Mvcc says. */
module MvccEngine {
  import opened Wrappers
  import opened Ordering
  import opened OrderedKeys
  import M = Mvcc

  datatype ReadError = SnapshotTooOld(requested: nat, floor: nat) | FutureSnapshot | UnknownTable | UnknownIndex

  /** Strict key order, one comparison with the previous key at a time. */
  method ValidateCanonical(a: M.Attempt) returns (ok: bool)
    ensures ok == M.Canonical(a)
  {
    var previous: Option<M.LogicalKey> := None;
    var i := 0;
    while i < |a.writes|
      invariant 0 <= i <= |a.writes|
      invariant previous == if i == 0 then None else Some(a.writes[i - 1].Key())
      invariant forall j :: 0 <= j < i ==> M.ValueFits(a.writes[j].primaryKey)
      invariant forall j :: 0 < j < i ==> M.KeyLess(a.writes[j - 1].Key(), a.writes[j].Key())
    {
      var write := a.writes[i];
      if !M.ValueFits(write.primaryKey) {
        return false;
      }
      var key := write.Key();
      if previous.Some? && !M.KeyLess(previous.value, key) {
        return false;
      }
      previous := Some(key);
      i := i + 1;
    }
    i := 1;
    while i < |a.mutations|
      invariant 1 <= i && (a.mutations != [] ==> i <= |a.mutations|)
      invariant forall j :: 0 < j < i && j < |a.mutations| ==> M.MutationLess(a.mutations[j - 1], a.mutations[j])
    {
      if !M.MutationLess(a.mutations[i - 1], a.mutations[i]) {
        return false;
      }
      i := i + 1;
    }
    return true;
  }

  /** The newest version at or before a timestamp. */
  method FindVisible(versions: seq<M.RowVersion>, ts: nat) returns (row: Option<M.Row>)
    ensures row == M.VisibleRow(versions, ts)
  {
    var i := 0;
    assert versions[0..] == versions;
    while i < |versions|
      invariant 0 <= i <= |versions|
      invariant M.VisibleRow(versions[i..], ts) == M.VisibleRow(versions, ts)
    {
      assert versions[i..][1..] == versions[i + 1..];
      if versions[i].commit <= ts {
        return versions[i].row;
      }
      i := i + 1;
    }
    return None;
  }

  /** Keep what is newer than the floor, then the version the floor sees unless it is a tombstone. */
  method VacuumChain(versions: seq<M.RowVersion>, floor: nat) returns (retained: seq<M.RowVersion>)
    ensures retained == M.VacuumRows(versions, floor)
  {
    retained := [];
    var i := 0;
    assert versions[0..] == versions;
    while i < |versions| && versions[i].commit > floor
      invariant 0 <= i <= |versions|
      invariant retained + M.VacuumRows(versions[i..], floor) == M.VacuumRows(versions, floor)
    {
      assert versions[i..][1..] == versions[i + 1..];
      retained := retained + [versions[i]];
      i := i + 1;
    }
    if i < |versions| && versions[i].row.Some? {
      retained := retained + [versions[i]];
    }
  }

  method VacuumMarkChain(versions: seq<M.SecondaryVersion>, floor: nat) returns (retained: seq<M.SecondaryVersion>)
    ensures retained == M.VacuumMarks(versions, floor)
  {
    retained := [];
    var i := 0;
    assert versions[0..] == versions;
    while i < |versions| && versions[i].commit > floor
      invariant 0 <= i <= |versions|
      invariant retained + M.VacuumMarks(versions[i..], floor) == M.VacuumMarks(versions, floor)
    {
      assert versions[i..][1..] == versions[i + 1..];
      retained := retained + [versions[i]];
      i := i + 1;
    }
    if i < |versions| && versions[i].present {
      retained := retained + [versions[i]];
    }
  }

  /** A transaction-private overlay. */
  class Transaction {
    const readTs: nat
    const schemaEpoch: nat
    var writes: map<M.LogicalKey, M.TxnWrite>

    function View(): M.Transaction
      reads this
    {
      M.Transaction(readTs, schemaEpoch, writes)
    }

    constructor (readTs: nat, schemaEpoch: nat)
      ensures View() == M.Transaction(readTs, schemaEpoch, map[])
    {
      this.readTs, this.schemaEpoch, writes := readTs, schemaEpoch, map[];
    }

    /** A later write to the same key replaces the earlier one. */
    method StageWrite(w: M.TxnWrite) returns (ok: bool)
      modifies this
      ensures ok == M.ValueFits(w.primaryKey)
      ensures View() == if ok then old(View()).(writes := old(writes)[w.Key() := w]) else old(View())
    {
      if !M.ValueFits(w.primaryKey) {
        return false;
      }
      writes := writes[w.Key() := w];
      return true;
    }
  }

  class Engine {
    var catalog: M.Catalog
    var primary: M.Primary
    var secondary: M.Secondary
    var clients: map<M.ClientId, M.ClientRecord>
    var lastApplied: nat
    var lastApplyHash: Option<M.Hash>
    var lastApplyOutcome: Option<M.Outcome>
    var retainedFloor: nat

    function View(): M.Engine
      reads this
    {
      M.Engine(catalog, primary, secondary, clients, lastApplied, lastApplyHash, lastApplyOutcome, retainedFloor)
    }

    constructor ()
      ensures View() == M.Fresh()
    {
      catalog, primary, secondary, clients := M.Catalog(0, map[], map[]), map[], map[], map[];
      lastApplied, lastApplyHash, lastApplyOutcome, retainedFloor := 0, None, None, 0;
    }

    // ------------------------------------------------------------------ applying

    method ApplyWithRequestHash(index: nat, applyHash: M.Hash, requestHash: M.Hash, a: M.Attempt)
      returns (r: Result<M.Outcome, M.EngineError>)
      modifies this
      ensures match M.Apply(old(View()), index, applyHash, requestHash, a)
              case Ok((f, outcome)) => r == Ok(outcome) && View() == f
              case Err(e) => r == Err(e) && View() == old(View())
    {
      hide M.Canonical, M.Evaluate;
      var canonical := ValidateCanonical(a);
      if !canonical {
        return Err(M.InvalidAttempt);
      }
      if index == lastApplied {
        if lastApplyHash != Some(applyHash) || lastApplyOutcome.None? {
          return Err(M.ApplyHashMismatch(index));
        }
        return Ok(lastApplyOutcome.value);
      }
      if index != lastApplied + 1 {
        return Err(M.ApplyGap(lastApplied + 1, index));
      }
      var outcome;
      match M.Admit(View(), a.client, a.sequence, requestHash) {
        case New =>
          var result := EvaluateAndApply(index, a);
          clients := clients[a.client := M.ClientRecord(a.sequence, requestHash, result)];
          outcome := M.Applied(result);
        case Again(result) =>
          outcome := M.Duplicate(result);
        case Refused(rejection) =>
          outcome := M.Rejected(rejection);
      }
      lastApplied, lastApplyHash, lastApplyOutcome := index, Some(applyHash), Some(outcome);
      return Ok(outcome);
    }

    method ApplyNoop(index: nat, hash: M.Hash) returns (r: Result<M.Outcome, M.EngineError>)
      modifies this
      ensures match M.ApplyNoop(old(View()), index, hash)
              case Ok((f, outcome)) => r == Ok(outcome) && View() == f
              case Err(e) => r == Err(e) && View() == old(View())
    {
      if index == lastApplied {
        if lastApplyHash != Some(hash) || lastApplyOutcome != Some(M.NoopApplied) {
          return Err(M.ApplyHashMismatch(index));
        }
        return Ok(M.NoopApplied);
      }
      if index != lastApplied + 1 {
        return Err(M.ApplyGap(lastApplied + 1, index));
      }
      lastApplied, lastApplyHash, lastApplyOutcome := index, Some(hash), Some(M.NoopApplied);
      return Ok(M.NoopApplied);
    }

    method EvaluateAndApply(index: nat, a: M.Attempt) returns (result: M.CommitResult)
      modifies this
      ensures (View(), result) == M.Evaluate(old(View()), index, a)
    {
      hide M.ValidateAttempt, M.ApplyWrites, M.Backfill, M.IndexesOf, M.NewIndexes;
      var valid := M.ValidateAttempt(View(), a);
      if valid.Err? {
        return M.Aborted(index, valid.error);
      }
      var before := catalog;
      WriteAll(before, index, a.writes);
      catalog := valid.value;
      BackfillAll(M.NewIndexes(a.mutations), index);
      return M.Committed(index, |a.writes|, catalog.schemaEpoch);
    }

    /** Every write: the old row's index entries give way to the new row's, then the version goes in. */
    method WriteAll(before: M.Catalog, index: nat, writes: seq<M.TxnWrite>)
      modifies this`primary, this`secondary
      ensures View() == M.ApplyWrites(old(View()), before, old(lastApplied), index, writes)
    {
      hide M.UpdateMarks, M.IndexesOf;
      var i := 0;
      assert writes[0..] == writes;
      while i < |writes|
        invariant 0 <= i <= |writes|
        invariant M.ApplyWrites(View(), before, lastApplied, index, writes[i..])
                  == M.ApplyWrites(old(View()), before, old(lastApplied), index, writes)
      {
        assert writes[i..][1..] == writes[i + 1..];
        var key, now := writes[i].Key(), writes[i].NewRow();
        var was := FindVisible(M.Rows(primary, key), lastApplied);
        UpdateIndexes(M.IndexesOf(before, writes[i].table), key.primaryKey, was, now, index);
        primary := primary[key := [M.RowVersion(index, now)] + M.Rows(primary, key)];
        i := i + 1;
      }
    }

    method UpdateIndexes(xs: seq<M.IndexMeta>, pk: Bytes, was: Option<M.Row>, now: Option<M.Row>, commit: nat)
      modifies this`secondary
      ensures secondary == M.UpdateMarks(old(secondary), xs, pk, was, now, commit)
    {
      hide M.UpdateMark;
      var i := 0;
      assert xs[0..] == xs;
      while i < |xs|
        invariant 0 <= i <= |xs|
        invariant M.UpdateMarks(secondary, xs[i..], pk, was, now, commit)
                  == M.UpdateMarks(old(secondary), xs, pk, was, now, commit)
      {
        assert xs[i..][1..] == xs[i + 1..];
        UpdateSecondary(xs[i], pk, was, now, commit);
        i := i + 1;
      }
    }

    method UpdateSecondary(x: M.IndexMeta, pk: Bytes, was: Option<M.Row>, now: Option<M.Row>, commit: nat)
      modifies this`secondary
      ensures secondary == M.UpdateMark(old(secondary), x, pk, was, now, commit)
    {
      var o, n := M.Cell(was, x.column), M.Cell(now, x.column);
      if o == n {
        return;
      }
      if o.Some? && !o.value.IsNull() {
        PushSecondary(x.id, o.value, pk, commit, false);
      }
      if n.Some? && !n.value.IsNull() {
        PushSecondary(x.id, n.value, pk, commit, true);
      }
    }

    method PushSecondary(index: M.IndexId, v: Value, pk: Bytes, commit: nat, present: bool)
      modifies this`secondary
      ensures secondary == M.PushMark(old(secondary), index, v, pk, commit, present)
    {
      var key := M.SecondaryKey(index, EncodeOrdered(v), pk);
      secondary := secondary[key := [M.SecondaryVersion(commit, present)] + M.Marks(secondary, key)];
    }

    method BackfillAll(xs: seq<M.IndexMeta>, commit: nat)
      modifies this`secondary
      ensures secondary == M.Backfill(old(secondary), primary, xs, commit)
    {
      hide M.BackfillKeys, M.TableKeys;
      var i := 0;
      assert xs[0..] == xs;
      while i < |xs|
        invariant 0 <= i <= |xs|
        invariant M.Backfill(secondary, primary, xs[i..], commit) == M.Backfill(old(secondary), primary, xs, commit)
      {
        assert xs[i..][1..] == xs[i + 1..];
        BackfillIndex(xs[i], commit);
        i := i + 1;
      }
    }

    method BackfillIndex(x: M.IndexMeta, commit: nat)
      modifies this`secondary
      ensures secondary == M.BackfillKeys(old(secondary), primary, x, M.TableKeys(primary, x.table), commit)
    {
      hide M.TableKeys;
      var pks := M.TableKeys(primary, x.table);
      var i := 0;
      assert pks[0..] == pks;
      while i < |pks|
        invariant 0 <= i <= |pks|
        invariant M.BackfillKeys(secondary, primary, x, pks[i..], commit)
                  == M.BackfillKeys(old(secondary), primary, x, pks, commit)
      {
        assert pks[i..][1..] == pks[i + 1..];
        var row := FindVisible(M.Rows(primary, M.LogicalKey(x.table, pks[i])), commit);
        var v := M.Cell(row, x.column);
        if v.Some? && !v.value.IsNull() {
          PushSecondary(x.id, v.value, pks[i], commit, true);
        }
        i := i + 1;
      }
    }

    // ------------------------------------------------------------------- vacuum

    method VacuumOffline(retainFrom: nat) returns (r: Result<nat, M.EngineError>)
      modifies this
      ensures match M.Vacuum(old(View()), retainFrom)
              case Ok(f) => r == Ok(f.retainedFloor) && View() == f
              case Err(e) => r == Err(e) && View() == old(View())
    {
      hide M.VacuumRows, M.VacuumMarks;
      if retainFrom > lastApplied {
        return Err(M.FloorAhead);
      }
      var floor := if retainFrom <= retainedFloor then retainedFloor else retainFrom;
      VacuumPrimary(floor);
      VacuumSecondary(floor);
      retainedFloor := floor;
      return Ok(floor);
    }

    method VacuumPrimary(floor: nat)
      modifies this`primary
      ensures primary == map k | k in old(primary) && M.VacuumRows(old(primary)[k], floor) != [] ::
                M.VacuumRows(old(primary)[k], floor)
    {
      hide M.VacuumRows;
      var left := primary.Keys;
      var kept: M.Primary := map[];
      while left != {}
        invariant left <= old(primary).Keys && primary == old(primary)
        invariant kept == map k | k in old(primary) && k !in left && M.VacuumRows(old(primary)[k], floor) != [] ::
                    M.VacuumRows(old(primary)[k], floor)
        decreases |left|
      {
        var k :| k in left;
        var retained := VacuumChain(primary[k], floor);
        if retained != [] {
          kept := kept[k := retained];
        }
        left := left - {k};
      }
      primary := kept;
    }

    method VacuumSecondary(floor: nat)
      modifies this`secondary
      ensures secondary == map k | k in old(secondary) && M.VacuumMarks(old(secondary)[k], floor) != [] ::
                M.VacuumMarks(old(secondary)[k], floor)
    {
      hide M.VacuumMarks;
      var left := secondary.Keys;
      var kept: M.Secondary := map[];
      while left != {}
        invariant left <= old(secondary).Keys && secondary == old(secondary)
        invariant kept == map k | k in old(secondary) && k !in left
                  && M.VacuumMarks(old(secondary)[k], floor) != [] :: M.VacuumMarks(old(secondary)[k], floor)
        decreases |left|
      {
        var k :| k in left;
        var retained := VacuumMarkChain(secondary[k], floor);
        if retained != [] {
          kept := kept[k := retained];
        }
        left := left - {k};
      }
      secondary := kept;
    }

    // -------------------------------------------------------------------- scans

    method ScanTable(t: Transaction, table: M.TableId) returns (r: Result<seq<M.Row>, ReadError>)
      ensures t.readTs < retainedFloor ==> r == Err(SnapshotTooOld(t.readTs, retainedFloor))
      ensures t.readTs >= retainedFloor && t.readTs > lastApplied ==> r == Err(FutureSnapshot)
      ensures retainedFloor <= t.readTs <= lastApplied ==>
                r == if table in catalog.tables then Ok(M.ScanTable(View(), t.View(), table)) else Err(UnknownTable)
    {
      if t.readTs < retainedFloor {
        return Err(SnapshotTooOld(t.readTs, retainedFloor));
      }
      if t.readTs > lastApplied {
        return Err(FutureSnapshot);
      }
      if table !in catalog.tables {
        return Err(UnknownTable);
      }
      var rows := CollectRows(t, table, Sorted(M.StoredKeys(View(), table) + M.OverlayKeys(t.View(), table)), None);
      return Ok(rows);
    }

    method ScanSecondary(t: Transaction, index: M.IndexId, v: Value) returns (r: Result<seq<M.Row>, ReadError>)
      ensures t.readTs < retainedFloor ==> r == Err(SnapshotTooOld(t.readTs, retainedFloor))
      ensures t.readTs >= retainedFloor && t.readTs > lastApplied ==> r == Err(FutureSnapshot)
      ensures retainedFloor <= t.readTs <= lastApplied ==>
                r == if index in catalog.indexes
                  then Ok(M.ScanSecondary(View(), t.View(), catalog.indexes[index], v)) else Err(UnknownIndex)
    {
      if t.readTs < retainedFloor {
        return Err(SnapshotTooOld(t.readTs, retainedFloor));
      }
      if t.readTs > lastApplied {
        return Err(FutureSnapshot);
      }
      if index !in catalog.indexes {
        return Err(UnknownIndex);
      }
      if v.IsNull() {
        return Ok([]);
      }
      var x := catalog.indexes[index];
      var keys := M.IndexedKeys(View(), x.id, v, t.readTs) + M.OverlayKeys(t.View(), x.table);
      var rows := CollectRows(t, x.table, Sorted(keys), Some((x.column, v)));
      return Ok(rows);
    }

    method CollectRows(t: Transaction, table: M.TableId, pks: seq<Bytes>, filter: Option<(nat, Value)>)
      returns (rows: seq<M.Row>)
      ensures rows == M.Collect(View(), t.View(), table, pks, filter)
    {
      hide M.Collect, M.ReadKey, M.Matching;
      rows := [];
      var i := 0;
      assert pks[0..] == pks && [] + M.Collect(View(), t.View(), table, pks, filter)
             == M.Collect(View(), t.View(), table, pks, filter);
      while i < |pks|
        invariant 0 <= i <= |pks|
        invariant rows + M.Collect(View(), t.View(), table, pks[i..], filter)
                  == M.Collect(View(), t.View(), table, pks, filter)
      {
        assert pks[i..][1..] == pks[i + 1..];
        var row := M.Matching(M.ReadKey(View(), t.View(), M.LogicalKey(table, pks[i])), filter);
        CollectOne(View(), t.View(), table, pks[i..], filter, rows);
        if row.Some? {
          rows := rows + [row.value];
        }
        i := i + 1;
      }
      assert pks[i..] == [];
      CollectNone(View(), t.View(), table, filter, rows);
    }
  }

  lemma CollectOne(e: M.Engine, t: M.Transaction, table: M.TableId, pks: seq<Bytes>, filter: Option<(nat, Value)>,
                   rows: seq<M.Row>)
    requires pks != []
    ensures var row := M.Matching(M.ReadKey(e, t, M.LogicalKey(table, pks[0])), filter);
            rows + M.Collect(e, t, table, pks, filter)
            == (if row.Some? then rows + [row.value] else rows) + M.Collect(e, t, table, pks[1..], filter)
  {
    hide M.ReadKey, M.Matching;
    var row, rest := M.Matching(M.ReadKey(e, t, M.LogicalKey(table, pks[0])), filter),
        M.Collect(e, t, table, pks[1..], filter);
    Joined(rows, row, rest);
  }

  lemma Joined(rows: seq<M.Row>, row: Option<M.Row>, rest: seq<M.Row>)
    ensures rows + ((if row.Some? then [row.value] else []) + rest)
            == (if row.Some? then rows + [row.value] else rows) + rest
  {
  }

  lemma CollectNone(e: M.Engine, t: M.Transaction, table: M.TableId, filter: Option<(nat, Value)>, rows: seq<M.Row>)
    ensures rows + M.Collect(e, t, table, [], filter) == rows
  {
  }
}
