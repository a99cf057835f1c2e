/** What a scan returns and what a sweep removes, element by element, over every run. */
module MvccReads {
  import opened Wrappers
  import opened Ordering
  import opened OrderedKeys
  import opened Mvcc
  import opened MvccChains
  import opened MvccRuns
  import opened MvccTheorems
  import MvccCommits

  // -------------------------------------------------------------------------- scans

  /** What a transaction finds under a key: its own write, or the last commit it can see. */
  function Found(commits: seq<CommitRecord>, t: Transaction, k: LogicalKey): Option<Row> {
    if k in t.writes then (if t.writes[k].mutation.Put? then Some(t.writes[k].mutation.row) else None)
    else Stored(Database(commits, t.readTs), k)
  }

  /** The rows at the listed keys. */
  predicate Lists(rows: seq<Row>, pks: seq<Bytes>, commits: seq<CommitRecord>, t: Transaction, table: TableId) {
    && |rows| == |pks|
    && forall i {:trigger pks[i]} :: 0 <= i < |rows| ==> Found(commits, t, LogicalKey(table, pks[i])) == Some(rows[i])
  }

  lemma {:induction false} CollectLists(e: Engine, t: Transaction, table: TableId, all: seq<Bytes>,
                                        commits: seq<CommitRecord>) returns (pks: seq<Bytes>)
    requires Ascending(all)
    requires forall pk :: pk in all ==>
                            ReadKey(e, t, LogicalKey(table, pk)) == Found(commits, t, LogicalKey(table, pk))
    ensures Ascending(pks) && Lists(Collect(e, t, table, all, None), pks, commits, t, table)
    ensures forall pk :: pk in pks <==> pk in all && Found(commits, t, LogicalKey(table, pk)).Some?
    decreases |all|
  {
    hide ReadKey, Found;
    if all == [] {
      pks := [];
    } else {
      var rest, pk := all[1..], all[0];
      AscendingRest(all);
      var later := CollectLists(e, t, table, rest, commits);
      var r := Found(commits, t, LogicalKey(table, pk));
      assert all == [pk] + rest;
      assert Matching(r, None) == r;
      pks := if r.Some? then [pk] + later else later;
      var rows := Collect(e, t, table, rest, None);
      if r.Some? {
        AscendingFirst(pk, later);
        assert Collect(e, t, table, all, None) == [r.value] + rows;
        forall i | 0 <= i < |pks| ensures Found(commits, t, LogicalKey(table, pks[i])) == Some(([r.value] + rows)[i]) {
          assert i > 0 ==> pks[i] == later[i - 1];
        }
      } else {
        assert Collect(e, t, table, all, None) == [] + rows == rows;
      }
    }
  }

  lemma AscendingRest(all: seq<Bytes>)
    requires all != [] && Ascending(all)
    ensures Ascending(all[1..]) && forall pk :: pk in all[1..] ==> Less(all[0], pk)
  {
    var rest := all[1..];
    assert forall i :: 0 <= i < |rest| ==> rest[i] == all[i + 1];
  }

  lemma AscendingFirst(pk: Bytes, later: seq<Bytes>)
    requires Ascending(later) && forall x :: x in later ==> Less(pk, x)
    ensures Ascending([pk] + later)
  {
  }

  /** A scan returns what the transaction finds under the table's keys, its own writes and
      the commits up to its snapshot, each key once, in key order, and nothing else. */
  lemma ScanExactly(cs: seq<Command>, t: Transaction, table: TableId) returns (pks: seq<Bytes>)
    requires After(cs).retainedFloor <= t.readTs
    ensures Ascending(pks) && Lists(ScanTable(After(cs), t, table), pks, PastOf(cs).commits, t, table)
    ensures forall pk :: pk in pks <==> Found(PastOf(cs).commits, t, LogicalKey(table, pk)).Some?
  {
    hide After, PastOf, Collect, Database, Read, Lists;
    var e, commits := After(cs), PastOf(cs).commits;
    forall k ensures ReadKey(e, t, k) == Found(commits, t, k) {
      SnapshotReads(cs, k, t.readTs);
    }
    var keys := StoredKeys(e, table) + OverlayKeys(t, table);
    forall pk | Found(commits, t, LogicalKey(table, pk)).Some? ensures pk in keys {
      var k := LogicalKey(table, pk);
      if k in t.writes {
        assert k.primaryKey in OverlayKeys(t, table);
      } else {
        UnstoredUnread(e, k, t.readTs);
        assert k.primaryKey in StoredKeys(e, table);
      }
    }
    pks := CollectLists(e, t, table, Sorted(keys), commits);
  }

  lemma UnstoredUnread(e: Engine, k: LogicalKey, ts: nat)
    ensures k !in e.primary ==> Read(e, k, ts).None?
  {
  }

  // ------------------------------------------------------------------------- sweeps

  /** A version a sweep keeps: newer than the floor, or the row the floor itself sees. */
  ghost predicate Needed(vs: seq<RowVersion>, v: RowVersion, floor: nat) {
    v.commit > floor || (v.row.Some? && forall u :: u in vs && u.commit <= floor ==> u.commit <= v.commit)
  }

  ghost predicate MarkNeeded(vs: seq<SecondaryVersion>, v: SecondaryVersion, floor: nat) {
    v.commit > floor || (v.present && forall u :: u in vs && u.commit <= floor ==> u.commit <= v.commit)
  }

  lemma RowRest(vs: seq<RowVersion>, last: nat)
    requires vs != [] && RowChain(vs, last)
    ensures RowChain(vs[1..], last) && vs == [vs[0]] + vs[1..] && forall u :: u in vs[1..] ==> u.commit < vs[0].commit
  {
    var rest := vs[1..];
    assert forall i :: 0 <= i < |rest| ==> rest[i] == vs[i + 1];
    forall u | u in rest ensures u.commit < vs[0].commit {
      var i :| 0 <= i < |rest| && rest[i] == u;
      assert vs[i + 1] == u;
    }
  }

  /** The first version, and what it means for those after it. */
  lemma NeededFirst(vs: seq<RowVersion>, v: RowVersion, floor: nat)
    requires vs != [] && vs == [vs[0]] + vs[1..] && forall u :: u in vs[1..] ==> u.commit < vs[0].commit
    ensures Needed(vs, vs[0], floor) <==> vs[0].commit > floor || vs[0].row.Some?
    ensures v in vs[1..] && vs[0].commit > floor ==> (Needed(vs, v, floor) <==> Needed(vs[1..], v, floor))
    ensures v in vs[1..] && vs[0].commit <= floor ==> !Needed(vs, v, floor)
  {
    assert vs[0] in vs && forall u :: u in vs <==> u == vs[0] || u in vs[1..];
  }

  lemma {:induction false} VacuumRowsExactly(vs: seq<RowVersion>, last: nat, floor: nat, v: RowVersion)
    requires RowChain(vs, last)
    ensures v in VacuumRows(vs, floor) <==> v in vs && Needed(vs, v, floor)
    decreases |vs|
  {
    hide RowChain, Needed;
    if vs != [] {
      RowRest(vs, last);
      VacuumRowsExactly(vs[1..], last, floor, v);
      NeededFirst(vs, v, floor);
      NeededFirst(vs, vs[0], floor);
    }
  }

  lemma MarkRest(vs: seq<SecondaryVersion>, last: nat)
    requires vs != [] && MarkChain(vs, last)
    ensures MarkChain(vs[1..], last) && vs == [vs[0]] + vs[1..] && forall u :: u in vs[1..] ==> u.commit < vs[0].commit
  {
    var rest := vs[1..];
    assert forall i :: 0 <= i < |rest| ==> rest[i] == vs[i + 1];
    forall u | u in rest ensures u.commit < vs[0].commit {
      var i :| 0 <= i < |rest| && rest[i] == u;
      assert vs[i + 1] == u;
    }
  }

  /** The first version, and what it means for those after it. */
  lemma MarkNeededFirst(vs: seq<SecondaryVersion>, v: SecondaryVersion, floor: nat)
    requires vs != [] && vs == [vs[0]] + vs[1..] && forall u :: u in vs[1..] ==> u.commit < vs[0].commit
    ensures MarkNeeded(vs, vs[0], floor) <==> vs[0].commit > floor || vs[0].present
    ensures v in vs[1..] && vs[0].commit > floor ==> (MarkNeeded(vs, v, floor) <==> MarkNeeded(vs[1..], v, floor))
    ensures v in vs[1..] && vs[0].commit <= floor ==> !MarkNeeded(vs, v, floor)
  {
    assert vs[0] in vs && forall u :: u in vs <==> u == vs[0] || u in vs[1..];
  }

  lemma {:induction false} VacuumMarksExactly(vs: seq<SecondaryVersion>, last: nat, floor: nat, v: SecondaryVersion)
    requires MarkChain(vs, last)
    ensures v in VacuumMarks(vs, floor) <==> v in vs && MarkNeeded(vs, v, floor)
    decreases |vs|
  {
    hide MarkChain, MarkNeeded;
    if vs != [] {
      MarkRest(vs, last);
      VacuumMarksExactly(vs[1..], last, floor, v);
      MarkNeededFirst(vs, v, floor);
      MarkNeededFirst(vs, vs[0], floor);
    }
  }

  /** A sweep, in any run: refused without effect beyond the last applied index; otherwise
      the floor rises to what was asked, never falls, and of every chain exactly the needed
      versions stay, in their order, empty chains going altogether. */
  lemma SweepExactly(cs: seq<Command>, retainFrom: nat)
    ensures var e, g := After(cs), After(cs + [Sweep(retainFrom)]);
            if retainFrom > e.lastApplied then g == e
            else
              && g.retainedFloor == (if retainFrom <= e.retainedFloor then e.retainedFloor else retainFrom)
              && g == e.(primary := g.primary, secondary := g.secondary, retainedFloor := g.retainedFloor)
              && (forall k, v {:trigger v in Rows(g.primary, k)} ::
                    v in Rows(g.primary, k) <==> v in Rows(e.primary, k)
                                                 && Needed(Rows(e.primary, k), v, g.retainedFloor))
              && (forall k {:trigger Rows(g.primary, k)} :: Rows(g.primary, k) <= Rows(e.primary, k))
              && (forall k {:trigger k in g.primary} :: k in g.primary ==> Rows(g.primary, k) != [])
              && (forall k, v {:trigger v in Marks(g.secondary, k)} ::
                    v in Marks(g.secondary, k) <==> v in Marks(e.secondary, k)
                                                    && MarkNeeded(Marks(e.secondary, k), v, g.retainedFloor))
              && (forall k {:trigger Marks(g.secondary, k)} :: Marks(g.secondary, k) <= Marks(e.secondary, k))
              && (forall k {:trigger k in g.secondary} :: k in g.secondary ==> Marks(g.secondary, k) != [])
  {
    hide After, PastOf, VacuumRows, VacuumMarks, CommitsOk, IndexesOk, ServedOk, RowChain, MarkChain;
    var e := After(cs);
    MvccCommits.RunOne(cs, Sweep(retainFrom));
    Reached(cs);
    if retainFrom <= e.lastApplied {
      var g := After(cs + [Sweep(retainFrom)]);
      VacuumChains(e, retainFrom, g);
      var floor := g.retainedFloor;
      forall k
        ensures Rows(g.primary, k) <= Rows(e.primary, k)
        ensures forall v :: v in Rows(g.primary, k) <==> v in Rows(e.primary, k) && Needed(Rows(e.primary, k), v, floor)
      {
        var vs := Rows(e.primary, k);
        assert RowChain(vs, e.lastApplied);
        VacuumRowsPrefix(vs, floor);
        forall v ensures v in VacuumRows(vs, floor) <==> v in vs && Needed(vs, v, floor) {
          VacuumRowsExactly(vs, e.lastApplied, floor, v);
        }
      }
      forall k
        ensures Marks(g.secondary, k) <= Marks(e.secondary, k)
        ensures forall v :: v in Marks(g.secondary, k) <==> v in Marks(e.secondary, k)
                                                            && MarkNeeded(Marks(e.secondary, k), v, floor)
      {
        var vs := Marks(e.secondary, k);
        assert MarkChain(vs, e.lastApplied);
        VacuumMarksPrefix(vs, floor);
        forall v ensures v in VacuumMarks(vs, floor) <==> v in vs && MarkNeeded(vs, v, floor) {
          VacuumMarksExactly(vs, e.lastApplied, floor, v);
        }
      }
    }
  }
}
