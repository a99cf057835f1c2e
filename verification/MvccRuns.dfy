/** Runs of the engine: every read is the fold of what committed, every index agrees
    with its table, every client's requests are applied once and in order. */
module MvccRuns {
  import opened Wrappers
  import opened Ordering
  import opened OrderedKeys
  import opened Mvcc
  import opened MvccChains

  datatype Command =
    | Txn(index: nat, applyHash: Hash, requestHash: Hash, attempt: Attempt)
    | Noop(index: nat, hash: Hash)
    | Sweep(retainFrom: nat)

  /** A refused command changes nothing. */
  function Step(e: Engine, c: Command): (Engine, Option<Outcome>) {
    match c
    case Txn(index, applyHash, requestHash, attempt) =>
      (match Apply(e, index, applyHash, requestHash, attempt)
       case Ok((f, outcome)) => (f, Some(outcome))
       case Err(_) => (e, None))
    case Noop(index, hash) =>
      (match ApplyNoop(e, index, hash)
       case Ok((f, outcome)) => (f, Some(outcome))
       case Err(_) => (e, None))
    case Sweep(retainFrom) =>
      (match Vacuum(e, retainFrom)
       case Ok(f) => (f, None)
       case Err(_) => (e, None))
  }

  // --------------------------------------------------------------------- history

  /** One committed attempt. */
  datatype CommitRecord = CommitRecord(index: nat, readTs: nat, writes: map<LogicalKey, Option<Row>>)

  /** One request a client was served. */
  datatype Served = Served(index: nat, sequence: nat, hash: Hash, result: CommitResult)

  datatype Past = Past(commits: seq<CommitRecord>, created: map<IndexId, nat>, served: map<ClientId, seq<Served>>)

  function Trace(p: Past, c: ClientId): seq<Served> {
    if c in p.served then p.served[c] else []
  }

  /** The command is applied now, at the next index, as a new request. */
  predicate IsNew(e: Engine, c: Command) {
    c.Txn? && Canonical(c.attempt) && c.index == e.lastApplied + 1
      && Admit(e, c.attempt.client, c.attempt.sequence, c.requestHash).New?
  }

  function Recorded(p: Past, e: Engine, c: Command): Past {
    if !IsNew(e, c) then p
    else
      var a, result := c.attempt, Evaluate(e, c.index, c.attempt).1;
      var q := p.(served := p.served[a.client := Trace(p, a.client)
                                     + [Served(c.index, a.sequence, c.requestHash, result)]]);
      if result.Committed?
      then q.(commits := p.commits + [CommitRecord(c.index, a.readTs, WritesOf(a.writes))],
              created := p.created + map i | i in IdsOf(NewIndexes(a.mutations)) :: c.index)
      else q
  }

  function IdsOf(xs: seq<IndexMeta>): set<IndexId> {
    set x | x in xs :: x.id
  }

  /** What a database holds after the commits up to `ts`, by applying them in order. */
  function Database(commits: seq<CommitRecord>, ts: nat): map<LogicalKey, Row>
    decreases |commits|
  {
    if commits == [] then map[]
    else
      var d, c := Database(commits[..|commits| - 1], ts), commits[|commits| - 1];
      if c.index > ts then d
      else map k | k in d.Keys + c.writes.Keys && (k in c.writes ==> c.writes[k].Some?) ::
             if k in c.writes then c.writes[k].value else d[k]
  }

  function Stored(d: map<LogicalKey, Row>, k: LogicalKey): Option<Row> {
    if k in d then Some(d[k]) else None
  }

  // ------------------------------------------------------------------- invariant

  ghost predicate ChainsOk(e: Engine) {
    && e.retainedFloor <= e.lastApplied
    && (forall k {:trigger k in e.primary} {:trigger Rows(e.primary, k)} :: RowChain(Rows(e.primary, k), e.lastApplied))
    && (forall k {:trigger k in e.secondary} {:trigger Marks(e.secondary, k)} ::
          MarkChain(Marks(e.secondary, k), e.lastApplied))
    && (forall k {:trigger Marks(e.secondary, k)} :: Marks(e.secondary, k) != [] ==> k.index in e.catalog.indexes)
    && FiledById(e.catalog)
  }

  ghost predicate ReadsFold(e: Engine, p: Past, k: LogicalKey, ts: nat) {
    e.retainedFloor <= ts ==> Read(e, k, ts) == Stored(Database(p.commits, ts), k)
  }

  /** A chain's head is at least as new as any commit to its key that the floor has not passed. */
  ghost predicate HeadCovers(e: Engine, c: CommitRecord, k: LogicalKey) {
    k in c.writes && c.index > e.retainedFloor ==> Rows(e.primary, k) != [] && Rows(e.primary, k)[0].commit >= c.index
  }

  ghost predicate FirstWins(p: Past, i: nat, j: nat, k: LogicalKey) {
    i < j < |p.commits| && k in p.commits[i].writes && k in p.commits[j].writes ==>
        p.commits[i].index <= p.commits[j].readTs
  }

  ghost predicate CommitsOk(e: Engine, p: Past) {
    && (forall i {:trigger p.commits[i]} :: 0 <= i < |p.commits| ==> p.commits[i].index <= e.lastApplied)
    && (forall i, j {:trigger p.commits[i], p.commits[j]} ::
          0 <= i < j < |p.commits| ==> p.commits[i].index < p.commits[j].index)
    && (forall i, k {:trigger HeadCovers(e, p.commits[i], k)} ::
          0 <= i < |p.commits| ==> HeadCovers(e, p.commits[i], k))
    && (forall i, j, k {:trigger FirstWins(p, i, j, k)} :: FirstWins(p, i, j, k))
    && (forall k, ts {:trigger ReadsFold(e, p, k, ts)} :: ReadsFold(e, p, k, ts))
  }

  /** One index entry shows exactly what the row's cell shows. */
  ghost predicate Agrees(e: Engine, p: Past, key: SecondaryKey, ts: nat) {
    key.index in e.catalog.indexes && key.index in p.created && e.retainedFloor <= ts && p.created[key.index] <= ts ==>
      var x := e.catalog.indexes[key.index];
      VisibleMark(Marks(e.secondary, key), ts)
      <==> IsMark(Cell(Read(e, LogicalKey(x.table, key.primaryKey), ts), x.column), key.value)
  }

  /** An index has no entries from before its creation. */
  ghost predicate Since(e: Engine, p: Past, key: SecondaryKey) {
    forall v {:trigger v in Marks(e.secondary, key)} :: v in Marks(e.secondary, key) ==>
      key.index in p.created && p.created[key.index] <= v.commit
  }

  ghost predicate IndexesOk(e: Engine, p: Past) {
    && p.created.Keys == e.catalog.indexes.Keys
    && (forall i {:trigger i in p.created} :: i in p.created ==> p.created[i] <= e.lastApplied)
    && (forall key, ts {:trigger Agrees(e, p, key, ts)} :: Agrees(e, p, key, ts))
    && (forall key {:trigger Since(e, p, key)} :: Since(e, p, key))
  }

  /** A client was served 1, 2, 3, ... at increasing indexes; the record is the last. */
  ghost predicate ServedOk(e: Engine, p: Past, c: ClientId) {
    var t := Trace(p, c);
    && (c in e.clients <==> t != [])
    && (c in e.clients ==>
          var last := t[|t| - 1];
          e.clients[c] == ClientRecord(last.sequence, last.hash, last.result))
    && (forall i {:trigger t[i]} :: 0 <= i < |t| ==> t[i].sequence == i + 1 && t[i].index <= e.lastApplied)
    && (forall i, j {:trigger t[i], t[j]} :: 0 <= i < j < |t| ==> t[i].index < t[j].index)
  }

  ghost predicate Inv(e: Engine, p: Past) {
    && ChainsOk(e) && CommitsOk(e, p) && IndexesOk(e, p)
    && (forall c {:trigger ServedOk(e, p, c)} :: ServedOk(e, p, c))
  }

  lemma FreshInv()
    ensures Inv(Fresh(), Past([], map[], map[]))
  {
  }

  // ------------------------------------------------------------------- one commit

  lemma DatabaseGrows(commits: seq<CommitRecord>, c: CommitRecord, ts: nat, k: LogicalKey)
    ensures Stored(Database(commits + [c], ts), k)
            == if c.index <= ts && k in c.writes then c.writes[k] else Stored(Database(commits, ts), k)
  {
    var all := commits + [c];
    assert all[..|all| - 1] == commits && all[|all| - 1] == c;
  }

  /** What committing does to a row and to an index entry, at every timestamp. */
  lemma CommitRows(e: Engine, index: nat, a: Attempt, c: Catalog, k: LogicalKey)
    requires Canonical(a)
    ensures Rows(Commit(e, index, a, c).primary, k)
            == (if k in WritesOf(a.writes) then [RowVersion(index, WritesOf(a.writes)[k])] else []) + Rows(e.primary, k)
  {
    CanonicalDistinct(a);
    ApplyWritesRows(e, e.catalog, e.lastApplied, index, a.writes, k);
  }

  lemma CommitRead(e: Engine, index: nat, a: Attempt, c: Catalog, k: LogicalKey, ts: nat)
    requires Canonical(a)
    ensures Read(Commit(e, index, a, c), k, ts)
            == if k in WritesOf(a.writes) && index <= ts then WritesOf(a.writes)[k] else Read(e, k, ts)
  {
    CommitRows(e, index, a, c, k);
    if k in WritesOf(a.writes) {
      PushedRow(index, WritesOf(a.writes)[k], Rows(e.primary, k), ts);
    } else {
      assert [] + Rows(e.primary, k) == Rows(e.primary, k);
    }
  }

  lemma CommitFrame(e: Engine, index: nat, a: Attempt, c: Catalog)
    ensures var f := Commit(e, index, a, c);
            f == e.(catalog := c, primary := f.primary, secondary := f.secondary)
  {
    ApplyWritesFrame(e, e.catalog, e.lastApplied, index, a.writes);
  }

  /** A valid attempt's catalog change. */
  lemma ValidCatalog(e: Engine, a: Attempt)
    requires FiledById(e.catalog) && ValidateAttempt(e, a).Ok?
    ensures Canonical(a) && e.retainedFloor <= a.readTs <= e.lastApplied
    ensures var d, xs := ValidateAttempt(e, a).value, NewIndexes(a.mutations);
            && FiledById(d) && DistinctIds(xs)
            && (forall i :: i in e.catalog.indexes ==> i in d.indexes && d.indexes[i] == e.catalog.indexes[i])
            && (forall x :: x in xs ==> x.id !in e.catalog.indexes && x.id in d.indexes && d.indexes[x.id] == x)
            && (forall i :: i in d.indexes ==> i in e.catalog.indexes || d.indexes[i] in xs)
  {
    CreateAllIndexes(e.catalog, a.mutations);
  }

  /** An old index's entry after the commit. */
  lemma CommitOldMarks(e: Engine, index: nat, a: Attempt, c: Catalog, key: SecondaryKey)
    requires FiledById(e.catalog) && ValidateAttempt(e, a) == Ok(c) && e.lastApplied < index
             && key.index in e.catalog.indexes
    ensures var x := e.catalog.indexes[key.index];
            var k := LogicalKey(x.table, key.primaryKey);
            Marks(Commit(e, index, a, c).secondary, key)
            == if k in WritesOf(a.writes)
               then Followed(Marks(e.secondary, key), key.value, Cell(Read(e, k, e.lastApplied), x.column),
                             Cell(WritesOf(a.writes)[k], x.column), index)
               else Marks(e.secondary, key)
  {
    ValidCatalog(e, a);
    CanonicalDistinct(a);
    var w := ApplyWrites(e, e.catalog, e.lastApplied, index, a.writes);
    ApplyWritesMarks(e, e.catalog, e.lastApplied, index, a.writes, key);
    BackfillAt(w.secondary, w.primary, NewIndexes(a.mutations), index, key);
  }

  /** A new index's entry. */
  lemma CommitNewMarks(e: Engine, index: nat, a: Attempt, c: Catalog, key: SecondaryKey)
    requires ChainsOk(e) && ValidateAttempt(e, a) == Ok(c) && e.lastApplied < index
    requires key.index in c.indexes && key.index !in e.catalog.indexes
    ensures var x := c.indexes[key.index];
            Marks(Commit(e, index, a, c).secondary, key)
            == if IsMark(Cell(Read(Commit(e, index, a, c), LogicalKey(x.table, key.primaryKey), index), x.column),
                         key.value)
               then [SecondaryVersion(index, true)] else []
  {
    ValidCatalog(e, a);
    CanonicalDistinct(a);
    var w := ApplyWrites(e, e.catalog, e.lastApplied, index, a.writes);
    ApplyWritesMarks(e, e.catalog, e.lastApplied, index, a.writes, key);
    BackfillAt(w.secondary, w.primary, NewIndexes(a.mutations), index, key);
    assert Marks(w.secondary, key) == [];
    assert c.indexes[key.index] in NewIndexes(a.mutations);
  }

  lemma CommitNoMarks(e: Engine, index: nat, a: Attempt, c: Catalog, key: SecondaryKey)
    requires ChainsOk(e) && ValidateAttempt(e, a) == Ok(c) && e.lastApplied < index && key.index !in c.indexes
    ensures Marks(Commit(e, index, a, c).secondary, key) == []
  {
    ValidCatalog(e, a);
    CanonicalDistinct(a);
    var w := ApplyWrites(e, e.catalog, e.lastApplied, index, a.writes);
    ApplyWritesMarks(e, e.catalog, e.lastApplied, index, a.writes, key);
    BackfillAt(w.secondary, w.primary, NewIndexes(a.mutations), index, key);
  }

  /** Following one write keeps an entry in step with its row. */
  lemma FollowedAgrees(vs: seq<SecondaryVersion>, bytes: Bytes, was: Option<Value>, now: Option<Value>, last: nat,
                       commit: nat, ts: nat)
    requires MarkChain(vs, last) && last < commit <= ts
    requires VisibleMark(vs, last) <==> IsMark(was, bytes)
    ensures VisibleMark(Followed(vs, bytes, was, now, commit), ts) <==> IsMark(now, bytes)
  {
    LatestMark(vs, last, ts);
    PushedMark(commit, true, vs, ts);
    PushedMark(commit, false, vs, ts);
  }

  lemma FollowedBefore(vs: seq<SecondaryVersion>, bytes: Bytes, was: Option<Value>, now: Option<Value>, commit: nat,
                       ts: nat)
    requires ts < commit
    ensures VisibleMark(Followed(vs, bytes, was, now, commit), ts) == VisibleMark(vs, ts)
  {
    PushedMark(commit, true, vs, ts);
    PushedMark(commit, false, vs, ts);
  }

  lemma FollowedChain(vs: seq<SecondaryVersion>, bytes: Bytes, was: Option<Value>, now: Option<Value>, last: nat,
                      commit: nat)
    requires MarkChain(vs, last) && last < commit
    ensures MarkChain(Followed(vs, bytes, was, now, commit), commit)
  {
  }

  // -------------------------------------------------------------- what steps keep

  /** No conflict: every written chain's head is at or before the snapshot. */
  lemma {:induction false} ChecksPassed(e: Engine, c: Catalog, readTs: nat, ws: seq<TxnWrite>, k: LogicalKey)
    requires CheckWrites(e, c, readTs, ws).None? && k in WritesOf(ws)
    ensures Rows(e.primary, k) != [] ==> Rows(e.primary, k)[0].commit <= readTs
    decreases |ws|
  {
    if ws[0].Key() != k {
      ChecksPassed(e, c, readTs, ws[1..], k);
    }
  }

  /** `g` is `e` with a committed attempt applied at the next index. */
  ghost predicate Committing(e: Engine, g: Engine, a: Attempt, c: Catalog) {
    && ValidateAttempt(e, a) == Ok(c)
    && g == Commit(e, e.lastApplied + 1, a, c).(clients := g.clients, lastApplied := e.lastApplied + 1,
                                                lastApplyHash := g.lastApplyHash,
                                                  lastApplyOutcome := g.lastApplyOutcome)
  }

  function Extended(p: Past, e: Engine, a: Attempt): Past {
    p.(commits := p.commits + [CommitRecord(e.lastApplied + 1, a.readTs, WritesOf(a.writes))],
       created := p.created + map i | i in IdsOf(NewIndexes(a.mutations)) :: e.lastApplied + 1)
  }

  lemma CommittingRows(e: Engine, g: Engine, a: Attempt, c: Catalog, k: LogicalKey)
    requires ChainsOk(e) && Committing(e, g, a, c)
    ensures Rows(g.primary, k)
            == (if k in WritesOf(a.writes) then [RowVersion(e.lastApplied + 1, WritesOf(a.writes)[k])] else [])
              + Rows(e.primary, k)
    ensures RowChain(Rows(g.primary, k), g.lastApplied)
  {
    hide Commit, ValidateAttempt, Canonical, WritesOf;
    ValidCatalog(e, a);
    CommitRows(e, e.lastApplied + 1, a, c, k);
    assert RowChain(Rows(e.primary, k), e.lastApplied);
  }

  lemma CommittingMarks(e: Engine, g: Engine, a: Attempt, c: Catalog, key: SecondaryKey)
    requires ChainsOk(e) && Committing(e, g, a, c)
    ensures MarkChain(Marks(g.secondary, key), g.lastApplied)
    ensures Marks(g.secondary, key) != [] ==> key.index in c.indexes
  {
    hide Commit, ValidateAttempt, Canonical, WritesOf, Followed, IsMark, Read;
    ValidCatalog(e, a);
    assert MarkChain(Marks(e.secondary, key), e.lastApplied);
    if key.index in e.catalog.indexes {
      CommitOldMarks(e, e.lastApplied + 1, a, c, key);
      var x := e.catalog.indexes[key.index];
      var k := LogicalKey(x.table, key.primaryKey);
      if k in WritesOf(a.writes) {
        FollowedChain(Marks(e.secondary, key), key.value, Cell(Read(e, k, e.lastApplied), x.column),
                      Cell(WritesOf(a.writes)[k], x.column), e.lastApplied, e.lastApplied + 1);
      }
    } else if key.index in c.indexes {
      CommitNewMarks(e, e.lastApplied + 1, a, c, key);
    } else {
      CommitNoMarks(e, e.lastApplied + 1, a, c, key);
    }
  }

  lemma CommitKeepsReads(e: Engine, p: Past, g: Engine, a: Attempt, c: Catalog)
    requires Inv(e, p) && Committing(e, g, a, c)
    ensures CommitsOk(g, Extended(p, e, a))
  {
    hide Agrees, ServedOk, ValidateAttempt, Commit, Canonical, WritesOf, Database, VisibleRow, RowChain, MarkChain;
    var q := Extended(p, e, a);
    var n := |p.commits|;
    var index := e.lastApplied + 1;
    ValidCatalog(e, a);
    CommitFrame(e, index, a, c);
    forall i, k | 0 <= i < |q.commits| ensures HeadCovers(g, q.commits[i], k) {
      CommittingRows(e, g, a, c, k);
      if i < n {
        assert HeadCovers(e, p.commits[i], k) && p.commits[i].index <= e.lastApplied;
      }
    }
    forall i: nat, j: nat, k ensures FirstWins(q, i, j, k) {
      if i < j == n && k in q.commits[i].writes && k in q.commits[j].writes {
        assert HeadCovers(e, p.commits[i], k);
        PassedConflicts(e, a, c, k);
      } else if i < j < n {
        assert FirstWins(p, i, j, k);
      }
    }
    forall k, ts: nat ensures ReadsFold(g, q, k, ts) {
      assert ReadsFold(e, p, k, ts);
      CommitRead(e, index, a, c, k, ts);
      DatabaseGrows(p.commits, q.commits[n], ts, k);
    }
  }

  lemma PassedConflicts(e: Engine, a: Attempt, c: Catalog, k: LogicalKey)
    requires ValidateAttempt(e, a) == Ok(c) && k in WritesOf(a.writes)
    ensures e.retainedFloor <= a.readTs && (Rows(e.primary, k) != [] ==> Rows(e.primary, k)[0].commit <= a.readTs)
  {
    ChecksPassed(e, c, a.readTs, a.writes, k);
  }

  /** What the invariant says about one old index entry. */
  lemma EntryFacts(e: Engine, p: Past, key: SecondaryKey, ts: nat)
    requires Inv(e, p) && key.index in e.catalog.indexes && e.retainedFloor <= ts && p.created[key.index] <= ts
    ensures var x := e.catalog.indexes[key.index];
            var k := LogicalKey(x.table, key.primaryKey);
            && MarkChain(Marks(e.secondary, key), e.lastApplied) && RowChain(Rows(e.primary, k), e.lastApplied)
            && (VisibleMark(Marks(e.secondary, key), ts) <==> IsMark(Cell(Read(e, k, ts), x.column), key.value))
            && (VisibleMark(Marks(e.secondary, key), e.lastApplied)
              <==> IsMark(Cell(Read(e, k, e.lastApplied), x.column), key.value))
  {
    hide CommitsOk, ServedOk, IsMark, VisibleMark, VisibleRow, MarkChain, RowChain;
    assert Agrees(e, p, key, ts) && Agrees(e, p, key, e.lastApplied);
  }

  lemma OldEntryKept(e: Engine, p: Past, g: Engine, a: Attempt, c: Catalog, key: SecondaryKey, ts: nat)
    requires Inv(e, p) && Committing(e, g, a, c)
    requires key.index in e.catalog.indexes && e.retainedFloor <= ts && p.created[key.index] <= ts
    ensures var x := e.catalog.indexes[key.index];
            VisibleMark(Marks(g.secondary, key), ts)
            <==> IsMark(Cell(Read(g, LogicalKey(x.table, key.primaryKey), ts), x.column), key.value)
  {
    hide Inv, ValidateAttempt, Commit, Canonical, WritesOf, Followed, IsMark, VisibleMark, VisibleRow, MarkChain,
         RowChain;
    var index := e.lastApplied + 1;
    var x := e.catalog.indexes[key.index];
    var k := LogicalKey(x.table, key.primaryKey);
    InvParts(e, p);
    ValidCatalog(e, a);
    EntryFacts(e, p, key, ts);
    CommitOldMarks(e, index, a, c, key);
    CommitRead(e, index, a, c, k, ts);
    if k in WritesOf(a.writes) {
      var was, now := Cell(Read(e, k, e.lastApplied), x.column), Cell(WritesOf(a.writes)[k], x.column);
      if index <= ts {
        FollowedAgrees(Marks(e.secondary, key), key.value, was, now, e.lastApplied, index, ts);
      } else {
        FollowedBefore(Marks(e.secondary, key), key.value, was, now, index, ts);
      }
    }
  }

  lemma InvParts(e: Engine, p: Past)
    requires Inv(e, p)
    ensures ChainsOk(e) && FiledById(e.catalog) && p.created.Keys == e.catalog.indexes.Keys
  {
  }

  lemma NewEntryAgrees(e: Engine, g: Engine, a: Attempt, c: Catalog, key: SecondaryKey, ts: nat)
    requires ChainsOk(e) && Committing(e, g, a, c)
    requires key.index in c.indexes && key.index !in e.catalog.indexes && e.lastApplied + 1 <= ts
    ensures var x := c.indexes[key.index];
            VisibleMark(Marks(g.secondary, key), ts)
            <==> IsMark(Cell(Read(g, LogicalKey(x.table, key.primaryKey), ts), x.column), key.value)
  {
    hide ChainsOk, ValidateAttempt, Commit, Canonical, WritesOf, IsMark, VisibleRow, RowChain;
    var x := c.indexes[key.index];
    var k := LogicalKey(x.table, key.primaryKey);
    CommitNewMarks(e, e.lastApplied + 1, a, c, key);
    CommittingRows(e, g, a, c, k);
    LatestRow(Rows(g.primary, k), e.lastApplied + 1, ts);
  }

  lemma CommitKeepsEntry(e: Engine, p: Past, g: Engine, a: Attempt, c: Catalog, key: SecondaryKey, ts: nat)
    requires Inv(e, p) && Committing(e, g, a, c)
    ensures Agrees(g, Extended(p, e, a), key, ts)
  {
    hide Inv, ValidateAttempt, Commit, Canonical, WritesOf, IsMark, VisibleMark, VisibleRow, NewIndexes;
    var q := Extended(p, e, a);
    InvParts(e, p);
    ValidCatalog(e, a);
    CommitFrame(e, e.lastApplied + 1, a, c);
    if key.index in e.catalog.indexes {
      assert key.index !in IdsOf(NewIndexes(a.mutations));
      if e.retainedFloor <= ts && p.created[key.index] <= ts {
        OldEntryKept(e, p, g, a, c, key, ts);
      }
    } else if key.index in c.indexes {
      assert c.indexes[key.index] in NewIndexes(a.mutations) && c.indexes[key.index].id == key.index;
      assert key.index in IdsOf(NewIndexes(a.mutations));
      if e.lastApplied + 1 <= ts {
        NewEntryAgrees(e, g, a, c, key, ts);
      }
    }
  }

  lemma CommitKeepsCreated(e: Engine, p: Past, g: Engine, a: Attempt, c: Catalog)
    requires Inv(e, p) && Committing(e, g, a, c)
    ensures var q := Extended(p, e, a);
            && q.created.Keys == g.catalog.indexes.Keys
            && forall i {:trigger i in q.created} :: i in q.created ==> q.created[i] <= g.lastApplied
  {
    hide Inv, ValidateAttempt, Commit, Canonical, NewIndexes, WritesOf, ChainsOk, FiledById, DistinctIds;
    InvParts(e, p);
    CreatedBefore(e, p);
    ValidCatalog(e, a);
    CommitFrame(e, e.lastApplied + 1, a, c);
    NewAreCreated(e.catalog, c, NewIndexes(a.mutations));
  }

  lemma CreatedBefore(e: Engine, p: Past)
    requires Inv(e, p)
    ensures forall i {:trigger i in p.created} :: i in p.created ==> p.created[i] <= e.lastApplied
  {
  }

  lemma NewAreCreated(c: Catalog, d: Catalog, xs: seq<IndexMeta>)
    requires FiledById(d) && forall i :: i in c.indexes ==> i in d.indexes && d.indexes[i] == c.indexes[i]
    requires forall x :: x in xs ==> x.id in d.indexes
    requires forall i :: i in d.indexes ==> i in c.indexes || d.indexes[i] in xs
    ensures c.indexes.Keys + IdsOf(xs) == d.indexes.Keys
  {
    forall i | i in d.indexes && i !in c.indexes ensures i in IdsOf(xs) {
      assert d.indexes[i] in xs && d.indexes[i].id == i;
    }
  }

  lemma CommitKeepsIndexes(e: Engine, p: Past, g: Engine, a: Attempt, c: Catalog)
    requires Inv(e, p) && Committing(e, g, a, c)
    ensures IndexesOk(g, Extended(p, e, a))
  {
    hide CommitsOk, ServedOk, Committing, Agrees, Since, Extended;
    var q := Extended(p, e, a);
    CommitKeepsCreated(e, p, g, a, c);
    forall key, ts: nat ensures Agrees(g, q, key, ts) {
      CommitKeepsEntry(e, p, g, a, c, key, ts);
    }
    forall key ensures Since(g, q, key) {
      CommitKeepsSince(e, p, g, a, c, key);
    }
  }

  lemma CommitKeepsSince(e: Engine, p: Past, g: Engine, a: Attempt, c: Catalog, key: SecondaryKey)
    requires Inv(e, p) && Committing(e, g, a, c)
    ensures Since(g, Extended(p, e, a), key)
  {
    hide Inv, ChainsOk, ValidateAttempt, Commit, Canonical, WritesOf, IsMark, VisibleRow, Read, NewIndexes, Followed,
         FiledById, DistinctIds;
    InvParts(e, p);
    SinceHere(e, p, key);
    CreatedBefore(e, p);
    ValidCatalog(e, a);
    CommitFrame(e, e.lastApplied + 1, a, c);
    if key.index in e.catalog.indexes {
      assert key.index !in IdsOf(NewIndexes(a.mutations));
      assert key.index in p.created && p.created[key.index] <= e.lastApplied;
      CommitOldMarks(e, e.lastApplied + 1, a, c, key);
      var x := e.catalog.indexes[key.index];
      var k := LogicalKey(x.table, key.primaryKey);
      if k in WritesOf(a.writes) {
        FollowedMembers(Marks(e.secondary, key), key.value, Cell(Read(e, k, e.lastApplied), x.column),
                        Cell(WritesOf(a.writes)[k], x.column), e.lastApplied + 1);
      }
    } else if key.index in c.indexes {
      assert c.indexes[key.index] in NewIndexes(a.mutations) && c.indexes[key.index].id == key.index;
      assert key.index in IdsOf(NewIndexes(a.mutations));
      CommitNewMarks(e, e.lastApplied + 1, a, c, key);
    } else {
      CommitNoMarks(e, e.lastApplied + 1, a, c, key);
    }
  }

  lemma SinceHere(e: Engine, p: Past, key: SecondaryKey)
    requires Inv(e, p)
    ensures Since(e, p, key)
  {
  }

  lemma FollowedMembers(vs: seq<SecondaryVersion>, bytes: Bytes, was: Option<Value>, now: Option<Value>, commit: nat)
    ensures forall v {:trigger v in Followed(vs, bytes, was, now, commit)} ::
              v in Followed(vs, bytes, was, now, commit) ==> v in vs || v.commit == commit
  {
    hide IsMark;
  }

  /** What a new request changes outside the data. */
  lemma NewClients(e: Engine, c: Command)
    requires IsNew(e, c)
    ensures var g, a := Step(e, c).0, c.attempt;
            && g.clients == e.clients[a.client := ClientRecord(a.sequence, c.requestHash, Evaluate(e, c.index, a).1)]
            && g.lastApplied == c.index
  {
    hide Canonical, Commit, ValidateAttempt;
    EvaluateFrame(e, c.index, c.attempt);
  }

  /** A new request advances its client's trace by one. */
  lemma ServeKeeps(e: Engine, p: Past, c: Command, g: Engine)
    requires Inv(e, p) && IsNew(e, c) && Step(e, c).0 == g
    ensures forall x {:trigger ServedOk(g, Recorded(p, e, c), x)} :: ServedOk(g, Recorded(p, e, c), x)
  {
    hide Evaluate, Canonical, ChainsOk, CommitsOk, IndexesOk, NewIndexes, WritesOf, Step, ServedOk;
    var a, q := c.attempt, Recorded(p, e, c);
    NewClients(e, c);
    forall x ensures ServedOk(g, q, x) {
      assert ServedOk(e, p, x) && ServedOk(e, p, a.client);
      ServedMore(e, p, g, q, a.client, Served(c.index, a.sequence, c.requestHash, Evaluate(e, c.index, a).1), x);
    }
  }

  lemma ServedMore(e: Engine, p: Past, g: Engine, q: Past, client: ClientId, s: Served, x: ClientId)
    requires ServedOk(e, p, x) && ServedOk(e, p, client)
    requires g.clients == e.clients[client := ClientRecord(s.sequence, s.hash, s.result)]
             && g.lastApplied == s.index == e.lastApplied + 1
    requires q.served == p.served[client := Trace(p, client) + [s]]
    requires s.sequence == if client in e.clients then e.clients[client].sequence + 1 else 1
    ensures ServedOk(g, q, x)
  {
    if x == client {
      assert Trace(q, x) == Trace(p, x) + [s];
    } else {
      assert Trace(q, x) == Trace(p, x);
    }
  }

  lemma EvaluateFrame(e: Engine, index: nat, a: Attempt)
    ensures var f := Evaluate(e, index, a).0; f.clients == e.clients && f.lastApplied == e.lastApplied
                                              && f.retainedFloor == e.retainedFloor
  {
    if ValidateAttempt(e, a).Ok? {
      CommitFrame(e, index, a, ValidateAttempt(e, a).value);
    }
  }

  /** Only the applied index moves on. */
  lemma BumpKeeps(e: Engine, p: Past, g: Engine)
    requires Inv(e, p) && g.lastApplied >= e.lastApplied
    requires g == e.(clients := g.clients, lastApplied := g.lastApplied, lastApplyHash := g.lastApplyHash,
                     lastApplyOutcome := g.lastApplyOutcome)
    ensures ChainsOk(g) && CommitsOk(g, p) && IndexesOk(g, p)
  {
    hide ServedOk, Database, VisibleRow, VisibleMark;
    forall k ensures RowChain(Rows(g.primary, k), g.lastApplied) {
      assert RowChain(Rows(e.primary, k), e.lastApplied);
    }
    forall k ensures MarkChain(Marks(g.secondary, k), g.lastApplied) {
      assert MarkChain(Marks(e.secondary, k), e.lastApplied);
    }
    forall i, k | 0 <= i < |p.commits| ensures HeadCovers(g, p.commits[i], k) {
      assert HeadCovers(e, p.commits[i], k);
    }
    forall k, ts: nat ensures ReadsFold(g, p, k, ts) {
      assert ReadsFold(e, p, k, ts);
    }
    forall key, ts: nat ensures Agrees(g, p, key, ts) {
      assert Agrees(e, p, key, ts);
    }
    forall key ensures Since(g, p, key) {
      assert Since(e, p, key);
    }
  }

  lemma SameClientsKeep(e: Engine, p: Past, g: Engine)
    requires Inv(e, p) && g.clients == e.clients && g.lastApplied >= e.lastApplied
    ensures forall x {:trigger ServedOk(g, p, x)} :: ServedOk(g, p, x)
  {
    hide ChainsOk, CommitsOk, IndexesOk;
    forall x ensures ServedOk(g, p, x) {
      assert ServedOk(e, p, x);
    }
  }

  // ----------------------------------------------------------------------- vacuum

  /** Vacuuming keeps a prefix of the chain, at least everything above the floor. */
  lemma {:induction false} VacuumRowsPrefix(vs: seq<RowVersion>, floor: nat)
    ensures VacuumRows(vs, floor) <= vs
    ensures vs != [] && vs[0].commit > floor ==> VacuumRows(vs, floor) != []
    decreases |vs|
  {
    if vs != [] {
      VacuumRowsPrefix(vs[1..], floor);
      assert vs == [vs[0]] + vs[1..];
    }
  }

  lemma {:induction false} VacuumMarksPrefix(vs: seq<SecondaryVersion>, floor: nat)
    ensures VacuumMarks(vs, floor) <= vs
    decreases |vs|
  {
    if vs != [] {
      VacuumMarksPrefix(vs[1..], floor);
      assert vs == [vs[0]] + vs[1..];
    }
  }

  /** At and above the floor a vacuumed chain shows what it showed. */
  lemma {:induction false} VacuumRowsVisible(vs: seq<RowVersion>, floor: nat, ts: nat)
    requires floor <= ts
    ensures VisibleRow(VacuumRows(vs, floor), ts) == VisibleRow(vs, ts)
    decreases |vs|
  {
    if vs != [] {
      VacuumRowsVisible(vs[1..], floor, ts);
      PushedRow(vs[0].commit, vs[0].row, VacuumRows(vs[1..], floor), ts);
    }
  }

  lemma {:induction false} VacuumMarksVisible(vs: seq<SecondaryVersion>, floor: nat, ts: nat)
    requires floor <= ts
    ensures VisibleMark(VacuumMarks(vs, floor), ts) == VisibleMark(vs, ts)
    decreases |vs|
  {
    if vs != [] {
      VacuumMarksVisible(vs[1..], floor, ts);
      PushedMark(vs[0].commit, vs[0].present, VacuumMarks(vs[1..], floor), ts);
    }
  }

  lemma VacuumRowsKeeps(vs: seq<RowVersion>, last: nat, floor: nat, ts: nat)
    requires RowChain(vs, last) && floor <= ts
    ensures var ws := VacuumRows(vs, floor);
            && VisibleRow(ws, ts) == VisibleRow(vs, ts) && RowChain(ws, last)
            && (vs != [] && vs[0].commit > floor ==> ws != []) && (ws != [] ==> vs != [] && ws[0] == vs[0])
  {
    VacuumRowsPrefix(vs, floor);
    VacuumRowsVisible(vs, floor, ts);
  }

  lemma VacuumMarksKeeps(vs: seq<SecondaryVersion>, last: nat, floor: nat, ts: nat)
    requires MarkChain(vs, last) && floor <= ts
    ensures var ws := VacuumMarks(vs, floor);
            VisibleMark(ws, ts) == VisibleMark(vs, ts) && MarkChain(ws, last) && (ws != [] ==> vs != [])
  {
    VacuumMarksPrefix(vs, floor);
    VacuumMarksVisible(vs, floor, ts);
  }

  lemma VacuumChains(e: Engine, retainFrom: nat, g: Engine)
    requires Vacuum(e, retainFrom) == Ok(g)
    ensures e.retainedFloor <= g.retainedFloor
            && (e.retainedFloor <= e.lastApplied ==> g.retainedFloor <= e.lastApplied)
    ensures g == e.(primary := g.primary, secondary := g.secondary, retainedFloor := g.retainedFloor)
    ensures forall k :: Rows(g.primary, k) == VacuumRows(Rows(e.primary, k), g.retainedFloor)
    ensures forall k :: Marks(g.secondary, k) == VacuumMarks(Marks(e.secondary, k), g.retainedFloor)
  {
    hide VacuumRows, VacuumMarks;
    VacuumNothing(g.retainedFloor);
  }

  lemma VacuumNothing(floor: nat)
    ensures VacuumRows([], floor) == [] && VacuumMarks([], floor) == []
  {
  }

  lemma VacuumKeeps(e: Engine, p: Past, retainFrom: nat, g: Engine)
    requires Inv(e, p) && Vacuum(e, retainFrom) == Ok(g)
    ensures Inv(g, p)
  {
    hide Vacuum, Database, VacuumRows, VacuumMarks, VisibleRow, VisibleMark;
    VacuumChains(e, retainFrom, g);
    var floor := g.retainedFloor;
    forall k ensures RowChain(Rows(g.primary, k), g.lastApplied) {
      assert RowChain(Rows(e.primary, k), e.lastApplied);
      VacuumRowsKeeps(Rows(e.primary, k), e.lastApplied, floor, floor);
    }
    forall k ensures MarkChain(Marks(g.secondary, k), g.lastApplied)
      && (Marks(g.secondary, k) != [] ==> k.index in g.catalog.indexes) {
      assert MarkChain(Marks(e.secondary, k), e.lastApplied);
      VacuumMarksKeeps(Marks(e.secondary, k), e.lastApplied, floor, floor);
    }
    forall i, k | 0 <= i < |p.commits| ensures HeadCovers(g, p.commits[i], k) {
      assert HeadCovers(e, p.commits[i], k) && RowChain(Rows(e.primary, k), e.lastApplied);
      VacuumRowsKeeps(Rows(e.primary, k), e.lastApplied, floor, floor);
    }
    forall k, ts: nat ensures ReadsFold(g, p, k, ts) {
      assert ReadsFold(e, p, k, ts) && RowChain(Rows(e.primary, k), e.lastApplied);
      if floor <= ts {
        VacuumRowsKeeps(Rows(e.primary, k), e.lastApplied, floor, ts);
      }
    }
    forall key, ts: nat ensures Agrees(g, p, key, ts) {
      assert Agrees(e, p, key, ts) && MarkChain(Marks(e.secondary, key), e.lastApplied);
      if floor <= ts && key.index in e.catalog.indexes {
        var k := LogicalKey(e.catalog.indexes[key.index].table, key.primaryKey);
        assert RowChain(Rows(e.primary, k), e.lastApplied);
        VacuumRowsKeeps(Rows(e.primary, k), e.lastApplied, floor, ts);
        VacuumMarksKeeps(Marks(e.secondary, key), e.lastApplied, floor, ts);
      }
    }
    forall key ensures Since(g, p, key) {
      assert Since(e, p, key);
      VacuumMarksPrefix(Marks(e.secondary, key), floor);
      forall v | v in Marks(g.secondary, key) ensures v in Marks(e.secondary, key) {
        var i :| 0 <= i < |Marks(g.secondary, key)| && Marks(g.secondary, key)[i] == v;
        assert Marks(e.secondary, key)[i] == v;
      }
    }
    SameClientsKeep(e, p, g);
  }
}
