/** Crashing anywhere in an operation reopens to the state before it or after it. */
module RecoveryProofs {
  import opened Wrappers
  import opened Ordering
  import opened Recovery

  // ----------------------------------------------------------------- assumptions

  /** Nothing in the log is ahead of the superblock, and it agrees where it is level. */
  ghost predicate Behind(groups: seq<Group>, b: Superblock) {
    forall g {:trigger g in groups} :: g in groups ==>
      g.applyIndex <= b.appliedIndex && (g.applyIndex == b.appliedIndex ==> g.stateHash == b.stateHash)
  }

  /** Pages are where they say they are and no newer than the end of the log. */
  ghost predicate Placed(s: Sectors, end: nat) {
    forall i {:trigger i in s} :: i in s && i >= 2 ==>
                                    !s[i].Super? && (s[i].Data? ==> s[i].page.id == i && s[i].page.lsn <= end)
  }

  function Other(slot: nat): nat {
    if slot == 0 then 1 else 0
  }

  /** An open database: `b` is the newest superblock and the log is behind it. */
  ghost predicate Established(s: Sectors, wal: Wal, b: Superblock) {
    && b.slot <= 1 && InSlot(s, b.slot) == Some(b)
    && (InSlot(s, Other(b.slot)).Some? ==> InSlot(s, Other(b.slot)).value.generation < b.generation)
    && CheckMarker(b, wal).None? && Behind(wal.groups, b) && Placed(s, wal.end) && MarksEnd(wal)
  }

  ghost predicate MarksEnd(wal: Wal) {
    forall c {:trigger c in wal.checkpoints} :: c in wal.checkpoints ==> c.endLsn <= wal.end
  }

  ghost predicate DistinctPages(images: seq<DataPage>) {
    forall i, j {:trigger images[i], images[j]} :: 0 <= i < j < |images| ==> images[i].id != images[j].id
  }

  /** What the log checks of a group, and where its images' sequence numbers lie. */
  ghost predicate GroupFits(wal: Wal, b: Superblock, g: Group) {
    && g.applyIndex == b.appliedIndex + 1 && 2 <= b.nextPageId <= g.nextPageId && wal.end <= g.endLsn
    && DistinctPages(g.pages)
    && (forall p {:trigger p in g.pages} :: p in g.pages ==> 2 <= p.id < g.nextPageId && wal.end < p.lsn < g.endLsn)
  }

  // -------------------------------------------------------------------- contents

  lemma SameSectors(s: Sectors, t: Sectors)
    requires forall i :: Content(s, i) == Content(t, i)
    ensures s == t
  {
    forall i ensures i in s <==> i in t {
      assert Content(s, i) == Content(t, i);
    }
    forall i | i in s ensures s[i] == t[i] {
      assert Content(s, i) == Content(t, i);
    }
  }

  lemma SameView(s: Sectors, t: Sectors, b: Superblock, c: Superblock)
    requires forall i {:trigger Content(s, i)} :: 2 <= i < b.nextPageId ==> Content(s, i) == Content(t, i)
    requires c.appliedIndex == b.appliedIndex && c.stateHash == b.stateHash && c.nextPageId == b.nextPageId
             && c.root == b.root
    ensures View(s, b) == View(t, c)
  {
    var p, q := View(s, b).pages, View(t, c).pages;
    forall i ensures i in p <==> i in q {
      if 2 <= i < b.nextPageId {
        assert Content(s, i) == Content(t, i);
      }
    }
    forall i | i in p ensures p[i] == q[i] {
      assert Content(s, i) == Content(t, i);
    }
  }

  lemma {:induction false} OverwriteContent(s: Sectors, images: seq<DataPage>, id: PageId)
    requires DistinctPages(images)
    ensures (forall p :: p in images ==> p.id != id) ==> Content(Overwrite(s, images), id) == Content(s, id)
    ensures forall p :: p in images && p.id == id ==> Content(Overwrite(s, images), id) == Some(Data(p))
    decreases |images|
  {
    if images != [] {
      var rest := images[1..];
      RestDistinct(images);
      OverwriteContent(s[images[0].id := Data(images[0])], rest, id);
      assert images[0] in images;
      forall p | p in images ensures p == images[0] || p in rest {}
    }
  }

  lemma RestDistinct(images: seq<DataPage>)
    requires DistinctPages(images) && images != []
    ensures DistinctPages(images[1..]) && forall p :: p in images[1..] ==> p in images && p.id != images[0].id
  {
    var rest := images[1..];
    forall i, j | 0 <= i < j < |rest| ensures rest[i].id != rest[j].id {
      assert rest[i] == images[i + 1] && rest[j] == images[j + 1];
    }
    forall p | p in rest ensures p in images && p.id != images[0].id {
      var i :| 0 <= i < |rest| && rest[i] == p;
      assert images[i + 1] == p;
    }
  }

  /** Replaying puts every image in place when no page is newer than its image. */
  lemma {:induction false} ReplayOverwrites(s: Sectors, images: seq<DataPage>)
    requires DistinctPages(images)
    requires forall p {:trigger p in images} ::
               p in images ==> !MisplacedAt(s, p.id) && (Current(s, p) ==> s[p.id] == Data(p))
    ensures Replay(s, images) == Ok(Overwrite(s, images))
    decreases |images|
  {
    if images != [] {
      var p := images[0];
      assert p in images;
      RestDistinct(images);
      var t := s[p.id := Data(p)];
      assert Current(s, p) ==> s == t;
      forall q | q in images[1..] ensures !MisplacedAt(t, q.id) && (Current(t, q) ==> t[q.id] == Data(q)) {
        assert q in images;
      }
      ReplayOverwrites(t, images[1..]);
    }
  }

  // -------------------------------------------------------------------- recovery

  lemma {:induction false} NothingToReplay(s: Sectors, b: Superblock, groups: seq<Group>, n: nat)
    requires Behind(groups, b)
    ensures ReplayGroups(s, b, groups, n) == Ok(Recovered(s, b, n))
    decreases |groups|
  {
    if groups != [] {
      assert groups[0] in groups;
      assert forall g :: g in groups[1..] ==> g in groups;
      NothingToReplay(s, b, groups[1..], n);
    }
  }

  lemma {:induction false} OneToReplay(s: Sectors, b: Superblock, groups: seq<Group>, g: Group, n: nat)
    requires Behind(groups, b) && g.applyIndex == b.appliedIndex + 1 && Replay(s, g.pages).Ok?
    ensures var next := Publish(b, g.applyIndex, g.stateHash, b.checkpointLsn, g.nextPageId, g.root);
            ReplayGroups(s, b, groups + [g], n)
              == Ok(Recovered(Replay(s, g.pages).value[next.slot := Super(next)], next, n + 1))
    decreases |groups|
  {
    var all := groups + [g];
    if groups != [] {
      assert groups[0] in groups && all[1..] == groups[1..] + [g];
      assert forall h :: h in groups[1..] ==> h in groups;
      OneToReplay(s, b, groups[1..], g, n);
    } else {
      assert all == [g] && all[1..] == [];
    }
  }

  // ----------------------------------------------------------------- after a crash

  /** What a crash can leave of an operation that writes `images` and then publishes `next`. */
  ghost predicate Left(s: Sectors, b: Superblock, images: seq<DataPage>, next: Superblock, after: Sectors) {
    && (forall i {:trigger Content(after, i)} :: i >= 2 ==>
          || Content(after, i) == Content(s, i)
          || (exists p :: p in images && p.id == i && Content(after, i) in {Some(Torn), Some(Data(p))}))
    && Content(after, b.slot) == Content(s, b.slot)
    && Content(after, next.slot) in {Content(s, next.slot), Some(Torn), Some(Super(next))}
    && (Content(after, next.slot) == Some(Super(next)) ==> InPlace(after, images))
  }

  ghost predicate InPlace(s: Sectors, images: seq<DataPage>) {
    forall p {:trigger p in images} :: p in images ==> Content(s, p.id) == Some(Data(p))
  }

  predicate Published(after: Sectors, next: Superblock) {
    Content(after, next.slot) == Some(Super(next))
  }

  ghost predicate Follows(b: Superblock, next: Superblock) {
    next.slot == Other(b.slot) && next.generation == b.generation + 1 && next.nextPageId >= 2
  }

  lemma WhichSuperblock(s: Sectors, wal: Wal, b: Superblock, images: seq<DataPage>, next: Superblock, after: Sectors)
    requires Established(s, wal, b) && Follows(b, next) && Left(s, b, images, next, after)
    ensures Starting(after) == Ok(if Published(after, next) then next else b)
  {
    assert InSlot(after, b.slot) == Some(b);
  }

  /** The data of a published or replayed operation. */
  lemma PlacedData(s: Sectors, images: seq<DataPage>, after: Sectors, b: Superblock, next: Superblock)
    requires DistinctPages(images) && Left(s, b, images, next, after) && InPlace(after, images)
    ensures forall i {:trigger Content(after, i)} :: i >= 2 ==> Content(after, i) == Content(Overwrite(s, images), i)
  {
    forall i {:trigger Content(after, i)} | i >= 2 ensures Content(after, i) == Content(Overwrite(s, images), i) {
      OverwriteContent(s, images, i);
      if p :| p in images && p.id == i {
        assert Content(after, p.id) == Some(Data(p));
      }
    }
  }

  lemma MarkerStays(b: Superblock, wal: Wal, longer: Wal)
    requires CheckMarker(b, wal).None? && longer.checkpoints == wal.checkpoints && wal.end <= longer.end
    ensures CheckMarker(b, longer).None?
  {
  }

  lemma BehindNext(groups: seq<Group>, b: Superblock, g: Group, next: Superblock)
    requires Behind(groups, b) && next.appliedIndex == g.applyIndex == b.appliedIndex + 1
             && next.stateHash == g.stateHash
    ensures Behind(groups + [g], next)
  {
  }

  /** Once the group is in the log, every crash reopens to the new state. */
  lemma ReopensNew(s: Sectors, wal: Wal, b: Superblock, g: Group, after: Sectors)
    requires Established(s, wal, b) && GroupFits(wal, b, g)
    requires Left(s, b, g.pages, Publish(b, g.applyIndex, g.stateHash, 0, g.nextPageId, g.root), after)
    ensures var next := Publish(b, g.applyIndex, g.stateHash, 0, g.nextPageId, g.root);
            var r := Recover(after, wal.(groups := wal.groups + [g], end := g.endLsn));
            r.Ok? && View(r.value.sectors, r.value.superblock) == View(Overwrite(s, g.pages), next)
  {
    hide Behind, Left, View, Overwrite, Starting, CheckMarker, Established;
    var next := Publish(b, g.applyIndex, g.stateHash, 0, g.nextPageId, g.root);
    var longer := wal.(groups := wal.groups + [g], end := g.endLsn);
    EstablishedFacts(s, wal, b);
    WhichSuperblock(s, wal, b, g.pages, next, after);
    if Published(after, next) {
      NoMarker(next, longer);
      BehindNext(wal.groups, b, g, next);
      NothingToReplay(after, next, longer.groups, 0);
      LeftInPlace(s, b, g.pages, next, after);
      PlacedData(s, g.pages, after, b, next);
      SameView(after, Overwrite(s, g.pages), next, next);
    } else {
      MarkerStays(b, wal, longer);
      Replayable(s, wal, b, g, after);
      ReplayOverwrites(after, g.pages);
      OneToReplay(after, b, wal.groups, g, 0);
      var again := Publish(b, g.applyIndex, g.stateHash, b.checkpointLsn, g.nextPageId, g.root);
      ReplayedData(s, b, g.pages, next, after);
      var final := Overwrite(after, g.pages)[again.slot := Super(again)];
      assert forall i {:trigger Content(final, i)} ::
               i >= 2 ==> Content(final, i) == Content(Overwrite(after, g.pages), i);
      SameView(final, Overwrite(s, g.pages), again, next);
    }
  }

  lemma NoMarker(b: Superblock, wal: Wal)
    requires b.checkpointLsn == 0
    ensures CheckMarker(b, wal).None?
  {
  }

  lemma EstablishedFacts(s: Sectors, wal: Wal, b: Superblock)
    requires Established(s, wal, b)
    ensures b.slot <= 1 && CheckMarker(b, wal).None? && Behind(wal.groups, b) && Placed(s, wal.end) && MarksEnd(wal)
  {
  }

  lemma LeftInPlace(s: Sectors, b: Superblock, images: seq<DataPage>, next: Superblock, after: Sectors)
    requires Left(s, b, images, next, after) && Published(after, next)
    ensures InPlace(after, images)
  {
  }

  /** A leftover page is old, torn, or already the image. */
  lemma Replayable(s: Sectors, wal: Wal, b: Superblock, g: Group, after: Sectors)
    requires Placed(s, wal.end) && GroupFits(wal, b, g)
    requires Left(s, b, g.pages, Publish(b, g.applyIndex, g.stateHash, 0, g.nextPageId, g.root), after)
    ensures forall p {:trigger p in g.pages} ::
              p in g.pages ==> !MisplacedAt(after, p.id) && (Current(after, p) ==> after[p.id] == Data(p))
  {
    forall p | p in g.pages ensures !MisplacedAt(after, p.id) && (Current(after, p) ==> after[p.id] == Data(p)) {
      assert Content(after, p.id) == Content(after, p.id);
      if Content(after, p.id) != Content(s, p.id) {
        var q :| q in g.pages && q.id == p.id && Content(after, p.id) in {Some(Torn), Some(Data(q))};
        SamePage(g.pages, p, q);
      }
    }
  }

  lemma SamePage(images: seq<DataPage>, p: DataPage, q: DataPage)
    requires DistinctPages(images) && p in images && q in images && p.id == q.id
    ensures p == q
  {
    var i :| 0 <= i < |images| && images[i] == p;
    var j :| 0 <= j < |images| && images[j] == q;
    assert i == j;
  }

  lemma ReplayedData(s: Sectors, b: Superblock, images: seq<DataPage>, next: Superblock, after: Sectors)
    requires DistinctPages(images) && Left(s, b, images, next, after)
    ensures forall i {:trigger Content(Overwrite(after, images), i)} ::
              i >= 2 ==> Content(Overwrite(after, images), i) == Content(Overwrite(s, images), i)
  {
    forall i {:trigger Content(Overwrite(after, images), i)} | i >= 2
      ensures Content(Overwrite(after, images), i) == Content(Overwrite(s, images), i)
    {
      OverwriteContent(s, images, i);
      OverwriteContent(after, images, i);
      assert Content(after, i) == Content(after, i);
    }
  }

  /** A snapshot install reopens to the old state, or, once published, to the new one. */
  lemma ReopensOldOrNew(s: Sectors, wal: Wal, b: Superblock, images: seq<DataPage>, next: Superblock, after: Sectors)
    requires Established(s, wal, b) && Follows(b, next) && DistinctPages(images)
             && b.appliedIndex < next.appliedIndex && next.checkpointLsn == 0
    requires forall p {:trigger p in images} :: p in images ==> b.nextPageId <= p.id
    requires Left(s, b, images, next, after)
    ensures var r := Recover(after, wal);
            && r.Ok? && r.value.replayed == 0
            && View(r.value.sectors, r.value.superblock) == if Published(after, next)
               then View(Overwrite(s, images), next) else View(s, b)
  {
    hide Left, View, Overwrite, Starting, CheckMarker, Established;
    EstablishedFacts(s, wal, b);
    WhichSuperblock(s, wal, b, images, next, after);
    if Published(after, next) {
      NoMarker(next, wal);
      NothingToReplay(after, next, wal.groups, 0);
      LeftInPlace(s, b, images, next, after);
      PlacedData(s, images, after, b, next);
      SameView(after, Overwrite(s, images), next, next);
    } else {
      NothingToReplay(after, b, wal.groups, 0);
      OldData(s, b, images, next, after);
      SameView(after, s, b, b);
    }
  }

  lemma OldData(s: Sectors, b: Superblock, images: seq<DataPage>, next: Superblock, after: Sectors)
    requires Left(s, b, images, next, after) && forall p {:trigger p in images} :: p in images ==> b.nextPageId <= p.id
    ensures forall i {:trigger Content(after, i)} :: 2 <= i < b.nextPageId ==> Content(after, i) == Content(s, i)
  {
  }

  // --------------------------------------------------------------- where crashes land

  function PendingOf(ios: seq<Io>): seq<(PageId, Sector)> {
    if ios == [] then [] else (if ios[0].WritePage? then [(ios[0].id, ios[0].sector)] else []) + PendingOf(ios[1..])
  }

  lemma {:induction false} DoConcat(m: Machine, a: seq<Io>, b: seq<Io>)
    ensures DoAll(m, a + b) == DoAll(DoAll(m, a), b)
    decreases |a|
  {
    if a == [] {
      assert a + b == b;
    } else {
      assert (a + b)[1..] == a[1..] + b;
      DoConcat(Do(m, a[0]), a[1..], b);
    }
  }

  lemma SettleOne(s: Sectors, w: (PageId, Sector))
    ensures Settle(s, [w]) == s[w.0 := w.1]
  {
    assert [w][1..] == [];
  }

  lemma DoOne(m: Machine, io: Io)
    ensures DoAll(m, [io]) == Do(m, io)
  {
    assert [io][1..] == [];
  }

  lemma AppendAll(a: seq<(PageId, Sector)>, w: (PageId, Sector), b: seq<(PageId, Sector)>)
    ensures (a + [w]) + b == a + ([w] + b)
  {
  }

  lemma {:induction false} DoWrites(m: Machine, ws: seq<Io>)
    requires forall w {:trigger w in ws} :: w in ws ==> w.WritePage?
    ensures DoAll(m, ws) == m.(pending := m.pending + PendingOf(ws))
    decreases |ws|
  {
    if ws == [] {
      assert m.pending + [] == m.pending;
    } else {
      assert ws[0] in ws;
      assert forall w :: w in ws[1..] ==> w in ws;
      var w := (ws[0].id, ws[0].sector);
      DoWrites(Do(m, ws[0]), ws[1..]);
      AppendAll(m.pending, w, PendingOf(ws[1..]));
    }
  }

  lemma {:induction false} PendingExactly(ios: seq<Io>, w: (PageId, Sector))
    ensures w in PendingOf(ios) <==> WritePage(w.0, w.1) in ios
    decreases |ios|
  {
    if ios != [] {
      PendingExactly(ios[1..], w);
      assert forall io :: io in ios <==> io == ios[0] || io in ios[1..];
    }
  }

  lemma {:induction false} SettleContent(s: Sectors, ws: seq<(PageId, Sector)>, id: PageId)
    ensures || (Content(Settle(s, ws), id) == Content(s, id) && forall w :: w in ws ==> w.0 != id)
            || (exists w :: w in ws && w.0 == id && Content(Settle(s, ws), id) == Some(w.1))
    decreases |ws|
  {
    if ws != [] {
      var t := s[ws[0].0 := ws[0].1];
      SettleContent(t, ws[1..], id);
      if w :| w in ws[1..] && w.0 == id && Content(Settle(t, ws[1..]), id) == Some(w.1) {
        assert w in ws;
      } else {
        assert Content(Settle(s, ws), id) == Content(t, id);
        assert ws[0] in ws;
      }
    }
  }

  /** Writes of the given images, each of them at least once. */
  ghost predicate WritesImages(ws: seq<Io>, images: seq<DataPage>) {
    && (forall w {:trigger w in ws} ::
          w in ws ==> w.WritePage? && exists p :: p in images && w == WritePage(p.id, Data(p)))
    && (forall p {:trigger p in images} :: p in images ==> WritePage(p.id, Data(p)) in ws)
  }

  lemma SettledImages(s: Sectors, ws: seq<Io>, images: seq<DataPage>)
    requires WritesImages(ws, images) && DistinctPages(images) && forall p {:trigger p in images} ::
               p in images ==> p.id >= 2
    ensures var t := Settle(s, PendingOf(ws));
            && InPlace(t, images) && Content(t, 0) == Content(s, 0) && Content(t, 1) == Content(s, 1)
            && (forall i {:trigger Content(t, i)} ::
                  Content(t, i) == Content(s, i) || exists p ::
                      p in images && p.id == i && Content(t, i) == Some(Data(p)))
  {
    var t := Settle(s, PendingOf(ws));
    forall i {:trigger Content(t, i)}
      ensures Content(t, i) == Content(s, i) || exists p :: p in images && p.id == i && Content(t, i) == Some(Data(p))
    {
      SettledAt(s, ws, images, i);
    }
    forall p | p in images ensures Content(t, p.id) == Some(Data(p)) {
      SettledAt(s, ws, images, p.id);
      PendingExactly(ws, (p.id, Data(p)));
      assert (p.id, Data(p)) in PendingOf(ws);
      SettleContent(s, PendingOf(ws), p.id);
      var w :| w in PendingOf(ws) && w.0 == p.id && Content(t, p.id) == Some(w.1);
      PendingExactly(ws, w);
      var q :| q in images && WritePage(w.0, w.1) == WritePage(q.id, Data(q));
      SamePage(images, p, q);
    }
  }

  lemma SettledAt(s: Sectors, ws: seq<Io>, images: seq<DataPage>, i: PageId)
    requires WritesImages(ws, images)
    ensures var t := Settle(s, PendingOf(ws));
            Content(t, i) == Content(s, i) || exists p :: p in images && p.id == i && Content(t, i) == Some(Data(p))
  {
    SettleContent(s, PendingOf(ws), i);
    var t := Settle(s, PendingOf(ws));
    if Content(t, i) != Content(s, i) {
      var w :| w in PendingOf(ws) && w.0 == i && Content(t, i) == Some(w.1);
      PendingExactly(ws, w);
      var p :| p in images && WritePage(w.0, w.1) == WritePage(p.id, Data(p));
    }
  }

  /** A crash while the images are being written. */
  lemma CrashWriting(m: Machine, b: Superblock, ws: seq<Io>, images: seq<DataPage>, next: Superblock, k: nat,
                     after: Sectors)
    requires m.pending == [] && b.slot <= 1 && Follows(b, next) && Content(m.durable, next.slot) != Some(Super(next))
    requires WritesImages(ws, images) && DistinctPages(images) && forall p {:trigger p in images} ::
               p in images ==> p.id >= 2
    requires k <= |ws| && Crashed(DoAll(m, ws[..k]), after)
    ensures Left(m.durable, b, images, next, after) && DoAll(m, ws[..k]).wal == m.wal
  {
    hide DoAll, Crashed, PendingOf, Content, InPlace;
    var part := ws[..k];
    forall w | w in part ensures w in ws {}
    DoWrites(m, part);
    forall i {:trigger Content(after, i)}
      ensures Content(after, i) == Content(m.durable, i) || WrittenAt(after, images, i)
    {
      CrashWritingAt(m, ws, images, k, after, i);
    }
    assert Content(after, 0) == Content(m.durable, 0) && Content(after, 1) == Content(m.durable, 1);
  }

  /** An image of the page has been written there, whole or torn. */
  ghost predicate WrittenAt(after: Sectors, images: seq<DataPage>, i: PageId) {
    exists p :: p in images && p.id == i && Content(after, i) in {Some(Torn), Some(Data(p))}
  }

  lemma CrashWritingAt(m: Machine, ws: seq<Io>, images: seq<DataPage>, k: nat, after: Sectors, i: PageId)
    requires m.pending == [] && WritesImages(ws, images) && k <= |ws| && Crashed(DoAll(m, ws[..k]), after)
    ensures Content(after, i) == Content(m.durable, i) || WrittenAt(after, images, i)
  {
    hide DoAll, PendingOf, Content;
    var part := ws[..k];
    forall w | w in part ensures w in ws {}
    DoWrites(m, part);
    var c := DoAll(m, part);
    assert c.pending == PendingOf(part) by { assert [] + PendingOf(part) == PendingOf(part); }
    assert Survives(c, after, i);
    if Content(after, i) != Content(m.durable, i) {
      var w :| w in c.pending && w.0 == i && Content(after, i) in {Some(Torn), Some(w.1)};
      PendingExactly(part, w);
      assert WritePage(w.0, w.1) in ws;
      var p :| p in images && WritePage(w.0, w.1) == WritePage(p.id, Data(p));
    }
  }

  /** A crash after the images are synced, before, during or after publication. */
  lemma CrashPublishing(m: Machine, t: Sectors, b: Superblock, images: seq<DataPage>, next: Superblock, k: nat,
                        after: Sectors)
    requires m.pending == [] && b.slot <= 1 && Follows(b, next) && k <= 2
    requires InPlace(m.durable, images) && (forall p {:trigger p in images} :: p in images ==> p.id >= 2)
    requires Content(m.durable, 0) == Content(t, 0) && Content(m.durable, 1) == Content(t, 1)
    requires forall i {:trigger Content(m.durable, i)} ::
               Content(m.durable, i) == Content(t, i) || exists p ::
                   p in images && p.id == i && Content(m.durable, i) == Some(Data(p))
    requires Crashed(DoAll(m, PublishIo(next)[..k]), after)
    ensures Left(t, b, images, next, after) && DoAll(m, PublishIo(next)[..k]).wal == m.wal
  {
    var ios := PublishIo(next);
    var c := DoAll(m, ios[..k]);
    var one := Do(m, ios[0]);
    assert one.pending == [(next.slot, Super(next))];
    if k == 0 {
      assert ios[..0] == [] && c == m;
    } else if k == 1 {
      assert ios[..1] == [ios[0]];
      DoOne(m, ios[0]);
    } else {
      assert ios[..2] == [ios[0]] + [Sync];
      DoConcat(m, [ios[0]], [Sync]);
      DoOne(m, ios[0]);
      DoOne(one, Sync);
      SettleOne(m.durable, (next.slot, Super(next)));
      assert c.durable == m.durable[next.slot := Super(next)] && c.pending == [];
    }
    forall i {:trigger Content(after, i)}
      ensures Content(after, i) == Content(m.durable, i)
              || (i == next.slot && Content(after, i) in {Some(Torn), Some(Super(next))})
    {
      assert Survives(c, after, i);
    }
    forall i {:trigger Content(after, i)} | i >= 2
      ensures Content(after, i) == Content(t, i) || exists p ::
                p in images && p.id == i && Content(after, i) in {Some(Torn), Some(Data(p))}
    {
      assert Content(m.durable, i) == Content(m.durable, i);
    }
    assert InPlace(after, images) by {
      forall p | p in images ensures Content(after, p.id) == Some(Data(p)) {
        assert Content(after, p.id) == Content(m.durable, p.id);
      }
    }
  }

  /** Writing images, syncing, publishing: a crash anywhere leaves what `Left` says. */
  lemma CrashAnywhere(m: Machine, b: Superblock, ws: seq<Io>, images: seq<DataPage>, next: Superblock, k: nat,
                      after: Sectors)
    requires m.pending == [] && b.slot <= 1 && Follows(b, next) && Content(m.durable, next.slot) != Some(Super(next))
    requires WritesImages(ws, images) && DistinctPages(images) && forall p {:trigger p in images} ::
               p in images ==> p.id >= 2
    requires k <= |ws| + 3 && Crashed(DoAll(m, (ws + [Sync] + PublishIo(next))[..k]), after)
    ensures Left(m.durable, b, images, next, after) && DoAll(m, (ws + [Sync] + PublishIo(next))[..k]).wal == m.wal
    ensures k <= |ws| + 1 ==> !Published(after, next)
    ensures k == |ws| + 3 ==> Published(after, next)
  {
    hide Left, Crashed, InPlace, WritesImages, DistinctPages;
    var ios := ws + [Sync] + PublishIo(next);
    if k <= |ws| {
      assert ios[..k] == ws[..k];
      CrashWriting(m, b, ws, images, next, k, after);
      UnpublishedWriting(m, ws, images, next, k, after);
    } else {
      var j := k - |ws| - 1;
      assert ios[..k] == ws + [Sync] + PublishIo(next)[..j];
      var d := Synced(m, ws, images);
      DoConcat(m, ws + [Sync], PublishIo(next)[..j]);
      SettledImages(m.durable, ws, images);
      CrashPublishing(d, m.durable, b, images, next, j, after);
      PublicationLands(d, next, j, after);
    }
  }

  lemma Synced(m: Machine, ws: seq<Io>, images: seq<DataPage>) returns (d: Machine)
    requires m.pending == [] && WritesImages(ws, images)
    ensures d == DoAll(m, ws + [Sync]) && d.pending == [] && d.wal == m.wal
            && d.durable == Settle(m.durable, PendingOf(ws))
  {
    DoConcat(m, ws, [Sync]);
    DoWrites(m, ws);
    assert [] + PendingOf(ws) == PendingOf(ws);
    d := DoAll(m, ws + [Sync]);
    DoOne(DoAll(m, ws), Sync);
  }

  lemma UnpublishedWriting(m: Machine, ws: seq<Io>, images: seq<DataPage>, next: Superblock, k: nat, after: Sectors)
    requires m.pending == [] && next.slot <= 1 && Content(m.durable, next.slot) != Some(Super(next)) && k <= |ws|
    requires WritesImages(ws, images) && (forall p {:trigger p in images} :: p in images ==> p.id >= 2)
    requires Crashed(DoAll(m, ws[..k]), after)
    ensures !Published(after, next)
  {
    var part := ws[..k];
    forall w | w in part ensures w in ws {}
    DoWrites(m, part);
    var c := DoAll(m, part);
    assert c.pending == PendingOf(part) by { assert [] + PendingOf(part) == PendingOf(part); }
    assert Survives(c, after, next.slot);
    forall w | w in c.pending ensures w.0 >= 2 {
      PendingExactly(part, w);
      assert WritePage(w.0, w.1) in ws;
      var p :| p in images && WritePage(w.0, w.1) == WritePage(p.id, Data(p));
    }
  }

  lemma PublicationLands(m: Machine, next: Superblock, k: nat, after: Sectors)
    requires m.pending == [] && k <= 2 && Crashed(DoAll(m, PublishIo(next)[..k]), after)
    ensures k == 0 && Content(m.durable, next.slot) != Some(Super(next)) ==> !Published(after, next)
    ensures k == 2 ==> Published(after, next)
  {
    var ios := PublishIo(next);
    var c := DoAll(m, ios[..k]);
    assert Survives(c, after, next.slot);
    if k == 0 {
      assert ios[..0] == [];
    } else if k == 2 {
      assert ios[..2] == [ios[0]] + [Sync];
      DoConcat(m, [ios[0]], [Sync]);
      DoOne(m, ios[0]);
      DoOne(Do(m, ios[0]), Sync);
      assert Do(m, ios[0]).pending == [(next.slot, Super(next))];
      SettleOne(m.durable, (next.slot, Super(next)));
    }
  }

  // ------------------------------------------------------------------- theorems

  /** Nothing on disk is as new as the group's images, so all of them are written. */
  lemma {:induction false} AllWritten(s: Sectors, end: nat, images: seq<DataPage>)
    requires DistinctPages(images) && (forall p {:trigger p in images} :: p in images ==> p.id >= 2 && end < p.lsn)
    requires forall p {:trigger p in images} :: p in images && p.id in s && s[p.id].Data? ==> s[p.id].page.lsn <= end
    ensures ReplayIo(s, images) == FreshIo(images)
    decreases |images|
  {
    if images != [] {
      assert images[0] in images;
      RestDistinct(images);
      var t := s[images[0].id := Data(images[0])];
      AllWritten(t, end, images[1..]);
      assert FreshIo(images) == [WritePage(images[0].id, Data(images[0]))] + FreshIo(images[1..]);
    }
  }

  lemma FreshWrites(images: seq<DataPage>)
    ensures WritesImages(FreshIo(images), images)
  {
    var ws := FreshIo(images);
    forall w | w in ws ensures w.WritePage? && exists p :: p in images && w == WritePage(p.id, Data(p)) {
      var i :| 0 <= i < |ws| && ws[i] == w;
      assert images[i] in images;
    }
    forall p | p in images ensures WritePage(p.id, Data(p)) in ws {
      var i :| 0 <= i < |images| && images[i] == p;
      assert ws[i] == WritePage(p.id, Data(p));
    }
  }

  lemma NotYetPublished(s: Sectors, wal: Wal, b: Superblock, next: Superblock)
    requires Established(s, wal, b) && Follows(b, next)
    ensures Content(s, next.slot) != Some(Super(next))
  {
  }

  /** Crash atomicity of `apply`: reopening after a crash at any point succeeds; before the
      group is in the log it finds the old state, from then on always the new one. */
  lemma ApplyIsAtomic(s: Sectors, wal: Wal, b: Superblock, g: Group, k: nat, after: Sectors)
    requires Established(s, wal, b) && GroupFits(wal, b, g) && k <= |ApplyIo(s, b, g)|
    requires Crashed(DoAll(Machine(s, [], wal), ApplyIo(s, b, g)[..k]), after)
    ensures var r := Recover(after, DoAll(Machine(s, [], wal), ApplyIo(s, b, g)[..k]).wal);
            && r.Ok?
            && View(r.value.sectors, r.value.superblock)
               == if k == 0 then View(s, b)
                  else View(Overwrite(s, g.pages), Publish(b, g.applyIndex, g.stateHash, 0, g.nextPageId, g.root))
  {
    hide Left, View, Established, Placed, Recover, Overwrite;
    var m := Machine(s, [], wal);
    var next := Publish(b, g.applyIndex, g.stateHash, 0, g.nextPageId, g.root);
    var ws := FreshIo(g.pages);
    EstablishedFacts(s, wal, b);
    FollowsPublish(b, g.applyIndex, g.stateHash, g.nextPageId, g.root);
    NotYetPublished(s, wal, b, next);
    ImagesAreNewer(s, wal, b, g);
    AllWritten(s, wal.end, g.pages);
    FreshWrites(g.pages);
    var ios := ApplyIo(s, b, g);
    assert ios == [AppendGroup(g)] + (ws + [Sync] + PublishIo(next));
    if k == 0 {
      assert ios[..0] == [];
      Untouched(m, after);
      OldReopens(s, wal, b);
    } else {
      var logged := Do(m, AppendGroup(g));
      assert ios[..k] == [AppendGroup(g)] + (ws + [Sync] + PublishIo(next))[..k - 1];
      DoConcat(m, [AppendGroup(g)], (ws + [Sync] + PublishIo(next))[..k - 1]);
      DoOne(m, AppendGroup(g));
      CrashAnywhere(logged, b, ws, g.pages, next, k - 1, after);
      ReopensNew(s, wal, b, g, after);
    }
  }

  lemma FollowsPublish(b: Superblock, index: nat, hash: Hash, nextPage: PageId, root: Option<PageId>)
    requires b.slot <= 1 && nextPage >= 2
    ensures Follows(b, Publish(b, index, hash, 0, nextPage, root))
  {
  }

  lemma ImagesAreNewer(s: Sectors, wal: Wal, b: Superblock, g: Group)
    requires Placed(s, wal.end) && GroupFits(wal, b, g)
    ensures forall p {:trigger p in g.pages} ::
              p in g.pages && p.id in s && s[p.id].Data? ==> s[p.id].page.lsn <= wal.end
    ensures forall p {:trigger p in g.pages} :: p in g.pages ==> p.id >= 2 && wal.end < p.lsn
    ensures DistinctPages(g.pages)
  {
  }

  /** With nothing pending a crash changes nothing. */
  lemma Untouched(m: Machine, after: Sectors)
    requires m.pending == [] && Crashed(DoAll(m, []), after)
    ensures after == m.durable
  {
    forall i ensures Content(after, i) == Content(m.durable, i) {
      assert Survives(m, after, i);
    }
    SameSectors(after, m.durable);
  }

  lemma OldReopens(s: Sectors, wal: Wal, b: Superblock)
    requires Established(s, wal, b)
    ensures Recover(s, wal) == Ok(Recovered(s, b, 0))
  {
    NothingToReplay(s, b, wal.groups, 0);
  }

  /** What `install_snapshot` checks of its arguments. */
  ghost predicate SnapshotFits(b: Superblock, index: nat, pages: seq<DataPage>, next: PageId, root: PageId) {
    && b.appliedIndex < index && 2 <= b.nextPageId < next && pages != [] && DistinctPages(pages)
    && (forall p {:trigger p in pages} :: p in pages ==> b.nextPageId <= p.id < next && p.lsn == 0)
    && (exists p :: p in pages && p.id == root)
  }

  /** Crash atomicity of `install_snapshot`: reopening after a crash at any point finds
      exactly the old or the new state: the old one until the pages are synced, the new
      one once publication is. */
  lemma InstallIsAtomic(s: Sectors, wal: Wal, b: Superblock, index: nat, hash: Hash, pages: seq<DataPage>,
                        nextPage: PageId, root: PageId, k: nat, after: Sectors)
    requires Established(s, wal, b) && SnapshotFits(b, index, pages, nextPage, root)
    requires k <= |InstallIo(b, index, hash, pages, nextPage, root)|
    requires Crashed(DoAll(Machine(s, [], wal), InstallIo(b, index, hash, pages, nextPage, root)[..k]), after)
    ensures var r := Recover(after, wal);
            var old_, new_ := View(s, b), View(Overwrite(s, pages), Publish(b, index, hash, 0, nextPage, Some(root)));
            && r.Ok? && r.value.replayed == 0
            && (k <= |pages| + 1 ==> View(r.value.sectors, r.value.superblock) == old_)
            && (k == |pages| + 3 ==> View(r.value.sectors, r.value.superblock) == new_)
            && View(r.value.sectors, r.value.superblock) in {old_, new_}
  {
    hide Left, View, Established, Recover, Overwrite;
    var m := Machine(s, [], wal);
    var next := Publish(b, index, hash, 0, nextPage, Some(root));
    EstablishedFacts(s, wal, b);
    FollowsPublish(b, index, hash, nextPage, Some(root));
    NotYetPublished(s, wal, b, next);
    FreshWrites(pages);
    CrashAnywhere(m, b, FreshIo(pages), pages, next, k, after);
    ReopensOldOrNew(s, wal, b, pages, next, after);
  }

  lemma {:induction false} FindsLast(cs: seq<Checkpoint>, c: Checkpoint)
    requires forall d :: d in cs ==> d.endLsn != c.endLsn
    ensures FindCheckpoint(cs + [c], c.endLsn) == Some(c)
  {
    if cs == [] {
      assert cs + [c] == [c];
    } else {
      assert (cs + [c])[1..] == cs[1..] + [c] && cs[0] in cs;
      assert forall d :: d in cs[1..] ==> d in cs;
      FindsLast(cs[1..], c);
    }
  }

  lemma {:induction false} FindsEarlier(cs: seq<Checkpoint>, c: Checkpoint, lsn: nat)
    requires FindCheckpoint(cs, lsn).Some?
    ensures FindCheckpoint(cs + [c], lsn) == FindCheckpoint(cs, lsn)
  {
    if cs != [] && cs[0].endLsn != lsn {
      assert (cs + [c])[1..] == cs[1..] + [c];
      FindsEarlier(cs[1..], c, lsn);
    }
  }

  /** Both the old superblock and the one naming the new marker pass the marker check. */
  lemma Marking(b: Superblock, wal: Wal, c: Checkpoint)
    requires CheckMarker(b, wal).None? && MarksEnd(wal) && wal.end < c.endLsn && c.appliedIndex == b.appliedIndex
             && c.stateHash == b.stateHash
    ensures var marked := wal.(checkpoints := wal.checkpoints + [c], end := c.endLsn);
            && CheckMarker(b, marked).None?
            && CheckMarker(Publish(b, b.appliedIndex, b.stateHash, c.endLsn, b.nextPageId, b.root), marked).None?
            && MarksEnd(marked)
  {
    FindsLast(wal.checkpoints, c);
    if b.checkpointLsn != 0 {
      FindsEarlier(wal.checkpoints, c, b.checkpointLsn);
    }
  }

  lemma SyncsNothing(m: Machine, c: Checkpoint)
    requires m.pending == []
    ensures DoAll(m, []) == m && DoAll(m, [Sync]) == m
            && DoAll(m, [Sync, AppendCheckpoint(c)]) == Do(m, AppendCheckpoint(c))
  {
    DoOne(m, Sync);
    DoConcat(m, [Sync], [AppendCheckpoint(c)]);
    DoOne(m, AppendCheckpoint(c));
    assert [Sync, AppendCheckpoint(c)] == [Sync] + [AppendCheckpoint(c)];
  }

  lemma ReopensMarked(s: Sectors, wal: Wal, marked: Wal, b: Superblock, next: Superblock, after: Sectors)
    requires Established(s, wal, b) && Follows(b, next) && Left(s, b, [], next, after) && marked.groups == wal.groups
    requires next.appliedIndex == b.appliedIndex && next.stateHash == b.stateHash && next.nextPageId == b.nextPageId
             && next.root == b.root
    requires CheckMarker(b, marked).None? && CheckMarker(next, marked).None?
    ensures var r := Recover(after, marked);
            && r.Ok? && r.value.replayed == 0 && View(r.value.sectors, r.value.superblock) == View(s, b)
            && r.value.superblock == if Published(after, next) then next else b
  {
    hide View, CheckMarker, Starting, Established, Left;
    EstablishedFacts(s, wal, b);
    WhichSuperblock(s, wal, b, [], next, after);
    var found := if Published(after, next) then next else b;
    NothingToReplay(after, found, wal.groups, 0);
    OldData(s, b, [], next, after);
    SameView(after, s, b, b);
    SameView(after, after, found, b);
  }

  function CheckpointIo(b: Superblock, c: Checkpoint): seq<Io> {
    [Sync, AppendCheckpoint(c)] + PublishIo(Publish(b, b.appliedIndex, b.stateHash, c.endLsn, b.nextPageId, b.root))
  }

  /** Crash transparency of `checkpoint`: reopening after a crash at any point finds the
      same database and replays nothing. */
  lemma CheckpointIsTransparent(s: Sectors, wal: Wal, b: Superblock, c: Checkpoint, k: nat, after: Sectors)
    requires Established(s, wal, b) && b.nextPageId >= 2
    requires wal.end < c.endLsn && c.appliedIndex == b.appliedIndex && c.stateHash == b.stateHash
    requires k <= 4 && Crashed(DoAll(Machine(s, [], wal), CheckpointIo(b, c)[..k]), after)
    ensures var r := Recover(after, DoAll(Machine(s, [], wal), CheckpointIo(b, c)[..k]).wal);
            && r.Ok? && r.value.replayed == 0 && View(r.value.sectors, r.value.superblock) == View(s, b)
            && (k == 4 ==> r.value.superblock.checkpointLsn == c.endLsn)
  {
    hide View, Recover, Left, Crashed, CheckMarker, Behind, Placed, DoAll;
    var m := Machine(s, [], wal);
    var next := Publish(b, b.appliedIndex, b.stateHash, c.endLsn, b.nextPageId, b.root);
    var marked := wal.(checkpoints := wal.checkpoints + [c], end := c.endLsn);
    var ios := CheckpointIo(b, c);
    EstablishedFacts(s, wal, b);
    Marking(b, wal, c);
    var d := Machine(s, [], marked);
    if k <= 1 {
      assert ios[..k] == if k == 0 then [] else [Sync];
      SyncsNothing(m, c);
      Untouched(m, after);
      OldReopens(s, wal, b);
    } else {
      assert ios[..k] == [Sync, AppendCheckpoint(c)] + PublishIo(next)[..k - 2];
      DoConcat(m, [Sync, AppendCheckpoint(c)], PublishIo(next)[..k - 2]);
      SyncsNothing(m, c);
      CrashPublishing(d, s, b, [], next, k - 2, after);
      PublicationLands(d, next, k - 2, after);
      ReopensMarked(s, wal, marked, b, next, after);
    }
  }

  // -------------------------------------------------------------------- reopening

  /** Log indexes increase strictly. */
  ghost predicate Ascending(groups: seq<Group>) {
    forall i, j {:trigger groups[i], groups[j]} :: 0 <= i < j < |groups| ==> groups[i].applyIndex < groups[j].applyIndex
  }

  ghost predicate GroupSound(g: Group, end: nat) {
    g.nextPageId >= 2 && DistinctPages(g.pages) && forall p {:trigger p in g.pages} ::
        p in g.pages ==> p.id >= 2 && p.lsn <= end
  }

  ghost predicate AllSound(groups: seq<Group>, end: nat) {
    Ascending(groups) && forall g {:trigger g in groups} :: g in groups ==> GroupSound(g, end)
  }

  /** What scanning a log written by a pager finds. */
  ghost predicate LogSound(wal: Wal) {
    AllSound(wal.groups, wal.end) && MarksEnd(wal)
  }

  ghost predicate NewestIs(s: Sectors, b: Superblock) {
    && b.slot <= 1 && b.nextPageId >= 2
    && (InSlot(s, b.slot) == Some(b) || (b == GENESIS && 0 !in s && 1 !in s))
    && (InSlot(s, Other(b.slot)).Some? ==> InSlot(s, Other(b.slot)).value.generation < b.generation)
  }

  /** Where replay ends: at a superblock level with or past everything seen, whose marker
      is the one it started with. */
  lemma {:induction false} ReplayEnds(s: Sectors, b: Superblock, groups: seq<Group>, n: nat)
    requires ReplayGroups(s, b, groups, n).Ok? && NewestIs(s, b) && Ascending(groups)
    requires forall g {:trigger g in groups} ::
               g in groups ==> g.nextPageId >= 2 && forall p :: p in g.pages ==> p.id >= 2
    ensures var r := ReplayGroups(s, b, groups, n).value;
            && NewestIs(r.sectors, r.superblock) && r.superblock.checkpointLsn == b.checkpointLsn && n <= r.replayed
            && b.appliedIndex <= r.superblock.appliedIndex
            && (r.replayed == n ==> r.sectors == s && r.superblock == b)
            && (r.replayed > n ==> b.appliedIndex < r.superblock.appliedIndex)
            && Behind(groups, r.superblock)
    decreases |groups|
  {
    if groups != [] {
      var g, rest := groups[0], groups[1..];
      assert g in groups;
      assert Ascending(rest) by {
        forall i, j | 0 <= i < j < |rest| ensures rest[i].applyIndex < rest[j].applyIndex {
          assert rest[i] == groups[i + 1] && rest[j] == groups[j + 1];
        }
      }
      assert forall h :: h in rest ==> h in groups;
      if g.applyIndex <= b.appliedIndex {
        ReplayEnds(s, b, rest, n);
      } else {
        var t := Replay(s, g.pages).value;
        ReplayKeepsSlots(s, g.pages);
        var next := Publish(b, g.applyIndex, g.stateHash, b.checkpointLsn, g.nextPageId, g.root);
        var u := t[next.slot := Super(next)];
        assert InSlot(u, next.slot) == Some(next);
        assert InSlot(u, b.slot) == InSlot(s, b.slot);
        ReplayEnds(u, next, rest, n + 1);
      }
      forall h | h in groups ensures h == g || h in rest {}
    }
  }

  lemma {:induction false} ReplayKeepsSlots(s: Sectors, images: seq<DataPage>)
    requires Replay(s, images).Ok? && forall p {:trigger p in images} :: p in images ==> p.id >= 2
    ensures var t := Replay(s, images).value; Content(t, 0) == Content(s, 0) && Content(t, 1) == Content(s, 1)
    decreases |images|
  {
    if images != [] {
      assert images[0] in images;
      assert forall p :: p in images[1..] ==> p in images;
      ReplayKeepsSlots(if Current(s, images[0]) then s else s[images[0].id := Data(images[0])], images[1..]);
    }
  }

  /** No two slots claim the same generation. */
  predicate SlotsDiffer(s: Sectors) {
    InSlot(s, 0).Some? && InSlot(s, 1).Some? ==> InSlot(s, 0).value.generation != InSlot(s, 1).value.generation
  }

  /** Recovering twice: the second recovery succeeds exactly when the first replayed nothing
      or started from a superblock without a checkpoint marker; it then changes nothing. */
  lemma ReopenExactly(s: Sectors, wal: Wal)
    requires Recover(s, wal).Ok? && SlotsDiffer(s) && AllSound(wal.groups, wal.end)
    ensures var r := Recover(s, wal).value;
            && (Recover(r.sectors, wal).Ok? <==> r.replayed == 0 || Starting(s).value.checkpointLsn == 0)
            && (Recover(r.sectors, wal).Ok? ==> Recover(r.sectors, wal) == Ok(Recovered(r.sectors, r.superblock, 0)))
  {
    hide ReplayGroups;
    var b, r := Starting(s).value, Recover(s, wal).value;
    assert NewestIs(s, b);
    assert forall g {:trigger g in wal.groups} :: g in wal.groups ==> GroupSound(g, wal.end);
    ReplayEnds(s, b, wal.groups, 0);
    assert Starting(r.sectors) == Ok(r.superblock);
    NothingToReplay(r.sectors, r.superblock, wal.groups, 0);
  }

  // ------------------------------------------------------------- the marker lockout

  /** Replaying a group under a checkpoint marker: the marker no longer agrees. */
  lemma MarkerOutdated(b: Superblock, wal: Wal, next: Superblock)
    requires CheckMarker(b, wal).None? && b.checkpointLsn != 0
    requires next.checkpointLsn == b.checkpointLsn && next.appliedIndex != b.appliedIndex
    ensures CheckMarker(next, wal) == Some(CheckpointDisagrees)
  {
  }

  /** A crash in `apply` once the group is logged: recovery reaches the new state, and it
      can be recovered again exactly when the publication had survived or the database
      was not checkpointed; otherwise it stays locked out. */
  lemma MarkerLocksOut(s: Sectors, wal: Wal, b: Superblock, g: Group, k: nat, after: Sectors)
    requires Established(s, wal, b) && GroupFits(wal, b, g) && 1 <= k <= |ApplyIo(s, b, g)|
    requires Crashed(DoAll(Machine(s, [], wal), ApplyIo(s, b, g)[..k]), after)
    ensures var log := DoAll(Machine(s, [], wal), ApplyIo(s, b, g)[..k]).wal;
            var next := Publish(b, g.applyIndex, g.stateHash, 0, g.nextPageId, g.root);
            var r := Recover(after, log);
            && r.Ok? && r.value.replayed == (if Published(after, next) then 0 else 1)
            && View(r.value.sectors, r.value.superblock) == View(Overwrite(s, g.pages), next)
            && Recover(r.value.sectors, log) == if Published(after, next) || b.checkpointLsn == 0
                                                then Ok(Recovered(r.value.sectors, r.value.superblock, 0))
                                                else Err(CheckpointDisagrees)
  {
    hide Left, View, Established, Placed, Recover, Overwrite, ApplyIo;
    ApplyIsAtomic(s, wal, b, g, k, after);
    CrashedApplying(s, wal, b, g, k, after);
    SecondRecovery(s, wal, b, g, after);
  }

  lemma CrashedApplying(s: Sectors, wal: Wal, b: Superblock, g: Group, k: nat, after: Sectors)
    requires Established(s, wal, b) && GroupFits(wal, b, g) && 1 <= k <= |ApplyIo(s, b, g)|
    requires Crashed(DoAll(Machine(s, [], wal), ApplyIo(s, b, g)[..k]), after)
    ensures Left(s, b, g.pages, Publish(b, g.applyIndex, g.stateHash, 0, g.nextPageId, g.root), after)
    ensures DoAll(Machine(s, [], wal), ApplyIo(s, b, g)[..k]).wal == wal.(groups := wal.groups + [g], end := g.endLsn)
  {
    hide Left, Established, Placed;
    var m := Machine(s, [], wal);
    var next := Publish(b, g.applyIndex, g.stateHash, 0, g.nextPageId, g.root);
    var ws := FreshIo(g.pages);
    EstablishedFacts(s, wal, b);
    FollowsPublish(b, g.applyIndex, g.stateHash, g.nextPageId, g.root);
    NotYetPublished(s, wal, b, next);
    ImagesAreNewer(s, wal, b, g);
    AllWritten(s, wal.end, g.pages);
    FreshWrites(g.pages);
    assert ApplyIo(s, b, g) == [AppendGroup(g)] + (ws + [Sync] + PublishIo(next));
    assert ApplyIo(s, b, g)[..k] == [AppendGroup(g)] + (ws + [Sync] + PublishIo(next))[..k - 1];
    DoConcat(m, [AppendGroup(g)], (ws + [Sync] + PublishIo(next))[..k - 1]);
    DoOne(m, AppendGroup(g));
    CrashAnywhere(Do(m, AppendGroup(g)), b, ws, g.pages, next, k - 1, after);
  }

  lemma SecondRecovery(s: Sectors, wal: Wal, b: Superblock, g: Group, after: Sectors)
    requires Established(s, wal, b) && GroupFits(wal, b, g)
    requires Left(s, b, g.pages, Publish(b, g.applyIndex, g.stateHash, 0, g.nextPageId, g.root), after)
    ensures var log := wal.(groups := wal.groups + [g], end := g.endLsn);
            var next := Publish(b, g.applyIndex, g.stateHash, 0, g.nextPageId, g.root);
            var r := Recover(after, log);
            && r.Ok? && r.value.replayed == (if Published(after, next) then 0 else 1)
            && Recover(r.value.sectors, log) == if Published(after, next) || b.checkpointLsn == 0
                                                then Ok(Recovered(r.value.sectors, r.value.superblock, 0))
                                                else Err(CheckpointDisagrees)
  {
    hide Behind, Left, Overwrite, Starting, CheckMarker, Established, ReplayGroups;
    var next := Publish(b, g.applyIndex, g.stateHash, 0, g.nextPageId, g.root);
    var log := wal.(groups := wal.groups + [g], end := g.endLsn);
    EstablishedFacts(s, wal, b);
    WhichSuperblock(s, wal, b, g.pages, next, after);
    if Published(after, next) {
      NoMarker(next, log);
      BehindNext(wal.groups, b, g, next);
      NothingToReplay(after, next, log.groups, 0);
    } else {
      MarkerStays(b, wal, log);
      Replayable(s, wal, b, g, after);
      ReplayOverwrites(after, g.pages);
      OneToReplay(after, b, wal.groups, g, 0);
      var again := Publish(b, g.applyIndex, g.stateHash, b.checkpointLsn, g.nextPageId, g.root);
      var final := Overwrite(after, g.pages)[again.slot := Super(again)];
      assert Recover(after, log) == Ok(Recovered(final, again, 1));
      AgainNewest(s, wal, b, g, after, again);
      BehindNext(wal.groups, b, g, again);
      NothingToReplay(final, again, log.groups, 0);
      if b.checkpointLsn == 0 {
        NoMarker(again, log);
      } else {
        MarkerOutdated(b, log, again);
      }
    }
  }

  lemma AgainNewest(s: Sectors, wal: Wal, b: Superblock, g: Group, after: Sectors, again: Superblock)
    requires Established(s, wal, b) && GroupFits(wal, b, g)
    requires Left(s, b, g.pages, Publish(b, g.applyIndex, g.stateHash, 0, g.nextPageId, g.root), after)
    requires again == Publish(b, g.applyIndex, g.stateHash, b.checkpointLsn, g.nextPageId, g.root)
    ensures Starting(Overwrite(after, g.pages)[again.slot := Super(again)]) == Ok(again)
  {
    hide Overwrite, Behind, CheckMarker;
    OverwriteContent(after, g.pages, b.slot);
    var final := Overwrite(after, g.pages)[again.slot := Super(again)];
    assert forall p :: p in g.pages ==> p.id >= 2;
    assert Content(final, b.slot) == Content(s, b.slot);
    assert InSlot(final, b.slot) == Some(b) && InSlot(final, again.slot) == Some(again);
  }

  // -------------------------------------------------------- crashes inside recovery

  /** The images that replay would write. */
  function Stale(s: Sectors, images: seq<DataPage>): seq<DataPage> {
    if images == [] then []
    else (if Current(s, images[0]) then [] else [images[0]]) + Stale(s, images[1..])
  }

  lemma {:induction false} StaleMembers(s: Sectors, images: seq<DataPage>)
    requires DistinctPages(images)
    ensures DistinctPages(Stale(s, images))
    ensures forall p {:trigger p in Stale(s, images)} :: p in Stale(s, images) <==> p in images && !Current(s, p)
    decreases |images|
  {
    if images != [] {
      var rest := images[1..];
      RestDistinct(images);
      StaleMembers(s, rest);
      assert forall p :: p in images <==> p == images[0] || p in rest;
      var t := Stale(s, rest);
      if !Current(s, images[0]) {
        assert Stale(s, images) == [images[0]] + t;
        forall i, j | 0 <= i < j < |t| + 1 ensures ([images[0]] + t)[i].id != ([images[0]] + t)[j].id {
          assert ([images[0]] + t)[j] == t[j - 1] && t[j - 1] in t;
        }
      } else {
        assert Stale(s, images) == [] + t == t;
      }
    }
  }

  /** Images elsewhere do not matter. */
  lemma {:induction false} StaleElsewhere(s: Sectors, id: PageId, sector: Sector, images: seq<DataPage>)
    requires forall p {:trigger p in images} :: p in images ==> p.id != id
    ensures Stale(s[id := sector], images) == Stale(s, images)
    decreases |images|
  {
    if images != [] {
      assert images[0] in images;
      assert forall p :: p in images[1..] ==> p in images;
      StaleElsewhere(s, id, sector, images[1..]);
    }
  }

  /** Replay writes exactly the stale images. */
  lemma {:induction false} ReplayIsStale(s: Sectors, images: seq<DataPage>)
    requires DistinctPages(images)
    ensures ReplayIo(s, images) == FreshIo(Stale(s, images))
    ensures Replay(s, images).Ok? <==> forall p {:trigger p in images} :: p in images ==> !MisplacedAt(s, p.id)
    ensures Replay(s, images).Ok? ==> Replay(s, images).value == Overwrite(s, Stale(s, images))
    decreases |images|
  {
    hide DistinctPages, MisplacedAt, Current, Stale, ReplayIo, FreshIo, Replay, Overwrite;
    if images == [] {
      StaleNothing(s);
    } else {
      var p, rest := images[0], images[1..];
      var t := s[p.id := Data(p)];
      RestDistinct(images);
      assert p in images && forall q :: q in images <==> q == p || q in rest;
      forall q | q in rest ensures MisplacedAt(t, q.id) == MisplacedAt(s, q.id) && q.id != p.id {
        MisplacedElsewhere(s, images, q);
      }
      StaleElsewhere(s, p.id, Data(p), rest);
      ReplayIsStale(t, rest);
      ReplayIsStale(s, rest);
      StaleStep(s, images);
    }
  }

  lemma StaleNothing(s: Sectors)
    ensures Stale(s, []) == [] && ReplayIo(s, []) == FreshIo([]) && Replay(s, []) == Ok(Overwrite(s, []))
  {
    assert FreshIo([]) == [];
  }

  lemma MisplacedElsewhere(s: Sectors, images: seq<DataPage>, q: DataPage)
    requires images != [] && DistinctPages(images) && q in images[1..]
    ensures q.id != images[0].id && MisplacedAt(s[images[0].id := Data(images[0])], q.id) == MisplacedAt(s, q.id)
  {
    var i :| 0 <= i < |images[1..]| && images[1..][i] == q;
    assert images[i + 1] == q;
  }

  /** One image of a replay. */
  lemma StaleStep(s: Sectors, images: seq<DataPage>)
    requires images != []
    requires var p, rest := images[0], images[1..];
             forall t :: t in {s, s[p.id := Data(p)]} ==>
               ReplayIo(t, rest) == FreshIo(Stale(s, rest))
               && (Replay(t, rest).Ok? ==> Replay(t, rest).value == Overwrite(t, Stale(s, rest)))
    ensures ReplayIo(s, images) == FreshIo(Stale(s, images))
    ensures var p, rest := images[0], images[1..];
            Replay(s, images).Ok?
            <==> !MisplacedAt(s, p.id) && Replay(if Current(s, p) then s else s[p.id := Data(p)], rest).Ok?
    ensures Replay(s, images).Ok? ==> Replay(s, images).value == Overwrite(s, Stale(s, images))
  {
    hide Current, MisplacedAt, FreshIo;
    var p, few := images[0], Stale(s, images[1..]);
    if Current(s, p) {
      assert Stale(s, images) == [] + few == few;
    } else {
      assert Stale(s, images) == [p] + few;
      FreshFirst(p, few);
      OverwriteFirst(s, p, few);
    }
  }

  lemma FreshFirst(p: DataPage, rest: seq<DataPage>)
    ensures FreshIo([p] + rest) == [WritePage(p.id, Data(p))] + FreshIo(rest)
  {
  }

  lemma OverwriteFirst(s: Sectors, p: DataPage, rest: seq<DataPage>)
    ensures Overwrite(s, [p] + rest) == Overwrite(s[p.id := Data(p)], rest)
  {
    assert ([p] + rest)[0] == p && ([p] + rest)[1..] == rest;
  }

  /** `b` is on disk and newest. */
  ghost predicate OnTop(s: Sectors, b: Superblock) {
    && b.slot <= 1 && InSlot(s, b.slot) == Some(b)
    && (InSlot(s, Other(b.slot)).Some? ==> InSlot(s, Other(b.slot)).value.generation < b.generation)
  }

  lemma SameEverywhere(s: Sectors, t: Sectors)
    requires Content(s, 0) == Content(t, 0) && Content(s, 1) == Content(t, 1)
    requires forall i {:trigger Content(s, i)} :: i >= 2 ==> Content(s, i) == Content(t, i)
    ensures s == t
  {
    forall i ensures Content(s, i) == Content(t, i) {}
    SameSectors(s, t);
  }

  /** Replaying a group that was partly replayed gives what replaying it once gives. */
  lemma ReplayAgain(s: Sectors, b: Superblock, images: seq<DataPage>, next: Superblock, after: Sectors)
    requires DistinctPages(images) && (forall p {:trigger p in images} :: p in images ==> p.id >= 2)
    requires b.slot <= 1 && next.slot == Other(b.slot) && Replay(s, images).Ok?
             && Left(s, b, Stale(s, images), next, after)
    ensures Replay(after, images).Ok?
    ensures Replay(after, images).value[next.slot := Super(next)] == Replay(s, images).value[next.slot := Super(next)]
  {
    hide Overwrite, Replay, ReplayIo, MisplacedAt, Stale;
    StaleMembers(s, images);
    StaleMembers(after, images);
    ReplayIsStale(s, images);
    ReplayIsStale(after, images);
    LeftOver(s, b, images, next, after);
    var x, y := Overwrite(after, Stale(after, images)), Overwrite(s, Stale(s, images));
    forall i {:trigger Content(x, i)} | i >= 2 ensures Content(x, i) == Content(y, i) {
      OverwriteContent(s, Stale(s, images), i);
      OverwriteContent(after, Stale(after, images), i);
      if p :| p in images && p.id == i {
        ReplayedAt(s, b, images, next, after, p);
      } else {
        assert Content(after, i) == Content(s, i) by { LeftElsewhere(s, b, images, next, after, i); }
      }
    }
    OverwriteContent(after, Stale(after, images), b.slot);
    OverwriteContent(s, Stale(s, images), b.slot);
    var u, v := x[next.slot := Super(next)], y[next.slot := Super(next)];
    forall i {:trigger Content(u, i)} | i >= 2 ensures Content(u, i) == Content(v, i) {
      assert Content(x, i) == Content(y, i);
    }
    SameEverywhere(u, v);
  }

  /** What an image's page holds: as before if it was not stale, else before, torn or the image. */
  lemma LeftOver(s: Sectors, b: Superblock, images: seq<DataPage>, next: Superblock, after: Sectors)
    requires DistinctPages(images) && (forall p {:trigger p in images} :: p in images ==> p.id >= 2)
    requires Left(s, b, Stale(s, images), next, after) && Replay(s, images).Ok?
    ensures forall p {:trigger p in images} :: p in images ==>
              && !MisplacedAt(after, p.id)
              && (Current(s, p) ==> Content(after, p.id) == Content(s, p.id))
              && Content(after, p.id) in {Content(s, p.id), Some(Torn), Some(Data(p))}
  {
    hide Replay, ReplayIo, Overwrite, Stale;
    StaleMembers(s, images);
    ReplayIsStale(s, images);
    forall p | p in images
      ensures !MisplacedAt(after, p.id)
      ensures Current(s, p) ==> Content(after, p.id) == Content(s, p.id)
      ensures Content(after, p.id) in {Content(s, p.id), Some(Torn), Some(Data(p))}
    {
      assert Content(after, p.id) == Content(after, p.id);
      if Content(after, p.id) != Content(s, p.id) {
        var q :| q in Stale(s, images) && q.id == p.id && Content(after, p.id) in {Some(Torn), Some(Data(q))};
        SamePage(images, p, q);
      }
    }
  }

  lemma ReplayedAt(s: Sectors, b: Superblock, images: seq<DataPage>, next: Superblock, after: Sectors, p: DataPage)
    requires DistinctPages(images) && (forall p {:trigger p in images} :: p in images ==> p.id >= 2) && p in images
    requires Left(s, b, Stale(s, images), next, after) && Replay(s, images).Ok?
    ensures Content(Overwrite(after, Stale(after, images)), p.id) == Content(Overwrite(s, Stale(s, images)), p.id)
  {
    hide Replay, ReplayIo, Overwrite, Stale;
    LeftOver(s, b, images, next, after);
    StaleMembers(s, images);
    StaleMembers(after, images);
    OverwriteContent(s, Stale(s, images), p.id);
    OverwriteContent(after, Stale(after, images), p.id);
    forall q | q in images && q.id == p.id ensures q == p {
      SamePage(images, p, q);
    }
  }

  lemma LeftElsewhere(s: Sectors, b: Superblock, images: seq<DataPage>, next: Superblock, after: Sectors, i: PageId)
    requires DistinctPages(images) && i >= 2 && (forall p :: p in images ==> p.id != i)
             && Left(s, b, Stale(s, images), next, after)
    ensures Content(after, i) == Content(s, i)
    ensures forall p :: p in Stale(s, images) || p in Stale(after, images) ==> p.id != i
  {
    StaleMembers(s, images);
    StaleMembers(after, images);
  }

  function GroupIo(s: Sectors, g: Group, next: Superblock): seq<Io> {
    ReplayIo(s, g.pages) + [Sync] + PublishIo(next)
  }

  /** A crash while recovery replays one group: the group is still to be replayed, with the
      same result, or it is published in full. */
  lemma CrashReplaying(s: Sectors, wal: Wal, b: Superblock, g: Group, next: Superblock, k: nat, after: Sectors)
    requires OnTop(s, b) && GroupSound(g, wal.end) && Replay(s, g.pages).Ok? && k <= |GroupIo(s, g, next)|
    requires next == Publish(b, g.applyIndex, g.stateHash, b.checkpointLsn, g.nextPageId, g.root)
    requires Crashed(DoAll(Machine(s, [], wal), GroupIo(s, g, next)[..k]), after)
    ensures var done := Replay(s, g.pages).value[next.slot := Super(next)];
            && (Published(after, next) ==> after == done && OnTop(after, next))
            && (!Published(after, next) ==>
                  OnTop(after, b) && Replay(after, g.pages).Ok?
                    && Replay(after, g.pages).value[next.slot := Super(next)] == done)
            && (k == |GroupIo(s, g, next)| ==> Published(after, next))
    ensures DoAll(Machine(s, [], wal), GroupIo(s, g, next)[..k]).wal == wal
    ensures Placed(s, wal.end) ==> Placed(after, wal.end)
  {
    hide Left, Replay, ReplayIo, Overwrite, Stale, Crashed;
    var m := Machine(s, [], wal);
    var stale := Stale(s, g.pages);
    StaleMembers(s, g.pages);
    ReplayIsStale(s, g.pages);
    FreshWrites(stale);
    CrashAnywhere(m, b, FreshIo(stale), stale, next, k, after);
    LeftSlots(s, b, stale, next, after);
    if Placed(s, wal.end) {
      LeftPlaced(s, b, stale, next, after, wal.end);
    }
    if Published(after, next) {
      LeftInPlace(s, b, stale, next, after);
      PlacedData(s, stale, after, b, next);
      OverwriteContent(s, stale, b.slot);
      var done := Overwrite(s, stale)[next.slot := Super(next)];
      forall i {:trigger Content(after, i)} | i >= 2 ensures Content(after, i) == Content(done, i) {
        assert Content(after, i) == Content(Overwrite(s, stale), i);
      }
      SameEverywhere(after, done);
    } else {
      ReplayAgain(s, b, g.pages, next, after);
    }
  }

  /** Whatever a crash leaves is where it says it is. */
  lemma LeftPlaced(s: Sectors, b: Superblock, images: seq<DataPage>, next: Superblock, after: Sectors, end: nat)
    requires Placed(s, end) && Left(s, b, images, next, after)
    requires forall p {:trigger p in images} :: p in images ==> p.id >= 2 && p.lsn <= end
    ensures Placed(after, end)
  {
    forall i {:trigger i in after} | i in after && i >= 2
      ensures !after[i].Super? && (after[i].Data? ==> after[i].page.id == i && after[i].page.lsn <= end)
    {
      assert Content(after, i) == Some(after[i]);
      if Content(after, i) == Content(s, i) {
        assert i in s && s[i] == after[i];
      }
    }
  }

  lemma LeftSlots(s: Sectors, b: Superblock, images: seq<DataPage>, next: Superblock, after: Sectors)
    requires OnTop(s, b) && Follows(b, next) && Left(s, b, images, next, after)
    ensures Content(after, b.slot) == Content(s, b.slot)
    ensures if Published(after, next) then OnTop(after, next) else OnTop(after, b)
  {
    assert InSlot(after, b.slot) == Some(b);
  }

  /** Where a replay ends does not depend on how many groups came before. */
  lemma {:induction false} ReplayCounts(s: Sectors, b: Superblock, groups: seq<Group>, n: nat, m: nat)
    ensures ReplayGroups(s, b, groups, n).Ok? <==> ReplayGroups(s, b, groups, m).Ok?
    ensures ReplayGroups(s, b, groups, n).Ok? ==>
              var x, y := ReplayGroups(s, b, groups, n).value, ReplayGroups(s, b, groups, m).value;
              x.sectors == y.sectors && x.superblock == y.superblock
    decreases |groups|
  {
    if groups != [] {
      var g := groups[0];
      if g.applyIndex <= b.appliedIndex {
        ReplayCounts(s, b, groups[1..], n, m);
      } else if Replay(s, g.pages).Ok? {
        var next := Publish(b, g.applyIndex, g.stateHash, b.checkpointLsn, g.nextPageId, g.root);
        ReplayCounts(Replay(s, g.pages).value[next.slot := Super(next)], next, groups[1..], n + 1, m + 1);
      }
    }
  }

  /** Recovery from `after`, wherever it starts, ends where recovery from `s` does. */
  ghost predicate EndsAlike(s: Sectors, b: Superblock, after: Sectors, c: Superblock, groups: seq<Group>) {
    && ReplayGroups(s, b, groups, 0).Ok? && ReplayGroups(after, c, groups, 0).Ok?
    && var x, y := ReplayGroups(s, b, groups, 0).value, ReplayGroups(after, c, groups, 0).value;
       x.sectors == y.sectors && x.superblock == y.superblock
  }

  lemma RestSound(groups: seq<Group>, end: nat)
    requires AllSound(groups, end) && groups != []
    ensures AllSound(groups[1..], end) && GroupSound(groups[0], end)
    ensures forall g :: g in groups[1..] ==> groups[0].applyIndex < g.applyIndex
  {
    var rest := groups[1..];
    assert groups[0] in groups && forall g :: g in rest ==> g in groups;
    forall i, j | 0 <= i < j < |rest| ensures rest[i].applyIndex < rest[j].applyIndex {
      assert rest[i] == groups[i + 1] && rest[j] == groups[j + 1];
    }
    forall g | g in rest ensures groups[0].applyIndex < g.applyIndex {
      var j :| 0 <= j < |rest| && rest[j] == g;
      assert groups[j + 1] == g;
    }
  }

  /** A crash anywhere in recovery: what is left starts from a superblock that recovery
      went through, and ends the same. */
  lemma {:induction false} CrashRecovering(s: Sectors, wal: Wal, b: Superblock, groups: seq<Group>, k: nat,
                                           after: Sectors) returns (c: Superblock)
    requires OnTop(s, b) && AllSound(groups, wal.end) && ReplayGroups(s, b, groups, 0).Ok?
             && k <= |RecoverIo(s, b, groups)|
    requires Crashed(DoAll(Machine(s, [], wal), RecoverIo(s, b, groups)[..k]), after)
    ensures OnTop(after, c) && c.checkpointLsn == b.checkpointLsn && (c == b || b.appliedIndex < c.appliedIndex)
    ensures EndsAlike(s, b, after, c, groups) && (Placed(s, wal.end) ==> Placed(after, wal.end))
    decreases |groups|, 1
  {
    hide Crashed, Replay, ReplayIo, OnTop, GroupSound, Placed;
    if groups == [] {
      assert RecoverIo(s, b, groups)[..k] == [];
      Untouched(Machine(s, [], wal), after);
      c := b;
    } else {
      RestSound(groups, wal.end);
      var g, rest := groups[0], groups[1..];
      if g.applyIndex <= b.appliedIndex {
        c := CrashRecovering(s, wal, b, rest, k, after);
        SkipsHead(s, b, groups);
        SkipsHead(after, c, groups);
      } else {
        c := CrashRecoveringHead(s, wal, b, groups, k, after);
      }
    }
  }

  /** A group the superblock is past, or level with and agrees with, is skipped. */
  lemma SkipsHead(s: Sectors, b: Superblock, groups: seq<Group>)
    requires groups != [] && groups[0].applyIndex <= b.appliedIndex
    requires groups[0].applyIndex == b.appliedIndex ==> groups[0].stateHash == b.stateHash
    ensures ReplayGroups(s, b, groups, 0) == ReplayGroups(s, b, groups[1..], 0)
  {
  }

  lemma CrashedNothing(m: Machine)
    requires m.pending == []
    ensures Crashed(m, m.durable) && DoAll(m, []) == m
  {
    forall id ensures Survives(m, m.durable, id) {}
  }

  lemma EndsSynced(m: Machine, ios: seq<Io>)
    ensures DoAll(m, ios + [Sync]).pending == []
  {
    DoConcat(m, ios, [Sync]);
    DoOne(DoAll(m, ios), Sync);
  }

  /** Left alone, recovery leaves a replayed group published. */
  lemma GroupDone(s: Sectors, wal: Wal, b: Superblock, g: Group, next: Superblock)
    requires OnTop(s, b) && GroupSound(g, wal.end) && Replay(s, g.pages).Ok?
    requires next == Publish(b, g.applyIndex, g.stateHash, b.checkpointLsn, g.nextPageId, g.root)
    ensures DoAll(Machine(s, [], wal), GroupIo(s, g, next))
            == Machine(Replay(s, g.pages).value[next.slot := Super(next)], [], wal)
    ensures OnTop(Replay(s, g.pages).value[next.slot := Super(next)], next)
    ensures Placed(s, wal.end) ==> Placed(Replay(s, g.pages).value[next.slot := Super(next)], wal.end)
  {
    hide Crashed, Replay, ReplayIo, OnTop, GroupSound, Placed;
    var ios := GroupIo(s, g, next);
    var before := ReplayIo(s, g.pages) + [Sync] + [WritePage(next.slot, Super(next))];
    assert ios == before + [Sync];
    EndsSynced(Machine(s, [], wal), before);
    var d := DoAll(Machine(s, [], wal), ios);
    assert ios[..|ios|] == ios;
    CrashedNothing(d);
    CrashReplaying(s, wal, b, g, next, |ios|, d.durable);
  }

  lemma {:induction false} CrashRecoveringHead(s: Sectors, wal: Wal, b: Superblock, groups: seq<Group>, k: nat,
                                               after: Sectors) returns (c: Superblock)
    requires OnTop(s, b) && AllSound(groups, wal.end) && ReplayGroups(s, b, groups, 0).Ok?
             && k <= |RecoverIo(s, b, groups)|
    requires groups != [] && groups[0].applyIndex > b.appliedIndex
    requires Crashed(DoAll(Machine(s, [], wal), RecoverIo(s, b, groups)[..k]), after)
    ensures OnTop(after, c) && c.checkpointLsn == b.checkpointLsn && (c == b || b.appliedIndex < c.appliedIndex)
    ensures EndsAlike(s, b, after, c, groups) && (Placed(s, wal.end) ==> Placed(after, wal.end))
    decreases |groups|, 0
  {
    hide Crashed, Replay, ReplayIo, OnTop, GroupSound, AllSound, Placed;
    RestSound(groups, wal.end);
    var g, rest, m := groups[0], groups[1..], Machine(s, [], wal);
    var next := Publish(b, g.applyIndex, g.stateHash, b.checkpointLsn, g.nextPageId, g.root);
    var u := Replay(s, g.pages).value[next.slot := Super(next)];
    var head, tail := GroupIo(s, g, next), RecoverIo(u, next, rest);
    assert RecoverIo(s, b, groups) == head + tail;
    assert ReplayGroups(s, b, groups, 0) == ReplayGroups(u, next, rest, 1);
    ReplayCounts(u, next, rest, 0, 1);
    if k <= |head| {
      assert (head + tail)[..k] == head[..k];
      CrashReplaying(s, wal, b, g, next, k, after);
      if Published(after, next) {
        CrashedNothing(Machine(u, [], wal));
        assert tail[..0] == [];
        c := CrashRecovering(u, wal, next, rest, 0, after);
        SkipsHead(after, c, groups);
      } else {
        c := b;
        assert ReplayGroups(after, b, groups, 0) == ReplayGroups(u, next, rest, 1);
      }
    } else {
      var j := k - |head|;
      assert (head + tail)[..k] == head + tail[..j];
      DoConcat(m, head, tail[..j]);
      GroupDone(s, wal, b, g, next);
      c := CrashRecovering(u, wal, next, rest, j, after);
      SkipsHead(after, c, groups);
    }
  }

  /** Recovery interrupted at any of its own writes and run again: it ends with the very
      same disk exactly when it starts from the same superblock as before or the database
      was not checkpointed; otherwise it is locked out. */
  lemma RecoveryRestarts(s: Sectors, wal: Wal, b: Superblock, k: nat, after: Sectors)
    requires OnTop(s, b) && Recover(s, wal).Ok? && AllSound(wal.groups, wal.end) && k <= |RecoverIo(s, b, wal.groups)|
    requires Crashed(DoAll(Machine(s, [], wal), RecoverIo(s, b, wal.groups)[..k]), after)
    ensures exists c :: OnTop(after, c)
    ensures Starting(after).Ok?
    ensures var r, again := Recover(s, wal).value, Recover(after, wal);
            if Starting(after).value == b || b.checkpointLsn == 0
            then again.Ok? && again.value.sectors == r.sectors && again.value.superblock == r.superblock
            else again == Err(CheckpointDisagrees)
  {
    hide ReplayGroups, RecoverIo, Crashed, AllSound;
    assert Starting(s) == Ok(b);
    var c := CrashRecovering(s, wal, b, wal.groups, k, after);
    assert Starting(after) == Ok(c);
    if c != b && b.checkpointLsn != 0 {
      MarkerOutdated(b, wal, c);
    }
  }

  /** One interrupted recovery after another. */
  ghost predicate Interrupted(wal: Wal, disks: seq<Sectors>) {
    forall i {:trigger disks[i]} :: 0 < i < |disks| ==> InterruptedOnce(disks[i - 1], wal, disks[i])
  }

  ghost predicate InterruptedOnce(s: Sectors, wal: Wal, after: Sectors) {
    Starting(s).Ok? && exists k {:trigger CrashesAt(s, wal, k, after)} :: CrashesAt(s, wal, k, after)
  }

  ghost predicate CrashesAt(s: Sectors, wal: Wal, k: nat, after: Sectors)
    requires Starting(s).Ok?
  {
    var ios := RecoverIo(s, Starting(s).value, wal.groups);
    k <= |ios| && Crashed(DoAll(Machine(s, [], wal), ios[..k]), after)
  }

  /** However often recovery is interrupted, a database without a checkpoint marker ends up
      as if it never had been. */
  lemma {:induction false} RecoveryIsRestartable(wal: Wal, b: Superblock, disks: seq<Sectors>)
    requires disks != [] && Interrupted(wal, disks) && AllSound(wal.groups, wal.end)
    requires OnTop(disks[0], b) && b.checkpointLsn == 0 && Recover(disks[0], wal).Ok?
    ensures var r, last := Recover(disks[0], wal).value, Recover(disks[|disks| - 1], wal);
            last.Ok? && last.value.sectors == r.sectors && last.value.superblock == r.superblock
    decreases |disks|
  {
    hide ReplayGroups, RecoverIo, Crashed, AllSound;
    if |disks| > 1 {
      var s, after := disks[0], disks[1];
      assert InterruptedOnce(disks[0], wal, disks[1]);
      assert Starting(s) == Ok(b);
      var k :| CrashesAt(s, wal, k, after);
      RecoveryRestarts(s, wal, b, k, after);
      var c := CrashRecovering(s, wal, b, wal.groups, k, after);
      RestInterrupted(wal, disks);
      RecoveryIsRestartable(wal, c, disks[1..]);
    }
  }

  lemma RestInterrupted(wal: Wal, disks: seq<Sectors>)
    requires Interrupted(wal, disks) && disks != []
    ensures Interrupted(wal, disks[1..])
  {
    var rest := disks[1..];
    forall i {:trigger rest[i]} | 0 < i < |rest| ensures InterruptedOnce(rest[i - 1], wal, rest[i]) {
      assert InterruptedOnce(disks[i], wal, disks[i + 1]);
    }
  }

  // ------------------------------------------------------------------ the first open

  /** A crash while a new disk gets its superblocks: the disk opens again, still empty,
      unless the very first superblock was torn. */
  lemma FirstOpenCrash(wal: Wal, k: nat, after: Sectors)
    requires wal.groups == [] && k <= 4 && Crashed(DoAll(Machine(map[], [], wal), EstablishIo(GENESIS)[..k]), after)
    ensures if Content(after, 0) == Some(Torn) then k == 1 && Recover(after, wal) == Err(NoValidSuperblock)
            else
              && Recover(after, wal).Ok?
              && View(Recover(after, wal).value.sectors, Recover(after, wal).value.superblock) == View(map[], GENESIS)
  {
    hide View;
    var m := Machine(map[], [], wal);
    var ios, next := EstablishIo(GENESIS), Publish(GENESIS, 0, [], 0, 2, None);
    var c := DoAll(m, ios[..k]);
    FirstOpenSteps(wal, k);
    forall i ensures Content(after, i) in {None, Some(Torn), Some(if i == 0 then Super(GENESIS) else Super(next))}
      && (i >= 2 ==> Content(after, i) == None) {
      assert Survives(c, after, i);
    }
    assert Survives(c, after, 0) && Survives(c, after, 1);
    if Content(after, 0) != Some(Torn) {
      var found := Starting(after).value;
      SameView(after, map[], found, GENESIS);
    }
  }

  lemma FirstOpenSteps(wal: Wal, k: nat)
    requires k <= 4
    ensures var c := DoAll(Machine(map[], [], wal), EstablishIo(GENESIS)[..k]);
            var first, next := (0, Super(GENESIS)), Publish(GENESIS, 0, [], 0, 2, None);
            && c.durable == (if k < 2 then map[] else if k < 4 then map[0 := Super(GENESIS)]
                             else map[0 := Super(GENESIS), 1 := Super(next)])
            && c.pending == (if k == 1 then [first] else if k == 3 then [(1, Super(next))] else [])
            && c.wal == wal
  {
    var ios, m := EstablishIo(GENESIS), Machine(map[], [], wal);
    var next := Publish(GENESIS, 0, [], 0, 2, None);
    assert ios == [WritePage(0, Super(GENESIS)), Sync, WritePage(1, Super(next)), Sync];
    var m1 := Do(m, ios[0]);
    var m2 := Do(m1, Sync);
    var m3 := Do(m2, ios[2]);
    assert m1.pending == [(0, Super(GENESIS))];
    SettleOne(map[], (0, Super(GENESIS)));
    assert m3.pending == [(1, Super(next))];
    SettleOne(map[0 := Super(GENESIS)], (1, Super(next)));
    var m4 := Do(m3, Sync);
    assert k == 4 ==> ios[3..k] == [Sync];
    DoOne(m3, Sync);
    assert k == 3 ==> ios[3..k] == [];
    if k >= 3 {
      assert ios[2..k][0] == ios[2] && ios[2..k][1..] == ios[3..k];
      assert DoAll(m2, ios[2..k]) == if k == 3 then m3 else m4;
    }
    if k >= 2 {
      assert ios[1..k][0] == Sync && ios[1..k][1..] == ios[2..k];
      assert DoAll(m1, ios[1..k]) == if k == 2 then m2 else DoAll(m2, ios[2..k]);
    }
    if k >= 1 {
      assert ios[..k][0] == ios[0] && ios[..k][1..] == ios[1..k];
      assert DoAll(m, ios[..k]) == if k == 1 then m1 else DoAll(m1, ios[1..k]);
    }
  }

  /** Tearing the first superblock is a crash that can happen. */
  lemma FirstSuperblockTorn(wal: Wal)
    requires wal.groups == []
    ensures Crashed(DoAll(Machine(map[], [], wal), EstablishIo(GENESIS)[..1]), map[0 := Torn])
    ensures Recover(map[0 := Torn], wal) == Err(NoValidSuperblock)
  {
    FirstOpenSteps(wal, 1);
    var c, after := DoAll(Machine(map[], [], wal), EstablishIo(GENESIS)[..1]), map[0 := Torn];
    forall id ensures Survives(c, after, id) {
      if id == 0 {
        assert (0, Super(GENESIS)) in c.pending && Content(after, 0) in {Some(Torn), Some(Super(GENESIS))};
      }
    }
  }

  // -------------------------------------------------------------- every crash reopens

  /** What opening needs of a disk and a log. */
  ghost predicate Openable(s: Sectors, wal: Wal) {
    LogSound(wal) && Placed(s, wal.end) && SlotsDiffer(s)
  }

  lemma LogGrows(wal: Wal, b: Superblock, g: Group)
    requires LogSound(wal) && Behind(wal.groups, b) && GroupFits(wal, b, g)
    ensures LogSound(wal.(groups := wal.groups + [g], end := g.endLsn))
  {
    var all := wal.groups + [g];
    forall i, j | 0 <= i < j < |all| ensures all[i].applyIndex < all[j].applyIndex {
      assert all[i] == wal.groups[i] && wal.groups[i] in wal.groups;
      if j < |wal.groups| {
        assert all[j] == wal.groups[j];
      }
    }
    forall h | h in all ensures GroupSound(h, g.endLsn) {
      if h in wal.groups {
        assert GroupSound(h, wal.end);
      }
    }
  }

  lemma LogMarked(wal: Wal, c: Checkpoint)
    requires LogSound(wal) && wal.end <= c.endLsn
    ensures LogSound(wal.(checkpoints := wal.checkpoints + [c], end := c.endLsn))
  {
    forall h | h in wal.groups ensures GroupSound(h, c.endLsn) {
      assert GroupSound(h, wal.end);
    }
  }

  lemma LeftOpens(s: Sectors, wal: Wal, b: Superblock, images: seq<DataPage>, next: Superblock, after: Sectors,
                  log: Wal)
    requires Established(s, wal, b) && Follows(b, next) && Left(s, b, images, next, after)
    requires LogSound(log) && wal.end <= log.end && forall p {:trigger p in images} ::
               p in images ==> p.id >= 2 && p.lsn <= log.end
    ensures Openable(after, log)
  {
    hide Left, LogSound, CheckMarker, Behind, MarksEnd;
    LeftSlots(s, b, images, next, after);
    PlacedLater(s, wal.end, log.end);
    LeftPlaced(s, b, images, next, after, log.end);
  }

  lemma PlacedLater(s: Sectors, end: nat, later: nat)
    requires Placed(s, end) && end <= later
    ensures Placed(s, later)
  {
  }

  /** After a crash anywhere in `apply` the database can be opened. */
  lemma ApplyCrashOpens(s: Sectors, wal: Wal, b: Superblock, g: Group, k: nat, after: Sectors)
    requires Established(s, wal, b) && LogSound(wal) && GroupFits(wal, b, g) && k <= |ApplyIo(s, b, g)|
    requires Crashed(DoAll(Machine(s, [], wal), ApplyIo(s, b, g)[..k]), after)
    ensures Openable(after, DoAll(Machine(s, [], wal), ApplyIo(s, b, g)[..k]).wal)
  {
    hide Left, LogSound, Placed, CheckMarker, Behind, MarksEnd;
    if k == 0 {
      assert ApplyIo(s, b, g)[..0] == [];
      Untouched(Machine(s, [], wal), after);
    } else {
      CrashedApplying(s, wal, b, g, k, after);
      FollowsPublish(b, g.applyIndex, g.stateHash, g.nextPageId, g.root);
      LogGrows(wal, b, g);
      var next := Publish(b, g.applyIndex, g.stateHash, 0, g.nextPageId, g.root);
      LeftOpens(s, wal, b, g.pages, next, after, wal.(groups := wal.groups + [g], end := g.endLsn));
    }
  }

  /** After a crash anywhere in `install_snapshot` the database can be opened. */
  lemma InstallCrashOpens(s: Sectors, wal: Wal, b: Superblock, index: nat, hash: Hash, pages: seq<DataPage>,
                          nextPage: PageId, root: PageId, k: nat, after: Sectors)
    requires Established(s, wal, b) && LogSound(wal) && SnapshotFits(b, index, pages, nextPage, root)
    requires k <= |InstallIo(b, index, hash, pages, nextPage, root)|
    requires Crashed(DoAll(Machine(s, [], wal), InstallIo(b, index, hash, pages, nextPage, root)[..k]), after)
    ensures Openable(after, DoAll(Machine(s, [], wal), InstallIo(b, index, hash, pages, nextPage, root)[..k]).wal)
  {
    hide Left, LogSound, Placed, CheckMarker, Behind, MarksEnd, Crashed;
    var next := Publish(b, index, hash, 0, nextPage, Some(root));
    FollowsPublish(b, index, hash, nextPage, Some(root));
    NotYetPublished(s, wal, b, next);
    FreshWrites(pages);
    CrashAnywhere(Machine(s, [], wal), b, FreshIo(pages), pages, next, k, after);
    LeftOpens(s, wal, b, pages, next, after, wal);
  }

  /** After a crash anywhere in `checkpoint` the database can be opened. */
  lemma CheckpointCrashOpens(s: Sectors, wal: Wal, b: Superblock, c: Checkpoint, k: nat, after: Sectors)
    requires Established(s, wal, b) && LogSound(wal) && b.nextPageId >= 2 && wal.end < c.endLsn
    requires k <= 4 && Crashed(DoAll(Machine(s, [], wal), CheckpointIo(b, c)[..k]), after)
    ensures Openable(after, DoAll(Machine(s, [], wal), CheckpointIo(b, c)[..k]).wal)
  {
    hide Left, LogSound, Placed, CheckMarker, Behind, MarksEnd, Crashed, DoAll;
    var m := Machine(s, [], wal);
    var next := Publish(b, b.appliedIndex, b.stateHash, c.endLsn, b.nextPageId, b.root);
    var marked := wal.(checkpoints := wal.checkpoints + [c], end := c.endLsn);
    var ios := CheckpointIo(b, c);
    SyncsNothing(m, c);
    if k <= 1 {
      assert ios[..k] == if k == 0 then [] else [Sync];
      Untouched(m, after);
    } else {
      assert ios[..k] == [Sync, AppendCheckpoint(c)] + PublishIo(next)[..k - 2];
      DoConcat(m, [Sync, AppendCheckpoint(c)], PublishIo(next)[..k - 2]);
      LogMarked(wal, c);
      CrashPublishing(Machine(s, [], marked), s, b, [], next, k - 2, after);
      LeftOpens(s, wal, b, [], next, after, marked);
    }
  }

  /** After a crash anywhere in recovery the database can be opened. */
  lemma RecoveryCrashOpens(s: Sectors, wal: Wal, b: Superblock, k: nat, after: Sectors)
    requires OnTop(s, b) && Recover(s, wal).Ok? && Openable(s, wal) && k <= |RecoverIo(s, b, wal.groups)|
    requires Crashed(DoAll(Machine(s, [], wal), RecoverIo(s, b, wal.groups)[..k]), after)
    ensures Openable(after, wal)
  {
    hide ReplayGroups, RecoverIo, Crashed, AllSound, Placed, MarksEnd;
    assert Starting(s) == Ok(b);
    var c := CrashRecovering(s, wal, b, wal.groups, k, after);
  }

  // ---------------------------------------------------------------------- replaying

  /** Replaying never replaces a page by an older one. */
  lemma {:induction false} ReplayRaises(s: Sectors, images: seq<DataPage>, x: DataPage)
    requires Current(s, x) && Replay(s, images).Ok?
    ensures Current(Replay(s, images).value, x)
    decreases |images|
  {
    if images != [] {
      var t := if Current(s, images[0]) then s else s[images[0].id := Data(images[0])];
      ReplayRaises(t, images[1..], x);
    }
  }

  lemma {:induction false} ReplayedAreCurrent(s: Sectors, images: seq<DataPage>)
    requires Replay(s, images).Ok?
    ensures forall x :: x in images ==> Current(Replay(s, images).value, x)
    decreases |images|
  {
    if images != [] {
      var t := if Current(s, images[0]) then s else s[images[0].id := Data(images[0])];
      ReplayedAreCurrent(t, images[1..]);
      ReplayRaises(t, images[1..], images[0]);
      assert images == [images[0]] + images[1..];
    }
  }

  lemma {:induction false} CurrentNotWritten(s: Sectors, images: seq<DataPage>)
    requires forall x :: x in images ==> Current(s, x)
    ensures ReplayIo(s, images) == []
    decreases |images|
  {
    if images != [] {
      assert images[0] in images && forall x :: x in images[1..] ==> x in images;
      CurrentNotWritten(s, images[1..]);
    }
  }

  /** Replay is idempotent to the last write: replaying what was replayed writes nothing. */
  lemma ReplayAgainWritesNothing(s: Sectors, images: seq<DataPage>)
    requires Replay(s, images).Ok?
    ensures ReplayIo(Replay(s, images).value, images) == []
  {
    ReplayedAreCurrent(s, images);
    CurrentNotWritten(Replay(s, images).value, images);
  }

  /** Of the superblocks that are in their own slots, the newest is read, the second slot's
      if they are equally new; none is read only where none was ever written, and a disk
      with slots but no superblock is refused. */
  lemma NewestIsRead(s: Sectors)
    ensures ReadSuperblock(s).Err? <==> InSlot(s, 0).None? && InSlot(s, 1).None? && (0 in s || 1 in s)
    ensures ReadSuperblock(s) == Ok(None) <==> 0 !in s && 1 !in s
    ensures ReadSuperblock(s).Ok? && ReadSuperblock(s).value.Some? ==>
              var b := ReadSuperblock(s).value.value;
              && b.slot < 2 && InSlot(s, b.slot) == Some(b)
              && forall slot :: slot in {0, 1} && InSlot(s, slot).Some? && slot != b.slot ==>
                   var o := InSlot(s, slot).value;
                   o.generation < b.generation || (o.generation == b.generation && b.slot == 1)
  {
    var a, b := InSlot(s, 0), InSlot(s, 1);
    assert a.Some? ==> a.value.slot == 0;
    assert b.Some? ==> b.value.slot == 1;
  }
}
