/** The durable pager as an object over media that record every append, page write and
    sync, so the crash theorems speak of exactly what its methods do. */
module DurablePager {
  import opened Wrappers
  import opened Ordering
  import opened Recovery
  import opened RecoveryProofs

  const PAGE_SIZE: nat := 4096
  const FRAME_FIXED: nat := 40
  const BEGIN_FRAME: nat := FRAME_FIXED + 48
  const PAGE_FRAME: nat := FRAME_FIXED + 8 + PAGE_SIZE
  const COMMIT_FRAME: nat := FRAME_FIXED + 36
  const CHECKPOINT_FRAME: nat := FRAME_FIXED + 48

  // --------------------------------------------------------------- logged groups

  type Image = (PageId, Bytes)

  function IdsOf(images: seq<Image>): set<PageId> {
    set i | i in images :: i.0
  }

  function BodyOf(images: seq<Image>, id: PageId): Bytes {
    if images == [] then [] else if images[0].0 == id then images[0].1 else BodyOf(images[1..], id)
  }

  /** Images in page order, stamped with log offsets `step` apart. */
  function Stamp(ids: seq<PageId>, images: seq<Image>, offset: nat, step: nat): seq<DataPage> {
    if ids == [] then []
    else [DataPage(ids[0], offset, BodyOf(images, ids[0]))] + Stamp(ids[1..], images, offset + step, step)
  }

  function GroupOf(wal: Wal, index: nat, hash: Hash, next: PageId, root: Option<PageId>, images: seq<Image>): Group {
    var pages := Stamp(SortedIds(IdsOf(images)), images, wal.end + BEGIN_FRAME, PAGE_FRAME);
    Group(index, hash, next, root, pages, wal.end + BEGIN_FRAME + |pages| * PAGE_FRAME + COMMIT_FRAME)
  }

  /** A snapshot's pages carry no log offset. */
  function SnapshotPages(images: seq<Image>): seq<DataPage> {
    Stamp(SortedIds(IdsOf(images)), images, 0, 0)
  }

  lemma {:induction false} StampShape(ids: seq<PageId>, images: seq<Image>, offset: nat, step: nat)
    ensures var s := Stamp(ids, images, offset, step);
            |s| == |ids| && forall i :: 0 <= i < |ids| ==> s[i].id == ids[i] && s[i].lsn == offset + i * step
    decreases |ids|
  {
    if ids != [] {
      StampShape(ids[1..], images, offset + step, step);
      var s := Stamp(ids, images, offset, step);
      forall i | 0 < i < |ids| ensures s[i].id == ids[i] && s[i].lsn == offset + i * step {
        assert s[i] == Stamp(ids[1..], images, offset + step, step)[i - 1];
        assert offset + step + (i - 1) * step == offset + i * step;
      }
    }
  }

  /** Stamped pages are distinct and are exactly the pages given. */
  lemma StampedPages(images: seq<Image>, offset: nat, step: nat)
    ensures var s := Stamp(SortedIds(IdsOf(images)), images, offset, step);
            && DistinctPages(s)
            && (forall p {:trigger p in s} ::
                  p in s ==> p.id in IdsOf(images) && offset <= p.lsn <= offset + |s| * step)
            && (forall id :: id in IdsOf(images) ==> exists p :: p in s && p.id == id)
            && (images != [] ==> s != [])
  {
    hide Stamp, SortedIds, IdsOf;
    var ids := SortedIds(IdsOf(images));
    var s := Stamp(ids, images, offset, step);
    StampShape(ids, images, offset, step);
    forall p | p in s ensures p.id in IdsOf(images) && offset <= p.lsn <= offset + |s| * step {
      var i :| 0 <= i < |s| && s[i] == p;
      assert ids[i] in ids;
      ScaledBelow(i, |s|, step);
    }
    forall id | id in IdsOf(images) ensures exists p :: p in s && p.id == id {
      assert id in ids;
      var i :| 0 <= i < |ids| && ids[i] == id;
      assert s[i] in s;
    }
    if images != [] {
      assert images[0].0 in IdsOf(images) by { FirstId(images); }
    }
  }

  lemma FirstId(images: seq<Image>)
    requires images != []
    ensures images[0].0 in IdsOf(images)
  {
  }

  lemma ScaledBelow(i: nat, n: nat, step: nat)
    requires i <= n
    ensures 0 <= i * step <= n * step
  {
  }

  /** What the pager checks before logging makes the group fit. */
  lemma GroupOfFits(wal: Wal, b: Superblock, hash: Hash, next: PageId, root: Option<PageId>, images: seq<Image>)
    requires 2 <= b.nextPageId <= next && forall i :: i in IdsOf(images) ==> 2 <= i < next
    ensures var g := GroupOf(wal, b.appliedIndex + 1, hash, next, root, images);
            GroupFits(wal, b, g) && g.applyIndex == b.appliedIndex + 1 && g.stateHash == hash && g.nextPageId == next
              && g.root == root
  {
    hide Stamp;
    StampedPages(images, wal.end + BEGIN_FRAME, PAGE_FRAME);
  }

  lemma SnapshotPagesFit(b: Superblock, index: nat, images: seq<Image>, next: PageId, root: PageId)
    requires b.appliedIndex < index && 2 <= b.nextPageId < next && images != []
    requires forall i :: i in IdsOf(images) ==> b.nextPageId <= i < next
    requires root in IdsOf(images)
    ensures SnapshotFits(b, index, SnapshotPages(images), next, root)
  {
    hide Stamp;
    StampedPages(images, 0, 0);
  }

  // ---------------------------------------------------------------- what is stored

  /** The page holds exactly these bytes. */
  predicate HasBody(s: Sectors, id: PageId, body: Bytes) {
    id in s && s[id].Data? && s[id].page.id == id && s[id].page.body == body
  }

  /** Every image is in its page, and every other data page is as it was. */
  ghost predicate Supplied(before: Sectors, after: Sectors, images: seq<Image>) {
    && (forall x {:trigger x in images} :: x in images ==> HasBody(after, x.0, x.1))
    && forall id {:trigger Content(after, id)} :: id >= 2 && id !in IdsOf(images) ==>
         Content(after, id) == Content(before, id)
  }

  /** The database the caller asked for. */
  ghost predicate IsNewState(d: Database, before: Sectors, index: nat, hash: Hash, next: PageId, root: Option<PageId>,
                             images: seq<Image>) {
    && d.appliedIndex == index && d.stateHash == hash && d.nextPageId == next && d.root == root
    && (forall x {:trigger x in images} :: x in images ==> HasBody(d.pages, x.0, x.1))
    && forall id {:trigger Content(d.pages, id)} :: 2 <= id < next && id !in IdsOf(images) ==>
         Content(d.pages, id) == Content(before, id)
  }

  /** Images name distinct pages when there are as many pages as images. */
  lemma {:induction false} DistinctImages(images: seq<Image>, i: nat, j: nat)
    requires |IdsOf(images)| == |images| && i < j < |images|
    ensures images[i].0 != images[j].0
    decreases |images|
  {
    if images[i].0 == images[j].0 {
      var rest := images[..i] + images[i + 1..];
      assert IdsOf(rest) == IdsOf(images) by {
        forall x | x in images ensures exists y :: y in rest && y.0 == x.0 {
          var k :| 0 <= k < |images| && images[k] == x;
          assert k < i ==> rest[k] == x;
          assert k > i ==> rest[k - 1] == x;
          assert rest[j - 1] == images[j];
        }
        assert forall x :: x in rest ==> x in images;
      }
      FewIds(rest);
      assert false;
    }
  }

  lemma {:induction false} FewIds(images: seq<Image>)
    ensures |IdsOf(images)| <= |images|
    decreases |images|
  {
    if images == [] {
      assert IdsOf(images) == {};
    } else {
      var rest := images[1..];
      FewIds(rest);
      assert IdsOf(images) == {images[0].0} + IdsOf(rest) by {
        assert forall x :: x in images <==> x == images[0] || x in rest;
      }
    }
  }

  lemma {:induction false} BodyFound(images: seq<Image>, i: nat)
    requires i < |images| && forall j :: 0 <= j < i ==> images[j].0 != images[i].0
    ensures BodyOf(images, images[i].0) == images[i].1
    decreases |images|
  {
    if i > 0 {
      assert forall j :: 0 <= j < i - 1 ==> images[1..][j] == images[j + 1];
      BodyFound(images[1..], i - 1);
    }
  }

  lemma {:induction false} StampBodies(ids: seq<PageId>, images: seq<Image>, offset: nat, step: nat, p: DataPage)
    requires p in Stamp(ids, images, offset, step)
    ensures p.body == BodyOf(images, p.id)
    decreases |ids|
  {
    if p != Stamp(ids, images, offset, step)[0] {
      StampBodies(ids[1..], images, offset + step, step, p);
    }
  }

  /** Writing stamped images puts every image in its page and touches no other. */
  lemma StampedSupplied(before: Sectors, images: seq<Image>, offset: nat, step: nat)
    requires |IdsOf(images)| == |images|
    ensures Supplied(before, Overwrite(before, Stamp(SortedIds(IdsOf(images)), images, offset, step)), images)
  {
    hide Stamp, Overwrite, BodyOf, IdsOf;
    var pages := Stamp(SortedIds(IdsOf(images)), images, offset, step);
    var after := Overwrite(before, pages);
    StampedPages(images, offset, step);
    forall x | x in images ensures HasBody(after, x.0, x.1) {
      var i :| 0 <= i < |images| && images[i] == x;
      assert x.0 in IdsOf(images) by { ImageId(images, x); }
      var p :| p in pages && p.id == x.0;
      StampBodies(SortedIds(IdsOf(images)), images, offset, step, p);
      forall j | 0 <= j < i ensures images[j].0 != images[i].0 {
        DistinctImages(images, j, i);
      }
      BodyFound(images, i);
      OverwriteContent(before, pages, x.0);
    }
    forall id | id >= 2 && id !in IdsOf(images) ensures Content(after, id) == Content(before, id) {
      OverwriteContent(before, pages, id);
    }
  }

  lemma ImageId(images: seq<Image>, x: Image)
    requires x in images
    ensures x.0 in IdsOf(images)
  {
  }

  /** Publishing touches superblocks only. */
  lemma SuppliedPublished(before: Sectors, after: Sectors, images: seq<Image>, b: Superblock)
    requires Supplied(before, after, images) && b.slot <= 1 && forall i :: i in IdsOf(images) ==> i >= 2
    ensures Supplied(before, after[b.slot := Super(b)], images)
  {
    hide IdsOf;
    forall x | x in images ensures HasBody(after[b.slot := Super(b)], x.0, x.1) {
      ImageId(images, x);
    }
    forall id | id >= 2 && id !in IdsOf(images)
      ensures Content(after[b.slot := Super(b)], id) == Content(before, id) {
      assert Content(after, id) == Content(before, id);
    }
  }

  lemma SuppliedIsNew(before: Sectors, after: Sectors, images: seq<Image>, b: Superblock, index: nat, hash: Hash,
                      next: PageId, root: Option<PageId>)
    requires Supplied(before, after, images) && forall i :: i in IdsOf(images) ==> 2 <= i < next
    ensures IsNewState(View(after, Publish(b, index, hash, 0, next, root)), before, index, hash, next, root, images)
  {
    hide IdsOf;
    var d := View(after, Publish(b, index, hash, 0, next, root));
    forall x | x in images ensures HasBody(d.pages, x.0, x.1) {
      ImageId(images, x);
    }
    forall id | 2 <= id < next && id !in IdsOf(images) ensures Content(d.pages, id) == Content(before, id) {
      assert Content(after, id) == Content(before, id);
    }
  }

  /** Crash atomicity of an apply, in the caller's terms: reopening finds the database as it
      was if nothing was logged, and otherwise the one the caller asked for. */
  lemma AppliedOrNot(s: Sectors, wal: Wal, b: Superblock, hash: Hash, images: seq<Image>, next: PageId,
                     root: Option<PageId>, k: nat, after: Sectors)
    requires Established(s, wal, b) && 2 <= b.nextPageId <= next && |IdsOf(images)| == |images|
    requires forall i :: i in IdsOf(images) ==> 2 <= i < next
    requires var g := GroupOf(wal, b.appliedIndex + 1, hash, next, root, images);
             k <= |ApplyIo(s, b, g)| && Crashed(DoAll(Machine(s, [], wal), ApplyIo(s, b, g)[..k]), after)
    ensures var g := GroupOf(wal, b.appliedIndex + 1, hash, next, root, images);
            var r := Recover(after, DoAll(Machine(s, [], wal), ApplyIo(s, b, g)[..k]).wal);
            && r.Ok?
            && var d := View(r.value.sectors, r.value.superblock);
               if k == 0 then d == View(s, b)
               else IsNewState(d, s, b.appliedIndex + 1, hash, next, root, images)
  {
    hide Established, View, Overwrite, ApplyIo, Recover, Crashed, DoAll, Stamp, IdsOf, IsNewState, Supplied;
    var g := GroupOf(wal, b.appliedIndex + 1, hash, next, root, images);
    GroupOfFits(wal, b, hash, next, root, images);
    ApplyIsAtomic(s, wal, b, g, k, after);
    StampedSupplied(s, images, wal.end + BEGIN_FRAME, PAGE_FRAME);
    SuppliedIsNew(s, Overwrite(s, g.pages), images, b, b.appliedIndex + 1, hash, next, root);
  }

  /** The same for a snapshot install. */
  lemma InstalledOrNot(s: Sectors, wal: Wal, b: Superblock, index: nat, hash: Hash, images: seq<Image>, next: PageId,
                       root: PageId, k: nat, after: Sectors)
    requires Established(s, wal, b) && b.appliedIndex < index && 2 <= b.nextPageId < next && images != []
    requires |IdsOf(images)| == |images| && root in IdsOf(images)
    requires forall i :: i in IdsOf(images) ==> b.nextPageId <= i < next
    requires var ios := InstallIo(b, index, hash, SnapshotPages(images), next, root);
             k <= |ios| && Crashed(DoAll(Machine(s, [], wal), ios[..k]), after)
    ensures var r := Recover(after, wal);
            && r.Ok?
            && var d := View(r.value.sectors, r.value.superblock);
               && (d == View(s, b) || IsNewState(d, s, index, hash, next, Some(root), images))
               && (k <= |images| + 1 ==> d == View(s, b))
               && (k == |images| + 3 ==> IsNewState(d, s, index, hash, next, Some(root), images))
  {
    hide Established, View, Overwrite, InstallIo, Recover, Crashed, DoAll, Stamp, IdsOf, IsNewState, Supplied,
         SnapshotFits;
    var pages := SnapshotPages(images);
    SnapshotPagesFit(b, index, images, next, root);
    InstallIsAtomic(s, wal, b, index, hash, pages, next, root, k, after);
    StampShape(SortedIds(IdsOf(images)), images, 0, 0);
    SortedLength(IdsOf(images));
    StampedSupplied(s, images, 0, 0);
    SuppliedIsNew(s, Overwrite(s, pages), images, b, index, hash, next, Some(root));
  }

  lemma {:induction false} SortedLength(ids: set<PageId>)
    ensures |SortedIds(ids)| == |ids|
    decreases |ids|
  {
    if ids != {} {
      SortedLength(ids - {LeastId(ids)});
    }
  }

  // ------------------------------------------------------------------- the media

  /** A disk of pages and an append-only log. */
  class Media {
    var sectors: Sectors
    var wal: Wal
    ghost var trace: seq<Io>

    constructor (sectors: Sectors, wal: Wal)
      ensures this.sectors == sectors && this.wal == wal && trace == []
    {
      this.sectors, this.wal, trace := sectors, wal, [];
    }

    method Write(id: PageId, sector: Sector)
      modifies this
      ensures sectors == old(sectors)[id := sector] && wal == old(wal) && trace == old(trace) + [WritePage(id, sector)]
    {
      sectors := sectors[id := sector];
      trace := trace + [WritePage(id, sector)];
    }

    method Flush()
      modifies this
      ensures sectors == old(sectors) && wal == old(wal) && trace == old(trace) + [Sync]
    {
      trace := trace + [Sync];
    }

    method Append(group: Group)
      modifies this
      ensures sectors == old(sectors) && trace == old(trace) + [AppendGroup(group)]
      ensures wal == old(wal).(groups := old(wal).groups + [group], end := group.endLsn)
    {
      wal := wal.(groups := wal.groups + [group], end := group.endLsn);
      trace := trace + [AppendGroup(group)];
    }

    method Mark(checkpoint: Checkpoint)
      modifies this
      ensures sectors == old(sectors) && trace == old(trace) + [AppendCheckpoint(checkpoint)]
      ensures wal == old(wal).(checkpoints := old(wal).checkpoints + [checkpoint], end := checkpoint.endLsn)
    {
      wal := wal.(checkpoints := wal.checkpoints + [checkpoint], end := checkpoint.endLsn);
      trace := trace + [AppendCheckpoint(checkpoint)];
    }

    /** Images newer than what is on disk are written; torn pages are repaired. */
    method ReplayGroup(images: seq<DataPage>) returns (error: Option<StorageError>)
      modifies this
      ensures wal == old(wal)
      ensures match Replay(old(sectors), images)
              case Ok(t) => error == None && sectors == t && trace == old(trace) + ReplayIo(old(sectors), images)
              case Err(e) => error == Some(e)
    {
      var i := 0;
      ghost var start := sectors;
      assert images[0..] == images;
      while i < |images|
        invariant 0 <= i <= |images| && wal == old(wal)
        invariant Replay(sectors, images[i..]) == Replay(start, images)
        invariant trace + ReplayIo(sectors, images[i..]) == old(trace) + ReplayIo(start, images)
      {
        assert images[i..][1..] == images[i + 1..];
        var image := images[i];
        if MisplacedAt(sectors, image.id) {
          return Some(Misplaced(image.id));
        }
        if !Current(sectors, image) {
          Write(image.id, Data(image));
        }
        i := i + 1;
      }
      return None;
    }

    method PublishSuperblock(previous: Superblock, index: nat, hash: Hash, checkpoint: nat, next: PageId,
                             root: Option<PageId>)
      returns (b: Superblock)
      modifies this
      ensures b == Publish(previous, index, hash, checkpoint, next, root) && wal == old(wal)
      ensures sectors == old(sectors)[b.slot := Super(b)] && trace == old(trace) + PublishIo(b)
    {
      b := Superblock(if previous.slot == 0 then 1 else 0, previous.generation + 1, index, hash, checkpoint, next,
                      root);
      Write(b.slot, Super(b));
      Flush();
    }

    /** Replay every group the superblock has not seen, publishing after each. */
    method RecoverGroups(current: Superblock) returns (r: Result<(Superblock, nat), StorageError>)
      modifies this
      ensures wal == old(wal)
      ensures match ReplayGroups(old(sectors), current, old(wal).groups, 0)
              case Ok(out) =>
                && r == Ok((out.superblock, out.replayed)) && sectors == out.sectors
                && trace == old(trace) + RecoverIo(old(sectors), current, old(wal).groups)
              case Err(e) => r == Err(e)
    {
      hide Replay, ReplayIo;
      var state, replayed, i := current, 0, 0;
      ghost var start := sectors;
      assert wal.groups[0..] == wal.groups;
      while i < |wal.groups|
        invariant 0 <= i <= |wal.groups| && wal == old(wal)
        invariant ReplayGroups(sectors, state, wal.groups[i..], replayed) == ReplayGroups(start, current, wal.groups, 0)
        invariant trace + RecoverIo(sectors, state, wal.groups[i..])
                  == old(trace) + RecoverIo(start, current, wal.groups)
      {
        assert wal.groups[i..][1..] == wal.groups[i + 1..];
        var group := wal.groups[i];
        if group.applyIndex == state.appliedIndex && group.stateHash != state.stateHash {
          return Err(HashConflict(group.applyIndex));
        }
        if group.applyIndex > state.appliedIndex {
          if state.appliedIndex != 0 && group.applyIndex != state.appliedIndex + 1 {
            return Err(ApplyGap(state.appliedIndex, group.applyIndex));
          }
          var error := ReplayGroup(group.pages);
          if error.Some? {
            return Err(error.value);
          }
          Flush();
          state := PublishSuperblock(state, group.applyIndex, group.stateHash, state.checkpointLsn, group.nextPageId,
                                     group.root);
          replayed := replayed + 1;
        }
        i := i + 1;
      }
      return Ok((state, replayed));
    }

    method RecoverDisk() returns (r: Result<(Superblock, nat), StorageError>)
      modifies this
      ensures wal == old(wal)
      ensures match Recover(old(sectors), old(wal))
              case Ok(out) =>
                && r == Ok((out.superblock, out.replayed)) && sectors == out.sectors
                && trace == old(trace) + RecoverIo(old(sectors), Starting(old(sectors)).value, old(wal).groups)
              case Err(e) => r == Err(e)
    {
      hide ReplayGroups, CheckMarker, ReadSuperblock, RecoverIo;
      var found := ReadSuperblock(sectors);
      if found.Err? {
        return Err(found.error);
      }
      var current := if found.value.Some? then found.value.value else GENESIS;
      var bad := CheckMarker(current, wal);
      if bad.Some? {
        return Err(bad.value);
      }
      r := RecoverGroups(current);
    }
  }

  // ------------------------------------------------------------------- the pager

  datatype PagerError = OverwritesSuperblock | DuplicateDisagrees | NotLogged | OutOfOrder | BadAllocation
                      | CheckpointMismatch | Storage(error: StorageError)

  class Pager {
    const media: Media
    var state: Superblock

    ghost predicate Valid()
      reads this, media
    {
      Established(media.sectors, media.wal, state) && state.nextPageId >= 2 && LogSound(media.wal)
    }

    constructor (media: Media, state: Superblock)
      ensures this.media == media && this.state == state
    {
      this.media, this.state := media, state;
    }

    predicate ApplyRefuses(index: nat, images: seq<Image>, next: PageId, root: Option<PageId>)
      reads this
    {
      || (exists i :: i in IdsOf(images) && i < 2)
      || index != state.appliedIndex + 1
      || next < state.nextPageId || (exists i :: i in IdsOf(images) && i >= next)
      || |IdsOf(images)| != |images| || (root.Some? && root.value >= next)
    }

    /** Log, write, sync, publish; an older checkpoint marker is dropped. */
    method Apply(index: nat, hash: Hash, images: seq<Image>, next: PageId, root: Option<PageId>)
      returns (r: Result<Group, PagerError>)
      requires Valid()
      modifies this, media
      ensures Valid()
      ensures old(ApplyRefuses(index, images, next, root)) ==>
                unchanged(this) && unchanged(media)
                  && (r.Ok? ==> index == state.appliedIndex && hash == state.stateHash && r.value in media.wal.groups)
      ensures !old(ApplyRefuses(index, images, next, root)) ==>
                var g := GroupOf(old(media.wal), index, hash, next, root, images);
                && r == Ok(g) && state == Publish(old(state), index, hash, 0, next, root)
                && state.appliedIndex == index && state.stateHash == hash && state.nextPageId == next
                && state.root == root && Supplied(old(media.sectors), media.sectors, images)
                && media.trace == old(media.trace) + ApplyIo(old(media.sectors), old(state), g)
                && View(media.sectors, state) == View(Overwrite(old(media.sectors), g.pages), state)
    {
      hide Established, View, Overwrite, ApplyIo, Stamp, Supplied;
      if exists i :: i in IdsOf(images) && i < 2 {
        return Err(OverwritesSuperblock);
      }
      if index == state.appliedIndex {
        if hash != state.stateHash {
          return Err(DuplicateDisagrees);
        }
        r := FindGroup(index);
        return;
      }
      if index != state.appliedIndex + 1 {
        return Err(OutOfOrder);
      }
      if next < state.nextPageId || exists i :: i in IdsOf(images) && i >= next {
        return Err(BadAllocation);
      }
      if |IdsOf(images)| != |images| || (root.Some? && root.value >= next) {
        return Err(BadAllocation);
      }
      var group := GroupOf(media.wal, index, hash, next, root, images);
      GroupOfFits(media.wal, state, hash, next, root, images);
      StampedSupplied(media.sectors, images, media.wal.end + BEGIN_FRAME, PAGE_FRAME);
      assert state.slot <= 1 by { EstablishedFacts(media.sectors, media.wal, state); }
      ghost var before, after := media.sectors, Overwrite(media.sectors, group.pages);
      Commit(group);
      SuppliedPublished(before, after, images, state);
      return Ok(group);
    }

    method Commit(group: Group)
      requires Valid() && GroupFits(media.wal, state, group)
      modifies this, media
      ensures Valid() && state
              == Publish(old(state), group.applyIndex, group.stateHash, 0, group.nextPageId, group.root)
      ensures media.trace == old(media.trace) + ApplyIo(old(media.sectors), old(state), group)
      ensures media.sectors == Overwrite(old(media.sectors), group.pages)[state.slot := Super(state)]
      ensures View(media.sectors, state) == View(Overwrite(old(media.sectors), group.pages), state)
    {
      hide Established, Replay, ReplayIo, View, Overwrite, GroupFits, LogSound;
      EstablishedFacts(media.sectors, media.wal, state);
      LogGrows(media.wal, state, group);
      Applying(media.sectors, media.wal, state, group);
      FitsBound(media.wal, state, group);
      media.Append(group);
      var error := media.ReplayGroup(group.pages);
      media.Flush();
      state := media.PublishSuperblock(state, group.applyIndex, group.stateHash, 0, group.nextPageId, group.root);
    }

    method FindGroup(index: nat) returns (r: Result<Group, PagerError>)
      ensures r.Ok? ==> r.value in media.wal.groups && r.value.applyIndex == index
      ensures r.Err? <==> forall g :: g in media.wal.groups ==> g.applyIndex != index
    {
      var i := 0;
      while i < |media.wal.groups|
        invariant 0 <= i <= |media.wal.groups|
        invariant forall j :: 0 <= j < i ==> media.wal.groups[j].applyIndex != index
      {
        if media.wal.groups[i].applyIndex == index {
          return Ok(media.wal.groups[i]);
        }
        i := i + 1;
      }
      return Err(NotLogged);
    }

    predicate InstallRefuses(index: nat, images: seq<Image>, next: PageId, root: PageId)
      reads this
    {
      || index <= state.appliedIndex
      || next <= state.nextPageId || images == []
      || (exists i :: i in IdsOf(images) && (i < state.nextPageId || i >= next))
      || root !in IdsOf(images) || |IdsOf(images)| != |images|
    }

    /** Copy-on-write pages first, then the one publication that makes them reachable. */
    method InstallSnapshot(index: nat, hash: Hash, images: seq<Image>, next: PageId, root: PageId)
      returns (error: Option<PagerError>)
      requires Valid()
      modifies this, media
      ensures Valid()
      ensures old(InstallRefuses(index, images, next, root)) ==>
                && unchanged(this) && unchanged(media)
                && (error.None? <==> index == state.appliedIndex && hash == state.stateHash && state.root == Some(root))
      ensures !old(InstallRefuses(index, images, next, root)) ==>
                var pages := SnapshotPages(images);
                && error.None? && state == Publish(old(state), index, hash, 0, next, Some(root))
                && state.appliedIndex == index && state.stateHash == hash && state.nextPageId == next
                && state.root == Some(root) && Supplied(old(media.sectors), media.sectors, images)
                && media.trace == old(media.trace) + InstallIo(old(state), index, hash, pages, next, root)
                && View(media.sectors, state) == View(Overwrite(old(media.sectors), pages), state)
    {
      hide Established, View, Overwrite, InstallIo, Stamp, Supplied;
      if index == state.appliedIndex {
        if hash != state.stateHash || state.root != Some(root) {
          return Some(DuplicateDisagrees);
        }
        return None;
      }
      if index < state.appliedIndex {
        return Some(OutOfOrder);
      }
      if next <= state.nextPageId || images == []
        || (exists i :: i in IdsOf(images) && (i < state.nextPageId || i >= next))
         || root !in IdsOf(images)
      {
        return Some(BadAllocation);
      }
      if |IdsOf(images)| != |images| {
        return Some(BadAllocation);
      }
      SnapshotPagesFit(state, index, images, next, root);
      StampedSupplied(media.sectors, images, 0, 0);
      assert state.slot <= 1 by { EstablishedFacts(media.sectors, media.wal, state); }
      ghost var before, after := media.sectors, Overwrite(media.sectors, SnapshotPages(images));
      Replace(index, hash, SnapshotPages(images), next, root);
      SuppliedPublished(before, after, images, state);
      return None;
    }

    method Replace(index: nat, hash: Hash, pages: seq<DataPage>, next: PageId, root: PageId)
      requires Valid() && SnapshotFits(state, index, pages, next, root)
      modifies this, media
      ensures Valid() && state == Publish(old(state), index, hash, 0, next, Some(root))
      ensures media.trace == old(media.trace) + InstallIo(old(state), index, hash, pages, next, root)
      ensures media.sectors == Overwrite(old(media.sectors), pages)[state.slot := Super(state)]
      ensures View(media.sectors, state) == View(Overwrite(old(media.sectors), pages), state)
    {
      hide Established, View, Overwrite, SnapshotFits;
      ghost var start, before := media.sectors, media.trace;
      Installing(start, media.wal, state, index, hash, pages, next, root);
      assert next >= 2 by { SnapshotBound(state, index, pages, next, root); }
      var i := 0;
      assert pages[0..] == pages && FreshIo(pages[..0]) == [];
      while i < |pages|
        invariant 0 <= i <= |pages| && state == old(state) && media.wal == old(media.wal)
        invariant Overwrite(media.sectors, pages[i..]) == Overwrite(start, pages)
        invariant media.trace == before + FreshIo(pages[..i])
      {
        OverwriteStep(media.sectors, pages[i..]);
        assert pages[i..][1..] == pages[i + 1..];
        assert FreshIo(pages[..i + 1]) == FreshIo(pages[..i]) + [WritePage(pages[i].id, Data(pages[i]))];
        media.Write(pages[i].id, Data(pages[i]));
        i := i + 1;
      }
      OverwriteNothing(media.sectors);
      assert pages[i..] == [] && pages[..i] == pages;
      media.Flush();
      state := media.PublishSuperblock(state, index, hash, 0, next, Some(root));
    }

    /** Bind a marker in the log to the current state; refused when the log's last group is
        not that state's. */
    method Checkpoint() returns (r: Result<Checkpoint, PagerError>)
      requires Valid()
      modifies this, media
      ensures Valid() && media.sectors.Keys >= old(media.sectors).Keys
      ensures r.Err? <==> var gs := old(media.wal.groups); gs != []
                                                           && (gs[|gs| - 1].applyIndex != old(state.appliedIndex)
                                                               || gs[|gs| - 1].stateHash != old(state.stateHash))
      ensures r.Err? ==> unchanged(this) && media.wal == old(media.wal) && media.sectors == old(media.sectors)
      ensures r.Ok? ==>
                && r.value.appliedIndex == state.appliedIndex && r.value.stateHash == state.stateHash
                   && r.value in media.wal.checkpoints
                && media.trace == old(media.trace) + CheckpointIo(old(state), r.value)
                   && state.checkpointLsn == r.value.endLsn
                && View(media.sectors, state) == View(old(media.sectors), old(state))
    {
      hide Established, View, LogSound;
      media.Flush();
      var gs := media.wal.groups;
      if gs != [] && (gs[|gs| - 1].applyIndex != state.appliedIndex || gs[|gs| - 1].stateHash != state.stateHash) {
        return Err(CheckpointMismatch);
      }
      var marker := Recovery.Checkpoint(state.appliedIndex, state.stateHash, media.wal.end + CHECKPOINT_FRAME);
      CheckpointEstablished(media.sectors, media.wal, state, marker);
      LogMarked(media.wal, marker);
      media.Mark(marker);
      state := media.PublishSuperblock(state, state.appliedIndex, state.stateHash, marker.endLsn, state.nextPageId,
                                       state.root);
      return Ok(marker);
    }

    /** Recover, and establish both superblock slots on a new disk.  The pager is fit for
        use exactly when the superblock recovery ends on still passes its marker check. */
    static method Open(media: Media) returns (r: Result<Pager, StorageError>)
      requires Openable(media.sectors, media.wal)
      modifies media
      ensures r.Ok? <==> Recover(old(media.sectors), old(media.wal)).Ok?
      ensures r.Err? ==> Recover(old(media.sectors), old(media.wal)) == Err(r.error)
      ensures r.Ok? ==>
                var out := Recover(old(media.sectors), old(media.wal)).value;
                && r.value.media == media && media.wal == old(media.wal)
                && View(media.sectors, r.value.state) == View(out.sectors, out.superblock)
                && (r.value.Valid() <==> out.replayed == 0 || Starting(old(media.sectors)).value.checkpointLsn == 0)
                && media.trace == old(media.trace)
                   + RecoverIo(old(media.sectors), Starting(old(media.sectors)).value, media.wal.groups)
                                  + (if ReadSuperblock(old(media.sectors))
                                     == Ok(None) then EstablishIo(out.superblock) else [])
    {
      hide Established, View, Recover, ReadSuperblock, Starting, NewestIs, LogSound, Placed, RecoverIo;
      var found := ReadSuperblock(media.sectors);
      ghost var start := media.sectors;
      var out := media.RecoverDisk();
      if out.Err? {
        return Err(out.error);
      }
      var state := out.value.0;
      Recovering(start, media.wal);
      OpenedExactly(media.sectors, media.wal, state);
      if found == Ok(None) {
        NewDisk(media.sectors, media.wal, state);
        media.Write(state.slot, Super(state));
        media.Flush();
        state := media.PublishSuperblock(state, state.appliedIndex, state.stateHash, state.checkpointLsn,
                                         state.nextPageId, state.root);
      }
      var pager := new Pager(media, state);
      return Ok(pager);
    }
  }

  // ------------------------------------------------------------ keeping it established

  lemma OverwriteStep(s: Sectors, images: seq<DataPage>)
    requires images != []
    ensures Overwrite(s, images) == Overwrite(s[images[0].id := Data(images[0])], images[1..])
  {
  }

  lemma OverwriteNothing(s: Sectors)
    ensures Overwrite(s, []) == s
  {
  }

  lemma FitsBound(wal: Wal, b: Superblock, g: Group)
    requires GroupFits(wal, b, g)
    ensures g.nextPageId >= 2
  {
  }

  lemma SnapshotBound(b: Superblock, index: nat, pages: seq<DataPage>, next: PageId, root: PageId)
    requires SnapshotFits(b, index, pages, next, root)
    ensures next >= 2
  {
  }

  /** Overwriting placed pages with placed pages. */
  lemma OverwritePlaced(s: Sectors, end: nat, images: seq<DataPage>, later: nat)
    requires Placed(s, end) && end <= later && DistinctPages(images)
    requires forall p {:trigger p in images} :: p in images ==> p.id >= 2 && p.lsn <= later
    ensures Placed(Overwrite(s, images), later)
  {
    var u := Overwrite(s, images);
    forall i {:trigger i in u} | i in u && i >= 2 ensures !u[i].Super?
      && (u[i].Data? ==> u[i].page.id == i && u[i].page.lsn <= later) {
      OverwriteContent(s, images, i);
      assert Content(u, i) == Some(u[i]);
      if p :| p in images && p.id == i {
        assert u[i] == Data(p);
      } else {
        assert Content(s, i) == Some(u[i]);
      }
    }
  }

  lemma PublishPlaced(s: Sectors, end: nat, b: Superblock)
    requires Placed(s, end) && b.slot <= 1
    ensures Placed(s[b.slot := Super(b)], end)
  {
  }

  /** Publishing over pages that leave the superblocks alone. */
  lemma PublishEstablished(s: Sectors, wal: Wal, b: Superblock, u: Sectors, longer: Wal, next: Superblock)
    requires Established(s, wal, b) && Follows(b, next)
    requires Content(u, b.slot) == Content(s, b.slot) && Placed(u, longer.end)
    requires CheckMarker(next, longer).None? && Behind(longer.groups, next) && MarksEnd(longer)
    ensures Established(u[next.slot := Super(next)], longer, next)
            && View(u[next.slot := Super(next)], next) == View(u, next)
  {
    hide View, CheckMarker, Behind, MarksEnd;
    var t := u[next.slot := Super(next)];
    assert Content(t, b.slot) == Content(s, b.slot);
    assert InSlot(t, b.slot) == InSlot(s, b.slot) && InSlot(t, next.slot) == Some(next);
    PublishPlaced(u, longer.end, next);
    SameView(t, u, next, next);
  }

  /** An applied group keeps the database established. */
  lemma Applying(s: Sectors, wal: Wal, b: Superblock, g: Group)
    requires Established(s, wal, b) && GroupFits(wal, b, g)
    ensures Replay(s, g.pages) == Ok(Overwrite(s, g.pages))
    ensures var next := Publish(b, g.applyIndex, g.stateHash, 0, g.nextPageId, g.root);
            var t := Overwrite(s, g.pages)[next.slot := Super(next)];
            && Established(t, wal.(groups := wal.groups + [g], end := g.endLsn), next)
            && View(t, next) == View(Overwrite(s, g.pages), next)
  {
    hide View, CheckMarker, Overwrite, Established, Replay, Behind;
    EstablishedFacts(s, wal, b);
    var next := Publish(b, g.applyIndex, g.stateHash, 0, g.nextPageId, g.root);
    var longer := wal.(groups := wal.groups + [g], end := g.endLsn);
    ReplayOverwrites(s, g.pages);
    NoMarker(next, longer);
    BehindNext(wal.groups, b, g, next);
    OverwriteContent(s, g.pages, b.slot);
    OverwritePlaced(s, wal.end, g.pages, g.endLsn);
    PublishEstablished(s, wal, b, Overwrite(s, g.pages), longer, next);
  }

  lemma Installing(s: Sectors, wal: Wal, b: Superblock, index: nat, hash: Hash, pages: seq<DataPage>,
                   nextPage: PageId, root: PageId)
    requires Established(s, wal, b) && SnapshotFits(b, index, pages, nextPage, root)
    ensures var next := Publish(b, index, hash, 0, nextPage, Some(root));
            var t := Overwrite(s, pages)[next.slot := Super(next)];
            && Established(t, wal, next) && View(t, next) == View(Overwrite(s, pages), next)
  {
    hide View, CheckMarker, Overwrite, Established;
    EstablishedFacts(s, wal, b);
    var next := Publish(b, index, hash, 0, nextPage, Some(root));
    NoMarker(next, wal);
    OverwriteContent(s, pages, b.slot);
    OverwritePlaced(s, wal.end, pages, wal.end);
    PublishEstablished(s, wal, b, Overwrite(s, pages), wal, next);
  }

  lemma CheckpointEstablished(s: Sectors, wal: Wal, b: Superblock, c: Checkpoint)
    requires Established(s, wal, b) && b.nextPageId >= 2
    requires wal.end < c.endLsn && c.appliedIndex == b.appliedIndex && c.stateHash == b.stateHash
    ensures var next := Publish(b, b.appliedIndex, b.stateHash, c.endLsn, b.nextPageId, b.root);
            var t := s[next.slot := Super(next)];
            && Established(t, wal.(checkpoints := wal.checkpoints + [c], end := c.endLsn), next)
               && View(t, next) == View(s, b)
  {
    hide View, CheckMarker, Established;
    EstablishedFacts(s, wal, b);
    var next := Publish(b, b.appliedIndex, b.stateHash, c.endLsn, b.nextPageId, b.root);
    Marking(b, wal, c);
    PublishEstablished(s, wal, b, s, wal.(checkpoints := wal.checkpoints + [c], end := c.endLsn), next);
    SameView(s, s, next, b);
  }

  // --------------------------------------------------------------------- opening

  lemma {:induction false} ReplayPlaced(s: Sectors, images: seq<DataPage>, end: nat)
    requires Placed(s, end) && Replay(s, images).Ok? && forall p {:trigger p in images} ::
               p in images ==> p.id >= 2 && p.lsn <= end
    ensures Placed(Replay(s, images).value, end)
    decreases |images|
  {
    if images != [] {
      assert images[0] in images;
      assert forall p :: p in images[1..] ==> p in images;
      ReplayPlaced(if Current(s, images[0]) then s else s[images[0].id := Data(images[0])], images[1..], end);
    }
  }

  lemma {:induction false} GroupsPlaced(s: Sectors, b: Superblock, groups: seq<Group>, n: nat, end: nat)
    requires Placed(s, end) && b.slot <= 1 && ReplayGroups(s, b, groups, n).Ok?
    requires forall g {:trigger g in groups} :: g in groups ==> GroupSound(g, end)
    ensures Placed(ReplayGroups(s, b, groups, n).value.sectors, end)
    decreases |groups|
  {
    hide Placed;
    if groups != [] {
      var g, rest := groups[0], groups[1..];
      assert g in groups;
      assert forall h :: h in rest ==> h in groups;
      if g.applyIndex <= b.appliedIndex {
        GroupsPlaced(s, b, rest, n, end);
      } else {
        ReplayPlaced(s, g.pages, end);
        var next := Publish(b, g.applyIndex, g.stateHash, b.checkpointLsn, g.nextPageId, g.root);
        PublishPlaced(Replay(s, g.pages).value, end, next);
        GroupsPlaced(Replay(s, g.pages).value[next.slot := Super(next)], next, rest, n + 1, end);
      }
    }
  }

  /** Where recovery ends. */
  lemma Recovering(s: Sectors, wal: Wal)
    requires Recover(s, wal).Ok? && LogSound(wal) && Placed(s, wal.end) && SlotsDiffer(s)
    ensures var r := Recover(s, wal).value;
            && NewestIs(r.sectors, r.superblock) && Behind(wal.groups, r.superblock) && Placed(r.sectors, wal.end)
               && MarksEnd(wal)
            && (CheckMarker(r.superblock, wal).None? <==> r.replayed == 0 || Starting(s).value.checkpointLsn == 0)
            && (ReadSuperblock(s) == Ok(None) ==> Starting(s).value == GENESIS && r.superblock.checkpointLsn == 0)
            && (ReadSuperblock(s) != Ok(None) ==> InSlot(r.sectors, r.superblock.slot) == Some(r.superblock))
  {
    hide ReplayGroups, Placed;
    var b, r := Starting(s).value, Recover(s, wal).value;
    assert NewestIs(s, b);
    ReplayEnds(s, b, wal.groups, 0);
    GroupsPlaced(s, b, wal.groups, 0, wal.end);
    ReopenExactly(s, wal);
    NothingToReplay(r.sectors, r.superblock, wal.groups, 0);
    assert Starting(r.sectors) == Ok(r.superblock);
  }

  lemma OpenedExactly(s: Sectors, wal: Wal, b: Superblock)
    requires NewestIs(s, b) && Behind(wal.groups, b) && Placed(s, wal.end) && MarksEnd(wal)
    ensures InSlot(s, b.slot) == Some(b) ==> (Established(s, wal, b) <==> CheckMarker(b, wal).None?)
    ensures b.nextPageId >= 2
  {
  }

  /** Writing a superblock into its own slot and then publishing a copy of it. */
  lemma NewDisk(s: Sectors, wal: Wal, b: Superblock)
    requires NewestIs(s, b) && Behind(wal.groups, b) && Placed(s, wal.end) && MarksEnd(wal) && b.checkpointLsn == 0
    ensures var next := Publish(b, b.appliedIndex, b.stateHash, b.checkpointLsn, b.nextPageId, b.root);
            var t := s[b.slot := Super(b)];
            var u := t[next.slot := Super(next)];
            Established(u, wal, next) && View(u, next) == View(s, b)
  {
    hide View, Placed, Behind, CheckMarker;
    var next := Publish(b, b.appliedIndex, b.stateHash, b.checkpointLsn, b.nextPageId, b.root);
    var t := s[b.slot := Super(b)];
    NoMarker(b, wal);
    NoMarker(next, wal);
    PublishPlaced(s, wal.end, b);
    assert Behind(wal.groups, next) by { SameLevel(wal.groups, b, next); }
    assert InSlot(t, Other(b.slot)) == InSlot(s, Other(b.slot));
    PublishEstablished(t, wal, b, t, wal, next);
    SameView(t, s, next, b);
  }

  lemma SameLevel(groups: seq<Group>, b: Superblock, next: Superblock)
    requires Behind(groups, b) && next.appliedIndex == b.appliedIndex && next.stateHash == b.stateHash
    ensures Behind(groups, next)
  {
  }
}
