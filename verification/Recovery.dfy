/** The durable pager: full-page redo groups in a log, alternating superblocks, and a
    disk whose unsynced page writes may be lost or torn. */
module Recovery {
  import opened Wrappers
  import opened Ordering

  type PageId = nat
  type Hash = Bytes

  // ---------------------------------------------------------------- disk and log

  datatype DataPage = DataPage(id: PageId, lsn: nat, body: Bytes)

  datatype Superblock = Superblock(
    slot: nat, generation: nat, appliedIndex: nat, stateHash: Hash, checkpointLsn: nat,
    nextPageId: PageId, root: Option<PageId>)

  /** What a page read finds: a checksummed superblock or page, or neither. */
  datatype Sector = Torn | Super(superblock: Superblock) | Data(page: DataPage)

  type Sectors = map<PageId, Sector>

  datatype Group = Group(
    applyIndex: nat, stateHash: Hash, nextPageId: PageId, root: Option<PageId>, pages: seq<DataPage>, endLsn: nat)

  datatype Checkpoint = Checkpoint(appliedIndex: nat, stateHash: Hash, endLsn: nat)

  /** The verified log: committed groups and checkpoint markers, and where it ends. */
  datatype Wal = Wal(groups: seq<Group>, checkpoints: seq<Checkpoint>, end: nat)

  datatype StorageError = NoValidSuperblock | CheckpointBeyondEnd | MissingCheckpoint | CheckpointDisagrees
                        | HashConflict(index: nat) | ApplyGap(durable: nat, next: nat) | Misplaced(id: PageId)

  // ------------------------------------------------------------------ superblocks

  const GENESIS := Superblock(0, 1, 0, [], 0, 2, None)

  /** The superblock a slot holds, if it is that slot's. */
  function InSlot(s: Sectors, slot: nat): Option<Superblock> {
    if slot in s && s[slot].Super? && s[slot].superblock.slot == slot && s[slot].superblock.nextPageId >= 2
    then Some(s[slot].superblock) else None
  }

  /** The valid superblock of the highest generation; slot 1 wins a tie. */
  function ReadSuperblock(s: Sectors): Result<Option<Superblock>, StorageError> {
    var a, b := InSlot(s, 0), InSlot(s, 1);
    if a.Some? && b.Some? then Ok(if a.value.generation > b.value.generation then a else b)
    else if a.Some? then Ok(a)
    else if b.Some? then Ok(b)
    else if 0 in s || 1 in s then Err(NoValidSuperblock)
    else Ok(None)
  }

  function Publish(previous: Superblock, index: nat, hash: Hash, checkpoint: nat, next: PageId,
                   root: Option<PageId>): Superblock {
    Superblock(if previous.slot == 0 then 1 else 0, previous.generation + 1, index, hash, checkpoint, next, root)
  }

  // --------------------------------------------------------------------- recovery

  predicate Current(s: Sectors, image: DataPage) {
    image.id in s && s[image.id].Data? && s[image.id].page.lsn >= image.lsn
  }

  predicate MisplacedAt(s: Sectors, id: PageId) {
    id in s && ((s[id].Data? && s[id].page.id != id) || s[id].Super?)
  }

  /** Write every image that is newer than what its page holds; repair torn pages. */
  function Replay(s: Sectors, images: seq<DataPage>): Result<Sectors, StorageError>
    decreases |images|
  {
    if images == [] then Ok(s)
    else if MisplacedAt(s, images[0].id) then Err(Misplaced(images[0].id))
    else Replay(if Current(s, images[0]) then s else s[images[0].id := Data(images[0])], images[1..])
  }

  datatype Recovered = Recovered(sectors: Sectors, superblock: Superblock, replayed: nat)

  function ReplayGroups(s: Sectors, state: Superblock, groups: seq<Group>, replayed: nat): Result<Recovered,
    StorageError>
    decreases |groups|
  {
    if groups == [] then Ok(Recovered(s, state, replayed))
    else
      var g := groups[0];
      if g.applyIndex < state.appliedIndex then ReplayGroups(s, state, groups[1..], replayed)
      else if g.applyIndex == state.appliedIndex then
        if g.stateHash != state.stateHash then Err(HashConflict(g.applyIndex))
          else ReplayGroups(s, state, groups[1..], replayed)
      else if state.appliedIndex != 0 && g.applyIndex != state.appliedIndex
        + 1 then Err(ApplyGap(state.appliedIndex, g.applyIndex))
      else
        match Replay(s, g.pages)
        case Err(e) => Err(e)
        case Ok(t) =>
          var next := Publish(state, g.applyIndex, g.stateHash, state.checkpointLsn, g.nextPageId, g.root);
          ReplayGroups(t[next.slot := Super(next)], next, groups[1..], replayed + 1)
  }

  function FindCheckpoint(cs: seq<Checkpoint>, lsn: nat): Option<Checkpoint> {
    if cs == [] then None else if cs[0].endLsn == lsn then Some(cs[0]) else FindCheckpoint(cs[1..], lsn)
  }

  /** The marker a superblock names must exist and be bound to the same state. */
  function CheckMarker(current: Superblock, wal: Wal): Option<StorageError> {
    if current.checkpointLsn > wal.end then Some(CheckpointBeyondEnd)
    else if current.checkpointLsn == 0 then None
    else
      match FindCheckpoint(wal.checkpoints, current.checkpointLsn)
      case None => Some(MissingCheckpoint)
      case Some(c) =>
        if c.appliedIndex != current.appliedIndex || c.stateHash != current.stateHash then Some(CheckpointDisagrees)
          else None
  }

  function Starting(s: Sectors): Result<Superblock, StorageError> {
    match ReadSuperblock(s)
    case Err(e) => Err(e)
    case Ok(found) => Ok(if found.Some? then found.value else GENESIS)
  }

  function Recover(s: Sectors, wal: Wal): Result<Recovered, StorageError> {
    match Starting(s)
    case Err(e) => Err(e)
    case Ok(current) =>
      match CheckMarker(current, wal)
      case Some(e) => Err(e)
      case None => ReplayGroups(s, current, wal.groups, 0)
  }

  // ------------------------------------------------------------- what is visible

  /** The database a superblock makes reachable. */
  datatype Database = Database(appliedIndex: nat, stateHash: Hash, nextPageId: PageId, root: Option<PageId>,
                               pages: Sectors)

  function View(s: Sectors, b: Superblock): Database {
    Database(b.appliedIndex, b.stateHash, b.nextPageId, b.root, map i | i in s && 2 <= i < b.nextPageId :: s[i])
  }

  // ------------------------------------------------------------------ operations

  datatype Io = AppendGroup(group: Group) | AppendCheckpoint(checkpoint: Checkpoint) | WritePage(id: PageId,
        sector: Sector) | Sync

  function ReplayIo(s: Sectors, images: seq<DataPage>): seq<Io>
    decreases |images|
  {
    if images == [] then []
    else if Current(s, images[0]) then ReplayIo(s, images[1..])
    else [WritePage(images[0].id, Data(images[0]))] + ReplayIo(s[images[0].id := Data(images[0])], images[1..])
  }

  function PublishIo(b: Superblock): seq<Io> {
    [WritePage(b.slot, Super(b)), Sync]
  }

  /** Log the group, write its pages, sync, publish: the order `apply` does them in. */
  function ApplyIo(s: Sectors, state: Superblock, g: Group): seq<Io> {
    [AppendGroup(g)] + ReplayIo(s, g.pages) + [Sync]
      + PublishIo(Publish(state, g.applyIndex, g.stateHash, 0, g.nextPageId, g.root))
  }

  /** What recovery itself does to the disk: for each group it replays, write the stale
      pages, sync, publish. */
  function RecoverIo(s: Sectors, state: Superblock, groups: seq<Group>): seq<Io>
    decreases |groups|
  {
    if groups == [] then []
    else
      var g := groups[0];
      if g.applyIndex <= state.appliedIndex then RecoverIo(s, state, groups[1..])
      else
        match Replay(s, g.pages)
        case Err(_) => []
        case Ok(t) =>
          var next := Publish(state, g.applyIndex, g.stateHash, state.checkpointLsn, g.nextPageId, g.root);
          ReplayIo(s, g.pages) + [Sync] + PublishIo(next) + RecoverIo(t[next.slot := Super(next)], next, groups[1..])
  }

  /** What opening does to a disk without superblocks, after recovery. */
  function EstablishIo(b: Superblock): seq<Io> {
    [WritePage(b.slot, Super(b)), Sync]
      + PublishIo(Publish(b, b.appliedIndex, b.stateHash, b.checkpointLsn, b.nextPageId, b.root))
  }

  function FreshIo(pages: seq<DataPage>): seq<Io> {
    seq(|pages|, i requires 0 <= i < |pages| => WritePage(pages[i].id, Data(pages[i])))
  }

  function InstallIo(state: Superblock, index: nat, hash: Hash, pages: seq<DataPage>, next: PageId,
                     root: PageId): seq<Io> {
    FreshIo(pages) + [Sync] + PublishIo(Publish(state, index, hash, 0, next, Some(root)))
  }

  /** The database with a group's images in place. */
  function Overwrite(s: Sectors, images: seq<DataPage>): Sectors
    decreases |images|
  {
    if images == [] then s else Overwrite(s[images[0].id := Data(images[0])], images[1..])
  }

  // --------------------------------------------------------------------- crashes

  /** Durable sectors, writes since the last sync, and the log. */
  datatype Machine = Machine(durable: Sectors, pending: seq<(PageId, Sector)>, wal: Wal)

  function Settle(s: Sectors, pending: seq<(PageId, Sector)>): Sectors
    decreases |pending|
  {
    if pending == [] then s else Settle(s[pending[0].0 := pending[0].1], pending[1..])
  }

  function Do(m: Machine, io: Io): Machine {
    match io
    case AppendGroup(g) => m.(wal := m.wal.(groups := m.wal.groups + [g], end := g.endLsn))
    case AppendCheckpoint(c) => m.(wal := m.wal.(checkpoints := m.wal.checkpoints + [c], end := c.endLsn))
    case WritePage(id, sector) => m.(pending := m.pending + [(id, sector)])
    case Sync => m.(durable := Settle(m.durable, m.pending), pending := [])
  }

  function DoAll(m: Machine, ios: seq<Io>): Machine
    decreases |ios|
  {
    if ios == [] then m else DoAll(Do(m, ios[0]), ios[1..])
  }

  function Content(s: Sectors, id: PageId): Option<Sector> {
    if id in s then Some(s[id]) else None
  }

  /** One page after a crash: as synced, or as some unsynced write left it, or torn by one. */
  ghost predicate Survives(m: Machine, after: Sectors, id: PageId) {
    || Content(after, id) == Content(m.durable, id)
    || (exists w :: w in m.pending && w.0 == id && Content(after, id) in {Some(Torn), Some(w.1)})
  }

  ghost predicate Crashed(m: Machine, after: Sectors) {
    forall id {:trigger Survives(m, after, id)} :: Survives(m, after, id)
  }
}
