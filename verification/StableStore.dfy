/** The durable consensus store: it validates every mutation before publishing
    it, and installs a received snapshot through a durable intent. */
module StableStore {
  import opened Wrappers
  import opened RaftTypes
  import opened RaftLog
  import RaftNode

  datatype StoreError = Corruption

  type Stored = Result<StableState, StoreError>

  // ------------------------------------------------------------------ queries

  function BaseIndex(s: StableState): nat {
    if s.snapshot.Some? then s.snapshot.value.metadata.lastIncludedIndex else 0
  }

  function BaseTerm(s: StableState): nat {
    if s.snapshot.Some? then s.snapshot.value.metadata.lastIncludedTerm else 0
  }

  function LastIndex(s: StableState): nat {
    if s.entries == [] then BaseIndex(s) else s.entries[|s.entries| - 1].index
  }

  function TermAt(s: StableState, index: nat): Option<nat> {
    if index == BaseIndex(s) && index != 0 then Some(BaseTerm(s))
    else if index <= BaseIndex(s) || index - BaseIndex(s) - 1 >= |s.entries| then None
    else Some(s.entries[index - BaseIndex(s) - 1].term)
  }

  function SuffixAfter(s: StableState, index: nat): Option<seq<LogEntry>> {
    if index < BaseIndex(s) || index > LastIndex(s) || index - BaseIndex(s) > |s.entries| then None
    else Some(s.entries[index - BaseIndex(s)..])
  }

  // --------------------------------------------------------------- validators

  predicate MonotonicHardState(current: HardState, next: HardState) {
    && current.currentTerm <= next.currentTerm && current.commitIndex <= next.commitIndex
    && (next.currentTerm == current.currentTerm && current.votedFor.Some? ==> next.votedFor == current.votedFor)
  }

  predicate ValidHardState(s: StableState, next: HardState) {
    MonotonicHardState(s.hardState, next) && next.commitIndex <= LastIndex(s)
  }

  predicate ValidSequence(entries: seq<LogEntry>, expected: nat, previousTerm: nat)
    decreases |entries|
  {
    entries == [] ||
    (&& entries[0].index == expected && previousTerm <= entries[0].term
     && ValidSequence(entries[1..], expected + 1, entries[0].term))
  }

  predicate ValidEntrySequence(s: StableState, entries: seq<LogEntry>) {
    ValidSequence(entries, LastIndex(s) + 1, if s.entries == [] then BaseTerm(s) else s.entries[|s.entries| - 1].term)
  }

  predicate ValidSnapshot(snapshot: PersistentSnapshot) {
    && snapshot.Validate() && 0 < |snapshot.data| <= RaftNode.MAX_SNAPSHOT_BYTES
    && snapshot.metadata.lastIncludedIndex != 0
  }

  predicate ValidIndexes(s: StableState) {
    && (s.snapshot.Some? ==> ValidSnapshot(s.snapshot.value))
    && BaseIndex(s) <= s.appliedIndex <= s.hardState.commitIndex <= LastIndex(s)
    && (s.entries != [] ==> s.entries[0].index == BaseIndex(s) + 1)
    && ValidSequence(s.entries, BaseIndex(s) + 1, BaseTerm(s))
  }

  // ---------------------------------------------------------------- mutations

  function Publish(s: StableState): Stored {
    if ValidIndexes(s) then Ok(s) else Err(Corruption)
  }

  function PersistMutation(s: StableState, m: StorageMutation): Stored {
    match m
    case SetHardState(hs) =>
      if ValidHardState(s, hs) then Publish(s.(hardState := hs)) else Err(Corruption)
    case Append(entries) =>
      if (entries != [] ==> entries[0].index == LastIndex(s) + 1) && ValidEntrySequence(s, entries)
      then Publish(s.(entries := s.entries + entries)) else Err(Corruption)
    case TruncateAndAppend(from, entries) =>
      if from <= s.hardState.commitIndex || from <= BaseIndex(s)
        || from - BaseIndex(s) - 1 > |s.entries| then Err(Corruption)
      else
        var kept := s.(entries := s.entries[..from - BaseIndex(s) - 1]);
        if (entries != [] ==> entries[0].index == from) && ValidEntrySequence(kept, entries)
        then Publish(kept.(entries := kept.entries + entries)) else Err(Corruption)
    case CompactSnapshot(snapshot, retained) =>
      var index := snapshot.metadata.lastIncludedIndex;
      if && ValidSnapshot(snapshot) && index <= s.appliedIndex
         && TermAt(s, index) == Some(snapshot.metadata.lastIncludedTerm)
         && SuffixAfter(s, index) == Some(retained)
      then Publish(s.(snapshot := Some(snapshot), entries := retained)) else Err(Corruption)
    case InstallReceived(_, _, _) => Err(Corruption)
  }

  function MarkAppliedTo(s: StableState, index: nat): Stored {
    if index == s.appliedIndex then Ok(s)
    else if index != s.appliedIndex + 1 || index > s.hardState.commitIndex then Err(Corruption)
    else Publish(s.(appliedIndex := index))
  }

  // ------------------------------------------------------- snapshot installation

  datatype Intent = Intent(snapshot: PersistentSnapshot, retained: seq<LogEntry>, hardState: HardState) {
    function Desired(): StableState {
      StableState(hardState, Some(snapshot), retained, snapshot.metadata.lastIncludedIndex)
    }
  }

  predicate ValidIntent(s: StableState, i: Intent) {
    var index := i.snapshot.metadata.lastIncludedIndex;
    && ValidSnapshot(i.snapshot)
    && MonotonicHardState(s.hardState, i.hardState)
    && ValidIndexes(i.Desired())
    && i.retained == (if TermAt(s, index) == Some(i.snapshot.metadata.lastIncludedTerm) && SuffixAfter(s, index).Some?
                      then SuffixAfter(s, index).value else [])
    && index > s.appliedIndex
  }

  /** Begin, then complete: the only durable outcomes are the old and the desired state. */
  function InstallTo(s: StableState, i: Intent): Stored {
    if ValidIntent(s, i) then Publish(i.Desired()) else Err(Corruption)
  }

  // ------------------------------------------------------------------ execution

  /** The durable effect of one action. */
  function Execute(s: StableState, a: Action): Stored {
    match a
    case Persist(m) =>
      if m.InstallReceived? then InstallTo(s, Intent(m.snapshot, m.retainedEntries, m.hardState))
        else PersistMutation(s, m)
    case Apply(entry) => MarkAppliedTo(s, entry.index)
    case _ => Ok(s)
  }

  function ExecuteAll(s: StableState, actions: seq<Action>): Stored
    decreases |actions|
  {
    if actions == [] then Ok(s)
    else
      match Execute(s, actions[0])
      case Err(e) => Err(e)
      case Ok(t) => ExecuteAll(t, actions[1..])
  }

  lemma {:induction false} ExecuteConcat(s: StableState, a: seq<Action>, b: seq<Action>)
    requires ExecuteAll(s, a).Ok?
    ensures ExecuteAll(s, a + b) == ExecuteAll(ExecuteAll(s, a).value, b)
    decreases |a|
  {
    if a == [] {
      assert a + b == b;
    } else {
      assert (a + b)[1..] == a[1..] + b;
      ExecuteConcat(Execute(s, a[0]).value, a[1..], b);
    }
  }

  // ------------------------------------------------------------------ the store

  /** What survives a crash: the published state and, perhaps, an install intent. */
  datatype Files = Files(state: StableState, intent: Option<Intent>)

  class StableStore {
    var state: StableState
    var pendingInstall: Option<Intent>

    /** What the files have held, publication by publication: where a crash can land. */
    ghost var disks: seq<Files>

    function OnDisk(): Files
      reads this
    {
      Files(state, pendingInstall)
    }

    constructor Open(files: Files)
      ensures OnDisk() == files && disks == [files]
    {
      state := files.state;
      pendingInstall := files.intent;
      disks := [files];
    }

    method Persist(m: StorageMutation) returns (ok: bool)
      modifies this
      ensures ok <==> PersistMutation(old(state), m).Ok?
      ensures OnDisk() == if ok then Files(PersistMutation(old(state), m).value, old(pendingInstall)) else old(OnDisk())
      ensures disks == old(disks) + if ok then [OnDisk()] else []
    {
      var next := state;
      match m {
        case SetHardState(hs) =>
          if !ValidHardState(next, hs) { return false; }
          next := next.(hardState := hs);
        case Append(entries) =>
          if (entries != [] && entries[0].index != LastIndex(next) + 1)
            || !ValidEntrySequence(next, entries) { return false; }
          next := next.(entries := next.entries + entries);
        case TruncateAndAppend(from, entries) =>
          var base := BaseIndex(next);
          if from <= next.hardState.commitIndex || from <= base || from - base - 1 > |next.entries| { return false; }
          next := next.(entries := next.entries[..from - base - 1]);
          if (entries != [] && entries[0].index != from) || !ValidEntrySequence(next, entries) { return false; }
          next := next.(entries := next.entries + entries);
        case CompactSnapshot(snapshot, retained) =>
          var index := snapshot.metadata.lastIncludedIndex;
          if !ValidSnapshot(snapshot) || index > next.appliedIndex { return false; }
          if TermAt(next, index) != Some(snapshot.metadata.lastIncludedTerm)
            || SuffixAfter(next, index) != Some(retained) { return false; }
          next := next.(snapshot := Some(snapshot), entries := retained);
        case InstallReceived(_, _, _) =>
          return false;
      }
      if !ValidIndexes(next) { return false; }
      state := next;
      disks := disks + [OnDisk()];
      ok := true;
    }

    method BeginSnapshotInstall(intent: Intent) returns (ok: bool)
      modifies this
      ensures ok <==> ValidIntent(old(state), intent) && old(pendingInstall) in {None, Some(intent)}
      ensures OnDisk() == if ok then Files(old(state), Some(intent)) else old(OnDisk())
      ensures disks == old(disks) + if ok && old(pendingInstall).None? then [Files(old(state), Some(intent))] else []
    {
      if !ValidIntent(state, intent) { return false; }
      match pendingInstall {
        case Some(existing) =>
          return existing == intent;
        case None =>
          pendingInstall := Some(intent);
          disks := disks + [OnDisk()];
          return true;
      }
    }

    method CompleteSnapshotInstall() returns (ok: bool)
      modifies this
      ensures ok <==> old(pendingInstall).Some? && ValidIndexes(old(pendingInstall).value.Desired())
      ensures OnDisk() == if ok then Files(old(pendingInstall).value.Desired(), None) else old(OnDisk())
      ensures !ok ==> disks == old(disks)
      ensures ok ==>
                var desired := old(pendingInstall).value.Desired();
                disks == old(disks) + (if old(state) != desired then [Files(desired, old(pendingInstall))] else [])
                  + [Files(desired, None)]
    {
      if pendingInstall.None? { return false; }
      var desired := pendingInstall.value.Desired();
      if !ValidIndexes(desired) { return false; }
      if state != desired {
        state := desired;
        disks := disks + [OnDisk()];
      }
      pendingInstall := None;
      disks := disks + [OnDisk()];
      ok := true;
    }

    /** A received snapshot: make the intent durable, then carry it out.  From the intent on,
        a crash at any publication reopens to the installed state; before it, to the old one. */
    method InstallReceivedSnapshot(intent: Intent) returns (ok: bool)
      modifies this
      ensures ok <==> InstallTo(old(state), intent).Ok? && old(pendingInstall) in {None, Some(intent)}
      ensures OnDisk() == if ok then Files(InstallTo(old(state), intent).value, None) else old(OnDisk())
      ensures old(disks) <= disks && (!ok ==> disks == old(disks))
      ensures forall f {:trigger Reopen(f)} :: f in disks[|old(disks)|..] ==> Reopen(f) == InstallTo(old(state), intent)
      ensures old(pendingInstall).None? ==> Reopen(old(OnDisk())) == Ok(old(state))
    {
      ok := BeginSnapshotInstall(intent);
      if ok {
        ok := CompleteSnapshotInstall();
      }
    }

    method MarkApplied(index: nat) returns (ok: bool)
      modifies this
      ensures ok <==> MarkAppliedTo(old(state), index).Ok?
      ensures OnDisk() == if ok then Files(MarkAppliedTo(old(state), index).value, old(pendingInstall))
              else old(OnDisk())
      ensures disks == old(disks) + if ok && index != old(state).appliedIndex then [OnDisk()] else []
    {
      if index == state.appliedIndex { return true; }
      if index != state.appliedIndex + 1 || index > state.hardState.commitIndex { return false; }
      var next := state.(appliedIndex := index);
      if !ValidIndexes(next) { return false; }
      state := next;
      disks := disks + [OnDisk()];
      ok := true;
    }
  }

  /** Reopening finishes whatever intent the crash left behind. */
  function Reopen(f: Files): Stored {
    match f.intent
    case None => Ok(f.state)
    case Some(i) => Publish(i.Desired())
  }
}
