/** What the durable store never does, whatever it is asked to, and what a restart accepts. */
module StoreSafety {
  import opened Wrappers
  import opened RaftTypes
  import opened RaftLog
  import opened RaftNode
  import opened StableStore

  // ---------------------------------------------------------------- what is well formed

  /** Entries are numbered on from the base, and their terms start no lower and never fall. */
  predicate Numbered(entries: seq<LogEntry>, base: nat, baseTerm: nat) {
    && (forall i {:trigger entries[i]} :: 0 <= i < |entries| ==>
          entries[i].index == base + 1 + i && entries[i].term >= baseTerm)
    && (forall i, j {:trigger entries[i], entries[j]} ::
          0 <= i < j < |entries| ==> entries[i].term <= entries[j].term)
  }

  predicate Capped(entries: seq<LogEntry>, top: nat) {
    forall i {:trigger entries[i]} :: 0 <= i < |entries| ==> entries[i].term <= top
  }

  lemma {:induction false} SequenceExactly(entries: seq<LogEntry>, base: nat, baseTerm: nat)
    ensures ValidSequence(entries, base + 1, baseTerm) <==> Numbered(entries, base, baseTerm)
    decreases |entries|
  {
    if entries != [] {
      var rest := entries[1..];
      SequenceExactly(rest, base + 1, entries[0].term);
      NumberedFirst(entries, base, baseTerm);
    }
  }

  lemma NumberedFirst(entries: seq<LogEntry>, base: nat, baseTerm: nat)
    requires entries != []
    ensures Numbered(entries, base, baseTerm)
            <==> entries[0].index == base + 1 && entries[0].term >= baseTerm
                 && Numbered(entries[1..], base + 1, entries[0].term)
  {
    var rest := entries[1..];
    assert forall i :: 0 <= i < |rest| ==> rest[i] == entries[i + 1];
    if Numbered(entries, base, baseTerm) {
      forall i | 0 <= i < |rest| ensures rest[i].index == base + 2 + i && rest[i].term >= entries[0].term {
        assert rest[i] == entries[i + 1];
      }
    }
    if entries[0].index == base + 1 && entries[0].term >= baseTerm && Numbered(rest, base + 1, entries[0].term) {
      forall i | 0 <= i < |entries| ensures entries[i].index == base + 1 + i && entries[i].term >= baseTerm {
        assert i > 0 ==> entries[i] == rest[i - 1];
      }
      forall i, j | 0 <= i < j < |entries| ensures entries[i].term <= entries[j].term {
        assert entries[j] == rest[j - 1] && (i > 0 ==> entries[i] == rest[i - 1]);
      }
    }
  }

  lemma {:induction false} RecoverableExactly(entries: seq<LogEntry>, base: nat, baseTerm: nat, top: nat)
    ensures EntriesRecoverable(entries, base + 1, baseTerm, top)
            <==> Numbered(entries, base, baseTerm) && Capped(entries, top)
    decreases |entries|
  {
    if entries != [] {
      var rest := entries[1..];
      RecoverableExactly(rest, base + 1, entries[0].term, top);
      NumberedFirst(entries, base, baseTerm);
      assert forall i :: 0 <= i < |rest| ==> rest[i] == entries[i + 1];
      if Capped(rest, top) && entries[0].term <= top {
        forall i | 0 <= i < |entries| ensures entries[i].term <= top {
          assert i > 0 ==> entries[i] == rest[i - 1];
        }
      }
    }
  }

  /** A restart is accepted exactly by a participant, from a snapshot of this cluster that
      checks, entries numbered on from it with terms that never fall nor pass the current
      one, and indexes in order; and it resumes as a follower with exactly that. */
  lemma RestartExactly(id: NodeId, cfg: Configuration, s: StableState)
    ensures var log := LogView.New(s.snapshot, s.entries);
            Recover(id, cfg, s).Ok? <==>
              && id in cfg.participants
              && (s.snapshot.Some? ==> s.snapshot.value.Validate() && s.snapshot.value.metadata.configuration == cfg)
              && Numbered(s.entries, log.baseIndex, log.baseTerm) && Capped(s.entries, s.hardState.currentTerm)
              && log.baseIndex <= s.appliedIndex <= s.hardState.commitIndex <= log.baseIndex + |s.entries|
    ensures Recover(id, cfg, s).Ok? ==>
              var n := Recover(id, cfg, s).value;
              && n.id == id && n.configuration == cfg && n.Stable() == s && n.role == Follower
              && n.leaderId.None? && n.votes == {} && n.pendingReads == map[] && n.incomingSnapshot.None?
  {
    hide EntriesRecoverable, PersistentSnapshot.Validate, Capped;
    var log := LogView.New(s.snapshot, s.entries);
    RecoverableExactly(s.entries, log.baseIndex, log.baseTerm, s.hardState.currentTerm);
    if Numbered(s.entries, log.baseIndex, log.baseTerm) {
      assert log.LastIndex() == log.baseIndex + |s.entries|;
    }
  }

  // --------------------------------------------------------------- what is never lost

  function EntryAt(s: StableState, i: nat): Option<LogEntry> {
    if BaseIndex(s) < i <= BaseIndex(s) + |s.entries| then Some(s.entries[i - BaseIndex(s) - 1]) else None
  }

  /** Terms, commit and applied indexes never fall, a vote stands for its term, and what was
      committed is still there unless a snapshot has taken its place. */
  predicate Remembers(s: StableState, t: StableState) {
    && s.hardState.currentTerm <= t.hardState.currentTerm && s.hardState.commitIndex <= t.hardState.commitIndex
    && (s.hardState.currentTerm == t.hardState.currentTerm && s.hardState.votedFor.Some? ==>
          t.hardState.votedFor == s.hardState.votedFor)
    && s.appliedIndex <= t.appliedIndex && BaseIndex(s) <= BaseIndex(t) <= t.appliedIndex
    && forall i {:trigger EntryAt(t, i)} ::
         BaseIndex(t) < i <= s.hardState.commitIndex ==> EntryAt(t, i) == EntryAt(s, i)
  }

  lemma RemembersOn(s: StableState, t: StableState, u: StableState)
    requires Remembers(s, t) && Remembers(t, u)
    ensures Remembers(s, u)
  {
    forall i | BaseIndex(u) < i <= s.hardState.commitIndex ensures EntryAt(u, i) == EntryAt(s, i) {
      assert EntryAt(u, i) == EntryAt(t, i) && EntryAt(t, i) == EntryAt(s, i);
    }
  }

  lemma LastOfValid(s: StableState)
    requires ValidIndexes(s)
    ensures LastIndex(s) == BaseIndex(s) + |s.entries|
    ensures BaseIndex(s) <= s.appliedIndex <= s.hardState.commitIndex <= BaseIndex(s) + |s.entries|
  {
    hide ValidSequence, ValidSnapshot;
    SequenceExactly(s.entries, BaseIndex(s), BaseTerm(s));
  }

  /** One publication: what it must keep is checked against the entries alone. */
  lemma PublishedRemembers(s: StableState, t: StableState)
    requires ValidIndexes(s) && ValidIndexes(t) && MonotonicHardState(s.hardState, t.hardState)
    requires s.appliedIndex <= t.appliedIndex && BaseIndex(s) <= BaseIndex(t)
    requires forall i :: BaseIndex(t) < i <= s.hardState.commitIndex ==> EntryAt(t, i) == EntryAt(s, i)
    ensures Remembers(s, t)
  {
    hide ValidSequence, ValidSnapshot, EntryAt;
  }

  lemma TruncateKeeps(s: StableState, t: StableState, from: nat, more: seq<LogEntry>)
    requires ValidIndexes(s) && from > s.hardState.commitIndex && from > BaseIndex(s)
    requires from - BaseIndex(s) - 1 <= |s.entries| && t == s.(entries := s.entries[..from - BaseIndex(s) - 1] + more)
    ensures forall i :: BaseIndex(t) < i <= s.hardState.commitIndex ==> EntryAt(t, i) == EntryAt(s, i)
  {
    hide ValidIndexes;
    LastOfValid(s);
    var keep := from - BaseIndex(s) - 1;
    forall i | BaseIndex(t) < i <= s.hardState.commitIndex ensures EntryAt(t, i) == EntryAt(s, i) {
      assert t.entries[i - BaseIndex(s) - 1] == s.entries[..keep][i - BaseIndex(s) - 1];
    }
  }

  lemma SuffixKeeps(s: StableState, t: StableState, index: nat)
    requires ValidIndexes(s) && BaseIndex(t) == index && SuffixAfter(s, index) == Some(t.entries)
    ensures forall i :: BaseIndex(t) < i <= s.hardState.commitIndex ==> EntryAt(t, i) == EntryAt(s, i)
  {
    hide ValidIndexes;
    LastOfValid(s);
  }

  lemma PersistRemembers(s: StableState, m: StorageMutation)
    requires ValidIndexes(s) && PersistMutation(s, m).Ok?
    ensures ValidIndexes(PersistMutation(s, m).value) && Remembers(s, PersistMutation(s, m).value)
  {
    hide ValidIndexes, ValidSequence, ValidSnapshot, Remembers, EntryAt, LastIndex, TermAt,
         SuffixAfter;
    var t := PersistMutation(s, m).value;
    LastOfValid(s);
    match m {
      case SetHardState(_) =>
        SameEntries(s, t);
      case Append(entries) =>
        GrownEntries(s, t, entries);
      case TruncateAndAppend(from, entries) =>
        TruncateKeeps(s, t, from, entries);
      case CompactSnapshot(snapshot, _) =>
        SuffixKeeps(s, t, snapshot.metadata.lastIncludedIndex);
        SuffixBase(s, snapshot.metadata.lastIncludedIndex);
    }
    PublishedRemembers(s, t);
  }

  lemma SuffixBase(s: StableState, index: nat)
    requires SuffixAfter(s, index).Some?
    ensures BaseIndex(s) <= index
  {
  }

  lemma SameEntries(s: StableState, t: StableState)
    requires t.entries == s.entries && t.snapshot == s.snapshot
    ensures forall i :: EntryAt(t, i) == EntryAt(s, i)
  {
  }

  lemma GrownEntries(s: StableState, t: StableState, more: seq<LogEntry>)
    requires ValidIndexes(s) && t.entries == s.entries + more && t.snapshot == s.snapshot
    ensures forall i :: BaseIndex(t) < i <= s.hardState.commitIndex ==> EntryAt(t, i) == EntryAt(s, i)
  {
    hide ValidIndexes;
    LastOfValid(s);
  }

  lemma InstallRemembers(s: StableState, i: Intent)
    requires ValidIndexes(s) && InstallTo(s, i).Ok?
    ensures ValidIndexes(InstallTo(s, i).value) && Remembers(s, InstallTo(s, i).value)
  {
    hide ValidIndexes, ValidSequence, ValidSnapshot, Remembers, EntryAt, LastIndex, TermAt, SuffixAfter;
    var t, index := i.Desired(), i.snapshot.metadata.lastIncludedIndex;
    LastOfValid(s);
    LastOfValid(t);
    if SuffixAfter(s, index) == Some(t.entries) {
      SuffixKeeps(s, t, index);
    }
    PublishedRemembers(s, t);
  }

  lemma ExecuteRemembers(s: StableState, a: Action)
    requires ValidIndexes(s) && Execute(s, a).Ok?
    ensures ValidIndexes(Execute(s, a).value) && Remembers(s, Execute(s, a).value)
  {
    hide ValidIndexes, PersistMutation, InstallTo, Remembers, EntryAt;
    var t := Execute(s, a).value;
    if a.Persist? {
      if a.mutation.InstallReceived? {
        InstallRemembers(s, Intent(a.mutation.snapshot, a.mutation.retainedEntries, a.mutation.hardState));
      } else {
        PersistRemembers(s, a.mutation);
      }
    } else {
      SameEntries(s, t);
      PublishedRemembers(s, t);
    }
  }

  /** The store never forgets: whatever list of actions it executes, terms, votes, commit and
      applied indexes and committed entries stand, and what it publishes is well formed. */
  lemma {:induction false} StoreRemembers(s: StableState, actions: seq<Action>)
    requires ValidIndexes(s) && ExecuteAll(s, actions).Ok?
    ensures ValidIndexes(ExecuteAll(s, actions).value) && Remembers(s, ExecuteAll(s, actions).value)
    decreases |actions|
  {
    hide ValidIndexes, Remembers, Execute;
    if actions == [] {
      RemembersItself(s);
    } else {
      ExecuteRemembers(s, actions[0]);
      var t := Execute(s, actions[0]).value;
      StoreRemembers(t, actions[1..]);
      RemembersOn(s, t, ExecuteAll(s, actions).value);
    }
  }

  lemma RemembersItself(s: StableState)
    requires ValidIndexes(s)
    ensures Remembers(s, s)
  {
    hide ValidSequence, ValidSnapshot;
  }
}
