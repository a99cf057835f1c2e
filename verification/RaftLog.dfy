/** The in-memory replicated log behind a compaction boundary. */
module RaftLog {
  import opened Wrappers
  import opened RaftTypes

  /** The value of a log: everything through `baseIndex` is compacted away. */
  datatype LogView = LogView(baseIndex: nat, baseTerm: nat, entries: seq<LogEntry>) {
    static function New(snapshot: Option<PersistentSnapshot>, entries: seq<LogEntry>): LogView {
      match snapshot
      case None => LogView(0, 0, entries)
      case Some(s) => LogView(s.metadata.lastIncludedIndex, s.metadata.lastIncludedTerm, entries)
    }

    function LastIndex(): nat {
      if entries == [] then baseIndex else entries[|entries| - 1].index
    }

    function LastTerm(): nat {
      if entries == [] then baseTerm else entries[|entries| - 1].term
    }

    function Term(index: nat): Option<nat> {
      if index == baseIndex then Some(baseTerm)
      else if index < baseIndex || index - baseIndex - 1 >= |entries| then None
      else Some(entries[index - baseIndex - 1].term)
    }

    function Entry(index: nat): Option<LogEntry> {
      if index <= baseIndex || index - baseIndex - 1 >= |entries| then None
      else Some(entries[index - baseIndex - 1])
    }

    function EntriesAfter(index: nat): seq<LogEntry> {
      if index < baseIndex || index - baseIndex > |entries| then [] else entries[index - baseIndex..]
    }

    function EntriesFrom(index: nat, limit: nat): seq<LogEntry> {
      if index == 0 then []
      else
        var rest := EntriesAfter(index - 1);
        if |rest| <= limit then rest else rest[..limit]
    }

    function Append(more: seq<LogEntry>): LogView {
      this.(entries := entries + more)
    }

    function TruncateAndAppend(from: nat, more: seq<LogEntry>): LogView {
      var keep := if from <= baseIndex then 0 else from - (baseIndex + 1);
      this.(entries := (if keep <= |entries| then entries[..keep] else entries) + more)
    }

    /** The start of the run of equal terms that ends at `index`. */
    function FirstIndexOfTerm(index: nat, term: nat): nat {
      if index > baseIndex && Term(index - 1) == Some(term) then FirstIndexOfTerm(index - 1, term) else index
    }

    function LastIndexOfTerm(term: nat): Option<nat> {
      match LastEntryOfTerm(entries, term)
      case Some(e) => Some(e.index)
      case None => if baseTerm == term then Some(baseIndex) else None
    }

    function Compact(index: nat, term: nat, retainSuffix: bool): LogView {
      LogView(index, term, if retainSuffix then EntriesAfter(index) else [])
    }
  }

  function LastEntryOfTerm(entries: seq<LogEntry>, term: nat): Option<LogEntry> {
    if entries == [] then None
    else if entries[|entries| - 1].term == term then Some(entries[|entries| - 1])
    else LastEntryOfTerm(entries[..|entries| - 1], term)
  }

  /** Conflict repair jumps to the first index of a run: the run is unbroken and cannot start earlier. */
  lemma {:induction false} FirstIndexStartsRun(log: LogView, index: nat, term: nat)
    requires log.baseIndex <= index && log.Term(index) == Some(term)
    ensures var f := log.FirstIndexOfTerm(index, term);
            && log.baseIndex <= f <= index
            && (forall k :: f <= k <= index ==> log.Term(k) == Some(term))
            && (f > log.baseIndex ==> log.Term(f - 1) != Some(term))
    decreases index
  {
    if index > log.baseIndex && log.Term(index - 1) == Some(term) {
      FirstIndexStartsRun(log, index - 1, term);
    }
  }

  class RaftLog {
    var baseIndex: nat
    var baseTerm: nat
    var entries: seq<LogEntry>

    function View(): LogView
      reads this
    {
      LogView(baseIndex, baseTerm, entries)
    }

    constructor (snapshot: Option<PersistentSnapshot>, entries: seq<LogEntry>)
      ensures View() == LogView.New(snapshot, entries)
    {
      this.entries := entries;
      match snapshot {
        case None => baseIndex, baseTerm := 0, 0;
        case Some(s) => baseIndex, baseTerm := s.metadata.lastIncludedIndex, s.metadata.lastIncludedTerm;
      }
    }

    method Append(more: seq<LogEntry>)
      modifies this
      ensures View() == old(View()).Append(more)
    {
      entries := entries + more;
    }

    method TruncateAndAppend(from: nat, more: seq<LogEntry>)
      modifies this
      ensures View() == old(View()).TruncateAndAppend(from, more)
    {
      var keep := if from <= baseIndex then 0 else from - (baseIndex + 1);
      if keep <= |entries| {
        entries := entries[..keep];
      }
      entries := entries + more;
    }

    method FirstIndexOfTerm(index: nat, term: nat) returns (cursor: nat)
      ensures cursor == View().FirstIndexOfTerm(index, term)
    {
      cursor := index;
      while cursor > baseIndex && View().Term(cursor - 1) == Some(term)
        invariant View().FirstIndexOfTerm(cursor, term) == View().FirstIndexOfTerm(index, term)
      {
        cursor := cursor - 1;
      }
    }

    method LastIndexOfTerm(term: nat) returns (found: Option<nat>)
      ensures found == View().LastIndexOfTerm(term)
    {
      var i := |entries|;
      assert entries[..i] == entries;
      while i > 0
        invariant 0 <= i <= |entries|
        invariant LastEntryOfTerm(entries[..i], term) == LastEntryOfTerm(entries, term)
      {
        assert entries[..i][..i - 1] == entries[..i - 1];
        if entries[i - 1].term == term {
          return Some(entries[i - 1].index);
        }
        i := i - 1;
      } 
      return if baseTerm == term then Some(baseIndex) else None;
    }

    method Compact(index: nat, term: nat, retainSuffix: bool)
      modifies this
      ensures View() == old(View()).Compact(index, term, retainSuffix)
    {
      var kept := if retainSuffix then View().EntriesAfter(index) else [];
      baseIndex := index;
      baseTerm := term;
      entries := kept;
    }
  }
}
