/** Page sizes: when a page overflows, where it is cut, and why both halves fit. */
module BTreeSplit {
  import opened Ordering
  import opened BTreeEntries
  import opened BTreeForest

  /** The first `i` entries are at least half of the bytes. */
  predicate Half(s: seq<Entry>, i: nat) {
    i <= |s| && 2 * EntriesSize(s[..i]) >= EntriesSize(s)
  }

  /** Byte-balanced split: the shortest proper prefix with half of the bytes, if there is one. */
  method BalancedLeafSplit(s: seq<Entry>) returns (split: nat)
    requires |s| > 0
    ensures || (0 < split < |s| && Half(s, split) && forall j :: 0 < j < split ==> !Half(s, j))
            || (split == |s| / 2 && forall j :: 0 < j < |s| ==> !Half(s, j))
  {
    var total := TotalSize(s);
    var used, index := 0, 0;
    while index < |s| - 1
      invariant 0 <= index <= |s| - 1 && used == EntriesSize(s[..index])
      invariant forall j :: 0 < j <= index ==> !Half(s, j)
    {
      SizeStep(s, index);
      used := used + EntrySize(s[index]);
      if used * 2 >= total {
        return index + 1;
      }
      index := index + 1;
    }
    return |s| / 2;
  }

  method TotalSize(s: seq<Entry>) returns (total: nat)
    ensures total == EntriesSize(s)
  {
    total := 0;
    var i := 0;
    while i < |s|
      invariant 0 <= i <= |s| && total == EntriesSize(s[..i])
    {
      SizeStep(s, i);
      total := total + EntrySize(s[i]);
      i := i + 1;
    }
    assert s[..i] == s;
  }

  lemma SizeStep(s: seq<Entry>, i: nat)
    requires i < |s|
    ensures EntriesSize(s[..i + 1]) == EntriesSize(s[..i]) + EntrySize(s[i])
  {
    assert s[..i + 1] == s[..i] + [s[i]];
    EntriesSizeConcat(s[..i], [s[i]]);
  }

  lemma SizeSplit(s: seq<Entry>, i: nat)
    requires i <= |s|
    ensures EntriesSize(s) == EntriesSize(s[..i]) + EntriesSize(s[i..])
  {
    assert s == s[..i] + s[i..];
    EntriesSizeConcat(s[..i], s[i..]);
  }

  /** A leaf that one write made too large. */
  ghost predicate Overfull(width: nat, s: seq<Entry>) {
    EntriesOk(width, s) && EntriesSize(s) > CAPACITY && 3 * EntriesSize(s) <= 4 * CAPACITY
  }

  /** Split bound, first half: with entries of at most a third of a leaf, an overfull
      leaf has a byte-balanced cut, so the fallback cut is never taken. */
  lemma SplitExists(width: nat, s: seq<Entry>)
    requires Overfull(width, s)
    ensures |s| >= 2 && Half(s, |s| - 1)
  {
    var last := |s| - 1;
    SizeSplit(s, last);
    assert s[last..] == [s[last]];
    assert s[last] in s;
  }

  /** Split bound, second half: both sides of that cut fit. */
  lemma SplitBound(width: nat, s: seq<Entry>, i: nat)
    requires Overfull(width, s) && 0 < i < |s| && Half(s, i) && !Half(s, i - 1)
    ensures EntriesSize(s[..i]) <= CAPACITY && EntriesSize(s[i..]) <= CAPACITY
  {
    SizeSplit(s, i);
    SizeStep(s, i - 1);
    assert s[i - 1] in s;
  }

  /** One write adds at most one entry's bytes. */
  lemma {:induction false} UpsertSize(s: seq<Entry>, key: Bytes, value: Bytes)
    ensures EntriesSize(Upsert(s, key, value)) <= EntriesSize(s) + EntrySize(Entry(key, value))
    decreases |s|
  {
    var e := Entry(key, value);
    if s == [] || Less(key, s[0].key) {
      EntriesSizeConcat([e], s);
      assert [e][1..] == [];
    } else if s[0].key == key {
      EntriesSizeConcat([e], s[1..]);
      assert [e][1..] == [];
    } else {
      UpsertSize(s[1..], key, value);
      EntriesSizeConcat([s[0]], Upsert(s[1..], key, value));
      assert [s[0]][1..] == [];
    }
  }

  /** A leaf that no longer fits after one write of a small entry is overfull, no more. */
  lemma WriteOverfills(width: nat, s: seq<Entry>, key: Bytes, value: Bytes)
    requires SortedEntries(s) && EntriesOk(width, s) && EntriesSize(s) <= CAPACITY
    requires |key| == width && 3 * EntrySize(Entry(key, value)) <= CAPACITY
    ensures EntriesOk(width, Upsert(s, key, value))
    ensures EntriesSize(Upsert(s, key, value)) > CAPACITY ==> Overfull(width, Upsert(s, key, value))
  {
    UpsertSize(s, key, value);
    UpsertSorted(s, key, value);
  }

  lemma {:induction false} WithoutSize(s: seq<Entry>, key: Bytes)
    ensures EntriesSize(Without(s, key)) <= EntriesSize(s)
    decreases |s|
  {
    if s != [] && s[0].key != key {
      WithoutSize(s[1..], key);
      EntriesSizeConcat([s[0]], Without(s[1..], key));
      assert [s[0]][1..] == [];
    }
  }

  // ------------------------------------------------------------- internal pages

  /** Encoded size of an internal page. */
  function KeysSize(keys: seq<Bytes>): nat {
    if keys == [] then 8 else 10 + |keys[0]| + KeysSize(keys[1..])
  }

  lemma {:induction false} FixedKeysSize(width: nat, keys: seq<Bytes>)
    requires forall k :: k in keys ==> |k| == width
    ensures KeysSize(keys) == 8 + |keys| * (width + 10)
    decreases |keys|
  {
    if keys != [] {
      assert keys[0] in keys;
      assert forall k :: k in keys[1..] ==> k in keys;
      FixedKeysSize(width, keys[1..]);
      StepProduct(|keys[1..]|, width + 10);
    }
  }

  lemma StepProduct(n: nat, size: nat)
    ensures (n + 1) * size == n * size + size
  {
  }

  lemma FitsMonotone(width: nat, m: nat, n: nat)
    requires InternalFits(width, n) && m <= n
    ensures InternalFits(width, m)
  {
    assert (m - 1) * (width + 10) <= (n - 1) * (width + 10);
  }

  /** A branch that overflows has enough children to cut, and both halves fit. */
  lemma BranchSplitFits(width: nat, n: nat)
    requires 3 * (4 + width) <= CAPACITY && !InternalFits(width, n) && InternalFits(width, n - 1) && n >= 1
    ensures n >= 4
    ensures InternalFits(width, (n - 1) / 2 + 1) && InternalFits(width, n - 1 - (n - 1) / 2)
  {
    assert n <= 3 ==> (n - 1) * (width + 10) <= 2 * (width + 10);
    FitsMonotone(width, (n - 1) / 2 + 1, n - 1);
    FitsMonotone(width, n - 1 - (n - 1) / 2, n - 1);
  }

  lemma {:induction false} MinWidth(width: nat, t: Tree, h: nat)
    requires Shaped(width, t, h)
    ensures |Min(t)| == width && 3 * (4 + width) <= CAPACITY
    decreases h
  {
    if t.Leaf? {
      assert t.entries[0] in t.entries;
    } else {
      assert t.children[0] in t.children;
      MinBranch(width, t.id, t.children, h - 1);
      MinWidth(width, t.children[0], h - 1);
    }
  }

  /** An internal page over well-shaped children fits exactly when `InternalFits` says so. */
  lemma SeparatorsFit(width: nat, ts: seq<Tree>, h: nat)
    requires ts != [] && AllShaped(width, ts, h)
    ensures KeysSize(Separators(ts)) <= CAPACITY <==> InternalFits(width, |ts|)
    ensures 3 * (4 + width) <= CAPACITY
  {
    forall k | k in Separators(ts) ensures |k| == width {
      var i :| 0 <= i < |ts| - 1 && k == Min(ts[i + 1]);
      assert ts[i + 1] in ts;
      MinWidth(width, ts[i + 1], h);
    }
    assert ts[0] in ts;
    MinWidth(width, ts[0], h);
    FixedKeysSize(width, Separators(ts));
  }
}
