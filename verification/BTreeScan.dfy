/** Reading the leaf chain from left to right. */
module BTreeScan {
  import opened Wrappers
  import opened Ordering
  import opened BTreeEntries
  import opened BTreeForest
  import opened BTreeSteps

  /** The entries of the listed leaves, one after the other. */
  function EntriesOf(p: Pages, leaves: seq<PageId>): seq<Entry> {
    if leaves == [] then []
    else (if leaves[0] in p && p[leaves[0]].LeafNode? then p[leaves[0]].entries else []) + EntriesOf(p, leaves[1..])
  }

  lemma {:induction false} EntriesOfConcat(p: Pages, a: seq<PageId>, b: seq<PageId>)
    ensures EntriesOf(p, a + b) == EntriesOf(p, a) + EntriesOf(p, b)
    decreases |a|
  {
    if a == [] {
      assert a + b == b;
    } else {
      assert (a + b)[1..] == a[1..] + b;
      EntriesOfConcat(p, a[1..], b);
    }
  }

  /** The chain, read in order, is the tree, read in order. */
  lemma {:induction false} ChainIsTree(p: Pages, t: Tree, parent: Option<PageId>)
    requires Rep(p, t, parent)
    ensures EntriesOf(p, Leaves(t)) == Flat(t)
    decreases t
  {
    if t.Branch? {
      ChainIsForest(p, t.children, Some(t.id));
    } else {
      assert Leaves(t)[1..] == [];
    }
  }

  lemma {:induction false} ChainIsForest(p: Pages, ts: seq<Tree>, parent: Option<PageId>)
    requires RepAll(p, ts, parent)
    ensures EntriesOf(p, LeavesAll(ts)) == FlatAll(ts)
    decreases ts
  {
    if ts != [] {
      assert ts[0] in ts && Rep(p, ts[0], parent);
      ChainIsTree(p, ts[0], parent);
      assert forall c :: c in ts[1..] ==> c in ts;
      ChainIsForest(p, ts[1..], parent);
      EntriesOfConcat(p, Leaves(ts[0]), LeavesAll(ts[1..]));
    }
  }

  lemma {:induction false} ChainBefore(p: Pages, ctx: Context, hole: PageId, min: Bytes)
    requires ContextRep(p, ctx, hole, min)
    ensures EntriesOf(p, LeftLeaves(ctx)) == Left(ctx)
    decreases ctx
  {
    if ctx.Down? {
      ChainBefore(p, ctx.up, ctx.id, if ctx.before == [] then min else Min(ctx.before[0]));
      ChainIsForest(p, ctx.before, Some(ctx.id));
      EntriesOfConcat(p, LeftLeaves(ctx.up), LeavesAll(ctx.before));
    }
  }

  /** Nothing to the left of the leaf that a key belongs to is at or after the key. */
  lemma NothingBefore(s: seq<Entry>, start: Bytes, end: Option<Bytes>)
    requires AllBelow(s, start)
    ensures InRange(s, start, end) == []
  {
    NoneWithin(s, start, end);
  }

  /** Once an entry is at or past the end, so is everything after it. */
  lemma NothingAfter(a: seq<Entry>, b: seq<Entry>, start: Bytes, end: Bytes)
    requires SortedEntries(a + b) && b != [] && !Less(b[0].key, end)
    ensures InRange(a + b, start, Some(end)) == InRange(a, start, Some(end))
  {
    SortedParts(a, b);
    HeadIsLeast(b);
    forall e | e in b ensures !Within(e, start, Some(end)) {
      if Less(e.key, end) && b[0].key != e.key {
        LessTransitive(b[0].key, e.key, end);
      }
    }
    NoneWithin(b, start, Some(end));
    InRangeConcat(a, b, start, Some(end));
  }

  lemma OneMore(s: seq<Entry>, e: Entry, start: Bytes, end: Option<Bytes>)
    ensures InRange(s + [e], start, end) == InRange(s, start, end) + (if Within(e, start, end) then [e] else [])
  {
    InRangeConcat(s, [e], start, end);
    assert [e][1..] == [];
  }

  /** What `Sorted` keys mean for a range: exactly the entries within it, still sorted. */
  lemma {:induction false} InRangeExact(s: seq<Entry>, start: Bytes, end: Option<Bytes>)
    requires SortedEntries(s)
    ensures SortedEntries(InRange(s, start, end))
    ensures forall e :: e in InRange(s, start, end) <==> e in s && Within(e, start, end)
    decreases |s|
  {
    if s != [] {
      assert s == [s[0]] + s[1..];
      SortedParts([s[0]], s[1..]);
      assert s[0] in [s[0]];
      InRangeExact(s[1..], start, end);
      if Within(s[0], start, end) {
        SortedJoin([s[0]], InRange(s[1..], start, end));
      }
    }
  }
}
