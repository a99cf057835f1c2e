/** Writes that keep a leaf, and removals: a child is gone, and the gap moves up the spine. */
module BTreeShrink {
  import opened Wrappers
  import opened Ordering
  import opened BTreeEntries
  import opened BTreeForest
  import opened BTreeSplit
  import opened BTreeSteps
  import opened BTreeGrowth

  // --------------------------------------------------------------- leaf rewrites

  /** The leaf's page has its new entries; separators above may still name the old minimum. */
  lemma LeafWritten(width: nat, root: PageId, next: nat, p: Pages, ctx: Context, id: PageId, was: seq<Entry>,
                    now: seq<Entry>, h: nat)
    requires AtLeaf(width, root, next, p, ctx, id, was, h) && id in p && p[id].LeafNode?
    ensures var q := p[id := p[id].(entries := now)];
            && Chain(q, LeftLeaves(ctx) + [id] + RightLeaves(ctx)) && Below(q, next)
            && Rep(q, Leaf(id, now), ParentOf(ctx))
            && (ctx.Down? ==> ContextRep(q, ctx, id, Min(Leaf(id, was))) && RootId(ctx) == root)
            && (ctx.Top? ==> id == root)
            && Distinct(ContextIds(ctx) + multiset{id})
  {
    hide Flat, FlatAll, Leaves, LeavesAll, Ids, IdsAll, Min, SortedEntries, ContextRep, ContextShaped, Plug, Sound,
         AtLeaf, ContextIds, Distinct;
    AtLeafFacts(width, root, next, p, ctx, id, was, h);
    var q := p[id := p[id].(entries := now)];
    var leaves := LeftLeaves(ctx) + [id] + RightLeaves(ctx);
    forall i ensures Linked(q, leaves, i) {
      assert Linked(p, leaves, i);
    }
    if ctx.Down? {
      PartsDistinct(ContextIds(ctx), multiset{id});
      Untouched(p, id, q[id], ContextIds(ctx));
      ContextFrame(p, q, ctx, id, Min(Leaf(id, was)));
    }
  }

  /** With its separators right, the rewritten leaf completes the tree. */
  lemma LeafPlaced(width: nat, root: PageId, next: nat, q: Pages, ctx: Context, id: PageId, now: seq<Entry>)
    requires EntriesSize(now) <= CAPACITY && EntriesOk(width, now) && (ctx.Top? || now != [])
    requires ContextShaped(width, ctx, 0) && Rep(q, Leaf(id, now), ParentOf(ctx)) && Below(q, next)
    requires ctx.Down? ==> ContextRep(q, ctx, id, Min(Leaf(id, now))) && RootId(ctx) == root
    requires ctx.Top? ==> id == root
    requires Distinct(ContextIds(ctx) + multiset{id}) && SortedEntries(Left(ctx) + now + Right(ctx))
    requires Chain(q, LeftLeaves(ctx) + [id] + RightLeaves(ctx))
    ensures var t := Plug(ctx, [Leaf(id, now)]);
            && Sound(width, root, next, q, t, Height(ctx)) && Chain(q, Leaves(t))
            && Flat(t) == Left(ctx) + now + Right(ctx)
  {
    hide Flat, FlatAll, Leaves, LeavesAll, Ids, IdsAll, Min, SortedEntries, ContextRep, ContextShaped, ContextIds,
         Distinct, EntriesSize, Chain;
    var t := Plug(ctx, [Leaf(id, now)]);
    LeafInTree(ctx, id, now);
    if ctx.Down? {
      LeafShaped(width, id, now);
      PlugRep(width, q, ctx, Leaf(id, now), 0);
      PlugShaped(width, ctx, Leaf(id, now), 0);
      PlugRoot(ctx, [Leaf(id, now)]);
    }
  }

  // ------------------------------------------------------------------- removals

  /** The child in the hole is gone from the contents and from the chain, though its
      parent still lists it. */
  ghost predicate Removing(width: nat, next: nat, p: Pages, ctx: Context, hole: PageId, min: Bytes, h: nat) {
    && ctx.Down? && ContextShaped(width, ctx, h) && ContextRep(p, ctx, hole, min)
    && Distinct(ContextIds(ctx) + multiset{hole}) && SortedEntries(Left(ctx) + Right(ctx))
    && Below(p, next) && Chain(p, LeftLeaves(ctx) + RightLeaves(ctx))
  }

  /** An emptied leaf leaves the chain. */
  lemma Unlinked(width: nat, root: PageId, next: nat, p: Pages, ctx: Context, id: PageId, was: seq<Entry>, h: nat)
    requires AtLeaf(width, root, next, p, ctx, id, was, h) && ctx.Down? && SortedEntries(Left(ctx) + Right(ctx))
    ensures id in p && p[id].LeafNode?
    ensures Removing(width, next, PointBack(PointOn(p, p[id].previous, p[id].next), p[id].next, p[id].previous), ctx,
                     id, Min(Leaf(id, was)), 0)
  {
    hide Flat, FlatAll, Leaves, LeavesAll, Ids, IdsAll, Min, SortedEntries, ContextRep, ContextShaped, Plug, Sound,
         ContextIds, Distinct, Chain, NoRepeat;
    AtLeafFacts(width, root, next, p, ctx, id, was, h);
    LinksHere(p, LeftLeaves(ctx), id, RightLeaves(ctx));
    ChainUnlink(p, LeftLeaves(ctx), id, RightLeaves(ctx));
    var q := PointBack(PointOn(p, p[id].previous, p[id].next), p[id].next, p[id].previous);
    RelinkAlike(p, p[id].previous, p[id].next, p[id].next, p[id].previous, ContextIds(ctx));
    ContextFrame(p, q, ctx, id, Min(Leaf(id, was)));
    SameKeysBelow(p, q, next);
  }

  lemma SameKeysBelow(p: Pages, q: Pages, next: nat)
    requires q.Keys == p.Keys && Below(p, next)
    ensures Below(q, next)
  {
    forall i | i in q ensures i < next {
      assert i in p;
    }
  }

  /** An only child: the parent goes too. */
  lemma RemoveUp(width: nat, next: nat, p: Pages, ctx: Context, hole: PageId, min: Bytes, h: nat)
    requires Removing(width, next, p, ctx, hole, min, h) && ctx.before == [] && ctx.after == [] && ctx.up.Down?
    ensures Removing(width, next, p, ctx.up, ctx.id, min, h + 1)
    ensures Left(ctx) == Left(ctx.up) && Right(ctx) == Right(ctx.up)
  {
    hide Flat, Leaves, Ids, Min, SortedEntries, Chain, Distinct;
    SamePlace(ctx);
    var ids := ContextIds(ctx.up) + multiset{ctx.id};
    assert ContextIds(ctx) == ids by {
      assert IdsAll([]) == multiset{};
    }
    PartsDistinct(ids, multiset{hole});
  }

  lemma SamePlace(ctx: Context)
    requires ctx.Down? && ctx.before == [] && ctx.after == []
    ensures Left(ctx) == Left(ctx.up) && Right(ctx) == Right(ctx.up)
    ensures LeftLeaves(ctx) == LeftLeaves(ctx.up) && RightLeaves(ctx) == RightLeaves(ctx.up)
  {
    assert FlatAll([]) == [] && LeavesAll([]) == [];
  }

  /** The last child of the root: the stable root becomes an empty leaf. */
  lemma RemoveLast(width: nat, next: nat, p: Pages, ctx: Context, hole: PageId, min: Bytes, h: nat)
    requires Removing(width, next, p, ctx, hole, min, h) && ctx.before == [] && ctx.after == [] && ctx.up.Top?
    ensures var q, t := p[ctx.id := LeafNode(None, None, None, [])], Leaf(ctx.id, []);
            Sound(width, ctx.id, next, q, t, 0) && Chain(q, Leaves(t)) && Flat(t) == Left(ctx) + Right(ctx)
  {
    SamePlace(ctx);
    assert ctx.id in p;
  }

  /** What is left when other children remain. */
  function Remaining(ctx: Context): seq<Tree>
    requires ctx.Down?
  {
    ctx.before + ctx.after
  }

  /** The parent's children and keys without position `|before|`. */
  lemma RemainingPage(ctx: Context, hole: PageId, min: Bytes)
    requires ctx.Down?
    ensures var children, n := Roots(ctx.before) + [hole] + Roots(ctx.after), |ctx.before|;
            n < |children| && children[..n] + children[n + 1..] == Roots(Remaining(ctx))
  {
  }

  lemma RemainingHolds(ctx: Context)
    requires ctx.Down?
    ensures var cs := Remaining(ctx);
            && Left(ctx.up) + FlatAll(cs) + Right(ctx.up) == Left(ctx) + Right(ctx)
            && LeftLeaves(ctx.up) + LeavesAll(cs) + RightLeaves(ctx.up) == LeftLeaves(ctx) + RightLeaves(ctx)
            && ContextIds(ctx.up) + (multiset{ctx.id} + IdsAll(cs)) == ContextIds(ctx)
  {
    hide Flat, FlatAll, Leaves, LeavesAll, Ids, IdsAll;
    Concat(ctx.before, ctx.after);
    Regroup(Left(ctx.up), FlatAll(ctx.before), [], FlatAll(ctx.after), Right(ctx.up));
    Regroup(LeftLeaves(ctx.up), LeavesAll(ctx.before), [], LeavesAll(ctx.after), RightLeaves(ctx.up));
    assert FlatAll(ctx.before) + [] + FlatAll(ctx.after) == FlatAll(Remaining(ctx));
    assert LeavesAll(ctx.before) + [] + LeavesAll(ctx.after) == LeavesAll(Remaining(ctx));
    assert Left(ctx) + [] + Right(ctx) == Left(ctx) + Right(ctx);
    assert LeftLeaves(ctx) + [] + RightLeaves(ctx) == LeftLeaves(ctx) + RightLeaves(ctx);
  }

  lemma RemainingShaped(width: nat, p: Pages, ctx: Context, hole: PageId, min: Bytes, h: nat)
    requires ctx.Down? && ContextShaped(width, ctx, h) && ContextRep(p, ctx, hole, min)
    ensures AllShaped(width, Remaining(ctx), h) && ContextShaped(width, ctx.up, h + 1)
    ensures InternalFits(width, |Remaining(ctx)|)
    ensures RepAll(p, Remaining(ctx), Some(ctx.id)) && ctx.id in p && p[ctx.id].InternalNode?
    ensures p[ctx.id].children == Roots(ctx.before) + [hole] + Roots(ctx.after) && p[ctx.id].parent == ParentOf(ctx.up)
    ensures p[ctx.id].keys == Bounds(ctx.before, min, ctx.after)
    ensures ContextRep(p, ctx.up, ctx.id, if ctx.before == [] then min else Min(ctx.before[0]))
  {
    hide Flat, Ids, Min, Rep, Shaped;
    FitsMonotone(width, |Remaining(ctx)|, |ctx.before| + 1 + |ctx.after|);
  }

  /** The remaining branch, its separators right, completes the tree. */
  lemma BranchPlaced(width: nat, root: PageId, next: nat, q: Pages, ctx: Context, h: nat)
    requires ctx.Down? && root == RootId(ctx) && Remaining(ctx) != []
    requires AllShaped(width, Remaining(ctx), h) && ContextShaped(width, ctx.up, h + 1)
             && InternalFits(width, |Remaining(ctx)|)
    requires var b := Branch(ctx.id, Remaining(ctx));
             Rep(q, b, ParentOf(ctx.up)) && ContextRep(q, ctx.up, ctx.id, Min(b))
    requires Distinct(ContextIds(ctx)) && SortedEntries(Left(ctx) + Right(ctx)) && Below(q, next)
    requires Chain(q, LeftLeaves(ctx) + RightLeaves(ctx))
    ensures var t := Plug(ctx.up, [Branch(ctx.id, Remaining(ctx))]);
            && Sound(width, root, next, q, t, h + 1 + Height(ctx.up)) && Chain(q, Leaves(t))
            && Flat(t) == Left(ctx) + Right(ctx)
  {
    hide Flat, FlatAll, Leaves, LeavesAll, Ids, IdsAll, Min, SortedEntries, ContextRep, ContextShaped, ContextIds,
         Distinct, Chain, Rep, InternalFits, Sound, Left, Right, LeftLeaves, RightLeaves, Plug;
    var cs := Remaining(ctx);
    var b := Branch(ctx.id, cs);
    BranchShaped(width, ctx.id, cs, h);
    RemainingHolds(ctx);
    PlugHolds(ctx.up, [b]);
    One(b);
    BranchHolds(ctx.id, cs);
    PlugRep(width, q, ctx.up, b, h + 1);
    PlugShaped(width, ctx.up, b, h + 1);
    RemainingRoot(ctx, cs);
    SoundFrom(width, root, next, q, Plug(ctx.up, [b]), h + 1 + Height(ctx.up));
  }

  lemma RemainingRoot(ctx: Context, cs: seq<Tree>)
    requires ctx.Down?
    ensures Plug(ctx.up, [Branch(ctx.id, cs)]).id == RootId(ctx)
  {
    if ctx.up.Down? {
      PlugRoot(ctx.up, [Branch(ctx.id, cs)]);
    }
  }

  // ------------------------------------------------------------------- collapse

  /** A lone subtree below the root, ready to take the root's page. */
  ghost predicate Alone(width: nat, root: PageId, next: nat, p: Pages, t: Tree, parent: Option<PageId>, g: nat) {
    && Rep(p, t, parent) && Shaped(width, t, g) && Distinct(multiset{root} + Ids(t)) && SortedEntries(Flat(t))
    && Chain(p, Leaves(t)) && Below(p, next) && root in p && p[root].InternalNode?
  }

  lemma AloneUnder(width: nat, next: nat, p: Pages, ctx: Context, hole: PageId, min: Bytes, h: nat, t: Tree)
    requires Removing(width, next, p, ctx, hole, min, h) && ctx.up.Top? && Remaining(ctx) == [t]
    ensures Alone(width, ctx.id, next, p, t, Some(ctx.id), h) && Flat(t) == Left(ctx) + Right(ctx)
  {
    hide Flat, FlatAll, Leaves, LeavesAll, Ids, IdsAll, Min, SortedEntries, Chain;
    RemainingShaped(width, p, ctx, hole, min, h);
    RemainingHolds(ctx);
    One(t);
    assert t in Remaining(ctx);
    assert [] + Flat(t) + [] == Flat(t) && [] + Leaves(t) + [] == Leaves(t);
    PartsDistinct(ContextIds(ctx), multiset{hole});
    assert multiset{} + (multiset{ctx.id} + Ids(t)) == multiset{ctx.id} + Ids(t);
  }

  /** A unary branch passes the root on to its only child. */
  lemma AloneDown(width: nat, root: PageId, next: nat, p: Pages, t: Tree, parent: Option<PageId>, g: nat)
    requires Alone(width, root, next, p, t, parent, g) && t.Branch? && |t.children| == 1
    ensures g > 0 && Alone(width, root, next, p, t.children[0], Some(t.id), g - 1) && Flat(t) == Flat(t.children[0])
  {
    var c := t.children[0];
    assert t.children == [c] && c in t.children;
    One(c);
    DistinctPart(multiset{root} + Ids(c), multiset{root} + Ids(t));
  }

  lemma CollapsedLeaf(width: nat, root: PageId, next: nat, p: Pages, t: Tree, parent: Option<PageId>, g: nat)
    requires Alone(width, root, next, p, t, parent, g) && t.Leaf?
    ensures p[t.id].LeafNode? && p[t.id].previous == None && p[t.id].next == None
    ensures var q := p[root := LeafNode(None, None, None, t.entries)];
            Sound(width, root, next, q, Raise(t, root), 0) && Chain(q, Leaves(Raise(t, root)))
  {
    assert Linked(p, Leaves(t), 0);
  }

  lemma CollapsedBranch(width: nat, root: PageId, next: nat, p: Pages, t: Tree, parent: Option<PageId>, g: nat)
    requires Alone(width, root, next, p, t, parent, g) && t.Branch?
    ensures p[t.id].InternalNode? && forall c :: c in p[t.id].children ==> c in p
    ensures var q := SetParents(p, p[t.id].children, root)[root := InternalNode(None, p[t.id].keys, p[t.id].children)];
            Sound(width, root, next, q, Raise(t, root), g) && Chain(q, Leaves(Raise(t, root)))
  {
    hide Flat, FlatAll, Leaves, LeavesAll, Ids, IdsAll, Min, SortedEntries, Sound, Chain;
    var cs := t.children;
    var q := SetParents(p, p[t.id].children, root)[root := InternalNode(None, p[t.id].keys, p[t.id].children)];
    RaiseHolds(width, t, root, g);
    BranchHolds(t.id, cs);
    BranchHolds(root, cs);
    var ids := multiset{root} + Ids(t);
    assert IdsAll(cs) + multiset{root} <= ids;
    Apart(ids, IdsAll(cs), root);
    DistinctPart(IdsAll(cs), ids);
    DistinctPart(multiset{root} + IdsAll(cs), ids);
    RootsPresent(p, cs, Some(t.id));
    CollapsedPages(p, q, root, cs, InternalNode(None, p[t.id].keys, p[t.id].children));
    BranchBuilt(p, q, root, cs, Some(t.id), None);
    ChainFrame(p, q, Leaves(t));
    SoundFrom(width, root, next, q, Raise(t, root), g);
  }

  lemma RootsPresent(p: Pages, cs: seq<Tree>, parent: Option<PageId>)
    requires RepAll(p, cs, parent)
    ensures forall c :: c in Roots(cs) ==> c in p
  {
    forall c | c in Roots(cs) ensures c in p {
      var k :| 0 <= k < |cs| && cs[k].id == c;
      assert Rep(p, cs[k], parent);
    }
  }

  lemma CollapsedPages(p: Pages, q: Pages, root: PageId, cs: seq<Tree>, n: Node)
    requires root !in IdsAll(cs) && root in p && p[root].InternalNode?
    requires q == SetParents(p, Roots(cs), root)[root := n]
    ensures SameOn(SetParents(p, Roots(cs), root), q, IdsAll(cs)) && SameLinks(p, q) && q.Keys == p.Keys
  {
  }
}
