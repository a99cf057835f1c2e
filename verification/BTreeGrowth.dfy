/** Splits: a node has become two, and the change moves up the spine. */
module BTreeGrowth {
  import opened Wrappers
  import opened Ordering
  import opened BTreeEntries
  import opened BTreeForest
  import opened BTreeSplit
  import opened BTreeSteps

  /** Pages, parents, separators, depth, order and sizes are right; siblings aside. */
  ghost predicate Sound(width: nat, root: PageId, next: nat, pages: Pages, t: Tree, h: nat) {
    && t.id == root && Rep(pages, t, None)
    && Distinct(Ids(t)) && SortedEntries(Flat(t)) && RootShaped(width, t, h)
    && Below(pages, next)
  }

  ghost predicate Below(pages: Pages, next: nat) {
    forall i {:trigger i in pages} :: i in pages ==> i < next
  }

  /** The tree holds what the context holds around `fill`. */
  ghost predicate Around(ctx: Context, fill: seq<Entry>, leaves: seq<PageId>, t: Tree) {
    Flat(t) == Left(ctx) + fill + Right(ctx) && Leaves(t) == LeftLeaves(ctx) + leaves + RightLeaves(ctx)
  }

  function RootId(ctx: Context): PageId
    requires ctx.Down?
  {
    if ctx.up.Top? then ctx.id else RootId(ctx.up)
  }

  lemma {:induction false} PlugRoot(ctx: Context, ts: seq<Tree>)
    requires ctx.Down?
    ensures Plug(ctx, ts).id == RootId(ctx)
    decreases ctx
  {
    if ctx.up.Down? {
      PlugRoot(ctx.up, [Branch(ctx.id, ctx.before + ts + ctx.after)]);
    }
  }

  /** The node in the hole has become `l` and `r`; its parent still knows only `l`. */
  ghost predicate Splitting(width: nat, next: nat, pages: Pages, ctx: Context, l: Tree, r: Tree, h: nat) {
    && ctx.Down? && Shaped(width, l, h) && Shaped(width, r, h) && ContextShaped(width, ctx, h)
    && ContextRep(pages, ctx, l.id, Min(l)) && Rep(pages, l, Some(ctx.id)) && Rep(pages, r, Some(ctx.id))
    && Distinct(ContextIds(ctx) + Ids(l) + Ids(r))
    && SortedEntries(Left(ctx) + (Flat(l) + Flat(r)) + Right(ctx))
    && Below(pages, next)
  }

  /** Page `id` should hold one child too many; it has not been written yet. */
  ghost predicate Bursting(width: nat, next: nat, pages: Pages, up: Context, id: PageId, cs: seq<Tree>, h: nat) {
    && cs != [] && AllShaped(width, cs, h) && ContextShaped(width, up, h + 1)
    && id in pages && pages[id].InternalNode?
    && RepAll(pages, cs, Some(id)) && ContextRep(pages, up, id, Min(cs[0]))
    && Distinct(ContextIds(up) + multiset{id} + IdsAll(cs))
    && SortedEntries(Left(up) + FlatAll(cs) + Right(up))
    && Below(pages, next)
    && !InternalFits(width, |cs|) && InternalFits(width, |cs| - 1)
  }

  function Widened(ctx: Context, l: Tree, r: Tree): seq<Tree>
    requires ctx.Down?
  {
    ctx.before + [l, r] + ctx.after
  }

  lemma WidenedHolds(ctx: Context, l: Tree, r: Tree)
    requires ctx.Down?
    ensures var cs := Widened(ctx, l, r);
            && Left(ctx.up) + FlatAll(cs) + Right(ctx.up) == Left(ctx) + (Flat(l) + Flat(r)) + Right(ctx)
            && LeftLeaves(ctx.up) + LeavesAll(cs) + RightLeaves(ctx.up)
               == LeftLeaves(ctx) + (Leaves(l) + Leaves(r)) + RightLeaves(ctx)
            && ContextIds(ctx.up) + multiset{ctx.id} + IdsAll(cs) == ContextIds(ctx) + Ids(l) + Ids(r)
  {
    hide Flat, FlatAll, Leaves, LeavesAll, Ids, IdsAll;
    var b := Branch(ctx.id, Widened(ctx, l, r));
    Concat(ctx.before + [l, r], ctx.after);
    Concat(ctx.before, [l, r]);
    assert [l, r] == [l] + [r];
    Concat([l], [r]);
    One(l);
    One(r);
    Regroup(Left(ctx.up), FlatAll(ctx.before), Flat(l) + Flat(r), FlatAll(ctx.after), Right(ctx.up));
    Regroup(LeftLeaves(ctx.up), LeavesAll(ctx.before), Leaves(l) + Leaves(r), LeavesAll(ctx.after),
            RightLeaves(ctx.up));
  }

  /** The parent's new keys and children, written in terms of its old ones. */
  lemma WidenedPage(ctx: Context, l: Tree, r: Tree)
    requires ctx.Down?
    ensures var cs, n := Widened(ctx, l, r), |ctx.before|;
            var keys, children := Bounds(ctx.before, Min(l), ctx.after), Roots(ctx.before) + [l.id] + Roots(ctx.after);
            && n <= |keys| && n < |children|
            && Separators(cs) == keys[..n] + [Min(r)] + keys[n..]
            && Roots(cs) == children[..n + 1] + [r.id] + children[n + 1..]
  {
    hide Min;
    var cs, n := Widened(ctx, l, r), |ctx.before|;
    var keys := Bounds(ctx.before, Min(l), ctx.after);
    var s, k := Separators(cs), keys[..n] + [Min(r)] + keys[n..];
    assert |s| == |k|;
    forall i | 0 <= i < |s| ensures s[i] == k[i] {
      assert s[i] == Min(cs[i + 1]);
    }
  }

  lemma WidenedShaped(width: nat, ctx: Context, l: Tree, r: Tree, h: nat)
    requires ctx.Down? && Shaped(width, l, h) && Shaped(width, r, h) && ContextShaped(width, ctx, h)
    ensures AllShaped(width, Widened(ctx, l, r), h) && Widened(ctx, l, r) != []
    ensures Min(Widened(ctx, l, r)[0]) == if ctx.before == [] then Min(l) else Min(ctx.before[0])
    ensures ContextShaped(width, ctx.up, h + 1) && InternalFits(width, |Widened(ctx, l, r)| - 1)
  {
    hide Min;
    var cs := Widened(ctx, l, r);
    forall c | c in cs ensures Shaped(width, c, h) {
      assert c in ctx.before || c == l || c == r || c in ctx.after;
    }
  }

  lemma WidenedRep(width: nat, next: nat, pages: Pages, ctx: Context, l: Tree, r: Tree, h: nat)
    requires Splitting(width, next, pages, ctx, l, r, h)
    ensures var cs := Widened(ctx, l, r);
            && RepAll(pages, cs, Some(ctx.id)) && ctx.id in pages && pages[ctx.id].InternalNode?
            && ContextRep(pages, ctx.up, ctx.id, if ctx.before == [] then Min(l) else Min(ctx.before[0]))
            && pages[ctx.id].children == Roots(ctx.before) + [l.id] + Roots(ctx.after)
            && pages[ctx.id].keys == Bounds(ctx.before, Min(l), ctx.after) && pages[ctx.id].parent == ParentOf(ctx.up)
  {
    hide Flat, FlatAll, Ids, IdsAll, Min, Shaped, Rep, SortedEntries;
    var cs := Widened(ctx, l, r);
    forall c | c in cs ensures Rep(pages, c, Some(ctx.id)) {
      assert c in ctx.before || c == l || c == r || c in ctx.after;
    }
  }

  /** A parent without room bursts. */
  lemma Burst(width: nat, next: nat, pages: Pages, ctx: Context, l: Tree, r: Tree, h: nat)
    requires Splitting(width, next, pages, ctx, l, r, h)
    requires !InternalFits(width, |Widened(ctx, l, r)|)
    ensures Bursting(width, next, pages, ctx.up, ctx.id, Widened(ctx, l, r), h)
  {
    hide Flat, FlatAll, Ids, IdsAll, Min, Shaped, Rep, SortedEntries, Widened, InternalFits, RepAll, ContextRep,
         Distinct, AllShaped;
    WidenedHolds(ctx, l, r);
    WidenedShaped(width, ctx, l, r, h);
    WidenedRep(width, next, pages, ctx, l, r, h);
  }

  function GrownPages(pages: Pages, ctx: Context, l: Tree, r: Tree): Pages
    requires ctx.Down?
  {
    var cs := Widened(ctx, l, r);
    pages[ctx.id := InternalNode(ParentOf(ctx.up), Separators(cs), Roots(cs))]
  }

  lemma SoundFrom(width: nat, root: PageId, next: nat, q: Pages, t: Tree, h: nat)
    requires t.id == root && Rep(q, t, None) && Shaped(width, t, h) && Below(q, next)
    requires Distinct(Ids(t)) && SortedEntries(Flat(t))
    ensures Sound(width, root, next, q, t, h)
  {
  }

  lemma GrownMeaning(ctx: Context, l: Tree, r: Tree)
    requires ctx.Down?
    ensures var t := Plug(ctx.up, [Branch(ctx.id, Widened(ctx, l, r))]);
            && Around(ctx, Flat(l) + Flat(r), Leaves(l) + Leaves(r), t)
            && Ids(t) == ContextIds(ctx) + Ids(l) + Ids(r) && t.id == RootId(ctx)
  {
    hide Flat, FlatAll, Leaves, LeavesAll, Ids, IdsAll;
    var cs := Widened(ctx, l, r);
    var b := Branch(ctx.id, cs);
    WidenedHolds(ctx, l, r);
    PlugHolds(ctx.up, [b]);
    One(b);
    BranchHolds(ctx.id, cs);
    PlugRoot(ctx, [l, r]);
    assert ContextIds(ctx.up) + (multiset{ctx.id} + IdsAll(cs)) == ContextIds(ctx.up) + multiset{ctx.id} + IdsAll(cs);
  }

  lemma SpineLinks(p: Pages, id: PageId, n: Node, next: nat)
    requires id in p && p[id].InternalNode? && Below(p, next)
    ensures SameLinks(p, p[id := n]) && Below(p[id := n], next)
  {
  }

  /** A parent with room takes the new sibling, and the tree is whole again. */
  lemma Grown(width: nat, next: nat, pages: Pages, ctx: Context, l: Tree, r: Tree, h: nat)
    requires Splitting(width, next, pages, ctx, l, r, h) && InternalFits(width, |Widened(ctx, l, r)|)
    ensures var t := Plug(ctx.up, [Branch(ctx.id, Widened(ctx, l, r))]);
            && Sound(width, RootId(ctx), next, GrownPages(pages, ctx, l, r), t, h + Height(ctx))
            && Around(ctx, Flat(l) + Flat(r), Leaves(l) + Leaves(r), t)
            && SameLinks(pages, GrownPages(pages, ctx, l, r))
  {
    hide Flat, FlatAll, Leaves, LeavesAll, Ids, IdsAll, Min, Shaped, Rep, SortedEntries, InternalFits, Distinct,
         Separators, Roots, ContextRep, ContextShaped, Plug, SameLinks, Below, Sound;
    Grow(width, pages, ctx, l, r, h);
    GrownMeaning(ctx, l, r);
    WidenedRep(width, next, pages, ctx, l, r, h);
    var cs := Widened(ctx, l, r);
    SpineLinks(pages, ctx.id, InternalNode(ParentOf(ctx.up), Separators(cs), Roots(cs)), next);
    SoundFrom(width, RootId(ctx), next, GrownPages(pages, ctx, l, r), Plug(ctx.up, [Branch(ctx.id, cs)]),
              h + Height(ctx));
  }

  lemma BranchHolds(id: PageId, cs: seq<Tree>)
    ensures Flat(Branch(id, cs)) == FlatAll(cs) && Leaves(Branch(id, cs)) == LeavesAll(cs)
    ensures Ids(Branch(id, cs)) == multiset{id} + IdsAll(cs)
  {
  }

  // --------------------------------------------------------------------- cutting

  lemma CutLinks(p: Pages, x: PageId, y: PageId, parent: Option<PageId>, l: seq<Tree>, r: seq<Tree>)
    requires (x in p ==> p[x].InternalNode?) && (y in p ==> p[y].InternalNode?)
    ensures SameLinks(p, CutPages(p, x, y, parent, l, r))
    ensures CutPages(p, x, y, parent, l, r).Keys == p.Keys + {x, y}
  {
  }

  lemma CutFits(width: nat, cs: seq<Tree>, h: nat)
    requires cs != [] && AllShaped(width, cs, h) && !InternalFits(width, |cs|) && InternalFits(width, |cs| - 1)
    ensures var m := (|cs| - 1) / 2;
            m + 1 < |cs| && InternalFits(width, m + 1) && InternalFits(width, |cs| - m - 1)
  {
    SeparatorsFit(width, cs, h);
    BranchSplitFits(width, |cs|);
  }

  lemma FreshIds(p: Pages, ts: seq<Tree>, parent: Option<PageId>, next: nat)
    requires RepAll(p, ts, parent) && Below(p, next)
    ensures forall i :: i >= next ==> i !in IdsAll(ts)
  {
    RepAllIds(p, ts, parent);
  }

  lemma {:induction false} FreshContext(p: Pages, ctx: Context, hole: PageId, min: Bytes, next: nat)
    requires ContextRep(p, ctx, hole, min) && Below(p, next)
    ensures forall i :: i >= next ==> i !in ContextIds(ctx)
    decreases ctx
  {
    if ctx.Down? {
      FreshIds(p, ctx.before, Some(ctx.id), next);
      FreshIds(p, ctx.after, Some(ctx.id), next);
      FreshContext(p, ctx.up, ctx.id, if ctx.before == [] then min else Min(ctx.before[0]), next);
    }
  }

  lemma DistinctPlus(ids: multiset<PageId>, fresh1: PageId)
    requires Distinct(ids) && fresh1 !in ids
    ensures Distinct(ids + multiset{fresh1})
  {
    forall i ensures (ids + multiset{fresh1})[i] <= 1 {
      assert ids[i] <= 1;
    }
  }

  /** The two halves of a burst branch, once written to pages `x` and `y`. */
  ghost predicate Halved(width: nat, p: Pages, q: Pages, parent: Option<PageId>, cs: seq<Tree>, h: nat, l: Tree,
                         r: Tree) {
    && Shaped(width, l, h + 1) && Shaped(width, r, h + 1) && Rep(q, l, parent) && Rep(q, r, parent)
    && Flat(l) + Flat(r) == FlatAll(cs) && Leaves(l) + Leaves(r) == LeavesAll(cs)
    && Ids(l) + Ids(r) == multiset{l.id, r.id} + IdsAll(cs)
    && SameLinks(p, q) && q.Keys == p.Keys + {l.id, r.id}
  }

  lemma Halve(width: nat, p: Pages, was: PageId, x: PageId, y: PageId, parent: Option<PageId>, cs: seq<Tree>, h: nat,
              rest: multiset<PageId>)
    requires cs != [] && AllShaped(width, cs, h) && !InternalFits(width, |cs|) && InternalFits(width, |cs| - 1)
    requires RepAll(p, cs, Some(was)) && Distinct(IdsAll(cs) + multiset{x, y} + rest)
    requires (x in p ==> p[x].InternalNode?) && (y in p ==> p[y].InternalNode?)
    ensures var m := (|cs| - 1) / 2;
            m + 1 < |cs| &&
            var l, r := Branch(x, cs[..m + 1]), Branch(y, cs[m + 1..]);
            var q := CutPages(p, x, y, parent, l.children, r.children);
            && Halved(width, p, q, parent, cs, h, l, r) && SameOn(p, q, rest)
            && Min(l) == Min(cs[0]) && Min(r) == Separators(cs)[m]
  {
    hide Flat, FlatAll, Leaves, LeavesAll, Ids, IdsAll, Min, Shaped, Rep, SortedEntries, InternalFits, Roots,
         CutPages, SameOn, SameLinks, Distinct, Separators, RepAll, AllShaped;
    CutFits(width, cs, h);
    var m := (|cs| - 1) / 2;
    var l, r := cs[..m + 1], cs[m + 1..];
    CutShaped(width, cs, h, m, x, y);
    SeparatorAt(cs, m);
    HalvesRep(p, cs, m + 1, Some(was));
    CutBuilt(p, CutPages(p, x, y, parent, l, r), x, y, was, parent, l, r, rest);
    CutLinks(p, x, y, parent, l, r);
    BranchHolds(x, l);
    BranchHolds(y, r);
    HalvesHold(IdsAll(l), IdsAll(r), x, y);
  }

  lemma HalvesRep(p: Pages, cs: seq<Tree>, k: nat, parent: Option<PageId>)
    requires k <= |cs| && RepAll(p, cs, parent)
    ensures RepAll(p, cs[..k], parent) && RepAll(p, cs[k..], parent)
  {
    hide Rep;
    assert forall c :: c in cs[..k] || c in cs[k..] ==> c in cs;
  }

  lemma HalvesHold(a: multiset<PageId>, b: multiset<PageId>, x: PageId, y: PageId)
    ensures multiset{x} + a + (multiset{y} + b) == multiset{x, y} + (a + b)
  {
  }

  /** Below the root: the page keeps the left half, a fresh page gets the right half,
      and the parent is in turn missing the right one. */
  lemma CutInner(width: nat, next: nat, p: Pages, up: Context, id: PageId, cs: seq<Tree>, h: nat)
    requires Bursting(width, next, p, up, id, cs, h) && up.Down?
    ensures var m := (|cs| - 1) / 2;
            m + 1 < |cs| &&
            var l, r := Branch(id, cs[..m + 1]), Branch(next, cs[m + 1..]);
            var q := CutPages(p, id, next, ParentOf(up), l.children, r.children);
            && Splitting(width, next + 1, q, up, l, r, h + 1) && Halved(width, p, q, ParentOf(up), cs, h, l, r)
            && Min(r) == Separators(cs)[m]
  {
    hide Flat, FlatAll, Leaves, LeavesAll, Ids, IdsAll, Min, Shaped, Rep, SortedEntries, InternalFits, ContextRep,
         ContextShaped, CutPages, SameLinks, SameOn, Distinct, ContextIds, RepAll, AllShaped, Separators;
    CutApart(next, p, up, id, cs);
    Halve(width, p, id, id, next, ParentOf(up), cs, h, ContextIds(up));
    var m := (|cs| - 1) / 2;
    var l, r := Branch(id, cs[..m + 1]), Branch(next, cs[m + 1..]);
    var q := CutPages(p, id, next, ParentOf(up), l.children, r.children);
    ContextFrame(p, q, up, id, Min(cs[0]));
    PagesTogether(ContextIds(up), Ids(l), Ids(r));
    PagesRegrouped(ContextIds(up), IdsAll(cs), id, next);
  }

  lemma CutApart(next: nat, p: Pages, up: Context, id: PageId, cs: seq<Tree>)
    requires cs != [] && RepAll(p, cs, Some(id)) && ContextRep(p, up, id, Min(cs[0])) && id in p && Below(p, next)
    requires Distinct(ContextIds(up) + multiset{id} + IdsAll(cs))
    ensures Distinct(IdsAll(cs) + multiset{id, next} + ContextIds(up))
    ensures Distinct(ContextIds(up) + (multiset{id, next} + IdsAll(cs)))
  {
    hide IdsAll, ContextIds, RepAll, ContextRep, Min, Distinct;
    FreshIds(p, cs, Some(id), next);
    FreshContext(p, up, id, Min(cs[0]), next);
    DistinctPlus(ContextIds(up) + multiset{id} + IdsAll(cs), next);
    PagesRegrouped(ContextIds(up), IdsAll(cs), id, next);
  }

  lemma PagesRegrouped(a: multiset<PageId>, b: multiset<PageId>, x: PageId, y: PageId)
    ensures a + multiset{x} + b + multiset{y} == b + multiset{x, y} + a == a + (multiset{x, y} + b)
  {
  }

  lemma PagesTogether(a: multiset<PageId>, b: multiset<PageId>, c: multiset<PageId>)
    ensures a + b + c == a + (b + c)
  {
  }

  function RootCut(p: Pages, root: PageId, l: Tree, r: Tree, key: Bytes): Pages
    requires l.Branch? && r.Branch?
  {
    CutPages(p, l.id, r.id, Some(root), l.children, r.children)[root := InternalNode(None, [key], [l.id, r.id])]
  }

  /** At the root: both halves go to fresh pages and the root page stays the root. */
  lemma CutRoot(width: nat, next: nat, p: Pages, id: PageId, cs: seq<Tree>, h: nat, m: nat) returns (l: Tree, r: Tree)
    requires Bursting(width, next, p, Top, id, cs, h) && m == (|cs| - 1) / 2
    ensures m + 1 < |cs| && l == Branch(next, cs[..m + 1]) && r == Branch(next + 1, cs[m + 1..])
    ensures Sound(width, id, next + 2, RootCut(p, id, l, r, Separators(cs)[m]), Branch(id, [l, r]), h + 2)
    ensures SameLinks(p, RootCut(p, id, l, r, Separators(cs)[m]))
    ensures Around(Top, FlatAll(cs), LeavesAll(cs), Branch(id, [l, r]))
  {
    hide Flat, FlatAll, Leaves, LeavesAll, Ids, IdsAll, Min, Shaped, Rep, SortedEntries, InternalFits, ContextRep,
         ContextShaped, CutPages, SameOn, Sound, SameLinks, Below, Distinct, ContextIds, Around, Left, Right, Roots,
         RepAll, AllShaped, Separators;
    RootFresh(p, id, cs, next);
    Halve(width, p, id, next, next + 1, Some(id), cs, h, multiset{id});
    l, r := Branch(next, cs[..m + 1]), Branch(next + 1, cs[m + 1..]);
    var p1 := CutPages(p, l.id, r.id, Some(id), l.children, r.children);
    SeparatorAt(cs, m);
    var key := Separators(cs)[m];
    PairDistinct(id, l, r, cs);
    TwoBranches(width, id, p1, l, r, h + 1, key);
    PairHolds(id, l, r);
    TopAround(cs, Branch(id, [l, r]));
    RootLinks(p, p1, id, InternalNode(None, [key], [l.id, r.id]), next);
    SoundFrom(width, id, next + 2, p1[id := InternalNode(None, [key], [l.id, r.id])], Branch(id, [l, r]), h + 2);
  }

  lemma RootFresh(p: Pages, id: PageId, cs: seq<Tree>, next: nat)
    requires RepAll(p, cs, Some(id)) && Below(p, next) && id in p
    requires Distinct(ContextIds(Top) + multiset{id} + IdsAll(cs))
    ensures Distinct(IdsAll(cs) + multiset{next, next + 1} + multiset{id}) && next !in p && next + 1 !in p
  {
    hide IdsAll, RepAll;
    FreshIds(p, cs, Some(id), next);
    var ids := multiset{id} + IdsAll(cs);
    assert ContextIds(Top) + multiset{id} + IdsAll(cs) == ids;
    DistinctPlus(ids, next);
    DistinctPlus(ids + multiset{next}, next + 1);
    assert ids + multiset{next} + multiset{next + 1} == IdsAll(cs) + multiset{next, next + 1} + multiset{id};
  }

  lemma PairDistinct(id: PageId, l: Tree, r: Tree, cs: seq<Tree>)
    requires Ids(l) + Ids(r) == multiset{l.id, r.id} + IdsAll(cs)
    requires Distinct(IdsAll(cs) + multiset{l.id, r.id} + multiset{id})
    ensures Distinct(multiset{id} + Ids(l) + Ids(r))
  {
    hide Ids, IdsAll;
    assert multiset{id} + Ids(l) + Ids(r) == multiset{id} + (Ids(l) + Ids(r));
    assert multiset{id} + Ids(l) + Ids(r) == IdsAll(cs) + multiset{l.id, r.id} + multiset{id};
  }

  lemma RootLinks(p: Pages, p1: Pages, id: PageId, n: Node, next: nat)
    requires SameLinks(p, p1) && id in p && p[id].InternalNode? && Below(p, next)
             && p1.Keys == p.Keys + {next, next + 1}
    ensures SameLinks(p, p1[id := n]) && Below(p1[id := n], next + 2)
  {
  }

  lemma TopAround(cs: seq<Tree>, t: Tree)
    requires Flat(t) == FlatAll(cs) && Leaves(t) == LeavesAll(cs)
    ensures Around(Top, FlatAll(cs), LeavesAll(cs), t)
    ensures Left(Top) + FlatAll(cs) + Right(Top) == FlatAll(cs)
  {
  }

  lemma PairHolds(id: PageId, l: Tree, r: Tree)
    ensures var t := Branch(id, [l, r]);
            && Flat(t) == Flat(l) + Flat(r) && Leaves(t) == Leaves(l) + Leaves(r)
            && Ids(t) == multiset{id} + Ids(l) + Ids(r)
  {
    assert [l, r] == [l] + [r];
    Concat([l], [r]);
    One(l);
    One(r);
    BranchHolds(id, [l, r]);
  }

  /** A root page over two halves. */
  lemma TwoBranches(width: nat, root: PageId, p: Pages, l: Tree, r: Tree, h: nat, key: Bytes)
    requires Shaped(width, l, h) && Shaped(width, r, h) && key == Min(r)
    requires Rep(p, l, Some(root)) && Rep(p, r, Some(root)) && Distinct(multiset{root} + Ids(l) + Ids(r))
    ensures var q := p[root := InternalNode(None, [key], [l.id, r.id])];
            var t := Branch(root, [l, r]);
            Rep(q, t, None) && Shaped(width, t, h + 1)
  {
    hide Flat, FlatAll, Leaves, LeavesAll, Ids, IdsAll, Min;
    var q := p[root := InternalNode(None, [key], [l.id, r.id])];
    var ids := multiset{root} + Ids(l) + Ids(r);
    Apart(ids, Ids(l), root);
    Apart(ids, Ids(r), root);
    RepFrame(p, q, l, Some(root));
    RepFrame(p, q, r, Some(root));
    assert Roots([l, r]) == [l.id, r.id];
    assert Separators([l, r]) == [Min(r)];
    MinWidth(width, l, h);
    TwoFit(width);
    BranchShaped(width, root, [l, r], h);
  }

  lemma TwoFit(width: nat)
    requires 3 * (4 + width) <= CAPACITY
    ensures InternalFits(width, 2)
  {
  }

  // ---------------------------------------------------------------- leaf splits

  lemma LeafInTree(ctx: Context, id: PageId, entries: seq<Entry>)
    ensures Flat(Plug(ctx, [Leaf(id, entries)])) == Left(ctx) + entries + Right(ctx)
    ensures Leaves(Plug(ctx, [Leaf(id, entries)])) == LeftLeaves(ctx) + [id] + RightLeaves(ctx)
    ensures Ids(Plug(ctx, [Leaf(id, entries)])) == ContextIds(ctx) + multiset{id}
  {
    PlugHolds(ctx, [Leaf(id, entries)]);
    One(Leaf(id, entries));
  }

  /** The leaf in the hole, with everything around it in order. */
  ghost predicate AtLeaf(width: nat, root: PageId, next: nat, p: Pages, ctx: Context, id: PageId, was: seq<Entry>,
                         h: nat) {
    && Sound(width, root, next, p, Plug(ctx, [Leaf(id, was)]), h)
    && Chain(p, Leaves(Plug(ctx, [Leaf(id, was)])))
    && ContextShaped(width, ctx, 0) && (ctx.Down? ==> Shaped(width, Leaf(id, was), 0)) && Height(ctx) == h
  }

  lemma AtLeafFacts(width: nat, root: PageId, next: nat, p: Pages, ctx: Context, id: PageId, was: seq<Entry>, h: nat)
    requires AtLeaf(width, root, next, p, ctx, id, was, h)
    ensures Below(p, next) && Distinct(ContextIds(ctx) + multiset{id})
    ensures ctx.Down? ==> ContextRep(p, ctx, id, Min(Leaf(id, was))) && Rep(p, Leaf(id, was), ParentOf(ctx))
                          && RootId(ctx) == root
    ensures ctx.Top? ==> id == root && Rep(p, Leaf(id, was), None)
    ensures Chain(p, LeftLeaves(ctx) + [id] + RightLeaves(ctx)) && NoRepeat(LeftLeaves(ctx) + [id] + RightLeaves(ctx))
    ensures forall i :: i in LeftLeaves(ctx) + [id] + RightLeaves(ctx) ==> i < next
    ensures SortedEntries(Left(ctx) + was + Right(ctx))
  {
    hide Flat, FlatAll, Leaves, LeavesAll, Ids, IdsAll, Min, Shaped, SortedEntries, Rep, ContextRep, ContextShaped;
    var t := Plug(ctx, [Leaf(id, was)]);
    LeafInTree(ctx, id, was);
    LeavesNoRepeat(t);
    RepIds(p, t, None);
    if ctx.Down? {
      PlugRep(width, p, ctx, Leaf(id, was), 0);
      PlugRoot(ctx, [Leaf(id, was)]);
    }
    forall i | i in Leaves(t) ensures i < next {
      assert i in Ids(t);
    }
  }

  function SplitPages(p: Pages, id: PageId, y: PageId, node: Node, left: seq<Entry>, right: seq<Entry>): Pages
    requires node.LeafNode?
  {
    PointBack(p, node.next, Some(y))
      [id := LeafNode(node.parent, node.previous, Some(y), left)]
      [y := LeafNode(node.parent, Some(id), node.next, right)]
  }

  lemma LeafShaped(width: nat, id: PageId, s: seq<Entry>)
    requires s != [] && EntriesSize(s) <= CAPACITY && EntriesOk(width, s)
    ensures Shaped(width, Leaf(id, s), 0) && Min(Leaf(id, s)) == s[0].key && Flat(Leaf(id, s)) == s
            && Leaves(Leaf(id, s)) == [id]
    ensures Ids(Leaf(id, s)) == multiset{id}
  {
  }

  /** An overfull leaf below the root is cut in two, in the tree and in the chain. */
  lemma LeafCut(width: nat, root: PageId, next: nat, p: Pages, ctx: Context, id: PageId, was: seq<Entry>, h: nat,
                left: seq<Entry>, right: seq<Entry>)
    requires AtLeaf(width, root, next, p, ctx, id, was, h) && ctx.Down?
    requires left != [] && right != [] && EntriesSize(left) <= CAPACITY && EntriesSize(right) <= CAPACITY
    requires EntriesOk(width, left) && EntriesOk(width, right)
    requires SortedEntries(Left(ctx) + (left + right) + Right(ctx))
    requires Leftmost(ctx) || (was != [] && was[0].key == left[0].key)
    ensures id in p && p[id].LeafNode?
    ensures var q := SplitPages(p, id, next, p[id], left, right);
            && Splitting(width, next + 1, q, ctx, Leaf(id, left), Leaf(next, right), 0)
            && Chain(q, LeftLeaves(ctx) + [id, next] + RightLeaves(ctx))
  {
    hide Flat, FlatAll, Leaves, LeavesAll, Ids, IdsAll, Min, SortedEntries, ContextRep, ContextShaped, Chain, Shaped,
         Plug, Sound;
    AtLeafFacts(width, root, next, p, ctx, id, was, h);
    var q := SplitPages(p, id, next, p[id], left, right);
    var l, r := Leaf(id, left), Leaf(next, right);
    LeafShaped(width, id, left);
    LeafShaped(width, next, right);
    LinksHere(p, LeftLeaves(ctx), id, RightLeaves(ctx));
    ChainSplit(p, LeftLeaves(ctx), id, next, RightLeaves(ctx), q[id], q[next]);
    LeafCutContext(width, next, p, ctx, id, was, left, right);
  }

  lemma LeafCutContext(width: nat, next: nat, p: Pages, ctx: Context, id: PageId, was: seq<Entry>, left: seq<Entry>,
                       right: seq<Entry>)
    requires ctx.Down? && Below(p, next) && Distinct(ContextIds(ctx) + multiset{id}) && left != []
    requires ContextRep(p, ctx, id, Min(Leaf(id, was))) && Rep(p, Leaf(id, was), ParentOf(ctx))
    requires Leftmost(ctx) || (was != [] && was[0].key == left[0].key)
    ensures var q := SplitPages(p, id, next, p[id], left, right);
            && ContextRep(q, ctx, id, left[0].key)
            && Rep(q, Leaf(id, left), Some(ctx.id)) && Rep(q, Leaf(next, right), Some(ctx.id))
            && Distinct(ContextIds(ctx) + multiset{id} + multiset{next}) && Below(q, next + 1)
  {
    hide FlatAll, IdsAll, ContextRep, ContextIds;
    var q := SplitPages(p, id, next, p[id], left, right);
    if Leftmost(ctx) {
      LeftmostRep(p, ctx, id, Min(Leaf(id, was)), left[0].key);
    }
    FreshContext(p, ctx, id, left[0].key, next);
    DistinctPlus(ContextIds(ctx) + multiset{id}, next);
    PartsDistinct(ContextIds(ctx), multiset{id});
    RelinkAlike(p, None, p[id].next, None, Some(next), ContextIds(ctx));
    var p1 := PointBack(p, p[id].next, Some(next));
    Passed(p, p1, id, next, q[id], q[next], ContextIds(ctx));
    ContextFrame(p, q, ctx, id, left[0].key);
  }

  lemma PartsDistinct(a: multiset<PageId>, b: multiset<PageId>)
    requires Distinct(a + b)
    ensures Distinct(a) && Distinct(b) && forall i :: i in a ==> i !in b
  {
    DistinctPart(a, a + b);
    DistinctPart(b, a + b);
    forall i | i in a ensures i !in b {
      assert (a + b)[i] <= 1;
    }
  }

  function RootLeafPages(p: Pages, root: PageId, x: PageId, y: PageId, left: seq<Entry>, right: seq<Entry>): Pages
    requires right != []
  {
    p[x := LeafNode(Some(root), None, Some(y), left)]
     [y := LeafNode(Some(root), Some(x), None, right)]
     [root := InternalNode(None, [right[0].key], [x, y])]
  }

  /** An overfull root leaf becomes an internal root over two fresh leaves. */
  lemma RootLeafCut(width: nat, root: PageId, next: nat, p: Pages, was: seq<Entry>, h: nat, left: seq<Entry>,
                    right: seq<Entry>)
    requires AtLeaf(width, root, next, p, Top, root, was, h)
    requires left != [] && right != [] && EntriesSize(left) <= CAPACITY && EntriesSize(right) <= CAPACITY
    requires EntriesOk(width, left) && EntriesOk(width, right) && SortedEntries(left + right)
    ensures var q := RootLeafPages(p, root, next, next + 1, left, right);
            var t := Branch(root, [Leaf(next, left), Leaf(next + 1, right)]);
            && Sound(width, root, next + 2, q, t, 1) && Chain(q, Leaves(t)) && Flat(t) == left + right
  {
    hide Flat, FlatAll, Leaves, LeavesAll, Ids, IdsAll, Min, SortedEntries, Shaped, Plug, Sound;
    AtLeafFacts(width, root, next, p, Top, root, was, h);
    var l, r := Leaf(next, left), Leaf(next + 1, right);
    var p1 := p[next := LeafNode(Some(root), None, Some(next + 1), left)]
               [next + 1 := LeafNode(Some(root), Some(next), None, right)];
    var q := RootLeafPages(p, root, next, next + 1, left, right);
    LeafShaped(width, next, left);
    LeafShaped(width, next + 1, right);
    assert root in p;
    TwoBranches(width, root, p1, l, r, 0, right[0].key);
    PairHolds(root, l, r);
    assert Leaves(Branch(root, [l, r])) == [next, next + 1];
    SoundFrom(width, root, next + 2, q, Branch(root, [l, r]), 1);
  }
}
