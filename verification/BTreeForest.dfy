/** The tree that linked pages stand for, and the same tree with one hole. */
module BTreeForest {
  import opened Wrappers
  import opened Ordering
  import opened BTreeEntries

  type PageId = nat

  /** A decoded page. */
  datatype Node =
    | LeafNode(parent: Option<PageId>, previous: Option<PageId>, next: Option<PageId>, entries: seq<Entry>)
    | InternalNode(parent: Option<PageId>, keys: seq<Bytes>, children: seq<PageId>)

  type Pages = map<PageId, Node>

  datatype Tree = Leaf(id: PageId, entries: seq<Entry>) | Branch(id: PageId, children: seq<Tree>)

  // -------------------------------------------------------------- what it holds

  function Flat(t: Tree): seq<Entry> {
    match t
    case Leaf(_, entries) => entries
    case Branch(_, children) => FlatAll(children)
  }

  function FlatAll(ts: seq<Tree>): seq<Entry> {
    if ts == [] then [] else Flat(ts[0]) + FlatAll(ts[1..])
  }

  function Leaves(t: Tree): seq<PageId> {
    match t
    case Leaf(id, _) => [id]
    case Branch(_, children) => LeavesAll(children)
  }

  function LeavesAll(ts: seq<Tree>): seq<PageId> {
    if ts == [] then [] else Leaves(ts[0]) + LeavesAll(ts[1..])
  }

  /** Every page of the tree, with multiplicity. */
  function Ids(t: Tree): multiset<PageId> {
    match t
    case Leaf(id, _) => multiset{id}
    case Branch(id, children) => multiset{id} + IdsAll(children)
  }

  function IdsAll(ts: seq<Tree>): multiset<PageId> {
    if ts == [] then multiset{} else Ids(ts[0]) + IdsAll(ts[1..])
  }

  lemma {:induction false} FlatConcat(a: seq<Tree>, b: seq<Tree>)
    ensures FlatAll(a + b) == FlatAll(a) + FlatAll(b)
    decreases |a|
  {
    hide Flat;
    if a == [] {
      assert a + b == b && FlatAll(a) == [];
    } else {
      assert (a + b)[1..] == a[1..] + b && (a + b)[0] == a[0];
      FlatConcat(a[1..], b);
      assert FlatAll(a + b) == Flat(a[0]) + (FlatAll(a[1..]) + FlatAll(b));
    }
  }

  lemma {:induction false} LeavesConcat(a: seq<Tree>, b: seq<Tree>)
    ensures LeavesAll(a + b) == LeavesAll(a) + LeavesAll(b)
    decreases |a|
  {
    hide Leaves;
    if a == [] {
      assert a + b == b && LeavesAll(a) == [];
    } else {
      assert (a + b)[1..] == a[1..] + b && (a + b)[0] == a[0];
      LeavesConcat(a[1..], b);
      assert LeavesAll(a + b) == Leaves(a[0]) + (LeavesAll(a[1..]) + LeavesAll(b));
    }
  }

  lemma {:induction false} IdsConcat(a: seq<Tree>, b: seq<Tree>)
    ensures IdsAll(a + b) == IdsAll(a) + IdsAll(b)
    decreases |a|
  {
    hide Ids;
    if a == [] {
      assert a + b == b && IdsAll(a) == multiset{};
    } else {
      assert (a + b)[1..] == a[1..] + b && (a + b)[0] == a[0];
      IdsConcat(a[1..], b);
      assert IdsAll(a + b) == Ids(a[0]) + (IdsAll(a[1..]) + IdsAll(b));
    }
  }

  lemma Concat(a: seq<Tree>, b: seq<Tree>)
    ensures FlatAll(a + b) == FlatAll(a) + FlatAll(b)
    ensures LeavesAll(a + b) == LeavesAll(a) + LeavesAll(b)
    ensures IdsAll(a + b) == IdsAll(a) + IdsAll(b)
  {
    hide FlatAll, LeavesAll, IdsAll;
    FlatConcat(a, b);
    LeavesConcat(a, b);
    IdsConcat(a, b);
  }

  lemma One(t: Tree)
    ensures FlatAll([t]) == Flat(t) && LeavesAll([t]) == Leaves(t) && IdsAll([t]) == Ids(t)
  {
    assert [t][1..] == [];
  }

  lemma {:induction false} MemberIds(ts: seq<Tree>, t: Tree)
    requires t in ts
    ensures Ids(t) <= IdsAll(ts) && t.id in Ids(t)
    decreases |ts|
  {
    if ts[0] != t {
      MemberIds(ts[1..], t);
    }
  }

  // ---------------------------------------------------------------- well-formed

  /** Encoded size of an internal page with `n` children and keys of fixed width. */
  predicate InternalFits(width: nat, n: nat) {
    8 + (n - 1) * (width + 10) <= CAPACITY
  }

  ghost predicate EntriesOk(width: nat, s: seq<Entry>) {
    forall e {:trigger e in s} :: e in s ==> |e.key| == width && 3 * EntrySize(e) <= CAPACITY
  }

  /** Equal depth `h`, no empty leaf, no childless branch, every page fits. */
  ghost predicate Shaped(width: nat, t: Tree, h: nat) {
    match t
    case Leaf(_, entries) => h == 0 && entries != [] && EntriesSize(entries) <= CAPACITY && EntriesOk(width, entries)
    case Branch(_, children) =>
      && h > 0 && children != [] && InternalFits(width, |children|)
      && (forall c {:trigger c in children} :: c in children ==> Shaped(width, c, h - 1))
  }

  ghost predicate AllShaped(width: nat, ts: seq<Tree>, h: nat) {
    forall c {:trigger c in ts} :: c in ts ==> Shaped(width, c, h)
  }

  /** The root alone may be an empty leaf. */
  ghost predicate RootShaped(width: nat, t: Tree, h: nat) {
    Shaped(width, t, h) || (t.Leaf? && t.entries == [] && h == 0)
  }

  ghost predicate Distinct(ids: multiset<PageId>) {
    forall i {:trigger ids[i]} :: ids[i] <= 1
  }

  lemma {:induction false} ShapedNonEmpty(width: nat, t: Tree, h: nat)
    requires Shaped(width, t, h)
    ensures Flat(t) != []
    decreases h
  {
    if t.Branch? {
      assert t.children[0] in t.children;
      ShapedNonEmpty(width, t.children[0], h - 1);
    }
  }

  function Min(t: Tree): Bytes {
    if Flat(t) == [] then [] else Flat(t)[0].key
  }

  /** A branch starts where its first child starts. */
  lemma MinBranch(width: nat, id: PageId, ts: seq<Tree>, h: nat)
    requires ts != [] && Shaped(width, ts[0], h)
    ensures Min(Branch(id, ts)) == Min(ts[0])
  {
    ShapedNonEmpty(width, ts[0], h);
    assert Flat(Branch(id, ts)) == Flat(ts[0]) + FlatAll(ts[1..]);
  }

  lemma BranchShaped(width: nat, id: PageId, ts: seq<Tree>, h: nat)
    requires ts != [] && InternalFits(width, |ts|) && AllShaped(width, ts, h)
    ensures Shaped(width, Branch(id, ts), h + 1)
  {
  }

  function Roots(ts: seq<Tree>): seq<PageId> {
    seq(|ts|, i requires 0 <= i < |ts| => ts[i].id)
  }

  /** Exact separators: the minimum of every child but the first. */
  function Separators(ts: seq<Tree>): seq<Bytes> {
    if ts == [] then [] else seq(|ts| - 1, i requires 0 <= i < |ts| - 1 => Min(ts[i + 1]))
  }

  // ------------------------------------------------------------- representation

  /** The pages at and below `t.id` are exactly `t`, sibling links aside. */
  ghost predicate Rep(pages: Pages, t: Tree, parent: Option<PageId>) {
    t.id in pages && pages[t.id].parent == parent &&
    match t
    case Leaf(_, entries) => pages[t.id].LeafNode? && pages[t.id].entries == entries
    case Branch(_, children) =>
      && pages[t.id].InternalNode? && pages[t.id].children == Roots(children)
         && pages[t.id].keys == Separators(children)
      && (forall c {:trigger Rep(pages, c, Some(t.id))} :: c in children ==> Rep(pages, c, Some(t.id)))
  }

  ghost predicate RepAll(pages: Pages, ts: seq<Tree>, parent: Option<PageId>) {
    forall c {:trigger Rep(pages, c, parent)} :: c in ts ==> Rep(pages, c, parent)
  }

  /** Equal pages, except that a leaf may be relinked to other siblings. */
  predicate Alike(a: Node, b: Node) {
    if a.LeafNode? then b.LeafNode? && b.parent == a.parent && b.entries == a.entries else b == a
  }

  ghost predicate SameOn(p: Pages, q: Pages, ids: multiset<PageId>) {
    forall i {:trigger ids[i]} {:trigger i in q} :: i in ids && i in p ==> i in q && Alike(p[i], q[i])
  }

  lemma {:induction false} RepFrame(p: Pages, q: Pages, t: Tree, parent: Option<PageId>)
    requires Rep(p, t, parent) && SameOn(p, q, Ids(t))
    ensures Rep(q, t, parent)
    decreases t
  {
    assert t.id in Ids(t);
    if t.Branch? {
      forall c | c in t.children ensures Rep(q, c, Some(t.id)) {
        MemberIds(t.children, c);
        RepFrame(p, q, c, Some(t.id));
      }
    }
  }

  lemma RepAllFrame(p: Pages, q: Pages, ts: seq<Tree>, parent: Option<PageId>)
    requires RepAll(p, ts, parent) && SameOn(p, q, IdsAll(ts))
    ensures RepAll(q, ts, parent)
  {
    forall c | c in ts ensures Rep(q, c, parent) {
      MemberIds(ts, c);
      RepFrame(p, q, c, parent);
    }
  }

  lemma {:induction false} RepIds(pages: Pages, t: Tree, parent: Option<PageId>)
    requires Rep(pages, t, parent)
    ensures forall i {:trigger Ids(t)[i]} :: i in Ids(t) ==> i in pages
    decreases t
  {
    if t.Branch? {
      RepAllIds(pages, t.children, Some(t.id));
    }
  }

  lemma {:induction false} RepAllIds(pages: Pages, ts: seq<Tree>, parent: Option<PageId>)
    requires RepAll(pages, ts, parent)
    ensures forall i {:trigger IdsAll(ts)[i]} :: i in IdsAll(ts) ==> i in pages
    decreases ts
  {
    if ts != [] {
      RepIds(pages, ts[0], parent);
      assert forall c :: c in ts[1..] ==> c in ts;
      RepAllIds(pages, ts[1..], parent);
    }
  }

  // ---------------------------------------------------------------- leaf chain

  predicate Linked(pages: Pages, leaves: seq<PageId>, i: nat) {
    i < |leaves| ==>
      && leaves[i] in pages && pages[leaves[i]].LeafNode?
      && pages[leaves[i]].previous == (if i == 0 then None else Some(leaves[i - 1]))
      && pages[leaves[i]].next == (if i + 1 == |leaves| then None else Some(leaves[i + 1]))
  }

  ghost predicate Chain(pages: Pages, leaves: seq<PageId>) {
    forall i {:trigger Linked(pages, leaves, i)} :: Linked(pages, leaves, i)
  }

  /** Leaves keep their links and contents; only parents may differ. */
  ghost predicate SameLinks(p: Pages, q: Pages) {
    forall i {:trigger i in q} {:trigger i in p} :: i in p && p[i].LeafNode? ==>
      i in q && q[i].LeafNode? && q[i].previous == p[i].previous && q[i].next == p[i].next
        && q[i].entries == p[i].entries
  }

  lemma ChainFrame(p: Pages, q: Pages, leaves: seq<PageId>)
    requires Chain(p, leaves) && SameLinks(p, q)
    ensures Chain(q, leaves)
  {
    forall i ensures Linked(q, leaves, i) {
      assert Linked(p, leaves, i);
    }
  }

  // ------------------------------------------------------------------ contexts

  /** A tree with a hole: the spine above it, and the siblings along the way. */
  datatype Context = Top | Down(up: Context, id: PageId, before: seq<Tree>, after: seq<Tree>)

  function Plug(ctx: Context, ts: seq<Tree>): Tree
    requires ctx.Top? ==> |ts| == 1
    decreases ctx
  {
    match ctx
    case Top => ts[0]
    case Down(up, id, before, after) => Plug(up, [Branch(id, before + ts + after)])
  }

  function Left(ctx: Context): seq<Entry> {
    if ctx.Top? then [] else Left(ctx.up) + FlatAll(ctx.before)
  }

  function Right(ctx: Context): seq<Entry> {
    if ctx.Top? then [] else FlatAll(ctx.after) + Right(ctx.up)
  }

  function LeftLeaves(ctx: Context): seq<PageId> {
    if ctx.Top? then [] else LeftLeaves(ctx.up) + LeavesAll(ctx.before)
  }

  function RightLeaves(ctx: Context): seq<PageId> {
    if ctx.Top? then [] else LeavesAll(ctx.after) + RightLeaves(ctx.up)
  }

  function ContextIds(ctx: Context): multiset<PageId> {
    if ctx.Top? then multiset{} else ContextIds(ctx.up) + multiset{ctx.id} + IdsAll(ctx.before) + IdsAll(ctx.after)
  }

  function ParentOf(ctx: Context): Option<PageId> {
    if ctx.Top? then None else Some(ctx.id)
  }

  function Height(ctx: Context): nat {
    if ctx.Top? then 0 else Height(ctx.up) + 1
  }

  lemma PlugHolds(ctx: Context, ts: seq<Tree>)
    requires ctx.Top? ==> |ts| == 1
    ensures Flat(Plug(ctx, ts)) == Left(ctx) + FlatAll(ts) + Right(ctx)
    ensures Leaves(Plug(ctx, ts)) == LeftLeaves(ctx) + LeavesAll(ts) + RightLeaves(ctx)
    ensures Ids(Plug(ctx, ts)) == ContextIds(ctx) + IdsAll(ts)
  {
    PlugFlat(ctx, ts);
    PlugLeaves(ctx, ts);
    PlugIds(ctx, ts);
  }

  lemma ThreeParts(id: PageId, a: seq<Tree>, b: seq<Tree>, c: seq<Tree>)
    ensures var t := [Branch(id, a + b + c)];
            && FlatAll(t) == FlatAll(a) + FlatAll(b) + FlatAll(c)
            && LeavesAll(t) == LeavesAll(a) + LeavesAll(b) + LeavesAll(c)
            && IdsAll(t) == multiset{id} + IdsAll(a) + IdsAll(b) + IdsAll(c)
  {
    One(Branch(id, a + b + c));
    Concat(a + b, c);
    Concat(a, b);
  }

  lemma Regroup<T>(a: seq<T>, b: seq<T>, c: seq<T>, d: seq<T>, e: seq<T>)
    ensures a + (b + c + d) + e == (a + b) + c + (d + e)
  {
  }

  lemma {:induction false} PlugFlat(ctx: Context, ts: seq<Tree>)
    requires ctx.Top? ==> |ts| == 1
    ensures Flat(Plug(ctx, ts)) == Left(ctx) + FlatAll(ts) + Right(ctx)
    decreases ctx
  {
    hide Flat, FlatAll;
    if ctx.Top? {
      One(ts[0]);
      assert ts == [ts[0]];
    } else {
      PlugFlat(ctx.up, [Branch(ctx.id, ctx.before + ts + ctx.after)]);
      ThreeParts(ctx.id, ctx.before, ts, ctx.after);
      Regroup(Left(ctx.up), FlatAll(ctx.before), FlatAll(ts), FlatAll(ctx.after), Right(ctx.up));
    }
  }

  lemma {:induction false} PlugLeaves(ctx: Context, ts: seq<Tree>)
    requires ctx.Top? ==> |ts| == 1
    ensures Leaves(Plug(ctx, ts)) == LeftLeaves(ctx) + LeavesAll(ts) + RightLeaves(ctx)
    decreases ctx
  {
    hide Leaves, LeavesAll;
    if ctx.Top? {
      One(ts[0]);
      assert ts == [ts[0]];
    } else {
      PlugLeaves(ctx.up, [Branch(ctx.id, ctx.before + ts + ctx.after)]);
      ThreeParts(ctx.id, ctx.before, ts, ctx.after);
      Regroup(LeftLeaves(ctx.up), LeavesAll(ctx.before), LeavesAll(ts), LeavesAll(ctx.after), RightLeaves(ctx.up));
    }
  }

  lemma {:induction false} PlugIds(ctx: Context, ts: seq<Tree>)
    requires ctx.Top? ==> |ts| == 1
    ensures Ids(Plug(ctx, ts)) == ContextIds(ctx) + IdsAll(ts)
    decreases ctx
  {
    hide Ids, IdsAll;
    if ctx.Top? {
      One(ts[0]);
      assert ts == [ts[0]];
    } else {
      PlugIds(ctx.up, [Branch(ctx.id, ctx.before + ts + ctx.after)]);
      ThreeParts(ctx.id, ctx.before, ts, ctx.after);
    }
  }

  ghost predicate ContextShaped(width: nat, ctx: Context, h: nat)
    decreases ctx
  {
    match ctx
    case Top => true
    case Down(up, id, before, after) =>
      && InternalFits(width, |before| + 1 + |after|)
      && AllShaped(width, before, h) && AllShaped(width, after, h)
      && ContextShaped(width, up, h + 1)
  }

  lemma {:induction false} PlugShaped(width: nat, ctx: Context, t: Tree, h: nat)
    requires ContextShaped(width, ctx, h) && Shaped(width, t, h)
    ensures Shaped(width, Plug(ctx, [t]), h + Height(ctx))
    decreases ctx
  {
    if ctx.Down? {
      var b := Branch(ctx.id, ctx.before + [t] + ctx.after);
      assert Shaped(width, b, h + 1);
      PlugShaped(width, ctx.up, b, h + 1);
    }
  }

  /** The spine's pages are right for a hole holding one node `id` that starts at `min`. */
  ghost predicate ContextRep(pages: Pages, ctx: Context, hole: PageId, min: Bytes)
    decreases ctx
  {
    match ctx
    case Top => true
    case Down(up, id, before, after) =>
      && id in pages && pages[id].InternalNode? && pages[id].parent == ParentOf(up)
      && pages[id].children == Roots(before) + [hole] + Roots(after)
      && pages[id].keys == Bounds(before, min, after)
      && RepAll(pages, before, Some(id)) && RepAll(pages, after, Some(id))
      && ContextRep(pages, up, id, if before == [] then min else Min(before[0]))
  }

  /** The separators of `before`, a node starting at `min`, then `after`. */
  function Bounds(before: seq<Tree>, min: Bytes, after: seq<Tree>): seq<Bytes> {
    (if before == [] then [] else Separators(before) + [min]) + Mins(after)
  }

  function Mins(ts: seq<Tree>): seq<Bytes> {
    seq(|ts|, i requires 0 <= i < |ts| => Min(ts[i]))
  }

  lemma SeparatorsSplit(before: seq<Tree>, t: Tree, after: seq<Tree>)
    ensures Separators(before + [t] + after) == Bounds(before, Min(t), after)
    ensures Roots(before + [t] + after) == Roots(before) + [t.id] + Roots(after)
  {
    hide Min;
    var all := before + [t] + after;
    RootsSplit(before, t, after);
    var s, b := Separators(all), Bounds(before, Min(t), after);
    assert |s| == |b|;
    forall i | 0 <= i < |s| ensures s[i] == b[i] {
      assert s[i] == Min(all[i + 1]);
    }
  }

  lemma RootsSplit(before: seq<Tree>, t: Tree, after: seq<Tree>)
    ensures Roots(before + [t] + after) == Roots(before) + [t.id] + Roots(after)
  {
  }

  lemma SameParts(p: Pages, q: Pages, ctx: Context)
    requires ctx.Down? && ctx.id in p && SameOn(p, q, ContextIds(ctx))
    ensures SameOn(p, q, IdsAll(ctx.before)) && SameOn(p, q, IdsAll(ctx.after)) && SameOn(p, q, ContextIds(ctx.up))
    ensures ctx.id in q && Alike(p[ctx.id], q[ctx.id])
  {
    hide IdsAll, Alike;
    assert ctx.id in ContextIds(ctx);
    PartSame(p, q, IdsAll(ctx.before), ContextIds(ctx));
    PartSame(p, q, IdsAll(ctx.after), ContextIds(ctx));
    PartSame(p, q, ContextIds(ctx.up), ContextIds(ctx));
  }

  lemma PartSame(p: Pages, q: Pages, part: multiset<PageId>, ids: multiset<PageId>)
    requires part <= ids && SameOn(p, q, ids)
    ensures SameOn(p, q, part)
  {
    hide Alike;
    forall i | i in part && i in p ensures i in q && Alike(p[i], q[i]) {
      assert i in ids;
    }
  }

  lemma {:induction false} ContextFrame(p: Pages, q: Pages, ctx: Context, hole: PageId, min: Bytes)
    requires ContextRep(p, ctx, hole, min) && SameOn(p, q, ContextIds(ctx))
    ensures ContextRep(q, ctx, hole, min)
    decreases ctx
  {
    hide SameOn, ContextIds, IdsAll, RepAll, Roots, Bounds, Min;
    if ctx.Down? {
      SameParts(p, q, ctx);
      RepAllFrame(p, q, ctx.before, Some(ctx.id));
      RepAllFrame(p, q, ctx.after, Some(ctx.id));
      ContextFrame(p, q, ctx.up, ctx.id, if ctx.before == [] then min else Min(ctx.before[0]));
    }
  }

  /** Filling the hole with the node it expects gives the whole tree, and back. */
  lemma {:induction false} PlugRep(width: nat, pages: Pages, ctx: Context, t: Tree, h: nat)
    requires ContextShaped(width, ctx, h) && Shaped(width, t, h)
    ensures Rep(pages, Plug(ctx, [t]), None) <==> ContextRep(pages, ctx, t.id, Min(t)) && Rep(pages, t, ParentOf(ctx))
    decreases ctx
  {
    hide Shaped, AllShaped, Rep, RepAll, Roots, Bounds, Min;
    if ctx.Down? {
      var cs := ctx.before + [t] + ctx.after;
      var b := Branch(ctx.id, cs);
      HoleShaped(width, ctx, t, h);
      PlugRep(width, pages, ctx.up, b, h + 1);
      BranchRep(pages, ctx, t);
    }
  }

  lemma HoleShaped(width: nat, ctx: Context, t: Tree, h: nat)
    requires ctx.Down? && ContextShaped(width, ctx, h) && Shaped(width, t, h)
    ensures var b := Branch(ctx.id, ctx.before + [t] + ctx.after);
            Shaped(width, b, h + 1) && Min(b) == if ctx.before == [] then Min(t) else Min(ctx.before[0])
  {
    var cs := ctx.before + [t] + ctx.after;
    assert cs[0] in cs && cs[0] == if ctx.before == [] then t else ctx.before[0];
    assert forall c :: c in cs ==> c in ctx.before || c == t || c in ctx.after;
    assert Shaped(width, Branch(ctx.id, cs), h + 1);
    MinBranch(width, ctx.id, cs, h);
  }

  lemma BranchRep(pages: Pages, ctx: Context, t: Tree)
    requires ctx.Down?
    ensures Rep(pages, Branch(ctx.id, ctx.before + [t] + ctx.after), ParentOf(ctx.up)) <==>
              && ctx.id in pages && pages[ctx.id].InternalNode? && pages[ctx.id].parent == ParentOf(ctx.up)
              && pages[ctx.id].children == Roots(ctx.before) + [t.id] + Roots(ctx.after)
              && pages[ctx.id].keys == Bounds(ctx.before, Min(t), ctx.after)
              && RepAll(pages, ctx.before, Some(ctx.id)) && RepAll(pages, ctx.after, Some(ctx.id))
              && Rep(pages, t, Some(ctx.id))
  {
    var cs := ctx.before + [t] + ctx.after;
    SeparatorsSplit(ctx.before, t, ctx.after);
    assert forall c :: c in cs <==> c in ctx.before || c == t || c in ctx.after;
    assert RepAll(pages, cs, Some(ctx.id)) <==>
             RepAll(pages, ctx.before, Some(ctx.id)) && RepAll(pages, ctx.after, Some(ctx.id))
               && Rep(pages, t, Some(ctx.id));
  }

  /** No separator above the hole depends on where the hole starts. */
  predicate Leftmost(ctx: Context) {
    ctx.Top? || (ctx.before == [] && Leftmost(ctx.up))
  }

  lemma {:induction false} LeftmostRep(pages: Pages, ctx: Context, hole: PageId, min: Bytes, other: Bytes)
    requires Leftmost(ctx) && ContextRep(pages, ctx, hole, min)
    ensures ContextRep(pages, ctx, hole, other)
    decreases ctx
  {
    if ctx.Down? {
      LeftmostRep(pages, ctx.up, ctx.id, min, other);
    }
  }
}
