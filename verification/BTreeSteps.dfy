/** One structural change at a time: what it does to the tree the pages stand for. */
module BTreeSteps {
  import opened Wrappers
  import opened Ordering
  import opened BTreeEntries
  import opened BTreeForest

  lemma Untouched(p: Pages, i: PageId, n: Node, ids: multiset<PageId>)
    requires i !in ids
    ensures SameOn(p, p[i := n], ids)
  {
  }

  // ------------------------------------------------------------------- descent

  lemma Middle(cs: seq<Tree>, i: nat)
    requires i < |cs|
    ensures cs[..i] + [cs[i]] + cs[i + 1..] == cs
  {
  }

  lemma MemberSplit(cs: seq<Tree>, i: nat)
    requires i < |cs|
    ensures cs[..i] + [cs[i]] + cs[i + 1..] == cs
    ensures FlatAll(cs) == FlatAll(cs[..i]) + Flat(cs[i]) + FlatAll(cs[i + 1..])
  {
    hide Flat, FlatAll, LeavesAll, IdsAll;
    var a, b := cs[..i], cs[i + 1..];
    Middle(cs, i);
    Concat(a + [cs[i]], b);
    Concat(a, [cs[i]]);
    One(cs[i]);
  }

  lemma FirstIsMin(t: Tree)
    requires Flat(t) != []
    ensures Flat(t)[0] in Flat(t) && Flat(t)[0].key == Min(t)
  {
  }

  lemma {:induction false} HeadIsLeast(s: seq<Entry>)
    requires s != [] && SortedEntries(s)
    ensures forall e :: e in s ==> LessEq(s[0].key, e.key)
  {
  }

  /** Everything before a child is below its minimum, everything from it on is not. */
  lemma ChildOrder(cs: seq<Tree>, i: nat)
    requires i < |cs| && Flat(cs[i]) != [] && SortedEntries(FlatAll(cs))
    ensures AllBelow(FlatAll(cs[..i]), Min(cs[i]))
    ensures forall e :: e in FlatAll(cs[i..]) ==> LessEq(Min(cs[i]), e.key)
  {
    hide Flat, FlatAll, SortedEntries, LeavesAll, IdsAll;
    MemberSplit(cs, i);
    var a, m, b := FlatAll(cs[..i]), Flat(cs[i]), FlatAll(cs[i + 1..]);
    assert FlatAll(cs) == a + (m + b);
    SortedParts(a, m + b);
    assert FlatAll(cs[i..]) == m + b by {
      assert cs[i..] == [cs[i]] + cs[i + 1..];
      Concat([cs[i]], cs[i + 1..]);
      One(cs[i]);
    }
    HeadIsLeast(m + b);
    assert (m + b)[0] == m[0] && m[0] in m + b;
  }

  lemma SeparatorsAscend(width: nat, cs: seq<Tree>, h: nat, i: nat, j: nat)
    requires AllShaped(width, cs, h) && SortedEntries(FlatAll(cs)) && 0 <= i < j < |Separators(cs)|
    ensures Less(Separators(cs)[i], Separators(cs)[j])
  {
    hide Flat, FlatAll, Separators, Shaped, Min, SortedEntries;
    SeparatorsLength(cs);
    SeparatorAt(cs, i);
    SeparatorAt(cs, j);
    assert cs[i + 1] in cs && cs[j + 1] in cs;
    ShapedNonEmpty(width, cs[i + 1], h);
    ShapedNonEmpty(width, cs[j + 1], h);
    ChildOrder(cs, j + 1);
    FirstIsMin(cs[i + 1]);
    MemberSplit(cs[..j + 1], i + 1);
    assert cs[..j + 1][i + 1] == cs[i + 1];
    assert Flat(cs[i + 1])[0] in FlatAll(cs[..j + 1]);
  }

  lemma BelowTrans(s: seq<Entry>, a: Bytes, b: Bytes)
    requires AllBelow(s, a) && LessEq(a, b)
    ensures AllBelow(s, b)
  {
    forall e | e in s ensures Less(e.key, b) {
      if a != b {
        LessTransitive(e.key, a, b);
      }
    }
  }

  /** Choosing the child by counting separators at or below the key keeps everything
      to the left below it and everything to the right above it. */
  lemma ChildBounds(width: nat, cs: seq<Tree>, h: nat, i: nat, key: Bytes)
    requires AllShaped(width, cs, h) && SortedEntries(FlatAll(cs)) && i < |cs|
    requires i > 0 ==> LessEq(Separators(cs)[i - 1], key)
    requires i + 1 < |cs| ==> Less(key, Separators(cs)[i])
    ensures AllBelow(FlatAll(cs[..i]), key) && AllAbove(FlatAll(cs[i + 1..]), key)
  {
    if i > 0 {
      assert cs[i] in cs;
      ShapedNonEmpty(width, cs[i], h);
      ChildOrder(cs, i);
      BelowTrans(FlatAll(cs[..i]), Min(cs[i]), key);
    } else {
      assert cs[..i] == [];
    }
    if i + 1 < |cs| {
      assert cs[i + 1] in cs;
      ShapedNonEmpty(width, cs[i + 1], h);
      ChildOrder(cs, i + 1);
      forall e | e in FlatAll(cs[i + 1..]) ensures Less(key, e.key) {
        if e.key != Min(cs[i + 1]) {
          LessTransitive(key, Min(cs[i + 1]), e.key);
        }
      }
    } else {
      assert cs[i + 1..] == [];
    }
  }

  function Deeper(ctx: Context, t: Tree, i: nat): Context
    requires t.Branch? && i < |t.children|
  {
    Down(ctx, t.id, t.children[..i], t.children[i + 1..])
  }

  /** One step down: the chosen child fills a hole one level deeper. */
  lemma DescendPlug(ctx: Context, t: Tree, i: nat)
    requires t.Branch? && i < |t.children|
    ensures Plug(Deeper(ctx, t, i), [t.children[i]]) == Plug(ctx, [t]) && Height(Deeper(ctx, t, i)) == Height(ctx) + 1
  {
    hide Flat, FlatAll;
    MemberSplit(t.children, i);
    assert t == Branch(t.id, t.children);
  }

  lemma DescendShaped(width: nat, ctx: Context, t: Tree, h: nat, i: nat)
    requires ContextShaped(width, ctx, h) && Shaped(width, t, h) && t.Branch? && i < |t.children|
    ensures h > 0 && ContextShaped(width, Deeper(ctx, t, i), h - 1) && Shaped(width, t.children[i], h - 1)
  {
    var cs := t.children;
    assert cs[i] in cs;
    ChildrenShaped(width, t, h);
    PartShaped(width, cs, cs[..i], h - 1);
    PartShaped(width, cs, cs[i + 1..], h - 1);
  }

  lemma ChildrenShaped(width: nat, t: Tree, h: nat)
    requires Shaped(width, t, h) && t.Branch?
    ensures h > 0 && AllShaped(width, t.children, h - 1)
  {
  }

  lemma PartShaped(width: nat, cs: seq<Tree>, part: seq<Tree>, h: nat)
    requires AllShaped(width, cs, h) && forall c :: c in part ==> c in cs
    ensures AllShaped(width, part, h)
  {
  }

  lemma DescendMin(width: nat, t: Tree, h: nat, i: nat)
    requires Shaped(width, t, h) && t.Branch? && i < |t.children|
    ensures i == 0 ==> Min(t.children[0]) == Min(t)
    ensures i > 0 ==> Separators(t.children)[i - 1] == Min(t.children[i])
  {
    hide Flat, FlatAll;
    assert t.children[0] in t.children;
    MinBranch(width, t.id, t.children, h - 1);
  }

  // --------------------------------------------------------------- adopting pages

  /** Every page in `kids` gets parent `id`. */
  function SetParents(p: Pages, kids: seq<PageId>, id: PageId): Pages {
    map i | i in p :: if i in kids then p[i].(parent := Some(id)) else p[i]
  }

  lemma {:induction false} RootOnce(ts: seq<Tree>, c: Tree, i: PageId)
    requires Distinct(IdsAll(ts)) && c in ts && i in Ids(c) && i in Roots(ts)
    ensures i == c.id
    decreases |ts|
  {
    var d :| d in ts && d.id == i;
    assert IdsAll(ts)[i] == Ids(ts[0])[i] + IdsAll(ts[1..])[i];
    if d != c {
      if c == ts[0] {
        assert d in ts[1..];
        MemberIds(ts[1..], d);
      } else if d == ts[0] {
        assert c in ts[1..];
        MemberIds(ts[1..], c);
        MemberIds([d], d);
      } else {
        assert c in ts[1..] && d in ts[1..];
        assert forall x :: IdsAll(ts[1..])[x] <= IdsAll(ts)[x];
        var k :| 0 <= k < |ts[1..]| && ts[1..][k] == d;
        assert Roots(ts[1..])[k] == i;
        RootOnce(ts[1..], c, i);
      }
    }
  }

  lemma Reparented(p: Pages, q: Pages, c: Tree, parent: Option<PageId>, x: PageId)
    requires Rep(p, c, parent) && Distinct(Ids(c))
    requires c.id in q && Alike(p[c.id].(parent := Some(x)), q[c.id])
    requires forall i {:trigger i in q} :: i in Ids(c) && i != c.id && i in p ==> i in q && Alike(p[i], q[i])
    ensures Rep(q, c, Some(x))
  {
    if c.Branch? {
      assert Ids(c)[c.id] <= 1;
      assert c.id !in IdsAll(c.children);
      RepAllFrame(p, q, c.children, Some(c.id));
    }
  }

  lemma {:induction false} MemberDistinct(ts: seq<Tree>, c: Tree)
    requires Distinct(IdsAll(ts)) && c in ts
    ensures Distinct(Ids(c))
  {
    MemberIds(ts, c);
    forall i ensures Ids(c)[i] <= 1 {
      assert Ids(c)[i] <= IdsAll(ts)[i];
    }
  }

  /** An internal page over adopted children is a branch. */
  lemma BranchBuilt(p: Pages, q: Pages, x: PageId, ts: seq<Tree>, was: Option<PageId>, parent: Option<PageId>)
    requires RepAll(p, ts, was) && Distinct(IdsAll(ts))
    requires x in q && q[x] == InternalNode(parent, Separators(ts), Roots(ts))
    requires SameOn(SetParents(p, Roots(ts), x), q, IdsAll(ts))
    ensures Rep(q, Branch(x, ts), parent)
  {
    forall c | c in ts ensures Rep(q, c, Some(x)) {
      var k :| 0 <= k < |ts| && ts[k] == c;
      assert Roots(ts)[k] == c.id;
      MemberIds(ts, c);
      MemberDistinct(ts, c);
      assert Rep(p, c, was);
      RepIds(p, c, was);
      forall i | i in Ids(c) && i != c.id && i in p ensures i in q && Alike(p[i], q[i]) {
        if i in Roots(ts) {
          RootOnce(ts, c, i);
        }
      }
      Reparented(p, q, c, was, x);
    }
  }

  // ---------------------------------------------------------------------- growing

  /** `parts` are disjoint from each other and from page `i`. */
  lemma Apart(ids: multiset<PageId>, a: multiset<PageId>, i: PageId)
    requires Distinct(ids) && a + multiset{i} <= ids
    ensures i !in a
  {
    assert (a + multiset{i})[i] == a[i] + 1;
    assert ids[i] <= 1;
  }

  lemma GrowChildren(width: nat, pages: Pages, ctx: Context, l: Tree, r: Tree, h: nat)
    requires ctx.Down? && Shaped(width, l, h) && Shaped(width, r, h) && AllShaped(width, ctx.before, h)
             && AllShaped(width, ctx.after, h)
    requires RepAll(pages, ctx.before, Some(ctx.id)) && RepAll(pages, ctx.after, Some(ctx.id))
             && Rep(pages, l, Some(ctx.id)) && Rep(pages, r, Some(ctx.id))
    ensures var cs := ctx.before + [l, r] + ctx.after;
            && |cs| == |ctx.before| + 2 + |ctx.after| && AllShaped(width, cs, h) && RepAll(pages, cs, Some(ctx.id))
            && cs[0] == if ctx.before == [] then l else ctx.before[0]
  {
    hide Shaped, Rep;
    var cs := ctx.before + [l, r] + ctx.after;
    assert forall c :: c in cs ==> c in ctx.before || c == l || c == r || c in ctx.after;
  }

  /** A parent with room takes the new right sibling. */
  lemma Grow(width: nat, pages: Pages, ctx: Context, l: Tree, r: Tree, h: nat)
    requires ctx.Down? && Shaped(width, l, h) && Shaped(width, r, h) && ContextShaped(width, ctx, h)
    requires ContextRep(pages, ctx, l.id, Min(l)) && Rep(pages, l, Some(ctx.id)) && Rep(pages, r, Some(ctx.id))
    requires Distinct(ContextIds(ctx) + Ids(l) + Ids(r))
    requires InternalFits(width, |ctx.before| + 2 + |ctx.after|)
    ensures var cs := ctx.before + [l, r] + ctx.after;
            var q := pages[ctx.id := InternalNode(ParentOf(ctx.up), Separators(cs), Roots(cs))];
            && Rep(q, Plug(ctx.up, [Branch(ctx.id, cs)]), None)
            && Shaped(width, Plug(ctx.up, [Branch(ctx.id, cs)]), h + Height(ctx))
  {
    hide Flat, FlatAll, Leaves, LeavesAll, Ids, IdsAll, Min, Separators, Plug, Distinct, InternalFits, Shaped,
         AllShaped, Rep, RepAll, Roots, Bounds;
    var cs := ctx.before + [l, r] + ctx.after;
    GrowChildren(width, pages, ctx, l, r, h);
    GrowApart(ctx, l, r);
    PlaceBranch(width, pages, ctx.up, ctx.id, cs, h);
  }

  /** Rewriting a spine page over children it already parents. */
  lemma PlaceBranch(width: nat, pages: Pages, up: Context, id: PageId, cs: seq<Tree>, h: nat)
    requires cs != [] && AllShaped(width, cs, h) && InternalFits(width, |cs|) && ContextShaped(width, up, h + 1)
    requires RepAll(pages, cs, Some(id)) && ContextRep(pages, up, id, Min(cs[0]))
    requires id !in IdsAll(cs) && id !in ContextIds(up)
    ensures var q := pages[id := InternalNode(ParentOf(up), Separators(cs), Roots(cs))];
            && Rep(q, Plug(up, [Branch(id, cs)]), None)
            && Shaped(width, Plug(up, [Branch(id, cs)]), h + 1 + Height(up))
  {
    hide Flat, FlatAll, Leaves, LeavesAll, Ids, IdsAll, Min, Separators, Plug, ContextRep;
    var b := Branch(id, cs);
    var q := pages[id := InternalNode(ParentOf(up), Separators(cs), Roots(cs))];
    BranchShaped(width, id, cs, h);
    assert cs[0] in cs;
    MinBranch(width, id, cs, h);
    RepAllFrame(pages, q, cs, Some(id));
    assert Rep(q, b, ParentOf(up));
    ContextFrame(pages, q, up, id, Min(b));
    PlugRep(width, q, up, b, h + 1);
    PlugShaped(width, up, b, h + 1);
  }

  lemma GrowApart(ctx: Context, l: Tree, r: Tree)
    requires ctx.Down? && Distinct(ContextIds(ctx) + Ids(l) + Ids(r))
    ensures ctx.id !in IdsAll(ctx.before + [l, r] + ctx.after) && ctx.id !in ContextIds(ctx.up)
    ensures Distinct(ContextIds(ctx.up) + multiset{ctx.id} + IdsAll(ctx.before + [l, r] + ctx.after))
  {
    hide Flat, FlatAll, Leaves, LeavesAll, Ids, IdsAll, Distinct;
    var ids := ContextIds(ctx) + Ids(l) + Ids(r);
    Concat(ctx.before + [l, r], ctx.after);
    Concat(ctx.before, [l, r]);
    assert [l, r] == [l] + [r];
    Concat([l], [r]);
    One(l);
    One(r);
    var all := IdsAll(ctx.before + [l, r] + ctx.after);
    assert all == IdsAll(ctx.before) + Ids(l) + Ids(r) + IdsAll(ctx.after);
    assert ContextIds(ctx.up) + multiset{ctx.id} + all == ids;
    Apart(ids, all, ctx.id);
    Apart(ids, ContextIds(ctx.up), ctx.id);
  }

  lemma SeparatorsCut(cs: seq<Tree>, m: nat)
    requires m + 1 < |cs|
    ensures Separators(cs)[..m] == Separators(cs[..m + 1])
    ensures Separators(cs)[m + 1..] == Separators(cs[m + 1..])
    ensures Separators(cs)[m] == Min(cs[m + 1])
    ensures Roots(cs)[..m + 1] == Roots(cs[..m + 1]) && Roots(cs)[m + 1..] == Roots(cs[m + 1..])
  {
    hide Min, Separators, Roots;
    RootsCut(cs, m + 1);
    SeparatorAt(cs, m);
    SeparatorsLength(cs);
    LeftSeparators(cs, m);
    RightSeparators(cs, m);
  }

  lemma RootsCut(cs: seq<Tree>, m: nat)
    requires m <= |cs|
    ensures Roots(cs)[..m] == Roots(cs[..m]) && Roots(cs)[m..] == Roots(cs[m..])
  {
  }

  lemma LeftSeparators(cs: seq<Tree>, m: nat)
    requires m + 1 < |cs|
    ensures Separators(cs)[..m] == Separators(cs[..m + 1])
  {
    hide Min, Separators;
    SeparatorsLength(cs);
    SeparatorsLength(cs[..m + 1]);
    var a, b := Separators(cs)[..m], Separators(cs[..m + 1]);
    forall i | 0 <= i < m ensures a[i] == b[i] {
      SeparatorAt(cs, i);
      SeparatorAt(cs[..m + 1], i);
    }
  }

  lemma SeparatorsLength(cs: seq<Tree>)
    ensures |Separators(cs)| == if cs == [] then 0 else |cs| - 1
  {
  }

  lemma SeparatorAt(cs: seq<Tree>, i: nat)
    requires i + 1 < |cs|
    ensures i < |Separators(cs)| == |cs| - 1 && Separators(cs)[i] == Min(cs[i + 1])
  {
    hide Min;
  }

  lemma RightSeparators(cs: seq<Tree>, m: nat)
    requires m + 1 < |cs|
    ensures Separators(cs)[m + 1..] == Separators(cs[m + 1..])
  {
    hide Min, Separators;
    SeparatorsLength(cs);
    SeparatorsLength(cs[m + 1..]);
    var a, b := Separators(cs)[m + 1..], Separators(cs[m + 1..]);
    forall i | 0 <= i < |a| ensures a[i] == b[i] {
      SeparatorAt(cs, m + 1 + i);
      SeparatorAt(cs[m + 1..], i);
    }
  }

  /** Where the children of a cut branch end up: two branches of one level. */
  lemma CutShaped(width: nat, cs: seq<Tree>, h: nat, m: nat, a: PageId, b: PageId)
    requires AllShaped(width, cs, h) && m + 1 < |cs|
    requires InternalFits(width, m + 1) && InternalFits(width, |cs| - m - 1)
    ensures Shaped(width, Branch(a, cs[..m + 1]), h + 1) && Shaped(width, Branch(b, cs[m + 1..]), h + 1)
    ensures Min(Branch(a, cs[..m + 1])) == Min(cs[0]) && Min(Branch(b, cs[m + 1..])) == Min(cs[m + 1])
    ensures FlatAll(cs) == Flat(Branch(a, cs[..m + 1])) + Flat(Branch(b, cs[m + 1..]))
    ensures LeavesAll(cs) == Leaves(Branch(a, cs[..m + 1])) + Leaves(Branch(b, cs[m + 1..]))
    ensures IdsAll(cs) == IdsAll(cs[..m + 1]) + IdsAll(cs[m + 1..])
  {
    var l, r := cs[..m + 1], cs[m + 1..];
    assert cs == l + r;
    Concat(l, r);
    assert forall c :: c in l || c in r ==> c in cs;
    BranchShaped(width, a, l, h);
    BranchShaped(width, b, r, h);
    assert l[0] in cs && r[0] in cs;
    MinBranch(width, a, l, h);
    MinBranch(width, b, r, h);
  }

  // ------------------------------------------------------------------- cutting

  /** Both halves of a cut branch are written, over children that changed parents. */
  function CutPages(p: Pages, x: PageId, y: PageId, parent: Option<PageId>, l: seq<Tree>, r: seq<Tree>): Pages {
    SetParents(SetParents(p, Roots(l), x), Roots(r), y)
      [x := InternalNode(parent, Separators(l), Roots(l))]
      [y := InternalNode(parent, Separators(r), Roots(r))]
  }

  lemma RootsInIds(ts: seq<Tree>, i: PageId)
    requires i in Roots(ts)
    ensures i in IdsAll(ts)
  {
    var k :| 0 <= k < |ts| && ts[k].id == i;
    MemberIds(ts, ts[k]);
  }

  /** Adopting some children leaves every other subtree alone. */
  lemma SetParentsElsewhere(p: Pages, ts: seq<Tree>, x: PageId, ids: multiset<PageId>)
    requires Distinct(IdsAll(ts) + ids)
    ensures SameOn(p, SetParents(p, Roots(ts), x), ids)
  {
    forall i | i in ids && i in p ensures i !in Roots(ts) {
      assert (IdsAll(ts) + ids)[i] <= 1;
      if i in Roots(ts) {
        RootsInIds(ts, i);
      }
    }
  }

  lemma SameOnTransitive(p: Pages, q: Pages, r: Pages, ids: multiset<PageId>)
    requires SameOn(p, q, ids) && SameOn(q, r, ids)
    ensures SameOn(p, r, ids)
  {
  }

  lemma DistinctPart(a: multiset<PageId>, b: multiset<PageId>)
    requires Distinct(b) && a <= b
    ensures Distinct(a)
  {
    forall i ensures a[i] <= 1 {
      assert a[i] <= b[i];
    }
  }

  /** Two pages written over two adopted families are two branches, and nothing else moved. */
  lemma CutBuilt(p: Pages, q: Pages, x: PageId, y: PageId, was: PageId, parent: Option<PageId>,
                 l: seq<Tree>, r: seq<Tree>, rest: multiset<PageId>)
    requires RepAll(p, l, Some(was)) && RepAll(p, r, Some(was))
    requires Distinct(IdsAll(l) + IdsAll(r) + multiset{x, y} + rest)
    requires q == CutPages(p, x, y, parent, l, r)
    ensures Rep(q, Branch(x, l), parent) && Rep(q, Branch(y, r), parent) && SameOn(p, q, rest)
  {
    hide Flat, FlatAll, Leaves, LeavesAll, Ids, IdsAll, Min, Separators, SetParents, Rep, RepAll, SameOn, Distinct,
         Roots;
    var all := IdsAll(l) + IdsAll(r) + multiset{x, y} + rest;
    var p1 := SetParents(p, Roots(l), x);
    var p2 := SetParents(p1, Roots(r), y);
    var p3 := p2[x := InternalNode(parent, Separators(l), Roots(l))];
    Fresh(all, IdsAll(l), IdsAll(r), rest, x, y);
    SetParentsElsewhere(p1, r, y, IdsAll(l));
    SetParentsElsewhere(p, l, x, IdsAll(r));
    SetParentsElsewhere(p, l, x, rest);
    SetParentsElsewhere(p1, r, y, rest);
    Passed(p1, p2, x, y, InternalNode(parent, Separators(l), Roots(l)),
           InternalNode(parent, Separators(r), Roots(r)), IdsAll(l));
    Passed(p2, p2, x, y, InternalNode(parent, Separators(l), Roots(l)),
           InternalNode(parent, Separators(r), Roots(r)), IdsAll(r));
    SameOnTransitive(p, p1, p2, rest);
    Passed(p, p2, x, y, InternalNode(parent, Separators(l), Roots(l)), InternalNode(parent, Separators(r), Roots(r)),
           rest);
    BranchBuilt(p, q, x, l, Some(was), parent);
    RepAllFrame(p, p1, r, Some(was));
    BranchBuilt(p1, q, y, r, Some(was), parent);
  }

  lemma Passed(p: Pages, q: Pages, x: PageId, y: PageId, m: Node, n: Node, ids: multiset<PageId>)
    requires (SameOn(p, q, ids) || p == q) && x !in ids && y !in ids
    ensures SameOn(p, q[x := m][y := n], ids)
  {
  }

  lemma Fresh(all: multiset<PageId>, a: multiset<PageId>, b: multiset<PageId>, c: multiset<PageId>, x: PageId,
              y: PageId)
    requires Distinct(all) && all == a + b + multiset{x, y} + c
    ensures x != y && x !in a && x !in b && x !in c && y !in a && y !in b && y !in c
    ensures Distinct(a) && Distinct(b) && Distinct(c) && Distinct(a + b) && Distinct(b + a) && Distinct(a + c)
            && Distinct(b + c)
  {
    assert all[x] <= 1 && all[y] <= 1;
    DistinctPart(a, all);
    DistinctPart(b, all);
    DistinctPart(c, all);
    DistinctPart(a + b, all);
    DistinctPart(b + a, all);
    DistinctPart(a + c, all);
    DistinctPart(b + c, all);
  }

  // ------------------------------------------------------------------ leaf chain

  ghost predicate NoRepeat(s: seq<PageId>) {
    forall i, j {:trigger s[i], s[j]} :: 0 <= i < j < |s| ==> s[i] != s[j]
  }

  lemma {:induction false} LeavesAreIds(t: Tree)
    ensures multiset(Leaves(t)) <= Ids(t)
    decreases t
  {
    if t.Branch? {
      AllLeavesAreIds(t.children);
    }
  }

  lemma {:induction false} AllLeavesAreIds(ts: seq<Tree>)
    ensures multiset(LeavesAll(ts)) <= IdsAll(ts)
    decreases ts
  {
    if ts != [] {
      LeavesAreIds(ts[0]);
      AllLeavesAreIds(ts[1..]);
      assert multiset(LeavesAll(ts)) == multiset(Leaves(ts[0])) + multiset(LeavesAll(ts[1..]));
    }
  }

  lemma LeavesNoRepeat(t: Tree)
    requires Distinct(Ids(t))
    ensures NoRepeat(Leaves(t)) && forall i :: i in Leaves(t) ==> i in Ids(t)
  {
    LeavesAreIds(t);
    var s := Leaves(t);
    forall i, j | 0 <= i < j < |s| ensures s[i] != s[j] {
      assert s == s[..j] + [s[j]] + s[j + 1..];
      assert multiset(s) == multiset(s[..j]) + multiset{s[j]} + multiset(s[j + 1..]);
      assert s[i] in s[..j];
      assert Ids(t)[s[j]] <= 1;
    }
    forall i | i in Leaves(t) ensures i in Ids(t) {
      assert i in multiset(Leaves(t));
    }
  }

  function HeadOf(s: seq<PageId>): Option<PageId> {
    if s == [] then None else Some(s[0])
  }

  function LastOf(s: seq<PageId>): Option<PageId> {
    if s == [] then None else Some(s[|s| - 1])
  }

  /** The neighbour on the right now points back to `target`. */
  function PointBack(p: Pages, neighbour: Option<PageId>, target: Option<PageId>): Pages {
    if neighbour.Some? && neighbour.value in p && p[neighbour.value].LeafNode?
    then p[neighbour.value := p[neighbour.value].(previous := target)] else p
  }

  /** The neighbour on the left now points on to `target`. */
  function PointOn(p: Pages, neighbour: Option<PageId>, target: Option<PageId>): Pages {
    if neighbour.Some? && neighbour.value in p && p[neighbour.value].LeafNode?
    then p[neighbour.value := p[neighbour.value].(next := target)] else p
  }

  lemma LinksHere(p: Pages, a: seq<PageId>, x: PageId, b: seq<PageId>)
    requires Chain(p, a + [x] + b)
    ensures x in p && p[x].LeafNode? && p[x].previous == LastOf(a) && p[x].next == HeadOf(b)
  {
    assert Linked(p, a + [x] + b, |a|);
  }

  /** A new leaf `y` goes in right after `x`. */
  lemma ChainSplit(p: Pages, a: seq<PageId>, x: PageId, y: PageId, b: seq<PageId>, m: Node, n: Node)
    requires Chain(p, a + [x] + b) && NoRepeat(a + [x] + b) && y !in a + [x] + b
    requires m.LeafNode? && m.previous == LastOf(a) && m.next == Some(y)
    requires n.LeafNode? && n.previous == Some(x) && n.next == HeadOf(b)
    ensures Chain(PointBack(p, HeadOf(b), Some(y))[x := m][y := n], a + [x, y] + b)
  {
    var s, t := a + [x] + b, a + [x, y] + b;
    var q := PointBack(p, HeadOf(b), Some(y))[x := m][y := n];
    assert b != [] ==> Linked(p, s, |a| + 1) && s[|a| + 1] == b[0];
    assert s[|a|] == x;
    forall i: nat ensures Linked(q, t, i) {
      if i < |a| {
        assert Linked(p, s, i) && t[i] == s[i] && t[i + 1] == s[i + 1];
      } else if i >= |a| + 2 {
        assert Linked(p, s, i - 1);
        if i < |t| {
          assert t[i] == s[i - 1];
        }
      }
    }
  }

  /** Leaf `x` goes out of the chain. */
  lemma ChainUnlink(p: Pages, a: seq<PageId>, x: PageId, b: seq<PageId>)
    requires Chain(p, a + [x] + b) && NoRepeat(a + [x] + b)
    ensures Chain(PointBack(PointOn(p, LastOf(a), HeadOf(b)), HeadOf(b), LastOf(a)), a + b)
  {
    var s, t := a + [x] + b, a + b;
    var q := PointBack(PointOn(p, LastOf(a), HeadOf(b)), HeadOf(b), LastOf(a));
    assert b != [] ==> Linked(p, s, |a| + 1) && s[|a| + 1] == b[0];
    assert a != [] ==> Linked(p, s, |a| - 1) && s[|a| - 1] == a[|a| - 1];
    forall i: nat ensures Linked(q, t, i) {
      if i < |a| {
        assert Linked(p, s, i) && t[i] == s[i];
      } else if i < |t| {
        assert Linked(p, s, i + 1) && t[i] == s[i + 1];
      }
    }
  }

  lemma RelinkAlike(p: Pages, l: Option<PageId>, r: Option<PageId>, u: Option<PageId>, v: Option<PageId>,
                    ids: multiset<PageId>)
    ensures SameOn(p, PointBack(PointOn(p, l, u), r, v), ids) && SameOn(p, PointBack(p, r, v), ids)
    ensures PointBack(PointOn(p, l, u), r, v).Keys == p.Keys && PointBack(p, r, v).Keys == p.Keys
  {
  }

  // ----------------------------------------------------------- minimum and removal

  /** Correcting the separator in front of the hole. */
  lemma SetBound(p: Pages, ctx: Context, hole: PageId, min: Bytes, now: Bytes)
    requires ctx.Down? && ctx.before != [] && ContextRep(p, ctx, hole, min) && Distinct(ContextIds(ctx))
    ensures |ctx.before| <= |p[ctx.id].keys|
    ensures ContextRep(p[ctx.id := p[ctx.id].(keys := p[ctx.id].keys[|ctx.before| - 1 := now])], ctx, hole, now)
  {
    hide Flat, FlatAll, Ids, IdsAll, Min, Rep, Leaves, LeavesAll;
    var keys := p[ctx.id].keys;
    assert keys == Separators(ctx.before) + [min] + Mins(ctx.after);
    assert keys[|ctx.before| - 1 := now] == Bounds(ctx.before, now, ctx.after);
    var q := p[ctx.id := p[ctx.id].(keys := keys[|ctx.before| - 1 := now])];
    SpineApart(ctx);
    RepAllFrame(p, q, ctx.before, Some(ctx.id));
    RepAllFrame(p, q, ctx.after, Some(ctx.id));
    ContextFrame(p, q, ctx.up, ctx.id, Min(ctx.before[0]));
  }

  lemma SpineApart(ctx: Context)
    requires ctx.Down? && Distinct(ContextIds(ctx))
    ensures ctx.id !in IdsAll(ctx.before) && ctx.id !in IdsAll(ctx.after) && ctx.id !in ContextIds(ctx.up)
    ensures Distinct(ContextIds(ctx.up)) && ctx.id !in IdsAll(ctx.before + ctx.after)
  {
    hide Ids, IdsAll;
    assert ContextIds(ctx)[ctx.id] <= 1;
    DistinctPart(ContextIds(ctx.up), ContextIds(ctx));
    Concat(ctx.before, ctx.after);
  }

  /** The root takes over the page of a lone descendant. */
  function Raise(t: Tree, id: PageId): Tree {
    match t
    case Leaf(_, entries) => Leaf(id, entries)
    case Branch(_, children) => Branch(id, children)
  }

  lemma RaiseHolds(width: nat, t: Tree, id: PageId, h: nat)
    requires Shaped(width, t, h)
    ensures Shaped(width, Raise(t, id), h) && Flat(Raise(t, id)) == Flat(t)
    ensures t.Branch? ==> Leaves(Raise(t, id)) == Leaves(t)
  {
  }
}
