/** The page-linked B+ tree: every method is proved against the sorted list of
    entries that the pages stand for. */
module BPlusTree {
  import opened Wrappers
  import opened Ordering
  import opened BTreeEntries
  import opened BTreeForest
  import opened BTreeSplit
  import opened BTreeSteps
  import opened BTreeGrowth
  import opened BTreeShrink
  import opened BTreeScan
  import Check = BTreeValidate

  datatype TreeError = KeyTooLarge(bytes: nat)

  /** Binary search: the key's index, or where it belongs. */
  method Search(s: seq<Entry>, key: Bytes) returns (found: bool, index: nat)
    requires SortedEntries(s)
    ensures index <= |s| && AllBelow(s[..index], key)
    ensures found ==> index < |s| && s[index].key == key
    ensures !found ==> AllAbove(s[index..], key)
  {
    var low, high := 0, |s|;
    while low < high
      invariant 0 <= low <= high <= |s|
      invariant forall i :: 0 <= i < low ==> Less(s[i].key, key)
      invariant forall i :: high <= i < |s| ==> Less(key, s[i].key)
    {
      var mid := low + (high - low) / 2;
      LessTotal(s[mid].key, key);
      if s[mid].key == key {
        return true, mid;
      } else if Less(s[mid].key, key) {
        forall i | 0 <= i < mid ensures Less(s[i].key, key) {
          LessTransitive(s[i].key, s[mid].key, key);
        }
        low := mid + 1;
      } else {
        forall i | mid < i < |s| ensures Less(key, s[i].key) {
          LessTransitive(key, s[mid].key, s[i].key);
        }
        high := mid;
      }
    }
    return false, low;
  }

  /** How many separators are at or below the key. */
  method PartitionPoint(keys: seq<Bytes>, key: Bytes) returns (index: nat)
    requires forall i, j :: 0 <= i < j < |keys| ==> Less(keys[i], keys[j])
    ensures index <= |keys|
    ensures index > 0 ==> LessEq(keys[index - 1], key)
    ensures index < |keys| ==> Less(key, keys[index])
  {
    var low, high := 0, |keys|;
    while low < high
      invariant 0 <= low <= high <= |keys|
      invariant low > 0 ==> LessEq(keys[low - 1], key)
      invariant high < |keys| ==> Less(key, keys[high])
    {
      var mid := low + (high - low) / 2;
      LessTotal(keys[mid], key);
      if LessEq(keys[mid], key) {
        low := mid + 1;
      } else {
        high := mid;
      }
    }
    return low;
  }

  /** The position of a page among children it occurs in. */
  method IndexOf(children: seq<PageId>, child: PageId) returns (position: nat)
    requires child in children
    ensures position < |children| && children[position] == child && child !in children[..position]
  {
    position := 0;
    while children[position] != child
      invariant position < |children| && child !in children[..position]
      decreases |children| - position
    {
      position := position + 1;
    }
  }

  lemma PositionIsHole(ctx: Context, hole: PageId, ids: multiset<PageId>, position: nat)
    requires ctx.Down? && Distinct(ContextIds(ctx) + ids) && hole in ids
    requires var children := Roots(ctx.before) + [hole] + Roots(ctx.after);
             position < |children| && children[position] == hole && hole !in children[..position]
    ensures position == |ctx.before|
  {
    var children := Roots(ctx.before) + [hole] + Roots(ctx.after);
    assert children[|ctx.before|] == hole;
    assert (ContextIds(ctx) + ids)[hole] <= 1;
    if position < |ctx.before| {
      assert Roots(ctx.before)[position] == hole;
      RootsInIds(ctx.before, hole);
    }
  }

  // ---------------------------------------------------------------- going down

  /** The subtree `t` of height `h`, in its place in the tree, is the one to search. */
  ghost predicate Descended(width: nat, pages: Pages, tree: Tree, height: nat, ctx: Context, t: Tree, h: nat,
                            key: Bytes) {
    && t.id in pages && tree == Plug(ctx, [t]) && SortedEntries(Flat(tree)) && h + Height(ctx) == height
    && Rep(pages, t, ParentOf(ctx)) && ContextShaped(width, ctx, h)
    && RootShaped(width, t, h) && (ctx.Down? ==> Shaped(width, t, h))
    && AllBelow(Left(ctx), key) && AllAbove(Right(ctx), key)
    && (Leftmost(ctx) || LessEq(Min(t), key))
  }

  lemma StartsAtRoot(width: nat, root: PageId, next: nat, pages: Pages, tree: Tree, height: nat, key: Bytes)
    requires Sound(width, root, next, pages, tree, height)
    ensures tree.id == root && Descended(width, pages, tree, height, Top, tree, height, key)
  {
    hide Flat, SortedEntries, Min, Shaped;
  }

  /** An internal page's keys separate the children, in order. */
  lemma BranchKeys(width: nat, pages: Pages, tree: Tree, height: nat, ctx: Context, t: Tree, h: nat, key: Bytes)
    requires Descended(width, pages, tree, height, ctx, t, h, key) && pages[t.id].InternalNode?
    ensures t.Branch? && Shaped(width, t, h) && SortedEntries(FlatAll(t.children))
    ensures pages[t.id].keys == Separators(t.children) && pages[t.id].children == Roots(t.children)
    ensures forall i, j :: 0 <= i < j < |pages[t.id].keys| ==> Less(pages[t.id].keys[i], pages[t.id].keys[j])
  {
    hide Flat, FlatAll, Plug, SortedEntries, Min, ContextShaped, Left, Right, AllBelow, AllAbove, Separators;
    DescentSorted(tree, ctx, t);
    SeparatorsAscendAll(width, t, h);
  }

  /** The child the separators point to. */
  lemma DescendOne(width: nat, pages: Pages, tree: Tree, height: nat, ctx: Context, t: Tree, h: nat, key: Bytes,
                   index: nat)
    requires Descended(width, pages, tree, height, ctx, t, h, key) && pages[t.id].InternalNode?
    requires var keys := pages[t.id].keys;
             && index <= |keys| && (index > 0 ==> LessEq(keys[index - 1], key))
             && (index < |keys| ==> Less(key, keys[index]))
    ensures t.Branch? && h > 0 && index < |t.children| == |pages[t.id].children|
    ensures pages[t.id].children[index] == t.children[index].id
    ensures Descended(width, pages, tree, height, Deeper(ctx, t, index), t.children[index], h - 1, key)
  {
    hide Flat, FlatAll, Plug, SortedEntries, Min, ContextShaped, Left, Right, AllBelow, AllAbove, Leftmost, Less,
         LessEq, Shaped;
    BranchKeys(width, pages, tree, height, ctx, t, h, key);
    BranchChildren(width, pages, t, h, ParentOf(ctx), index);
    DescendPlug(ctx, t, index);
    DescendShaped(width, ctx, t, h, index);
    DescendMin(width, t, h, index);
    ChildrenShaped(width, t, h);
    ChildBounds(width, t.children, h - 1, index, key);
    DownBounds(ctx, t, index, key);
  }

  lemma BranchChildren(width: nat, pages: Pages, t: Tree, h: nat, parent: Option<PageId>, index: nat)
    requires t.Branch? && Shaped(width, t, h) && Rep(pages, t, parent) && index <= |Separators(t.children)|
    ensures |Separators(t.children)| + 1 == |t.children| == |pages[t.id].children| && index < |t.children|
    ensures pages[t.id].children[index] == t.children[index].id && Rep(pages, t.children[index], Some(t.id))
  {
    hide Flat, Min;
    assert t.children[index] in t.children;
  }

  lemma ReachesLeaf(width: nat, pages: Pages, tree: Tree, height: nat, ctx: Context, t: Tree, h: nat, key: Bytes)
    requires Descended(width, pages, tree, height, ctx, t, h, key) && !pages[t.id].InternalNode?
    ensures t.Leaf? && h == 0 && t == Leaf(t.id, t.entries)
  {
    hide Flat, Plug, SortedEntries, Min, ContextShaped, Left, Right, AllBelow, AllAbove, Leftmost;
  }

  class BPlusTree {
    const width: nat
    const root: PageId
    var pages: Pages
    var nextPage: nat
    ghost var tree: Tree
    ghost var height: nat

    ghost predicate Valid()
      reads this
    {
      Sound(width, root, nextPage, pages, tree, height) && Chain(pages, Leaves(tree))
    }

    /** The entries, in key order. */
    ghost function Entries(): seq<Entry>
      reads this
    {
      Flat(tree)
    }

    constructor Create(width: nat, first: PageId)
      ensures Valid() && Entries() == [] && this.width == width && root == first
    {
      this.width, root := width, first;
      pages := map[first := LeafNode(None, None, None, [])];
      nextPage := first + 1;
      tree, height := Leaf(first, []), 0;
    }

    method Allocate() returns (id: PageId)
      modifies this`nextPage
      ensures id == old(nextPage) && nextPage == id + 1
    {
      id := nextPage;
      nextPage := nextPage + 1;
    }

    // ---------------------------------------------------------------- reading

    method FindLeaf(key: Bytes) returns (id: PageId, ghost ctx: Context, ghost entries: seq<Entry>)
      requires Valid()
      ensures tree == Plug(ctx, [Leaf(id, entries)]) && Height(ctx) == height
      ensures ContextShaped(width, ctx, 0) && (ctx.Down? ==> Shaped(width, Leaf(id, entries), 0))
      ensures RootShaped(width, Leaf(id, entries), 0)
      ensures Rep(pages, Leaf(id, entries), ParentOf(ctx))
      ensures AllBelow(Left(ctx), key) && AllAbove(Right(ctx), key)
      ensures Leftmost(ctx) || LessEq(Min(Leaf(id, entries)), key)
    {
      hide Flat, FlatAll, Plug, SortedEntries, Min, Rep, Shaped, ContextShaped, Left, Right, AllBelow, AllAbove;
      id := root;
      ctx := Top;
      ghost var t: Tree, h: nat := tree, height;
      StartsAtRoot(width, root, nextPage, pages, tree, height, key);
      while pages[id].InternalNode?
        invariant t.id == id && Descended(width, pages, tree, height, ctx, t, h, key)
        decreases h
      {
        BranchKeys(width, pages, tree, height, ctx, t, h, key);
        var index := PartitionPoint(pages[id].keys, key);
        DescendOne(width, pages, tree, height, ctx, t, h, key, index);
        id := pages[id].children[index];
        ctx, t, h := Deeper(ctx, t, index), t.children[index], h - 1;
      }
      ReachesLeaf(width, pages, tree, height, ctx, t, h, key);
      entries := t.entries;
    }

    /** The value under a key. */
    method Get(key: Bytes) returns (value: Option<Bytes>)
      requires Valid()
      ensures value == Lookup(Entries(), key)
      ensures value == if key in Contents(Entries()) then Some(Contents(Entries())[key]) else None
    {
      hide Flat, FlatAll, Plug, Sound, ContextShaped, Lookup, Contents;
      ContentsLookup(Entries(), key);
      var id, ctx, entries := FindLeaf(key);
      LeafInTree(ctx, id, entries);
      assert SortedEntries(Flat(tree)) by { SoundSorted(width, root, nextPage, pages, tree, height); }
      assert SortedEntries(entries) by { SortedMiddle(Left(ctx), entries, Right(ctx)); }
      WithoutMiddle(Left(ctx), entries, Right(ctx), key);
      var found, index := Search(pages[id].entries, key);
      if found {
        WithoutAt(entries, index, key);
        return Some(pages[id].entries[index].value);
      }
      AbsentAt(entries, index, key);
      return None;
    }

    /** The half-open range `[start, end)`, or everything from `start` on, in key order. */
    method Range(start: Bytes, end: Option<Bytes>) returns (output: seq<Entry>)
      requires Valid()
      ensures output == InRange(Entries(), start, end)
    {
      hide Flat, FlatAll, Leaves, LeavesAll, Ids, IdsAll, Plug, Sound, ContextShaped, Shaped, InRange, EntriesOf,
           SortedEntries;
      var id, ctx, was := FindLeaf(start);
      LeafHere(width, root, nextPage, pages, tree, height, ctx, id, was);
      ghost var leaves := Leaves(tree);
      ScanStart(width, root, nextPage, pages, tree, height, ctx, id, was, start, end);
      var leafId := Some(id);
      output := [];
      ghost var j := |LeftLeaves(ctx)|;
      while leafId.Some?
        invariant j <= |leaves| && leafId == (if j < |leaves| then Some(leaves[j]) else None)
        invariant output == InRange(EntriesOf(pages, leaves[..j]), start, end)
        decreases |leaves| - j
      {
        assert Linked(pages, leaves, j);
        var node := pages[leafId.value];
        ScanLeaf(pages, leaves, j);
        var k := 0;
        ghost var done := EntriesOf(pages, leaves[..j]);
        assert done + node.entries[..0] == done;
        while k < |node.entries|
          invariant 0 <= k <= |node.entries|
          invariant output == InRange(done + node.entries[..k], start, end)
        {
          var e := node.entries[k];
          assert done + node.entries[..k + 1] == (done + node.entries[..k]) + [e];
          OneMore(done + node.entries[..k], e, start, end);
          if !Less(e.key, start) {
            if end.Some? && !Less(e.key, end.value) {
              ScanEnd(pages, leaves, j, k, start, end.value);
              return;
            }
            output := output + [e];
          }
          k := k + 1;
        }
        assert node.entries[..k] == node.entries;
        leafId := node.next;
        j := j + 1;
      }
      assert leaves[..j] == leaves;
    }

    /** Every tree these methods build passes the checker, with the right counts. */
    method Validate() returns (r: Option<Check.Report>)
      requires Valid()
      ensures r == Some(Check.Report(|Check.IdSet(Ids(tree))|, |Leaves(tree)|, height + 1, |Entries()|))
    {
      hide Flat, Ids, Leaves;
      r := Check.Validate(pages, root);
      ValidIsFormed(width, root, nextPage, pages, tree, height);
    }

    method SubtreeMin(start: PageId, ghost t: Tree, ghost parent: Option<PageId>, ghost h: nat) returns (min: Bytes)
      requires t.id == start && Rep(pages, t, parent) && Shaped(width, t, h)
      ensures min == Min(t)
    {
      hide FlatAll, Ids, IdsAll, Leaves, LeavesAll;
      var id := start;
      ghost var s: Tree, up: Option<PageId>, g: nat := t, parent, h;
      while pages[id].InternalNode?
        invariant s.id == id && Rep(pages, s, up) && Shaped(width, s, g) && Min(s) == Min(t)
        decreases g
      {
        DescendMin(width, s, g, 0);
        ChildrenShaped(width, s, g);
        assert s.children[0] in s.children;
        id := pages[id].children[0];
        s, up, g := s.children[0], Some(s.id), g - 1;
      }
      ShapedNonEmpty(width, s, g);
      return pages[id].entries[0].key;
    }

    // -------------------------------------------------------------- separators

    /** Correct the one separator that names the child's minimum, wherever it is. */
    method PropagateMinChange(child: PageId, ghost ctx: Context, ghost t: Tree, ghost min: Bytes, ghost h: nat)
      requires t.id == child && Shaped(width, t, h) && ContextShaped(width, ctx, h)
      requires Rep(pages, t, ParentOf(ctx)) && ContextRep(pages, ctx, child, min)
      requires Distinct(ContextIds(ctx) + Ids(t))
      modifies this`pages
      ensures Rep(pages, t, ParentOf(ctx)) && ContextRep(pages, ctx, child, Min(t))
      ensures SameLinks(old(pages), pages) && pages.Keys == old(pages).Keys
      decreases ctx
    {
      hide Flat, FlatAll, Ids, IdsAll, Leaves, LeavesAll, Min, ContextIds, Rep, InternalFits;
      RepParent(pages, t, ParentOf(ctx));
      if pages[child].parent.None? {
        return;
      }
      var parent := pages[child].parent.value;
      ChildAmong(pages, ctx, child, min);
      var position := IndexOf(pages[parent].children, child);
      IdInIds(t);
      PositionIsHole(ctx, child, Ids(t), position);
      PartsDistinct(ContextIds(ctx), Ids(t));
      if position > 0 {
        SetBound(pages, ctx, child, min, Min(t));
        var now := SubtreeMin(child, t, ParentOf(ctx), h);
        ghost var before := pages;
        pages := pages[parent := pages[parent].(keys := pages[parent].keys[position - 1 := now])];
        BoundElsewhere(before, pages, ctx, pages[parent], t, Some(parent));
      } else {
        ghost var b := Branch(ctx.id, ctx.before + [t] + ctx.after);
        FirstChildBranch(width, pages, ctx, t, min, h);
        PropagateMinChange(parent, ctx.up, b, min, h + 1);
        FirstChildBack(width, pages, ctx, t, h);
      }
    }

    // ------------------------------------------------------------------ splits

    method ReparentChildren(id: PageId, children: seq<PageId>)
      requires forall c :: c in children ==> c in pages
      modifies this`pages
      ensures pages == SetParents(old(pages), children, id)
    {
      var i := 0;
      while i < |children|
        invariant 0 <= i <= |children|
        invariant pages == SetParents(old(pages), children[..i], id)
      {
        assert children[i] in children;
        pages := pages[children[i] := pages[children[i]].(parent := Some(id))];
        assert children[..i + 1] == children[..i] + [children[i]];
        i := i + 1;
      }
      assert children[..i] == children;
    }

    /** The parent of a split node takes the new right sibling, or splits in turn. */
    method InsertParent(left: PageId, separator: Bytes, right: PageId, parent: PageId,
                        ghost ctx: Context, ghost l: Tree, ghost r: Tree, ghost h: nat)
      requires ctx.Down? && Splitting(width, nextPage, pages, ctx, l, r, h) && RootId(ctx) == root
      requires left == l.id && right == r.id && separator == Min(r) && parent == ctx.id
      modifies this
      ensures Sound(width, root, nextPage, pages, tree, height) && SameLinks(old(pages), pages)
      ensures Around(ctx, Flat(l) + Flat(r), Leaves(l) + Leaves(r), tree)
      decreases Height(ctx), 1
    {
      hide Splitting, Sound, Around, Flat, FlatAll, Leaves, LeavesAll, Ids, IdsAll, Min, Plug, Bounds, Roots,
           Separators, Bursting;
      WidenedRep(width, nextPage, pages, ctx, l, r, h);
      WidenedPage(ctx, l, r);
      SplittingFacts(width, nextPage, pages, ctx, l, r, h);
      var node := pages[parent];
      var position := IndexOf(node.children, left);
      PositionIsHole(ctx, left, Ids(l) + Ids(r), position);
      var children := node.children[..position + 1] + [right] + node.children[position + 1..];
      var keys := node.keys[..position] + [separator] + node.keys[position..];
      ghost var cs := Widened(ctx, l, r);
      pages := pages[right := pages[right].(parent := Some(parent))];
      assert pages == old(pages);
      SeparatorsFit(width, cs, h);
      if KeysSize(keys) <= CAPACITY {
        Grown(width, nextPage, pages, ctx, l, r, h);
        pages := pages[parent := InternalNode(node.parent, keys, children)];
        tree, height := Plug(ctx.up, [Branch(ctx.id, cs)]), h + Height(ctx);
      } else {
        Burst(width, nextPage, pages, ctx, l, r, h);
        SplitInternal(parent, node.parent, keys, children, ctx.up, cs, h);
        WidenedAround(ctx, l, r, tree);
      }
    }

    /** Cut a branch that has one child too many. */
    method SplitInternal(id: PageId, parent: Option<PageId>, keys: seq<Bytes>, children: seq<PageId>,
                         ghost up: Context, ghost cs: seq<Tree>, ghost h: nat)
      requires Bursting(width, nextPage, pages, up, id, cs, h)
      requires keys == Separators(cs) && children == Roots(cs) && parent == ParentOf(up)
      requires root == if up.Top? then id else RootId(up)
      modifies this
      ensures Sound(width, root, nextPage, pages, tree, height) && SameLinks(old(pages), pages)
      ensures Around(up, FlatAll(cs), LeavesAll(cs), tree)
      decreases Height(up) + 1, 0
    {
      hide Splitting, Sound, Around, Flat, FlatAll, Leaves, LeavesAll, Ids, IdsAll, Min, Plug, Bursting, Separators,
           Roots;
      BurstingFacts(width, nextPage, pages, up, id, cs, h);
      var middle := |keys| / 2;
      SeparatorsCut(cs, middle);
      var promoted := keys[middle];
      var leftKeys, rightKeys := keys[..middle], keys[middle + 1..];
      var leftChildren, rightChildren := children[..middle + 1], children[middle + 1..];
      if parent.None? {
        ghost var l, r := CutRoot(width, nextPage, pages, id, cs, h, middle);
        var leftId := Allocate();
        var rightId := Allocate();
        SavePair(leftId, rightId, Some(root), leftKeys, rightKeys, leftChildren, rightChildren, l.children, r.children);
        pages := pages[root := InternalNode(None, [promoted], [leftId, rightId])];
        tree, height := Branch(id, [l, r]), h + 2;
      } else {
        CutInner(width, nextPage, pages, up, id, cs, h);
        ghost var l, r := Branch(id, cs[..middle + 1]), Branch(nextPage, cs[middle + 1..]);
        var rightId := Allocate();
        SavePair(id, rightId, parent, leftKeys, rightKeys, leftChildren, rightChildren, l.children, r.children);
        ghost var mid := pages;
        HalvedFacts(width, old(pages), mid, parent, cs, h, l, r);
        InsertParent(id, promoted, rightId, parent.value, up, l, r, h + 1);
        LinksThrough(old(pages), mid, pages);
      }
    }

    /** Both halves adopt their children and are written. */
    method SavePair(leftId: PageId, rightId: PageId, parent: Option<PageId>, leftKeys: seq<Bytes>,
                    rightKeys: seq<Bytes>,
                    leftChildren: seq<PageId>, rightChildren: seq<PageId>, ghost l: seq<Tree>, ghost r: seq<Tree>)
      requires leftKeys == Separators(l) && rightKeys == Separators(r) && leftChildren == Roots(l)
               && rightChildren == Roots(r)
      requires forall c :: c in leftChildren || c in rightChildren ==> c in pages
      modifies this`pages
      ensures pages == CutPages(old(pages), leftId, rightId, parent, l, r)
    {
      hide Separators, Roots, SetParents;
      SetParentsKeys(pages, leftChildren, leftId);
      ReparentChildren(leftId, leftChildren);
      ReparentChildren(rightId, rightChildren);
      pages := pages[leftId := InternalNode(parent, leftKeys, leftChildren)];
      pages := pages[rightId := InternalNode(parent, rightKeys, rightChildren)];
    }

    /** Cut an overfull leaf by bytes. */
    method SplitLeaf(id: PageId, node: Node, entries: seq<Entry>, ghost ctx: Context, ghost was: seq<Entry>)
      requires AtLeaf(width, root, nextPage, pages, ctx, id, was, height)
      requires id in pages && node.LeafNode? && node == pages[id]
      requires Overfull(width, entries) && SortedEntries(Left(ctx) + entries + Right(ctx))
      requires Leftmost(ctx) || (was != [] && entries != [] && was[0].key == entries[0].key)
      modifies this
      ensures Valid() && Entries() == Left(ctx) + entries + Right(ctx)
    {
      hide AtLeaf, SortedEntries, EntriesSize;
      var split := CutPoint(entries);
      var left, right := entries[..split], entries[split..];
      assert entries == left + right;
      if node.parent.None? {
        SplitRootLeaf(id, node, left, right, ctx, was);
      } else {
        SplitInnerLeaf(id, node, left, right, ctx, was);
      }
    }

    method SplitRootLeaf(id: PageId, node: Node, left: seq<Entry>, right: seq<Entry>, ghost ctx: Context,
                         ghost was: seq<Entry>)
      requires AtLeaf(width, root, nextPage, pages, ctx, id, was, height)
      requires id in pages && node.LeafNode? && node == pages[id] && node.parent.None?
      requires left != [] && right != [] && EntriesSize(left) <= CAPACITY && EntriesSize(right) <= CAPACITY
      requires EntriesOk(width, left) && EntriesOk(width, right)
               && SortedEntries(Left(ctx) + (left + right) + Right(ctx))
      modifies this
      ensures Valid() && Entries() == Left(ctx) + (left + right) + Right(ctx)
    {
      hide Sound, Flat, FlatAll, Leaves, LeavesAll, Ids, IdsAll, Plug, AtLeaf, SortedEntries, EntriesSize, Chain;
      AtLeafFacts(width, root, nextPage, pages, ctx, id, was, height);
      LeafTop(pages, ctx, id, was);
      assert [] + (left + right) + [] == left + right;
      LinksHere(pages, LeftLeaves(ctx), id, RightLeaves(ctx));
      RootLeafCut(width, root, nextPage, pages, was, height, left, right);
      var leftId := Allocate();
      var rightId := Allocate();
      RelinkNeighbour(node.previous, true, Some(leftId));
      RelinkNeighbour(node.next, false, Some(rightId));
      pages := pages[leftId := LeafNode(Some(root), node.previous, Some(rightId), left)];
      pages := pages[rightId := LeafNode(Some(root), Some(leftId), node.next, right)];
      pages := pages[root := InternalNode(None, [right[0].key], [leftId, rightId])];
      tree, height := Branch(root, [Leaf(leftId, left), Leaf(rightId, right)]), 1;
    }

    method SplitInnerLeaf(id: PageId, node: Node, left: seq<Entry>, right: seq<Entry>, ghost ctx: Context,
                          ghost was: seq<Entry>)
      requires AtLeaf(width, root, nextPage, pages, ctx, id, was, height)
      requires id in pages && node.LeafNode? && node == pages[id] && node.parent.Some?
      requires left != [] && right != [] && EntriesSize(left) <= CAPACITY && EntriesSize(right) <= CAPACITY
      requires EntriesOk(width, left) && EntriesOk(width, right)
               && SortedEntries(Left(ctx) + (left + right) + Right(ctx))
      requires Leftmost(ctx) || (was != [] && was[0].key == left[0].key)
      modifies this
      ensures Valid() && Entries() == Left(ctx) + (left + right) + Right(ctx)
    {
      hide Splitting, Sound, Around, Flat, FlatAll, Leaves, LeavesAll, Ids, IdsAll, Plug, AtLeaf, SortedEntries,
           EntriesSize, Chain, Rep, ContextRep, NoRepeat;
      AtLeafFacts(width, root, nextPage, pages, ctx, id, was, height);
      LeafDown(pages, ctx, id, was);
      LeafCut(width, root, nextPage, pages, ctx, id, was, height, left, right);
      LinksHere(pages, LeftLeaves(ctx), id, RightLeaves(ctx));
      NeighboursAreLeaves(pages, LeftLeaves(ctx), id, RightLeaves(ctx));
      var rightId := Allocate();
      RelinkNeighbour(node.next, false, Some(rightId));
      pages := pages[id := LeafNode(node.parent, node.previous, Some(rightId), left)];
      pages := pages[rightId := LeafNode(node.parent, Some(id), node.next, right)];
      ghost var mid := pages;
      ghost var l, r := Leaf(id, left), Leaf(rightId, right);
      LeafMin(rightId, right);
      InsertParent(id, right[0].key, rightId, node.parent.value, ctx, l, r, 0);
      ChainFrame(mid, pages, LeftLeaves(ctx) + [id, rightId] + RightLeaves(ctx));
      AroundPair(ctx, l, r, tree);
    }

    static method CutPoint(entries: seq<Entry>) returns (split: nat)
      requires exists width :: Overfull(width, entries)
      ensures 0 < split < |entries|
      ensures EntriesSize(entries[..split]) <= CAPACITY && EntriesSize(entries[split..]) <= CAPACITY
      ensures forall width :: EntriesOk(width, entries) ==>
                                EntriesOk(width, entries[..split]) && EntriesOk(width, entries[split..])
    {
      ghost var width :| Overfull(width, entries);
      SplitExists(width, entries);
      split := BalancedLeafSplit(entries);
      assert !Half(entries, split - 1) by {
        if split == 1 {
          assert entries[..0] == [];
        }
      }
      SplitBound(width, entries, split);
      assert forall e :: e in entries[..split] || e in entries[split..] ==> e in entries;
    }

    // ----------------------------------------------------------------- writing

    /** Sets a key.  Keys have one width and entries take at most a third of a leaf. */
    method Insert(key: Bytes, value: Bytes) returns (r: Result<Option<Bytes>, TreeError>)
      requires Valid()
      requires key != [] && |key| + |value| + NODE_DATA + 4 <= PAGE_SIZE ==>
                 |key| == width && 3 * EntrySize(Entry(key, value)) <= CAPACITY
      modifies this
      ensures Valid()
      ensures r.Err? <==> key == [] || |key| + |value| + NODE_DATA + 4 > PAGE_SIZE
      ensures r.Err? ==> Entries() == old(Entries()) && pages == old(pages)
      ensures r.Ok? ==> r.value == Lookup(old(Entries()), key) && Entries() == Upsert(old(Entries()), key, value)
    {
      hide Sound, Flat, FlatAll, Leaves, LeavesAll, Plug, SortedEntries, EntriesSize, Chain, Upsert, Lookup, Shaped,
           ContextShaped, Left, Right;
      if key == [] {
        return Err(KeyTooLarge(0));
      }
      if |key| + |value| + NODE_DATA + 4 > PAGE_SIZE {
        return Err(KeyTooLarge(|key| + |value|));
      }
      var id, ctx, was := FindLeaf(key);
      LeafHere(width, root, nextPage, pages, tree, height, ctx, id, was);
      var node := pages[id];
      var found, index := Search(node.entries, key);
      var entries;
      if found {
        entries := node.entries[index := Entry(key, value)];
        r := Ok(Some(node.entries[index].value));
      } else {
        entries := node.entries[..index] + [Entry(key, value)] + node.entries[index..];
        r := Ok(None);
      }
      Written(ctx, was, index, found, key, value);
      WriteOverfills(width, was, key, value);
      if ctx.Down? {
        LeafMin(id, was);
      }
      FirstStays(ctx, was, key, value);
      WriteLeaf(id, node, entries, ctx, was);
    }

    /** Save a leaf that gained or changed an entry, splitting it if it no longer fits. */
    method WriteLeaf(id: PageId, node: Node, entries: seq<Entry>, ghost ctx: Context, ghost was: seq<Entry>)
      requires AtLeaf(width, root, nextPage, pages, ctx, id, was, height)
      requires id in pages && node.LeafNode? && node == pages[id] && node.entries == was
      requires entries != [] && EntriesOk(width, entries)
               && (EntriesSize(entries) > CAPACITY ==> Overfull(width, entries))
      requires SortedEntries(Left(ctx) + entries + Right(ctx))
      requires Leftmost(ctx) || (was != [] && was[0].key == entries[0].key)
      modifies this
      ensures Valid() && Entries() == Left(ctx) + entries + Right(ctx)
    {
      hide Sound, Flat, FlatAll, Leaves, LeavesAll, Plug, SortedEntries, EntriesSize, Chain, Shaped, ContextShaped,
           Left, Right;
      var size := TotalSize(entries);
      if size <= CAPACITY {
        SaveLeaf(id, node, entries, ctx, was);
      } else {
        SplitLeaf(id, node, entries, ctx, was);
      }
    }

    /** Save a leaf that fits, and correct the separator above it if it starts elsewhere now. */
    method SaveLeaf(id: PageId, node: Node, entries: seq<Entry>, ghost ctx: Context, ghost was: seq<Entry>)
      requires AtLeaf(width, root, nextPage, pages, ctx, id, was, height)
      requires id in pages && node.LeafNode? && node == pages[id] && node.entries == was
      requires entries != [] && EntriesOk(width, entries) && EntriesSize(entries) <= CAPACITY
      requires SortedEntries(Left(ctx) + entries + Right(ctx))
      modifies this
      ensures Valid() && Entries() == Left(ctx) + entries + Right(ctx)
    {
      hide Sound, Flat, FlatAll, Leaves, LeavesAll, Plug, SortedEntries, EntriesSize, Chain, Shaped, ContextShaped,
           Left, Right, Rep, ContextRep, Ids, IdsAll, ContextIds, AtLeaf, Distinct, Min;
      LeafWritten(width, root, nextPage, pages, ctx, id, was, entries, height);
      AtLeafShape(width, root, nextPage, pages, ctx, id, was, height);
      LeafShaped(width, id, entries);
      pages := pages[id := node.(entries := entries)];
      ghost var mid := pages;
      if node.entries == [] || node.entries[0].key != entries[0].key {
        TopRep(pages, ctx, id, Min(Leaf(id, was)));
        PropagateMinChange(id, ctx, Leaf(id, entries), Min(Leaf(id, was)), 0);
        ChainFrame(mid, pages, LeftLeaves(ctx) + [id] + RightLeaves(ctx));
        SameKeysBelow(mid, pages, nextPage);
      } else {
        LeafMin(id, was);
      }
      LeafPlaced(width, root, nextPage, pages, ctx, id, entries);
      tree, height := Plug(ctx, [Leaf(id, entries)]), Height(ctx);
    }

    /** Removes a key. */
    method Delete(key: Bytes) returns (value: Option<Bytes>)
      requires Valid()
      modifies this
      ensures Valid()
      ensures value == Lookup(old(Entries()), key) && Entries() == Without(old(Entries()), key)
    {
      hide Sound, Flat, FlatAll, Leaves, LeavesAll, Plug, SortedEntries, EntriesSize, Chain, Without, Lookup, Shaped,
           ContextShaped, Left, Right;
      var id, ctx, was := FindLeaf(key);
      LeafHere(width, root, nextPage, pages, tree, height, ctx, id, was);
      var node := pages[id];
      var found, index := Search(node.entries, key);
      Removed(width, ctx, was, index, found, key);
      if !found {
        return None;
      }
      var entries := node.entries[..index] + node.entries[index + 1..];
      value := Some(node.entries[index].value);
      if entries == [] && id != root {
        UnlinkEmptyLeaf(id, node, ctx, was);
      } else if entries == [] {
        EmptyRoot(id, node, ctx, was);
      } else {
        SaveLeaf(id, node, entries, ctx, was);
      }
    }

    /** The last entry of a root leaf goes; the root stays. */
    method EmptyRoot(id: PageId, node: Node, ghost ctx: Context, ghost was: seq<Entry>)
      requires AtLeaf(width, root, nextPage, pages, ctx, id, was, height) && ctx.Top?
      requires id in pages && node.LeafNode? && node == pages[id] && SortedEntries(Left(ctx) + [] + Right(ctx))
      modifies this
      ensures Valid() && Entries() == Left(ctx) + [] + Right(ctx)
    {
      hide Sound, Flat, FlatAll, Leaves, LeavesAll, Plug, SortedEntries, Chain, Shaped, Left, Right, Rep, Ids,
           IdsAll, ContextIds, AtLeaf, Distinct, Min;
      LeafWritten(width, root, nextPage, pages, ctx, id, was, [], height);
      pages := pages[id := node.(entries := [])];
      LeafPlaced(width, root, nextPage, pages, ctx, id, []);
      tree, height := Plug(ctx, [Leaf(id, [])]), Height(ctx);
    }

    method UnlinkEmptyLeaf(id: PageId, node: Node, ghost ctx: Context, ghost was: seq<Entry>)
      requires AtLeaf(width, root, nextPage, pages, ctx, id, was, height) && ctx.Down?
      requires id in pages && node.LeafNode? && node == pages[id] && SortedEntries(Left(ctx) + [] + Right(ctx))
      modifies this
      ensures Valid() && Entries() == Left(ctx) + [] + Right(ctx)
    {
      hide Sound, Flat, FlatAll, Leaves, LeavesAll, Plug, SortedEntries, Chain, Shaped, Left, Right, Rep, Ids,
           IdsAll, ContextIds, AtLeaf, Distinct, Min, ContextRep, ContextShaped, NoRepeat, Removing;
      assert Left(ctx) + [] + Right(ctx) == Left(ctx) + Right(ctx);
      AtLeafFacts(width, root, nextPage, pages, ctx, id, was, height);
      Unlinked(width, root, nextPage, pages, ctx, id, was, height);
      LinksHere(pages, LeftLeaves(ctx), id, RightLeaves(ctx));
      NeighboursAreLeaves(pages, LeftLeaves(ctx), id, RightLeaves(ctx));
      RepParent(pages, Leaf(id, was), ParentOf(ctx));
      RelinkNeighbour(node.previous, true, node.next);
      RelinkNeighbour(node.next, false, node.previous);
      RemoveChild(node.parent.value, id, ctx, Min(Leaf(id, was)), 0);
    }

    /** Take a child out of its parent; remove the parent if it was the only one,
        collapse the root if one other remains, repair separators otherwise. */
    method RemoveChild(parent: PageId, child: PageId, ghost ctx: Context, ghost min: Bytes, ghost h: nat)
      requires ctx.Down? && Removing(width, nextPage, pages, ctx, child, min, h) && parent == ctx.id
               && RootId(ctx) == root
      modifies this
      ensures Valid() && Entries() == Left(ctx) + Right(ctx)
      decreases Height(ctx)
    {
      hide Sound, Flat, FlatAll, Leaves, LeavesAll, Plug, SortedEntries, Chain, Shaped, Left, Right, Rep, RepAll,
           Ids, IdsAll, ContextIds, Distinct, Min, ContextRep, ContextShaped, Removing, Roots, Bounds, InternalFits,
             AllShaped;
      RemovingFacts(width, nextPage, pages, ctx, child, min, h);
      RemainingPage(ctx, child, min);
      var node := pages[parent];
      var position := IndexOf(node.children, child);
      PositionIsHole(ctx, child, multiset{child}, position);
      var children := node.children[..position] + node.children[position + 1..];
      RootsLength(Remaining(ctx));
      RootIsTop(ctx, multiset{child});
      if children == [] {
        if parent == root {
          RemoveLast(width, nextPage, pages, ctx, child, min, h);
          pages := pages[root := LeafNode(None, None, None, [])];
          tree, height := Leaf(root, []), 0;
        } else {
          RemoveUp(width, nextPage, pages, ctx, child, min, h);
          RemoveChild(node.parent.value, parent, ctx.up, min, h + 1);
        }
      } else if parent == root && |children| == 1 {
        ghost var t := Remaining(ctx)[0];
        AloneUnder(width, nextPage, pages, ctx, child, min, h, t);
        CollapseRoot(children[0], t, Some(ctx.id), h);
      } else {
        var keys := node.keys;
        if keys != [] {
          var at := if position == 0 then 0 else position - 1;
          at := if at <= |keys| - 1 then at else |keys| - 1;
          keys := keys[..at] + keys[at + 1..];
        }
        RepairBranch(parent, node.parent, keys, children, ctx, child, min, h);
      }
    }

    /** Save a parent that lost a child and recompute its separators. */
    method RepairBranch(parent: PageId, grandparent: Option<PageId>, keys: seq<Bytes>, children: seq<PageId>,
                        ghost ctx: Context, ghost child: PageId, ghost min: Bytes, ghost h: nat)
      requires ctx.Down? && Removing(width, nextPage, pages, ctx, child, min, h) && parent == ctx.id
               && RootId(ctx) == root
      requires grandparent == ParentOf(ctx.up) && children == Roots(Remaining(ctx)) && children != []
      modifies this
      ensures Valid() && Entries() == Left(ctx) + Right(ctx)
    {
      hide Sound, Flat, FlatAll, Leaves, LeavesAll, Plug, SortedEntries, Chain, Shaped, Left, Right, LeftLeaves,
           RightLeaves, Rep, Ids, IdsAll, ContextIds, Distinct, Min, ContextRep, ContextShaped, Removing, Bounds,
             InternalFits, AllShaped;
      RemovingFacts(width, nextPage, pages, ctx, child, min, h);
      ghost var cs := Remaining(ctx);
      ghost var low := if ctx.before == [] then min else Min(ctx.before[0]);
      Repairing(pages, ctx, cs, low, InternalNode(grandparent, keys, children));
      ghost var start := pages;
      pages := pages[parent := InternalNode(grandparent, keys, children)];
      RecomputeSeparators(parent, ctx.up, cs, low, h);
      SpineLinks(start, parent, InternalNode(grandparent, keys, children), nextPage);
      LinksThrough(start, start[parent := InternalNode(grandparent, keys, children)], pages);
      ChainFrame(start, pages, LeftLeaves(ctx) + RightLeaves(ctx));
      SameKeysBelow(start, pages, nextPage);
      BranchPlaced(width, root, nextPage, pages, ctx, h);
      tree, height := Plug(ctx.up, [Branch(ctx.id, cs)]), h + 1 + Height(ctx.up);
    }

    /** Every separator is the minimum of the child to its right. */
    method RecomputeSeparators(id: PageId, ghost up: Context, ghost cs: seq<Tree>, ghost min: Bytes, ghost h: nat)
      requires cs != [] && AllShaped(width, cs, h) && InternalFits(width, |cs|) && ContextShaped(width, up, h + 1)
      requires id in pages && pages[id].InternalNode? && pages[id].parent == ParentOf(up)
               && pages[id].children == Roots(cs)
      requires RepAll(pages, cs, Some(id)) && ContextRep(pages, up, id, min)
      requires Distinct(ContextIds(up) + (multiset{id} + IdsAll(cs)))
      modifies this`pages
      ensures Rep(pages, Branch(id, cs), ParentOf(up)) && ContextRep(pages, up, id, Min(Branch(id, cs)))
      ensures SameLinks(old(pages), pages) && pages.Keys == old(pages).Keys
    {
      hide Flat, FlatAll, Leaves, LeavesAll, Ids, IdsAll, Shaped, Rep, ContextIds, Distinct, Min, ContextRep,
           ContextShaped, InternalFits;
      var node := pages[id];
      var keys := [];
      var i := 1;
      while i < |node.children|
        invariant 1 <= i <= |cs| && keys == Separators(cs)[..i - 1] && pages == old(pages)
      {
        assert cs[i] in cs;
        assert Rep(pages, cs[i], Some(id));
        var low := SubtreeMin(node.children[i], cs[i], Some(id), h);
        assert Separators(cs)[i - 1] == Min(cs[i]);
        keys := keys + [low];
        i := i + 1;
      }
      assert keys == Separators(cs);
      ghost var b := Branch(id, cs);
      BranchShaped(width, id, cs, h);
      BranchHolds(id, cs);
      ghost var start := pages;
      pages := pages[id := InternalNode(node.parent, keys, node.children)];
      Recomputed(start, pages, up, id, cs, min);
      PropagateMinChange(id, up, b, min, h + 1);
      LinksThrough(start, start[id := InternalNode(node.parent, keys, node.children)], pages);
    }

    /** The root takes the page of its lone descendant that is not unary itself. */
    method CollapseRoot(only: PageId, ghost t: Tree, ghost parent: Option<PageId>, ghost g: nat)
      requires Alone(width, root, nextPage, pages, t, parent, g) && only == t.id
      modifies this
      ensures Valid() && Entries() == Flat(t)
      decreases g
    {
      hide Sound, Flat, FlatAll, Leaves, LeavesAll, Ids, IdsAll, Min, SortedEntries, Chain, Shaped, Alone;
      AloneFacts(width, root, nextPage, pages, t, parent, g);
      RaiseHolds(width, t, root, g);
      var node := pages[only];
      if node.InternalNode? && |node.children| == 1 {
        AloneDown(width, root, nextPage, pages, t, parent, g);
        CollapseRoot(node.children[0], t.children[0], Some(t.id), g - 1);
      } else if node.LeafNode? {
        CollapsedLeaf(width, root, nextPage, pages, t, parent, g);
        RelinkNeighbour(node.previous, true, Some(root));
        RelinkNeighbour(node.next, false, Some(root));
        pages := pages[root := LeafNode(None, node.previous, node.next, node.entries)];
        tree, height := Raise(t, root), 0;
      } else {
        CollapsedBranch(width, root, nextPage, pages, t, parent, g);
        ReparentChildren(root, node.children);
        pages := pages[root := InternalNode(None, node.keys, node.children)];
        tree, height := Raise(t, root), g;
      }
    }

    /** Point a sibling at another page, or at nothing. */
    method RelinkNeighbour(neighbour: Option<PageId>, forward: bool, target: Option<PageId>)
      requires neighbour.Some? ==> neighbour.value in pages && pages[neighbour.value].LeafNode?
      modifies this`pages
      ensures pages == if forward then PointOn(old(pages), neighbour, target)
              else PointBack(old(pages), neighbour, target)
    {
      if neighbour.None? {
        return;
      }
      var node := pages[neighbour.value];
      if forward {
        node := node.(next := target);
      } else {
        node := node.(previous := target);
      }
      pages := pages[neighbour.value := node];
    }
  }

  lemma SplittingFacts(width: nat, next: nat, pages: Pages, ctx: Context, l: Tree, r: Tree, h: nat)
    requires Splitting(width, next, pages, ctx, l, r, h)
    ensures Distinct(ContextIds(ctx) + (Ids(l) + Ids(r))) && l.id in Ids(l) + Ids(r)
    ensures r.id in pages && pages[r.id].parent == Some(ctx.id)
    ensures AllShaped(width, Widened(ctx, l, r), h) && Widened(ctx, l, r) != []
    ensures l.id in Roots(ctx.before) + [l.id] + Roots(ctx.after)
  {
    hide Flat, FlatAll, IdsAll, Min, SortedEntries, ContextRep;
    assert ContextIds(ctx) + (Ids(l) + Ids(r)) == ContextIds(ctx) + Ids(l) + Ids(r);
    WidenedShaped(width, ctx, l, r, h);
    assert (Roots(ctx.before) + [l.id] + Roots(ctx.after))[|ctx.before|] == l.id;
  }

  lemma WidenedAround(ctx: Context, l: Tree, r: Tree, t: Tree)
    requires ctx.Down? && Around(ctx.up, FlatAll(Widened(ctx, l, r)), LeavesAll(Widened(ctx, l, r)), t)
    ensures Around(ctx, Flat(l) + Flat(r), Leaves(l) + Leaves(r), t)
  {
    hide Flat, FlatAll, Leaves, LeavesAll, Widened;
    WidenedHolds(ctx, l, r);
  }

  lemma BurstingFacts(width: nat, next: nat, pages: Pages, up: Context, id: PageId, cs: seq<Tree>, h: nat)
    requires Bursting(width, next, pages, up, id, cs, h)
    ensures cs != [] && (|cs| - 1) / 2 + 1 < |cs| && id in pages
    ensures |Separators(cs)| == |cs| - 1 && |Roots(cs)| == |cs|
    ensures forall c :: c in Roots(cs) ==> c in pages
  {
    hide Flat, FlatAll, Ids, IdsAll, Min, SortedEntries, ContextRep, Distinct;
    CutFits(width, cs, h);
    forall c | c in Roots(cs) ensures c in pages {
      var k :| 0 <= k < |cs| && cs[k].id == c;
      assert Rep(pages, cs[k], Some(id));
    }
  }

  lemma HalvedFacts(width: nat, p: Pages, q: Pages, parent: Option<PageId>, cs: seq<Tree>, h: nat, l: Tree, r: Tree)
    requires Halved(width, p, q, parent, cs, h, l, r)
    ensures SameLinks(p, q) && Flat(l) + Flat(r) == FlatAll(cs) && Leaves(l) + Leaves(r) == LeavesAll(cs)
  {
  }

  lemma NeighboursAreLeaves(p: Pages, a: seq<PageId>, x: PageId, b: seq<PageId>)
    requires Chain(p, a + [x] + b)
    ensures HeadOf(b).Some? ==> HeadOf(b).value in p && p[HeadOf(b).value].LeafNode?
    ensures LastOf(a).Some? ==> LastOf(a).value in p && p[LastOf(a).value].LeafNode?
  {
    var s := a + [x] + b;
    assert b != [] ==> Linked(p, s, |a| + 1) && s[|a| + 1] == b[0];
    assert a != [] ==> Linked(p, s, |a| - 1) && s[|a| - 1] == a[|a| - 1];
  }

  lemma ScanStart(width: nat, root: PageId, next: nat, p: Pages, t: Tree, h: nat, ctx: Context, id: PageId,
                  was: seq<Entry>, start: Bytes, end: Option<Bytes>)
    requires Sound(width, root, next, p, t, h) && Chain(p, Leaves(t)) && t == Plug(ctx, [Leaf(id, was)])
    requires AtLeaf(width, root, next, p, ctx, id, was, h) && AllBelow(Left(ctx), start)
    ensures var leaves, j := Leaves(t), |LeftLeaves(ctx)|;
            && j < |leaves| && leaves[j] == id && InRange(EntriesOf(p, leaves[..j]), start, end) == []
            && EntriesOf(p, leaves) == Flat(t) && SortedEntries(EntriesOf(p, leaves))
  {
    hide Flat, FlatAll, Leaves, LeavesAll, Ids, IdsAll, Plug, ContextShaped, InRange, EntriesOf, SortedEntries, Rep,
         ContextRep, Chain, Distinct, NoRepeat;
    AtLeafFacts(width, root, next, p, ctx, id, was, h);
    LeafInTree(ctx, id, was);
    assert Leaves(t)[..|LeftLeaves(ctx)|] == LeftLeaves(ctx);
    ChainIsTree(p, t, None);
    TopRep(p, ctx, id, Min(Leaf(id, was)));
    ChainBefore(p, ctx, id, Min(Leaf(id, was)));
    NothingBefore(Left(ctx), start, end);
  }

  lemma ScanLeaf(p: Pages, leaves: seq<PageId>, j: nat)
    requires j < |leaves| && leaves[j] in p && p[leaves[j]].LeafNode?
    ensures EntriesOf(p, leaves[..j + 1]) == EntriesOf(p, leaves[..j]) + p[leaves[j]].entries
    ensures EntriesOf(p, leaves) == EntriesOf(p, leaves[..j]) + p[leaves[j]].entries + EntriesOf(p, leaves[j + 1..])
  {
    assert leaves[..j + 1] == leaves[..j] + [leaves[j]];
    assert leaves == leaves[..j + 1] + leaves[j + 1..];
    EntriesOfConcat(p, leaves[..j], [leaves[j]]);
    EntriesOfConcat(p, leaves[..j + 1], leaves[j + 1..]);
    assert [leaves[j]][1..] == [];
  }

  lemma ScanEnd(p: Pages, leaves: seq<PageId>, j: nat, k: nat, start: Bytes, end: Bytes)
    requires j < |leaves| && leaves[j] in p && p[leaves[j]].LeafNode? && k < |p[leaves[j]].entries|
    requires SortedEntries(EntriesOf(p, leaves)) && !Less(p[leaves[j]].entries[k].key, end)
    ensures InRange(EntriesOf(p, leaves), start, Some(end))
            == InRange(EntriesOf(p, leaves[..j]) + p[leaves[j]].entries[..k], start, Some(end))
  {
    hide EntriesOf, InRange, SortedEntries;
    var es := p[leaves[j]].entries;
    var a, b := EntriesOf(p, leaves[..j]) + es[..k], es[k..] + EntriesOf(p, leaves[j + 1..]);
    ScanLeaf(p, leaves, j);
    assert es == es[..k] + es[k..];
    assert EntriesOf(p, leaves) == a + b;
    NothingAfter(a, b, start, end);
  }

  lemma ValidIsFormed(width: nat, root: PageId, next: nat, p: Pages, t: Tree, h: nat)
    requires Sound(width, root, next, p, t, h) && Chain(p, Leaves(t))
    ensures Check.Formed(p, root, t, h)
  {
    if Shaped(width, t, h) {
      Check.ShapedIsLevel(width, t, h);
    }
  }

  lemma TopRep(p: Pages, ctx: Context, id: PageId, min: Bytes)
    ensures ctx.Top? ==> ContextRep(p, ctx, id, min)
  {
  }

  lemma AtLeafShape(width: nat, root: PageId, next: nat, p: Pages, ctx: Context, id: PageId, was: seq<Entry>, h: nat)
    requires AtLeaf(width, root, next, p, ctx, id, was, h)
    ensures ContextShaped(width, ctx, 0) && Height(ctx) == h
  {
  }

  /** The leaf the descent reached. */
  lemma LeafHere(width: nat, root: PageId, next: nat, p: Pages, t: Tree, h: nat, ctx: Context, id: PageId,
                 was: seq<Entry>)
    requires Sound(width, root, next, p, t, h) && Chain(p, Leaves(t)) && t == Plug(ctx, [Leaf(id, was)])
             && Height(ctx) == h
    requires ContextShaped(width, ctx, 0) && (ctx.Down? ==> Shaped(width, Leaf(id, was), 0))
             && RootShaped(width, Leaf(id, was), 0)
    requires Rep(p, Leaf(id, was), ParentOf(ctx))
    ensures AtLeaf(width, root, next, p, ctx, id, was, h)
    ensures id in p && p[id].LeafNode? && p[id].entries == was && p[id].parent == ParentOf(ctx)
    ensures SortedEntries(was) && EntriesOk(width, was) && EntriesSize(was) <= CAPACITY
    ensures SortedEntries(Left(ctx) + was + Right(ctx)) && Flat(t) == Left(ctx) + was + Right(ctx)
    ensures (ctx.Top? <==> id == root) && (ctx.Down? ==> was != [])
  {
    hide Flat, FlatAll, Leaves, LeavesAll, Ids, IdsAll, SortedEntries, ContextShaped, Plug, Chain, Left, Right,
         ContextIds;
    LeafInTree(ctx, id, was);
    SortedMiddle(Left(ctx), was, Right(ctx));
    if ctx.Down? {
      PlugRoot(ctx, [Leaf(id, was)]);
      RootNotHole(ctx, id);
    } else {
      PlugTop(Leaf(id, was));
    }
  }

  lemma {:induction false} RootInContext(ctx: Context)
    requires ctx.Down?
    ensures RootId(ctx) in ContextIds(ctx)
    decreases ctx
  {
    if ctx.up.Down? {
      RootInContext(ctx.up);
    }
  }

  lemma RootNotHole(ctx: Context, id: PageId)
    requires ctx.Down? && Distinct(ContextIds(ctx) + multiset{id})
    ensures id != RootId(ctx)
  {
    RootInContext(ctx);
    PartsDistinct(ContextIds(ctx), multiset{id});
  }

  /** Writing a key at its place in the leaf writes it in the whole list. */
  lemma Written(ctx: Context, was: seq<Entry>, index: nat, found: bool, key: Bytes, value: Bytes)
    requires AllBelow(Left(ctx), key) && AllAbove(Right(ctx), key) && SortedEntries(Left(ctx) + was + Right(ctx))
    requires index <= |was| && AllBelow(was[..index], key)
    requires found ==> index < |was| && was[index].key == key
    requires !found ==> AllAbove(was[index..], key)
    ensures (if found then was[index := Entry(key, value)] else was[..index] + [Entry(key, value)] + was[index..])
            == Upsert(was, key, value)
    ensures Upsert(Left(ctx) + was + Right(ctx), key, value) == Left(ctx) + Upsert(was, key, value) + Right(ctx)
    ensures Lookup(Left(ctx) + was + Right(ctx), key) == if found then Some(was[index].value) else None
    ensures SortedEntries(Left(ctx) + Upsert(was, key, value) + Right(ctx)) && Upsert(was, key, value) != []
  {
    hide SortedEntries, Left, Right;
    UpsertMiddle(Left(ctx), was, Right(ctx), key, value);
    WithoutMiddle(Left(ctx), was, Right(ctx), key);
    UpsertSorted(Left(ctx) + was + Right(ctx), key, value);
    LessIrreflexive(key);
    if !found {
      AbsentAt(was, index, key);
      assert index < |was| ==> was[index] in was[index..];
    }
    UpsertAt(was, index, key, value);
  }

  /** A key that is not the least of all never becomes the least of its leaf. */
  lemma FirstStays(ctx: Context, was: seq<Entry>, key: Bytes, value: Bytes)
    requires Leftmost(ctx) || (was != [] && LessEq(was[0].key, key))
    ensures Leftmost(ctx) || (was != [] && Upsert(was, key, value) != []
                              && was[0].key == Upsert(was, key, value)[0].key)
  {
    if !Leftmost(ctx) && Less(key, was[0].key) {
      LessIrreflexive(key);
      if was[0].key != key {
        LessTransitive(key, was[0].key, key);
      }
    }
  }

  /** Removing a key from its leaf removes it from the whole list. */
  lemma Removed(width: nat, ctx: Context, was: seq<Entry>, index: nat, found: bool, key: Bytes)
    requires AllBelow(Left(ctx), key) && AllAbove(Right(ctx), key) && SortedEntries(Left(ctx) + was + Right(ctx))
    requires index <= |was| && AllBelow(was[..index], key) && EntriesOk(width, was) && EntriesSize(was) <= CAPACITY
    requires found ==> index < |was| && was[index].key == key
    requires !found ==> AllAbove(was[index..], key)
    ensures Lookup(Left(ctx) + was + Right(ctx), key) == if found then Some(was[index].value) else None
    ensures !found ==> Without(Left(ctx) + was + Right(ctx), key) == Left(ctx) + was + Right(ctx)
    ensures found ==> var now := was[..index] + was[index + 1..];
              && Without(Left(ctx) + was + Right(ctx), key) == Left(ctx) + now + Right(ctx)
              && SortedEntries(Left(ctx) + now + Right(ctx)) && EntriesOk(width, now) && EntriesSize(now) <= CAPACITY
  {
    hide SortedEntries, Left, Right, EntriesSize;
    WithoutMiddle(Left(ctx), was, Right(ctx), key);
    if found {
      WithoutAt(was, index, key);
      WithoutSorted(Left(ctx) + was + Right(ctx), key);
      WithoutSize(was, key);
      var now := was[..index] + was[index + 1..];
      forall e | e in now ensures |e.key| == width && 3 * EntrySize(e) <= CAPACITY {
        assert e in was;
      }
    } else {
      AbsentAt(was, index, key);
    }
  }

  lemma RemovingFacts(width: nat, next: nat, p: Pages, ctx: Context, hole: PageId, min: Bytes, h: nat)
    requires Removing(width, next, p, ctx, hole, min, h)
    ensures AllShaped(width, Remaining(ctx), h) && ContextShaped(width, ctx.up, h + 1)
    ensures InternalFits(width, |Remaining(ctx)|)
    ensures RepAll(p, Remaining(ctx), Some(ctx.id)) && ctx.id in p && p[ctx.id].InternalNode?
    ensures p[ctx.id].children == Roots(ctx.before) + [hole] + Roots(ctx.after) && p[ctx.id].parent == ParentOf(ctx.up)
    ensures hole in p[ctx.id].children
    ensures ContextRep(p, ctx.up, ctx.id, if ctx.before == [] then min else Min(ctx.before[0]))
    ensures Distinct(ContextIds(ctx) + multiset{hole}) && Distinct(ContextIds(ctx))
    ensures SortedEntries(Left(ctx) + Right(ctx)) && Below(p, next) && Chain(p, LeftLeaves(ctx) + RightLeaves(ctx))
  {
    hide Flat, FlatAll, Ids, IdsAll, Min, SortedEntries, Rep, Shaped, RepAll, AllShaped, ContextRep, ContextShaped,
         Chain, InternalFits;
    RemainingShaped(width, p, ctx, hole, min, h);
    PartsDistinct(ContextIds(ctx), multiset{hole});
    assert (Roots(ctx.before) + [hole] + Roots(ctx.after))[|ctx.before|] == hole;
  }

  lemma RootsLength(ts: seq<Tree>)
    ensures |Roots(ts)| == |ts| && forall i :: 0 <= i < |ts| ==> Roots(ts)[i] == ts[i].id
  {
  }

  /** A spine page is the root's exactly at the top. */
  lemma RootIsTop(ctx: Context, ids: multiset<PageId>)
    requires ctx.Down? && Distinct(ContextIds(ctx) + ids)
    ensures ctx.id == RootId(ctx) <==> ctx.up.Top?
  {
    hide Distinct;
    if ctx.up.Down? {
      RootInContext(ctx.up);
      PartsDistinct(ContextIds(ctx), ids);
      SpineApart(ctx);
    }
  }

  /** Rewriting a spine page touches neither its remaining children nor the spine above. */
  lemma Repairing(p: Pages, ctx: Context, cs: seq<Tree>, min: Bytes, n: Node)
    requires ctx.Down? && cs == Remaining(ctx) && Distinct(ContextIds(ctx)) && ctx.id in p && p[ctx.id].InternalNode?
    requires RepAll(p, cs, Some(ctx.id)) && ContextRep(p, ctx.up, ctx.id, min)
    ensures RepAll(p[ctx.id := n], cs, Some(ctx.id)) && ContextRep(p[ctx.id := n], ctx.up, ctx.id, min)
    ensures Distinct(ContextIds(ctx.up) + (multiset{ctx.id} + IdsAll(cs))) && p[ctx.id := n].Keys == p.Keys
    ensures SameLinks(p, p[ctx.id := n])
  {
    hide Flat, FlatAll, Ids, IdsAll, Min, Rep, RepAll, ContextRep, Distinct, ContextIds, SameOn, SameLinks;
    SpineApart(ctx);
    RemainingHolds(ctx);
    OneChanged(p, ctx.id, n, IdsAll(cs));
    OneChanged(p, ctx.id, n, ContextIds(ctx.up));
    RepAllFrame(p, p[ctx.id := n], cs, Some(ctx.id));
    ContextFrame(p, p[ctx.id := n], ctx.up, ctx.id, min);
  }

  lemma OneChanged(p: Pages, id: PageId, n: Node, ids: multiset<PageId>)
    requires id in p && p[id].InternalNode? && id !in ids
    ensures SameOn(p, p[id := n], ids) && SameLinks(p, p[id := n])
  {
  }

  lemma Recomputed(p: Pages, q: Pages, up: Context, id: PageId, cs: seq<Tree>, min: Bytes)
    requires id in p && p[id].InternalNode? && q == p[id := InternalNode(ParentOf(up), Separators(cs), Roots(cs))]
    requires RepAll(p, cs, Some(id)) && ContextRep(p, up, id, min)
             && Distinct(ContextIds(up) + (multiset{id} + IdsAll(cs)))
    ensures Rep(q, Branch(id, cs), ParentOf(up)) && ContextRep(q, up, id, min)
    ensures SameLinks(p, q) && q.Keys == p.Keys
  {
    hide Flat, FlatAll, Ids, IdsAll, Min, ContextRep, ContextIds, Separators;
    var ids := ContextIds(up) + (multiset{id} + IdsAll(cs));
    Apart(ids, IdsAll(cs), id);
    Apart(ids, ContextIds(up), id);
    RepAllFrame(p, q, cs, Some(id));
    ContextFrame(p, q, up, id, min);
  }

  lemma AloneFacts(width: nat, root: PageId, next: nat, p: Pages, t: Tree, parent: Option<PageId>, g: nat)
    requires Alone(width, root, next, p, t, parent, g)
    ensures t.id in p && Shaped(width, t, g) && (p[t.id].InternalNode? <==> t.Branch?)
    ensures t.Branch? ==> p[t.id].children == Roots(t.children) && |p[t.id].children| == |t.children|
    ensures t.Leaf? ==> p[t.id].entries == t.entries
  {
  }

  lemma LeafMin(id: PageId, s: seq<Entry>)
    requires s != []
    ensures Min(Leaf(id, s)) == s[0].key
  {
  }

  lemma SetParentsKeys(p: Pages, kids: seq<PageId>, id: PageId)
    ensures SetParents(p, kids, id).Keys == p.Keys
  {
  }

  lemma LinksThrough(p: Pages, q: Pages, r: Pages)
    requires SameLinks(p, q) && SameLinks(q, r)
    ensures SameLinks(p, r)
  {
  }

  lemma LeafTop(p: Pages, ctx: Context, id: PageId, was: seq<Entry>)
    requires id in p && p[id].parent.None? && (ctx.Down? ==> Rep(p, Leaf(id, was), ParentOf(ctx)))
    ensures ctx.Top? && Left(ctx) == [] && Right(ctx) == [] && LeftLeaves(ctx) == [] && RightLeaves(ctx) == []
  {
  }

  lemma LeafDown(p: Pages, ctx: Context, id: PageId, was: seq<Entry>)
    requires id in p && p[id].parent.Some? && (ctx.Down? ==> Rep(p, Leaf(id, was), ParentOf(ctx)))
    requires ctx.Top? ==> Rep(p, Leaf(id, was), None)
    ensures ctx.Down? && p[id].parent == Some(ctx.id)
  {
  }

  lemma AroundPair(ctx: Context, l: Tree, r: Tree, t: Tree)
    requires l.Leaf? && r.Leaf? && Around(ctx, Flat(l) + Flat(r), Leaves(l) + Leaves(r), t)
    ensures Flat(t) == Left(ctx) + (l.entries + r.entries) + Right(ctx)
    ensures Leaves(t) == LeftLeaves(ctx) + [l.id, r.id] + RightLeaves(ctx)
  {
    assert Leaves(l) + Leaves(r) == [l.id, r.id];
  }

  lemma RepParent(pages: Pages, t: Tree, parent: Option<PageId>)
    requires Rep(pages, t, parent)
    ensures t.id in pages && pages[t.id].parent == parent
  {
  }

  lemma ChildAmong(pages: Pages, ctx: Context, child: PageId, min: Bytes)
    requires ctx.Down? && ContextRep(pages, ctx, child, min)
    ensures ctx.id in pages && pages[ctx.id].InternalNode? && child in pages[ctx.id].children
    ensures pages[ctx.id].children == Roots(ctx.before) + [child] + Roots(ctx.after)
    ensures pages[ctx.id].keys == Bounds(ctx.before, min, ctx.after) && pages[ctx.id].parent == ParentOf(ctx.up)
  {
    var children := Roots(ctx.before) + [child] + Roots(ctx.after);
    assert children[|ctx.before|] == child;
  }

  lemma IdInIds(t: Tree)
    ensures t.id in Ids(t)
  {
  }

  /** Rewriting a spine page's keys leaves the hole's tree and every leaf alone. */
  lemma BoundElsewhere(p: Pages, q: Pages, ctx: Context, n: Node, t: Tree, parent: Option<PageId>)
    requires ctx.Down? && ctx.id in p && p[ctx.id].InternalNode? && q == p[ctx.id := n]
    requires Rep(p, t, parent) && Distinct(ContextIds(ctx) + Ids(t))
    ensures Rep(q, t, parent) && SameLinks(p, q) && q.Keys == p.Keys
  {
    hide Rep, Ids, IdsAll, Distinct;
    assert ctx.id in ContextIds(ctx);
    PartsDistinct(ContextIds(ctx), Ids(t));
    RepFrame(p, q, t, parent);
  }

  lemma BranchIds(ctx: Context, t: Tree)
    requires ctx.Down?
    ensures ContextIds(ctx.up) + Ids(Branch(ctx.id, ctx.before + [t] + ctx.after)) == ContextIds(ctx) + Ids(t)
  {
    hide IdsAll;
    var b := Branch(ctx.id, ctx.before + [t] + ctx.after);
    assert IdsAll([b]) == Ids(b) by { One(b); }
    ThreeParts(ctx.id, ctx.before, [t], ctx.after);
    One(t);
  }

  /** A first child is part of a branch whose own minimum is the child's. */
  lemma FirstChildBranch(width: nat, pages: Pages, ctx: Context, t: Tree, min: Bytes, h: nat)
    requires ctx.Down? && ctx.before == [] && Shaped(width, t, h) && ContextShaped(width, ctx, h)
    requires Rep(pages, t, ParentOf(ctx)) && ContextRep(pages, ctx, t.id, min) && Distinct(ContextIds(ctx) + Ids(t))
    ensures var b := Branch(ctx.id, ctx.before + [t] + ctx.after);
            && Shaped(width, b, h + 1) && ContextShaped(width, ctx.up, h + 1)
            && Rep(pages, b, ParentOf(ctx.up)) && ContextRep(pages, ctx.up, ctx.id, min)
            && Distinct(ContextIds(ctx.up) + Ids(b))
  {
    hide Flat, FlatAll, Ids, IdsAll, Min, ContextIds, Rep;
    BranchRep(pages, ctx, t);
    BranchIds(ctx, t);
    BranchShaped(width, ctx.id, ctx.before + [t] + ctx.after, h);
  }

  lemma FirstChildBack(width: nat, pages: Pages, ctx: Context, t: Tree, h: nat)
    requires ctx.Down? && ctx.before == [] && Shaped(width, t, h)
    requires var b := Branch(ctx.id, ctx.before + [t] + ctx.after);
             Rep(pages, b, ParentOf(ctx.up)) && ContextRep(pages, ctx.up, ctx.id, Min(b))
    ensures Rep(pages, t, ParentOf(ctx)) && ContextRep(pages, ctx, t.id, Min(t))
  {
    hide Flat, FlatAll, Ids, IdsAll, Min, ContextIds, Rep;
    BranchRep(pages, ctx, t);
    MinBranch(width, ctx.id, ctx.before + [t] + ctx.after, h);
  }

  lemma PlugTop(t: Tree)
    ensures Plug(Top, [t]) == t
  {
  }

  lemma SoundSorted(width: nat, root: PageId, next: nat, pages: Pages, t: Tree, h: nat)
    requires Sound(width, root, next, pages, t, h)
    ensures SortedEntries(Flat(t)) && Distinct(Ids(t))
  {
  }

  lemma SortedMiddle(a: seq<Entry>, s: seq<Entry>, c: seq<Entry>)
    requires SortedEntries(a + s + c)
    ensures SortedEntries(a) && SortedEntries(s) && SortedEntries(c)
  {
    hide SortedEntries;
    SortedParts(a + s, c);
    SortedParts(a, s);
  }

  lemma DescentSorted(tree: Tree, ctx: Context, t: Tree)
    requires tree == Plug(ctx, [t]) && SortedEntries(Flat(tree)) && t.Branch?
    ensures SortedEntries(FlatAll(t.children))
  {
    PlugFlat(ctx, [t]);
    One(t);
    SortedMiddle(Left(ctx), Flat(t), Right(ctx));
  }

  lemma SeparatorsAscendAll(width: nat, t: Tree, h: nat)
    requires Shaped(width, t, h) && t.Branch? && SortedEntries(FlatAll(t.children))
    ensures forall i, j :: 0 <= i < j < |Separators(t.children)| ==>
                             Less(Separators(t.children)[i], Separators(t.children)[j])
  {
    ChildrenShaped(width, t, h);
    forall i, j | 0 <= i < j < |Separators(t.children)|
      ensures Less(Separators(t.children)[i], Separators(t.children)[j]) {
      SeparatorsAscend(width, t.children, h - 1, i, j);
    }
  }

  lemma DownBounds(ctx: Context, t: Tree, i: nat, key: Bytes)
    requires t.Branch? && i < |t.children| && AllBelow(Left(ctx), key) && AllAbove(Right(ctx), key)
    requires AllBelow(FlatAll(t.children[..i]), key) && AllAbove(FlatAll(t.children[i + 1..]), key)
    ensures AllBelow(Left(Deeper(ctx, t, i)), key) && AllAbove(Right(Deeper(ctx, t, i)), key)
    ensures i > 0 || !Leftmost(ctx) || Leftmost(Deeper(ctx, t, i))
  {
  }
}
