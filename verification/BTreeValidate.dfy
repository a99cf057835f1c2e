/** The tree checker: it accepts a set of linked pages exactly when they stand for a
    well-formed tree. */
module BTreeValidate {
  import opened Wrappers
  import opened Ordering
  import opened BTreeEntries
  import opened BTreeForest
  import opened BTreeSteps

  datatype Info = Info(min: Option<Bytes>, max: Option<Bytes>, depth: nat, entries: nat)

  datatype Report = Report(nodes: nat, leaves: nat, height: nat, entries: nat)

  /** Equal depth `h`, no empty leaf, no childless branch. */
  ghost predicate Level(t: Tree, h: nat) {
    match t
    case Leaf(_, entries) => h == 0 && entries != []
    case Branch(_, children) => h > 0 && children != [] && forall c {:trigger c in children} ::
        c in children ==> Level(c, h - 1)
  }

  /** The root alone may be an empty leaf. */
  ghost predicate LevelAt(root: PageId, t: Tree, h: nat) {
    Level(t, h) || (t.Leaf? && t.id == root && h == 0)
  }

  function Unseen(p: Pages, visited: set<PageId>): nat {
    |p.Keys - visited|
  }

  /** Pages from `id` down stand for `t`, and none of them has been visited. */
  ghost predicate Stands(p: Pages, root: PageId, id: PageId, parent: Option<PageId>, visited: set<PageId>, t: Tree,
                         h: nat) {
    && t.id == id && Rep(p, t, parent) && Distinct(Ids(t)) && SortedEntries(Flat(t)) && LevelAt(root, t, h)
    && (forall i {:trigger i in visited} :: i in visited ==> i !in Ids(t))
  }

  /** The same for a list of children. */
  ghost predicate AllStand(p: Pages, ids: seq<PageId>, parent: Option<PageId>, visited: set<PageId>, ts: seq<Tree>) {
    && Roots(ts) == ids && RepAll(p, ts, parent) && Distinct(IdsAll(ts))
    && (forall i {:trigger i in visited} :: i in visited ==> i !in IdsAll(ts))
    && (forall c {:trigger c in ts} :: c in ts ==> SortedEntries(Flat(c)) && exists h :: Level(c, h))
  }

  function First(t: Tree): Option<Bytes> {
    if Flat(t) == [] then None else Some(Flat(t)[0].key)
  }

  function Last(t: Tree): Option<Bytes> {
    if Flat(t) == [] then None else Some(Flat(t)[|Flat(t)| - 1].key)
  }

  ghost predicate Describes(info: Info, t: Tree) {
    info.min == First(t) && info.max == Last(t) && info.entries == |Flat(t)|
  }

  function IdSet(ids: multiset<PageId>): set<PageId> {
    set i | i in ids
  }

  // ------------------------------------------------------------------ uniqueness

  /** Pages determine the tree. */
  lemma {:induction false} RepUnique(p: Pages, a: Tree, b: Tree, x: Option<PageId>, y: Option<PageId>)
    requires Rep(p, a, x) && Rep(p, b, y) && a.id == b.id
    ensures a == b
    decreases a
  {
    if a.Branch? {
      assert |a.children| == |Roots(a.children)| == |b.children|;
      forall i | 0 <= i < |a.children| ensures a.children[i] == b.children[i] {
        assert Roots(a.children)[i] == Roots(b.children)[i];
        assert a.children[i] in a.children && b.children[i] in b.children;
        RepUnique(p, a.children[i], b.children[i], Some(a.id), Some(a.id));
      }
    }
  }

  lemma AllUnique(p: Pages, a: seq<Tree>, b: seq<Tree>, parent: Option<PageId>)
    requires RepAll(p, a, parent) && RepAll(p, b, parent) && Roots(a) == Roots(b)
    ensures a == b
  {
    assert |a| == |Roots(a)| == |b|;
    forall i | 0 <= i < |a| ensures a[i] == b[i] {
      assert Roots(a)[i] == Roots(b)[i];
      assert a[i] in a && b[i] in b;
      RepUnique(p, a[i], b[i], parent, parent);
    }
  }

  lemma {:induction false} LevelNonEmpty(t: Tree, h: nat)
    requires Level(t, h)
    ensures Flat(t) != []
    decreases h
  {
    if t.Branch? {
      assert t.children[0] in t.children;
      LevelNonEmpty(t.children[0], h - 1);
    }
  }

  lemma {:induction false} LevelUnique(t: Tree, g: nat, h: nat)
    requires Level(t, g) && Level(t, h)
    ensures g == h
    decreases g
  {
    if t.Branch? {
      assert t.children[0] in t.children;
      LevelUnique(t.children[0], g - 1, h - 1);
    }
  }

  // ---------------------------------------------------------------------- order

  /** Child `i` begins after the one before it ends. */
  predicate Follows(ts: seq<Tree>, i: nat) {
    0 < i < |ts| ==>
      Flat(ts[i - 1]) != [] && Flat(ts[i]) != [] && Less(Flat(ts[i - 1])[|Flat(ts[i - 1])| - 1].key, Flat(ts[i])[0].key)
  }

  lemma {:induction false} OrderedIsSorted(ts: seq<Tree>)
    requires forall i {:trigger Follows(ts, i)} :: Follows(ts, i)
    requires forall c {:trigger c in ts} :: c in ts ==> SortedEntries(Flat(c)) && Flat(c) != []
    ensures SortedEntries(FlatAll(ts))
    decreases |ts|
  {
    hide SortedEntries, Flat;
    if |ts| == 1 {
      assert ts == [ts[0]];
      One(ts[0]);
      assert ts[0] in ts;
    } else if |ts| > 1 {
      var rest := ts[1..];
      forall i: nat ensures Follows(rest, i) {
        assert Follows(ts, i + 1);
      }
      forall c | c in rest ensures SortedEntries(Flat(c)) && Flat(c) != [] {
        assert c in ts;
      }
      OrderedIsSorted(rest);
      assert ts[0] in ts && ts[1] in ts && rest[0] == ts[1];
      var a, b := Flat(ts[0]), FlatAll(rest);
      assert b == Flat(rest[0]) + FlatAll(rest[1..]);
      assert Follows(ts, 1);
      BoundaryJoin(a, b);
    } else {
      NoEntries();
    }
  }

  lemma NoEntries()
    ensures SortedEntries(FlatAll([]))
  {
  }

  lemma BoundaryJoin(a: seq<Entry>, b: seq<Entry>)
    requires SortedEntries(a) && SortedEntries(b) && a != [] && b != [] && Less(a[|a| - 1].key, b[0].key)
    ensures SortedEntries(a + b)
  {
    HeadIsLeast(b);
    forall x, y | x in a && y in b ensures Less(x.key, y.key) {
      var i :| 0 <= i < |a| && a[i] == x;
      var last := a[|a| - 1].key;
      if i < |a| - 1 {
        LessTransitive(x.key, last, b[0].key);
      }
      if y.key != b[0].key {
        LessTransitive(x.key, b[0].key, y.key);
      }
    }
    SortedJoin(a, b);
  }

  lemma SortedIsOrdered(ts: seq<Tree>, i: nat)
    requires SortedEntries(FlatAll(ts)) && 0 < i < |ts| && Flat(ts[i - 1]) != [] && Flat(ts[i]) != []
    ensures Less(Flat(ts[i - 1])[|Flat(ts[i - 1])| - 1].key, Flat(ts[i])[0].key)
    ensures SortedEntries(Flat(ts[i])) && SortedEntries(Flat(ts[i - 1]))
  {
    var a, b := Flat(ts[i - 1]), Flat(ts[i]);
    MemberSplit(ts, i);
    MemberSplit(ts[..i], i - 1);
    assert ts[..i][i - 1] == ts[i - 1] && ts[..i][i..] == [];
    var before := FlatAll(ts[..i]);
    assert FlatAll(ts) == before + (b + FlatAll(ts[i + 1..]));
    SortedParts(before, b + FlatAll(ts[i + 1..]));
    SortedParts(b, FlatAll(ts[i + 1..]));
    assert before == FlatAll(ts[..i][..i - 1]) + a;
    SortedParts(FlatAll(ts[..i][..i - 1]), a);
    assert a[|a| - 1] in before && b[0] in b + FlatAll(ts[i + 1..]);
  }

  lemma MemberSorted(ts: seq<Tree>, i: nat)
    requires SortedEntries(FlatAll(ts)) && i < |ts|
    ensures SortedEntries(Flat(ts[i]))
  {
    hide SortedEntries, Flat, FlatAll;
    MemberSplit(ts, i);
    var a, m, b := FlatAll(ts[..i]), Flat(ts[i]), FlatAll(ts[i + 1..]);
    assert FlatAll(ts) == a + (m + b);
    SortedParts(a, m + b);
    SortedParts(m, b);
  }

  // ----------------------------------------------------------------- the checker

  /** Strictly increasing. */
  method Increasing(keys: seq<Bytes>) returns (ok: bool)
    ensures ok <==> forall i :: 0 < i < |keys| ==> Less(keys[i - 1], keys[i])
  {
    var i := 1;
    while i < |keys|
      invariant 1 <= i && (|keys| > 0 ==> i <= |keys|)
      invariant forall j :: 0 < j < i && j < |keys| ==> Less(keys[j - 1], keys[j])
    {
      if !Less(keys[i - 1], keys[i]) {
        return false;
      }
      i := i + 1;
    }
    return true;
  }

  function Keys(s: seq<Entry>): seq<Bytes> {
    seq(|s|, i requires 0 <= i < |s| => s[i].key)
  }

  lemma {:induction false} StepsAreSorted(s: seq<Entry>, i: nat, j: nat)
    requires i < j < |s| && forall k :: 0 < k < |s| ==> Less(s[k - 1].key, s[k].key)
    ensures Less(s[i].key, s[j].key)
    decreases j
  {
    if i < j - 1 {
      StepsAreSorted(s, i, j - 1);
      LessTransitive(s[i].key, s[j - 1].key, s[j].key);
    }
  }

  lemma SortedByKeys(s: seq<Entry>)
    ensures SortedEntries(s) <==> forall i :: 0 < i < |Keys(s)| ==> Less(Keys(s)[i - 1], Keys(s)[i])
  {
    if forall i :: 0 < i < |Keys(s)| ==> Less(Keys(s)[i - 1], Keys(s)[i]) {
      forall i, j | 0 <= i < j < |s| ensures Less(s[i].key, s[j].key) {
        forall k | 0 < k < |s| ensures Less(s[k - 1].key, s[k].key) {
          assert Less(Keys(s)[k - 1], Keys(s)[k]);
        }
        StepsAreSorted(s, i, j);
      }
    }
  }

  lemma UnseenShrinks(p: Pages, visited: set<PageId>, id: PageId)
    requires id in p && id !in visited
    ensures Unseen(p, visited + {id}) < Unseen(p, visited)
  {
    assert p.Keys - visited == (p.Keys - (visited + {id})) + {id};
  }

  lemma UnseenMonotone(p: Pages, a: set<PageId>, b: set<PageId>)
    requires a <= b
    ensures Unseen(p, b) <= Unseen(p, a)
  {
    var x, y := p.Keys - b, p.Keys - a;
    assert y == x + (y - x);
    assert |y| == |x| + |y - x|;
  }

  method ValidateSubtree(p: Pages, root: PageId, id: PageId, parent: Option<PageId>, visited: set<PageId>,
                         order: seq<PageId>)
    returns (r: Option<Info>, seen: set<PageId>, leaves: seq<PageId>, ghost t: Tree)
    requires id == root || root in visited
    ensures r.Some? ==> Stands(p, root, id, parent, visited, t, r.value.depth) && Describes(r.value, t)
    ensures r.Some? ==> seen == visited + IdSet(Ids(t)) && leaves == order + Leaves(t)
    ensures r.None? ==> forall s, h :: !Stands(p, root, id, parent, visited, s, h)
    decreases Unseen(p, visited), 2
  {
    hide Stands, Describes, Level, LevelAt, Flat, FlatAll, Rep, SortedEntries, Ids, Unseen, SumEntries, AllStand,
         AllDescribe, Leaves, LeavesAll;
    seen, leaves, t := visited, order, Leaf(id, []);
    r := None;
    if id in visited || id !in p || p[id].parent != parent {
      forall s, h ensures !Stands(p, root, id, parent, visited, s, h) {
        StandsHere(p, root, id, parent, visited, s, h);
      }
      return;
    }
    seen := visited + {id};
    UnseenShrinks(p, visited, id);
    match p[id] {
      case LeafNode(_, _, _, entries) =>
        var sorted := Increasing(Keys(entries));
        SortedByKeys(entries);
        if (id != root && entries == []) || !sorted {
          forall s, h ensures !Stands(p, root, id, parent, visited, s, h) {
            LeafStands(p, root, id, parent, visited, s, h);
          }
          return;
        }
        t := Leaf(id, entries);
        LeafBuild(p, root, id, visited);
        leaves := order + [id];
        r := Some(Info(if entries == [] then None else Some(entries[0].key),
                       if entries == [] then None else Some(entries[|entries| - 1].key), 0, |entries|));
      case InternalNode(_, keys, children) =>
        var infos, after, chain, ts := ValidateChildren(p, root, id, children, seen, order);
        if infos.None? {
          forall s, h ensures !Stands(p, root, id, parent, visited, s, h) {
            ChildrenStand(p, root, id, parent, visited, s, h);
          }
          return;
        }
        var ok := CheckFences(keys, infos.value, ts);
        if !ok {
          forall s, h ensures !Stands(p, root, id, parent, visited, s, h) {
            FencesHold(p, root, id, parent, visited, s, h, ts, infos.value);
          }
          return;
        }
        t := Branch(id, ts);
        FencesBuild(p, root, id, parent, visited, ts, infos.value);
        seen, leaves := after, chain;
        SeenBranch(visited, id, ts);
        r := Some(Info(infos.value[0].min, infos.value[|infos.value| - 1].max, infos.value[0].depth + 1,
                       SumEntries(infos.value)));
        BranchDescribed(id, ts, infos.value);
    }
  }

  function SumEntries(infos: seq<Info>): nat {
    if infos == [] then 0 else infos[0].entries + SumEntries(infos[1..])
  }

  ghost predicate AllDescribe(infos: seq<Info>, ts: seq<Tree>) {
    |infos| == |ts| && forall i {:trigger ts[i]} ::
        0 <= i < |ts| ==> Describes(infos[i], ts[i]) && Level(ts[i], infos[i].depth)
  }

  method ValidateChildren(p: Pages, root: PageId, id: PageId, children: seq<PageId>, visited: set<PageId>,
                          order: seq<PageId>)
    returns (infos: Option<seq<Info>>, seen: set<PageId>, leaves: seq<PageId>, ghost ts: seq<Tree>)
    requires root in visited
    ensures infos.Some? ==> AllStand(p, children, Some(id), visited, ts) && AllDescribe(infos.value, ts)
    ensures infos.Some? ==> seen == visited + IdSet(IdsAll(ts)) && leaves == order + LeavesAll(ts)
    ensures infos.None? ==> forall s :: !AllStand(p, children, Some(id), visited, s)
    decreases Unseen(p, visited), 3, |children|
  {
    hide Stands, Flat, FlatAll, SortedEntries, Rep, Describes, Level, Unseen;
    seen, leaves, ts := visited, order, [];
    if children == [] {
      infos := Some([]);
      return;
    }
    var first, mid, chain, t := ValidateSubtree(p, root, children[0], Some(id), visited, order);
    if first.None? {
      forall s ensures !AllStand(p, children, Some(id), visited, s) {
        FirstStands(p, root, id, children, visited, s);
      }
      return None, seen, leaves, ts;
    }
    StandsRep(p, root, children[0], Some(id), visited, t, first.value.depth);
    UnseenMonotone(p, visited, mid);
    var rest, after, tail, us := ValidateChildren(p, root, id, children[1..], mid, chain);
    if rest.None? {
      forall s ensures !AllStand(p, children, Some(id), visited, s) {
        RestStands(p, id, children, visited, mid, t, s);
      }
      return None, seen, leaves, ts;
    }
    ts := [t] + us;
    JoinStands(p, root, id, children, visited, mid, t, first.value, us, rest.value);
    infos := Some([first.value] + rest.value);
    seen, leaves := after, tail;
  }

  // ------------------------------------------------------ what standing implies

  lemma StandsHere(p: Pages, root: PageId, id: PageId, parent: Option<PageId>, visited: set<PageId>, t: Tree, h: nat)
    ensures Stands(p, root, id, parent, visited, t, h) ==> id !in visited && id in p && p[id].parent == parent
  {
  }

  lemma StandsRep(p: Pages, root: PageId, id: PageId, parent: Option<PageId>, visited: set<PageId>, t: Tree, h: nat)
    requires Stands(p, root, id, parent, visited, t, h)
    ensures t.id == id && Rep(p, t, parent)
  {
  }

  lemma LeafBuild(p: Pages, root: PageId, id: PageId, visited: set<PageId>)
    requires id in p && p[id].LeafNode? && id !in visited && SortedEntries(p[id].entries)
             && (id == root || p[id].entries != [])
    ensures var entries, t := p[id].entries, Leaf(id, p[id].entries);
            && Stands(p, root, id, p[id].parent, visited, t, 0) && IdSet(Ids(t)) == {id} && Leaves(t) == [id]
            && Describes(Info(if entries == [] then None else Some(entries[0].key),
                              if entries == [] then None else Some(entries[|entries| - 1].key), 0, |entries|), t)
  {
    assert Ids(Leaf(id, p[id].entries)) == multiset{id};
  }

  lemma LeafStands(p: Pages, root: PageId, id: PageId, parent: Option<PageId>, visited: set<PageId>, t: Tree, h: nat)
    requires id in p && p[id].LeafNode?
    ensures Stands(p, root, id, parent, visited, t, h) ==>
              SortedEntries(p[id].entries) && (id == root || p[id].entries != [])
  {
  }

  lemma ChildrenStand(p: Pages, root: PageId, id: PageId, parent: Option<PageId>, visited: set<PageId>, t: Tree, h: nat)
    requires id in p && p[id].InternalNode?
    ensures Stands(p, root, id, parent, visited, t, h) ==>
              t.Branch? && AllStand(p, p[id].children, Some(id), visited + {id}, t.children) && Level(t, h)
  {
    hide Rep, Flat, FlatAll, SortedEntries;
    if Stands(p, root, id, parent, visited, t, h) {
      StandingBranch(p, t, parent);
      var ts := t.children;
      var ids := multiset{id} + IdsAll(ts);
      assert ids == Ids(t);
      assert ids[id] <= 1;
      DistinctPart(IdsAll(ts), ids);
      forall c | c in ts ensures SortedEntries(Flat(c)) && exists g :: Level(c, g) {
        var i :| 0 <= i < |ts| && ts[i] == c;
        MemberSorted(ts, i);
        assert Level(c, h - 1);
      }
    }
  }

  lemma StandingBranch(p: Pages, t: Tree, parent: Option<PageId>)
    requires Rep(p, t, parent) && p[t.id].InternalNode?
    ensures t.Branch? && p[t.id].children == Roots(t.children) && p[t.id].keys == Separators(t.children)
    ensures RepAll(p, t.children, Some(t.id)) && Flat(t) == FlatAll(t.children)
  {
  }

  lemma FencesHold(p: Pages, root: PageId, id: PageId, parent: Option<PageId>, visited: set<PageId>, t: Tree, h: nat,
                   ts: seq<Tree>, infos: seq<Info>)
    requires id in p && p[id].InternalNode?
    requires AllStand(p, p[id].children, Some(id), visited + {id}, ts) && AllDescribe(infos, ts)
    ensures Stands(p, root, id, parent, visited, t, h) ==> Fenced(p[id].keys, infos)
  {
    hide Rep, Flat, FlatAll, SortedEntries;
    if Stands(p, root, id, parent, visited, t, h) {
      ChildrenStand(p, root, id, parent, visited, t, h);
      StandingBranch(p, t, parent);
      AllUnique(p, ts, t.children, Some(id));
      FencesFollow(ts, infos, h - 1);
    }
  }

  lemma FencesFollow(ts: seq<Tree>, infos: seq<Info>, h: nat)
    requires ts != [] && AllDescribe(infos, ts) && SortedEntries(FlatAll(ts)) && forall c :: c in ts ==> Level(c, h)
    ensures Fenced(Separators(ts), infos)
  {
    hide Flat, FlatAll, SortedEntries, Level, Fence, Min;
    var keys := Separators(ts);
    forall j | 0 <= j < |ts| ensures infos[j].depth == h && Flat(ts[j]) != [] {
      assert ts[j] in ts;
      assert Describes(infos[j], ts[j]);
      LevelUnique(ts[j], h, infos[j].depth);
      LevelNonEmpty(ts[j], h);
    }
    forall j | 0 < j < |infos| ensures Fence(keys, infos, j) {
      FenceFollows(ts, infos, j);
    }
    forall i | 0 < i < |keys| ensures Less(keys[i - 1], keys[i]) {
      FencesAscend(ts, i);
    }
  }

  lemma FenceFollows(ts: seq<Tree>, infos: seq<Info>, j: nat)
    requires AllDescribe(infos, ts) && SortedEntries(FlatAll(ts)) && 0 < j < |ts|
    requires Flat(ts[j - 1]) != [] && Flat(ts[j]) != []
    ensures Fence(Separators(ts), infos, j)
  {
    hide Flat, FlatAll, SortedEntries, Separators, Level;
    assert Describes(infos[j], ts[j]) && Describes(infos[j - 1], ts[j - 1]);
    SortedIsOrdered(ts, j);
    SeparatorAt(ts, j - 1);
  }

  lemma FencesAscend(ts: seq<Tree>, i: nat)
    requires SortedEntries(FlatAll(ts)) && 0 < i && i + 1 < |ts| && Flat(ts[i]) != [] && Flat(ts[i + 1]) != []
    ensures |Separators(ts)| == |ts| - 1 && Less(Separators(ts)[i - 1], Separators(ts)[i])
  {
    hide Flat, FlatAll, SortedEntries, Separators, Less;
    SortedIsOrdered(ts, i + 1);
    FirstBeforeLast(Flat(ts[i]));
    SeparatorAt(ts, i - 1);
    SeparatorAt(ts, i);
  }

  /** A sorted list's head is below anything its last entry is below. */
  lemma FirstBeforeLast(s: seq<Entry>)
    requires SortedEntries(s) && s != []
    ensures forall k :: Less(s[|s| - 1].key, k) ==> Less(s[0].key, k)
  {
    forall k | Less(s[|s| - 1].key, k) ensures Less(s[0].key, k) {
      if |s| > 1 {
        LessTransitive(s[0].key, s[|s| - 1].key, k);
      }
    }
  }

  lemma FencesBuild(p: Pages, root: PageId, id: PageId, parent: Option<PageId>, visited: set<PageId>, ts: seq<Tree>,
                    infos: seq<Info>)
    requires id in p && p[id].InternalNode? && p[id].parent == parent && id !in visited
    requires AllStand(p, p[id].children, Some(id), visited + {id}, ts) && AllDescribe(infos, ts)
             && Fenced(p[id].keys, infos)
    ensures ts != [] && |infos| == |ts| && Stands(p, root, id, parent, visited, Branch(id, ts), infos[0].depth + 1)
  {
    hide Flat, FlatAll, SortedEntries, Fenced, Separators;
    var t := Branch(id, ts);
    FencedLevel(id, ts, infos, p[id].keys);
    FencedKeys(ts, infos, p[id].keys);
    assert |p[id].children| == |Roots(ts)| == |ts|;
    FencedOrder(ts, infos, p[id].keys);
    BranchFlat(id, ts);
    assert id !in IdsAll(ts) by { assert id in visited + {id}; }
    OneMoreId(IdsAll(ts), id);
    assert Ids(t) == multiset{id} + IdsAll(ts);
    forall i | i in visited ensures i !in Ids(t) {
      assert i in visited + {id};
    }
    assert Rep(p, t, parent);
    assert LevelAt(root, t, infos[0].depth + 1);
  }

  lemma FencedLevel(id: PageId, ts: seq<Tree>, infos: seq<Info>, keys: seq<Bytes>)
    requires AllDescribe(infos, ts) && Fenced(keys, infos)
    ensures ts != [] && Level(Branch(id, ts), infos[0].depth + 1)
    ensures forall c {:trigger c in ts} :: c in ts ==> Level(c, infos[0].depth) && Flat(c) != []
  {
    forall c | c in ts ensures Level(c, infos[0].depth) && Flat(c) != [] {
      var i :| 0 <= i < |ts| && ts[i] == c;
      assert Level(ts[i], infos[i].depth);
      LevelNonEmpty(c, infos[0].depth);
    }
  }

  lemma FencedKeys(ts: seq<Tree>, infos: seq<Info>, keys: seq<Bytes>)
    requires AllDescribe(infos, ts) && Fenced(keys, infos)
    ensures keys == Separators(ts)
  {
    forall i | 0 <= i < |ts| - 1 ensures keys[i] == Separators(ts)[i] {
      assert Fence(keys, infos, i + 1) && Describes(infos[i + 1], ts[i + 1]);
      assert Separators(ts)[i] == Min(ts[i + 1]);
    }
  }

  lemma FencedOrder(ts: seq<Tree>, infos: seq<Info>, keys: seq<Bytes>)
    requires AllDescribe(infos, ts) && Fenced(keys, infos)
    requires forall c {:trigger c in ts} :: c in ts ==> SortedEntries(Flat(c))
    ensures SortedEntries(FlatAll(ts))
  {
    hide SortedEntries, FlatAll, Level;
    FencedLevel(0, ts, infos, keys);
    forall i: nat ensures Follows(ts, i) {
      if 0 < i < |ts| {
        assert ts[i - 1] in ts && ts[i] in ts;
        assert Fence(keys, infos, i) && Describes(infos[i], ts[i]) && Describes(infos[i - 1], ts[i - 1]);
      }
    }
    OrderedIsSorted(ts);
  }

  lemma BranchFlat(id: PageId, ts: seq<Tree>)
    ensures Flat(Branch(id, ts)) == FlatAll(ts) && Leaves(Branch(id, ts)) == LeavesAll(ts)
  {
  }

  lemma OneMoreId(ids: multiset<PageId>, id: PageId)
    requires Distinct(ids) && id !in ids
    ensures Distinct(multiset{id} + ids)
  {
    forall i ensures (multiset{id} + ids)[i] <= 1 {
      assert ids[i] <= 1;
    }
  }

  lemma SeenBranch(visited: set<PageId>, id: PageId, ts: seq<Tree>)
    ensures visited + {id} + IdSet(IdsAll(ts)) == visited + IdSet(Ids(Branch(id, ts)))
    ensures Leaves(Branch(id, ts)) == LeavesAll(ts)
  {
    assert Ids(Branch(id, ts)) == multiset{id} + IdsAll(ts);
  }

  lemma {:induction false} SumDescribed(ts: seq<Tree>, infos: seq<Info>)
    requires AllDescribe(infos, ts)
    ensures SumEntries(infos) == |FlatAll(ts)|
    decreases |ts|
  {
    if ts != [] {
      assert Describes(infos[0], ts[0]);
      forall i | 0 <= i < |ts[1..]| ensures Describes(infos[1..][i], ts[1..][i])
        && Level(ts[1..][i], infos[1..][i].depth) {
        assert ts[1..][i] == ts[i + 1];
      }
      SumDescribed(ts[1..], infos[1..]);
    }
  }

  lemma BranchDescribed(id: PageId, ts: seq<Tree>, infos: seq<Info>)
    requires ts != [] && AllDescribe(infos, ts)
    ensures Describes(Info(infos[0].min, infos[|infos| - 1].max, infos[0].depth + 1, SumEntries(infos)), Branch(id, ts))
  {
    hide Flat, FlatAll, SumEntries, Level;
    SumDescribed(ts, infos);
    var last := |ts| - 1;
    assert Describes(infos[0], ts[0]) && Describes(infos[last], ts[last]) && Level(ts[0], infos[0].depth)
           && Level(ts[last], infos[last].depth);
    LevelNonEmpty(ts[0], infos[0].depth);
    LevelNonEmpty(ts[last], infos[last].depth);
    BranchEnds(id, ts);
  }

  /** A branch starts with its first child's entries and ends with its last child's. */
  lemma BranchEnds(id: PageId, ts: seq<Tree>)
    requires ts != [] && Flat(ts[0]) != [] && Flat(ts[|ts| - 1]) != []
    ensures Flat(Branch(id, ts)) == FlatAll(ts) && FlatAll(ts) != [] && FlatAll(ts)[0] == Flat(ts[0])[0]
    ensures var f, l := FlatAll(ts), Flat(ts[|ts| - 1]); f[|f| - 1] == l[|l| - 1]
  {
    var last := |ts| - 1;
    MemberSplit(ts, last);
    assert ts[last + 1..] == [] && FlatAll(ts[last + 1..]) == [];
    assert FlatAll(ts) == Flat(ts[0]) + FlatAll(ts[1..]);
  }

  lemma FirstStands(p: Pages, root: PageId, id: PageId, children: seq<PageId>, visited: set<PageId>, s: seq<Tree>)
    requires children != []
    ensures AllStand(p, children, Some(id), visited, s) ==>
              s != [] && exists h :: Stands(p, root, children[0], Some(id), visited, s[0], h)
  {
    hide Rep, Flat, FlatAll, SortedEntries;
    if AllStand(p, children, Some(id), visited, s) {
      assert |s| == |Roots(s)| && Roots(s)[0] == s[0].id;
      var c := s[0];
      assert c in s && Rep(p, c, Some(id));
      var h :| Level(c, h);
      MemberIds(s, c);
      MemberDistinct(s, c);
      assert Stands(p, root, children[0], Some(id), visited, c, h);
    }
  }

  lemma RestStands(p: Pages, id: PageId, children: seq<PageId>, visited: set<PageId>, mid: set<PageId>, t: Tree,
                   s: seq<Tree>)
    requires children != [] && t.id == children[0] && Rep(p, t, Some(id)) && mid == visited + IdSet(Ids(t))
    ensures AllStand(p, children, Some(id), visited, s) ==> s != [] && AllStand(p, children[1..], Some(id), mid, s[1..])
  {
    hide Flat, FlatAll, SortedEntries;
    if AllStand(p, children, Some(id), visited, s) {
      assert |s| == |Roots(s)| && Roots(s)[0] == s[0].id;
      assert s[0] in s && Rep(p, s[0], Some(id));
      RepUnique(p, s[0], t, Some(id), Some(id));
      var rest := s[1..];
      assert Roots(rest) == children[1..];
      assert IdsAll(s) == Ids(t) + IdsAll(rest);
      DistinctPart(IdsAll(rest), IdsAll(s));
      assert forall c :: c in rest ==> c in s;
      forall i | i in mid ensures i !in IdsAll(rest) {
        assert IdsAll(s)[i] <= 1;
      }
    }
  }

  lemma JoinStands(p: Pages, root: PageId, id: PageId, children: seq<PageId>, visited: set<PageId>, mid: set<PageId>,
                   t: Tree, info: Info, us: seq<Tree>, infos: seq<Info>)
    requires children != [] && root in visited && mid == visited + IdSet(Ids(t))
    requires Stands(p, root, children[0], Some(id), visited, t, info.depth) && Describes(info, t)
    requires AllStand(p, children[1..], Some(id), mid, us) && AllDescribe(infos, us)
    ensures AllStand(p, children, Some(id), visited, [t] + us) && AllDescribe([info] + infos, [t] + us)
    ensures IdsAll([t] + us) == Ids(t) + IdsAll(us) && LeavesAll([t] + us) == Leaves(t) + LeavesAll(us)
    ensures visited + IdSet(IdsAll([t] + us)) == mid + IdSet(IdsAll(us))
  {
    hide Flat, FlatAll, SortedEntries, Rep, Describes;
    var ts := [t] + us;
    assert ts[1..] == us;
    assert Roots(ts) == children;
    assert Level(t, info.depth);
    forall i ensures IdsAll(ts)[i] <= 1 {
      assert Ids(t)[i] <= 1 && IdsAll(us)[i] <= 1;
      assert i in Ids(t) ==> i in mid;
    }
    forall i | i in visited ensures i !in IdsAll(ts) {
      assert i in mid;
    }
    forall i | 0 <= i < |ts| ensures Describes(([info] + infos)[i], ts[i]) && Level(ts[i], ([info] + infos)[i].depth) {
      assert i > 0 ==> ts[i] == us[i - 1];
    }
  }

  /** Arity, separator order, equal depth, exact separators and disjoint ranges. */
  method CheckFences(keys: seq<Bytes>, infos: seq<Info>, ghost ts: seq<Tree>) returns (ok: bool)
    requires AllDescribe(infos, ts)
    ensures ok <==> Fenced(keys, infos)
  {
    if |infos| != |keys| + 1 || infos == [] {
      return false;
    }
    ok := Increasing(keys);
    if !ok {
      return;
    }
    var i := 1;
    while i < |infos|
      invariant 1 <= i <= |infos|
      invariant forall j :: 0 <= j < i ==> infos[j].depth == infos[0].depth
    {
      if infos[i].depth != infos[0].depth {
        return false;
      }
      i := i + 1;
    }
    i := 1;
    while i < |infos|
      invariant 1 <= i <= |infos|
      invariant forall j {:trigger Fence(keys, infos, j)} :: 0 < j < i ==> Fence(keys, infos, j)
    {
      if infos[i].min.None? || keys[i - 1] != infos[i].min.value
         || (infos[i - 1].max.Some? && !Less(infos[i - 1].max.value, infos[i].min.value)) {
        assert !Fence(keys, infos, i);
        return false;
      }
      i := i + 1;
    }
  }

  predicate Fence(keys: seq<Bytes>, infos: seq<Info>, i: nat) {
    && 0 < i < |infos| && i <= |keys|
    && infos[i].min == Some(keys[i - 1])
    && (infos[i - 1].max.Some? ==> Less(infos[i - 1].max.value, keys[i - 1]))
  }

  predicate Fenced(keys: seq<Bytes>, infos: seq<Info>) {
    && |infos| == |keys| + 1
    && (forall i :: 0 < i < |keys| ==> Less(keys[i - 1], keys[i]))
    && (forall j :: 0 <= j < |infos| ==> infos[j].depth == infos[0].depth)
    && (forall j {:trigger Fence(keys, infos, j)} :: 0 < j < |infos| ==> Fence(keys, infos, j))
  }

  // ---------------------------------------------------------------- whole trees

  /** The pages reachable from the root are the well-formed tree `t` of height `h`. */
  ghost predicate Formed(p: Pages, root: PageId, t: Tree, h: nat) {
    Stands(p, root, root, None, {}, t, h) && Chain(p, Leaves(t))
  }

  lemma FormedUnique(p: Pages, root: PageId, t: Tree, h: nat, s: Tree, g: nat)
    requires Stands(p, root, root, None, {}, t, h) && Stands(p, root, root, None, {}, s, g)
    ensures s == t && g == h
  {
    RepUnique(p, t, s, None, None);
    if Level(t, h) && Level(t, g) {
      LevelUnique(t, h, g);
    }
  }

  /** Each leaf's links name its neighbours in tree order. */
  method CheckChain(p: Pages, leaves: seq<PageId>) returns (ok: bool)
    ensures ok <==> Chain(p, leaves)
  {
    var i := 0;
    while i < |leaves|
      invariant 0 <= i <= |leaves|
      invariant forall j {:trigger Linked(p, leaves, j)} :: 0 <= j < i ==> Linked(p, leaves, j)
    {
      if !Linked(p, leaves, i) {
        return false;
      }
      i := i + 1;
    }
    forall j: nat ensures Linked(p, leaves, j) {
      if j >= i {
        assert j >= |leaves|;
      }
    }
    return true;
  }

  /** The checker accepts exactly the well-formed trees, and counts them right. */
  method Validate(p: Pages, root: PageId) returns (r: Option<Report>)
    ensures r.Some? <==> exists t, h: nat :: Formed(p, root, t, h)
    ensures forall t, h: nat :: Formed(p, root, t, h) ==>
                                  r == Some(Report(|IdSet(Ids(t))|, |Leaves(t)|, h + 1, |Flat(t)|))
  {
    hide Stands, Flat, Leaves, Ids, Chain;
    var info, seen, leaves, t := ValidateSubtree(p, root, root, None, {}, []);
    if info.None? {
      return None;
    }
    assert leaves == Leaves(t) && seen == IdSet(Ids(t));
    var ok := CheckChain(p, leaves);
    forall s, h: nat ensures Formed(p, root, s, h) ==> s == t && h == info.value.depth {
      if Formed(p, root, s, h) {
        FormedUnique(p, root, t, info.value.depth, s, h);
      }
    }
    if !ok {
      return None;
    }
    assert Formed(p, root, t, info.value.depth);
    r := Some(Report(|seen|, |leaves|, info.value.depth + 1, info.value.entries));
    CountsHold(info.value, t);
  }

  lemma CountsHold(info: Info, t: Tree)
    requires Describes(info, t)
    ensures info.entries == |Flat(t)|
  {
  }

  lemma {:induction false} ShapedIsLevel(width: nat, t: Tree, h: nat)
    requires Shaped(width, t, h)
    ensures Level(t, h)
    decreases h
  {
    if t.Branch? {
      forall c | c in t.children ensures Level(c, h - 1) {
        ShapedIsLevel(width, c, h - 1);
      }
    }
  }
}
