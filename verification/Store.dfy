/** The store as a tree of nodes linked to their parents, updated in place, with the heap of
    expiring nodes, the event history and the watchers. A ghost map from path to node ties it to the flat
    store. */
module Stores {
  import opened Collections
  import opened HeapOrder
  import opened StoreNodes
  import opened StoreModel
  import opened EventHistories
  import opened WatcherHubs

  function ItemOf(n: Node): Item
    reads n`value, n`modified, n`expire
  {
    Item(n.isDir, n.value, n.created, n.modified, n.expire)
  }

  function Up(p: Path): Path
    requires p != []
  {
    p[..|p| - 1]
  }

  function Name(p: Path): string
    requires p != []
  {
    p[|p| - 1]
  }

  class Store {
    const root: Node
    const heap: TtlKeyHeap
    const hub: WatcherHub
    var currentIndex: int
    ghost var tree: map<Path, Node>     // the node at each path
    ghost var items: map<Path, Item>    // what it holds
    ghost var repr: set<Node>           // every node ever made
    ghost var popped: Node?             // taken from the heap, but still in the tree

    // The node of path p stands where it belongs.
    ghost predicate Placed(p: Path)
      reads this`tree, this`repr, repr`children
    {
      && p in tree && tree[p] in repr && tree[p].path == p && (tree[p].isDir || tree[p].children == map[])
      && if p == [] then tree[p] == root
         else
           && Up(p) in tree && tree[Up(p)] in repr && tree[Up(p)].isDir && tree[p].parent == tree[Up(p)]
           && Name(p) in tree[Up(p)].children && tree[Up(p)].children[Name(p)] == tree[p]
    }

    // The child of that name belongs to the tree.
    ghost predicate Owned(p: Path, name: string)
      reads this`tree, this`repr, repr`children
    {
      && p in tree && tree[p] in repr && tree[p].isDir && name in tree[p].children
      && p + [name] in tree && tree[p + [name]] == tree[p].children[name]
    }

    ghost predicate TreeOk()
      reads this`tree, this`repr, repr`children
    {
      && [] in tree && tree[[]].isDir && (forall p :: p in tree ==> tree[p] in repr)
      && (forall p {:trigger Placed(p)} :: p in tree ==> Placed(p))
      && (forall p, name {:trigger Owned(p, name)} :: p in tree && name in tree[p].children ==> Owned(p, name))
    }

    ghost predicate Shown(p: Path)
      reads this`tree, this`items, this`repr, repr`value, repr`modified, repr`expire
    {
      p in tree && tree[p] in repr && p in items && items[p] == ItemOf(tree[p])
    }

    ghost predicate ItemsOk()
      reads this`tree, this`items, this`repr, repr`value, repr`modified, repr`expire
    {
      items.Keys == tree.Keys && forall p {:trigger Shown(p)} :: p in tree ==> Shown(p)
    }

    // Every node in the heap is a node of the tree that expires ...
    ghost predicate Expiring(n: Node)
      reads this`tree, n`expire
    {
      n.path in tree && tree[n.path] == n && n.expire != PERMANENT
    }

    // ... and every node of the tree that expires is in the heap.
    ghost predicate Queued(p: Path)
      reads this`tree, this`repr, this`popped, heap, repr`expire
    {
      p in tree && tree[p] in repr && (tree[p].expire != PERMANENT && tree[p] != popped ==> tree[p] in heap.keyMap)
    }

    ghost predicate HeapOk()
      reads this`tree, this`repr, this`popped, heap, heap.nodes, heap.keyMap.Keys`expire, repr`expire
    {
      && heap.Valid() && [] in tree && tree[[]] in repr && tree[[]].expire == PERMANENT
      && (forall n {:trigger Expiring(n)} :: n in heap.keyMap ==> Expiring(n))
      && (forall p {:trigger Queued(p)} :: p in tree ==> Queued(p))
    }

    // The index is that of the last event.
    ghost predicate IndexOk()
      reads this`currentIndex, hub.history
    {
      currentIndex >= 0 && if hub.history.all == [] then currentIndex == 0 else currentIndex == hub.history.lastIndex
    }

    ghost predicate HubOk()
      reads this`currentIndex, hub, hub.history, hub.history.ring, hub.live`received
    {
      hub.Valid() && IndexOk()
    }

    // Everything but the index, the history and the watchers.
    ghost predicate NodesOk()
      reads this`tree, this`items, this`repr, this`popped, heap, heap.nodes, heap.keyMap.Keys`expire, repr
    {
      TreeOk() && ItemsOk() && HeapOk()
    }

    ghost predicate Valid()
      reads this, heap, heap.nodes, heap.keyMap.Keys, repr, hub, hub.history, hub.history.ring, hub.live`received
    {
      NodesOk() && HubOk() && popped == null
    }

    ghost function View(): Flat
      reads this, hub, hub.history
    {
      Flat(items, currentIndex, hub.history.all, hub.gone)
    }

    constructor (capacity: nat)
      requires capacity > 0
      ensures Valid() && View() == EMPTY_FLAT
    {
      root := new Node([], true, "", 0, null, PERMANENT);
      heap := new TtlKeyHeap();
      hub := new WatcherHub(capacity, Event(CreateAction, [], 0, 0, Nothing));
      currentIndex := 0;
      tree := map[[] := root];
      items := map[[] := Item(true, "", 0, 0, PERMANENT)];
      repr, popped := {root}, null;
    }

    // Nodes are told apart by their paths.
    lemma Distinct(p: Path, q: Path)
      requires TreeOk() && p in tree && q in tree && p != q
      ensures tree[p] != tree[q]
    {
      assert Placed(p) && Placed(q);
    }

    // A node of the tree is listed by its directory.
    lemma Listed(p: Path, name: string)
      requires TreeOk() && p in tree && p + [name] in tree
      ensures name in tree[p].children
    {
      NameOfChild(p, name);
      assert Placed(p + [name]);
    }

    // ... and what a directory lists is a node of the tree.
    lemma InTreeToo(p: Path, name: string)
      requires TreeOk() && p in tree && name in tree[p].children
      ensures p + [name] in tree
    {
      assert Owned(p, name);
    }

    // Above a node there are only directories of the tree.
    lemma {:induction false} Above(p: Path, k: nat)
      requires TreeOk() && p in tree && k < |p|
      ensures p[..k] in tree && tree[p[..k]].isDir
      decreases |p|
    {
      assert Placed(p);
      if k < |p| - 1 {
        assert Up(p)[..k] == p[..k];
        Above(Up(p), k);
      }
    }

    lemma ItemsClosed()
      requires TreeOk() && ItemsOk() && tree[[]].expire == PERMANENT
      ensures PrefixClosed(items)
    {
      assert Placed([]) && Shown([]);
      forall p | p in items ensures Hangs(items, p) {
        assert Placed(p);
        if p != [] {
          assert Shown(Up(p));
        }
      }
    }

    /** internalGet: the node at p, or the error the flat lookup gives. */
    method InternalGet(p: Path) returns (n: Node?, code: ErrorCode)
      requires TreeOk() && ItemsOk()
      ensures n != null ==> p in tree && n == tree[p]
      ensures n == null ==> StoreModel.Get(items, p) == Missing(code)
    {
      var curr := root;
      assert Placed([]);
      for i := 0 to |p|
        invariant p[..i] in tree && curr == tree[p[..i]]
      {
        assert p[..i + 1] == p[..i] + [p[i]];
        if !curr.isDir {
          FileOnTheWay(p, i);
          return null, NotDir;
        }
        if p[i] !in curr.children {
          NothingThere(p, i);
          return null, KeyNotFound;
        }
        assert Owned(p[..i], p[i]);
        curr := curr.children[p[i]];
      }
      assert p[..|p|] == p;
      return curr, KeyNotFound;
    }

    lemma FileOnTheWay(p: Path, i: nat)
      requires TreeOk() && ItemsOk() && i < |p| && p[..i] in tree && !tree[p[..i]].isDir
      ensures FileAbove(items, p) && p !in items
    {
      FileAboveMeans(items, p);
      assert Shown(p[..i]);
      if p in tree {
        Above(p, i);
      }
    }

    lemma NothingThere(p: Path, i: nat)
      requires TreeOk() && ItemsOk() && i < |p| && p[..i] in tree && tree[p[..i]].isDir
      requires p[i] !in tree[p[..i]].children
      ensures p !in items && !FileAbove(items, p)
    {
      FileAboveMeans(items, p);
      forall k | i < k <= |p| ensures p[..k] !in tree {
        Unreached(p, i, k);
      }
      assert p[..|p|] == p;
      forall k | 0 <= k <= i ensures p[..k] in items && items[p[..k]].isDir {
        if k < i {
          assert p[..i][..k] == p[..k];
          Above(p[..i], k);
        }
        assert Shown(p[..k]);
      }
    }

    lemma {:induction false} Unreached(p: Path, i: nat, k: nat)
      requires TreeOk() && i < k <= |p| && p[..i] in tree && p[i] !in tree[p[..i]].children
      ensures p[..k] !in tree
      decreases k
    {
      if p[..k] in tree {
        assert Placed(p[..k]);
        assert Up(p[..k]) == p[..k - 1] && Name(p[..k]) == p[k - 1];
        if k > i + 1 {
          Unreached(p, i, k - 1);
        }
      }
    }

    // ---- Linking and unlinking ----

    ghost predicate InTree(n: Node)
      reads this`tree
    {
      n.path in tree && tree[n.path] == n
    }

    // Hangs a new, childless node into a directory.
    method Hang(d: Node, n: Node)
      requires TreeOk() && InTree(d) && d.isDir
      requires n.path != [] && Up(n.path) == d.path && n.parent == d && n.children == map[]
      requires n.path !in tree && n !in repr && Name(n.path) !in d.children
      modifies this`tree, this`repr, d`children
      ensures TreeOk() && tree == old(tree)[n.path := n] && repr == old(repr) + {n}
    {
      d.children := d.children[Name(n.path) := n];
      tree := tree[n.path := n];
      repr := repr + {n};
      assert n.path == Up(n.path) + [Name(n.path)];
      forall p | p in tree ensures Placed(p) {
        assert p != n.path ==> old(Placed(p));
      }
      forall p, name | p in tree && name in tree[p].children ensures Owned(p, name) {
        if p == d.path && name == Name(n.path) {
        } else if p != n.path {
          assert old(Owned(p, name));
        }
      }
    }

    method Link(d: Node, n: Node)
      requires TreeOk() && ItemsOk() && InTree(d) && d.isDir
      requires n.path != [] && Up(n.path) == d.path && n.parent == d && n.children == map[]
      requires n.path !in tree && n !in repr && Name(n.path) !in d.children
      modifies this`tree, this`items, this`repr, d`children
      ensures TreeOk() && ItemsOk() && tree == old(tree)[n.path := n] && items == old(items)[n.path := ItemOf(n)]
      ensures repr == old(repr) + {n}
    {
      Hang(d, n);
      items := items[n.path := ItemOf(n)];
      forall p | p in tree ensures Shown(p) {
        assert p != n.path ==> old(Shown(p));
      }
    }

    // Takes a childless node out of its directory.
    method Unlink(d: Node, n: Node)
      requires TreeOk() && ItemsOk() && InTree(n) && n.path != [] && n.children == map[] && n.parent == d
      modifies this`tree, this`items, d`children
      ensures TreeOk() && ItemsOk() && tree == old(tree) - {n.path} && items == old(items) - {n.path}
      ensures d.children == old(d.children) - {Name(n.path)}
    {
      assert Placed(n.path);
      d.children := d.children - {Name(n.path)};
      tree := tree - {n.path};
      items := items - {n.path};
      assert n.path == Up(n.path) + [Name(n.path)];
      forall p | p in tree ensures Placed(p) && Shown(p) {
        assert old(Placed(p)) && old(Shown(p));
        if p != [] {
          assert p == Up(p) + [Name(p)];
        }
      }
      forall p, name | p in tree && name in tree[p].children ensures Owned(p, name) {
        assert old(Owned(p, name));
        NameOfChild(p, name);
      }
    }

    // The heap stays right when only permanent nodes come, and none of its nodes goes.
    twostate lemma HeapKept()
      requires old(HeapOk()) && heap.nodes == old(heap.nodes) && heap.keyMap == old(heap.keyMap) &&
               popped == old(popped)
      requires Sub(old(tree), tree) && forall p :: p in tree ==> tree[p] in repr
      requires forall p :: p in tree && p !in old(tree) ==> tree[p].expire == PERMANENT
      requires forall p :: p in old(tree) ==> old(tree[p]).expire == old(tree[p].expire)
      ensures HeapOk()
    {
      forall i | 0 <= i < |heap.nodes| ensures heap.At(i) && heap.nodes[i].expire == old(heap.nodes[i].expire) {
        assert old(heap.At(i));
        assert old(Expiring(heap.nodes[i]));
      }
      forall n | n in heap.keyMap ensures heap.Held(n) && Expiring(n) {
        assert old(heap.Held(n));
        assert old(Expiring(n));
      }
      assert heap.Keys() == old(heap.Keys());
      forall p | p in tree ensures Queued(p) {
        assert p in old(tree) ==> old(Queued(p));
      }
    }

    // ---- Creating ----

    /** checkDir: the directory of that name under parent, made if there is none; null when
        the name is a file's. */
    method CheckDir(parent: Node, name: string) returns (n: Node?)
      requires TreeOk() && ItemsOk() && InTree(parent) && parent.isDir
      modifies this`tree, this`items, this`repr, parent`children
      ensures TreeOk() && ItemsOk() && fresh(repr - old(repr)) && old(repr) <= repr
      ensures name in old(parent.children) ==>
                && tree == old(tree) && items == old(items)
                && n == (if old(parent.children[name]).isDir then old(parent.children[name]) else null)
      ensures name !in old(parent.children) ==>
                && n != null && fresh(n) && parent.path + [name] !in old(tree)
                && tree == old(tree)[parent.path + [name] := n] && n.children == map[] && n.isDir &&
                   n.expire == PERMANENT
                && items == old(items)[parent.path + [name] := NewDir(currentIndex + 1)]
      ensures n != null ==> n.path == parent.path + [name] && InTree(n) && n.isDir
    {
      if name in parent.children {
        n := parent.children[name];
        assert Owned(parent.path, name);
        assert Placed(parent.path + [name]);
        if !n.isDir {
          n := null;
        }
      } else {
        NameOfChild(parent.path, name);
        if parent.path + [name] in tree {
          Listed(parent.path, name);
        }
        var child := new Node(parent.path + [name], true, "", currentIndex + 1, parent, PERMANENT);
        Link(parent, child);
        n := child;
      }
    }

    // The tree has only grown by permanent nodes, and has a directory at p[..i].
    ghost predicate DirsMade(p: Path, i: nat, before: map<Path, Node>)
      reads this`tree, this`repr, repr`expire
    {
      && i <= |p| && Sub(before, tree) && p[..i] in tree && tree[p[..i]].isDir
      && forall q :: q in tree && q !in before ==> tree[q] in repr && tree[q].expire == PERMANENT
    }

    // What the items should be after i components, none of which is a file.
    ghost predicate Planned(start: map<Path, Item>, p: Path, i: nat, expected: map<Path, Item>)
      reads this`currentIndex
    {
      && i <= |p| && expected == DirsUpTo(start, p, i, currentIndex + 1)
      && forall k :: 0 <= k <= i && p[..k] in start ==> start[p[..k]].isDir
    }

    lemma PlanStep(start: map<Path, Item>, p: Path, i: nat, expected: map<Path, Item>) returns (next: map<Path, Item>)
      requires i < |p| && Planned(start, p, i, expected) && [] in start
      ensures next == if p[..i + 1] in start then expected else expected[p[..i + 1] := NewDir(currentIndex + 1)]
      ensures (p[..i + 1] in start ==> start[p[..i + 1]].isDir) ==> Planned(start, p, i + 1, next)
    {
      next := DirsUpTo(start, p, i + 1, currentIndex + 1);
      DirsAdded(start, p, i, currentIndex + 1);
    }

    /** walk with checkDir: makes the directories above p, or finds a file there and has then
        made nothing. */
    method MakeDirs(p: Path) returns (d: Node?)
      requires TreeOk() && ItemsOk() && p != []
      modifies this`tree, this`items, this`repr, repr`children
      ensures TreeOk() && ItemsOk() && fresh(repr - old(repr)) && old(repr) <= repr && Sub(old(tree), tree)
      ensures d == null <==> FileAbove(old(items), p)
      ensures d == null ==> tree == old(tree) && items == old(items)
      ensures d != null ==> DirsMade(p, |p| - 1, old(tree)) && d == tree[p[..|p| - 1]]
      ensures d != null ==> items == WithDirs(old(items), p, currentIndex + 1)
    {
      var curr := root;
      assert Placed([]) && Shown([]);
      FileAboveMeans(items, p);
      ghost var expected := items;
      for i := 0 to |p| - 1
        invariant TreeOk() && ItemsOk() && fresh(repr - old(repr)) && old(repr) <= repr
        invariant DirsMade(p, i, old(tree)) && curr == tree[p[..i]]
        invariant items == expected && Planned(old(items), p, i, expected) &&
                  (tree == old(tree) ==> items == old(items))
        invariant tree == old(tree) || curr.children == map[]
      {
        ghost var next := PlanStep(old(items), p, i, expected);
        var n := MakeNext(p, i, curr, old(tree), old(items), next);
        if n == null {
          return null;
        }
        expected := next;
        curr := n;
      }
      d := curr;
    }

    // One more directory: found, made, or blocked by a file. A directory just made is empty,
    // so nothing was made before a file is found.
    method MakeNext(p: Path, i: nat, curr: Node, ghost before: map<Path, Node>, ghost start: map<Path, Item>,
                    ghost next: map<Path, Item>) returns (n: Node?)
      requires TreeOk() && ItemsOk() && i < |p| - 1 && DirsMade(p, i, before) && curr == tree[p[..i]]
      requires start.Keys == before.Keys && (tree == before ==> items == start)
      requires next == if p[..i + 1] in start then items else items[p[..i + 1] := NewDir(currentIndex + 1)]
      requires tree == before || curr.children == map[]
      modifies this`tree, this`items, this`repr, curr`children
      ensures TreeOk() && ItemsOk() && fresh(repr - old(repr)) && old(repr) <= repr
      ensures n == null ==> tree == old(tree) == before && items == old(items)
      ensures n == null ==> p[..i + 1] in start && !start[p[..i + 1]].isDir
      ensures n != null ==> DirsMade(p, i + 1, before) && n == tree[p[..i + 1]] && items == next
      ensures n != null ==> tree == before || n.children == map[]
      ensures n != null && p[..i + 1] in start ==> start[p[..i + 1]].isDir
    {
      assert p[..i + 1] == p[..i] + [p[i]];
      assert Placed(p[..i]);
      if p[i] in curr.children {
        assert Owned(p[..i], p[i]);
        assert Shown(p[..i + 1]);
      }
      n := CheckDir(curr, p[i]);
    }

    // ---- Removing ----

    // Takes a childless node out of its directory and out of the heap.
    method DropNode(n: Node)
      requires TreeOk() && ItemsOk() && HeapOk() && InTree(n) && n.path != [] && n.children == map[]
      modifies this`tree, this`items, heap, repr`children
      ensures TreeOk() && ItemsOk() && HeapOk() && tree == old(tree) - {n.path} && items == old(items) - {n.path}
      ensures heap.keyMap.Keys <= old(heap.keyMap.Keys)
    {
      assert Placed(n.path);
      Unlink(n.parent, n);
      assert heap.Keys() == old(heap.Keys());
      if n in heap.keyMap {
        assert old(Expiring(n));
        OrderedAnywhere(heap.Keys(), |heap.nodes|, heap.keyMap[n]);
      }
      if !n.IsPermanent() {
        heap.Remove(n);
      }
      Forgotten(n);
    }

    // The heap without n fits the tree without n.
    twostate lemma Forgotten(n: Node)
      requires old(TreeOk()) && old(HeapOk()) && old(InTree(n)) && n.path != [] && tree == old(tree) - {n.path}
      requires heap.Valid() && heap.keyMap.Keys == old(heap.keyMap).Keys - {n} && repr == old(repr) &&
               popped == old(popped)
      requires forall p :: p in old(tree) ==> old(tree[p]).expire == old(tree[p].expire)
      ensures HeapOk()
    {
      forall m | m in heap.keyMap ensures Expiring(m) {
        assert old(Expiring(m));
      }
      forall p | p in tree ensures Queued(p) {
        assert old(Queued(p));
        assert old(Placed(p));
      }
    }

    ghost function Below(p: Path): set<Path>
      reads this`tree
    {
      set q | q in tree && p <= q
    }

    // Without children, nothing of the tree lies below a node.
    lemma NothingBelow(p: Path, q: Path)
      requires TreeOk() && p in tree && tree[p].children == map[] && q in tree
      ensures !(p < q)
    {
      if p < q {
        var k := |p|;
        assert q[..k] == p;
        assert q[..k + 1] == p + [q[k]];
        if k + 1 < |q| {
          Above(q, k + 1);
        } else {
          assert q[..k + 1] == q;
        }
        Listed(p, q[k]);
      }
    }

    // The tree when some of what lies below p is gone.
    ghost predicate Thinned(before: map<Path, Node>, p: Path)
      reads this`tree
    {
      Sub(tree, before) && forall q :: q in before && !(p < q) ==> q in tree
    }

    /** Remove, recursively: takes out a node and everything below it, each node also out of
        the heap if it expires, and tells the watchers of each path. */
    method RemoveSubtree(n: Node, e: Event)
      requires TreeOk() && ItemsOk() && HeapOk() && InTree(n) && n.path != [] && hub.Telling(e) && e.key <= n.path
      modifies this`tree, this`items, heap, repr`children, hub`watchers, hub`told, hub.live`received
      ensures TreeOk() && ItemsOk() && HeapOk() && tree == Pruned(old(tree), n.path)
      ensures heap.keyMap.Keys <= old(heap.keyMap.Keys)
      ensures hub.Telling(e) && hub.told == old(hub.told) + (old(tree).Keys - tree.Keys)
      decreases Below(n.path), 2
    {
      RemoveChildren(n, e);
      forall q | q in tree ensures !(n.path < q) {
        NothingBelow(n.path, q);
      }
      ghost var left := tree;
      DropAndTell(n, e);
      AllPruned(old(tree), left, n.path);
      TakenFurther(old(hub.told), old(tree).Keys, left.Keys, tree.Keys);
    }

    method RemoveChildren(n: Node, e: Event)
      requires TreeOk() && ItemsOk() && HeapOk() && InTree(n) && n.path != [] && hub.Telling(e) && e.key <= n.path
      modifies this`tree, this`items, heap, repr`children, hub`watchers, hub`told, hub.live`received
      ensures TreeOk() && ItemsOk() && HeapOk() && InTree(n) && Thinned(old(tree), n.path) && n.children == map[]
      ensures heap.keyMap.Keys <= old(heap.keyMap.Keys)
      ensures hub.Telling(e) && hub.told == old(hub.told) + (old(tree).Keys - tree.Keys)
      decreases Below(n.path), 1
    {
      ghost var before := tree;
      while n.children != map[]
        invariant TreeOk() && ItemsOk() && HeapOk() && InTree(n) && Thinned(before, n.path)
        invariant heap.keyMap.Keys <= old(heap.keyMap.Keys)
        invariant hub.Telling(e) && hub.told == old(hub.told) + (before.Keys - tree.Keys)
        decreases tree.Keys
      {
        RemoveChild(n, e, before, old(hub.told));
      }
    }

    method RemoveChild(n: Node, e: Event, ghost before: map<Path, Node>, ghost told: set<Path>)
      requires TreeOk() && ItemsOk() && HeapOk() && InTree(n) && n.path != [] && hub.Telling(e) && e.key <= n.path
      requires n.children != map[] && Thinned(before, n.path) && hub.told == told + (before.Keys - tree.Keys)
      modifies this`tree, this`items, heap, repr`children, hub`watchers, hub`told, hub.live`received
      ensures TreeOk() && ItemsOk() && HeapOk() && InTree(n) && Thinned(before, n.path) && tree.Keys < old(tree.Keys)
      ensures heap.keyMap.Keys <= old(heap.keyMap.Keys)
      ensures hub.Telling(e) && hub.told == told + (before.Keys - tree.Keys)
      decreases Below(n.path), 0
    {
      var name := TakeAny(n.children.Keys);
      assert Owned(n.path, name);
      assert Placed(n.path + [name]);
      FewerBelow(tree, tree, n.path, name);
      RemoveSubtree(n.children[name], e);
      StillThinned(before, old(tree), tree, n.path, name);
      TakenFurther(told, before.Keys, old(tree).Keys, tree.Keys);
    }

    // A childless node goes, and the watchers of its path are told.
    method DropAndTell(n: Node, e: Event)
      requires TreeOk() && ItemsOk() && HeapOk() && InTree(n) && n.path != [] && n.children == map[]
      requires hub.Telling(e) && e.key <= n.path
      modifies this`tree, this`items, heap, repr`children, hub`watchers, hub`told, hub.live`received
      ensures NodesOk() && tree == old(tree) - {n.path} && heap.keyMap.Keys <= old(heap.keyMap.Keys)
      ensures hub.Telling(e) && hub.told == old(hub.told) + (old(tree).Keys - tree.Keys)
    {
      DropNode(n);
      assert old(tree).Keys - tree.Keys == {n.path};
      TellGone(e, n.path);
    }

    method TellGone(e: Event, p: Path)
      requires NodesOk() && hub.Telling(e) && e.key <= p
      modifies hub`watchers, hub`told, hub.live`received
      ensures NodesOk() && hub.Telling(e) && hub.told == old(hub.told) + {p}
    {
      hub.NotifyGone(e, p);
    }

    // The items of a pruned tree.
    twostate lemma ItemsPruned(p: Path)
      requires old(ItemsOk()) && ItemsOk() && tree == Pruned(old(tree), p)
      requires forall q :: q in old(tree) ==> ItemOf(old(tree[q])) == old(ItemOf(tree[q]))
      ensures items == Without(old(items), p)
    {
      forall q | q in tree ensures items[q] == old(items[q]) {
        assert Shown(q) && old(Shown(q));
      }
    }

    // ---- Expiration ----

    /** UpdateTTL: the key changes first, then the heap is told. */
    method UpdateTTL(n: Node, t: Time)
      requires TreeOk() && ItemsOk() && HeapOk() && InTree(n) && n.path != [] && popped == null
      modifies n`expire, heap, this`items
      ensures ItemsOk() && HeapOk() && items == old(items)[n.path := old(items[n.path]).(expire := t)]
    {
      SetExpire(n, t);
      assert old(Shown(n.path));
      items := items[n.path := items[n.path].(expire := t)];
      forall p | p in tree ensures Shown(p) {
        assert old(Shown(p));
        assert Placed(p);
      }
    }

    method SetExpire(n: Node, t: Time)
      requires TreeOk() && HeapOk() && InTree(n) && n.path != [] && popped == null
      modifies n`expire, heap
      ensures HeapOk() && n.expire == t
    {
      ghost var keys := heap.Keys();
      assert Queued(n.path);
      if n in heap.keyMap {
        assert Expiring(n);
      }
      if !n.IsPermanent() {
        assert heap.Held(n);
        n.expire := t;
        OneKeyChanged(heap, keys, n);
        if t == PERMANENT {
          heap.Remove(n);
        } else {
          heap.Update(n);
        }
      } else if t != PERMANENT {
        forall k | 0 <= k < |heap.nodes| ensures heap.nodes[k] != n {
          assert heap.At(k);
        }
        n.expire := t;
        assert heap.Keys() == keys;
        heap.Push(n);
      }
      Rescheduled(n);
    }

    // The heap holds n if and only if it expires now; nothing else has changed.
    twostate lemma Rescheduled(n: Node)
      requires old(TreeOk()) && old(HeapOk()) && old(InTree(n)) && n.path != [] && popped == old(popped)
      requires tree == old(tree) && repr == old(repr) && heap.Valid()
      requires heap.keyMap.Keys == old(heap.keyMap).Keys - {n} + if n.expire != PERMANENT then {n} else {}
      requires forall p :: p in tree && tree[p] != n ==> tree[p].expire == old(tree[p].expire)
      ensures HeapOk()
    {
      assert old(Placed([])) && old(Placed(n.path));
      forall m | m in heap.keyMap ensures Expiring(m) {
        assert m != n ==> old(Expiring(m));
      }
      forall p | p in tree ensures Queued(p) {
        assert old(Queued(p));
        assert old(Placed(p));
      }
    }

    // ---- The operations ----

    // The index moves on, and the event goes into the history and to the watchers.
    method Record(e: Event)
      requires hub.Telling(e) && IndexOk() && e.index == currentIndex + 1
      modifies this`currentIndex, hub`watchers, hub`gone, hub`told, hub.history, hub.history.ring, hub.live`received
      ensures HubOk() && currentIndex == old(currentIndex) + 1
      ensures hub.history.all == old(hub.history.all) + [e] && hub.gone == old(hub.gone) + [old(hub.told)]
    {
      hub.Notify(e);
      currentIndex := currentIndex + 1;
    }

    // The same once a removal is done.
    method RecordRemoval(e: Event, p: Path, ghost f: Flat)
      requires NodesOk() && popped == null && hub.Telling(e) && IndexOk() && e.index == currentIndex + 1
      requires p in f.items && f == Flat(f.items, currentIndex, hub.history.all, hub.gone)
      requires items == Without(f.items, p) && hub.told == Within(f.items, p)
      requires e == Event(e.action, p, currentIndex + 1, f.items[p].created, Just(f.items[p]))
      modifies this`currentIndex, hub`watchers, hub`gone, hub`told, hub.history, hub.history.ring, hub.live`received
      ensures Valid() && (View(), Ok(e)) == Removed(f, p, e.action)
    {
      Record(e);
    }

    // GetChild
    method Child(d: Node, name: string) returns (n: Node?)
      requires TreeOk() && InTree(d) && d.isDir
      ensures n == null <==> d.path + [name] !in tree
      ensures n != null ==>
                n == tree[d.path + [name]] && n.path == d.path + [name] && (!n.isDir ==> n.children == map[])
    {
      if name in d.children {
        assert Owned(d.path, name);
        n := d.children[name];
        assert Placed(d.path + [name]);
      } else {
        n := null;
        if d.path + [name] in tree {
          Listed(d.path, name);
        }
      }
    }

    // A new node in a directory that has none of that name, also in the heap if it expires.
    method PutNew(d: Node, p: Path, isDir: bool, value: string, t: Time)
      requires TreeOk() && ItemsOk() && HeapOk() && p != [] && InTree(d) && d.path == Up(p) && d.isDir && p !in tree
      modifies this`tree, this`items, this`repr, heap, d`children
      ensures TreeOk() && ItemsOk() && HeapOk() && fresh(repr - old(repr)) && old(repr) <= repr
      ensures items == old(items)[p := Item(isDir, value, currentIndex + 1, currentIndex + 1, t)]
    {
      var n := new Node(p, isDir, value, currentIndex + 1, d, t);
      UpAndName(p);
      if Name(p) in d.children {
        InTreeToo(Up(p), Name(p));
      }
      Link(d, n);
      assert heap.Keys() == old(heap.Keys());
      if !n.IsPermanent() {
        heap.Push(n);
      }
      Enlisted(n);
    }

    // The heap with n, if it expires, fits the tree with n.
    twostate lemma Enlisted(new n: Node)
      requires old(HeapOk()) && n.path != [] && n.path !in old(tree) && tree == old(tree)[n.path := n]
      requires heap.Valid() && old(repr) <= repr && n in repr && popped == old(popped)
      requires heap.keyMap.Keys == old(heap.keyMap).Keys + if n.expire != PERMANENT then {n} else {}
      requires forall p :: p in old(tree) ==> old(tree[p]).expire == old(tree[p].expire)
      ensures HeapOk()
    {
      forall m | m in heap.keyMap ensures Expiring(m) {
        assert m in old(heap.keyMap) ==> old(Expiring(m));
      }
      forall q | q in tree ensures Queued(q) {
        assert q != n.path ==> old(Queued(q));
      }
    }

    // The directory for a new node at p; null, and no change, if a file is in the way.
    method DirFor(p: Path) returns (d: Node?)
      requires TreeOk() && ItemsOk() && HeapOk() && p != []
      modifies this`tree, this`items, this`repr, repr`children
      ensures TreeOk() && ItemsOk() && HeapOk() && fresh(repr - old(repr)) && old(repr) <= repr
      ensures d == null <==> FileAbove(old(items), p)
      ensures d == null ==> items == old(items)
      ensures Sub(old(tree), tree)
      ensures d != null ==> InTree(d) && d.path == Up(p) && d.isDir
      ensures d != null ==> items == WithDirs(old(items), p, currentIndex + 1)
    {
      d := MakeDirs(p);
      if d != null {
        assert Placed(Up(p));
      }
      HeapKept();
    }

    // Where a node at p goes: its directory and the file it replaces, or why it cannot.
    method FindSlot(p: Path, replace: bool) returns (d: Node?, n: Node?, why: Option<ErrorCode>)
      requires TreeOk() && ItemsOk() && HeapOk() && p != []
      modifies this`tree, this`items, this`repr, repr`children
      ensures TreeOk() && ItemsOk() && HeapOk() && fresh(repr - old(repr)) && old(repr) <= repr
      ensures why == CreateError(old(items), p, replace)
      ensures why.Just? ==> items == old(items) && tree == old(tree)
      ensures why == Nothing ==> items == WithDirs(old(items), p, currentIndex + 1)
      ensures why == Nothing ==> d != null && InTree(d) && d.path == Up(p) && d.isDir
      ensures why == Nothing ==> (n == null <==> p !in tree)
      ensures why == Nothing && n != null ==> InTree(n) && n.path == p && n.children == map[]
    {
      ItemsClosed();
      DirsKeepTarget(items, p, currentIndex + 1);
      UpAndName(p);
      d := DirFor(p);
      n := null;
      if d == null {
        return d, n, Just(NotDir);
      }
      n := Child(d, Name(p));
      if n != null {
        assert Shown(p);
        if !replace {
          return d, n, Just(NodeExist);
        }
        if n.isDir {
          return d, n, Just(NotFile);
        }
      }
      return d, n, Nothing;
    }

    // The new node at p, in place of the file that may be there.
    method PutNode(d: Node, n: Node?, p: Path, isDir: bool, value: string, t: Time)
      requires TreeOk() && ItemsOk() && HeapOk() && p != [] && InTree(d) && d.path == Up(p) && d.isDir
      requires n == null <==> p !in tree
      requires n != null ==> InTree(n) && n.path == p && n.children == map[]
      modifies this`tree, this`items, this`repr, heap, repr`children
      ensures TreeOk() && ItemsOk() && HeapOk() && fresh(repr - old(repr)) && old(repr) <= repr
      ensures items == old(items)[p := Item(isDir, value, currentIndex + 1, currentIndex + 1, t)]
    {
      if n != null {
        DropNode(n);
      }
      PutNew(d, p, isDir, value, t);
    }

    // The tree's part of internalCreate.
    method CreateNode(p: Path, isDir: bool, value: string, replace: bool, t: Time)
      returns (why: Option<ErrorCode>, prev: Option<Item>)
      requires TreeOk() && ItemsOk() && HeapOk() && p != []
      modifies this`tree, this`items, this`repr, heap, repr`children
      ensures TreeOk() && ItemsOk() && HeapOk() && fresh(repr - old(repr)) && old(repr) <= repr
      ensures why == CreateError(old(items), p, replace)
      ensures why.Just? ==> items == old(items) && tree == old(tree) && heap.nodes == old(heap.nodes)
      ensures why == Nothing ==>
                && (var item := Item(isDir, value, currentIndex + 1, currentIndex + 1, t);
                    items == WithDirs(old(items), p, currentIndex + 1)[p := item])
                && prev == (if p in old(items) then Just(old(items)[p]) else Nothing)
    {
      ItemsClosed();
      DirsKeepTarget(items, p, currentIndex + 1);
      var d, n, w := FindSlot(p, replace);
      why, prev := w, Nothing;
      if why.Just? {
        return;
      }
      if n != null {
        assert Shown(p);
        prev := Just(ItemOf(n));
      }
      PutNode(d, n, p, isDir, value, t);
    }

    /** internalCreate, for Create and Set: the flat creation, errors included. */
    method Create(p: Path, dir: bool, value: string, replace: bool, expire: Time, action: Action) returns (r: Result)
      requires Valid()
      modifies this, heap, repr, hub`watchers, hub`gone, hub`told, hub.history, hub.history.ring, hub.live`received
      ensures Valid() && fresh(repr - old(repr)) && old(repr) <= repr
      ensures (View(), r) == StoreModel.Create(old(View()), p, dir, value, replace, expire, action)
      ensures r.Err? ==> tree == old(tree) && heap.nodes == old(heap.nodes)
    {
      if p == [] {
        return Err(RootROnly);
      }
      var v, t, why := if dir then "" else value, Expiration(expire), Nothing;
      r, why := CreateBelow(p, dir, v, replace, t, action, View(), Item(dir, v, currentIndex + 1, currentIndex + 1, t));
      CreateCases(old(View()), p, dir, value, replace, expire, action);
    }

    method CreateBelow(p: Path, dir: bool, value: string, replace: bool, t: Time, action: Action,
                       ghost f: Flat, ghost item: Item) returns (r: Result, why: Option<ErrorCode>)
      requires Valid() && p != [] && f == View() && item == Item(dir, value, currentIndex + 1, currentIndex + 1, t)
      modifies this`tree, this`items, this`repr, heap, repr`children, this`currentIndex,
               hub`watchers, hub`gone, hub`told, hub.history, hub.history.ring, hub.live`received
      ensures Valid() && fresh(repr - old(repr)) && old(repr) <= repr
      ensures why == CreateError(f.items, p, replace)
      ensures why.Just? ==> View() == f && r == Err(why.value)
      ensures why == Nothing ==> (View(), r) == Created(f, p, item, action)
      ensures why.Just? ==> tree == old(tree) && heap.nodes == old(heap.nodes)
    {
      var prev;
      why, prev := CreateUnseen(p, dir, value, replace, t, f, item);
      r := Finish(p, item, action, why, prev, f);
    }

    // The item is in place, with the directories above it, or nothing has changed.
    ghost predicate Placeable(f: Flat, p: Path, item: Item, why: Option<ErrorCode>, prev: Option<Item>)
      requires p != []
      reads this`items, this`currentIndex
    {
      if why.Just? then items == f.items
      else
        && items == WithDirs(f.items, p, currentIndex + 1)[p := item]
        && prev == if p in f.items then Just(f.items[p]) else Nothing
    }

    // As CreateNode; neither the history nor a watcher sees anything yet.
    method CreateUnseen(p: Path, isDir: bool, value: string, replace: bool, t: Time, ghost f: Flat, ghost item: Item)
      returns (why: Option<ErrorCode>, prev: Option<Item>)
      requires Valid() && p != [] && f == View() && item == Item(isDir, value, currentIndex + 1, currentIndex + 1, t)
      modifies this`tree, this`items, this`repr, heap, repr`children
      ensures Valid() && fresh(repr - old(repr)) && old(repr) <= repr
      ensures why == CreateError(f.items, p, replace) && Placeable(f, p, item, why, prev)
      ensures why.Just? ==> tree == old(tree) && heap.nodes == old(heap.nodes)
    {
      why, prev := CreateNode(p, isDir, value, replace, t);
    }

    // The answer, and the event if something was created.
    method Finish(p: Path, ghost item: Item, action: Action, why: Option<ErrorCode>, prev: Option<Item>, ghost f: Flat)
      returns (r: Result)
      requires Valid() && p != [] && f == Flat(f.items, currentIndex, hub.history.all, hub.gone)
      requires Placeable(f, p, item, why, prev)
      modifies this`currentIndex, hub`watchers, hub`gone, hub`told, hub.history, hub.history.ring, hub.live`received
      ensures Valid() && repr == old(repr) && tree == old(tree) && heap.nodes == old(heap.nodes)
      ensures why.Just? ==> View() == f && r == Err(why.value)
      ensures why == Nothing ==> (View(), r) == Created(f, p, item, action)
    {
      if why.Just? {
        return Err(why.value);
      }
      r := RecordCreated(p, item, action, prev, f);
    }

    method RecordCreated(p: Path, ghost item: Item, action: Action, prev: Option<Item>, ghost f: Flat)
      returns (r: Result)
      requires Valid() && p != [] && f == Flat(f.items, currentIndex, hub.history.all, hub.gone)
      requires items == WithDirs(f.items, p, currentIndex + 1)[p := item]
      requires prev == if p in f.items then Just(f.items[p]) else Nothing
      modifies this`currentIndex, hub`watchers, hub`gone, hub`told, hub.history, hub.history.ring, hub.live`received
      ensures Valid() && (View(), r) == Created(f, p, item, action)
    {
      var e := Event(action, p, currentIndex + 1, currentIndex + 1, prev);
      RecordNext(e);
      return Ok(e);
    }

    /** Set: an unreadable path is an error; otherwise whatever file is there is replaced. */
    method Set(p: Path, dir: bool, value: string, expire: Time) returns (r: Result)
      requires Valid()
      modifies this, heap, repr, hub`watchers, hub`gone, hub`told, hub.history, hub.history.ring, hub.live`received
      ensures Valid() && fresh(repr - old(repr)) && old(repr) <= repr
      ensures (View(), r) == StoreModel.Create(old(View()), p, dir, value, true, expire, SetAction)
      ensures r.Err? ==> tree == old(tree) && heap.nodes == old(heap.nodes)
    {
      var n, code := InternalGet(p);
      if n == null && code != KeyNotFound {
        CreateCasesBlocked(View(), p, dir, value, expire);
        return Err(code);
      }
      r := Create(p, dir, value, true, expire, SetAction);
    }

    // ---- Changing ----

    // node.Write: directories keep what they have.
    method Write(n: Node, value: string, index: int)
      requires TreeOk() && ItemsOk() && InTree(n)
      modifies n`value, n`modified, this`items
      ensures ItemsOk() && items == old(items)[n.path := Written(old(items[n.path]), value, index)]
    {
      assert Shown(n.path);
      if !n.isDir {
        n.value := value;
        n.modified := index;
      }
      items := items[n.path := Written(items[n.path], value, index)];
      forall p | p in tree ensures Shown(p) {
        assert old(Shown(p));
        assert Placed(p) && Placed(n.path);
      }
    }

    // Value, index and expiration of a node.
    method TouchNode(n: Node, value: string, t: Time)
      requires TreeOk() && ItemsOk() && HeapOk() && InTree(n) && n.path != [] && popped == null
      modifies n`value, n`modified, n`expire, heap, this`items
      ensures TreeOk() && ItemsOk() && HeapOk()
      ensures items == old(items)[n.path := Touch(old(items[n.path]), value, currentIndex + 1, t)]
    {
      Write(n, value, currentIndex + 1);
      HeapKept();
      UpdateTTL(n, t);
    }

    // A change of one node, recorded under the next index.
    method Change(n: Node, value: string, t: Time, action: Action) returns (r: Result)
      requires Valid() && InTree(n) && n.path != []
      modifies n`value, n`modified, n`expire, heap, this`items, this`currentIndex, hub`watchers, hub`gone, hub`told,
               hub.history, hub.history.ring, hub.live`received
      ensures Valid() && (View(), r) == Changed(old(View()), n.path, value, t, action)
    {
      assert Shown(n.path);
      var e := Event(action, n.path, currentIndex + 1, n.created, Just(ItemOf(n)));
      TouchNode(n, value, t);
      RecordChange(e, n.path, value, t, old(View()));
      return Ok(e);
    }

    method RecordChange(e: Event, p: Path, value: string, t: Time, ghost f: Flat)
      requires Valid() && p in f.items && f == Flat(f.items, currentIndex, hub.history.all, hub.gone)
      requires items == f.items[p := Touch(f.items[p], value, currentIndex + 1, t)]
      requires e == Event(e.action, p, currentIndex + 1, f.items[p].created, Just(f.items[p]))
      modifies this`currentIndex, hub`watchers, hub`gone, hub`told, hub.history, hub.history.ring, hub.live`received
      ensures Valid() && (View(), Ok(e)) == Changed(f, p, value, t, e.action)
    {
      RecordNext(e);
    }

    method RecordNext(e: Event)
      requires Valid() && e.index == currentIndex + 1
      modifies this`currentIndex, hub`watchers, hub`gone, hub`told, hub.history, hub.history.ring, hub.live`received
      ensures Valid() && currentIndex == old(currentIndex) + 1
      ensures hub.history.all == old(hub.history.all) + [e] && hub.gone == old(hub.gone) + [{}]
    {
      hub.NobodyTold(e);
      Record(e);
    }

    /** Update: a file's value and expiration, or a directory's expiration alone. */
    method Update(p: Path, value: string, expire: Time) returns (r: Result)
      requires Valid()
      modifies this, heap, repr, hub`watchers, hub`gone, hub`told, hub.history, hub.history.ring, hub.live`received
      ensures Valid() && (View(), r) == StoreModel.Update(old(View()), p, value, expire)
      ensures r.Err? ==> tree == old(tree) && heap.nodes == old(heap.nodes)
    {
      if p == [] {
        return Err(RootROnly);
      }
      var n, code := InternalGet(p);
      if n == null {
        return Err(code);
      }
      assert Placed(p) && Shown(p);
      if n.isDir && value != "" {
        return Err(NotFile);
      }
      r := Change(n, value, expire, UpdateAction);
    }

    // node.Compare
    function Compares(n: Node, prevValue: string, prevIndex: int): bool
      reads n`value, n`modified
    {
      (prevIndex == 0 || n.modified == prevIndex) && (prevValue == "" || n.value == prevValue)
    }

    /** CompareAndSwap. */
    method CompareAndSwap(p: Path, prevValue: string, prevIndex: int, value: string, expire: Time) returns (r: Result)
      requires Valid()
      modifies this, heap, repr, hub`watchers, hub`gone, hub`told, hub.history, hub.history.ring, hub.live`received
      ensures Valid() && (View(), r) == StoreModel.CompareAndSwap(old(View()), p, prevValue, prevIndex, value, expire)
      ensures r.Err? ==> tree == old(tree) && heap.nodes == old(heap.nodes)
    {
      if p == [] {
        return Err(RootROnly);
      }
      var n, code := InternalGet(p);
      if n == null {
        return Err(code);
      }
      assert Placed(p) && Shown(p);
      if n.isDir {
        return Err(NotFile);
      }
      if !Compares(n, prevValue, prevIndex) {
        return Err(TestFailed);
      }
      r := Change(n, value, expire, SwapAction);
    }

    // ---- Deleting ----

    // Removes a node with everything below it, recorded under the next index.
    method RemoveNode(n: Node, action: Action) returns (r: Result)
      requires Valid() && InTree(n) && n.path != []
      modifies this`tree, this`items, heap, repr`children, this`currentIndex, hub`watchers, hub`gone, hub`told,
               hub.history, hub.history.ring, hub.live`received
      ensures Valid() && items == Without(old(items), n.path) && n.path in old(items)
      ensures (View(), r) == Removed(old(View()), n.path, action)
    {
      assert Shown(n.path);
      var e := Event(action, n.path, currentIndex + 1, n.created, Just(ItemOf(n)));
      hub.NobodyTold(e);
      RemoveAll(n, e);
      RecordRemoval(e, n.path, old(View()));
      return Ok(e);
    }

    method RemoveAll(n: Node, e: Event)
      requires NodesOk() && InTree(n) && n.path != []
      requires hub.Telling(e) && hub.told == {} && e.key == n.path
      modifies this`tree, this`items, heap, repr`children, hub`watchers, hub`told, hub.live`received
      ensures NodesOk() && tree == Pruned(old(tree), n.path)
      ensures heap.keyMap.Keys <= old(heap.keyMap.Keys) && items == Without(old(items), n.path)
      ensures hub.Telling(e) && hub.told == Within(old(items), n.path)
    {
      RemoveSubtree(n, e);
      ItemsPruned(n.path);
      assert old(tree).Keys - tree.Keys == Within(old(items), n.path);
    }

    /** Delete: a directory only with dir, and one that is not empty only recursively. */
    method Delete(p: Path, dir: bool, recursive: bool) returns (r: Result)
      requires Valid()
      modifies this, heap, repr, hub`watchers, hub`gone, hub`told, hub.history, hub.history.ring, hub.live`received
      ensures Valid() && (View(), r) == StoreModel.Delete(old(View()), p, dir, recursive)
      ensures r.Err? ==> tree == old(tree) && heap.nodes == old(heap.nodes)
    {
      if p == [] {
        return Err(RootROnly);
      }
      var n, code := InternalGet(p);
      if n == null {
        return Err(code);
      }
      assert Placed(p) && Shown(p);
      if n.isDir {
        if !dir && !recursive {
          return Err(NotFile);
        }
        ChildrenShow(p);
        if n.children != map[] && !recursive {
          return Err(DirNotEmpty);
        }
      }
      r := RemoveNode(n, DeleteAction);
    }

    lemma ChildrenShow(p: Path)
      requires TreeOk() && ItemsOk() && p in tree
      ensures HasChild(items, p) <==> tree[p].children != map[]
    {
      if tree[p].children != map[] {
        var name := Member(tree[p].children.Keys);
        assert Owned(p, name);
        assert p < p + [name];
      } else {
        forall q | q in items ensures !(p < q) {
          NothingBelow(p, q);
        }
      }
    }

    /** CompareAndDelete. */
    method CompareAndDelete(p: Path, prevValue: string, prevIndex: int) returns (r: Result)
      requires Valid()
      modifies this, heap, repr, hub`watchers, hub`gone, hub`told, hub.history, hub.history.ring, hub.live`received
      ensures Valid() && (View(), r) == StoreModel.CompareAndDelete(old(View()), p, prevValue, prevIndex)
      ensures r.Err? ==> tree == old(tree) && heap.nodes == old(heap.nodes)
    {
      var n, code := InternalGet(p);
      if n == null {
        return Err(code);
      }
      assert Placed(p) && Shown(p);
      if n.isDir {
        return Err(NotFile);
      }
      if !Compares(n, prevValue, prevIndex) {
        return Err(TestFailed);
      }
      r := RemoveNode(n, CompareDeleteAction);
    }

    // ---- Expiring ----

    /** DeleteExpiredKeys: stops because the heap shrinks each time, expires nodes in the
        order of their times, and leaves exactly the nodes that are not due themselves and
        have nothing due above them. */
    method DeleteExpiredKeys(cutoff: Time) returns (ghost order: seq<Path>)
      requires Valid()
      modifies this, heap, repr, hub`watchers, hub`gone, hub`told, hub.history, hub.history.ring, hub.live`received
      ensures Valid() && items == Survivors(old(items), cutoff) && repr == old(repr)
      ensures ExpireOrder(old(View()), cutoff, order) && View() == Expire(old(View()), cutoff, order)
    {
      order := ExpireWhileDue(cutoff);
      NothingDue(cutoff);
      ItemsClosed();
      ReapedAll(old(items), cutoff, items);
    }

    method ExpireWhileDue(cutoff: Time) returns (ghost order: seq<Path>)
      requires Valid()
      modifies this`tree, this`items, this`popped, this`currentIndex, heap, repr`children,
               hub`watchers, hub`gone, hub`told, hub.history, hub.history.ring, hub.live`received
      ensures Valid() && Reaped(old(items), cutoff, items) && ExpiredSoFar(old(View()), cutoff, order)
      ensures heap.nodes == [] || heap.nodes[0].expire > cutoff
    {
      order := [];
      while heap.nodes != [] && heap.Top().expire <= cutoff
        invariant Valid() && Reaped(old(items), cutoff, items) && ExpiredSoFar(old(View()), cutoff, order)
        decreases heap.keyMap.Keys
      {
        order := ExpireNext(cutoff, old(View()), order);
      }
    }

    ghost predicate ExpiredSoFar(f: Flat, cutoff: Time, order: seq<Path>)
      reads this, hub, hub.history
    {
      ExpireOrder(f, cutoff, order) && View() == Expire(f, cutoff, order)
    }

    method ExpireNext(cutoff: Time, ghost f: Flat, ghost order: seq<Path>) returns (ghost order': seq<Path>)
      requires Valid() && heap.nodes != [] && heap.Top().expire <= cutoff
      requires Reaped(f.items, cutoff, items) && ExpiredSoFar(f, cutoff, order)
      modifies this`tree, this`items, this`popped, this`currentIndex, heap, repr`children,
               hub`watchers, hub`gone, hub`told, hub.history, hub.history.ring, hub.live`received
      ensures Valid() && Reaped(f.items, cutoff, items) && ExpiredSoFar(f, cutoff, order')
      ensures heap.keyMap.Keys < old(heap.keyMap.Keys)
    {
      ghost var p := ExpireTop(cutoff);
      ReapOne(f.items, cutoff, old(items), p);
      ExpireOneMore(f, cutoff, order, p);
      order' := order + [p];
    }

    // Pops the node that expires first and removes it with everything below it.
    method ExpireTop(cutoff: Time) returns (ghost p: Path)
      requires Valid() && heap.nodes != [] && heap.Top().expire <= cutoff
      modifies this`tree, this`items, this`popped, this`currentIndex, heap, repr`children, hub`watchers, hub`gone,
               hub`told, hub.history, hub.history.ring, hub.live`received
      ensures Valid() && FirstDue(old(items), cutoff, p) && View() == Removed(old(View()), p, ExpireAction).0
      ensures heap.keyMap.Keys < old(heap.keyMap.Keys)
    {
      var n := heap.Top();
      TopIsDue(cutoff);
      p := n.path;
      assert Shown(p);
      var e := Event(ExpireAction, n.path, currentIndex + 1, n.created, Just(ItemOf(n)));
      hub.NobodyTold(e);
      PopAndRemove(n, e);
      RecordRemoval(e, n.path, old(View()));
    }

    method PopAndRemove(n: Node, e: Event)
      requires NodesOk() && popped == null && heap.nodes != [] && n == heap.Top()
      requires InTree(n) && n.path != [] && n in heap.keyMap
      requires hub.Telling(e) && hub.told == {} && e.key == n.path
      modifies this`tree, this`items, this`popped, heap, repr`children, hub`watchers, hub`told, hub.live`received
      ensures NodesOk() && popped == null && items == Without(old(items), n.path)
      ensures heap.keyMap.Keys < old(heap.keyMap.Keys)
      ensures hub.Telling(e) && hub.told == Within(old(items), n.path)
    {
      PopTop(n);
      RemoveAll(n, e);
      NotThere(n);
    }

    lemma TopIsDue(cutoff: Time)
      requires Valid() && heap.nodes != [] && heap.Top().expire <= cutoff
      ensures var n := heap.Top();
              InTree(n) && n.path != [] && n in heap.keyMap && FirstDue(items, cutoff, n.path)
    {
      var n := heap.Top();
      assert heap.At(0) && Expiring(n) && Shown(n.path) && Placed([]);
      forall q | q in items && items[q].expire != PERMANENT ensures items[n.path].expire <= items[q].expire {
        assert Shown(q) && Queued(q);
        assert heap.Held(tree[q]);
        FirstIsLeast(heap.Keys(), |heap.nodes|, heap.keyMap[tree[q]]);
      }
    }

    method PopTop(n: Node)
      requires NodesOk() && popped == null && heap.nodes != [] && n == heap.Top()
      modifies this`popped, heap
      ensures NodesOk() && popped == n && heap.keyMap.Keys == old(heap.keyMap.Keys) - {n}
    {
      popped := heap.Pop();
      forall m | m in heap.keyMap ensures Expiring(m) {
        assert old(Expiring(m));
      }
      forall p | p in tree ensures Queued(p) {
        assert old(Queued(p));
      }
    }

    // The node popped is no longer in the tree.
    method NotThere(n: Node)
      requires NodesOk() && popped == n && n.path !in tree
      modifies this`popped
      ensures NodesOk() && popped == null
    {
      popped := null;
      forall p | p in tree ensures Queued(p) {
        assert old(Queued(p));
        assert Placed(p);
      }
    }

    /** Watch: index 0 stands for the next event. */
    method Watch(key: Path, recursive: bool, since: nat) returns (w: Watcher?)
      requires Valid()
      modifies hub`watchers, hub`live
      ensures Valid()
      ensures var q := Query(key, recursive, if since == 0 then currentIndex + 1 else since);
              var found := Search(hub.history.all, hub.history.size, key, recursive, q.since);
              && (w == null <==> found == IndexCleared)
              && (w == null ==> hub.live == old(hub.live))
              && (w != null ==>
                    && fresh(w) && w.query == q && w.joined == |hub.history.all| && found == Scanned(w.received)
                    && hub.live == old(hub.live) + if w.received == Nothing then {w} else {})
    {
      w := hub.Watch(Query(key, recursive, if since == 0 then currentIndex + 1 else since));
    }

    // The first node of the heap is the first to expire, and every node that expires is there.
    lemma NothingDue(cutoff: Time)
      requires Valid() && (heap.nodes == [] || heap.nodes[0].expire > cutoff)
      ensures forall q :: q in items ==> !Due(items[q], cutoff)
    {
      forall q | q in items ensures !Due(items[q], cutoff) {
        assert Shown(q) && Queued(q);
        if tree[q] in heap.keyMap {
          assert heap.Held(tree[q]);
          FirstIsLeast(heap.Keys(), |heap.nodes|, heap.keyMap[tree[q]]);
        }
      }
    }
  }

  lemma UpAndName(p: Path)
    requires p != []
    ensures p == Up(p) + [Name(p)]
  {
  }

  lemma TakenFurther(told: set<Path>, before: set<Path>, now: set<Path>, after: set<Path>)
    requires after <= now <= before
    ensures told + (before - now) + (now - after) == told + (before - after)
  {
  }

  lemma PrefixCases(p: Path, q: Path)
    requires p <= q
    ensures p == q || p < q
  {
    if |p| == |q| {
      assert p == q[..|p|] == q;
    }
  }

  ghost function Pruned(before: map<Path, Node>, p: Path): map<Path, Node> {
    map q | q in before && !(p <= q) :: before[q]
  }

  lemma FewerBelow(before: map<Path, Node>, now: map<Path, Node>, p: Path, name: string)
    requires Sub(now, before) && p in before
    ensures (set q | q in now && p + [name] <= q) < (set q | q in before && p <= q)
  {
    var a, b := set q | q in now && p + [name] <= q, set q | q in before && p <= q;
    forall q | q in a ensures q in b {
      assert p <= p + [name];
    }
    assert p in b && p !in a;
  }

  lemma StillThinned(before: map<Path, Node>, now: map<Path, Node>, after: map<Path, Node>, p: Path, name: string)
    requires Sub(now, before) && (forall q :: q in before && !(p < q) ==> q in now)
    requires after == Pruned(now, p + [name]) && p + [name] in now
    ensures Sub(after, before) && (forall q :: q in before && !(p < q) ==> q in after)
    ensures after.Keys < now.Keys
  {
    assert p + [name] !in after;
    forall q | q in before && !(p < q) ensures q in after {
      assert q in now;
    }
  }

  lemma AllPruned(before: map<Path, Node>, left: map<Path, Node>, p: Path)
    requires Sub(left, before) && (forall q :: q in before && !(p < q) ==> q in left)
    requires forall q :: q in left ==> !(p < q)
    ensures left - {p} == Pruned(before, p)
  {
    var a, b := left - {p}, Pruned(before, p);
    forall q | q in a ensures q in b {
      assert q in left;
      if p <= q {
        PrefixCases(p, q);
      }
    }
    forall q | q in b ensures q in a {
      assert q in before && !(p < q);
    }
  }

  // Only n's key is different, so the order is in doubt at n's position only.
  lemma OneKeyChanged(heap: TtlKeyHeap, keys: seq<int>, n: Node)
    requires heap.Indexed() && n in heap.keyMap && heap.Held(n)
    requires |keys| == |heap.nodes| && Ordered(keys, |keys|)
    requires forall k :: 0 <= k < |keys| && heap.nodes[k] != n ==> keys[k] == heap.nodes[k].expire
    ensures heap.ValidExcept(n)
  {
    forall k | 0 <= k < |keys| && k != heap.keyMap[n] ensures heap.Keys()[k] == keys[k] {
      assert heap.At(k);
    }
    ChangedKey(keys, heap.Keys(), |keys|, heap.keyMap[n]);
  }

  lemma NameOfChild(p: Path, name: string)
    ensures Up(p + [name]) == p && Name(p + [name]) == name
  {
  }
}
