/** A node of the store's tree, and the heap of nodes that expire. Times are integers; the
    zero time marks a permanent node. A path is the list of its components, cleaned. */
module StoreNodes {
  import opened HeapOrder

  type Path = seq<string>

  type Time = int

  const PERMANENT: Time := 0

  class Node {
    const path: Path
    const created: int
    const parent: Node?
    const isDir: bool
    var modified: int
    var value: string
    var expire: Time
    var children: map<string, Node>

    constructor (path: Path, isDir: bool, value: string, index: int, parent: Node?, expire: Time)
      ensures this.path == path && this.isDir == isDir && this.value == value && this.parent == parent
      ensures created == modified == index && this.expire == expire && children == map[]
    {
      this.path, this.isDir, this.value, this.parent, this.expire := path, isDir, value, parent, expire;
      created, modified, children := index, index, map[];
    }

    predicate IsPermanent()
      reads this
    {
      expire == PERMANENT
    }
  }

  class TtlKeyHeap {
    var nodes: seq<Node>
    var keyMap: map<Node, nat>

    // keyMap is the exact inverse of the list.
    ghost predicate Indexed()
      reads this
    {
      && (forall i {:trigger At(i)} :: 0 <= i < |nodes| ==> At(i))
      && (forall n {:trigger Held(n)} :: n in keyMap ==> Held(n))
    }

    ghost predicate At(i: int)
      reads this
    {
      0 <= i < |nodes| && nodes[i] in keyMap && keyMap[nodes[i]] == i
    }

    ghost predicate Held(n: Node)
      reads this
    {
      n in keyMap && keyMap[n] < |nodes| && nodes[keyMap[n]] == n
    }

    ghost function Keys(): (ks: seq<int>)
      reads this, nodes
      ensures |ks| == |nodes| && forall i :: 0 <= i < |nodes| ==> ks[i] == nodes[i].expire
    {
      seq(|nodes|, i requires 0 <= i < |nodes| reads this, nodes => nodes[i].expire)
    }

    ghost predicate Valid()
      reads this, nodes
    {
      Indexed() && Ordered(Keys(), |nodes|)
    }

    constructor ()
      ensures Valid() && keyMap == map[] && nodes == []
    {
      nodes, keyMap := [], map[];
    }

    method Swap(i: nat, j: nat)
      requires Indexed() && i < |nodes| && j < |nodes|
      modifies this
      ensures Indexed() && nodes == Swapped(old(nodes), i, j) && keyMap.Keys == old(keyMap).Keys
      ensures Keys() == Swapped(old(Keys()), i, j)
    {
      assert At(i) && At(j);
      nodes := nodes[i := nodes[j]][j := nodes[i]];
      keyMap := keyMap[nodes[i] := i][nodes[j] := j];
      forall k | 0 <= k < |nodes| ensures At(k) {
        assert old(At(k));
      }
      forall n | n in keyMap ensures Held(n) {
        assert old(Held(n));
      }
    }

    // container/heap up.
    method Up(start: nat, ghost n: nat)
      requires Indexed() && start < n <= |nodes| && OrderedBelow(Keys(), n, start)
      modifies this
      ensures Indexed() && keyMap.Keys == old(keyMap).Keys && |nodes| == |old(nodes)|
      ensures nodes[n..] == old(nodes)[n..] && Ordered(Keys(), n)
    {
      var j: nat := start;
      while true
        invariant Indexed() && keyMap.Keys == old(keyMap).Keys && |nodes| == |old(nodes)|
        invariant nodes[n..] == old(nodes)[n..] && j < n <= |nodes| && OrderedBelow(Keys(), n, j)
        decreases j
      {
        if j == 0 || nodes[Parent(j)].expire <= nodes[j].expire {
          UpDone(Keys(), n, j);
          break;
        }
        SwapUp(j, n);
        j := Parent(j);
      }
    }

    method SwapUp(j: nat, ghost n: nat)
      requires Indexed() && 0 < j < n <= |nodes| && OrderedBelow(Keys(), n, j)
      requires nodes[j].expire < nodes[Parent(j)].expire
      modifies this
      ensures Indexed() && keyMap.Keys == old(keyMap).Keys && |nodes| == |old(nodes)|
      ensures nodes[n..] == old(nodes)[n..] && OrderedBelow(Keys(), n, Parent(j))
    {
      UpStep(Keys(), n, j);
      Swap(Parent(j), j);
    }

    method LesserChild(j: nat, n: nat) returns (c: nat)
      requires 2 * j + 1 < n <= |nodes|
      ensures SmallerChild(Keys(), n, j, c)
    {
      c := 2 * j + 1;
      if c + 1 < n && nodes[c + 1].expire <= nodes[c].expire {
        c := c + 1;
      }
    }

    method SwapDown(j: nat, c: nat, n: nat)
      requires Indexed() && n <= |nodes| && OrderedExcept(Keys(), n, j) && SmallerChild(Keys(), n, j, c)
      requires nodes[c].expire < nodes[j].expire
      modifies this
      ensures Indexed() && keyMap.Keys == old(keyMap).Keys && |nodes| == |old(nodes)|
      ensures nodes[n..] == old(nodes)[n..] && OrderedExcept(Keys(), n, c) && Keys()[j] <= Keys()[c]
    {
      DownStep(Keys(), n, j, c);
      Swap(j, c);
    }

    // container/heap down, on the first n nodes.
    method Down(start: nat, n: nat)
      requires Indexed() && start < n <= |nodes| && OrderedExcept(Keys(), n, start)
      modifies this
      ensures Indexed() && keyMap.Keys == old(keyMap).Keys && |nodes| == |old(nodes)|
      ensures nodes[n..] == old(nodes)[n..] && OrderedBelow(Keys(), n, start)
    {
      var j: nat := start;
      while true
        invariant Indexed() && keyMap.Keys == old(keyMap).Keys && |nodes| == |old(nodes)|
        invariant nodes[n..] == old(nodes)[n..] && start <= j < n <= |nodes| && OrderedExcept(Keys(), n, j)
        invariant j == start || (j > 0 && Keys()[Parent(j)] <= Keys()[j])
        decreases n - j
      {
        if 2 * j + 1 >= n {
          DownLeaf(Keys(), n, start, j);
          return;
        }
        var c := LesserChild(j, n);
        if nodes[j].expire <= nodes[c].expire {
          DownSettled(Keys(), n, start, j, c);
          return;
        }
        SwapDown(j, c, n);
        j := c;
      }
    }

    // Drops the last node.
    method DropLast() returns (x: Node)
      requires Indexed() && nodes != [] && Ordered(Keys(), |nodes| - 1)
      modifies this
      ensures x == old(nodes)[|old(nodes)| - 1] && keyMap.Keys == old(keyMap).Keys - {x} && Valid()
    {
      var n := |nodes| - 1;
      x := nodes[n];
      assert At(n);
      nodes := nodes[..n];
      keyMap := keyMap - {x};
      forall k | 0 <= k < |nodes| ensures At(k) {
        assert old(At(k));
      }
      forall m | m in keyMap ensures Held(m) {
        assert old(Held(m));
      }
    }

    function Top(): Node
      requires nodes != []
      reads this
    {
      nodes[0]
    }

    /** heap.Pop: removes a node that expires first. */
    method Pop() returns (x: Node)
      requires Valid() && nodes != []
      modifies this
      ensures x == old(Top()) && Valid() && keyMap.Keys == old(keyMap).Keys - {x}
    {
      var n := |nodes| - 1;
      Swap(0, n);
      if n > 0 {
        Down(0, n);
        UpDone(Keys(), n, 0);
      }
      x := DropLast();
    }

    /** heap.Push. */
    method Push(x: Node)
      requires Valid() && x !in keyMap
      modifies this
      ensures Valid() && keyMap.Keys == old(keyMap).Keys + {x}
    {
      keyMap := keyMap[x := |nodes|];
      nodes := nodes + [x];
      forall k | 0 <= k < |nodes| ensures At(k) {
        assert k < |old(nodes)| ==> old(At(k));
      }
      forall m | m in keyMap ensures Held(m) {
        assert m != x ==> old(Held(m));
      }
      Up(|nodes| - 1, |nodes|);
    }

    // heap.Remove at a position whose key may be out of order.
    method RemoveAt(i: nat) returns (x: Node)
      requires Indexed() && i < |nodes| && OrderedExcept(Keys(), |nodes|, i)
      modifies this
      ensures x == old(nodes)[i] && Valid() && keyMap.Keys == old(keyMap).Keys - {x}
    {
      var n := |nodes| - 1;
      if n != i {
        MoveToEnd(i, n);
        Down(i, n);
        Up(i, n);
      }
      x := DropLast();
    }

    method MoveToEnd(i: nat, n: nat)
      requires Indexed() && i < n == |nodes| - 1 && OrderedExcept(Keys(), |nodes|, i)
      modifies this
      ensures Indexed() && keyMap.Keys == old(keyMap).Keys && |nodes| == |old(nodes)|
      ensures nodes[n] == old(nodes)[i] && OrderedExcept(Keys(), n, i)
    {
      MovedToEnd(Keys(), Swapped(Keys(), i, n), n, i);
      Swap(i, n);
    }

    // The order is intact, or in doubt at n's position only.
    ghost predicate ValidExcept(n: Node)
      reads this, nodes
    {
      Indexed() && if n in keyMap then OrderedExcept(Keys(), |nodes|, keyMap[n]) else Ordered(Keys(), |nodes|)
    }

    /** remove: works on a node whose expiration has just been changed. */
    method Remove(n: Node)
      requires ValidExcept(n)
      modifies this
      ensures Valid() && keyMap.Keys == old(keyMap).Keys - {n}
    {
      if n in keyMap {
        assert Held(n);
        var _ := RemoveAt(keyMap[n]);
      }
    }

    /** update: re-inserts a node whose expiration has just been changed. */
    method Update(n: Node)
      requires ValidExcept(n)
      modifies this
      ensures Valid() && keyMap.Keys == old(keyMap).Keys
    {
      if n in keyMap {
        assert Held(n);
        var x := RemoveAt(keyMap[n]);
        Push(n);
      }
    }
  }

  // The last key put in place of key i: the order of the others is untouched.
  lemma MovedToEnd(before: seq<int>, after: seq<int>, n: nat, i: nat)
    requires |before| == |after| == n + 1 && i < n && after == Swapped(before, i, n) && OrderedExcept(before, n + 1, i)
    ensures OrderedExcept(after, n, i)
  {
  }
}
