/** Binary min-heap order on a list of keys, and what sifting an element up or down does to
    it: the order with one position in doubt, and the steps that move the doubt along. */
module HeapOrder {

  function Parent(k: nat): nat
    requires k > 0
  {
    (k - 1) / 2
  }

  // The first n keys are in heap order.
  ghost predicate Ordered(keys: seq<int>, n: nat)
    requires n <= |keys|
  {
    forall k :: 1 <= k < n ==> keys[Parent(k)] <= keys[k]
  }

  // Nothing is known of position j, but its parent and its children are in order.
  ghost predicate OrderedExcept(keys: seq<int>, n: nat, j: nat)
    requires n <= |keys|
  {
    && (forall k :: 1 <= k < n && k != j && Parent(k) != j ==> keys[Parent(k)] <= keys[k])
    && (forall k :: 1 <= k < n && Parent(k) == j && j > 0 ==> keys[Parent(j)] <= keys[k])
  }

  // Only j may be smaller than its parent.
  ghost predicate OrderedBelow(keys: seq<int>, n: nat, j: nat)
    requires n <= |keys|
  {
    && (forall k :: 1 <= k < n && k != j ==> keys[Parent(k)] <= keys[k])
    && (forall k :: 1 <= k < n && Parent(k) == j && j > 0 ==> keys[Parent(j)] <= keys[k])
  }

  function Swapped<T>(s: seq<T>, i: nat, j: nat): (r: seq<T>)
    requires i < |s| && j < |s|
    ensures |r| == |s| && r[i] == s[j] && r[j] == s[i]
    ensures forall k :: 0 <= k < |s| && k != i && k != j ==> r[k] == s[k]
    ensures multiset(r) == multiset(s)
  {
    s[i := s[j]][j := s[i]]
  }

  lemma FirstIsLeast(keys: seq<int>, n: nat, k: nat)
    requires n <= |keys| && Ordered(keys, n) && k < n
    ensures keys[0] <= keys[k]
  {
    if k > 0 {
      FirstIsLeast(keys, n, Parent(k));
    }
  }

  // Changing the key at j of an ordered list leaves the order in doubt at j only.
  lemma ChangedKey(before: seq<int>, keys: seq<int>, n: nat, j: nat)
    requires n <= |before| == |keys| && Ordered(before, n) && forall k :: 0 <= k < n && k != j ==> keys[k] == before[k]
    ensures OrderedExcept(keys, n, j)
  {
    forall k | 1 <= k < n && Parent(k) == j && j > 0 ensures keys[Parent(j)] <= keys[k] {
      assert before[Parent(j)] <= before[j] && before[j] <= before[k];
    }
  }

  lemma UpStep(keys: seq<int>, n: nat, j: nat)
    requires n <= |keys| && 0 < j < n && OrderedBelow(keys, n, j) && keys[j] < keys[Parent(j)]
    ensures OrderedBelow(Swapped(keys, Parent(j), j), n, Parent(j))
  {
    var i := Parent(j);
    var after := Swapped(keys, i, j);
    forall k | 1 <= k < n && k != i ensures after[Parent(k)] <= after[k] {
      if k == j {
      } else if Parent(k) == i {
        assert keys[i] <= keys[k];
      } else if Parent(k) == j {
        assert keys[i] <= keys[k];
      } else {
        assert keys[Parent(k)] <= keys[k];
      }
    }
    forall k | 1 <= k < n && Parent(k) == i && i > 0 ensures after[Parent(i)] <= after[k] {
      assert keys[Parent(i)] <= keys[i];
      if k != j {
        assert keys[i] <= keys[k];
      }
    }
  }

  lemma UpDone(keys: seq<int>, n: nat, j: nat)
    requires n <= |keys| && j < n && OrderedBelow(keys, n, j) && (j == 0 || keys[Parent(j)] <= keys[j])
    ensures Ordered(keys, n)
  {
  }

  // c is the smaller child of j, and smaller than j.
  ghost predicate SmallerChild(keys: seq<int>, n: nat, j: nat, c: nat)
    requires n <= |keys|
  {
    && j < c < n && Parent(c) == j && forall k :: 1 <= k < n && Parent(k) == j ==> keys[c] <= keys[k]
  }

  lemma DownStep(keys: seq<int>, n: nat, j: nat, c: nat)
    requires n <= |keys| && OrderedExcept(keys, n, j) && SmallerChild(keys, n, j, c) && keys[c] < keys[j]
    ensures OrderedExcept(Swapped(keys, j, c), n, c)
    ensures Swapped(keys, j, c)[j] <= Swapped(keys, j, c)[c]
    ensures j > 0 ==> Swapped(keys, j, c)[Parent(j)] <= Swapped(keys, j, c)[j]
  {
    var after := Swapped(keys, j, c);
    forall k | 1 <= k < n && k != c && Parent(k) != c ensures after[Parent(k)] <= after[k] {
      if k == j {
        assert Parent(c) == j;
        assert keys[Parent(j)] <= keys[c];
      } else if Parent(k) == j {
        assert keys[c] <= keys[k];
      } else {
        assert keys[Parent(k)] <= keys[k];
      }
    }
    forall k | 1 <= k < n && Parent(k) == c && c > 0 ensures after[Parent(c)] <= after[k] {
      assert keys[c] <= keys[k];
    }
  }

  // Where sifting down stops: only the start may still be smaller than its parent.
  lemma DownDone(keys: seq<int>, n: nat, start: nat, j: nat)
    requires n <= |keys| && OrderedExcept(keys, n, j) && start <= j
    requires forall k :: 1 <= k < n && Parent(k) == j ==> keys[j] <= keys[k]
    requires j == start || (j > 0 && j < n && keys[Parent(j)] <= keys[j])
    ensures OrderedBelow(keys, n, start)
  {
    if j != start {
      forall k | 1 <= k < n && Parent(k) == start && start > 0 ensures keys[Parent(start)] <= keys[k] {
        if start != j && start < n {
          assert start >= 1;
        }
      }
    }
  }

  lemma DownLeaf(keys: seq<int>, n: nat, start: nat, j: nat)
    requires n <= |keys| && OrderedExcept(keys, n, j) && start <= j < n && 2 * j + 1 >= n
    requires j == start || keys[Parent(j)] <= keys[j]
    ensures OrderedBelow(keys, n, start)
  {
    DownDone(keys, n, start, j);
  }

  lemma DownSettled(keys: seq<int>, n: nat, start: nat, j: nat, c: nat)
    requires n <= |keys| && OrderedExcept(keys, n, j) && start <= j && SmallerChild(keys, n, j, c) && keys[j] <= keys[c]
    requires j == start || keys[Parent(j)] <= keys[j]
    ensures OrderedBelow(keys, n, start)
  {
    DownDone(keys, n, start, j);
  }

  lemma OrderedAnywhere(keys: seq<int>, n: nat, j: nat)
    requires n <= |keys| && Ordered(keys, n)
    ensures OrderedExcept(keys, n, j)
  {
    ChangedKey(keys, keys, n, j);
  }
}
