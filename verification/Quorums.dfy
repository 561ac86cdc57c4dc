/** Majorities, and the largest index that a majority has reached. */
module Quorums {
  import opened Collections

  function QuorumSize(n: nat): nat { n / 2 + 1 }

  predicate IsMajority(q: set<int>, members: set<int>) {
    q <= members && |q| >= QuorumSize(|members|)
  }

  lemma MajoritiesMeet(a: set<int>, b: set<int>, members: set<int>) returns (x: int)
    requires IsMajority(a, members) && IsMajority(b, members)
    ensures x in a && x in b
  {
    SubsetSize(a + b, members);
    assert |a + b| == |a| + |b| - |a * b|;
    x := Member(a * b);
  }

  // The peers whose recorded index is at least v.
  function Reached(indexes: map<int, int>, v: int): set<int> {
    set i | i in indexes && indexes[i] >= v
  }

  // v is reached by a majority, and nothing larger is.
  ghost predicate IsQuorumIndex(indexes: map<int, int>, v: int) {
    && IsMajority(Reached(indexes, v), indexes.Keys)
    && forall w :: w > v ==> !IsMajority(Reached(indexes, w), indexes.Keys)
  }

  lemma QuorumIndexUnique(indexes: map<int, int>, v: int, w: int)
    requires IsQuorumIndex(indexes, v) && IsQuorumIndex(indexes, w)
    ensures v == w
  {
  }

  ghost function QuorumIndex(indexes: map<int, int>): (v: int)
    requires indexes != map[]
    ensures IsQuorumIndex(indexes, v)
  {
    QuorumIndexExists(indexes);
    var v :| IsQuorumIndex(indexes, v); v
  }

  // ---- Sorting in descending order ----

  predicate Descending(s: seq<int>) {
    forall i, j :: 0 <= i < j < |s| ==> s[i] >= s[j]
  }

  function InsertDescending(x: int, s: seq<int>): (r: seq<int>)
    requires Descending(s)
    ensures Descending(r) && multiset(r) == multiset(s) + multiset{x}
    ensures forall y :: y in r ==> y == x || y in s
  {
    if s == [] || x >= s[0] then
      InFront(x, s);
      [x] + s
    else
      assert s == [s[0]] + s[1..];
      var t := InsertDescending(x, s[1..]);
      assert t != [] ==> t[0] in t;
      InFront(s[0], t);
      [s[0]] + t
  }

  lemma InFront(x: int, s: seq<int>)
    requires Descending(s) && (s != [] ==> x >= s[0])
    ensures Descending([x] + s) && multiset([x] + s) == multiset(s) + multiset{x}
    ensures forall y :: y in [x] + s ==> y == x || y in s
  {
  }

  function SortDescending(s: seq<int>): (r: seq<int>)
    ensures Descending(r) && multiset(r) == multiset(s)
    ensures |r| == |s|
  {
    if s == [] then []
    else
      assert s == [s[0]] + s[1..];
      var r := InsertDescending(s[0], SortDescending(s[1..]));
      assert |multiset(r)| == |multiset(s)|;
      r
  }

  // ---- Counting, on lists and on maps ----

  function CountAtLeast(s: seq<int>, v: int): nat {
    if s == [] then 0 else (if s[0] >= v then 1 else 0) + CountAtLeast(s[1..], v)
  }

  lemma {:induction false} CountSplit(a: seq<int>, b: seq<int>, v: int)
    ensures CountAtLeast(a + b, v) == CountAtLeast(a, v) + CountAtLeast(b, v)
  {
    if a == [] {
      assert a + b == b;
    } else {
      CountSplit(a[1..], b, v);
      assert (a + b)[1..] == a[1..] + b;
    }
  }

  lemma {:induction false} CountPermutation(s: seq<int>, t: seq<int>, v: int)
    requires multiset(s) == multiset(t)
    ensures CountAtLeast(s, v) == CountAtLeast(t, v)
  {
    if s == [] {
      assert |multiset(t)| == 0;
    } else {
      assert s == [s[0]] + s[1..];
      assert s[0] in multiset(t);
      var k :| 0 <= k < |t| && t[k] == s[0];
      CountWithout(t, k, v);
      CountPermutation(s[1..], t[..k] + t[k + 1..], v);
    }
  }

  lemma CountWithout(t: seq<int>, k: nat, v: int)
    requires k < |t|
    ensures multiset(t[..k] + t[k + 1..]) == multiset(t) - multiset{t[k]}
    ensures CountAtLeast(t, v) == CountAtLeast(t[..k] + t[k + 1..], v) + if t[k] >= v then 1 else 0
  {
    assert t == t[..k] + ([t[k]] + t[k + 1..]);
    CountSplit(t[..k], [t[k]] + t[k + 1..], v);
    CountSplit([t[k]], t[k + 1..], v);
    CountSplit(t[..k], t[k + 1..], v);
  }

  // In a descending list, at least k+1 elements reach the k-th, and at most k exceed it.
  lemma {:induction false} CountDescending(s: seq<int>, k: nat, w: int)
    requires Descending(s) && k < |s|
    ensures w <= s[k] ==> CountAtLeast(s, w) >= k + 1
    ensures w > s[k] ==> CountAtLeast(s, w) <= k
  {
    if k == 0 {
      if w > s[0] {
        CountNone(s, w);
      }
    } else {
      CountDescending(s[1..], k - 1, w);
    }
  }

  lemma {:induction false} CountNone(s: seq<int>, w: int)
    requires forall j :: 0 <= j < |s| ==> s[j] < w
    ensures CountAtLeast(s, w) == 0
  {
    if s != [] {
      CountNone(s[1..], w);
    }
  }

  // values lists the indexes of keys in some order, each peer once.
  predicate Lists(values: seq<int>, keys: seq<int>, indexes: map<int, int>) {
    && |values| == |keys|
    && (forall j :: 0 <= j < |keys| ==> keys[j] in indexes && values[j] == indexes[keys[j]])
    && (forall i, j :: 0 <= i < j < |keys| ==> keys[i] != keys[j])
  }

  lemma {:induction false} CountReached(values: seq<int>, keys: seq<int>, indexes: map<int, int>, v: int)
    requires Lists(values, keys, indexes)
    ensures |set i | i in keys && i in indexes && indexes[i] >= v| == CountAtLeast(values, v)
    decreases |keys|
  {
    if keys != [] {
      CountReached(values[1..], keys[1..], indexes, v);
      var all := set i | i in keys && i in indexes && indexes[i] >= v;
      var rest := set i | i in keys[1..] && i in indexes && indexes[i] >= v;
      assert keys == [keys[0]] + keys[1..];
      assert keys[0] !in rest;
      assert all == if values[0] >= v then rest + {keys[0]} else rest;
    }
  }

  // So many of the values listed reach v as there are peers that do.
  lemma ReachedCount(values: seq<int>, keys: seq<int>, indexes: map<int, int>, v: int)
    requires Lists(values, keys, indexes) && forall i :: i in indexes ==> i in keys
    ensures CountAtLeast(values, v) == |Reached(indexes, v)|
  {
    CountReached(values, keys, indexes, v);
    var listed := set i | i in keys && i in indexes && indexes[i] >= v;
    assert forall i :: i in listed <==> i in Reached(indexes, v);
    assert listed == Reached(indexes, v);
  }

  /** Sorting the recorded indexes in descending order and taking position q-1
      gives the largest index that a majority has reached. */
  lemma SortedPosition(values: seq<int>, keys: seq<int>, indexes: map<int, int>)
    requires Lists(values, keys, indexes)
    requires indexes != map[] && |keys| == |indexes|
    requires forall i :: i in indexes ==> i in keys
    ensures IsQuorumIndex(indexes, SortDescending(values)[QuorumSize(|indexes|) - 1])
  {
    var sorted := SortDescending(values);
    var k := QuorumSize(|indexes|) - 1;
    assert |indexes| == |indexes.Keys|;
    forall w ensures w <= sorted[k] <==> IsMajority(Reached(indexes, w), indexes.Keys) {
      CountDescending(sorted, k, w);
      CountPermutation(sorted, values, w);
      ReachedCount(values, keys, indexes, w);
    }
  }

  lemma QuorumIndexExists(indexes: map<int, int>)
    requires indexes != map[]
    ensures exists v :: IsQuorumIndex(indexes, v)
  {
    var keys := Enumerate(indexes.Keys);
    assert |indexes| == |indexes.Keys|;
    var values := seq(|keys|, j requires 0 <= j < |keys| => if keys[j] in indexes then indexes[keys[j]] else 0);
    SortedPosition(values, keys, indexes);
  }

  lemma {:induction false} Enumerate(s: set<int>) returns (keys: seq<int>)
    ensures |keys| == |s|
    ensures forall i :: i in keys <==> i in s
    ensures forall i, j :: 0 <= i < j < |keys| ==> keys[i] != keys[j]
    decreases s
  {
    if s == {} {
      keys := [];
    } else {
      var x := Member(s);
      var rest := Enumerate(s - {x});
      keys := [x] + rest;
    }
  }
}
