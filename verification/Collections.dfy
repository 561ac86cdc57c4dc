/** Small facts about finite sets and sequences. */
module Collections {

  datatype Option<T> = Nothing | Just(value: T)

  lemma Member<T>(s: set<T>) returns (x: T)
    requires s != {}
    ensures x in s
  {
    x :| x in s;
  }

  /** Takes some element of a set, as ranging over a map does: any order may come out. */
  method TakeAny<T>(s: set<T>) returns (x: T)
    requires s != {}
    ensures x in s
  {
    x :| x in s;
  }

  lemma {:induction false} SubsetSize<T>(a: set<T>, b: set<T>)
    requires a <= b
    ensures |a| <= |b|
  {
    if a != {} {
      var x := Member(a);
      SubsetSize(a - {x}, b - {x});
    }
  }

  lemma ShorterPrefix<T>(a: seq<T>, b: seq<T>, hi: nat, k: nat)
    requires k <= hi <= |a| && hi <= |b| && a[..hi] == b[..hi]
    ensures a[..k] == b[..k]
  {
    assert a[..k] == a[..hi][..k] && b[..k] == b[..hi][..k];
  }

  lemma SameMembers(a: set<int>, b: set<int>)
    requires forall i :: i in a <==> i in b
    ensures a == b
  {
    forall i | i in a ensures i in b {
    }
    assert a <= b;
    forall i | i in b ensures i in a {
    }
    assert b <= a;
  }

  // A stretch of s that reads a + b reads a and then b.
  lemma SplitAt<T>(s: seq<T>, i: nat, a: seq<T>, b: seq<T>)
    requires i + |a| + |b| <= |s| && s[i..i + |a| + |b|] == a + b
    ensures s[i..i + |a|] == a
    ensures s[i + |a|..i + |a| + |b|] == b
  {
    var both := s[i..i + |a| + |b|];
    assert s[i..i + |a|] == both[..|a|];
    assert s[i + |a|..i + |a| + |b|] == both[|a|..];
  }

  // Where the pieces of a concatenation stand.
  lemma Pieces<T>(a: seq<T>, x: T, b: seq<T>, c: seq<T>)
    ensures var s := a + [x] + b + c;
            && s[0..|a|] == a && s[|a|] == x
            && s[|a| + 1..|a| + 1 + |b|] == b && s[|a| + 1 + |b|..] == c
  {
  }

  lemma Reassemble<T>(s: seq<T>, p: nat, x: T, b: seq<T>, c: seq<T>)
    requires p + 1 + |b| <= |s| && s[p] == x && s[p + 1..p + 1 + |b|] == b && s[p + 1 + |b|..] == c
    ensures s[p..|s|] == [x] + b + c
  {
    assert s[p..|s|] == [s[p]] + s[p + 1..p + 1 + |b|] + s[p + 1 + |b|..];
  }

  lemma Assoc<T>(a: seq<T>, b: seq<T>, c: seq<T>)
    ensures a + (b + c) == a + b + c
  {
  }

  // Moving the head of t over to the end of s.
  lemma MoveHead<T>(s: seq<T>, t: seq<T>)
    requires t != []
    ensures s + [t[0]] + t[1..] == s + t
  {
  }

  lemma CutAt<T>(s: seq<T>, k: nat)
    requires k <= |s|
    ensures s == s[..k] + s[k..]
    ensures k == |s| ==> s[..k] == s
    ensures k < |s| ==> s[..k + 1] == s[..k] + [s[k]]
  {
  }

  lemma SameAt<T>(a: seq<T>, b: seq<T>, hi: nat, k: nat)
    requires k < hi <= |a| && hi <= |b| && a[..hi] == b[..hi]
    ensures a[k] == b[k]
  {
    assert a[k] == a[..hi][k] == b[..hi][k] == b[k];
  }

  lemma PrefixTake<T>(a: seq<T>, b: seq<T>)
    requires a <= b
    ensures |a| <= |b| && b[..|a|] == a
  {
  }

  lemma SameTake<T>(a: seq<T>, b: seq<T>, n: nat)
    requires (a <= b || b <= a) && n <= |a| && n <= |b|
    ensures a[..n] == b[..n]
  {
  }

  lemma TakeTake<T>(s: seq<T>, j: nat, i: nat)
    requires i <= j <= |s|
    ensures s[..j][..i] == s[..i]
  {
  }

  // Looking up a position of a[..u] + b[v..].
  lemma JoinedAt<T>(a: seq<T>, u: nat, b: seq<T>, v: nat, k: nat)
    requires u <= |a| && v <= |b| && k < u + |b| - v
    ensures (a[..u] + b[v..])[k] == if k < u then a[k] else b[v + k - u]
  {
  }

  lemma AddOne<T>(s: set<T>, x: T)
    requires x !in s
    ensures multiset(s + {x}) == multiset(s) + multiset({x})
  {
  }

  // Every entry of a is an entry of b.
  ghost predicate Sub<K, V>(a: map<K, V>, b: map<K, V>) {
    a.Keys <= b.Keys && forall k :: k in a ==> b[k] == a[k]
  }
}
