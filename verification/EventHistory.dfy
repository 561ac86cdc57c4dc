/** The ring buffer of recent events and its scan: a jump to the position of an index, then a
    walk around the ring, against a linear search in the list of all events. */
module EventHistories {
  import opened Collections
  import opened StoreNodes
  import opened StoreModel

  predicate Interests(key: Path, recursive: bool, e: Event) {
    e.key == key || (recursive && key <= e.key)
  }

  // The first event from position k on that matters to a watcher.
  function FirstFrom(all: seq<Event>, k: nat, key: Path, recursive: bool): Option<Event>
    decreases |all| - k
  {
    if k >= |all| then Nothing
    else if Interests(key, recursive, all[k]) then Just(all[k])
    else FirstFrom(all, k + 1, key, recursive)
  }

  // Each event's index is one above the index before it.
  predicate Consecutive(all: seq<Event>) {
    forall k :: 0 <= k < |all| ==> all[k].index == all[0].index + k
  }

  datatype ScanResult = IndexCleared | Scanned(event: Option<Event>)

  /** What a scan finds: an error below the first retained index, and otherwise the first
      event of interest with at least the given index. */
  ghost function Search(all: seq<Event>, kept: nat, key: Path, recursive: bool, index: int): ScanResult
    requires kept <= |all| && (all != [] ==> kept > 0) && Consecutive(all)
  {
    if all == [] then Scanned(Nothing)
    else if index < all[|all| - kept].index then IndexCleared
    else if index > all[|all| - 1].index then Scanned(Nothing)
    else Scanned(FirstFrom(all, index - all[0].index, key, recursive))
  }

  // Positions on the ring stay below twice its size, so one subtraction wraps them.
  lemma WrapOnce(x: nat, n: nat)
    requires 0 < n && x < 2 * n
    ensures x % n == if x < n then x else x - n
  {
    if x >= n {
      assert x == n + (x - n);
    }
  }

  function Wrap(x: nat, n: nat): nat { if x < n then x else x - n }

  // The k-th retained event sits k slots behind the front.
  ghost predicate InRing(ring: seq<Event>, front: nat, size: nat, all: seq<Event>, k: int) {
    && 0 <= k < size <= |all| && front + k < 2 * |ring|
    && ring[Wrap(front + k, |ring|)] == all[|all| - size + k]
  }

  ghost predicate RingOk(ring: seq<Event>, front: nat, size: nat, all: seq<Event>) {
    forall k {:trigger InRing(ring, front, size, all, k)} :: 0 <= k < size ==> InRing(ring, front, size, all, k)
  }

  // The ring with one more event, behind the others or over the oldest.
  lemma RoomLeft(ring: seq<Event>, front: nat, size: nat, all: seq<Event>, e: Event)
    requires front < |ring| && size < |ring| && size == |all| && RingOk(ring, front, size, all)
    ensures RingOk(ring[Wrap(front + size, |ring|) := e], front, size + 1, all + [e])
  {
    var after, n, now := ring[Wrap(front + size, |ring|) := e], size + 1, all + [e];
    forall k | 0 <= k < n ensures InRing(after, front, n, now, k) {
      assert k < size ==> InRing(ring, front, size, all, k);
    }
  }

  lemma RingFull(ring: seq<Event>, front: nat, all: seq<Event>, e: Event)
    requires front < |ring| <= |all| && RingOk(ring, front, |ring|, all)
    ensures RingOk(ring[front := e], Wrap(front + 1, |ring|), |ring|, all + [e])
  {
    var after, first, now := ring[front := e], Wrap(front + 1, |ring|), all + [e];
    forall k | 0 <= k < |ring| ensures InRing(after, first, |ring|, now, k) {
      assert k < |ring| - 1 ==> InRing(ring, front, |ring|, all, k + 1);
    }
  }

  lemma OneMoreIndex(all: seq<Event>, e: Event)
    requires Consecutive(all) && (all != [] ==> e.index == all[|all| - 1].index + 1)
    ensures Consecutive(all + [e])
  {
  }

  class EventHistory {
    const capacity: nat
    const ring: array<Event>
    var size: nat
    var front: nat
    var back: nat
    var startIndex: int
    var lastIndex: int
    ghost var all: seq<Event>

    ghost predicate Slot(k: int)
      reads this`size, this`front, this`all, ring
    {
      InRing(ring[..], front, size, all, k)
    }

    ghost predicate Valid()
      reads this, ring
    {
      && capacity > 0 && ring.Length == capacity && front < capacity && back < capacity
      && size == (if |all| < capacity then |all| else capacity)
      && back == Wrap(front + size, capacity)
      && (forall k {:trigger Slot(k)} :: 0 <= k < size ==> Slot(k))
      && Consecutive(all)
      && (all != [] ==> startIndex == all[|all| - size].index && lastIndex == all[|all| - 1].index)
      && (all == [] ==> startIndex == 0 && lastIndex == 0)
    }

    constructor (capacity: nat, blank: Event)
      requires capacity > 0
      ensures Valid() && all == [] && this.capacity == capacity && fresh(ring)
    {
      this.capacity := capacity;
      ring := new Event[capacity](i => blank);
      size, front, back, startIndex, lastIndex := 0, 0, 0, 0, 0;
      all := [];
    }

    /** addEvent: overwrites the oldest event once the ring is full. */
    method AddEvent(e: Event)
      requires Valid() && (all != [] ==> e.index == lastIndex + 1)
      modifies this, ring
      ensures Valid() && all == old(all) + [e]
    {
      Insert(e);
      lastIndex := e.index;
      assert InRing(ring[..], front, size, all, 0);
      startIndex := ring[front].index;
      forall k | 0 <= k < size ensures Slot(k) {
        assert InRing(ring[..], front, size, all, k);
      }
    }

    // The slot behind slot i.
    function Next(i: nat): (j: nat)
      requires i < capacity
      ensures j == Wrap(i + 1, capacity)
    {
      WrapOnce(i + 1, capacity);
      (i + 1) % capacity
    }

    // eventQueue.insert
    method Insert(e: Event)
      requires Valid() && (all != [] ==> e.index == lastIndex + 1)
      modifies this`size, this`front, this`back, this`all, ring
      ensures capacity > 0 && ring.Length == capacity && front < capacity && back < capacity
      ensures all == old(all) + [e] && Consecutive(all)
      ensures size == (if |all| < capacity then |all| else capacity) && back == Wrap(front + size, capacity)
      ensures RingOk(ring[..], front, size, all)
    {
      ghost var was := ring[..];
      assert RingOk(was, front, size, all) by {
        forall k | 0 <= k < size ensures InRing(was, front, size, all, k) {
          assert Slot(k);
        }
      }
      ring[back] := e;
      assert ring[..] == was[back := e];
      back := Next(back);
      if size == capacity {
        RingFull(was, front, all, e);
        front := Next(front);
      } else {
        RoomLeft(was, front, size, all, e);
        size := size + 1;
      }
      OneMoreIndex(all, e);
      all := all + [e];
    }

    /** scan: the modular jump and walk find what the linear search finds. */
    method Scan(key: Path, recursive: bool, index: int) returns (r: ScanResult)
      requires Valid() && index >= 1
      ensures r == Search(all, size, key, recursive, index)
    {
      if index < startIndex {
        return IndexCleared;
      }
      if index > lastIndex {
        return Scanned(Nothing);
      }
      var offset := index - startIndex;
      WrapOnce(front + offset, capacity);
      assert all[|all| - size + offset].index == index;
      var e := Walk((front + offset) % capacity, offset, key, recursive);
      return Scanned(e);
    }

    // From slot k on, around the ring until the position behind the last event.
    method Walk(start: nat, ghost slot: nat, key: Path, recursive: bool) returns (found: Option<Event>)
      requires Valid() && slot < size && start == Wrap(front + slot, capacity)
      ensures found == FirstFrom(all, |all| - size + slot, key, recursive)
    {
      var i := start;
      ghost var k := slot;
      while true
        invariant 0 <= k < size && i == Wrap(front + k, capacity)
        invariant FirstFrom(all, |all| - size + k, key, recursive) ==
                  FirstFrom(all, |all| - size + slot, key, recursive)
        decreases size - k
      {
        assert Slot(k);
        var e := ring[i];
        if e.key == key || (recursive && key <= e.key) {
          return Just(e);
        }
        i := Next(i);
        k := k + 1;
        if i == back {
          return Nothing;
        }
      }
    }
  }

  // The first event of interest, said without recursion.
  lemma {:induction false} FirstFromIsFirst(all: seq<Event>, k: nat, key: Path, recursive: bool)
    ensures match FirstFrom(all, k, key, recursive)
            case Nothing => forall j :: k <= j < |all| ==> !Interests(key, recursive, all[j])
            case Just(e) => exists j :: k <= j < |all| && all[j] == e && Interests(key, recursive, e) &&
                              forall i :: k <= i < j ==> !Interests(key, recursive, all[i])
    decreases |all| - k
  {
    if k < |all| && !Interests(key, recursive, all[k]) {
      FirstFromIsFirst(all, k + 1, key, recursive);
      if FirstFrom(all, k, key, recursive).Just? {
        var e := FirstFrom(all, k, key, recursive).value;
        var j :| k + 1 <= j < |all| && all[j] == e && Interests(key, recursive, e) &&
                 forall i :: k + 1 <= i < j ==> !Interests(key, recursive, all[i]);
        assert k <= j < |all|;
      }
    }
  }

  // Event j is at the key, or below it if all below are asked for, and has at least the index.
  predicate Answers(all: seq<Event>, j: nat, key: Path, recursive: bool, index: int)
    requires j < |all|
  {
    all[j].index >= index && (all[j].key == key || (recursive && key <= all[j].key))
  }

  /** A scan reports the index as cleared if and only if an event with a later index is the oldest
      one kept; otherwise it finds the first event that answers, and nothing if none does. */
  lemma SearchMeans(all: seq<Event>, kept: nat, key: Path, recursive: bool, index: int)
    requires kept <= |all| && (all != [] ==> kept > 0) && Consecutive(all)
    ensures match Search(all, kept, key, recursive, index)
            case IndexCleared => all != [] && index < all[|all| - kept].index
            case Scanned(Nothing) =>
              && (all != [] ==> index >= all[|all| - kept].index)
              && forall j :: 0 <= j < |all| ==> !Answers(all, j, key, recursive, index)
            case Scanned(Just(e)) =>
              && all != [] && index >= all[|all| - kept].index
              && exists j :: && 0 <= j < |all| && all[j] == e && Answers(all, j, key, recursive, index)
                             && forall i :: 0 <= i < j ==> !Answers(all, i, key, recursive, index)
  {
    if all != [] && all[|all| - kept].index <= index <= all[|all| - 1].index {
      var k := index - all[0].index;
      FirstFromIsFirst(all, k, key, recursive);
      assert forall j :: 0 <= j < |all| ==> (all[j].index >= index <==> j >= k);
      if FirstFrom(all, k, key, recursive).Just? {
        FirstAnswers(all, k, key, recursive, index);
      }
    }
  }

  lemma FirstAnswers(all: seq<Event>, k: nat, key: Path, recursive: bool, index: int)
    requires FirstFrom(all, k, key, recursive).Just?
    requires forall j :: 0 <= j < |all| ==> (all[j].index >= index <==> j >= k)
    ensures exists j :: && 0 <= j < |all| && all[j] == FirstFrom(all, k, key, recursive).value
                        && Answers(all, j, key, recursive, index)
                        && forall i :: 0 <= i < j ==> !Answers(all, i, key, recursive, index)
  {
    FirstFromIsFirst(all, k, key, recursive);
    var e := FirstFrom(all, k, key, recursive).value;
    var j :| k <= j < |all| && all[j] == e && Interests(key, recursive, e) &&
             forall i :: k <= i < j ==> !Interests(key, recursive, all[i]);
    assert Answers(all, j, key, recursive, index);
  }
}
