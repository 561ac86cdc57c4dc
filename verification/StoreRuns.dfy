/** Every sequence of store operations and expirations: errors change nothing, each success
    adds one event under the next index, and the map stays one that a tree can have. */
module StoreRuns {
  import opened Collections
  import opened StoreNodes
  import opened StoreModel
  import opened EventHistories
  import opened WatcherHubs

  datatype StoreOp =
    | CreateOp(p: Path, dir: bool, value: string, expire: Time)
    | SetOp(p: Path, dir: bool, value: string, expire: Time)
    | UpdateOp(p: Path, value: string, expire: Time)
    | SwapOp(p: Path, prevValue: string, prevIndex: int, value: string, expire: Time)
    | DeleteOp(p: Path, dir: bool, recursive: bool)
    | CompareDeleteOp(p: Path, prevValue: string, prevIndex: int)

  ghost function Perform(f: Flat, op: StoreOp): (Flat, Result) {
    match op
    case CreateOp(p, dir, value, expire) => Create(f, p, dir, value, false, expire, CreateAction)
    case SetOp(p, dir, value, expire) => Create(f, p, dir, value, true, expire, SetAction)
    case UpdateOp(p, value, expire) => Update(f, p, value, expire)
    case SwapOp(p, pv, pi, value, expire) => CompareAndSwap(f, p, pv, pi, value, expire)
    case DeleteOp(p, dir, recursive) => Delete(f, p, dir, recursive)
    case CompareDeleteOp(p, pv, pi) => CompareAndDelete(f, p, pv, pi)
  }

  /** An error leaves everything as it was; a success adds exactly one event, whose index is
      the new index of the store. */
  lemma OneEvent(f: Flat, op: StoreOp)
    ensures var (f', r) := Perform(f, op);
            && (r.Err? ==> f' == f)
            && (r.Ok? ==> f'.index == f.index + 1 && f'.events == f.events + [r.event] && r.event.index == f'.index &&
                          r.event.key == op.p)
  {
  }

  lemma CreateKeepsClosed(f: Flat, p: Path, item: Item, action: Action)
    requires PrefixClosed(f.items) && p != [] && CreateError(f.items, p, true) == Nothing
    ensures PrefixClosed(Created(f, p, item, action).0.items)
  {
    var made := WithDirs(f.items, p, f.index + 1);
    var now := made[p := item];
    DirsAdded(f.items, p, |p| - 1, f.index + 1);
    FileAboveMeans(f.items, p);
    forall q | q in now ensures Hangs(now, q) {
      if q == p || q !in f.items {
        if q != [] {
          var k := |q| - 1;
          assert q[..k] == p[..k];
          assert p[..k] in made && made[p[..k]].isDir;
        }
      } else {
        assert Hangs(f.items, q);
      }
    }
  }

  lemma RemoveKeepsClosed(items: map<Path, Item>, p: Path)
    requires PrefixClosed(items) && p != []
    ensures PrefixClosed(Without(items, p))
  {
    var now := Without(items, p);
    forall q | q in now ensures Hangs(now, q) {
      assert Hangs(items, q);
      if q != [] {
        assert p <= q[..|q| - 1] ==> p <= q;
      }
    }
  }

  lemma ChangeKeepsClosed(items: map<Path, Item>, p: Path, item: Item)
    requires PrefixClosed(items) && p in items && p != [] && item.isDir == items[p].isDir
    ensures PrefixClosed(items[p := item])
  {
    forall q | q in items ensures Hangs(items[p := item], q) {
      assert Hangs(items, q);
    }
  }

  /** The map stays prefix-closed: the root is a directory, and so is whatever has something
      below it. */
  lemma PerformKeepsClosed(f: Flat, op: StoreOp)
    requires PrefixClosed(f.items)
    ensures PrefixClosed(Perform(f, op).0.items)
  {
    if Perform(f, op).1.Ok? {
      var p := op.p;
      match op {
        case CreateOp(_, dir, value, expire) =>
          CreateKeepsClosed(f, p, Item(dir, if dir then "" else value, f.index + 1, f.index + 1, Expiration(expire)),
            CreateAction);
        case SetOp(_, dir, value, expire) =>
          CreateKeepsClosed(f, p, Item(dir, if dir then "" else value, f.index + 1, f.index + 1, Expiration(expire)),
            SetAction);
        case UpdateOp(_, value, expire) =>
          ChangeKeepsClosed(f.items, p, Touch(f.items[p], value, f.index + 1, expire));
        case SwapOp(_, _, _, value, expire) =>
          ChangeKeepsClosed(f.items, p, Touch(f.items[p], value, f.index + 1, expire));
        case DeleteOp(_, _, _) => RemoveKeepsClosed(f.items, p);
        case CompareDeleteOp(_, _, _) => RemoveKeepsClosed(f.items, p);
      }
    }
  }

  // ---- Runs ----

  // What the store goes through: a request, or the expiration of nodes up to a time.
  datatype Step = Request(op: StoreOp) | Expiring(cutoff: Time, order: seq<Path>)

  ghost function Take(f: Flat, s: Step): Flat {
    match s
    case Request(op) => Perform(f, op).0
    case Expiring(cutoff, order) => Expire(f, cutoff, order)
  }

  ghost function TakeAll(f: Flat, steps: seq<Step>): Flat
    decreases |steps|
  {
    if steps == [] then f else TakeAll(Take(f, steps[0]), steps[1..])
  }

  // What event k took out: nothing, except by deletion or expiration; a comparing deletion
  // takes out one file only.
  ghost predicate Accounted(f: Flat, k: int)
    requires |f.gone| == |f.events| && 0 <= k < |f.events|
  {
    && (f.gone[k] != {} ==> f.events[k].action in {DeleteAction, CompareDeleteAction, ExpireAction})
    && (f.events[k].action == CompareDeleteAction ==> f.gone[k] == {f.events[k].key})
  }

  ghost predicate Sound(f: Flat) {
    && f.index == |f.events| && (forall k :: 0 <= k < |f.events| ==> f.events[k].index == k + 1)
    && PrefixClosed(f.items) && GoneBelow(f.events, f.gone)
    && forall k {:trigger Accounted(f, k)} :: 0 <= k < |f.events| ==> Accounted(f, k)
  }

  // One more event under the next index.
  lemma OneMoreSound(f: Flat, f': Flat, e: Event, g: set<Path>)
    requires Sound(f) && PrefixClosed(f'.items)
    requires f'.index == f.index + 1 && f'.events == f.events + [e] && f'.gone == f.gone + [g] && e.index == f'.index
    requires forall p :: p in g ==> e.key <= p
    requires g != {} ==> e.action in {DeleteAction, CompareDeleteAction, ExpireAction}
    requires e.action == CompareDeleteAction ==> g == {e.key}
    ensures Sound(f')
  {
    forall k | 0 <= k < |f'.events| ensures Accounted(f', k) {
      assert k < |f.events| ==> Accounted(f, k);
    }
  }

  // Below a file there is nothing.
  lemma FileAlone(items: map<Path, Item>, p: Path)
    requires PrefixClosed(items) && p in items && !items[p].isDir
    ensures Within(items, p) == {p}
  {
    forall q | q in items && p <= q ensures q == p {
      assert q[..|p|] == p;
      if |p| < |q| {
        PrefixIn(items, q, |p|);
      } else {
        assert q == q[..|p|];
      }
    }
  }

  lemma PerformSound(f: Flat, op: StoreOp)
    requires Sound(f)
    ensures Sound(Perform(f, op).0)
  {
    var (f', r) := Perform(f, op);
    if r.Ok? {
      OneEvent(f, op);
      PerformKeepsClosed(f, op);
      if op.CompareDeleteOp? {
        FileAlone(f.items, op.p);
      }
      OneMoreSound(f, f', r.event, f'.gone[|f.gone|]);
    }
  }

  lemma {:induction false} ExpireSound(f: Flat, cutoff: Time, order: seq<Path>)
    requires Sound(f)
    ensures Sound(Expire(f, cutoff, order))
    decreases |order|
  {
    if order != [] {
      var n := |order| - 1;
      var g := Expire(f, cutoff, order[..n]);
      ExpireSound(f, cutoff, order[..n]);
      if order[n] in g.items && Due(g.items[order[n]], cutoff) {
        var p := order[n];
        RemoveKeepsClosed(g.items, p);
        OneMoreSound(g, Removed(g, p, ExpireAction).0, Removed(g, p, ExpireAction).1.event, Within(g.items, p));
      }
    }
  }

  /** After any requests and expirations on a new store, the events carry the indexes 1, 2,
      3, ... up to the store's index, the map is prefix-closed, and only deletions and
      expirations have taken paths out, each at its own key and below. */
  lemma {:induction false} EventsNumbered(f: Flat, steps: seq<Step>)
    requires Sound(f)
    ensures var f' := TakeAll(f, steps);
            Sound(f') && Consecutive(f'.events)
    decreases |steps|
  {
    if steps != [] {
      match steps[0] {
        case Request(op) => PerformSound(f, op);
        case Expiring(cutoff, order) => ExpireSound(f, cutoff, order);
      }
      EventsNumbered(Take(f, steps[0]), steps[1..]);
    }
  }

  lemma EmptySound()
    ensures Sound(EMPTY_FLAT)
  {
  }

  /** In every run, what parts a plain watch from a scan is the deletion or expiration of a
      directory above the watched path. */
  lemma OnlyRemovalsAbove(steps: seq<Step>, q: Query, k: nat)
    requires var f := TakeAll(EMPTY_FLAT, steps);
             |f.gone| == |f.events| && k < |f.events| && RemovedAbove(q, f.events[k], f.gone[k])
    ensures var e := TakeAll(EMPTY_FLAT, steps).events[k];
            e.action in {DeleteAction, ExpireAction} && e.key < q.key
  {
    EmptySound();
    EventsNumbered(EMPTY_FLAT, steps);
    assert Accounted(TakeAll(EMPTY_FLAT, steps), k);
  }

  /** A plain watch on /foo/bar is told when /foo is deleted, and a scan does not find that. */
  lemma ToldButNotFound()
    ensures var q := Query(["foo", "bar"], false, 2);
            var f := TakeAll(EMPTY_FLAT,
              [Request(CreateOp(q.key, false, "v", PERMANENT)), Request(DeleteOp(["foo"], true, true))]);
            && |f.events| == |f.gone| == 2 && Consecutive(f.events)
            && FirstTaken(f.events, f.gone, 1, q) == Just(f.events[1]) && f.events[1].key == ["foo"]
            && Search(f.events, 2, q.key, q.recursive, q.since) == Scanned(Nothing)
  {
    var p, d: Path := ["foo", "bar"], ["foo"];
    var create, delete := CreateOp(p, false, "v", PERMANENT), DeleteOp(d, true, true);
    var f1 := CreatedFooBar(p, d);
    var f2 := Perform(f1, delete).0;
    TwoSteps(EMPTY_FLAT, Request(create), Request(delete));
    assert d <= p && p in Within(f1.items, d);
    assert FirstFrom(f2.events, 2, p, false) == Nothing;
  }

  /** A recursive watch on /foo is not told when the hidden /foo/_x is created, and a scan finds
      that. */
  lemma FoundButNotTold()
    ensures var q := Query(["foo"], true, 1);
            var f := TakeAll(EMPTY_FLAT, [Request(CreateOp(["foo", "_x"], false, "v", PERMANENT))]);
            && |f.events| == |f.gone| == 1 && Consecutive(f.events)
            && FirstTaken(f.events, f.gone, 0, q) == Nothing && f.events[0].key == ["foo", "_x"]
            && Search(f.events, 1, q.key, q.recursive, q.since) == Scanned(Just(f.events[0]))
  {
    var p: Path := ["foo", "_x"];
    var q := Query(["foo"], true, 1);
    var op := CreateOp(p, false, "v", PERMANENT);
    var f := Perform(EMPTY_FLAT, op).0;
    FileAboveMeans(EMPTY_FLAT.items, p);
    assert p[..0] == [] && p[..1] == q.key;
    assert [Request(op)][1..] == [];
    assert TakeAll(EMPTY_FLAT, [Request(op)]) == TakeAll(f, []) == f;
    assert p[1] != "" && p[1][0] == '_';
    assert IsHidden(q.key, p) && q.key <= p;
    assert FirstTaken(f.events, f.gone, 1, q) == Nothing;
  }

  lemma TwoSteps(f: Flat, a: Step, b: Step)
    ensures TakeAll(f, [a, b]) == Take(Take(f, a), b)
  {
    assert [a, b][1..] == [b] && [b][1..] == [];
    assert TakeAll(Take(f, a), [b]) == TakeAll(Take(Take(f, a), b), []);
  }

  lemma CreatedFooBar(p: Path, d: Path) returns (f: Flat)
    requires p == ["foo", "bar"] && d == ["foo"]
    ensures f == Perform(EMPTY_FLAT, CreateOp(p, false, "v", PERMANENT)).0
    ensures f.index == 1 && |f.events| == |f.gone| == 1 && f.events[0].key == p && f.events[0].index == 1
    ensures p in f.items && d in f.items && f.items[d].isDir
  {
    f := Perform(EMPTY_FLAT, CreateOp(p, false, "v", PERMANENT)).0;
    FileAboveMeans(EMPTY_FLAT.items, p);
    assert p[..0] == [] && p[..1] == d;
    DirsAdded(EMPTY_FLAT.items, p, 1, 1);
  }
}
