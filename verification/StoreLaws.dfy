/** What clients of the store rely on: when each request succeeds and with which error it fails,
    what it leaves behind field by field, that what was written is read back, and that of two
    swaps that expect the same index at most one succeeds. */
module StoreLaws {
  import opened Collections
  import opened StoreNodes
  import opened StoreModel
  import opened StoreRuns

  // Some directory component of p is a file.
  ghost predicate Blocked(items: map<Path, Item>, p: Path) {
    exists k :: 0 <= k < |p| && p[..k] in items && !items[p[..k]].isDir
  }

  // Every path but p has what it had.
  ghost predicate OnlyAt(f: Flat, f': Flat, p: Path) {
    f'.items.Keys == f.items.Keys && forall q :: q in f.items && q != p ==> f'.items[q] == f.items[q]
  }

  // The event of a success: its index is the store's new one, and it tells what was there before;
  // with it goes what is no longer there.
  ghost predicate Recorded(f: Flat, f': Flat, e: Event, p: Path, created: int) {
    && f'.index == f.index + 1 && f'.events == f.events + [e] && e.key == p && e.index == f.index + 1
    && e.created == created && e.prev == (if p in f.items then Just(f.items[p]) else Nothing)
    && f'.gone == f.gone + [f.items.Keys - f'.items.Keys]
  }

  // ---- Update and compare-and-swap ----

  // Both conditions hold, as far as they are given.
  predicate Expected(item: Item, prevValue: string, prevIndex: int) {
    (prevIndex != 0 ==> item.modified == prevIndex) && (prevValue != "" ==> item.value == prevValue)
  }

  // A file has the new value, time and index; a directory the new time only.
  ghost predicate Wrote(f: Flat, f': Flat, p: Path, value: string, expire: Time) {
    && p in f.items && OnlyAt(f, f', p)
    && (!f.items[p].isDir ==> f'.items[p] == Item(false, value, f.items[p].created, f.index + 1, expire))
    && (f.items[p].isDir ==>
          f'.items[p] == Item(true, f.items[p].value, f.items[p].created, f.items[p].modified, expire))
  }

  /** Update succeeds if and only if the path is there, is not the root, and is no directory that
      is given a value. */
  lemma UpdateMeans(f: Flat, p: Path, value: string, expire: Time)
    ensures var (f', r) := Perform(f, UpdateOp(p, value, expire));
            && (r.Ok? <==> p != [] && p in f.items && (f.items[p].isDir ==> value == ""))
            && (r.Ok? ==> Wrote(f, f', p, value, expire) && Recorded(f, f', r.event, p, f.items[p].created))
            && (r.Ok? ==> r.event.action == UpdateAction)
            && (r.Err? ==>
                  r.code == if p == [] then RootROnly else if p in f.items then NotFile
                            else if Blocked(f.items, p) then NotDir else KeyNotFound)
  {
    FileAboveMeans(f.items, p);
    assert f.items.Keys - Perform(f, UpdateOp(p, value, expire)).0.items.Keys == {};
  }

  /** A swap succeeds if and only if the path is a file that has the value and the index that
      are expected; if it is a file that has not, the test is reported as failed. */
  lemma SwapMeans(f: Flat, p: Path, prevValue: string, prevIndex: int, value: string, expire: Time)
    ensures var (f', r) := Perform(f, SwapOp(p, prevValue, prevIndex, value, expire));
            && (r.Ok? <==> p != [] && p in f.items && !f.items[p].isDir && Expected(f.items[p], prevValue, prevIndex))
            && (r.Ok? ==> Wrote(f, f', p, value, expire) && Recorded(f, f', r.event, p, f.items[p].created))
            && (r.Ok? ==> r.event.action == SwapAction)
            && (r == Err(TestFailed) <==>
                  p != [] && p in f.items && !f.items[p].isDir && !Expected(f.items[p], prevValue, prevIndex))
            && (r.Err? && r.code != TestFailed ==>
                  r.code == if p == [] then RootROnly else if p in f.items then NotFile
                            else if Blocked(f.items, p) then NotDir else KeyNotFound)
  {
    FileAboveMeans(f.items, p);
    assert f.items.Keys - Perform(f, SwapOp(p, prevValue, prevIndex, value, expire)).0.items.Keys == {};
  }

  // ---- Create and set ----

  // Times before 2000-01-01 stand for no expiration.
  function Lasting(t: Time): Time { if t < 63082281600_000000000 then PERMANENT else t }

  // p is new, with the directories above it that were missing; everything else is as it was.
  ghost predicate Made(f: Flat, f': Flat, p: Path, dir: bool, value: string, expire: Time) {
    && p in f'.items
    && f'.items[p] == Item(dir, if dir then "" else value, f.index + 1, f.index + 1, Lasting(expire))
    && (forall q :: q in f.items && q != p ==> q in f'.items && f'.items[q] == f.items[q])
    && (forall q :: q in f'.items && q !in f.items && q != p ==>
          q < p && f'.items[q] == Item(true, "", f.index + 1, f.index + 1, PERMANENT))
    && (forall k :: 0 <= k <= |p| ==> p[..k] in f'.items)
  }

  lemma CreatedMeans(f: Flat, p: Path, item: Item, action: Action)
    requires p != [] && [] in f.items
    ensures var (f', r) := Created(f, p, item, action);
            && r.Ok? && p in f'.items && f'.items[p] == item
            && (forall q :: q in f.items && q != p ==> q in f'.items && f'.items[q] == f.items[q])
            && (forall q :: q in f'.items && q !in f.items && q != p ==>
                  q < p && f'.items[q] == Item(true, "", f.index + 1, f.index + 1, PERMANENT))
            && (forall k :: 0 <= k <= |p| ==> p[..k] in f'.items)
  {
    DirsAdded(f.items, p, |p| - 1, f.index + 1);
    assert p[..|p|] == p;
  }

  lemma NoneLost(f: Flat, p: Path, dir: bool, value: string, expire: Time, replace: bool)
    requires [] in f.items
    ensures var f' := Create(f, p, dir, value, replace, expire, if replace then SetAction else CreateAction).0;
            f.items.Keys - f'.items.Keys == {}
  {
    if p != [] {
      DirsAdded(f.items, p, |p| - 1, f.index + 1);
    }
  }

  lemma GoneKeys(f: Flat, p: Path)
    ensures f.items.Keys - Without(f.items, p).Keys == Within(f.items, p)
  {
  }

  /** Create succeeds if and only if the path is free, is not the root and lies in no file; set
      also if the path is a file, which it replaces. */
  lemma CreateMeans(f: Flat, p: Path, dir: bool, value: string, expire: Time, replace: bool)
    requires PrefixClosed(f.items)
    ensures var op := if replace then SetOp(p, dir, value, expire) else CreateOp(p, dir, value, expire);
            var (f', r) := Perform(f, op);
            && (r.Ok? <==> p != [] && !Blocked(f.items, p) && (p in f.items ==> replace && !f.items[p].isDir))
            && (r.Ok? ==> Made(f, f', p, dir, value, expire) && Recorded(f, f', r.event, p, f.index + 1))
            && (r.Ok? ==> r.event.action == if replace then SetAction else CreateAction)
            && (r.Err? ==>
                  r.code == if p == [] then RootROnly else if Blocked(f.items, p) then NotDir
                            else if replace then NotFile else NodeExist)
  {
    FileAboveMeans(f.items, p);
    NoneLost(f, p, dir, value, expire, replace);
    if p != [] {
      var item := Item(dir, if dir then "" else value, f.index + 1, f.index + 1, Expiration(expire));
      CreateCases(f, p, dir, value, replace, expire, if replace then SetAction else CreateAction);
      CreatedMeans(f, p, item, if replace then SetAction else CreateAction);
    }
  }

  // ---- Delete and compare-and-delete ----

  // p and everything below it is gone; everything else is as it was.
  ghost predicate Gone(f: Flat, f': Flat, p: Path) {
    && (forall q :: q in f'.items <==> q in f.items && !(p <= q))
    && (forall q :: q in f'.items ==> f'.items[q] == f.items[q])
  }

  /** Delete succeeds if and only if the path is there, is not the root, and is a file, or a
      directory that is to be deleted as one and is empty or to be deleted with its contents. */
  lemma DeleteMeans(f: Flat, p: Path, dir: bool, recursive: bool)
    ensures var (f', r) := Perform(f, DeleteOp(p, dir, recursive));
            var full := exists q {:trigger q in f.items} :: q in f.items && p < q;
            && (r.Ok? <==> p != [] && p in f.items && (f.items[p].isDir ==> recursive || (dir && !full)))
            && (r.Ok? ==> Gone(f, f', p) && Recorded(f, f', r.event, p, f.items[p].created))
            && (r.Ok? ==> r.event.action == DeleteAction)
            && (r.Err? ==>
                  r.code == if p == [] then RootROnly
                            else if p in f.items then if dir then DirNotEmpty else NotFile
                            else if Blocked(f.items, p) then NotDir else KeyNotFound)
  {
    FileAboveMeans(f.items, p);
    GoneKeys(f, p);
  }

  /** A comparing deletion succeeds if and only if the path is a file that has the value and the
      index that are expected. */
  lemma CompareDeleteMeans(f: Flat, p: Path, prevValue: string, prevIndex: int)
    ensures var (f', r) := Perform(f, CompareDeleteOp(p, prevValue, prevIndex));
            && (r.Ok? <==> p in f.items && !f.items[p].isDir && Expected(f.items[p], prevValue, prevIndex))
            && (r.Ok? ==> Gone(f, f', p) && Recorded(f, f', r.event, p, f.items[p].created))
            && (r.Ok? ==> r.event.action == CompareDeleteAction)
            && (r == Err(TestFailed) <==>
                  p in f.items && !f.items[p].isDir && !Expected(f.items[p], prevValue, prevIndex))
            && (r.Err? && r.code != TestFailed ==>
                  r.code == if p in f.items then NotFile else if Blocked(f.items, p) then NotDir else KeyNotFound)
  {
    FileAboveMeans(f.items, p);
    GoneKeys(f, p);
  }

  // ---- Reading back ----

  predicate Removes(action: Action) { action in {DeleteAction, CompareDeleteAction, ExpireAction} }

  // The event may change what is at p: it is at p, or takes out p or something above it.
  predicate Touches(e: Event, p: Path) { e.key == p || (Removes(e.action) && e.key <= p) }

  // None of the events from the n-th on touches p.
  ghost predicate Untouched(events: seq<Event>, n: nat, p: Path) {
    forall k {:trigger events[k]} :: n <= k < |events| ==> !Touches(events[k], p)
  }

  // What is at p stays, if the event that is added does not touch it.
  ghost predicate KeptBy(f: Flat, f': Flat, p: Path) {
    && f.events <= f'.events
    && (p in f.items && Untouched(f'.events, |f.events|, p) ==> p in f'.items && f'.items[p] == f.items[p])
  }

  lemma RequestKeeps(f: Flat, op: StoreOp, p: Path)
    requires PrefixClosed(f.items)
    ensures KeptBy(f, Perform(f, op).0, p)
  {
    var (f', r) := Perform(f, op);
    OneEvent(f, op);
    if r.Ok? && p in f.items && Untouched(f'.events, |f.events|, p) {
      assert !Touches(f'.events[|f.events|], p);
      match op {
        case CreateOp(q, dir, value, expire) => CreateMeans(f, q, dir, value, expire, false);
        case SetOp(q, dir, value, expire) => CreateMeans(f, q, dir, value, expire, true);
        case UpdateOp(q, value, expire) => UpdateMeans(f, q, value, expire);
        case SwapOp(q, pv, pi, value, expire) => SwapMeans(f, q, pv, pi, value, expire);
        case DeleteOp(q, dir, recursive) => DeleteMeans(f, q, dir, recursive);
        case CompareDeleteOp(q, pv, pi) => CompareDeleteMeans(f, q, pv, pi);
      }
    }
  }

  lemma KeptThen(f: Flat, g: Flat, h: Flat, p: Path)
    requires KeptBy(f, g, p) && KeptBy(g, h, p)
    ensures KeptBy(f, h, p)
  {
    if Untouched(h.events, |f.events|, p) {
      forall k | |f.events| <= k < |g.events| ensures !Touches(g.events[k], p) {
        assert h.events[k] == g.events[k];
      }
    }
  }

  lemma RemovalKeeps(f: Flat, q: Path, p: Path)
    requires q in f.items
    ensures KeptBy(f, Removed(f, q, ExpireAction).0, p)
  {
    var g := Removed(f, q, ExpireAction).0;
    if Untouched(g.events, |f.events|, p) {
      assert !Touches(g.events[|f.events|], p);
    }
  }

  lemma {:induction false} ExpireKeeps(f: Flat, cutoff: Time, order: seq<Path>, p: Path)
    ensures KeptBy(f, Expire(f, cutoff, order), p)
    decreases |order|
  {
    if order != [] {
      var n := |order| - 1;
      var g := Expire(f, cutoff, order[..n]);
      ExpireKeeps(f, cutoff, order[..n], p);
      if order[n] in g.items && Due(g.items[order[n]], cutoff) {
        RemovalKeeps(g, order[n], p);
        KeptThen(f, g, Removed(g, order[n], ExpireAction).0, p);
      }
    }
  }

  /** What is at a path stays there through any requests and expirations, until one of them
      succeeds at that very path or takes out the path or something above it. */
  lemma {:induction false} StaysUntilTouched(f: Flat, steps: seq<Step>, p: Path)
    requires Sound(f)
    ensures KeptBy(f, TakeAll(f, steps), p)
    decreases |steps|
  {
    if steps != [] {
      var g := Take(f, steps[0]);
      match steps[0] {
        case Request(op) =>
          PerformSound(f, op);
          RequestKeeps(f, op, p);
        case Expiring(cutoff, order) =>
          ExpireSound(f, cutoff, order);
          ExpireKeeps(f, cutoff, order, p);
      }
      StaysUntilTouched(g, steps[1..], p);
      KeptThen(f, g, TakeAll(g, steps[1..]), p);
    }
  }

  // The value a request writes to a file.
  function Writes(op: StoreOp): Option<string> {
    match op
    case CreateOp(_, dir, value, _) => if dir then Nothing else Just(value)
    case SetOp(_, dir, value, _) => if dir then Nothing else Just(value)
    case UpdateOp(_, value, _) => Just(value)
    case SwapOp(_, _, _, value, _) => Just(value)
    case _ => Nothing
  }

  lemma WriteLands(f: Flat, op: StoreOp, v: string)
    requires PrefixClosed(f.items) && Perform(f, op).1.Ok? && Writes(op) == Just(v)
    requires op.p in f.items && f.items[op.p].isDir ==> v != ""
    ensures var f' := Perform(f, op).0;
            && op.p in f'.items && !f'.items[op.p].isDir && f'.items[op.p].value == v
            && f'.items[op.p].modified == f'.index
  {
    match op
    case CreateOp(q, dir, value, expire) => CreateMeans(f, q, dir, value, expire, false);
    case SetOp(q, dir, value, expire) => CreateMeans(f, q, dir, value, expire, true);
    case UpdateOp(q, value, expire) => UpdateMeans(f, q, value, expire);
    case SwapOp(q, pv, pi, value, expire) => SwapMeans(f, q, pv, pi, value, expire);
  }

  /** What was written is read back: after any run, a write that succeeds, and any further run in
      which no event touches the path, the path holds the value written. Only an update without
      a value may instead have met a directory. */
  lemma ReadsBack(before: seq<Step>, op: StoreOp, v: string, later: seq<Step>)
    requires Writes(op) == Just(v)
    requires var f := TakeAll(EMPTY_FLAT, before);
             && Perform(f, op).1.Ok? && (op.p in f.items && f.items[op.p].isDir ==> v != "")
             && Untouched(TakeAll(Perform(f, op).0, later).events, |f.events| + 1, op.p)
    ensures var end := TakeAll(Perform(TakeAll(EMPTY_FLAT, before), op).0, later);
            op.p in end.items && !end.items[op.p].isDir && end.items[op.p].value == v
  {
    EmptySound();
    EventsNumbered(EMPTY_FLAT, before);
    var f := TakeAll(EMPTY_FLAT, before);
    PerformSound(f, op);
    OneEvent(f, op);
    WriteLands(f, op, v);
    StaysUntilTouched(Perform(f, op).0, later, op.p);
  }

  // ---- At most one swap ----

  // Nothing is stamped with an index beyond the store's.
  ghost predicate Stamped(f: Flat) { forall q :: q in f.items ==> f.items[q].modified <= f.index }

  // Whatever is at p was written after index k.
  predicate Newer(f: Flat, p: Path, k: int) { f.index > k && (p in f.items ==> f.items[p].modified > k) }

  // What changes at a path is stamped with the new index; what is new is, too.
  ghost predicate Restamps(f: Flat, f': Flat) {
    && f'.index >= f.index
    && forall q :: q in f'.items ==>
         || (q in f.items && f'.items[q].modified == f.items[q].modified)
         || f'.items[q].modified == f'.index == f.index + 1
  }

  lemma RequestStamps(f: Flat, op: StoreOp)
    requires PrefixClosed(f.items)
    ensures Restamps(f, Perform(f, op).0)
  {
    OneEvent(f, op);
    match op
    case CreateOp(q, dir, value, expire) => CreateMeans(f, q, dir, value, expire, false);
    case SetOp(q, dir, value, expire) => CreateMeans(f, q, dir, value, expire, true);
    case UpdateOp(q, value, expire) => UpdateMeans(f, q, value, expire);
    case SwapOp(q, pv, pi, value, expire) => SwapMeans(f, q, pv, pi, value, expire);
    case DeleteOp(q, dir, recursive) => DeleteMeans(f, q, dir, recursive);
    case CompareDeleteOp(q, pv, pi) => CompareDeleteMeans(f, q, pv, pi);
  }

  lemma {:induction false} ExpireStamps(f: Flat, cutoff: Time, order: seq<Path>)
    ensures var g := Expire(f, cutoff, order);
            g.index >= f.index && forall q :: q in g.items ==> q in f.items && g.items[q] == f.items[q]
    decreases |order|
  {
    if order != [] {
      ExpireStamps(f, cutoff, order[..|order| - 1]);
    }
  }

  lemma StepStamps(f: Flat, s: Step, p: Path, k: int)
    requires PrefixClosed(f.items)
    ensures Stamped(f) ==> Stamped(Take(f, s))
    ensures Newer(f, p, k) ==> Newer(Take(f, s), p, k)
  {
    match s
    case Request(op) => RequestStamps(f, op);
    case Expiring(cutoff, order) => ExpireStamps(f, cutoff, order);
  }

  lemma {:induction false} RunStamps(f: Flat, steps: seq<Step>, p: Path, k: int)
    requires Sound(f)
    ensures Stamped(f) ==> Stamped(TakeAll(f, steps))
    ensures Newer(f, p, k) ==> Newer(TakeAll(f, steps), p, k)
    decreases |steps|
  {
    if steps != [] {
      StepStamps(f, steps[0], p, k);
      match steps[0] {
        case Request(op) => PerformSound(f, op);
        case Expiring(cutoff, order) => ExpireSound(f, cutoff, order);
      }
      RunStamps(Take(f, steps[0]), steps[1..], p, k);
    }
  }

  /** Of two swaps at the same path that expect the same index, at most one succeeds, whatever
      happens before and between them. */
  lemma OneSwapWins(before: seq<Step>, a: StoreOp, between: seq<Step>, b: StoreOp)
    requires a.SwapOp? && b.SwapOp? && a.p == b.p && a.prevIndex == b.prevIndex != 0
    requires Perform(TakeAll(EMPTY_FLAT, before), a).1.Ok?
    ensures Perform(TakeAll(Perform(TakeAll(EMPTY_FLAT, before), a).0, between), b).1.Err?
  {
    EmptySound();
    EventsNumbered(EMPTY_FLAT, before);
    RunStamps(EMPTY_FLAT, before, a.p, 0);
    var f := TakeAll(EMPTY_FLAT, before);
    var g := Perform(f, a).0;
    SwapMeans(f, a.p, a.prevValue, a.prevIndex, a.value, a.expire);
    assert Newer(g, a.p, a.prevIndex);
    PerformSound(f, a);
    RunStamps(g, between, a.p, a.prevIndex);
    SwapMeans(TakeAll(g, between), b.p, b.prevValue, b.prevIndex, b.value, b.expire);
  }

  // ---- Expiring ----

  /** What survives an expiration is what has no time, or a later one than the cutoff, at the path
      itself and all the way up. */
  lemma SurvivesMeans(items: map<Path, Item>, cutoff: Time, q: Path)
    ensures q in Survivors(items, cutoff) <==>
              q in items && forall k :: 0 <= k <= |q| && q[..k] in items ==>
                items[q[..k]].expire == PERMANENT || items[q[..k]].expire > cutoff
    ensures q in Survivors(items, cutoff) ==> Survivors(items, cutoff)[q] == items[q]
  {
  }
}
