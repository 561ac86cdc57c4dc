/** The store as a flat map from paths to files and directories, with its index and the list
    of all events: what each operation of the tree does, said without the tree. */
module StoreModel {
  import opened Collections
  import opened StoreNodes

  datatype Item = Item(isDir: bool, value: string, created: int, modified: int, expire: Time)

  datatype Action = CreateAction | SetAction | UpdateAction | SwapAction | DeleteAction | CompareDeleteAction
      | ExpireAction

  // index is the event's, created the node's; prev is the node before the change.
  datatype Event = Event(action: Action, key: Path, index: int, created: int, prev: Option<Item>)

  datatype ErrorCode =
    | KeyNotFound | TestFailed | NotFile | NotDir | NodeExist | RootROnly | DirNotEmpty

  datatype Result = Ok(event: Event) | Err(code: ErrorCode)

  // gone[k] is what event k took out of the map, whose watchers are told of it.
  datatype Flat = Flat(items: map<Path, Item>, index: int, events: seq<Event>, gone: seq<set<Path>>)

  const EMPTY_FLAT := Flat(map[[] := Item(true, "", 0, 0, PERMANENT)], 0, [], [])

  // Times before 2000-01-01 count as permanent when a node is created (nanoseconds since the zero time).
  const MIN_EXPIRE_TIME: Time := 63082281600_000000000

  function Expiration(t: Time): Time { if t < MIN_EXPIRE_TIME then PERMANENT else t }

  // ---- Looking up ----

  datatype Lookup = Found | Missing(code: ErrorCode)

  // A file above the path makes it no directory; otherwise a missing path is not found.
  predicate FileAbove(items: map<Path, Item>, p: Path) {
    p != [] && var up := p[..|p| - 1]; (up in items && !items[up].isDir) || FileAbove(items, up)
  }

  lemma {:induction false} FileAboveMeans(items: map<Path, Item>, p: Path)
    ensures FileAbove(items, p) <==> exists k :: 0 <= k < |p| && p[..k] in items && !items[p[..k]].isDir
  {
    if p != [] {
      var up := p[..|p| - 1];
      FileAboveMeans(items, up);
      forall k | 0 <= k < |up| ensures up[..k] == p[..k] {
      }
      assert up == p[..|up|];
      if FileAbove(items, up) {
        var k :| 0 <= k < |up| && up[..k] in items && !items[up[..k]].isDir;
        assert p[..k] in items && !items[p[..k]].isDir;
      }
    }
  }

  ghost function Get(items: map<Path, Item>, p: Path): Lookup {
    if p in items then Found else Missing(if FileAbove(items, p) then NotDir else KeyNotFound)
  }

  // What the tree looks like as a map: the root is there, and every node hangs in a directory.
  ghost predicate PrefixClosed(items: map<Path, Item>) {
    && [] in items && items[[]].isDir && items[[]].expire == PERMANENT
    && forall p {:trigger Hangs(items, p)} :: p in items ==> Hangs(items, p)
  }

  ghost predicate Hangs(items: map<Path, Item>, p: Path) {
    p == [] || (p[..|p| - 1] in items && items[p[..|p| - 1]].isDir)
  }

  // ---- Creating ----

  function NewDir(index: int): Item { Item(true, "", index, index, PERMANENT) }

  // The directories on the way to p, up to its first i components, made where missing.
  function DirsUpTo(items: map<Path, Item>, p: Path, i: nat, index: int): map<Path, Item>
    requires i <= |p|
  {
    if i == 0 then items
    else
      var made := DirsUpTo(items, p, i - 1, index);
      if p[..i] in made then made else made[p[..i] := NewDir(index)]
  }

  function WithDirs(items: map<Path, Item>, p: Path, index: int): map<Path, Item>
    requires p != []
  {
    DirsUpTo(items, p, |p| - 1, index)
  }

  /** Exactly the missing directories above p are added, and nothing else changes. */
  lemma {:induction false} DirsAdded(items: map<Path, Item>, p: Path, i: nat, index: int)
    requires i <= |p| && [] in items
    ensures var now := DirsUpTo(items, p, i, index);
            && (forall q :: q in items ==> q in now && now[q] == items[q])
            && (forall q :: q in now && q !in items ==> |q| <= i && q == p[..|q|] && now[q] == NewDir(index))
            && (forall k :: 0 <= k <= i ==> p[..k] in now)
  {
    if i == 0 {
      assert p[..0] == [];
    } else {
      DirsAdded(items, p, i - 1, index);
    }
  }

  lemma {:induction false} NoneMissing(items: map<Path, Item>, p: Path, i: nat, index: int)
    requires PrefixClosed(items) && p in items && i <= |p|
    ensures DirsUpTo(items, p, i, index) == items
  {
    if i > 0 {
      NoneMissing(items, p, i - 1, index);
      PrefixIn(items, p, i);
    }
  }

  lemma {:induction false} PrefixIn(items: map<Path, Item>, p: Path, k: nat)
    requires PrefixClosed(items) && p in items && k <= |p|
    ensures p[..k] in items && (k < |p| ==> items[p[..k]].isDir)
    decreases |p|
  {
    if k == |p| {
      assert p[..k] == p;
    } else {
      assert Hangs(items, p);
      var up := p[..|p| - 1];
      if k < |up| {
        assert up[..k] == p[..k];
        PrefixIn(items, up, k);
      } else {
        assert p[..k] == up;
      }
    }
  }

  // Making the directories above p does not touch p, and makes none if p is there.
  lemma DirsKeepTarget(items: map<Path, Item>, p: Path, index: int)
    requires p != [] && PrefixClosed(items)
    ensures var now := WithDirs(items, p, index);
            (p in now <==> p in items) && (p in items ==> now == items)
  {
    DirsAdded(items, p, |p| - 1, index);
    if p in items {
      NoneMissing(items, p, |p| - 1, index);
    }
  }

  // Why nothing can be created at p: a file above it, or what is already there.
  ghost function CreateError(items: map<Path, Item>, p: Path, replace: bool): Option<ErrorCode> {
    if FileAbove(items, p) then Just(NotDir)
    else if p in items && !replace then Just(NodeExist)
    else if p in items && items[p].isDir then Just(NotFile)
    else Nothing
  }

  ghost function Create(f: Flat, p: Path, dir: bool, value: string, replace: bool, expire: Time,
                        action: Action): (Flat, Result) {
    if p == [] then (f, Err(RootROnly))
    else if CreateError(f.items, p, replace).Just? then (f, Err(CreateError(f.items, p, replace).value))
    else Created(f, p, Item(dir, if dir then "" else value, f.index + 1, f.index + 1, Expiration(expire)), action)
  }

  lemma CreateCases(f: Flat, p: Path, dir: bool, value: string, replace: bool, expire: Time, action: Action)
    requires p != []
    ensures var why := CreateError(f.items, p, replace);
            var item := Item(dir, if dir then "" else value, f.index + 1, f.index + 1, Expiration(expire));
            Create(f, p, dir, value, replace, expire, action) ==
            if why.Just? then (f, Err(why.value)) else Created(f, p, item, action)
  {
  }

  lemma CreateCasesBlocked(f: Flat, p: Path, dir: bool, value: string, expire: Time)
    requires FileAbove(f.items, p)
    ensures Create(f, p, dir, value, true, expire, SetAction) == (f, Err(NotDir))
  {
  }

  function Created(f: Flat, p: Path, item: Item, action: Action): (Flat, Result)
    requires p != []
  {
    var e := Event(action, p, f.index + 1, f.index + 1, if p in f.items then Just(f.items[p]) else Nothing);
    (Flat(WithDirs(f.items, p, f.index + 1)[p := item], f.index + 1, f.events + [e], f.gone + [{}]), Ok(e))
  }

  // ---- Changing ----

  // A directory has no value and keeps its index.
  function Written(item: Item, value: string, index: int): Item {
    if item.isDir then item else item.(value := value, modified := index)
  }

  function Touch(item: Item, value: string, index: int, expire: Time): Item {
    Written(item, value, index).(expire := expire)
  }

  function Changed(f: Flat, p: Path, value: string, expire: Time, action: Action): (Flat, Result)
    requires p in f.items
  {
    var next := f.index + 1;
    var e := Event(action, p, next, f.items[p].created, Just(f.items[p]));
    (Flat(f.items[p := Touch(f.items[p], value, next, expire)], next, f.events + [e], f.gone + [{}]), Ok(e))
  }

  ghost function Update(f: Flat, p: Path, value: string, expire: Time): (Flat, Result) {
    if p == [] then (f, Err(RootROnly))
    else if p !in f.items then (f, Err(Get(f.items, p).code))
    else if f.items[p].isDir && value != "" then (f, Err(NotFile))
    else Changed(f, p, value, expire, UpdateAction)
  }

  // Both tests must pass; a zero index and an empty value are no test.
  predicate Matches(item: Item, prevValue: string, prevIndex: int) {
    (prevIndex == 0 || item.modified == prevIndex) && (prevValue == "" || item.value == prevValue)
  }

  ghost function CompareAndSwap(f: Flat, p: Path, prevValue: string, prevIndex: int, value: string,
                                expire: Time): (Flat, Result) {
    if p == [] then (f, Err(RootROnly))
    else if p !in f.items then (f, Err(Get(f.items, p).code))
    else if f.items[p].isDir then (f, Err(NotFile))
    else if !Matches(f.items[p], prevValue, prevIndex) then (f, Err(TestFailed))
    else Changed(f, p, value, expire, SwapAction)
  }

  // ---- Deleting ----

  ghost function Without(items: map<Path, Item>, p: Path): map<Path, Item> {
    map q | q in items && !(p <= q) :: items[q]
  }

  ghost function Within(items: map<Path, Item>, p: Path): set<Path> {
    set q | q in items && p <= q
  }

  ghost predicate HasChild(items: map<Path, Item>, p: Path) {
    exists q {:trigger q in items} :: q in items && p < q
  }

  ghost function Removed(f: Flat, p: Path, action: Action): (Flat, Result)
    requires p in f.items
  {
    var next := f.index + 1;
    var e := Event(action, p, next, f.items[p].created, Just(f.items[p]));
    (Flat(Without(f.items, p), next, f.events + [e], f.gone + [Within(f.items, p)]), Ok(e))
  }

  // Recursive implies dir.
  ghost function Delete(f: Flat, p: Path, dir: bool, recursive: bool): (Flat, Result) {
    if p == [] then (f, Err(RootROnly))
    else if p !in f.items then (f, Err(Get(f.items, p).code))
    else if f.items[p].isDir && !dir && !recursive then (f, Err(NotFile))
    else if f.items[p].isDir && HasChild(f.items, p) && !recursive then (f, Err(DirNotEmpty))
    else Removed(f, p, DeleteAction)
  }

  ghost function CompareAndDelete(f: Flat, p: Path, prevValue: string, prevIndex: int): (Flat, Result) {
    if p !in f.items then (f, Err(Get(f.items, p).code))
    else if f.items[p].isDir then (f, Err(NotFile))
    else if !Matches(f.items[p], prevValue, prevIndex) then (f, Err(TestFailed))
    else Removed(f, p, CompareDeleteAction)
  }

  // ---- Expiring ----

  predicate Due(item: Item, cutoff: Time) {
    item.expire != PERMANENT && item.expire <= cutoff
  }

  // The node itself or one above it is due.
  ghost predicate Doomed(items: map<Path, Item>, cutoff: Time, q: Path) {
    exists k :: 0 <= k <= |q| && q[..k] in items && Due(items[q[..k]], cutoff)
  }

  ghost function Survivors(items: map<Path, Item>, cutoff: Time): map<Path, Item> {
    map q | q in items && !Doomed(items, cutoff, q) :: items[q]
  }

  // Of all nodes that expire, none expires before p, and p is due.
  ghost predicate FirstDue(items: map<Path, Item>, cutoff: Time, p: Path) {
    && p in items && Due(items[p], cutoff)
    && forall q {:trigger q in items} :: q in items && items[q].expire != PERMANENT ==>
       items[p].expire <= items[q].expire
  }

  // The nodes in that order removed, each with everything below it, as far as they are due.
  ghost function Expire(f: Flat, cutoff: Time, order: seq<Path>): Flat
    decreases |order|
  {
    if order == [] then f
    else
      var n := |order| - 1;
      var g := Expire(f, cutoff, order[..n]);
      if order[n] in g.items && Due(g.items[order[n]], cutoff) then Removed(g, order[n], ExpireAction).0 else g
  }

  // The order is one in which nodes can expire: always one that is due and first.
  ghost predicate ExpireOrder(f: Flat, cutoff: Time, order: seq<Path>)
    decreases |order|
  {
    order == [] ||
    var n := |order| - 1;
    ExpireOrder(f, cutoff, order[..n]) && FirstDue(Expire(f, cutoff, order[..n]).items, cutoff, order[n])
  }

  lemma ExpireOneMore(f: Flat, cutoff: Time, order: seq<Path>, p: Path)
    requires ExpireOrder(f, cutoff, order) && FirstDue(Expire(f, cutoff, order).items, cutoff, p)
    ensures ExpireOrder(f, cutoff, order + [p])
    ensures Expire(f, cutoff, order + [p]) == Removed(Expire(f, cutoff, order), p, ExpireAction).0
  {
    assert (order + [p])[..|order|] == order;
  }

  // Some of what is doomed has gone, and nothing else.
  ghost predicate Reaped(before: map<Path, Item>, cutoff: Time, items: map<Path, Item>) {
    Sub(items, before) && forall q {:trigger Doomed(before, cutoff, q)} :: q in before && q !in items ==>
      Doomed(before, cutoff, q)
  }

  lemma ReapOne(before: map<Path, Item>, cutoff: Time, items: map<Path, Item>, p: Path)
    requires Reaped(before, cutoff, items) && p in items && Due(items[p], cutoff)
    ensures Reaped(before, cutoff, Without(items, p))
  {
    forall q | q in before && q !in Without(items, p) ensures Doomed(before, cutoff, q) {
      if q in items {
        assert q[..|p|] == p;
      }
    }
  }

  /** With nothing due left, exactly the nodes that are not doomed remain, whatever the order
      of removal was. */
  lemma ReapedAll(before: map<Path, Item>, cutoff: Time, items: map<Path, Item>)
    requires Reaped(before, cutoff, items) && PrefixClosed(items)
    requires forall q :: q in items ==> !Due(items[q], cutoff)
    ensures items == Survivors(before, cutoff)
  {
    forall q | q in items ensures !Doomed(before, cutoff, q) {
      forall k | 0 <= k <= |q| && q[..k] in before ensures !Due(before[q[..k]], cutoff) {
        PrefixIn(items, q, k);
      }
    }
    forall q | q in before && !Doomed(before, cutoff, q) ensures q in items {
    }
  }
}
