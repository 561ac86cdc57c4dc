/** Watchers: what each receives while events happen, and exactly when a later scan of the
    history finds the same. One-shot watchers only; none is removed by its client. */
module WatcherHubs {
  import opened Collections
  import opened StoreNodes
  import opened StoreModel
  import opened EventHistories

  // A component that begins with an underscore, below the watched path.
  predicate IsHidden(watch: Path, key: Path) {
    |watch| <= |key| && exists k :: |watch| <= k < |key| && key[k] != "" && key[k][0] == '_'
  }

  datatype Query = Query(key: Path, recursive: bool, since: int)

  // What a watcher on its list makes of an event; deleted says that its path has just gone.
  predicate Heeds(q: Query, e: Event, deleted: bool) {
    && (q.key == e.key || !IsHidden(q.key, e.key))
    && (q.recursive || q.key == e.key || deleted) && e.index >= q.since
  }

  class Watcher {
    const query: Query
    ghost const joined: nat       // how many events there were when the watch began
    var received: Option<Event>

    constructor (query: Query, ghost joined: nat)
      ensures this.query == query && this.joined == joined && received == Nothing
    {
      this.query, this.joined, received := query, joined, Nothing;
    }

    /** watcher.notify: whether the watcher takes the event, which goes into its channel. */
    method Notify(e: Event, original: bool, deleted: bool) returns (taken: bool)
      requires received == Nothing
      modifies this`received
      ensures taken == ((query.recursive || original || deleted) && e.index >= query.since)
      ensures received == if taken then Just(e) else Nothing
    {
      if (query.recursive || original || deleted) && e.index >= query.since {
        received := Just(e);
        return true;
      }
      return false;
    }
  }

  // The event is at the watched path, or below it and not hidden from the watcher.
  predicate Meant(q: Query, e: Event) {
    e.key == q.key || (q.recursive && q.key <= e.key && !IsHidden(q.key, e.key))
  }

  // gone is what the event took out of the tree: watchers of those paths are told as well.
  predicate Takes(q: Query, e: Event, gone: set<Path>) {
    e.index >= q.since && (Meant(q, e) || q.key in gone)
  }

  ghost function FirstTaken(all: seq<Event>, gone: seq<set<Path>>, k: nat, q: Query): Option<Event>
    requires |gone| == |all|
    decreases |all| - k
  {
    if k >= |all| then Nothing
    else if Takes(q, all[k], gone[k]) then Just(all[k])
    else FirstTaken(all, gone, k + 1, q)
  }

  // The event is late enough, and at the watched path, or takes it out, or is below it with the
  // watch recursive and no component on the way that begins with an underscore.
  ghost predicate Concerns(q: Query, e: Event, gone: set<Path>) {
    && e.index >= q.since
    && (|| e.key == q.key || q.key in gone
        || (q.recursive && q.key <= e.key &&
            forall k :: |q.key| <= k < |e.key| && e.key[k] != "" ==> e.key[k][0] != '_'))
  }

  /** What a watcher takes is the first event that concerns it, and nothing if none does. */
  lemma {:induction false} TakenIsFirst(all: seq<Event>, gone: seq<set<Path>>, k: nat, q: Query)
    requires |gone| == |all| && k <= |all|
    ensures match FirstTaken(all, gone, k, q)
            case Nothing => forall j :: k <= j < |all| ==> !Concerns(q, all[j], gone[j])
            case Just(e) =>
              exists j :: && k <= j < |all| && e == all[j] && Concerns(q, e, gone[j])
                          && forall i :: k <= i < j ==> !Concerns(q, all[i], gone[i])
    decreases |all| - k
  {
    if k < |all| {
      TakesMeans(q, all[k], gone[k]);
      if !Takes(q, all[k], gone[k]) {
        TakenIsFirst(all, gone, k + 1, q);
      }
    }
  }

  lemma TakesMeans(q: Query, e: Event, gone: set<Path>)
    ensures Takes(q, e, gone) <==> Concerns(q, e, gone)
  {
  }

  // A watcher takes an event only if it has none yet.
  function Then(f: Option<Event>, takes: bool, e: Event): Option<Event> {
    if f == Nothing && takes then Just(e) else f
  }

  lemma {:induction false} OneMoreEvent(all: seq<Event>, gone: seq<set<Path>>, e: Event, g: set<Path>, k: nat, q: Query)
    requires |gone| == |all| && k <= |all|
    ensures FirstTaken(all + [e], gone + [g], k, q) == Then(FirstTaken(all, gone, k, q), Takes(q, e, g), e)
    decreases |all| - k
  {
    if k < |all| {
      assert (all + [e])[k] == all[k] && (gone + [g])[k] == gone[k];
      OneMoreEvent(all, gone, e, g, k + 1, q);
    } else {
      assert (all + [e])[k] == e && (gone + [g])[k] == g;
    }
  }

  // ---- Live against replayed ----

  // The watched path goes with a directory above it: told live, not found by a scan.
  predicate RemovedAbove(q: Query, e: Event, gone: set<Path>) {
    q.key in gone && e.key < q.key
  }

  // Hidden below a recursive watch: not told live, found by a scan.
  predicate HiddenBelow(q: Query, e: Event) {
    q.recursive && q.key < e.key && IsHidden(q.key, e.key)
  }

  // Event j, from the watcher's index on, parts live watching from scanning.
  predicate Disturbs(q: Query, all: seq<Event>, gone: seq<set<Path>>, j: nat)
    requires |gone| == |all| && j < |all|
  {
    all[j].index >= q.since && (RemovedAbove(q, all[j], gone[j]) || HiddenBelow(q, all[j]))
  }

  // Event i is one that both would deliver.
  predicate Settles(q: Query, all: seq<Event>, i: nat)
    requires i < |all|
  {
    all[i].index >= q.since && Meant(q, all[i])
  }

  /** From event k on, every removal of the watched path with a directory above it, and every
      event hidden below the path, happens only after an event meant for the watcher. */
  ghost predicate Undisturbed(q: Query, all: seq<Event>, gone: seq<set<Path>>, k: nat)
    requires |gone| == |all|
  {
    forall j {:trigger Disturbs(q, all, gone, j)} :: k <= j < |all| && Disturbs(q, all, gone, j) ==>
      exists i {:trigger Settles(q, all, i)} :: k <= i < j && Settles(q, all, i)
  }

  // The events took out only what lay at their key or below it.
  ghost predicate GoneBelow(all: seq<Event>, gone: seq<set<Path>>) {
    |gone| == |all| && forall k, p {:trigger p in gone[k]} :: 0 <= k < |all| && p in gone[k] ==> all[k].key <= p
  }

  lemma {:induction false} TakenLater(all: seq<Event>, gone: seq<set<Path>>, k: nat, q: Query)
    requires |gone| == |all| && Consecutive(all)
    ensures FirstTaken(all, gone, k, q).Just? ==>
              all != [] && FirstTaken(all, gone, k, q).value.index >= all[0].index + k
    decreases |all| - k
  {
    if k < |all| {
      TakenLater(all, gone, k + 1, q);
    }
  }

  lemma {:induction false} FoundLater(all: seq<Event>, k: nat, key: Path, recursive: bool)
    requires Consecutive(all)
    ensures FirstFrom(all, k, key, recursive).Just? ==>
              all != [] && FirstFrom(all, k, key, recursive).value.index >= all[0].index + k
    decreases |all| - k
  {
    if k < |all| {
      FoundLater(all, k + 1, key, recursive);
    }
  }

  // Where event k matters to neither, nothing is decided yet.
  lemma NotYet(q: Query, all: seq<Event>, gone: seq<set<Path>>, k: nat)
    requires |gone| == |all| && k < |all| && !Disturbs(q, all, gone, k) && !Settles(q, all, k)
    ensures Undisturbed(q, all, gone, k) <==> Undisturbed(q, all, gone, k + 1)
  {
    forall j | k + 1 <= j < |all| && Disturbs(q, all, gone, j)
      ensures (exists i {:trigger Settles(q, all, i)} :: k <= i < j && Settles(q, all, i)) <==>
              (exists i {:trigger Settles(q, all, i)} :: k + 1 <= i < j && Settles(q, all, i))
    {
      if i :| k <= i < j && Settles(q, all, i) {
        assert i != k;
      }
    }
  }

  /** From the watcher's index on, the first event taken live is the first event a scan finds,
      if and only if nothing disturbs the watch. */
  lemma {:induction false} SameFrom(q: Query, all: seq<Event>, gone: seq<set<Path>>, k: nat)
    requires Consecutive(all) && GoneBelow(all, gone) && (k < |all| ==> all[k].index >= q.since)
    ensures FirstTaken(all, gone, k, q) == FirstFrom(all, k, q.key, q.recursive) <==> Undisturbed(q, all, gone, k)
    decreases |all| - k
  {
    if k < |all| {
      TakenLater(all, gone, k + 1, q);
      FoundLater(all, k + 1, q.key, q.recursive);
      if Settles(q, all, k) {
        NothingFirst(q, all, gone, k);
      } else if Disturbs(q, all, gone, k) {
      } else {
        SameFrom(q, all, gone, k + 1);
        NotYet(q, all, gone, k);
      }
    }
  }

  // What settles a watch does not disturb it.
  lemma NothingFirst(q: Query, all: seq<Event>, gone: seq<set<Path>>, k: nat)
    requires |gone| == |all| && k < |all| && Settles(q, all, k)
    ensures Undisturbed(q, all, gone, k)
  {
  }

  // Before the watcher's index nothing is taken and nothing disturbs.
  lemma {:induction false} SkipTo(q: Query, all: seq<Event>, gone: seq<set<Path>>, k: nat, from: nat)
    requires Consecutive(all) && |gone| == |all| && k <= from && all != [] && from <= q.since - all[0].index
    ensures FirstTaken(all, gone, k, q) == FirstTaken(all, gone, from, q)
    ensures Undisturbed(q, all, gone, k) <==> Undisturbed(q, all, gone, from)
    decreases from - k
  {
    if k < from && k < |all| {
      SkipTo(q, all, gone, k + 1, from);
      NotYet(q, all, gone, k);
    }
  }

  // A scan over events that are of no interest goes on behind them.
  lemma {:induction false} ScanPast(all: seq<Event>, k: nat, n: nat, key: Path, recursive: bool)
    requires k <= n <= |all| && forall j {:trigger all[j]} :: k <= j < n ==> !Interests(key, recursive, all[j])
    ensures FirstFrom(all, k, key, recursive) == FirstFrom(all, n, key, recursive)
    decreases n - k
  {
    if k < n {
      ScanPast(all, k + 1, n, key, recursive);
    }
  }

  // The first n events hold nothing that a scan for the watcher would find.
  ghost predicate NothingFound(q: Query, all: seq<Event>, n: nat) {
    n <= |all| && forall j {:trigger all[j]} :: 0 <= j < n && all[j].index >= q.since ==>
      !Interests(q.key, q.recursive, all[j])
  }

  /** A watch that begins after n events receives what a scan finds if and only if it is
      undisturbed from there on. */
  lemma TakenIsScanned(q: Query, all: seq<Event>, gone: seq<set<Path>>, n: nat)
    requires Consecutive(all) && GoneBelow(all, gone) && all != [] && all[0].index <= q.since && NothingFound(q, all, n)
    ensures FirstTaken(all, gone, n, q) == FirstFrom(all, q.since - all[0].index, q.key, q.recursive) <==>
            Undisturbed(q, all, gone, n)
  {
    var from := q.since - all[0].index;
    if n <= from {
      SkipTo(q, all, gone, n, from);
      SameFrom(q, all, gone, from);
    } else {
      ScanPast(all, from, n, q.key, q.recursive);
      SameFrom(q, all, gone, n);
    }
  }

  predicate Distinct(l: seq<Watcher>) {
    forall i, j :: 0 <= i < j < |l| ==> l[i] != l[j]
  }

  lemma NotBefore(l: seq<Watcher>, i: nat)
    requires Distinct(l) && i < |l|
    ensures l[i] !in l[..i] && l[..i + 1] == l[..i] + [l[i]]
  {
  }

  class WatcherHub {
    const history: EventHistory
    var watchers: map<Path, seq<Watcher>>
    ghost var live: set<Watcher>          // every watcher that was ever put on a list
    ghost var gone: seq<set<Path>>        // what each event took out of the tree
    ghost var told: set<Path>             // the removal under way: paths whose watchers were told

    // Watcher i of the list at p waits there.
    ghost predicate OnList(p: Path, i: int)
      reads this`watchers, this`live, live`received
    {
      && p in watchers && 0 <= i < |watchers[p]| && watchers[p][i] in live
      && watchers[p][i].query.key == p && watchers[p][i].received == Nothing
    }

    // A watcher that has received nothing is on the list of its key.
    ghost predicate Waits(w: Watcher)
      reads this`watchers, w`received
    {
      w.received == Nothing ==> w.query.key in watchers && w in watchers[w.query.key]
    }

    ghost predicate ListsOk()
      reads this`watchers, this`live, live`received
    {
      && (forall p, i {:trigger OnList(p, i)} :: p in watchers && 0 <= i < |watchers[p]| ==> OnList(p, i))
      && (forall p {:trigger watchers[p]} :: p in watchers ==> Distinct(watchers[p]))
      && (forall w {:trigger Waits(w)} :: w in live ==> Waits(w))
    }

    // The watcher has received the first event it takes, or waits for one.
    ghost predicate Served(w: Watcher, all: seq<Event>, gone: seq<set<Path>>)
      requires |gone| == |all|
      reads w`received
    {
      && w.received == FirstTaken(all, gone, w.joined, w.query) && NothingFound(w.query, all, w.joined)
    }

    // While e is taking paths out: the watchers of those already gone have been told.
    ghost predicate Ahead(w: Watcher, e: Event, all: seq<Event>, gone: seq<set<Path>>)
      requires |gone| == |all|
      reads this`told, w`received
    {
      && w.received ==
         Then(FirstTaken(all, gone, w.joined, w.query), e.index >= w.query.since && w.query.key in told, e)
      && NothingFound(w.query, all, w.joined)
    }

    ghost predicate Telling(e: Event)
      reads this, history, history.ring, live`received
    {
      && history.Valid() && ListsOk() && GoneBelow(history.all, gone) && (forall p :: p in told ==> e.key <= p)
      && (forall w {:trigger Ahead(w, e, history.all, gone)} :: w in live ==> Ahead(w, e, history.all, gone))
    }

    ghost predicate Valid()
      reads this, history, history.ring, live`received
    {
      && history.Valid() && ListsOk() && GoneBelow(history.all, gone) && told == {}
      && (forall w {:trigger Served(w, history.all, gone)} :: w in live ==> Served(w, history.all, gone))
    }

    lemma NobodyTold(e: Event)
      requires Valid()
      ensures Telling(e)
    {
      forall w | w in live ensures Ahead(w, e, history.all, gone) {
        assert Served(w, history.all, gone);
      }
    }

    constructor (capacity: nat, blank: Event)
      requires capacity > 0
      ensures Valid() && live == {} && history.all == [] && gone == [] && fresh(history) && fresh(history.ring)
    {
      history := new EventHistory(capacity, blank);
      watchers, live, gone, told := map[], {}, [], {};
    }

    // What a watcher has once e went through the list of path p.
    ghost predicate Passed(p: Path, e: Event, deleted: bool, w: Watcher, was: Option<Event>)
      reads w`received
    {
      w.received == Then(was, w.query.key == p && Heeds(w.query, e, deleted), e)
    }

    // Walks the list; the watchers that do not take the event stay, in order.
    method NotifyList(l: seq<Watcher>, e: Event, p: Path, deleted: bool) returns (kept: seq<Watcher>)
      requires Distinct(l) && forall i :: 0 <= i < |l| ==> l[i].query.key == p && l[i].received == Nothing
      modifies l`received
      ensures forall i :: 0 <= i < |l| ==> Passed(p, e, deleted, l[i], Nothing)
      ensures Distinct(kept) && (forall w :: w in kept ==> w in l && w.received == Nothing)
      ensures forall i :: 0 <= i < |l| && l[i].received == Nothing ==> l[i] in kept
    {
      kept := [];
      for i := 0 to |l|
        invariant forall j :: 0 <= j < i ==> Passed(p, e, deleted, l[j], Nothing)
        invariant forall j :: i <= j < |l| ==> l[j].received == Nothing
        invariant Distinct(kept) && (forall w :: w in kept ==> w in l[..i] && w.received == Nothing)
        invariant forall j :: 0 <= j < i && l[j].received == Nothing ==> l[j] in kept
      {
        var w := l[i];
        var original := e.key == p;
        var taken := false;
        if original || !IsHidden(p, e.key) {
          taken := w.Notify(e, original, deleted);
        }
        NotBefore(l, i);
        if !taken {
          kept := kept + [w];
        }
      }
    }

    /** notifyWatchers: each watcher on the list that heeds the event gets it and leaves. */
    method NotifyWatchers(e: Event, p: Path, deleted: bool)
      requires ListsOk()
      modifies this`watchers, live`received
      ensures ListsOk()
      ensures forall w {:trigger w in live} :: w in live ==> Passed(p, e, deleted, w, old(w.received))
    {
      if p !in watchers {
        forall w | w in live ensures Passed(p, e, deleted, w, w.received) {
          assert Waits(w);
        }
        return;
      }
      var l := watchers[p];
      forall i | 0 <= i < |l| ensures l[i] in live && l[i].query.key == p && l[i].received == Nothing {
        assert OnList(p, i);
      }
      var kept := NotifyList(l, e, p, deleted);
      if kept == [] {
        watchers := watchers - {p};
      } else {
        watchers := watchers[p := kept];
      }
      forall q, i | q in watchers && 0 <= i < |watchers[q]| ensures OnList(q, i) {
        if q == p {
          assert watchers[q][i] in l;
        } else {
          assert old(OnList(q, i));
        }
      }
      forall w | w in live ensures Waits(w) && Passed(p, e, deleted, w, old(w.received)) {
        assert old(Waits(w));
      }
    }

    /** The callback of a removal: the watchers of a path that has gone are told, whether or
        not they watch the path of the event. */
    method NotifyGone(e: Event, p: Path)
      requires Telling(e) && e.key <= p
      modifies this`watchers, this`told, live`received
      ensures Telling(e) && told == old(told) + {p}
    {
      NotifyWatchers(e, p, true);
      told := told + {p};
      forall w | w in live ensures Ahead(w, e, history.all, gone) {
        assert old(Ahead(w, e, history.all, gone));
        assert Passed(p, e, true, w, old(w.received));
        GoneIsHeeded(w.query, e, p);
      }
    }

    // Watchers of the first i prefixes of the event's key have seen it, the others not yet.
    ghost predicate SeenUpTo(w: Watcher, e: Event, i: nat, f: Option<Event>)
      reads this`told, w`received
    {
      w.received == Then(f, if |w.query.key| < i && w.query.key <= e.key then Takes(w.query, e, told)
                            else e.index >= w.query.since && w.query.key in told, e)
    }

    /** notify: into the history, then to the watchers of every path above the key and of the
        key itself. Every watcher then has the first event it takes. */
    method Notify(e: Event)
      requires Telling(e) && (history.all != [] ==> e.index == history.lastIndex + 1)
      modifies this`watchers, this`gone, this`told, live`received, history, history.ring
      ensures Valid() && history.all == old(history.all) + [e] && gone == old(gone) + [old(told)]
    {
      ghost var all, out := history.all, gone;
      history.AddEvent(e);
      NotifyPrefixes(e, all, out);
      gone, told := gone + [told], {};
      forall w | w in live ensures Served(w, all + [e], gone) {
        assert Served(w, all + [e], out + [old(told)]);
      }
    }

    method NotifyPrefixes(e: Event, ghost all: seq<Event>, ghost out: seq<set<Path>>)
      requires ListsOk() && |out| == |all| && forall w {:trigger Ahead(w, e, all, out)} :: w in live ==>
               Ahead(w, e, all, out)
      modifies this`watchers, live`received
      ensures ListsOk()
      ensures forall w {:trigger w in live} :: w in live ==> Served(w, all + [e], out + [told])
    {
      forall w | w in live ensures SeenUpTo(w, e, 0, FirstTaken(all, out, w.joined, w.query)) {
        assert Ahead(w, e, all, out);
      }
      for i := 0 to |e.key| + 1
        invariant ListsOk()
        invariant forall w {:trigger w in live} :: w in live ==>
                  SeenUpTo(w, e, i, FirstTaken(all, out, w.joined, w.query))
      {
        label Before:
        NotifyWatchers(e, e.key[..i], false);
        forall w | w in live ensures SeenUpTo(w, e, i + 1, FirstTaken(all, out, w.joined, w.query)) {
          assert Passed(e.key[..i], e, false, w, old@Before(w.received));
          SeenNext(w.query, e, i);
        }
      }
      forall w | w in live ensures Served(w, all + [e], out + [told]) {
        assert SeenUpTo(w, e, |e.key| + 1, FirstTaken(all, out, w.joined, w.query));
        assert old(Ahead(w, e, all, out));
        ServedNext(w.query, all, out, e, told, w.joined);
      }
    }

    /** watch: answered from the history if it holds an event of interest, and otherwise put
        on the list; an index that is no longer retained is an error. */
    method Watch(q: Query) returns (w: Watcher?)
      requires Valid() && q.since >= 1
      modifies this`watchers, this`live
      ensures Valid()
      ensures var found := Search(history.all, history.size, q.key, q.recursive, q.since);
              && (w == null <==> found == IndexCleared)
              && (w != null ==>
                    && fresh(w) && w.query == q && w.joined == |history.all| && found == Scanned(w.received)
                    && live == old(live) + if w.received == Nothing then {w} else {})
      ensures w == null ==> live == old(live)
    {
      var found := history.Scan(q.key, q.recursive, q.since);
      if found == IndexCleared {
        return null;
      }
      w := new Watcher(q, |history.all|);
      if found.event.Just? {
        w.received := found.event;
        return;
      }
      ScannedNothing(q, history.all, history.size);
      Enlist(w);
    }

    // PushBack onto the list of the watcher's key.
    method Enlist(w: Watcher)
      requires Valid() && w !in live && w.received == Nothing && Served(w, history.all, gone)
      modifies this`watchers, this`live
      ensures Valid() && live == old(live) + {w}
    {
      var key := w.query.key;
      var l := if key in watchers then watchers[key] else [];
      forall i | 0 <= i < |l| ensures l[i] in live {
        assert OnList(key, i);
      }
      watchers := watchers[key := l + [w]];
      live := live + {w};
      forall p, i | p in watchers && 0 <= i < |watchers[p]| ensures OnList(p, i) {
        if p != key || i < |l| {
          assert old(OnList(p, i));
        }
      }
      forall v | v in live ensures Waits(v) && Served(v, history.all, gone) {
        if v != w {
          assert old(Waits(v)) && old(Served(v, history.all, gone));
        }
      }
    }

    /** Replay agrees with live watching: a scan finds exactly what the watcher received, if
        and only if its index is still retained and the watch was undisturbed. */
    lemma ReplayAgrees(w: Watcher)
      requires Valid() && w in live
      ensures Search(history.all, history.size, w.query.key, w.query.recursive, w.query.since) ==
              Scanned(w.received) <==>
              && (history.all == [] || history.startIndex <= w.query.since)
              && Undisturbed(w.query, history.all, gone, w.joined)
    {
      assert Served(w, history.all, gone);
      if history.all != [] && history.startIndex <= w.query.since {
        TakenIsScanned(w.query, history.all, gone, w.joined);
      }
    }
  }

  // A path at or below the key is not hidden from the event.
  lemma GoneIsHeeded(q: Query, e: Event, p: Path)
    requires e.key <= p
    ensures q.key == p ==> (Heeds(q, e, true) <==> e.index >= q.since)
  {
  }

  lemma SeenNext(q: Query, e: Event, i: nat)
    requires i <= |e.key|
    ensures q.key == e.key[..i] <==> |q.key| == i && q.key <= e.key
    ensures q.key <= e.key ==> (Heeds(q, e, false) <==> e.index >= q.since && Meant(q, e))
  {
  }

  lemma ServedNext(q: Query, all: seq<Event>, gone: seq<set<Path>>, e: Event, g: set<Path>, n: nat)
    requires |gone| == |all| && NothingFound(q, all, n)
    ensures FirstTaken(all + [e], gone + [g], n, q) == Then(FirstTaken(all, gone, n, q), Takes(q, e, g), e)
    ensures !(q.key <= e.key) ==> (Takes(q, e, g) <==> e.index >= q.since && q.key in g)
    ensures NothingFound(q, all + [e], n)
  {
    OneMoreEvent(all, gone, e, g, n, q);
  }

  // A scan that finds nothing has nothing to find.
  lemma ScannedNothing(q: Query, all: seq<Event>, kept: nat)
    requires kept <= |all| && (all != [] ==> kept > 0) && Consecutive(all)
    requires Search(all, kept, q.key, q.recursive, q.since) == Scanned(Nothing)
    ensures NothingFound(q, all, |all|)
  {
    if all != [] && q.since <= all[|all| - 1].index {
      FirstFromIsFirst(all, q.since - all[0].index, q.key, q.recursive);
    }
  }
}
