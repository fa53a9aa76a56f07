/**
 The browser's list of recently visited resources: one storage key, five entries, newest first, one entry per
 (kind, id). Each visit rewrites the truncated list, without ever seeing the full history.
 */
module RecentResources {
  import opened Prelude

  datatype Kind = Strategy | Account | Wallet | Backtest | Market | Recommendation

  datatype Key = Key(kind: Kind, id: string)

  datatype Item = Item(key: Key, caption: string, path: string, lastSeenAt: int)

  /** What is under the storage key: nothing, text that is not a list, or a list of which some elements are no items. */
  datatype Storage = Absent | NotAList | List(elements: seq<Option<Item>>)

  const MAX_RECENT: nat := 5

  function Items(es: seq<Option<Item>>): seq<Item> {
    if es == [] then []
    else (if es[0].Some? then [es[0].value] else []) + Items(es[1..])
  }

  function Read(s: Storage): seq<Item> {
    if s.List? then Items(s.elements) else []
  }

  function Without(xs: seq<Item>, key: Key): seq<Item> {
    if xs == [] then []
    else if xs[0].key == key then Without(xs[1..], key)
    else [xs[0]] + Without(xs[1..], key)
  }

  function Take(xs: seq<Item>, n: nat): seq<Item> {
    if |xs| <= n then xs else xs[..n]
  }

  function Push(xs: seq<Item>, item: Item): seq<Item> {
    Take([item] + Without(xs, item.key), MAX_RECENT)
  }

  class RecentStore {
    var storage: Storage

    constructor (found: Storage)
      ensures storage == found
    {
      storage := found;
    }

    method ReadStorage() returns (xs: seq<Item>)
      ensures xs == Read(storage)
    {
      xs := [];
      if storage.List? {
        var i, es := 0, storage.elements;
        while i < |es|
          invariant i <= |es| && Items(es) == xs + Items(es[i..])
        {
          if es[i].Some? {
            xs := xs + [es[i].value];
          }
          assert es[i..][1..] == es[i + 1..];
          i := i + 1;
        }
      }
    }

    /** A write that fails, on a full or disabled storage, is ignored. */
    method PushRecent(key: Key, caption: string, path: string, now: int, writable: bool)
      modifies this
      ensures Read(storage) ==
        if writable then Push(old(Read(storage)), Item(key, caption, path, now)) else old(Read(storage))
    {
      var existing := ReadStorage();
      var filtered, i := [], 0;
      while i < |existing|
        invariant i <= |existing| && Without(existing, key) == filtered + Without(existing[i..], key)
      {
        if existing[i].key != key {
          filtered := filtered + [existing[i]];
        }
        assert existing[i..][1..] == existing[i + 1..];
        i := i + 1;
      }
      var next := Take([Item(key, caption, path, now)] + filtered, MAX_RECENT);
      if writable {
        storage := List(seq(|next|, j requires 0 <= j < |next| => Some(next[j])));
        ItemsOfList(next, storage.elements);
      }
    }
  }

  lemma {:induction false} ItemsOfList(xs: seq<Item>, es: seq<Option<Item>>)
    requires |es| == |xs| && forall i | 0 <= i < |es| :: es[i] == Some(xs[i])
    ensures Items(es) == xs
  {
    if xs != [] {
      ItemsOfList(xs[1..], es[1..]);
    }
  }

  // ---- The unbounded history -----------------------------------------------------------------------------

  datatype Visit = Visit(item: Item, writable: bool)

  /** The list after the visits, as it is kept. */
  function Kept(found: seq<Item>, visits: seq<Visit>): seq<Item> {
    if visits == [] then found
    else
      var front, v := visits[..|visits| - 1], visits[|visits| - 1];
      if v.writable then Push(Kept(found, front), v.item) else Kept(found, front)
  }

  /** Everything ever recorded, newest first. */
  function History(found: seq<Item>, visits: seq<Visit>): seq<Item> {
    if visits == [] then found
    else
      var front, v := visits[..|visits| - 1], visits[|visits| - 1];
      if v.writable then [v.item] + History(found, front) else History(found, front)
  }

  /** Only the first item of each key. */
  function Dedup(xs: seq<Item>): seq<Item>
    decreases |xs|
  {
    if xs == [] then [] else [xs[0]] + Dedup(Rest(xs))
  }

  function Rest(xs: seq<Item>): (rest: seq<Item>)
    requires xs != []
    ensures |rest| < |xs|
  {
    WithoutShrinks(xs[1..], xs[0].key);
    Without(xs[1..], xs[0].key)
  }

  predicate Distinct(xs: seq<Item>) {
    forall i, j | 0 <= i < j < |xs| :: xs[i].key != xs[j].key
  }

  predicate NewestFirst(xs: seq<Item>) {
    forall i, j | 0 <= i < j < |xs| :: xs[i].lastSeenAt >= xs[j].lastSeenAt
  }

  // ---- Laws of the list operations -------------------------------------------------------------------------

  lemma {:induction false} WithoutShrinks(xs: seq<Item>, key: Key)
    ensures |Without(xs, key)| <= |xs|
    ensures forall x <- Without(xs, key) :: x in xs && x.key != key
  {
    if xs != [] {
      WithoutShrinks(xs[1..], key);
    }
  }

  lemma {:induction false} WithoutOfAbsent(xs: seq<Item>, key: Key)
    requires forall x <- xs :: x.key != key
    ensures Without(xs, key) == xs
  {
    if xs != [] {
      assert xs[0] in xs;
      assert forall x <- xs[1..] :: x in xs;
      WithoutOfAbsent(xs[1..], key);
    }
  }

  lemma {:induction false} WithoutSwaps(xs: seq<Item>, a: Key, b: Key)
    ensures Without(Without(xs, a), b) == Without(Without(xs, b), a)
  {
    if xs != [] {
      WithoutSwaps(xs[1..], a, b);
      var x := xs[0];
      if x.key != a {
        assert ([x] + Without(xs[1..], a))[1..] == Without(xs[1..], a);
      }
      if x.key != b {
        assert ([x] + Without(xs[1..], b))[1..] == Without(xs[1..], b);
      }
    }
  }

  lemma {:induction false} DedupIsDistinct(xs: seq<Item>)
    ensures Distinct(Dedup(xs)) && forall x <- Dedup(xs) :: x in xs
    decreases |xs|
  {
    if xs != [] {
      WithoutShrinks(xs[1..], xs[0].key);
      DedupIsDistinct(Rest(xs));
      var tail := Dedup(Rest(xs));
      forall j | 0 <= j < |tail| ensures tail[j].key != xs[0].key {
        assert tail[j] in tail;
      }
    }
  }

  lemma {:induction false} DedupOfWithout(xs: seq<Item>, key: Key)
    ensures Dedup(Without(xs, key)) == Without(Dedup(xs), key)
    decreases |xs|
  {
    if xs != [] {
      var x := xs[0];
      DedupOfWithout(Rest(xs), key);
      var tail := Dedup(Rest(xs));
      if x.key == key {
        DedupIsDistinct(Rest(xs));
        WithoutShrinks(xs[1..], key);
        WithoutOfAbsent(tail, key);
      } else {
        WithoutSwaps(xs[1..], key, x.key);
        assert ([x] + Without(xs[1..], key))[1..] == Without(xs[1..], key);
      }
    }
  }

  lemma {:induction false} DedupOfDistinct(xs: seq<Item>)
    requires Distinct(xs)
    ensures Dedup(xs) == xs
  {
    if xs != [] {
      WithoutOfAbsent(xs[1..], xs[0].key);
      DedupOfDistinct(xs[1..]);
    }
  }

  lemma TakeCons(x: Item, xs: seq<Item>, n: nat)
    ensures Take([x] + xs, n + 1) == [x] + Take(xs, n)
  {
  }

  lemma {:induction false} WithoutSplits(a: seq<Item>, b: seq<Item>, key: Key)
    ensures Without(a + b, key) == Without(a, key) + Without(b, key)
  {
    if a == [] {
      assert a + b == b;
    } else {
      assert (a + b)[1..] == a[1..] + b;
      WithoutSplits(a[1..], b, key);
    }
  }

  lemma {:induction false} RemovesAtMostOne(xs: seq<Item>, key: Key)
    requires Distinct(xs)
    ensures |Without(xs, key)| >= |xs| - 1
  {
    if xs != [] {
      if xs[0].key == key {
        WithoutOfAbsent(xs[1..], key);
      } else {
        RemovesAtMostOne(xs[1..], key);
      }
    }
  }

  // ---- Truncating at every visit loses nothing ----------------------------------------------------------------

  /**
   One visit to a truncated list shows what a visit to the whole list would, exactly if the list was not cut, the
   resource stood at most once among the five, or nothing else was cut off.
   */
  lemma PushRefinesIff(xs: seq<Item>, item: Item)
    ensures Push(Take(xs, 5), item) == Take([item] + Without(xs, item.key), 5) <==>
            || |xs| <= 5
            || |Without(xs[..5], item.key)| >= 4
            || Without(xs[5..], item.key) == []
  {
    if |xs| > MAX_RECENT {
      var kept, beyond := Without(xs[..MAX_RECENT], item.key), Without(xs[MAX_RECENT..], item.key);
      assert xs == xs[..MAX_RECENT] + xs[MAX_RECENT..];
      WithoutSplits(xs[..MAX_RECENT], xs[MAX_RECENT..], item.key);
      TakeCons(item, kept + beyond, MAX_RECENT - 1);
      TakeCons(item, kept, MAX_RECENT - 1);
      TakeOfMore(kept, beyond, MAX_RECENT - 1);
      assert [item] + Take(kept, MAX_RECENT - 1) == [item] + Take(kept + beyond, MAX_RECENT - 1)
        <==> Take(kept, MAX_RECENT - 1) == Take(kept + beyond, MAX_RECENT - 1) by {
        ConsIsInjective(item, Take(kept, MAX_RECENT - 1), Take(kept + beyond, MAX_RECENT - 1));
      }
    }
  }

  lemma ConsIsInjective(x: Item, a: seq<Item>, b: seq<Item>)
    ensures [x] + a == [x] + b <==> a == b
  {
    if [x] + a == [x] + b {
      assert a == ([x] + a)[1..] == ([x] + b)[1..] == b;
    }
  }

  lemma TakeOfMore(a: seq<Item>, b: seq<Item>, n: nat)
    ensures Take(a, n) == Take(a + b, n) <==> |a| >= n || b == []
  {
    if |a| >= n {
      assert (a + b)[..n] == a[..n];
    }
  }

  lemma PushRefines(xs: seq<Item>, item: Item)
    requires Distinct(xs)
    ensures Push(Take(xs, 5), item) == Take([item] + Without(xs, item.key), 5)
  {
    PushRefinesIff(xs, item);
    RemovesAtMostOne(Take(xs, MAX_RECENT), item.key);
  }

  lemma DedupOfCons(x: Item, xs: seq<Item>)
    ensures Dedup([x] + xs) == [x] + Without(Dedup(xs), x.key)
  {
    assert ([x] + xs)[1..] == xs;
    DedupOfWithout(xs, x.key);
  }

  /** Some visit was written. */
  predicate SomeWritten(visits: seq<Visit>) {
    exists v <- visits :: v.writable
  }

  lemma {:induction false} NothingWritten(found: seq<Item>, visits: seq<Visit>)
    requires !SomeWritten(visits)
    ensures Kept(found, visits) == found == History(found, visits)
  {
    if visits != [] {
      var front, v := visits[..|visits| - 1], visits[|visits| - 1];
      assert v in visits && forall u <- front :: u in visits;
      NothingWritten(found, front);
    }
  }

  /**
   Of a storage that repeats no resource, the list is the first five of the full history, newest first, with only
   the newest visit of each resource; exactly if the storage was short enough, or something was written since.
   */
  lemma {:induction false} KeepsTheFirstFive(found: seq<Item>, visits: seq<Visit>)
    requires Distinct(found)
    ensures Kept(found, visits) == Take(Dedup(History(found, visits)), 5)
            <==> |found| <= 5 || SomeWritten(visits)
  {
    DedupOfDistinct(found);
    if !SomeWritten(visits) {
      NothingWritten(found, visits);
    } else {
      var front, v := visits[..|visits| - 1], visits[|visits| - 1];
      assert visits == front + [v];
      KeepsTheFirstFive(found, front);
      if v.writable {
        var full := Dedup(History(found, front));
        DedupIsDistinct(History(found, front));
        DedupOfCons(v.item, History(found, front));
        if |found| <= MAX_RECENT || SomeWritten(front) {
          PushRefines(full, v.item);
        } else {
          NothingWritten(found, front);
        }
      }
    }
  }

  /** What the storage held, without the resources visited since. */
  function Unvisited(found: seq<Item>, visits: seq<Visit>): seq<Item> {
    if visits == [] then found
    else
      var front, v := visits[..|visits| - 1], visits[|visits| - 1];
      if v.writable then Without(Unvisited(found, front), v.item.key) else Unvisited(found, front)
  }

  lemma PushShowsABeginning(xs: seq<Item>, full: seq<Item>, item: Item)
    requires xs <= full
    ensures Push(xs, item) <= [item] + Without(full, item.key)
  {
    assert full == xs + full[|xs|..];
    WithoutSplits(xs, full[|xs|..], item.key);
  }

  /**
   Whatever the storage held, repetitions included, the list shows nothing out of place: it is a beginning of the
   visited resources, newest first and without repetition, followed by what the storage held of the others.
   */
  lemma {:induction false} ShowsABeginning(found: seq<Item>, visits: seq<Visit>)
    ensures Kept(found, visits) <= Dedup(History([], visits)) + Unvisited(found, visits)
  {
    if visits != [] {
      var front, v := visits[..|visits| - 1], visits[|visits| - 1];
      ShowsABeginning(found, front);
      if v.writable {
        var seen, unseen := Dedup(History([], front)), Unvisited(found, front);
        PushShowsABeginning(Kept(found, front), seen + unseen, v.item);
        DedupOfCons(v.item, History([], front));
        WithoutSplits(seen, unseen, v.item.key);
        assert [v.item] + (Without(seen, v.item.key) + Without(unseen, v.item.key))
            == ([v.item] + Without(seen, v.item.key)) + Without(unseen, v.item.key);
      }
    }
  }

  /** Visits do not go back in time, nor before what the storage held. */
  predicate Forward(found: seq<Item>, visits: seq<Visit>) {
    && NewestFirst(found)
    && (forall v <- visits, x <- found :: x.lastSeenAt <= v.item.lastSeenAt)
    && (forall i, j | 0 <= i < j < |visits| :: visits[i].item.lastSeenAt <= visits[j].item.lastSeenAt)
  }

  lemma {:induction false} HistoryIsVisited(found: seq<Item>, visits: seq<Visit>)
    ensures forall x <- History(found, visits) :: x in found || exists i | 0 <= i < |visits| :: visits[i].item == x
  {
    if visits != [] {
      HistoryIsVisited(found, visits[..|visits| - 1]);
    }
  }

  lemma {:induction false} HistoryIsSorted(found: seq<Item>, visits: seq<Visit>)
    requires Forward(found, visits)
    ensures NewestFirst(History(found, visits))
  {
    if visits != [] {
      var front, v := visits[..|visits| - 1], visits[|visits| - 1];
      assert forall u <- front :: u in visits;
      HistoryIsSorted(found, front);
      HistoryIsVisited(found, front);
      var older := History(found, front);
      forall j | 0 <= j < |older| ensures older[j].lastSeenAt <= v.item.lastSeenAt {
        assert older[j] in older;
      }
    }
  }

  lemma {:induction false} WithoutIsSorted(xs: seq<Item>, key: Key)
    requires NewestFirst(xs)
    ensures NewestFirst(Without(xs, key))
  {
    if xs != [] {
      WithoutIsSorted(xs[1..], key);
      WithoutShrinks(xs[1..], key);
      var tail := Without(xs[1..], key);
      forall j | 0 <= j < |tail| ensures xs[0].lastSeenAt >= tail[j].lastSeenAt {
        assert tail[j] in xs[1..];
      }
    }
  }

  lemma {:induction false} DedupIsSorted(xs: seq<Item>)
    requires NewestFirst(xs)
    ensures NewestFirst(Dedup(xs))
    decreases |xs|
  {
    if xs != [] {
      WithoutIsSorted(xs[1..], xs[0].key);
      DedupIsSorted(Rest(xs));
      DedupIsDistinct(Rest(xs));
      WithoutShrinks(xs[1..], xs[0].key);
      var tail := Dedup(Rest(xs));
      forall j | 0 <= j < |tail| ensures xs[0].lastSeenAt >= tail[j].lastSeenAt {
        assert tail[j] in tail && tail[j] in xs[1..];
      }
    }
  }

  /** With a clock that does not step back, the list is sorted by the time of the visit. */
  lemma StaysNewestFirst(found: seq<Item>, visits: seq<Visit>)
    requires Distinct(found) && Forward(found, visits) && (|found| <= 5 || SomeWritten(visits))
    ensures NewestFirst(Kept(found, visits)) && Distinct(Kept(found, visits)) && |Kept(found, visits)| <= 5
  {
    KeepsTheFirstFive(found, visits);
    HistoryIsSorted(found, visits);
    DedupIsSorted(History(found, visits));
    DedupIsDistinct(History(found, visits));
  }

  /** What is no list reads as empty, and elements that are no items are passed over. */
  lemma {:induction false} JunkIsSkipped(a: seq<Option<Item>>, b: seq<Option<Item>>)
    ensures Read(Absent) == Read(NotAList) == []
    ensures Items(a + [None] + b) == Items(a + b)
  {
    if a == [] {
      assert a + [None] + b == [None] + b && a + b == b;
      assert ([None] + b)[1..] == b;
    } else {
      assert (a + [None] + b)[1..] == a[1..] + [None] + b && (a + b)[1..] == a[1..] + b;
      JunkIsSkipped(a[1..], b);
    }
  }
}
