/** Eviction of the material cache to a byte budget (shared/material_cache.py, `evict_to_capacity`). */
module CacheEviction {
  import opened Basics
  import opened Sorting

  /** Paths in Python's order. */
  type Path = int

  datatype Item = Item(mtime: int, size: nat, path: Path)

  /** What one removal did: all gone, renamed aside but not deleted, or nothing. */
  datatype Removal = Gone | Vacated | Kept

  /** The tuple order of the sort: oldest first, then size, then path. */
  predicate Older(a: Item, b: Item) {
    a.mtime < b.mtime || (a.mtime == b.mtime && (a.size < b.size || (a.size == b.size && a.path <= b.path)))
  }

  lemma OlderOrder()
    ensures TotalOrder<Item>(Older)
  {
  }

  function Size(items: seq<Item>): (n: nat) {
    if items == [] then 0 else Size(items[..|items| - 1]) + items[|items| - 1].size
  }

  /** The entries that could be examined; the others are passed over. */
  function Examined(candidates: seq<Path>, stat: Path -> Option<(int, nat)>): seq<Item> {
    if candidates == [] then []
    else
      var rest := Examined(candidates[..|candidates| - 1], stat);
      var path := candidates[|candidates| - 1];
      match stat(path)
      case None => rest
      case Some(s) => rest + [Item(s.0, s.1, path)]
  }

  function Unpinned(items: seq<Item>, pinned: set<Path>): seq<Item> {
    if items == [] then []
    else
      var rest := Unpinned(items[..|items| - 1], pinned);
      var last := items[|items| - 1];
      if last.path in pinned then rest else rest + [last]
  }

  function Queue(candidates: seq<Path>, stat: Path -> Option<(int, nat)>, pinned: set<Path>): seq<Item> {
    Sort(Unpinned(Examined(candidates, stat), pinned), Older)
  }

  /** Bytes the accounting takes off for the removals tried: only those that deleted everything. */
  function Freed(tried: seq<Item>, removal: Item -> Removal): nat {
    if tried == [] then 0
    else
      var last := tried[|tried| - 1];
      Freed(tried[..|tried| - 1], removal) + if removal(last).Gone? then last.size else 0
  }

  /** The paths those removals take out of the cache. */
  function Vacant(tried: seq<Item>, removal: Item -> Removal): set<Path> {
    set i | 0 <= i < |tried| && !removal(tried[i]).Kept? :: tried[i].path
  }

  lemma {:induction false} UnpinnedHoldsNoPin(items: seq<Item>, pinned: set<Path>)
    ensures forall e :: e in Unpinned(items, pinned) <==> e in items && e.path !in pinned
  {
    if items != [] {
      UnpinnedHoldsNoPin(items[..|items| - 1], pinned);
      assert items == items[..|items| - 1] + [items[|items| - 1]];
    }
  }

  /** Exactly the candidates whose stat succeeds, with what it says. */
  lemma {:induction false} ExaminedIs(candidates: seq<Path>, stat: Path -> Option<(int, nat)>, e: Item)
    ensures e in Examined(candidates, stat) <==> e.path in candidates && stat(e.path) == Some((e.mtime, e.size))
  {
    if candidates != [] {
      ExaminedIs(candidates[..|candidates| - 1], stat, e);
      assert candidates == candidates[..|candidates| - 1] + [candidates[|candidates| - 1]];
    }
  }

  /** Oldest first; of one age the smaller; of one size the earlier path. */
  ghost predicate ByAge(queue: seq<Item>) {
    forall i, j :: 0 <= i < j < |queue| ==>
      && queue[i].mtime <= queue[j].mtime
      && (queue[i].mtime == queue[j].mtime ==> queue[i].size <= queue[j].size)
      && (queue[i].mtime == queue[j].mtime && queue[i].size == queue[j].size ==> queue[i].path <= queue[j].path)
  }

  /** The queue holds exactly the candidates that can be examined and are not pinned, oldest first. */
  lemma QueueIsByAge(candidates: seq<Path>, stat: Path -> Option<(int, nat)>, pinned: set<Path>)
    ensures ByAge(Queue(candidates, stat, pinned))
    ensures forall e :: e in Queue(candidates, stat, pinned) <==>
              e.path in candidates && stat(e.path) == Some((e.mtime, e.size)) && e.path !in pinned
  {
    QueueHoldsUnpinned(candidates, stat, pinned);
    forall e: Item {
      ExaminedIs(candidates, stat, e);
    }
  }

  /** Each of them once, and the accounted size counts each that can be examined once. */
  lemma OncePerCandidate(candidates: seq<Path>, stat: Path -> Option<(int, nat)>, pinned: set<Path>)
    requires forall i, j :: 0 <= i < j < |candidates| ==> candidates[i] != candidates[j]
    ensures DistinctItems(Examined(candidates, stat)) && DistinctItems(Queue(candidates, stat, pinned))
  {
    var entries := Examined(candidates, stat);
    ExaminedDistinct(candidates, stat);
    UnpinnedDistinct(entries, pinned);
    OlderOrder();
    SortSorts(Unpinned(entries, pinned), Older);
    OnceEach(Unpinned(entries, pinned));
    OnceEach(Queue(candidates, stat, pinned));
  }

  lemma QueueHoldsUnpinned(candidates: seq<Path>, stat: Path -> Option<(int, nat)>, pinned: set<Path>)
    ensures forall e :: e in Queue(candidates, stat, pinned) <==> e in Examined(candidates, stat) && e.path !in pinned
    ensures Ascending(Queue(candidates, stat, pinned), Older)
  {
    var items := Unpinned(Examined(candidates, stat), pinned);
    OlderOrder();
    SortSorts(items, Older);
    UnpinnedHoldsNoPin(Examined(candidates, stat), pinned);
    forall e ensures e in Sort(items, Older) <==> e in items {
      assert e in multiset(Sort(items, Older)) <==> e in multiset(items);
    }
  }

  class CacheRoot {
    var present: set<Path>

    /** The accounted size of the cache: everything that can be examined, pinned or not. */
    method Measure(candidates: seq<Path>, stat: Path -> Option<(int, nat)>) returns (entries: seq<Item>, total: nat)
      ensures entries == Examined(candidates, stat) && total == Size(entries)
    {
      entries, total := [], 0;
      for i := 0 to |candidates|
        invariant entries == Examined(candidates[..i], stat) && total == Size(entries)
      {
        assert candidates[..i + 1][..i] == candidates[..i];
        match stat(candidates[i]) {
          case None =>
          case Some(s) =>
            var item := Item(s.0, s.1, candidates[i]);
            assert (entries + [item])[..|entries|] == entries;
            entries, total := entries + [item], total + s.1;
        }
      }
      assert candidates[..|candidates|] == candidates;
    }

    /** One removal: what it takes out of the cache and off the total. */
    method TryRemove(item: Item, removal: Item -> Removal) returns (freed: nat)
      modifies this
      ensures freed == if removal(item).Gone? then item.size else 0
      ensures present == old(present) - if removal(item).Kept? then {} else {item.path}
    {
      freed := 0;
      match removal(item) {
        case Gone =>
          present := present - {item.path};
          freed := item.size;
        case Vacated =>
          present := present - {item.path};
        case Kept =>
      }
    }

    /** Down the queue until the accounted size fits or none is left. */
    method EvictFrom(queue: seq<Item>, measured: nat, maxBytes: int, removal: Item -> Removal)
      returns (total: int, tried: nat)
      modifies this
      ensures Stops(queue, measured, maxBytes, removal, total, tried)
      ensures total <= maxBytes || tried == |queue|
      ensures present == old(present) - Vacant(queue[..tried], removal)
    {
      total, tried := measured, 0;
      while tried < |queue| && total > maxBytes
        invariant Stops(queue, measured, maxBytes, removal, total, tried)
        invariant present == old(present) - Vacant(queue[..tried], removal)
      {
        assert queue[..tried + 1][..tried] == queue[..tried];
        VacantSnoc(queue, tried, removal);
        var freed := TryRemove(queue[tried], removal);
        total, tried := total - freed, tried + 1;
      }
    }

    /**
     * Try removals in age order, pins left out, until the accounted size fits or none is left.
     * `tried` counts the shortest prefix of the queue that does it.
     */
    method EvictToCapacity(
      candidates: seq<Path>, stat: Path -> Option<(int, nat)>, pinned: set<Path>, maxBytes: int,
      removal: Item -> Removal)
      returns (total: int, tried: nat)
      modifies this
      ensures Stops(Queue(candidates, stat, pinned), Size(Examined(candidates, stat)), maxBytes, removal, total, tried)
      ensures total <= maxBytes || tried == |Queue(candidates, stat, pinned)|
      ensures present == old(present) - Vacant(Queue(candidates, stat, pinned)[..tried], removal)
      ensures pinned * old(present) <= present
    {
      var entries, measured := Measure(candidates, stat);
      var queue := Sort(Unpinned(entries, pinned), Older);
      total, tried := EvictFrom(queue, measured, maxBytes, removal);
      QueueHoldsUnpinned(candidates, stat, pinned);
      PinsNotVacated(queue, tried, removal, pinned);
    }
  }

  /** `tried` removals, one by one while over budget, have brought the accounted size to `total`. */
  ghost predicate Stops(queue: seq<Item>, measured: nat, maxBytes: int, removal: Item -> Removal, total: int,
      tried: nat) {
    && tried <= |queue|
    && total == measured - Freed(queue[..tried], removal)
    && forall k :: 0 <= k < tried ==> measured - Freed(queue[..k], removal) > maxBytes
  }

  lemma PinsNotVacated(queue: seq<Item>, tried: nat, removal: Item -> Removal, pinned: set<Path>)
    requires tried <= |queue| && forall e :: e in queue ==> e.path !in pinned
    ensures Vacant(queue[..tried], removal) !! pinned
  {
    forall p | p in Vacant(queue[..tried], removal) ensures p !in pinned {
      var i :| 0 <= i < tried && queue[i].path == p;
      assert queue[i] in queue;
    }
  }

  lemma VacantSnoc(queue: seq<Item>, n: nat, removal: Item -> Removal)
    requires n < |queue|
    ensures Vacant(queue[..n + 1], removal) ==
            Vacant(queue[..n], removal) + if removal(queue[n]).Kept? then {} else {queue[n].path}
  {
    var more := queue[..n + 1];
    forall p | p in Vacant(queue[..n], removal) ensures p in Vacant(more, removal) {
      var i :| 0 <= i < n && !removal(queue[i]).Kept? && queue[i].path == p;
      assert more[i] == queue[i];
    }
    assert more[n] == queue[n];
  }

  // ----- What it adds up to -----

  lemma {:induction false} FreedAll(tried: seq<Item>, removal: Item -> Removal)
    requires forall i :: 0 <= i < |tried| ==> removal(tried[i]).Gone?
    ensures Freed(tried, removal) == Size(tried)
  {
    if tried != [] {
      FreedAll(tried[..|tried| - 1], removal);
    }
  }

  lemma {:induction false} SizeGrows(items: seq<Item>, a: nat, b: nat)
    requires a <= b <= |items|
    ensures Size(items[..a]) <= Size(items[..b])
  {
    if a < b {
      SizeGrows(items, a, b - 1);
      assert items[..b][..b - 1] == items[..b - 1];
    }
  }

  /**
   * When no removal fails, the entries removed are exactly those unpinned ones whose elders alone
   * leave the cache over budget; nothing younger goes before something older.
   */
  lemma ShortestOldestPrefix(
    queue: seq<Item>, before: nat, maxBytes: int, removal: Item -> Removal, total: int, tried: nat, k: nat)
    requires forall e :: removal(e).Gone?
    requires k < |queue| && Stops(queue, before, maxBytes, removal, total, tried)
    requires total <= maxBytes || tried == |queue|
    ensures k < tried <==> before - Size(queue[..k]) > maxBytes
  {
    FreedAll(queue[..k], removal);
    if tried <= k {
      FreedAll(queue[..tried], removal);
      SizeGrows(queue, tried, k);
    }
  }

  /** The entries whose bytes the accounting still holds after the first `n` removals of the queue. */
  function Remaining(items: seq<Item>, gone: set<Item>): seq<Item> {
    if items == [] then []
    else
      var rest := Remaining(items[..|items| - 1], gone);
      var last := items[|items| - 1];
      if last in gone then rest else rest + [last]
  }

  predicate DistinctItems(items: seq<Item>) {
    forall i, j :: 0 <= i < j < |items| ==> items[i] != items[j]
  }

  lemma {:induction false} RemoveOneFromRemaining(items: seq<Item>, gone: set<Item>, e: Item)
    requires DistinctItems(items) && e in items && e !in gone
    ensures Size(Remaining(items, gone)) == Size(Remaining(items, gone + {e})) + e.size
  {
    var init, last := items[..|items| - 1], items[|items| - 1];
    var a, b := Remaining(init, gone), Remaining(init, gone + {e});
    assert items == init + [last];
    assert (a + [last])[..|a|] == a && (b + [last])[..|b|] == b;
    if last == e {
      RemainingWithout(init, gone, e);
    } else {
      RemoveOneFromRemaining(init, gone, e);
    }
  }

  lemma {:induction false} RemainingWithout(items: seq<Item>, gone: set<Item>, e: Item)
    requires e !in items
    ensures Remaining(items, gone + {e}) == Remaining(items, gone)
  {
    if items != [] {
      RemainingWithout(items[..|items| - 1], gone, e);
    }
  }

  lemma {:induction false} RemainingOfNone(items: seq<Item>)
    ensures Remaining(items, {}) == items
  {
    if items != [] {
      RemainingOfNone(items[..|items| - 1]);
    }
  }

  function Deleted(tried: seq<Item>, removal: Item -> Removal): set<Item> {
    set i | 0 <= i < |tried| && removal(tried[i]).Gone? :: tried[i]
  }

  /**
   * Whatever fails, the accounted total is the size of the entries not deleted: a tree renamed aside
   * but not deleted is still counted.
   */
  lemma {:induction false} AccountingIsExact(entries: seq<Item>, queue: seq<Item>, n: nat, removal: Item -> Removal)
    requires DistinctItems(entries) && DistinctItems(queue) && n <= |queue|
    requires forall e :: e in queue ==> e in entries
    ensures Size(entries) - Freed(queue[..n], removal) == Size(Remaining(entries, Deleted(queue[..n], removal)))
    decreases n
  {
    if n == 0 {
      RemainingOfNone(entries);
      assert Deleted(queue[..0], removal) == {};
    } else {
      AccountingIsExact(entries, queue, n - 1, removal);
      var e := queue[n - 1];
      assert queue[..n][..n - 1] == queue[..n - 1];
      DeletedSnoc(queue, n - 1, removal);
      if removal(e).Gone? {
        assert e in queue;
        RemoveOneFromRemaining(entries, Deleted(queue[..n - 1], removal), e);
      } else {
        assert Deleted(queue[..n], removal) == Deleted(queue[..n - 1], removal);
      }
    }
  }

  lemma DeletedSnoc(queue: seq<Item>, n: nat, removal: Item -> Removal)
    requires n < |queue| && DistinctItems(queue)
    ensures Deleted(queue[..n + 1], removal) ==
            Deleted(queue[..n], removal) + if removal(queue[n]).Gone? then {queue[n]} else {}
    ensures queue[n] !in Deleted(queue[..n], removal)
  {
    var more := queue[..n + 1];
    forall e | e in Deleted(queue[..n], removal) ensures e in Deleted(more, removal) {
      var i :| 0 <= i < n && removal(queue[i]).Gone? && queue[i] == e;
      assert more[i] == queue[i];
    }
    assert more[n] == queue[n];
  }

  lemma {:induction false} OnceEach(items: seq<Item>)
    ensures DistinctItems(items) <==> forall e :: multiset(items)[e] <= 1
  {
    if items != [] {
      var init, last := items[..|items| - 1], items[|items| - 1];
      OnceEach(init);
      assert items == init + [last];
      if DistinctItems(items) {
        assert DistinctItems(init);
        assert last !in multiset(init) by {
          assert forall i :: 0 <= i < |init| ==> init[i] == items[i] != items[|init|];
        }
        forall e ensures multiset(items)[e] <= 1 {
          assert multiset(items)[e] == multiset(init)[e] + (if e == last then 1 else 0);
        }
      } else if DistinctItems(init) {
        var i, j :| 0 <= i < j < |items| && items[i] == items[j];
        assert j == |init| && init[i] == last;
        assert last in multiset(init);
      } else {
        var e :| multiset(init)[e] > 1;
        assert multiset(items)[e] > 1;
      }
    }
  }

  lemma {:induction false} ExaminedDistinct(candidates: seq<Path>, stat: Path -> Option<(int, nat)>)
    requires forall i, j :: 0 <= i < j < |candidates| ==> candidates[i] != candidates[j]
    ensures DistinctItems(Examined(candidates, stat))
    ensures forall e :: e in Examined(candidates, stat) ==> e.path in candidates
  {
    if candidates != [] {
      ExaminedDistinct(candidates[..|candidates| - 1], stat);
    }
  }

  lemma {:induction false} UnpinnedDistinct(items: seq<Item>, pinned: set<Path>)
    requires DistinctItems(items)
    ensures DistinctItems(Unpinned(items, pinned))
  {
    if items != [] {
      UnpinnedDistinct(items[..|items| - 1], pinned);
      UnpinnedHoldsNoPin(items[..|items| - 1], pinned);
    }
  }

  /** The same for the queue an eviction pass really works down. */
  lemma EvictionAccountingIsExact(
    candidates: seq<Path>, stat: Path -> Option<(int, nat)>, pinned: set<Path>, tried: nat, removal: Item -> Removal)
    requires forall i, j :: 0 <= i < j < |candidates| ==> candidates[i] != candidates[j]
    requires tried <= |Queue(candidates, stat, pinned)|
    ensures var entries, queue := Examined(candidates, stat), Queue(candidates, stat, pinned);
            Size(entries) - Freed(queue[..tried], removal) == Size(Remaining(entries, Deleted(queue[..tried], removal)))
  {
    var entries, queue := Examined(candidates, stat), Queue(candidates, stat, pinned);
    OncePerCandidate(candidates, stat, pinned);
    QueueHoldsUnpinned(candidates, stat, pinned);
    AccountingIsExact(entries, queue, tried, removal);
  }
}
