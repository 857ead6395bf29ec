/** The list of unpinned ranges of one ashmem area, in descending order, and what pinning and
    unpinning do to it. */
module AshmemRanges {
  import opened Common

  /** `struct ashmem_range`; ids stand for the addresses of the structs. */
  datatype Range = Range(id: nat, pgstart: nat, pgend: nat, purged: bool)

  /** The global LRU list and the number of pages on it. */
  datatype Books = Books(lru: seq<nat>, count: int)

  function RangeSize(r: Range): int {
    r.pgend - r.pgstart + 1
  }

  predicate PageInRange(r: Range, page: nat) {
    r.pgstart <= page <= r.pgend
  }

  predicate Subsumes(r: Range, start: nat, end: nat) {
    r.pgstart >= start && r.pgend <= end
  }

  /** `page_range_in_range`. */
  predicate Overlaps(r: Range, start: nat, end: nat) {
    PageInRange(r, start) || PageInRange(r, end) || Subsumes(r, start, end)
  }

  function Allocated(b: Books, r: Range): Books {
    if r.purged then b else Books(b.lru + [r.id], b.count + RangeSize(r))
  }

  function Deleted(b: Books, r: Range): Books {
    if r.purged then b else Books(Remove(b.lru, r.id), b.count - RangeSize(r))
  }

  function Shrunk(b: Books, r: Range, start: nat, end: nat): Books {
    if r.purged then b else b.(count := b.count - (RangeSize(r) - (end - start + 1)))
  }

  // ---------- the abstraction ----------

  /** Descending, disjoint, non-empty ranges. */
  predicate Descending(list: seq<Range>) {
    list == [] ||
    (&& list[0].pgstart <= list[0].pgend
     && (|list| > 1 ==> list[1].pgend < list[0].pgstart)
     && Descending(list[1..]))
  }

  /** The page is unpinned. */
  predicate Unpinned(list: seq<Range>, page: nat) {
    list != [] && (PageInRange(list[0], page) || Unpinned(list[1..], page))
  }

  /** ... in a range that has been purged. */
  predicate PurgedAt(list: seq<Range>, page: nat) {
    list != [] && ((PageInRange(list[0], page) && list[0].purged) || PurgedAt(list[1..], page))
  }

  /** Pages on the LRU list. */
  function LruSize(list: seq<Range>): int {
    if list == [] then 0 else (if list[0].purged then 0 else RangeSize(list[0])) + LruSize(list[1..])
  }

  function Ids(list: seq<Range>): set<nat> {
    if list == [] then {} else {list[0].id} + Ids(list[1..])
  }

  predicate DistinctIds(list: seq<Range>) {
    list == [] || (list[0].id !in Ids(list[1..]) && DistinctIds(list[1..]))
  }

  /** The ids that have to be on the LRU list. */
  function LruIds(list: seq<Range>): set<nat> {
    if list == [] then {} else (if list[0].purged then {} else {list[0].id}) + LruIds(list[1..])
  }

  lemma {:induction false} LruIdsAreIds(list: seq<Range>)
    ensures LruIds(list) <= Ids(list)
  {
    if list != [] {
      LruIdsAreIds(list[1..]);
    }
  }

  lemma {:induction false} AllBelow(list: seq<Range>, page: nat)
    requires Descending(list) && (list == [] || list[0].pgend < page)
    ensures forall x: nat :: Unpinned(list, x) ==> x < page
    ensures forall x: nat :: PurgedAt(list, x) ==> x < page
  {
    if list != [] {
      AllBelow(list[1..], page);
    }
  }

  lemma {:induction false} PurgedIsUnpinned(list: seq<Range>, page: nat)
    requires PurgedAt(list, page)
    ensures Unpinned(list, page)
  {
    if !PageInRange(list[0], page) || !list[0].purged {
      PurgedIsUnpinned(list[1..], page);
    }
  }

  // ---------- pinning ----------

  datatype Pinned = Pinned(list: seq<Range>, books: Books, wasPurged: bool, spare: bool)

  /** `ashmem_pin` from an entry of the list on; `newId` is the id of the range allocated
      beforehand, `spare` in the result says that it was not needed. */
  function Pin(list: seq<Range>, start: nat, end: nat, newId: nat, b: Books): Pinned {
    if list == [] || list[0].pgend < start then Pinned(list, b, false, true)
    else
      var r := list[0];
      if !Overlaps(r, start, end) then
        var p := Pin(list[1..], start, end, newId, b);
        p.(list := [r] + p.list)
      else if Subsumes(r, start, end) then
        var p := Pin(list[1..], start, end, newId, Deleted(b, r));
        p.(wasPurged := r.purged || p.wasPurged)
      else if r.pgstart >= start then
        var p := Pin(list[1..], start, end, newId, Shrunk(b, r, end + 1, r.pgend));
        p.(list := [r.(pgstart := end + 1)] + p.list, wasPurged := r.purged || p.wasPurged)
      else if r.pgend <= end then
        assert r.pgstart < start;
        var p := Pin(list[1..], start, end, newId, Shrunk(b, r, r.pgstart, start - 1));
        p.(list := [r.(pgend := start - 1)] + p.list, wasPurged := r.purged || p.wasPurged)
      else
        var upper := Range(newId, end + 1, r.pgend, r.purged);
        Pinned([upper, r.(pgend := start - 1)] + list[1..], Shrunk(Allocated(b, upper), r, r.pgstart, start - 1), r.purged, false)
  }

  /** The first entry of a pinned list is not above the first entry before. */
  lemma {:induction false} PinStaysBelow(list: seq<Range>, start: nat, end: nat, newId: nat, b: Books)
    requires Descending(list) && start <= end
    ensures var p := Pin(list, start, end, newId, b).list; p != [] ==> list != [] && p[0].pgend <= list[0].pgend
  {
    if list != [] && list[0].pgend >= start && Overlaps(list[0], start, end) && Subsumes(list[0], start, end) {
      PinStaysBelow(list[1..], start, end, newId, Deleted(b, list[0]));
    }
  }

  /** Pinning takes exactly the requested pages out, keeps the list in shape, and leaves the
      purge status of all others. */
  lemma {:induction false} PinExact(list: seq<Range>, start: nat, end: nat, newId: nat, b: Books)
    requires Descending(list) && start <= end
    ensures var p := Pin(list, start, end, newId, b);
            && Descending(p.list)
            && (forall x: nat :: Unpinned(p.list, x) <==> Unpinned(list, x) && !(start <= x <= end))
            && (forall x: nat :: PurgedAt(p.list, x) <==> PurgedAt(list, x) && !(start <= x <= end))
  {
    var p := Pin(list, start, end, newId, b);
    if list == [] {
    } else if list[0].pgend < start {
      AllBelow(list, start);
    } else {
      var r, rest := list[0], list[1..];
      AllBelow(rest, r.pgstart);
      if !Overlaps(r, start, end) {
        PinExact(rest, start, end, newId, b);
        PinStaysBelow(rest, start, end, newId, b);
        assert p.list[1..] == Pin(rest, start, end, newId, b).list;
      } else if Subsumes(r, start, end) {
        PinExact(rest, start, end, newId, Deleted(b, r));
      } else if r.pgstart >= start {
        var b' := Shrunk(b, r, end + 1, r.pgend);
        PinExact(rest, start, end, newId, b');
        PinStaysBelow(rest, start, end, newId, b');
        assert p.list[1..] == Pin(rest, start, end, newId, b').list;
      } else if r.pgend <= end {
        var b' := Shrunk(b, r, r.pgstart, start - 1);
        PinExact(rest, start, end, newId, b');
        PinStaysBelow(rest, start, end, newId, b');
        assert p.list[1..] == Pin(rest, start, end, newId, b').list;
      } else {
        var lower := r.(pgend := start - 1);
        assert p.list[1..] == [lower] + rest;
        assert ([lower] + rest)[1..] == rest;
        assert forall x: nat :: Unpinned([lower] + rest, x) <==> PageInRange(lower, x) || Unpinned(rest, x);
        assert forall x: nat :: PurgedAt([lower] + rest, x) <==> (PageInRange(lower, x) && r.purged) || PurgedAt(rest, x);
      }
    }
  }

  predicate SomePurged(list: seq<Range>, start: nat, end: nat) {
    list != [] && ((Overlaps(list[0], start, end) && list[0].purged) || SomePurged(list[1..], start, end))
  }

  lemma {:induction false} PurgedPage(list: seq<Range>, start: nat, end: nat) returns (x: nat)
    requires Descending(list) && start <= end && SomePurged(list, start, end)
    ensures start <= x <= end && PurgedAt(list, x)
  {
    if Overlaps(list[0], start, end) && list[0].purged {
      x := if list[0].pgstart >= start then list[0].pgstart else start;
    } else {
      x := PurgedPage(list[1..], start, end);
    }
  }

  lemma {:induction false} PageOfPurged(list: seq<Range>, start: nat, end: nat, x: nat)
    requires start <= x <= end && PurgedAt(list, x)
    ensures SomePurged(list, start, end)
  {
    if !(PageInRange(list[0], x) && list[0].purged) {
      PageOfPurged(list[1..], start, end, x);
    }
  }

  lemma {:induction false} NoneBelow(list: seq<Range>, start: nat, end: nat)
    requires Descending(list) && start <= end && (list == [] || list[0].pgend < start)
    ensures !SomePurged(list, start, end)
  {
    if list != [] {
      NoneBelow(list[1..], start, end);
    }
  }

  lemma {:induction false} PinSomePurged(list: seq<Range>, start: nat, end: nat, newId: nat, b: Books)
    requires Descending(list) && start <= end
    ensures Pin(list, start, end, newId, b).wasPurged == SomePurged(list, start, end)
  {
    if list == [] || list[0].pgend < start {
      NoneBelow(list, start, end);
    } else {
      var r, rest := list[0], list[1..];
      if !Overlaps(r, start, end) {
        PinSomePurged(rest, start, end, newId, b);
      } else if Subsumes(r, start, end) {
        PinSomePurged(rest, start, end, newId, Deleted(b, r));
      } else if r.pgstart >= start {
        PinSomePurged(rest, start, end, newId, Shrunk(b, r, end + 1, r.pgend));
      } else if r.pgend <= end {
        PinSomePurged(rest, start, end, newId, Shrunk(b, r, r.pgstart, start - 1));
      } else {
        NoneBelow(rest, start, end);
      }
    }
  }

  /** The answer: purged exactly when a requested page lies in a purged range. */
  lemma PinAnswer(list: seq<Range>, start: nat, end: nat, newId: nat, b: Books)
    requires Descending(list) && start <= end
    ensures Pin(list, start, end, newId, b).wasPurged ==> exists x: nat :: start <= x <= end && PurgedAt(list, x)
    ensures forall x: nat :: start <= x <= end && PurgedAt(list, x) ==> Pin(list, start, end, newId, b).wasPurged
  {
    PinSomePurged(list, start, end, newId, b);
    if SomePurged(list, start, end) {
      var x := PurgedPage(list, start, end);
    }
    forall x: nat | start <= x <= end && PurgedAt(list, x)
      ensures SomePurged(list, start, end)
    {
      PageOfPurged(list, start, end, x);
    }
  }

  /** The count follows the list, and the range allocated beforehand is used only in the case
      that needs one more range than before. */
  lemma {:induction false} PinCounts(list: seq<Range>, start: nat, end: nat, newId: nat, b: Books)
    requires Descending(list) && start <= end
    ensures var p := Pin(list, start, end, newId, b);
            && p.books.count - b.count == LruSize(p.list) - LruSize(list)
            && (if p.spare then |p.list| <= |list| && Ids(p.list) <= Ids(list) else |p.list| == |list| + 1 && Ids(p.list) == Ids(list) + {newId})
  {
    var p := Pin(list, start, end, newId, b);
    if list != [] && list[0].pgend >= start {
      var r, rest := list[0], list[1..];
      if !Overlaps(r, start, end) {
        PinCounts(rest, start, end, newId, b);
        assert p.list[1..] == Pin(rest, start, end, newId, b).list;
      } else if Subsumes(r, start, end) {
        PinCounts(rest, start, end, newId, Deleted(b, r));
        NoSecondRange(rest, start, end, newId, Deleted(b, r), r);
      } else if r.pgstart >= start {
        var b' := Shrunk(b, r, end + 1, r.pgend);
        PinCounts(rest, start, end, newId, b');
        NoSecondRange(rest, start, end, newId, b', r);
        assert p.list[1..] == Pin(rest, start, end, newId, b').list;
      } else if r.pgend <= end {
        var b' := Shrunk(b, r, r.pgstart, start - 1);
        PinCounts(rest, start, end, newId, b');
        NoSecondRange(rest, start, end, newId, b', r);
        assert p.list[1..] == Pin(rest, start, end, newId, b').list;
      } else {
        var lower := r.(pgend := start - 1);
        assert p.list[1..] == [lower] + rest;
        assert ([lower] + rest)[1..] == rest;
      }
    }
  }

  /** A request that reaches past an entry cannot lie inside a later one. */
  lemma {:induction false} NoSecondRange(list: seq<Range>, start: nat, end: nat, newId: nat, b: Books, above: Range)
    requires Descending(list) && start <= end && (list == [] || list[0].pgend < end)
    ensures Pin(list, start, end, newId, b).spare
  {
    if list != [] && list[0].pgend >= start {
      var r, rest := list[0], list[1..];
      if Subsumes(r, start, end) {
        NoSecondRange(rest, start, end, newId, Deleted(b, r), r);
      } else if r.pgend <= end && r.pgstart < start {
        NoSecondRange(rest, start, end, newId, Shrunk(b, r, r.pgstart, start - 1), r);
      }
    }
  }

  /** The LRU list follows: exactly the unpurged ranges of this list, and whatever was on it
      for other areas. */
  lemma {:induction false} PinLru(list: seq<Range>, start: nat, end: nat, newId: nat, b: Books)
    requires Descending(list) && start <= end
    requires DistinctIds(list) && newId !in Ids(list) && NoDup(b.lru) && newId !in b.lru && forall x :: x in LruIds(list) ==> x in b.lru
    ensures var p := Pin(list, start, end, newId, b);
            && DistinctIds(p.list) && NoDup(p.books.lru)
            && (forall x: nat :: x in p.books.lru <==> (x in b.lru && x !in LruIds(list)) || x in LruIds(p.list))
  {
    var p := Pin(list, start, end, newId, b);
    if list != [] && list[0].pgend >= start {
      var r, rest := list[0], list[1..];
      LruIdsAreIds(rest);
      if !Overlaps(r, start, end) {
        PinLru(rest, start, end, newId, b);
        PinCounts(rest, start, end, newId, b);
        assert p.list[1..] == Pin(rest, start, end, newId, b).list;
      } else if Subsumes(r, start, end) {
        RemoveFacts(b.lru, r.id);
        PinLru(rest, start, end, newId, Deleted(b, r));
      } else if r.pgstart >= start || r.pgend <= end {
        var b' := if r.pgstart >= start then Shrunk(b, r, end + 1, r.pgend) else Shrunk(b, r, r.pgstart, start - 1);
        PinLru(rest, start, end, newId, b');
        PinCounts(rest, start, end, newId, b');
        assert p.list[1..] == Pin(rest, start, end, newId, b').list;
        NoSecondOrSame(list, start, end, newId, b);
      } else {
        SplitLru(list, start, end, newId, b);
      }
    }
  }

  /** In the cases that shrink an entry the range allocated beforehand is not used further
      down. */
  lemma NoSecondOrSame(list: seq<Range>, start: nat, end: nat, newId: nat, b: Books)
    requires Descending(list) && start <= end && list != [] && list[0].pgend >= start && Overlaps(list[0], start, end)
    requires !Subsumes(list[0], start, end) && (list[0].pgstart >= start || list[0].pgend <= end)
    ensures var r := list[0];
            var b' := if r.pgstart >= start then Shrunk(b, r, end + 1, r.pgend) else Shrunk(b, r, r.pgstart, start - 1);
            Pin(list[1..], start, end, newId, b').spare
  {
    var r := list[0];
    if r.pgstart >= start {
      NoSecondRange(list[1..], start, end, newId, Shrunk(b, r, end + 1, r.pgend), r);
    } else {
      NoSecondRange(list[1..], start, end, newId, Shrunk(b, r, r.pgstart, start - 1), r);
    }
  }

  lemma SplitLru(list: seq<Range>, start: nat, end: nat, newId: nat, b: Books)
    requires Descending(list) && list != [] && list[0].pgstart < start && end < list[0].pgend && start <= end
    requires DistinctIds(list) && newId !in Ids(list) && NoDup(b.lru) && newId !in b.lru && forall x :: x in LruIds(list) ==> x in b.lru
    ensures var p := Pin(list, start, end, newId, b);
            && DistinctIds(p.list) && NoDup(p.books.lru)
            && (forall x: nat :: x in p.books.lru <==> (x in b.lru && x !in LruIds(list)) || x in LruIds(p.list))
  {
    var r, rest := list[0], list[1..];
    var p := Pin(list, start, end, newId, b);
    var lower := r.(pgend := start - 1);
    assert p.list[1..] == [lower] + rest;
    assert ([lower] + rest)[1..] == rest;
    assert Ids([lower] + rest) == {r.id} + Ids(rest);
    assert LruIds([lower] + rest) == (if r.purged then {} else {r.id}) + LruIds(rest);
    LruIdsAreIds(rest);
  }

  // ---------- lists in two parts ----------

  lemma {:induction false} UnpinnedConcat(a: seq<Range>, c: seq<Range>, x: nat)
    ensures Unpinned(a + c, x) <==> Unpinned(a, x) || Unpinned(c, x)
    ensures PurgedAt(a + c, x) <==> PurgedAt(a, x) || PurgedAt(c, x)
  {
    if a == [] {
      assert a + c == c;
    } else {
      assert (a + c)[1..] == a[1..] + c;
      UnpinnedConcat(a[1..], c, x);
    }
  }

  lemma {:induction false} LruConcat(a: seq<Range>, c: seq<Range>)
    ensures LruSize(a + c) == LruSize(a) + LruSize(c)
    ensures Ids(a + c) == Ids(a) + Ids(c) && LruIds(a + c) == LruIds(a) + LruIds(c)
    ensures DistinctIds(a + c) <==> DistinctIds(a) && DistinctIds(c) && Ids(a) !! Ids(c)
  {
    if a == [] {
      assert a + c == c;
    } else {
      assert (a + c)[1..] == a[1..] + c;
      LruConcat(a[1..], c);
    }
  }

  lemma {:induction false} DescendingConcat(a: seq<Range>, c: seq<Range>)
    ensures Descending(a + c) <==> Descending(a) && Descending(c) && (a != [] && c != [] ==> c[0].pgend < a[|a| - 1].pgstart)
  {
    if a == [] {
      assert a + c == c;
    } else {
      assert (a + c)[1..] == a[1..] + c;
      DescendingConcat(a[1..], c);
    }
  }

  lemma DescendingCons(r: Range, c: seq<Range>)
    ensures ([r] + c)[1..] == c
    ensures Descending([r] + c) <==> r.pgstart <= r.pgend && Descending(c) && (c != [] ==> c[0].pgend < r.pgstart)
  {
    assert ([r] + c)[1..] == c;
  }

  // ---------- unpinning ----------

  /** Where the scan of `ashmem_unpin` stops: at an entry below the request or meeting it. */
  function Stop(list: seq<Range>, start: nat, end: nat): (i: nat)
    ensures i <= |list|
    ensures i < |list| ==> list[i].pgend < start || Overlaps(list[i], start, end)
    ensures forall j :: 0 <= j < i ==> !(list[j].pgend < start) && !Overlaps(list[j], start, end)
  {
    if list == [] || list[0].pgend < start || Overlaps(list[0], start, end) then 0
    else
      var i := Stop(list[1..], start, end);
      assert forall j :: 0 < j < i + 1 ==> list[j] == list[1..][j - 1];
      i + 1
  }

  datatype Added = Added(list: seq<Range>, books: Books, spare: bool)

  function Min(x: nat, y: nat): nat {
    if x < y then x else y
  }

  function Max(x: nat, y: nat): nat {
    if x < y then y else x
  }

  /** `ashmem_unpin`: every entry that meets the request is merged into it, and the scan
      starts over; it ends because the list gets shorter. */
  function Unpin(list: seq<Range>, start: nat, end: nat, purged: bool, newId: nat, b: Books): Added
    decreases |list|
  {
    var i := Stop(list, start, end);
    if i == |list| || list[i].pgend < start then
      var r := Range(newId, start, end, purged);
      Added(list[..i] + [r] + list[i..], Allocated(b, r), false)
    else if list[i].pgstart <= start && list[i].pgend >= end then Added(list, b, true)
    else
      var r := list[i];
      Unpin(list[..i] + list[i + 1..], Min(r.pgstart, start), Max(r.pgend, end), purged || r.purged, newId, Deleted(b, r))
  }

  lemma CutList(list: seq<Range>, i: nat)
    requires i < |list|
    ensures list == list[..i] + ([list[i]] + list[i + 1..])
    ensures ([list[i]] + list[i + 1..])[1..] == list[i + 1..]
  {
  }

  lemma Cut(list: seq<Range>, i: nat)
    requires i < |list| && Descending(list)
    ensures Descending(list[..i]) && Descending(list[i + 1..]) && Descending(list[..i] + list[i + 1..]) && list[i].pgstart <= list[i].pgend
    ensures i > 0 ==> list[i].pgend < list[i - 1].pgstart
    ensures i + 1 < |list| ==> list[i + 1].pgend < list[i].pgstart
  {
    CutList(list, i);
    CutParts(list[..i], list[i], list[i + 1..]);
  }

  lemma CutParts(a: seq<Range>, r: Range, c: seq<Range>)
    requires Descending(a + ([r] + c))
    ensures Descending(a) && Descending(c) && Descending(a + c) && r.pgstart <= r.pgend
    ensures a != [] ==> r.pgend < a[|a| - 1].pgstart
    ensures c != [] ==> c[0].pgend < r.pgstart
  {
    hide Descending;
    DescendingCons(r, c);
    DescendingConcat(a, [r] + c);
    NotAbove(a, r, c);
    DescendingConcat(a, c);
  }

  lemma NotAbove(a: seq<Range>, r: Range, c: seq<Range>)
    requires r.pgstart <= r.pgend && (c != [] ==> c[0].pgend < r.pgstart) && (a != [] ==> r.pgend < a[|a| - 1].pgstart)
    ensures a != [] && c != [] ==> c[0].pgend < a[|a| - 1].pgstart
  {
  }

  lemma CutUnpinned(list: seq<Range>, i: nat, x: nat)
    requires i < |list| && Descending(list)
    ensures Unpinned(list, x) <==> Unpinned(list[..i] + list[i + 1..], x) || PageInRange(list[i], x)
    ensures PageInRange(list[i], x) ==> !Unpinned(list[..i] + list[i + 1..], x)
  {
    Cut(list, i);
    CutList(list, i);
    var a, r, c := list[..i], list[i], list[i + 1..];
    UnpinnedConcat(a, [r] + c, x);
    UnpinnedConcat(a, c, x);
    AllBelow(c, r.pgstart);
    if x <= r.pgend {
      AboveAll(a, r.pgend, x);
    }
  }

  lemma CutPurged(list: seq<Range>, i: nat, x: nat)
    requires i < |list| && Descending(list)
    ensures PurgedAt(list, x) <==> PurgedAt(list[..i] + list[i + 1..], x) || (PageInRange(list[i], x) && list[i].purged)
  {
    CutList(list, i);
    UnpinnedConcat(list[..i], [list[i]] + list[i + 1..], x);
    UnpinnedConcat(list[..i], list[i + 1..], x);
  }

  /** Everything in the upper part of a list lies above what follows. */
  lemma {:induction false} AboveAll(a: seq<Range>, page: nat, x: nat)
    requires Descending(a) && (a != [] ==> page < a[|a| - 1].pgstart) && x <= page
    ensures !Unpinned(a, x)
  {
    if a != [] {
      if |a| > 1 {
        LastIsLowest(a);
      }
      AboveAll(a[1..], page, x);
    }
  }

  lemma {:induction false} LastIsLowest(a: seq<Range>)
    requires Descending(a) && a != []
    ensures a[|a| - 1].pgstart <= a[0].pgstart
  {
    if |a| > 1 {
      LastIsLowest(a[1..]);
    }
  }

  /** Unpinning adds exactly the requested pages. */
  lemma {:induction false} UnpinExact(list: seq<Range>, start: nat, end: nat, purged: bool, newId: nat, b: Books)
    requires Descending(list) && start <= end
    ensures var u := Unpin(list, start, end, purged, newId, b);
            && Descending(u.list)
            && forall x: nat :: Unpinned(u.list, x) <==> Unpinned(list, x) || start <= x <= end
    decreases |list|
  {
    var i := Stop(list, start, end);
    var u := Unpin(list, start, end, purged, newId, b);
    if i == |list| || list[i].pgend < start {
      var r := Range(newId, start, end, purged);
      Inserted(list, i, r);
      forall x: nat
        ensures Unpinned(u.list, x) <==> Unpinned(list, x) || PageInRange(r, x)
      {
        InsertedPage(list, i, r, x);
      }
    } else {
      Cut(list, i);
      forall x: nat
        ensures Unpinned(list, x) <==> Unpinned(list[..i] + list[i + 1..], x) || PageInRange(list[i], x)
      {
        CutUnpinned(list, i, x);
      }
      if !(list[i].pgstart <= start && list[i].pgend >= end) {
        UnpinExact(list[..i] + list[i + 1..], Min(list[i].pgstart, start), Max(list[i].pgend, end), purged || list[i].purged, newId, Deleted(b, list[i]));
      }
    }
  }

  lemma Inserted(list: seq<Range>, i: nat, r: Range)
    requires Descending(list) && r.pgstart <= r.pgend && i == Stop(list, r.pgstart, r.pgend)
    requires i == |list| || list[i].pgend < r.pgstart
    ensures Descending(list[..i] + [r] + list[i..])
  {
    hide Descending;
    var a, c := list[..i], list[i..];
    assert list == a + c;
    assert a + [r] + c == a + ([r] + c);
    DescendingCons(r, c);
    DescendingConcat(a, c);
    DescendingConcat(a, [r] + c);
    if a != [] {
      EntryOk(list, i - 1);
    }
  }

  lemma EntryOk(list: seq<Range>, i: nat)
    requires Descending(list) && i < |list|
    ensures list[i].pgstart <= list[i].pgend
  {
    if i > 0 {
      EntryOk(list[1..], i - 1);
    }
  }

  lemma InsertedPage(list: seq<Range>, i: nat, r: Range, x: nat)
    requires i <= |list|
    ensures Unpinned(list[..i] + [r] + list[i..], x) <==> Unpinned(list, x) || PageInRange(r, x)
    ensures PurgedAt(list[..i] + [r] + list[i..], x) <==> PurgedAt(list, x) || (PageInRange(r, x) && r.purged)
  {
    var a, c := list[..i], list[i..];
    assert list == a + c;
    assert a + [r] + c == a + ([r] + c);
    assert ([r] + c)[1..] == c;
    UnpinnedConcat(a, c, x);
    UnpinnedConcat(a, [r] + c, x);
  }

  /** A page that was purged while unpinned stays marked, and so does everything merged with
      it; `gap` is a page of the request that no entry holds, once something was merged. */
  lemma {:induction false} UnpinKeepsPurged(list: seq<Range>, start: nat, end: nat, purged: bool, newId: nat, b: Books, gap: nat, x: nat)
    requires Descending(list) && start <= end
    requires purged ==> start <= gap <= end && !Unpinned(list, gap)
    requires PurgedAt(list, x) || (purged && start <= x <= end)
    ensures PurgedAt(Unpin(list, start, end, purged, newId, b).list, x)
    decreases |list|
  {
    var i := Stop(list, start, end);
    if i == |list| || list[i].pgend < start {
      InsertedPage(list, i, Range(newId, start, end, purged), x);
    } else {
      Cut(list, i);
      CutPurged(list, i, x);
      CutUnpinned(list, i, gap);
      CutUnpinned(list, i, list[i].pgstart);
      if !(list[i].pgstart <= start && list[i].pgend >= end) {
        UnpinKeepsPurged(list[..i] + list[i + 1..], Min(list[i].pgstart, start), Max(list[i].pgend, end), purged || list[i].purged, newId, Deleted(b, list[i]), list[i].pgstart, x);
      }
    }
  }

  /** The count and the LRU list follow, and the range allocated beforehand is used exactly
      when the request was not covered already. */
  lemma {:induction false} UnpinBooks(list: seq<Range>, start: nat, end: nat, purged: bool, newId: nat, b: Books)
    requires Descending(list) && start <= end
    requires DistinctIds(list) && newId !in Ids(list) && NoDup(b.lru) && newId !in b.lru && forall x :: x in LruIds(list) ==> x in b.lru
    ensures var u := Unpin(list, start, end, purged, newId, b);
            && u.books.count - b.count == LruSize(u.list) - LruSize(list)
            && DistinctIds(u.list) && NoDup(u.books.lru) && Ids(u.list) <= Ids(list) + {newId} && (u.spare ==> newId !in Ids(u.list))
            && (forall x: nat :: x in u.books.lru <==> (x in b.lru && x !in LruIds(list)) || x in LruIds(u.list))
    decreases |list|
  {
    var i := Stop(list, start, end);
    LruIdsAreIds(list);
    if i == |list| || list[i].pgend < start {
      InsertedBooks(list, i, Range(newId, start, end, purged), b);
    } else {
      var r := list[i];
      if !(r.pgstart <= start && r.pgend >= end) {
        Cut(list, i);
        CutBooks(list, i, b);
        UnpinBooks(list[..i] + list[i + 1..], Min(r.pgstart, start), Max(r.pgend, end), purged || r.purged, newId, Deleted(b, r));
      }
    }
  }

  lemma InsertedParts(list: seq<Range>, i: nat, r: Range)
    requires i <= |list|
    ensures var list' := list[..i] + [r] + list[i..];
            && LruSize(list') == LruSize(list) + (if r.purged then 0 else RangeSize(r))
            && Ids(list') == Ids(list) + {r.id}
            && LruIds(list') == LruIds(list) + (if r.purged then {} else {r.id})
            && (DistinctIds(list) && r.id !in Ids(list) ==> DistinctIds(list'))
  {
    var a, c := list[..i], list[i..];
    assert list == a + c;
    assert a + [r] + c == a + ([r] + c);
    assert ([r] + c)[1..] == c;
    LruConcat(a, c);
    LruConcat(a, [r] + c);
  }

  lemma InsertedBooks(list: seq<Range>, i: nat, r: Range, b: Books)
    requires i <= |list| && DistinctIds(list) && r.id !in Ids(list) && NoDup(b.lru) && r.id !in b.lru && forall x :: x in LruIds(list) ==> x in b.lru
    ensures var list' := list[..i] + [r] + list[i..]; var b' := Allocated(b, r);
            && b'.count - b.count == LruSize(list') - LruSize(list)
            && DistinctIds(list') && NoDup(b'.lru) && Ids(list') == Ids(list) + {r.id}
            && (forall x: nat :: x in b'.lru <==> (x in b.lru && x !in LruIds(list)) || x in LruIds(list'))
  {
    InsertedParts(list, i, r);
  }

  lemma CutBooks(list: seq<Range>, i: nat, b: Books)
    requires i < |list| && DistinctIds(list) && NoDup(b.lru) && forall x :: x in LruIds(list) ==> x in b.lru
    ensures var r := list[i]; var list' := list[..i] + list[i + 1..]; var b' := Deleted(b, r);
            && b'.count - b.count == LruSize(list') - LruSize(list)
            && DistinctIds(list') && NoDup(b'.lru) && Ids(list') == Ids(list) - {r.id}
            && (forall x :: x in LruIds(list') ==> x in b'.lru)
            && LruIds(list) == LruIds(list') + (if r.purged then {} else {r.id})
            && (forall x: nat :: x in b'.lru <==> x in b.lru && !(x == r.id && !r.purged))
  {
    var a, r, c := list[..i], list[i], list[i + 1..];
    assert list == a + ([r] + c);
    assert ([r] + c)[1..] == c;
    LruConcat(a, [r] + c);
    LruConcat(a, c);
    LruIdsAreIds(a);
    LruIdsAreIds(c);
    RemoveFacts(b.lru, r.id);
  }

  // ---------- the status query ----------

  /** `ashmem_get_pin_status`: unpinned as soon as one entry meets the request. */
  function Status(list: seq<Range>, start: nat, end: nat): bool {
    list != [] && !(list[0].pgend < start) && (Overlaps(list[0], start, end) || Status(list[1..], start, end))
  }

  lemma {:induction false} StatusExact(list: seq<Range>, start: nat, end: nat)
    requires Descending(list) && start <= end
    ensures Status(list, start, end) ==> exists x: nat :: start <= x <= end && Unpinned(list, x)
    ensures forall x: nat :: start <= x <= end && Unpinned(list, x) ==> Status(list, start, end)
  {
    if list != [] {
      var r := list[0];
      if r.pgend < start {
        AllBelow(list, start);
      } else {
        StatusExact(list[1..], start, end);
        if Overlaps(r, start, end) {
          var x := if r.pgstart >= start then r.pgstart else start;
          assert start <= x <= end && Unpinned(list, x);
        } else if Status(list[1..], start, end) {
          var x: nat :| start <= x <= end && Unpinned(list[1..], x);
          assert Unpinned(list, x);
        }
      }
    }
  }
}
