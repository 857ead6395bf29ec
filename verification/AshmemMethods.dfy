/** The loops of the ashmem driver over the ranges of an area, in place, and the commands that
    run them. */
module AshmemMethods {
  import opened Common
  import opened AshmemRanges
  import opened Ashmem
  import opened AshmemChecks

  datatype Command = AshmemPin | AshmemUnpin | AshmemGetPinStatus

  datatype Answer = NoMemory | Invalid | Done | NotPurged | WasPurged | IsUnpinned | IsPinned

  class Device {
    var areas: seq<Area>
    var lru: seq<nat>
    var lruCount: int
    var nextId: nat
    var inflight: seq<Punch>
    ghost var punched: set<(nat, nat)>

    ghost function Now(): State
      reads this
    {
      State(areas, Books(lru, lruCount), nextId, inflight, punched)
    }

    constructor ()
      ensures Inv(Now()) && areas == []
    {
      areas, lru, lruCount, nextId, inflight := [], [], 0, 0, [];
      punched := {};
    }

    /** `lru_del`. */
    method LruDel(r: Range)
      modifies this`lru, this`lruCount
      ensures Books(lru, lruCount) == Deleted(Books(old(lru), old(lruCount)), r.(purged := false))
    {
      lru := Remove(lru, r.id);
      lruCount := lruCount - RangeSize(r);
    }

    /** `range_del` as far as the books go. */
    method RangeDel(r: Range)
      modifies this`lru, this`lruCount
      ensures Books(lru, lruCount) == Deleted(Books(old(lru), old(lruCount)), r)
    {
      if !r.purged {
        LruDel(r);
      }
    }

    /** One entry that meets the request and is not split: exactly its pages outside the request
        are left, under the same id and mark; the count follows, and the entry leaves the LRU list
        only when nothing is left of it. */
    method PinEntry(r: Range, start: nat, end: nat) returns (left: seq<Range>)
      requires Overlaps(r, start, end) && start <= end && !(r.pgstart < start && end < r.pgend)
      modifies this`lru, this`lruCount
      ensures forall x: nat :: Unpinned(left, x) <==> PageInRange(r, x) && !(start <= x <= end)
      ensures |left| <= 1 && Descending(left) && forall k :: 0 <= k < |left| ==> left[k].id == r.id && left[k].purged == r.purged
      ensures lruCount - old(lruCount) == LruSize(left) - LruSize([r])
      ensures lru == if r.purged || left != [] then old(lru) else Remove(old(lru), r.id)
      ensures left == Rest(r, start, end) && Books(lru, lruCount) == BooksAfter(Books(old(lru), old(lruCount)), r, start, end)
    {
      if Subsumes(r, start, end) {
        RangeDel(r);
        left := [];
      } else if r.pgstart >= start {
        if !r.purged {
          lruCount := lruCount - (RangeSize(r) - (r.pgend - (end + 1) + 1));
        }
        left := [r.(pgstart := end + 1)];
      } else {
        if !r.purged {
          lruCount := lruCount - (RangeSize(r) - (start - 1 - r.pgstart + 1));
        }
        left := [r.(pgend := start - 1)];
      }
    }

    /** `ashmem_pin`: down the list, with the four cases of an entry that meets the request. */
    method PinRanges(a: nat, start: nat, end: nat) returns (wasPurged: bool, spare: bool)
      requires IsOpen(Now(), a) && InOrder(areas[a].list, start, end)
      modifies this`areas, this`lru, this`lruCount
      ensures var p := Pin(old(areas)[a].list, start, end, nextId, Books(old(lru), old(lruCount)));
              && areas == old(areas)[a := Area(true, p.list)]
              && Books(lru, lruCount) == p.books && wasPurged == p.wasPurged && spare == p.spare
    {
      hide Pin, Overlaps, Rest, BooksAfter;
      var done: seq<Range>, rest := [], areas[a].list;
      wasPurged, spare := false, true;
      ghost var p := Pin(rest, start, end, nextId, Books(lru, lruCount));
      assert p.list == [] + p.list;
      while rest != [] && !(rest[0].pgend < start)
        invariant spare && areas == old(areas) && InOrder(rest, start, end)
        invariant Continues(p, done, wasPurged, Pin(rest, start, end, nextId, Books(lru, lruCount)))
        decreases |rest|
      {
        var r := rest[0];
        if !Overlaps(r, start, end) {
          PinSkips(p, done, wasPurged, rest, start, end, nextId, Books(lru, lruCount));
          done := done + [r];
        } else if r.pgstart < start && end < r.pgend {
          PinSplits(rest, start, end, nextId, Books(lru, lruCount));
          wasPurged := wasPurged || r.purged;
          var upper := Range(nextId, end + 1, r.pgend, r.purged);
          if !r.purged {
            lru := lru + [upper.id];
            lruCount := lruCount + RangeSize(upper);
            lruCount := lruCount - (RangeSize(r) - (start - 1 - r.pgstart + 1));
          }
          areas := areas[a := Area(true, done + ([upper, r.(pgend := start - 1)] + rest[1..]))];
          return wasPurged, false;
        } else {
          PinMeets(p, done, wasPurged, rest, start, end, nextId, Books(lru, lruCount));
          var left := PinEntry(r, start, end);
          wasPurged := wasPurged || r.purged;
          done := done + left;
        }
        rest := rest[1..];
      }
      PinEnds(rest, start, end, nextId, Books(lru, lruCount));
      areas := areas[a := Area(true, done + rest)];
    }

    /** `ashmem_unpin` with its restarts. */
    method UnpinRanges(a: nat, first: nat, last: nat) returns (spare: bool)
      requires IsOpen(Now(), a)
      modifies this`areas, this`lru, this`lruCount
      ensures var u := Unpin(old(areas)[a].list, first, last, false, nextId, Books(old(lru), old(lruCount)));
              && areas == old(areas)[a := Area(true, u.list)] && Books(lru, lruCount) == u.books && spare == u.spare
    {
      hide Unpin, Stop, Overlaps, Remove;
      var list := areas[a].list;
      var start, end, purged := first, last, false;
      ghost var u := Unpin(list, start, end, purged, nextId, Books(lru, lruCount));
      var i := 0;
      while i < |list| && !(list[i].pgend < start)
        invariant 0 <= i <= |list| && areas == old(areas)
        invariant forall j :: 0 <= j < i ==> !(list[j].pgend < start) && !Overlaps(list[j], start, end)
        invariant u == Unpin(list, start, end, purged, nextId, Books(lru, lruCount))
        decreases |list|, |list| - i
      {
        var r := list[i];
        if r.pgstart <= start && r.pgend >= end {
          UnpinFinds(list, start, end, purged, nextId, Books(lru, lruCount), i);
          areas := areas[a := Area(true, list)];
          return true;
        }
        if Overlaps(r, start, end) {
          UnpinMerges(list, start, end, purged, nextId, Books(lru, lruCount), i);
          start, end, purged := Min(r.pgstart, start), Max(r.pgend, end), purged || r.purged;
          RangeDel(r);
          list := list[..i] + list[i + 1..];
          i := 0;
        } else {
          i := i + 1;
        }
      }
      UnpinEnds(list, start, end, purged, nextId, Books(lru, lruCount), i);
      var r := Range(nextId, start, end, purged);
      if !purged {
        lru := lru + [r.id];
        lruCount := lruCount + RangeSize(r);
      }
      areas := areas[a := Area(true, list[..i] + [r] + list[i..])];
      return false;
    }

    /** `ashmem_get_pin_status`. */
    method PinStatus(a: nat, start: nat, end: nat) returns (unpinned: bool)
      requires IsOpen(Now(), a)
      ensures unpinned == Status(areas[a].list, start, end)
    {
      var rest := areas[a].list;
      while rest != [] && !(rest[0].pgend < start)
        invariant Status(rest, start, end) == Status(areas[a].list, start, end)
        decreases |rest|
      {
        if Overlaps(rest[0], start, end) {
          return true;
        }
        rest := rest[1..];
      }
      return false;
    }

    /** ASHMEM_PIN on pages: waits (here: requires) that no hole is being punched. */
    method PinCommand(a: nat, start: nat, end: nat) returns (wasPurged: bool)
      requires Inv(Now()) && IsOpen(Now(), a) && InOrder(areas[a].list, start, end) && inflight == []
      modifies this
      ensures Inv(Now()) && Now() == PinPages(old(Now()), a, start, end)
      ensures forall x: nat :: Unpinned(areas[a].list, x) <==> Unpinned(old(areas)[a].list, x) && !(start <= x <= end)
      ensures wasPurged ==> exists x: nat :: start <= x <= end && PurgedAt(old(areas)[a].list, x)
      ensures forall x: nat :: start <= x <= end && PurgedAt(old(areas)[a].list, x) ==> wasPurged
      ensures forall x: nat :: start <= x <= end && (a, x) in old(punched) ==> wasPurged
    {
      if start <= end {
        PinKeepsInv(Now(), a, start, end);
        PinSets(Now(), a, start, end);
      } else {
        PinNothing(Now(), a, start, end);
      }
      InvParts(Now());
      PunchedIsPurged(Now(), a);
      hide Inv, PunchedOk, LruOk, IdsApart, AreaOk, InOrder;
      ghost var before := Now();
      assert forall x: nat :: start <= x <= end && (a, x) in before.punched ==> PurgedAt(before.areas[a].list, x);
      var spare;
      wasPurged, spare := PinRanges(a, start, end);
      nextId := nextId + 1;
      punched := set k | k in punched && !(k.0 == a && start <= k.1 <= end);
    }

    /** ASHMEM_UNPIN on pages.  An empty request leaves an empty range in front of the list. */
    method UnpinCommand(a: nat, start: nat, end: nat)
      requires Inv(Now()) && IsOpen(Now(), a) && InOrder(areas[a].list, start, end) && inflight == []
      modifies this
      ensures Now() == UnpinPages(old(Now()), a, start, end)
      ensures Inv(Now()) <==> start <= end
      ensures start > end ==> areas[a].list == [Range(old(nextId), start, end, false)] + old(areas)[a].list
      ensures forall x: nat :: Unpinned(areas[a].list, x) <==> Unpinned(old(areas)[a].list, x) || start <= x <= end
    {
      if start <= end {
        UnpinKeepsInv(Now(), a, start, end);
        UnpinSets(Now(), a, start, end);
      } else {
        UnpinNothing(Now(), a, start, end);
      }
      hide Inv, PunchedOk, LruOk, IdsApart, AreaOk;
      var spare := UnpinRanges(a, start, end);
      nextId := nextId + 1;
    }

    /** ASHMEM_GET_PIN_STATUS on pages. */
    method StatusCommand(a: nat, start: nat, end: nat) returns (unpinned: bool)
      requires Inv(Now()) && IsOpen(Now(), a) && InOrder(areas[a].list, start, end)
      ensures unpinned ==> exists x: nat :: start <= x <= end && Unpinned(areas[a].list, x)
      ensures forall x: nat :: start <= x <= end && Unpinned(areas[a].list, x) ==> unpinned
    {
      hide PunchedOk, LruOk, IdsApart;
      assert AreaOk(Now(), a);
      if start <= end {
        StatusExact(areas[a].list, start, end);
      }
      unpinned := PinStatus(a, start, end);
    }

    /** `ashmem_pin_unpin` on an area of `size` bytes, as far as it is not over with a bad
        pointer.  The answer and the effect are in terms of the bytes asked for. */
    method PinUnpin(a: nat, command: Command, size: size_t, offset: u32, len0: u32, mapped: bool, memory: bool) returns (r: Answer)
      requires Inv(Now()) && IsOpen(Now(), a) && inflight == []
      requires InArea(areas[a].list, PageAlign(size) / PAGE) && (mapped ==> PageAlign(size) > 0)
      requires Length(size, offset, len0) == 0 ==> PageAlign(size) <= U32_MAX
      modifies this
      ensures IsOpen(Now(), a) && InArea(areas[a].list, PageAlign(size) / PAGE)
      ensures r == NoMemory <==> !memory && !command.AshmemGetPinStatus?
      ensures r == Invalid <==> r != NoMemory && !(mapped && WholePages(size, offset, Length(size, offset, len0)))
      ensures r in {NoMemory, Invalid} || command.AshmemGetPinStatus? ==> Now() == old(Now())
      ensures r !in {NoMemory, Invalid} ==>
                var length := Length(size, offset, len0); var list := old(areas)[a].list;
                match command
                case AshmemPin =>
                  && (forall x: nat :: Unpinned(areas[a].list, x) <==> Unpinned(list, x) && !Covered(offset, length, x))
                  && r in {WasPurged, NotPurged}
                  && (r == WasPurged ==> exists x: nat :: Covered(offset, length, x) && PurgedAt(list, x))
                  && (forall x: nat :: Covered(offset, length, x) && PurgedAt(list, x) ==> r == WasPurged)
                case AshmemUnpin =>
                  r == Done && forall x: nat :: Unpinned(areas[a].list, x) <==> Unpinned(list, x) || Covered(offset, length, x)
                case AshmemGetPinStatus =>
                  && r in {IsUnpinned, IsPinned}
                  && (r == IsUnpinned ==> exists x: nat :: Covered(offset, length, x) && Unpinned(list, x))
                  && (forall x: nat :: Covered(offset, length, x) && Unpinned(list, x) ==> r == IsUnpinned)
      ensures r == NotPurged ==> forall x: nat :: Covered(offset, Length(size, offset, len0), x) ==> (a, x) !in old(punched)
      ensures forall b :: 0 <= b < |areas| && b != a ==> b < |old(areas)| && areas[b] == old(areas)[b]
      ensures Inv(Now()) <==> !(r == Done && Length(size, offset, len0) == 0)
    {
      if !memory && !command.AshmemGetPinStatus? {
        return NoMemory;
      }
      var p := CheckPages(size, offset, len0);
      AcceptedExactly(size, offset, len0);
      if !mapped || p.BadPages? {
        return Invalid;
      }
      RangeInOrder(Now(), a, size, offset, len0);
      CoveredPages(size, offset, len0);
      match command {
        case AshmemPin =>
          var wasPurged := PinCommand(a, p.start, p.end);
          r := if wasPurged then WasPurged else NotPurged;
        case AshmemUnpin =>
          UnpinCommand(a, p.start, p.end);
          r := Done;
        case AshmemGetPinStatus =>
          var unpinned := StatusCommand(a, p.start, p.end);
          r := if unpinned then IsUnpinned else IsPinned;
      }
    }

    /** `ashmem_release`. */
    method Release(a: nat)
      requires Inv(Now()) && IsOpen(Now(), a)
      modifies this
      ensures Inv(Now()) && Now() == Close(old(Now()), a)
    {
      CloseKeepsInv(Now(), a);
      hide Inv;
      ghost var all := DeleteAll(areas[a].list, Books(lru, lruCount));
      ghost var list := areas[a].list;
      while areas[a].list != []
        invariant a < |areas| && areas == old(areas)[a := Area(true, areas[a].list)]
        invariant nextId == old(nextId) && inflight == old(inflight) && punched == old(punched)
        invariant DeleteAll(areas[a].list, Books(lru, lruCount)) == all
        decreases |areas[a].list|
      {
        RangeDel(areas[a].list[0]);
        areas := areas[a := Area(true, areas[a].list[1..])];
      }
      assert old(areas)[a := Area(true, areas[a].list)][a := Area(false, [])] == old(areas)[a := Area(false, [])];
      areas := areas[a := Area(false, [])];
    }

    /** The part of `ashmem_shrink_scan` under the mutex: the first range of the LRU list, entry
        k of area a, is marked and its hole announced. */
    method ShrinkFirst(a: nat, k: nat) returns (freed: int)
      requires Inv(Now()) && IsVictim(Now(), a, k)
      modifies this
      ensures Inv(Now()) && Now() == Shrink(old(Now()), a, k)
      ensures freed == old(areas)[a].list[k].pgend - old(areas)[a].list[k].pgstart + 1
    {
      ShrinkKeepsInv(Now(), a, k);
      hide Inv;
      var r := areas[a].list[k];
      inflight := inflight + [Punch(a, r.pgstart, r.pgend)];
      areas := areas[a := areas[a].(list := areas[a].list[k := r.(purged := true)])];
      LruDel(r);
      freed := RangeSize(r);
      punched := punched + PagesOf(a, r);
    }
  }

  // ---------- steps of the pin loop ----------

  function Rest(r: Range, start: nat, end: nat): seq<Range> {
    if Subsumes(r, start, end) then []
    else if r.pgstart >= start then [r.(pgstart := end + 1)]
    else if start > 0 then [r.(pgend := start - 1)]
    else []
  }

  function BooksAfter(b: Books, r: Range, start: nat, end: nat): Books {
    if Subsumes(r, start, end) then Deleted(b, r)
    else if r.pgstart >= start then Shrunk(b, r, end + 1, r.pgend)
    else if start > 0 then Shrunk(b, r, r.pgstart, start - 1)
    else b
  }

  /** What is still to come, q, completes what was done to the whole result p. */
  ghost predicate Continues(p: Pinned, done: seq<Range>, wasPurged: bool, q: Pinned) {
    p == Pinned(done + q.list, q.books, wasPurged || q.wasPurged, q.spare)
  }

  lemma PinSkips(p: Pinned, done: seq<Range>, wasPurged: bool, rest: seq<Range>, start: nat, end: nat, newId: nat, b: Books)
    requires rest != [] && !(rest[0].pgend < start) && !Overlaps(rest[0], start, end)
    requires Continues(p, done, wasPurged, Pin(rest, start, end, newId, b))
    ensures Continues(p, done + [rest[0]], wasPurged, Pin(rest[1..], start, end, newId, b))
  {
    var q := Pin(rest[1..], start, end, newId, b);
    assert (done + [rest[0]]) + q.list == done + ([rest[0]] + q.list);
  }

  lemma PinOne(rest: seq<Range>, start: nat, end: nat, newId: nat, b: Books)
    requires rest != [] && !(rest[0].pgend < start) && Overlaps(rest[0], start, end) && !(rest[0].pgstart < start && end < rest[0].pgend)
    ensures var r := rest[0];
            var q := Pin(rest[1..], start, end, newId, BooksAfter(b, r, start, end));
            Pin(rest, start, end, newId, b) == Pinned(Rest(r, start, end) + q.list, q.books, r.purged || q.wasPurged, q.spare)
  {
    hide Overlaps, Remove, Deleted, Shrunk;
    var r := rest[0];
    var q := Pin(rest[1..], start, end, newId, BooksAfter(b, r, start, end));
    assert [] + q.list == q.list;
  }

  lemma PinMeets(p: Pinned, done: seq<Range>, wasPurged: bool, rest: seq<Range>, start: nat, end: nat, newId: nat, b: Books)
    requires rest != [] && !(rest[0].pgend < start) && Overlaps(rest[0], start, end) && !(rest[0].pgstart < start && end < rest[0].pgend)
    requires Continues(p, done, wasPurged, Pin(rest, start, end, newId, b))
    ensures var r := rest[0];
            Continues(p, done + Rest(r, start, end), wasPurged || r.purged, Pin(rest[1..], start, end, newId, BooksAfter(b, r, start, end)))
  {
    var r := rest[0];
    PinOne(rest, start, end, newId, b);
    hide Pin, Rest, BooksAfter, Overlaps;
    var q := Pin(rest[1..], start, end, newId, BooksAfter(b, r, start, end));
    assert (done + Rest(r, start, end)) + q.list == done + (Rest(r, start, end) + q.list);
  }

  lemma PinSplits(rest: seq<Range>, start: nat, end: nat, newId: nat, b: Books)
    requires rest != [] && rest[0].pgstart < start && end < rest[0].pgend && start <= end
    ensures var r := rest[0]; var upper := Range(newId, end + 1, r.pgend, r.purged);
            Pin(rest, start, end, newId, b)
            == Pinned([upper, r.(pgend := start - 1)] + rest[1..], Shrunk(Allocated(b, upper), r, r.pgstart, start - 1), r.purged, false)
  {
  }

  lemma PinEnds(rest: seq<Range>, start: nat, end: nat, newId: nat, b: Books)
    requires rest == [] || rest[0].pgend < start
    ensures Pin(rest, start, end, newId, b) == Pinned(rest, b, false, true)
  {
  }

  lemma StopsHere(list: seq<Range>, start: nat, end: nat, i: nat)
    requires i <= |list| && forall j :: 0 <= j < i ==> !(list[j].pgend < start) && !Overlaps(list[j], start, end)
    requires i == |list| || list[i].pgend < start || list[i].pgstart <= start || Overlaps(list[i], start, end)
    ensures Stop(list, start, end) == i
  {
  }

  // ---------- steps of the unpin loop ----------

  lemma UnpinFinds(list: seq<Range>, start: nat, end: nat, purged: bool, newId: nat, b: Books, i: nat)
    requires i < |list| && forall j :: 0 <= j < i ==> !(list[j].pgend < start) && !Overlaps(list[j], start, end)
    requires list[i].pgstart <= start <= list[i].pgend && end <= list[i].pgend
    ensures Unpin(list, start, end, purged, newId, b) == Added(list, b, true)
  {
    StopsHere(list, start, end, i);
  }

  lemma UnpinMerges(list: seq<Range>, start: nat, end: nat, purged: bool, newId: nat, b: Books, i: nat)
    requires i < |list| && forall j :: 0 <= j < i ==> !(list[j].pgend < start) && !Overlaps(list[j], start, end)
    requires Overlaps(list[i], start, end) && !(list[i].pgend < start) && !(list[i].pgstart <= start && list[i].pgend >= end)
    ensures var r := list[i];
            Unpin(list, start, end, purged, newId, b)
            == Unpin(list[..i] + list[i + 1..], Min(r.pgstart, start), Max(r.pgend, end), purged || r.purged, newId, Deleted(b, r))
  {
    StopsHere(list, start, end, i);
  }

  lemma UnpinEnds(list: seq<Range>, start: nat, end: nat, purged: bool, newId: nat, b: Books, i: nat)
    requires i <= |list| && forall j :: 0 <= j < i ==> !(list[j].pgend < start) && !Overlaps(list[j], start, end)
    requires i == |list| || list[i].pgend < start
    ensures var r := Range(newId, start, end, purged);
            Unpin(list, start, end, purged, newId, b) == Added(list[..i] + [r] + list[i..], Allocated(b, r), false)
  {
    StopsHere(list, start, end, i);
  }

  // ---------- the pages of a request ----------

  /** The request is not empty, or lies behind every range. */
  predicate InOrder(list: seq<Range>, start: nat, end: nat) {
    start <= end || list == [] || list[0].pgend < start
  }

  /** No range reaches beyond the area's pages. */
  ghost predicate InArea(list: seq<Range>, pages: nat) {
    forall x: nat :: Unpinned(list, x) ==> x < pages
  }

  lemma PinSets(s: State, a: nat, start: nat, end: nat)
    requires Inv(s) && IsOpen(s, a) && start <= end
    ensures var list := s.areas[a].list; var p := Pin(list, start, end, s.nextId, s.books);
            && (forall x: nat :: Unpinned(p.list, x) <==> Unpinned(list, x) && !(start <= x <= end))
            && (p.wasPurged ==> exists x: nat :: start <= x <= end && PurgedAt(list, x))
            && (forall x: nat :: start <= x <= end && PurgedAt(list, x) ==> p.wasPurged)
  {
    hide PunchedOk, LruOk, IdsApart;
    assert AreaOk(s, a);
    PinExact(s.areas[a].list, start, end, s.nextId, s.books);
    PinAnswer(s.areas[a].list, start, end, s.nextId, s.books);
  }

  lemma UnpinSets(s: State, a: nat, start: nat, end: nat)
    requires Inv(s) && IsOpen(s, a) && start <= end
    ensures var list := s.areas[a].list; var u := Unpin(list, start, end, false, s.nextId, s.books);
            forall x: nat :: Unpinned(u.list, x) <==> Unpinned(list, x) || start <= x <= end
  {
    hide PunchedOk, LruOk, IdsApart;
    assert AreaOk(s, a);
    UnpinExact(s.areas[a].list, start, end, false, s.nextId, s.books);
  }

  /** Pinning no page, behind every range. */
  lemma PinNothing(s: State, a: nat, start: nat, end: nat)
    requires Inv(s) && IsOpen(s, a) && start > end && InOrder(s.areas[a].list, start, end)
    ensures Inv(PinPages(s, a, start, end))
    ensures Pin(s.areas[a].list, start, end, s.nextId, s.books) == Pinned(s.areas[a].list, s.books, false, true)
  {
    var s' := PinPages(s, a, start, end);
    PinEnds(s.areas[a].list, start, end, s.nextId, s.books);
    assert s'.areas == s.areas;
    assert s'.punched == s.punched;
    LaterIdKeepsInv(s, s');
  }

  lemma LaterIdKeepsInv(s: State, s': State)
    requires Inv(s) && s' == s.(nextId := s'.nextId) && s.nextId <= s'.nextId
    ensures Inv(s')
  {
    hide PunchedOk, LruOk, IdsApart, Descending, DistinctIds;
    InvParts(s);
    forall a | 0 <= a < |s'.areas|
      ensures AreaOk(s', a)
    {
      assert AreaOk(s, a);
    }
    SameRest(s, s');
  }

  lemma SameRest(s: State, s': State)
    requires LruOk(s) && IdsApart(s) && PunchedOk(s) && s' == s.(nextId := s'.nextId)
    ensures LruOk(s') && IdsApart(s') && PunchedOk(s')
  {
  }

  /** Unpinning no page, behind every range: an empty range goes on the list, which no longer
      is as the other commands rely on. */
  lemma UnpinNothing(s: State, a: nat, start: nat, end: nat)
    requires IsOpen(s, a) && start > end && InOrder(s.areas[a].list, start, end)
    ensures var u := Unpin(s.areas[a].list, start, end, false, s.nextId, s.books);
            && u.list == [Range(s.nextId, start, end, false)] + s.areas[a].list
            && forall x: nat :: Unpinned(u.list, x) <==> Unpinned(s.areas[a].list, x)
    ensures !Inv(UnpinPages(s, a, start, end))
  {
    var list := s.areas[a].list;
    UnpinEnds(list, start, end, false, s.nextId, s.books, 0);
    var r := Range(s.nextId, start, end, false);
    assert list[..0] + [r] + list[0..] == [r] + list;
    assert ([r] + list)[1..] == list;
    assert !Descending([r] + list);
    var s' := UnpinPages(s, a, start, end);
    assert !AreaOk(s', a);
  }

  /** What the commands on pages require of a request that has passed the checks. */
  lemma RangeInOrder(s: State, a: nat, size: size_t, offset: u32, len0: u32)
    requires Inv(s) && IsOpen(s, a) && InArea(s.areas[a].list, PageAlign(size) / PAGE) && PageAlign(size) > 0
    requires CheckPages(size, offset, len0).Pages? && (Length(size, offset, len0) == 0 ==> PageAlign(size) <= U32_MAX)
    ensures var p := CheckPages(size, offset, len0);
            && InOrder(s.areas[a].list, p.start, p.end)
            && (p.start <= p.end <==> Length(size, offset, len0) != 0)
            && (Length(size, offset, len0) != 0 ==> p.end < PageAlign(size) / PAGE)
  {
    hide PunchedOk, LruOk, IdsApart, CheckPages, Length, PageAlign;
    PagesInOrder(size, offset, len0);
    var list := s.areas[a].list;
    if Length(size, offset, len0) == 0 {
      RestCanBeEmpty(size, offset, len0);
      PagesCovered(size, offset, len0, 0);
      assert AreaOk(s, a);
      if list != [] {
        assert Unpinned(list, list[0].pgend);
      }
    }
  }

  lemma CoveredPages(size: size_t, offset: u32, len0: u32)
    requires CheckPages(size, offset, len0).Pages? && (offset == 0 ==> Length(size, offset, len0) != 0)
    ensures var p := CheckPages(size, offset, len0);
            forall x: nat :: p.start <= x <= p.end <==> Covered(offset, Length(size, offset, len0), x)
  {
    hide CheckPages, Length, Covered;
    PagesInOrder(size, offset, len0);
    var p := CheckPages(size, offset, len0);
    forall x: nat
      ensures p.start <= x <= p.end <==> Covered(offset, Length(size, offset, len0), x)
    {
      PagesCovered(size, offset, len0, x);
    }
  }

  lemma PunchedIsPurged(s: State, a: nat)
    requires PunchedOk(s) && IsOpen(s, a)
    ensures forall x: nat :: (a, x) in s.punched ==> PurgedAt(s.areas[a].list, x)
  {
  }
}
