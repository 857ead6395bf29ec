/** All ashmem areas with the global LRU list and the shrinker, which punches holes outside
    the mutex while other sections run. */
module Ashmem {
  import opened Common
  import opened AshmemRanges

  /** An area; a closed one has no ranges any more. */
  datatype Area = Area(live: bool, list: seq<Range>)

  /** A hole being punched: one unit of `ashmem_shrink_inflight`. */
  datatype Punch = Punch(area: nat, start: nat, end: nat)

  /** `punched` is specification only: the pages that were punched, or are being punched,
      since they were last unpinned. */
  datatype State = State(areas: seq<Area>, books: Books, nextId: nat, inflight: seq<Punch>, punched: set<(nat, nat)>)

  function Total(areas: seq<Area>): int {
    if areas == [] then 0 else LruSize(areas[0].list) + Total(areas[1..])
  }

  ghost predicate AreaOk(s: State, a: nat)
    requires a < |s.areas|
  {
    var list := s.areas[a].list;
    && Descending(list) && DistinctIds(list)
    && (forall x :: x in Ids(list) ==> x < s.nextId)
    && (!s.areas[a].live ==> list == [])
  }

  ghost predicate LruOk(s: State) {
    && NoDup(s.books.lru)
    && (forall x :: x in s.books.lru ==> exists a :: 0 <= a < |s.areas| && x in LruIds(s.areas[a].list))
    && (forall a, x :: 0 <= a < |s.areas| && x in LruIds(s.areas[a].list) ==> x in s.books.lru)
    && s.books.count == Total(s.areas)
  }

  ghost predicate IdsApart(s: State) {
    forall a, b :: 0 <= a < b < |s.areas| ==> Ids(s.areas[a].list) !! Ids(s.areas[b].list)
  }

  /** What is punched, or being punched, in an open area lies in purged ranges. */
  ghost predicate PunchedOk(s: State) {
    && (forall i :: 0 <= i < |s.inflight| ==> s.inflight[i].area < |s.areas|)
    && (forall i, x: nat :: 0 <= i < |s.inflight| && s.areas[s.inflight[i].area].live && s.inflight[i].start <= x <= s.inflight[i].end ==>
          PurgedAt(s.areas[s.inflight[i].area].list, x))
    && (forall k :: k in s.punched ==> k.0 < |s.areas|)
    && (forall a: nat, x: nat :: (a, x) in s.punched && a < |s.areas| && s.areas[a].live ==> PurgedAt(s.areas[a].list, x))
  }

  ghost predicate Inv(s: State) {
    (forall a :: 0 <= a < |s.areas| ==> AreaOk(s, a)) && LruOk(s) && IdsApart(s) && PunchedOk(s)
  }

  lemma {:induction false} TotalChanged(areas: seq<Area>, a: nat, x: Area)
    requires a < |areas|
    ensures Total(areas[a := x]) == Total(areas) - LruSize(areas[a].list) + LruSize(x.list)
  {
    if a == 0 {
      assert areas[0 := x][1..] == areas[1..];
    } else {
      assert areas[a := x][1..] == areas[1..][a - 1 := x];
      TotalChanged(areas[1..], a - 1, x);
    }
  }

  lemma {:induction false} TotalAppended(areas: seq<Area>, x: Area)
    ensures Total(areas + [x]) == Total(areas) + LruSize(x.list)
  {
    if areas == [] {
      assert areas + [x] == [x];
    } else {
      assert (areas + [x])[1..] == areas[1..] + [x];
      TotalAppended(areas[1..], x);
    }
  }

  /** The list of one area changed, and the books with it. */
  ghost predicate Replaced(s: State, s': State, a: nat) {
    && a < |s.areas| && a < |s'.areas|
    && s'.areas == s.areas[a := s'.areas[a]]
    && s.nextId <= s'.nextId
    && Descending(s'.areas[a].list) && DistinctIds(s'.areas[a].list) && (!s'.areas[a].live ==> s'.areas[a].list == [])
    && (forall x :: x in Ids(s'.areas[a].list) ==> x in Ids(s.areas[a].list) || s.nextId <= x < s'.nextId)
    && NoDup(s'.books.lru)
    && (forall x: nat :: x in s'.books.lru <==> (x in s.books.lru && x !in LruIds(s.areas[a].list)) || x in LruIds(s'.areas[a].list))
    && s'.books.count - s.books.count == LruSize(s'.areas[a].list) - LruSize(s.areas[a].list)
  }

  lemma ReplacedKeeps(s: State, s': State, a: nat)
    requires (forall b :: 0 <= b < |s.areas| ==> AreaOk(s, b)) && LruOk(s) && IdsApart(s) && Replaced(s, s', a)
    ensures (forall b :: 0 <= b < |s'.areas| ==> AreaOk(s', b)) && IdsApart(s')
  {
    forall b | 0 <= b < |s'.areas|
      ensures AreaOk(s', b)
    {
      assert AreaOk(s, b) && AreaOk(s, a);
    }
    forall b, c | 0 <= b < c < |s'.areas|
      ensures Ids(s'.areas[b].list) !! Ids(s'.areas[c].list)
    {
      assert AreaOk(s, b) && AreaOk(s, c);
    }
  }

  lemma ReplacedLru(s: State, s': State, a: nat)
    requires LruOk(s) && IdsApart(s) && Replaced(s, s', a)
    ensures LruOk(s')
  {
    TotalChanged(s.areas, a, s'.areas[a]);
    forall x | x in s'.books.lru
      ensures exists b :: 0 <= b < |s'.areas| && x in LruIds(s'.areas[b].list)
    {
      if x in LruIds(s'.areas[a].list) {
      } else {
        var b :| 0 <= b < |s.areas| && x in LruIds(s.areas[b].list);
        assert b != a && s'.areas[b] == s.areas[b];
      }
    }
    forall b, x | 0 <= b < |s'.areas| && x in LruIds(s'.areas[b].list)
      ensures x in s'.books.lru
    {
      if b != a {
        LruIdsAreIds(s.areas[a].list);
        LruIdsAreIds(s.areas[b].list);
        assert s'.areas[b] == s.areas[b];
        assert x in Ids(s.areas[b].list);
        assert Ids(s.areas[b].list) !! Ids(s.areas[a].list);
      }
    }
  }

  // ---------- the sections ----------

  predicate IsOpen(s: State, a: nat) {
    a < |s.areas| && s.areas[a].live
  }

  function Open(s: State): State {
    s.(areas := s.areas + [Area(true, [])])
  }

  /** The ranges of a closing area go, one after the other. */
  function DeleteAll(list: seq<Range>, b: Books): Books {
    if list == [] then b else DeleteAll(list[1..], Deleted(b, list[0]))
  }

  /** `ashmem_release`; it does not wait for holes being punched. */
  function Close(s: State, a: nat): State
    requires IsOpen(s, a)
  {
    s.(areas := s.areas[a := Area(false, [])], books := DeleteAll(s.areas[a].list, s.books))
  }

  /** ASHMEM_PIN, once no hole is being punched. */
  function PinPages(s: State, a: nat, start: nat, end: nat): State
    requires IsOpen(s, a)
  {
    var p := Pin(s.areas[a].list, start, end, s.nextId, s.books);
    s.(areas := s.areas[a := Area(true, p.list)], books := p.books, nextId := s.nextId + 1,
       punched := set k | k in s.punched && !(k.0 == a && start <= k.1 <= end))
  }

  /** ASHMEM_UNPIN. */
  function UnpinPages(s: State, a: nat, start: nat, end: nat): State
    requires IsOpen(s, a)
  {
    var u := Unpin(s.areas[a].list, start, end, false, s.nextId, s.books);
    s.(areas := s.areas[a := Area(true, u.list)], books := u.books, nextId := s.nextId + 1)
  }

  /** Entry k of area a is the first one on the LRU list. */
  predicate IsVictim(s: State, a: nat, k: nat) {
    a < |s.areas| && k < |s.areas[a].list| && !s.areas[a].list[k].purged && s.books.lru != [] && s.books.lru[0] == s.areas[a].list[k].id
  }

  function PagesOf(a: nat, r: Range): set<(nat, nat)> {
    set x: nat | r.pgstart <= x <= r.pgend :: (a, x)
  }

  /** The part of `ashmem_shrink_scan` under the mutex. */
  function Shrink(s: State, a: nat, k: nat): State
    requires IsVictim(s, a, k)
  {
    var r := s.areas[a].list[k];
    s.(areas := s.areas[a := s.areas[a].(list := s.areas[a].list[k := r.(purged := true)])],
       books := Deleted(s.books, r),
       inflight := s.inflight + [Punch(a, r.pgstart, r.pgend)],
       punched := s.punched + PagesOf(a, r))
  }

  /** A hole has been punched. */
  function PunchDone(s: State, i: nat): State
    requires i < |s.inflight|
  {
    s.(inflight := s.inflight[..i] + s.inflight[i + 1..])
  }

  // ---------- each section keeps the invariant ----------

  lemma InvParts(s: State)
    requires Inv(s)
    ensures (forall a :: 0 <= a < |s.areas| ==> AreaOk(s, a)) && LruOk(s) && IdsApart(s) && PunchedOk(s)
  {
  }

  lemma OpenedArea(s: State, a: nat)
    requires a < |s.areas| ==> AreaOk(s, a)
    requires a < |Open(s).areas|
    ensures AreaOk(Open(s), a)
  {
  }

  lemma OpenedLru(s: State)
    requires LruOk(s)
    ensures LruOk(Open(s))
  {
    var s' := Open(s);
    TotalAppended(s.areas, Area(true, []));
    forall x | x in s'.books.lru
      ensures exists a :: 0 <= a < |s'.areas| && x in LruIds(s'.areas[a].list)
    {
      var a :| 0 <= a < |s.areas| && x in LruIds(s.areas[a].list);
      assert s'.areas[a] == s.areas[a];
    }
    forall a, x | 0 <= a < |s'.areas| && x in LruIds(s'.areas[a].list)
      ensures x in s'.books.lru
    {
      assert a < |s.areas|;
    }
  }

  lemma OpenedRest(s: State)
    requires IdsApart(s) && PunchedOk(s)
    requires forall k :: k in s.punched ==> k.0 < |s.areas|
    ensures IdsApart(Open(s)) && PunchedOk(Open(s))
  {
    assert forall a :: 0 <= a < |s.areas| ==> Open(s).areas[a] == s.areas[a];
  }

  lemma OpenKeepsInv(s: State)
    requires Inv(s)
    ensures Inv(Open(s))
  {
    hide Inv, LruOk, IdsApart, AreaOk;
    InvParts(s);
    forall a | 0 <= a < |Open(s).areas|
      ensures AreaOk(Open(s), a)
    {
      OpenedArea(s, a);
    }
    OpenedLru(s);
    OpenedRest(s);
    InvFromParts(Open(s));
  }

  /** The id that a request would use is on no list. */
  lemma NextIdUnused(s: State, a: nat)
    requires (forall b :: 0 <= b < |s.areas| ==> AreaOk(s, b)) && LruOk(s) && a < |s.areas|
    ensures s.nextId !in s.books.lru && s.nextId !in Ids(s.areas[a].list)
    ensures forall x :: x in LruIds(s.areas[a].list) ==> x in s.books.lru
  {
    assert AreaOk(s, a);
    if s.nextId in s.books.lru {
      var b :| 0 <= b < |s.areas| && s.nextId in LruIds(s.areas[b].list);
      assert AreaOk(s, b);
      LruIdsAreIds(s.areas[b].list);
    }
  }

  lemma PinReplaces(s: State, a: nat, start: nat, end: nat)
    requires (forall b :: 0 <= b < |s.areas| ==> AreaOk(s, b)) && LruOk(s) && IsOpen(s, a) && start <= end
    ensures Replaced(s, PinPages(s, a, start, end), a)
  {
    NextIdUnused(s, a);
    assert AreaOk(s, a);
    hide Descending, DistinctIds, NoDup;
    PinExact(s.areas[a].list, start, end, s.nextId, s.books);
    PinCounts(s.areas[a].list, start, end, s.nextId, s.books);
    PinLru(s.areas[a].list, start, end, s.nextId, s.books);
  }

  lemma PinPunched(s: State, a: nat, start: nat, end: nat)
    requires PunchedOk(s) && IsOpen(s, a) && Descending(s.areas[a].list) && start <= end && s.inflight == []
    ensures PunchedOk(PinPages(s, a, start, end))
  {
    PinExact(s.areas[a].list, start, end, s.nextId, s.books);
  }

  lemma PinKeepsInv(s: State, a: nat, start: nat, end: nat)
    requires Inv(s) && IsOpen(s, a) && start <= end && s.inflight == []
    ensures Inv(PinPages(s, a, start, end))
  {
    hide Inv, LruOk, IdsApart, PunchedOk, Replaced, PinPages;
    InvParts(s);
    assert AreaOk(s, a);
    PinReplaces(s, a, start, end);
    ReplacedKeeps(s, PinPages(s, a, start, end), a);
    ReplacedLru(s, PinPages(s, a, start, end), a);
    PinPunched(s, a, start, end);
    InvFromParts(PinPages(s, a, start, end));
  }

  lemma InvFromParts(s: State)
    requires (forall a :: 0 <= a < |s.areas| ==> AreaOk(s, a)) && LruOk(s) && IdsApart(s) && PunchedOk(s)
    ensures Inv(s)
  {
  }

  lemma UnpinReplaces(s: State, a: nat, start: nat, end: nat)
    requires (forall b :: 0 <= b < |s.areas| ==> AreaOk(s, b)) && LruOk(s) && IsOpen(s, a) && start <= end
    ensures Replaced(s, UnpinPages(s, a, start, end), a)
  {
    NextIdUnused(s, a);
    assert AreaOk(s, a);
    hide Descending, DistinctIds, NoDup;
    UnpinExact(s.areas[a].list, start, end, false, s.nextId, s.books);
    UnpinBooks(s.areas[a].list, start, end, false, s.nextId, s.books);
  }

  lemma UnpinPunched(s: State, a: nat, start: nat, end: nat)
    requires PunchedOk(s) && IsOpen(s, a) && Descending(s.areas[a].list) && start <= end && s.inflight == []
    ensures PunchedOk(UnpinPages(s, a, start, end))
  {
    var s' := UnpinPages(s, a, start, end);
    forall x: nat | PurgedAt(s.areas[a].list, x)
      ensures PurgedAt(s'.areas[a].list, x)
    {
      UnpinKeepsPurged(s.areas[a].list, start, end, false, s.nextId, s.books, 0, x);
    }
  }

  lemma UnpinKeepsInv(s: State, a: nat, start: nat, end: nat)
    requires Inv(s) && IsOpen(s, a) && start <= end && s.inflight == []
    ensures Inv(UnpinPages(s, a, start, end))
  {
    hide Inv, LruOk, IdsApart, PunchedOk, Replaced, UnpinPages;
    InvParts(s);
    assert AreaOk(s, a);
    UnpinReplaces(s, a, start, end);
    ReplacedKeeps(s, UnpinPages(s, a, start, end), a);
    ReplacedLru(s, UnpinPages(s, a, start, end), a);
    UnpinPunched(s, a, start, end);
    InvFromParts(UnpinPages(s, a, start, end));
  }

  lemma {:induction false} DeletedAll(list: seq<Range>, b: Books)
    requires NoDup(b.lru) && DistinctIds(list) && forall x :: x in LruIds(list) ==> x in b.lru
    ensures var b' := DeleteAll(list, b);
            && NoDup(b'.lru) && (forall x: nat :: x in b'.lru <==> x in b.lru && x !in LruIds(list))
            && b'.count == b.count - LruSize(list)
  {
    if list != [] {
      RemoveFacts(b.lru, list[0].id);
      LruIdsAreIds(list[1..]);
      DeletedAll(list[1..], Deleted(b, list[0]));
    }
  }

  lemma CloseKeepsInv(s: State, a: nat)
    requires Inv(s) && IsOpen(s, a)
    ensures Inv(Close(s, a))
  {
    hide Inv, LruOk, IdsApart, PunchedOk;
    InvParts(s);
    CloseReplaces(s, a);
    hide Replaced;
    ReplacedKeeps(s, Close(s, a), a);
    ReplacedLru(s, Close(s, a), a);
    ClosePunched(s, a);
    InvFromParts(Close(s, a));
  }

  lemma CloseReplaces(s: State, a: nat)
    requires (forall b :: 0 <= b < |s.areas| ==> AreaOk(s, b)) && LruOk(s) && IsOpen(s, a)
    ensures Replaced(s, Close(s, a), a)
  {
    assert AreaOk(s, a);
    DeletedAll(s.areas[a].list, s.books);
  }

  lemma ClosePunched(s: State, a: nat)
    requires PunchedOk(s) && IsOpen(s, a)
    ensures PunchedOk(Close(s, a))
  {
  }

  /** Marking one entry as purged. */
  lemma {:induction false} Marked(list: seq<Range>, k: nat)
    requires k < |list| && Descending(list) && DistinctIds(list) && !list[k].purged
    ensures var m := list[k := list[k].(purged := true)];
            && Descending(m) && DistinctIds(m) && Ids(m) == Ids(list)
            && LruIds(m) == LruIds(list) - {list[k].id} && list[k].id in LruIds(list)
            && LruSize(m) == LruSize(list) - RangeSize(list[k])
  {
    var r := list[k];
    var m := list[k := r.(purged := true)];
    LruIdsAreIds(list[1..]);
    if k == 0 {
      assert m[1..] == list[1..];
    } else {
      assert m[1..] == list[1..][k - 1 := r.(purged := true)];
      Marked(list[1..], k - 1);
    }
  }

  lemma {:induction false} MarkedPage(list: seq<Range>, k: nat, x: nat)
    requires k < |list|
    ensures var m := list[k := list[k].(purged := true)];
            && (PurgedAt(list, x) || PageInRange(list[k], x) ==> PurgedAt(m, x))
            && (Unpinned(m, x) <==> Unpinned(list, x))
  {
    var m := list[k := list[k].(purged := true)];
    if k == 0 {
      assert m[1..] == list[1..];
    } else {
      assert m[1..] == list[1..][k - 1 := list[k].(purged := true)];
      MarkedPage(list[1..], k - 1, x);
    }
  }

  lemma ShrinkReplaces(s: State, a: nat, k: nat)
    requires (forall b :: 0 <= b < |s.areas| ==> AreaOk(s, b)) && LruOk(s) && IsVictim(s, a, k)
    ensures Replaced(s, Shrink(s, a, k), a)
  {
    assert AreaOk(s, a);
    hide Descending, DistinctIds, NoDup;
    Marked(s.areas[a].list, k);
    RemoveFacts(s.books.lru, s.areas[a].list[k].id);
  }

  lemma ShrinkPunched(s: State, a: nat, k: nat)
    requires PunchedOk(s) && IsVictim(s, a, k)
    ensures PunchedOk(Shrink(s, a, k))
  {
    var s' := Shrink(s, a, k);
    var r := s.areas[a].list[k];
    forall i, x: nat | 0 <= i < |s'.inflight| && s'.areas[s'.inflight[i].area].live && s'.inflight[i].start <= x <= s'.inflight[i].end
      ensures PurgedAt(s'.areas[s'.inflight[i].area].list, x)
    {
      MarkedPage(s.areas[a].list, k, x);
      if i < |s.inflight| {
        assert s'.inflight[i] == s.inflight[i];
      } else {
        assert PageInRange(r, x);
      }
    }
    forall b: nat, x: nat | (b, x) in s'.punched && b < |s'.areas| && s'.areas[b].live
      ensures PurgedAt(s'.areas[b].list, x)
    {
      MarkedPage(s.areas[a].list, k, x);
      assert (b, x) in s.punched || (b == a && PageInRange(r, x));
    }
  }

  lemma ShrinkKeepsInv(s: State, a: nat, k: nat)
    requires Inv(s) && IsVictim(s, a, k)
    ensures Inv(Shrink(s, a, k))
  {
    hide Inv, LruOk, IdsApart, PunchedOk, Replaced, Shrink;
    InvParts(s);
    ShrinkReplaces(s, a, k);
    ReplacedKeeps(s, Shrink(s, a, k), a);
    ReplacedLru(s, Shrink(s, a, k), a);
    ShrinkPunched(s, a, k);
    InvFromParts(Shrink(s, a, k));
  }

  lemma PunchDonePunched(s: State, i: nat)
    requires PunchedOk(s) && i < |s.inflight|
    ensures PunchedOk(PunchDone(s, i))
  {
    var s' := PunchDone(s, i);
    assert forall j :: 0 <= j < |s'.inflight| ==> s'.inflight[j] == s.inflight[if j < i then j else j + 1];
  }

  lemma PunchDoneKeepsInv(s: State, i: nat)
    requires Inv(s) && i < |s.inflight|
    ensures Inv(PunchDone(s, i))
  {
    PunchDonePunched(s, i);
    hide PunchedOk;
    var s' := PunchDone(s, i);
    assert forall a :: 0 <= a < |s.areas| ==> AreaOk(s, a) ==> AreaOk(s', a);
  }

  // ---------- any interleaving ----------

  datatype Step =
    | Opens
    | Closes(area: nat)
    | Pins(area: nat, start: nat, end: nat)
    | Unpins(area: nat, start: nat, end: nat)
    | Shrinks(area: nat, entry: nat)
    | Punches(index: nat)

  /** Pinning and unpinning wait until no hole is being punched. */
  predicate Enabled(s: State, step: Step) {
    match step
    case Opens => true
    case Closes(a) => IsOpen(s, a)
    case Pins(a, start, end) => IsOpen(s, a) && start <= end && s.inflight == []
    case Unpins(a, start, end) => IsOpen(s, a) && start <= end && s.inflight == []
    case Shrinks(a, k) => IsVictim(s, a, k)
    case Punches(i) => i < |s.inflight|
  }

  function Next(s: State, step: Step): State
    requires Enabled(s, step)
  {
    match step
    case Opens => Open(s)
    case Closes(a) => Close(s, a)
    case Pins(a, start, end) => PinPages(s, a, start, end)
    case Unpins(a, start, end) => UnpinPages(s, a, start, end)
    case Shrinks(a, k) => Shrink(s, a, k)
    case Punches(i) => PunchDone(s, i)
  }

  lemma StepKeepsInv(s: State, step: Step)
    requires Inv(s) && Enabled(s, step)
    ensures Inv(Next(s, step))
  {
    hide Inv;
    match step
    case Opens => OpenKeepsInv(s);
    case Closes(a) => CloseKeepsInv(s, a);
    case Pins(a, start, end) => PinKeepsInv(s, a, start, end);
    case Unpins(a, start, end) => UnpinKeepsInv(s, a, start, end);
    case Shrinks(a, k) => ShrinkKeepsInv(s, a, k);
    case Punches(i) => PunchDoneKeepsInv(s, i);
  }

  const INITIAL: State := State([], Books([], 0), 0, [], {})

  predicate IsRun(s: State, steps: seq<Step>)
    decreases |steps|
  {
    steps == [] || (Enabled(s, steps[0]) && IsRun(Next(s, steps[0]), steps[1..]))
  }

  function End(s: State, steps: seq<Step>): State
    requires IsRun(s, steps)
    decreases |steps|
  {
    if steps == [] then s else End(Next(s, steps[0]), steps[1..])
  }

  lemma {:induction false} RunKeepsInv(s: State, steps: seq<Step>)
    requires Inv(s) && IsRun(s, steps)
    ensures Inv(End(s, steps))
    decreases |steps|
  {
    hide Inv, Enabled, Next;
    if steps != [] {
      StepKeepsInv(s, steps[0]);
      RunKeepsInv(Next(s, steps[0]), steps[1..]);
    }
  }

  ghost predicate Reachable(s: State) {
    exists steps :: IsRun(INITIAL, steps) && s == End(INITIAL, steps)
  }

  lemma ReachableInv(s: State)
    requires Reachable(s)
    ensures Inv(s)
  {
    var steps :| IsRun(INITIAL, steps) && s == End(INITIAL, steps);
    RunKeepsInv(INITIAL, steps);
  }

  /** While a hole is being punched in an open area, every page of it is unpinned: no page is
      punched between a pin and the next unpin. */
  lemma HolesAreUnpinned(s: State, i: nat, x: nat)
    requires Reachable(s) && i < |s.inflight| && s.inflight[i].start <= x <= s.inflight[i].end
    requires IsOpen(s, s.inflight[i].area)
    ensures Unpinned(s.areas[s.inflight[i].area].list, x)
  {
    hide Inv, Reachable;
    ReachableInv(s);
    InvParts(s);
    PurgedIsUnpinned(s.areas[s.inflight[i].area].list, x);
  }

  /** The page is pinned, no hole is being punched there, and none was since it was unpinned. */
  predicate Kept(s: State, a: nat, x: nat) {
    && a < |s.areas| && !Unpinned(s.areas[a].list, x) && (a, x) !in s.punched
    && forall i :: 0 <= i < |s.inflight| && s.inflight[i].area == a ==> !(s.inflight[i].start <= x <= s.inflight[i].end)
  }

  predicate UnpinsPage(step: Step, a: nat, x: nat) {
    step.Unpins? && step.area == a && step.start <= x <= step.end
  }

  lemma {:induction false} EntryIsUnpinned(list: seq<Range>, k: nat, x: nat)
    requires k < |list| && PageInRange(list[k], x)
    ensures Unpinned(list, x)
  {
    if k > 0 {
      EntryIsUnpinned(list[1..], k - 1, x);
    }
  }

  lemma ShrinkKeepsPage(s: State, b: nat, k: nat, a: nat, x: nat)
    requires IsVictim(s, b, k) && Kept(s, a, x)
    ensures Kept(Shrink(s, b, k), a, x)
  {
    MarkedPage(s.areas[b].list, k, x);
    if b == a && PageInRange(s.areas[b].list[k], x) {
      EntryIsUnpinned(s.areas[b].list, k, x);
    }
  }

  /** Nothing but an unpin of the page itself ends this. */
  lemma StepKeepsPage(s: State, step: Step, a: nat, x: nat)
    requires Inv(s) && Enabled(s, step) && Kept(s, a, x) && !UnpinsPage(step, a, x)
    ensures Kept(Next(s, step), a, x)
  {
    InvParts(s);
    assert AreaOk(s, a);
    hide Inv, LruOk, IdsApart, PunchedOk, AreaOk, DistinctIds, Ids;
    match step
    case Opens =>
    case Closes(_) =>
    case Pins(b, start, end) => PinExact(s.areas[a].list, start, end, s.nextId, s.books);
    case Unpins(b, start, end) => UnpinExact(s.areas[a].list, start, end, false, s.nextId, s.books);
    case Shrinks(b, k) => ShrinkKeepsPage(s, b, k, a, x);
    case Punches(i) =>
      assert forall j :: 0 <= j < |s.inflight| - 1 ==> PunchDone(s, i).inflight[j] == s.inflight[if j < i then j else j + 1];
  }

  lemma {:induction false} RunKeepsPage(s: State, steps: seq<Step>, a: nat, x: nat)
    requires Inv(s) && IsRun(s, steps) && Kept(s, a, x) && forall i :: 0 <= i < |steps| ==> !UnpinsPage(steps[i], a, x)
    ensures Kept(End(s, steps), a, x)
    decreases |steps|
  {
    hide Inv, Enabled, Next, Kept, UnpinsPage;
    if steps != [] {
      StepKeepsInv(s, steps[0]);
      StepKeepsPage(s, steps[0], a, x);
      RunKeepsPage(Next(s, steps[0]), steps[1..], a, x);
    }
  }

  /** From a pin on, whatever else happens, its pages stay out of every hole until they are
      unpinned again: no page is punched between a pin returning and its next unpin. */
  lemma PinnedPagesStayOut(s: State, a: nat, start: nat, end: nat, x: nat, steps: seq<Step>)
    requires Reachable(s) && Enabled(s, Pins(a, start, end)) && start <= x <= end
    requires IsRun(PinPages(s, a, start, end), steps) && forall i :: 0 <= i < |steps| ==> !UnpinsPage(steps[i], a, x)
    ensures var e := End(PinPages(s, a, start, end), steps);
            && a < |e.areas| && !Unpinned(e.areas[a].list, x) && (a, x) !in e.punched
            && forall i :: 0 <= i < |e.inflight| && e.inflight[i].area == a ==> !(e.inflight[i].start <= x <= e.inflight[i].end)
  {
    hide Inv, Reachable;
    ReachableInv(s);
    InvParts(s);
    assert AreaOk(s, a);
    PinExact(s.areas[a].list, start, end, s.nextId, s.books);
    PinKeepsInv(s, a, start, end);
    RunKeepsPage(PinPages(s, a, start, end), steps, a, x);
  }

  /** Pin never answers "not purged" when a requested page was punched while unpinned. */
  lemma PinTellsOfPunches(s: State, a: nat, start: nat, end: nat, x: nat)
    requires Reachable(s) && Enabled(s, Pins(a, start, end)) && start <= x <= end && (a, x) in s.punched
    ensures Pin(s.areas[a].list, start, end, s.nextId, s.books).wasPurged
  {
    hide Inv, Reachable;
    ReachableInv(s);
    InvParts(s);
    assert AreaOk(s, a);
    PinAnswer(s.areas[a].list, start, end, s.nextId, s.books);
  }

  /** The page count that the shrinker reports is exact, and so is the list it takes its
      victims from. */
  lemma LruExact(s: State, x: nat)
    requires Reachable(s)
    ensures s.books.count == Total(s.areas)
    ensures x in s.books.lru <==> exists a :: 0 <= a < |s.areas| && x in LruIds(s.areas[a].list)
  {
    hide Inv, Reachable;
    ReachableInv(s);
    InvParts(s);
  }
}
