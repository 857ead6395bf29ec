/** The order of the LRU list: the shrinker takes the range that has been unpinned longest. */
module AshmemOrder {
  import opened Common
  import opened AshmemRanges
  import opened Ashmem

  /** The ids ascend, from `low` on and below `next`.  Ids are given out in order, so the oldest
      range is the first. */
  predicate Ascends(q: seq<nat>, low: nat, next: nat) {
    q == [] || (low <= q[0] < next && Ascends(q[1..], q[0] + 1, next))
  }

  predicate Older(q: seq<nat>, next: nat) {
    Ascends(q, 0, next)
  }

  lemma {:induction false} LowerAscends(q: seq<nat>, low: nat, low': nat, next: nat)
    requires Ascends(q, low, next) && low' <= low
    ensures Ascends(q, low', next)
  {
  }

  lemma {:induction false} RemoveAscends(q: seq<nat>, id: nat, low: nat, next: nat)
    requires Ascends(q, low, next)
    ensures Ascends(Remove(q, id), low, next)
  {
    if q != [] {
      if q[0] == id {
        LowerAscends(q[1..], q[0] + 1, low, next);
      } else {
        RemoveAscends(q[1..], id, q[0] + 1, next);
        var w := Remove(q[1..], id);
        assert ([q[0]] + w)[1..] == w;
      }
    }
  }

  lemma {:induction false} AppendAscends(q: seq<nat>, low: nat, id: nat)
    requires Ascends(q, low, id) && low <= id
    ensures Ascends(q + [id], low, id + 1)
  {
    if q == [] {
      assert q + [id] == [id];
    } else {
      AppendAscends(q[1..], q[0] + 1, id);
      assert (q + [id])[1..] == q[1..] + [id];
    }
  }

  lemma {:induction false} FirstIsLeast(q: seq<nat>, low: nat, next: nat, x: nat)
    requires Ascends(q, low, next) && x in q
    ensures q[0] <= x < next && low <= x
  {
    if x != q[0] {
      assert x in q[1..];
      FirstIsLeast(q[1..], q[0] + 1, next, x);
    }
  }

  lemma {:induction false} LaterAscends(q: seq<nat>, low: nat, next: nat)
    requires Ascends(q, low, next)
    ensures Ascends(q, low, next + 1)
  {
    if q != [] {
      LaterAscends(q[1..], q[0] + 1, next);
    }
  }

  lemma AppendOlder(q: seq<nat>, id: nat)
    requires Older(q, id)
    ensures Older(q, id + 1) && Older(q + [id], id + 1)
  {
    AppendAscends(q, 0, id);
    LaterAscends(q, 0, id);
  }

  lemma DeletedOlder(b: Books, r: Range, next: nat)
    requires Older(b.lru, next)
    ensures Older(Deleted(b, r).lru, next)
  {
    RemoveAscends(b.lru, r.id, 0, next);
  }

  lemma {:induction false} PinOlder(list: seq<Range>, start: nat, end: nat, newId: nat, b: Books)
    requires Older(b.lru, newId)
    ensures Older(Pin(list, start, end, newId, b).books.lru, newId + 1)
  {
    AppendOlder(b.lru, newId);
    hide Ascends;
    if list != [] && list[0].pgend >= start {
      var r, rest := list[0], list[1..];
      DeletedOlder(b, r, newId);
      if !Overlaps(r, start, end) {
        PinOlder(rest, start, end, newId, b);
      } else if Subsumes(r, start, end) {
        PinOlder(rest, start, end, newId, Deleted(b, r));
      } else if r.pgstart >= start {
        PinOlder(rest, start, end, newId, Shrunk(b, r, end + 1, r.pgend));
      } else if r.pgend <= end {
        PinOlder(rest, start, end, newId, Shrunk(b, r, r.pgstart, start - 1));
      }
    }
  }

  lemma {:induction false} UnpinOlder(list: seq<Range>, start: nat, end: nat, purged: bool, newId: nat, b: Books)
    requires Older(b.lru, newId)
    ensures Older(Unpin(list, start, end, purged, newId, b).books.lru, newId + 1)
    decreases |list|
  {
    var i := Stop(list, start, end);
    AppendOlder(b.lru, newId);
    if i < |list| && !(list[i].pgend < start) && !(list[i].pgstart <= start && list[i].pgend >= end) {
      var r := list[i];
      DeletedOlder(b, r, newId);
      UnpinOlder(list[..i] + list[i + 1..], Min(r.pgstart, start), Max(r.pgend, end), purged || r.purged, newId, Deleted(b, r));
    }
  }

  lemma {:induction false} DeleteAllOlder(list: seq<Range>, b: Books, next: nat)
    requires Older(b.lru, next)
    ensures Older(DeleteAll(list, b).lru, next)
  {
    if list != [] {
      DeletedOlder(b, list[0], next);
      DeleteAllOlder(list[1..], Deleted(b, list[0]), next);
    }
  }

  /** Every section keeps the order. */
  lemma StepKeepsOrder(s: State, step: Step)
    requires Enabled(s, step) && Older(s.books.lru, s.nextId)
    ensures Older(Next(s, step).books.lru, Next(s, step).nextId)
  {
    hide Older, Pin, Unpin, Deleted;
    match step
    case Opens =>
    case Closes(a) => DeleteAllOlder(s.areas[a].list, s.books, s.nextId);
    case Pins(a, start, end) => PinOlder(s.areas[a].list, start, end, s.nextId, s.books);
    case Unpins(a, start, end) => UnpinOlder(s.areas[a].list, start, end, false, s.nextId, s.books);
    case Shrinks(a, k) => DeletedOlder(s.books, s.areas[a].list[k], s.nextId);
    case Punches(_) =>
  }

  lemma {:induction false} RunKeepsOrder(s: State, steps: seq<Step>)
    requires IsRun(s, steps) && Older(s.books.lru, s.nextId)
    ensures Older(End(s, steps).books.lru, End(s, steps).nextId)
    decreases |steps|
  {
    hide Enabled, Next, Older;
    if steps != [] {
      StepKeepsOrder(s, steps[0]);
      RunKeepsOrder(Next(s, steps[0]), steps[1..]);
    }
  }

  lemma {:induction false} EntryOnLru(list: seq<Range>, k: nat)
    requires k < |list| && !list[k].purged
    ensures list[k].id in LruIds(list)
  {
    if k > 0 {
      EntryOnLru(list[1..], k - 1);
    }
  }

  /** In every reachable state the range that the shrinker takes is older than every other unpurged
      range of every area: ids are given out by pins and unpins in their order. */
  lemma OldestFirst(s: State, a: nat, k: nat, b: nat, j: nat)
    requires Reachable(s) && IsVictim(s, a, k)
    requires b < |s.areas| && j < |s.areas[b].list| && !s.areas[b].list[j].purged
    ensures s.areas[a].list[k].id <= s.areas[b].list[j].id < s.nextId
  {
    var steps :| IsRun(INITIAL, steps) && s == End(INITIAL, steps);
    RunKeepsOrder(INITIAL, steps);
    ReachableInv(s);
    InvParts(s);
    hide Inv, Reachable;
    var id := s.areas[b].list[j].id;
    EntryOnLru(s.areas[b].list, j);
    FirstIsLeast(s.books.lru, 0, s.nextId, id);
  }
}
