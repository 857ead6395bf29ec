/** When user space may free a buffer: over any run of requests, deliveries and frees. */
module AllocDelivery {
  import opened Common
  import opened SizeArith
  import opened BufferList
  import opened AllocTrees
  import opened AllocBudget
  import opened AllocRequests
  import opened BinderAlloc

  /** What happens to the buffer at address u: it is given to a request, marked when the
      transaction that points to it comes or goes, delivered, given up by user space with
      BC_FREE_BUFFER, freed. */
  datatype Event =
    | Requested(u: nat, d: size_t, o: size_t, e: size_t, isAsync: bool)
    | Marked(u: nat, inTransaction: bool)
    | Delivered(u: nat)
    | GivenUp(u: nat)
    | Freed(u: nat)

  ghost predicate Enabled(list: seq<Buffer>, limit: nat, ev: Event) {
    match ev
    case Requested(u, d, o, e, isAsync) =>
      IndexOf(list, u) < |list| && IsBestFit(list, limit, Need(Filled(u, d, o, e, isAsync)), IndexOf(list, u))
    case GivenUp(u) => MayFree(list, u)
    case _ => EntryAt(list, ev.u).Some?
  }

  /** The lists are those that the methods of `BinderAlloc.Alloc` are proved to leave. */
  ghost function Next(list: seq<Buffer>, limit: nat, ev: Event): seq<Buffer>
    requires Enabled(list, limit, ev)
  {
    var k := IndexOf(list, ev.u);
    match ev
    case Requested(u, d, o, e, isAsync) => Taken(list, limit, k, Need(Filled(u, d, o, e, isAsync)), Filled(u, d, o, e, isAsync))
    case Marked(_, inTransaction) => WithFlags(list, k, list[k].allowUserFree, inTransaction)
    case Delivered(_) => WithFlags(list, k, true, list[k].inTransaction)
    case GivenUp(_) => WithFlags(list, k, false, list[k].inTransaction)
    case Freed(_) => Released(list, k)
  }

  lemma FlagsKeepGood(list: seq<Buffer>, base: nat, limit: nat, k: nat, allowUserFree: bool, inTransaction: bool)
    requires Good(list, base, limit) && k < |list|
    ensures Good(WithFlags(list, k, allowUserFree, inTransaction), base, limit)
  {
    var after := WithFlags(list, k, allowUserFree, inTransaction);
    assert forall j {:trigger SizeAt(after, limit, j)} :: 0 <= j < |list| ==> SizeAt(after, limit, j) == SizeAt(list, limit, j);
    assert forall j {:trigger MergesRight(after, j)} :: 0 <= j < |list| ==> MergesRight(after, j) == MergesRight(list, j);
  }

  lemma FlagsEntries(list: seq<Buffer>, base: nat, limit: nat, k: nat, allowUserFree: bool, inTransaction: bool, u: nat)
    requires Good(list, base, limit) && k < |list| && !list[k].free
    ensures EntryAt(WithFlags(list, k, allowUserFree, inTransaction), u)
         == if u == list[k].userData then Some(list[k].(allowUserFree := allowUserFree, inTransaction := inTransaction)) else EntryAt(list, u)
  {
    var after := WithFlags(list, k, allowUserFree, inTransaction);
    FlagsKeepGood(list, base, limit, k, allowUserFree, inTransaction);
    EntryIs(after, base, limit, k);
    var j := IndexOf(list, u);
    if j == |list| {
      NoEntry(after, u);
    } else if j != k {
      EntryIs(after, base, limit, j);
    }
  }

  lemma StepKeepsGood(list: seq<Buffer>, base: nat, limit: nat, ev: Event)
    requires Good(list, base, limit) && Enabled(list, limit, ev)
    ensures Good(Next(list, limit, ev), base, limit)
  {
    hide Good, Taken, Released, WithFlags, Need;
    var k := IndexOf(list, ev.u);
    match ev
    case Requested(u, d, o, e, isAsync) =>
      RoomForAll(Filled(u, d, o, e, isAsync));
      NeedIsPositive(Filled(u, d, o, e, isAsync));
      TakenGood(list, base, limit, k, Need(Filled(u, d, o, e, isAsync)), Filled(u, d, o, e, isAsync));
    case Marked(_, inTransaction) => FlagsKeepGood(list, base, limit, k, list[k].allowUserFree, inTransaction);
    case Delivered(_) => FlagsKeepGood(list, base, limit, k, true, list[k].inTransaction);
    case GivenUp(_) => FlagsKeepGood(list, base, limit, k, false, list[k].inTransaction);
    case Freed(_) => ReleasedGood(list, base, limit, k);
  }

  lemma NeedIsPositive(b: Buffer)
    ensures Need(b) > 0
  {
  }

  /** What one event does to the buffer at an address. */
  lemma StepEntries(list: seq<Buffer>, base: nat, limit: nat, ev: Event, u: nat)
    requires Good(list, base, limit) && Enabled(list, limit, ev)
    ensures var before, after := EntryAt(list, u), EntryAt(Next(list, limit, ev), u);
            if u != ev.u then after == before
            else
              match ev
              case Requested(_, d, o, e, isAsync) => before.None? && after == Some(Buffer(u, false, false, isAsync, false, d, o, e))
              case Marked(_, inTransaction) => before.Some? && after == Some(before.value.(inTransaction := inTransaction))
              case Delivered(_) => before.Some? && after == Some(before.value.(allowUserFree := true))
              case GivenUp(_) => before.Some? && before.value.allowUserFree && after == Some(before.value.(allowUserFree := false))
              case Freed(_) => before.Some? && after == None
  {
    hide Good, Taken, Released, WithFlags, Need;
    GoodIsPartition(list, base, limit);
    var k := IndexOf(list, ev.u);
    match ev
    case Requested(v, d, o, e, isAsync) =>
      NeedIsPositive(Filled(v, d, o, e, isAsync));
      TakenEntries(list, base, limit, k, Need(Filled(v, d, o, e, isAsync)), Filled(v, d, o, e, isAsync), u);
    case Marked(_, inTransaction) => FlagsEntries(list, base, limit, k, list[k].allowUserFree, inTransaction, u);
    case Delivered(_) => FlagsEntries(list, base, limit, k, true, list[k].inTransaction, u);
    case GivenUp(_) => FlagsEntries(list, base, limit, k, false, list[k].inTransaction, u);
    case Freed(_) => ReleasedEntries(list, base, limit, k, u);
  }

  // ---------- runs ----------

  ghost predicate IsRun(list: seq<Buffer>, limit: nat, events: seq<Event>)
    decreases |events|
  {
    hide Enabled, Next;
    events == [] || (Enabled(list, limit, events[0]) && IsRun(Next(list, limit, events[0]), limit, events[1..]))
  }

  ghost function End(list: seq<Buffer>, limit: nat, events: seq<Event>): seq<Buffer>
    requires IsRun(list, limit, events)
    decreases |events|
  {
    hide Enabled, Next;
    if events == [] then list else End(Next(list, limit, events[0]), limit, events[1..])
  }

  /** The last thing that happened to the buffer at u, apart from marks, was its delivery. */
  predicate DeliveredLast(events: seq<Event>, u: nat, before: bool)
    decreases |events|
  {
    if events == [] then before
    else DeliveredLast(events[1..], u, if events[0].u != u || events[0].Marked? then before else events[0].Delivered?)
  }

  lemma {:induction false} MayFreeAlong(list: seq<Buffer>, base: nat, limit: nat, events: seq<Event>, u: nat)
    requires Good(list, base, limit) && IsRun(list, limit, events)
    ensures Good(End(list, limit, events), base, limit)
    ensures MayFree(End(list, limit, events), u) <==> DeliveredLast(events, u, MayFree(list, u))
    decreases |events|
  {
    hide Good, Enabled, Next, EntryAt;
    if events != [] {
      StepKeepsGood(list, base, limit, events[0]);
      StepEntries(list, base, limit, events[0], u);
      MayFreeAlong(Next(list, limit, events[0]), base, limit, events[1..], u);
    }
  }

  /** From a new mapping on, user space may free the buffer at u exactly when the last thing that
      happened to it is its delivery: not before, not twice, and not after the driver has freed
      it, whoever has used the address in between. */
  lemma FreeableExactly(base: nat, limit: nat, events: seq<Event>, u: nat)
    requires base < limit && IsRun([FreshFree(base)], limit, events)
    ensures MayFree(End([FreshFree(base)], limit, events), u) <==> DeliveredLast(events, u, false)
  {
    hide Enabled, Next;
    var list := [FreshFree(base)];
    assert SizeAt(list, limit, 0) == limit - base;
    assert Good(list, base, limit);
    MayFreeAlong(list, base, limit, events, u);
  }
}
