/** What a granted request does to the list of buffers, entry by entry. */
module AllocRequests {
  import opened Common
  import opened SizeArith
  import opened BufferList
  import opened AllocTrees
  import opened AllocBudget

  /** The list after the request for d bytes of data, o of offsets and e of extra space has been
      given the buffer at address u: a free one before, it now has room for all three and is
      neither delivered nor in a transaction yet; what is left of it is a free buffer behind it,
      and every other entry stays as it is. */
  ghost predicate Serves(before: seq<Buffer>, after: seq<Buffer>, limit: nat, u: nat, d: nat, o: nat, e: nat, isAsync: bool) {
    var k := IndexOf(before, u);
    && k < |before| && before[k].free && k < |after| && IndexOf(after, u) == k
    && var b := after[k];
      && b.dataSize == d && b.offsetsSize == o && b.extraSize == e && b.async == isAsync
      && !b.free && !b.allowUserFree && !b.inTransaction
      && d + o + e <= SizeAt(after, limit, k)
      && after[..k] == before[..k]
      && (after[k + 1..] == before[k + 1..]
          || (|after| == |before| + 1 && after[k + 1] == Buffer(EndAt(after, limit, k), true, false, false, false, 0, 0, 0) && after[k + 2..] == before[k + 1..]))
  }

  lemma FilledServes(list: seq<Buffer>, base: nat, limit: nat, u: nat, d: size_t, o: size_t, e: size_t, isAsync: bool)
    requires Good(list, base, limit) && IndexOf(list, u) < |list| && list[IndexOf(list, u)].free
    requires var filled := Filled(u, d, o, e, isAsync); Need(filled) <= SizeAt(list, limit, IndexOf(list, u))
    ensures var filled := Filled(u, d, o, e, isAsync);
            Serves(list, Taken(list, limit, IndexOf(list, u), Need(filled), filled), limit, u, d, o, e, isAsync)
  {
    hide Good, Layout, Fits, NoFreeNeighbours, Padded;
    var i := IndexOf(list, u);
    var filled := Filled(u, d, o, e, isAsync);
    RoomForAll(filled);
    TakenGood(list, base, limit, i, Need(filled), filled);
    var after := Taken(list, limit, i, Need(filled), filled);
    GoodIsPartition(list, base, limit);
    GoodIsPartition(after, base, limit);
    IndexOfAt(after, base, limit, i);
    if SizeAt(list, limit, i) != Need(filled) {
      SplitAt(list, base, limit, i, Need(filled), filled);
    }
  }

  lemma BestFitServes(list: seq<Buffer>, base: nat, limit: nat, u: nat, d: size_t, o: size_t, e: size_t, isAsync: bool)
    requires Good(list, base, limit)
    requires var filled := Filled(u, d, o, e, isAsync); IsBestFit(list, limit, Need(filled), IndexOf(list, u))
    ensures var filled := Filled(u, d, o, e, isAsync);
            Serves(list, Taken(list, limit, IndexOf(list, u), Need(filled), filled), limit, u, d, o, e, isAsync)
  {
    hide Good, Serves, Taken, Need;
    FilledServes(list, base, limit, u, d, o, e, isAsync);
  }

  lemma GoodIsPartition(list: seq<Buffer>, base: nat, limit: nat)
    requires Good(list, base, limit)
    ensures Partition(list, base, limit)
  {
  }

  lemma RoomForAll(b: Buffer)
    ensures b.dataSize + b.offsetsSize + b.extraSize <= Need(b)
  {
  }

  // ---------- allocated buffers by their address ----------

  function EntryAt(list: seq<Buffer>, u: nat): Option<Buffer> {
    var k := IndexOf(list, u);
    if k < |list| && !list[k].free then Some(list[k]) else None
  }

  lemma EntryIs(list: seq<Buffer>, base: nat, limit: nat, k: nat)
    requires Partition(list, base, limit) && k < |list|
    ensures EntryAt(list, list[k].userData) == if list[k].free then None else Some(list[k])
  {
    IndexOfAt(list, base, limit, k);
  }

  lemma NoEntry(list: seq<Buffer>, u: nat)
    requires forall k :: 0 <= k < |list| ==> list[k].userData == u ==> list[k].free
    ensures EntryAt(list, u) == None
  {
  }

  /** A request adds one allocated buffer. */
  lemma TakenEntries(list: seq<Buffer>, base: nat, limit: nat, i: nat, size: nat, filled: Buffer, u: nat)
    requires Good(list, base, limit) && i < |list| && list[i].free && 0 < size <= SizeAt(list, limit, i)
    requires filled.userData == list[i].userData && !filled.free && Need(filled) == size
    ensures EntryAt(Taken(list, limit, i, size, filled), u) == if u == filled.userData then Some(filled) else EntryAt(list, u)
  {
    hide Fits, NoFreeNeighbours, Need;
    var after := Taken(list, limit, i, size, filled);
    TakenGood(list, base, limit, i, size, filled);
    EntryIs(after, base, limit, i);
    var k := IndexOf(list, u);
    if k == |list| {
      NoEntry(after, u);
    } else if k != i {
      Order(list, base, limit, if k < i then k else i, if k < i then i else k);
      EntryIs(after, base, limit, if k < i || |after| == |list| then k else k + 1);
    }
  }

  lemma SplicedEntries(list: seq<Buffer>, after: seq<Buffer>, base: nat, limit: nat, i: nat, cut: nat, off: nat, u: nat)
    requires Partition(list, base, limit) && Partition(after, base, limit)
    requires Spliced(after, list, limit, cut, cut + 1, off) && cut < |after| && after[cut].free && after[cut].userData == list[cut].userData
    requires cut <= i <= cut + off < |list| && !list[i].free
    requires forall j :: cut <= j <= cut + off && j != i ==> list[j].free
    ensures EntryAt(after, u) == if u == list[i].userData then None else EntryAt(list, u)
  {
    hide SizeAt, Partition;
    IndexOfAt(list, base, limit, i);
    var k := IndexOf(list, u);
    if k < cut {
      EntryIs(after, base, limit, k);
    } else if cut + off < k < |list| {
      EntryIs(after, base, limit, k - off);
    } else {
      forall j | 0 <= j < |after| && after[j].userData == u
        ensures after[j].free
      {
        if j != cut {
          IndexOfAt(list, base, limit, if j < cut then j else j + off);
        }
      }
      NoEntry(after, u);
    }
  }

  /** A free takes one away, whatever is merged. */
  lemma ReleasedEntries(list: seq<Buffer>, base: nat, limit: nat, i: nat, u: nat)
    requires Partition(list, base, limit) && i < |list| && !list[i].free
    ensures EntryAt(Released(list, i), u) == if u == list[i].userData then None else EntryAt(list, u)
  {
    hide SizeAt, Partition, EntryAt, IndexOf;
    var cut := if MergesLeft(list, i) then i - 1 else i;
    var off := (if MergesRight(list, i) then 1 else 0) + (i - cut);
    ReleasedAt(list, base, limit, i);
    hide Released;
    SplicedEntries(list, Released(list, i), base, limit, i, cut, off, u);
  }

  /** User space may free the buffer at u. */
  predicate MayFree(list: seq<Buffer>, u: nat) {
    EntryAt(list, u).Some? && EntryAt(list, u).value.allowUserFree
  }
}
