/** The address-ordered list of buffers that covers the mapped region.

    A buffer's size is not stored: it is the gap to the next entry, or to the end of the
    region for the last one.  Editing the list therefore changes sizes. */
module BufferList {
  import opened SizeArith

  const PAGE: nat := 4096

  datatype Buffer = Buffer(
    userData: nat,
    free: bool,
    allowUserFree: bool,
    async: bool,
    inTransaction: bool,
    dataSize: size_t,
    offsetsSize: size_t,
    extraSize: size_t)

  /** A zeroed struct with the two fields the code sets on a new free buffer. */
  function FreshFree(userData: nat): Buffer {
    Buffer(userData, true, false, false, false, 0, 0, 0)
  }

  function Max(x: nat, y: nat): nat {
    if x < y then y else x
  }

  /** The size class of a request: zero-size requests are padded to one pointer. */
  function Need(b: Buffer): nat {
    Max(Padded(b.dataSize, b.offsetsSize, b.extraSize), PTR)
  }

  function EndAt(list: seq<Buffer>, limit: nat, i: nat): nat
    requires i < |list|
  {
    if i == |list| - 1 then limit else list[i + 1].userData
  }

  function SizeAt(list: seq<Buffer>, limit: nat, i: nat): int
    requires i < |list|
  {
    EndAt(list, limit, i) - list[i].userData
  }

  /** The position of the buffer at addr, |list| when there is none. */
  function IndexOf(list: seq<Buffer>, addr: nat): (k: nat)
    ensures k <= |list|
    ensures k < |list| ==> list[k].userData == addr
    ensures k == |list| ==> forall i :: 0 <= i < |list| ==> list[i].userData != addr
  {
    if list == [] then 0
    else if list[0].userData == addr then 0
    else
      var k := IndexOf(list[1..], addr);
      assert forall i :: 0 < i < |list| ==> list[i] == list[1..][i - 1];
      k + 1
  }

  /** `binder_alloc_buffer_size`, by the address of the buffer. */
  function SizeOf(list: seq<Buffer>, limit: nat, addr: nat): int {
    var k := IndexOf(list, addr);
    if k < |list| then SizeAt(list, limit, k) else 0
  }

  // ---------- what a list is at every moment between two calls ----------

  /** The entries cut [base, limit) into non-empty pieces. */
  ghost predicate Partition(list: seq<Buffer>, base: nat, limit: nat) {
    && |list| > 0
    && list[0].userData == base
    && forall i {:trigger SizeAt(list, limit, i)} :: 0 <= i < |list| ==> SizeAt(list, limit, i) > 0
  }

  /** Whether the buffer at i absorbs the one behind it, or is absorbed by the one before it. */
  predicate MergesRight(list: seq<Buffer>, i: nat) {
    i + 1 < |list| && list[i + 1].free
  }

  predicate MergesLeft(list: seq<Buffer>, i: nat)
    requires i < |list|
  {
    0 < i && list[i - 1].free
  }

  ghost predicate NoFreeNeighbours(list: seq<Buffer>) {
    forall i {:trigger MergesRight(list, i)} :: 0 <= i < |list| && list[i].free ==> !MergesRight(list, i)
  }

  /** An allocated buffer is exactly as large as its request needed. */
  ghost predicate Fits(list: seq<Buffer>, limit: nat) {
    forall i {:trigger SizeAt(list, limit, i)} :: 0 <= i < |list| && !list[i].free ==> SizeAt(list, limit, i) == Need(list[i])
  }

  ghost predicate Layout(list: seq<Buffer>, base: nat, limit: nat) {
    Partition(list, base, limit) && NoFreeNeighbours(list)
  }

  ghost predicate Good(list: seq<Buffer>, base: nat, limit: nat) {
    Layout(list, base, limit) && Fits(list, limit)
  }

  /** Addresses ascend: a buffer ends at or before every later one starts. */
  lemma {:induction false} Order(list: seq<Buffer>, base: nat, limit: nat, i: nat, j: nat)
    requires Partition(list, base, limit) && i < j < |list|
    ensures list[i].userData < EndAt(list, limit, i) <= list[j].userData
    decreases j - i
  {
    assert SizeAt(list, limit, i) > 0;
    if i + 1 < j {
      Order(list, base, limit, i + 1, j);
    }
  }

  lemma IndexOfAt(list: seq<Buffer>, base: nat, limit: nat, i: nat)
    requires Partition(list, base, limit) && i < |list|
    ensures IndexOf(list, list[i].userData) == i
    ensures SizeOf(list, limit, list[i].userData) == SizeAt(list, limit, i)
  {
    var k := IndexOf(list, list[i].userData);
    if k < i {
      Order(list, base, limit, k, i);
    } else if i < k < |list| {
      Order(list, base, limit, i, k);
    }
  }

  lemma InRegion(list: seq<Buffer>, base: nat, limit: nat, i: nat)
    requires Partition(list, base, limit) && i < |list|
    ensures base <= list[i].userData < EndAt(list, limit, i) <= limit
  {
    assert SizeAt(list, limit, i) > 0;
    assert SizeAt(list, limit, |list| - 1) > 0;
    if 0 < i {
      Order(list, base, limit, 0, i);
    }
    if i < |list| - 1 {
      Order(list, base, limit, i, |list| - 1);
    }
  }

  // ---------- allocating and freeing, as functions on the list ----------

  /** The list after the free buffer at i has been given to a request of `size` bytes:
      what is left over becomes a new free buffer right behind it. */
  function Taken(list: seq<Buffer>, limit: nat, i: nat, size: nat, filled: Buffer): seq<Buffer>
    requires i < |list|
  {
    if SizeAt(list, limit, i) != size
    then list[..i] + [filled, FreshFree(list[i].userData + size)] + list[i + 1..]
    else list[i := filled]
  }

  function Drop(list: seq<Buffer>, i: nat): seq<Buffer>
    requires i < |list|
  {
    list[..i] + list[i + 1..]
  }

  /** Marking the buffer free and absorbing the free one behind it. */
  function RightMerged(list: seq<Buffer>, i: nat): seq<Buffer>
    requires i < |list|
  {
    var marked := list[i := list[i].(free := true)];
    if MergesRight(list, i) then Drop(marked, i + 1) else marked
  }

  /** The list after the buffer at i has been freed and merged with its free neighbours. */
  function Released(list: seq<Buffer>, i: nat): seq<Buffer>
    requires i < |list|
  {
    if MergesLeft(list, i) then Drop(RightMerged(list, i), i) else RightMerged(list, i)
  }

  /** The first `cut` entries of after are those of list, and behind position `from` every
      entry is the one `off` places further (or, for a negative off, nearer) in list. */
  ghost predicate Spliced(after: seq<Buffer>, list: seq<Buffer>, limit: nat, cut: nat, from: nat, off: int) {
    && |after| == |list| - off
    && cut <= |list| && cut <= |after| && from + off >= 0
    && (forall k {:trigger after[k]} :: 0 <= k < cut ==> after[k] == list[k])
    && (forall k {:trigger after[k]} :: from <= k < |after| ==> after[k] == list[k + off])
    && (forall k {:trigger SizeAt(after, limit, k)} :: 0 <= k < cut ==> SizeAt(after, limit, k) == SizeAt(list, limit, k))
    && (forall k {:trigger SizeAt(after, limit, k)} :: from <= k < |after| ==> SizeAt(after, limit, k) == SizeAt(list, limit, k + off))
  }

  lemma SplicedTwice(a: seq<Buffer>, b: seq<Buffer>, c: seq<Buffer>, limit: nat,
                     cut: nat, from: nat, off: int, cut': nat, from': nat, off': int)
    requires Spliced(a, b, limit, cut, from, off) && Spliced(b, c, limit, cut', from', off')
    requires cut <= cut' && from + off >= from'
    ensures Spliced(a, c, limit, cut, from, off + off')
  {
  }

  /** Where everything is after a split. */
  lemma SplitAt(list: seq<Buffer>, base: nat, limit: nat, i: nat, size: nat, filled: Buffer)
    requires Partition(list, base, limit) && i < |list|
    requires 0 < size < SizeAt(list, limit, i) && filled.userData == list[i].userData
    ensures var after := Taken(list, limit, i, size, filled);
            && Spliced(after, list, limit, i, i + 2, -1)
            && Partition(after, base, limit)
            && after[i] == filled && SizeAt(after, limit, i) == size
            && after[i + 1] == FreshFree(list[i].userData + size)
            && SizeAt(after, limit, i + 1) == SizeAt(list, limit, i) - size
  {
    var after := Taken(list, limit, i, size, filled);
    assert after == list[..i] + [filled, FreshFree(list[i].userData + size)] + list[i + 1..];
  }

  /** A request leaves a good list good. */
  lemma TakenGood(list: seq<Buffer>, base: nat, limit: nat, i: nat, size: nat, filled: Buffer)
    requires Good(list, base, limit) && i < |list| && list[i].free
    requires 0 < size <= SizeAt(list, limit, i)
    requires filled.userData == list[i].userData && !filled.free && Need(filled) == size
    ensures Good(Taken(list, limit, i, size, filled), base, limit)
  {
    var after := Taken(list, limit, i, size, filled);
    assert !MergesRight(list, i);
    if SizeAt(list, limit, i) != size {
      SplitAt(list, base, limit, i, size, filled);
      forall k | 0 <= k < |after| && after[k].free
        ensures !MergesRight(after, k)
      {
        if k < i {
          assert !MergesRight(list, k);
        } else if k > i + 1 {
          assert !MergesRight(list, k - 1);
        }
      }
    } else {
      assert forall k {:trigger SizeAt(after, limit, k)} :: 0 <= k < |list| ==> SizeAt(after, limit, k) == SizeAt(list, limit, k);
      forall k | 0 <= k < |after| && after[k].free
        ensures !MergesRight(after, k)
      {
        assert !MergesRight(list, k);
      }
    }
  }

  /** Dropping an entry that is not the first gives its space to the entry before it. */
  lemma DropPartition(list: seq<Buffer>, base: nat, limit: nat, i: nat)
    requires Partition(list, base, limit) && 0 < i < |list|
    ensures var after := Drop(list, i);
            && Partition(after, base, limit)
            && Spliced(after, list, limit, i - 1, i, 1)
            && after[i - 1] == list[i - 1]
            && SizeAt(after, limit, i - 1) == SizeAt(list, limit, i - 1) + SizeAt(list, limit, i)
  {
    var after := Drop(list, i);
    assert SizeAt(list, limit, i - 1) > 0 && SizeAt(list, limit, i) > 0;
    assert forall k {:trigger SizeAt(after, limit, k)} :: 0 <= k < i - 1 ==> SizeAt(after, limit, k) == SizeAt(list, limit, k);
    assert forall k {:trigger SizeAt(after, limit, k)} :: i <= k < |after| ==> SizeAt(after, limit, k) == SizeAt(list, limit, k + 1);
  }

  lemma RightMergedAt(list: seq<Buffer>, base: nat, limit: nat, i: nat)
    requires Partition(list, base, limit) && i < |list|
    ensures Partition(RightMerged(list, i), base, limit)
    ensures var after := RightMerged(list, i);
            var off := if MergesRight(list, i) then 1 else 0;
            && Spliced(after, list, limit, i, i + 1, off)
            && after[i] == list[i].(free := true)
            && SizeAt(after, limit, i) == SizeAt(list, limit, i) + (if off == 1 then SizeAt(list, limit, i + 1) else 0)
  {
    var marked := list[i := list[i].(free := true)];
    assert forall k {:trigger SizeAt(marked, limit, k)} :: 0 <= k < |list| ==> SizeAt(marked, limit, k) == SizeAt(list, limit, k);
    assert Partition(marked, base, limit);
    if MergesRight(list, i) {
      DropPartition(marked, base, limit, i + 1);
    }
  }

  /** Where everything is after a free: entry `cut` is the merged free buffer. */
  lemma ReleasedAt(list: seq<Buffer>, base: nat, limit: nat, i: nat)
    requires Partition(list, base, limit) && i < |list|
    ensures var after := Released(list, i);
            var cut := if MergesLeft(list, i) then i - 1 else i;
            var off := (if MergesRight(list, i) then 1 else 0) + (i - cut);
            && Partition(after, base, limit)
            && Spliced(after, list, limit, cut, cut + 1, off)
            && after[cut] == list[cut].(free := true)
            && EndAt(after, limit, cut) == EndAt(list, limit, cut + off)
  {
    var right := RightMerged(list, i);
    var off := if MergesRight(list, i) then 1 else 0;
    RightMergedAt(list, base, limit, i);
    if MergesLeft(list, i) {
      DropPartition(right, base, limit, i);
      SplicedTwice(Drop(right, i), right, list, limit, i - 1, i, 1, i, i + 1, off);
    }
  }

  lemma ReleasedFits(list: seq<Buffer>, after: seq<Buffer>, limit: nat, cut: nat, off: nat)
    requires Spliced(after, list, limit, cut, cut + 1, off) && cut < |after| && after[cut].free
    requires Fits(list, limit)
    ensures Fits(after, limit)
  {
    forall k | 0 <= k < |after| && !after[k].free
      ensures SizeAt(after, limit, k) == Need(after[k])
    {
      var k' := if k < cut then k else k + off;
      assert SizeAt(list, limit, k') == Need(list[k']);
    }
  }

  /** Freeing leaves a good list good; this is where merging on both sides matters. */
  lemma ReleasedGood(list: seq<Buffer>, base: nat, limit: nat, i: nat)
    requires Good(list, base, limit) && i < |list| && !list[i].free
    ensures Good(Released(list, i), base, limit)
  {
    ReleasedAt(list, base, limit, i);
    var after := Released(list, i);
    var cut := if MergesLeft(list, i) then i - 1 else i;
    var off := (if MergesRight(list, i) then 1 else 0) + (i - cut);
    ReleasedFits(list, after, limit, cut, off);
    forall k | 0 <= k < |after| && after[k].free
      ensures !MergesRight(after, k)
    {
      if k < cut {
        assert !MergesRight(list, k);
      } else {
        assert MergesRight(list, i) ==> !MergesRight(list, i + 1);
        assert !list[k + off].free || !MergesRight(list, k + off);
      }
    }
  }

  /** A good list without an allocated buffer is one free buffer spanning the region. */
  lemma AllFreeIsOne(list: seq<Buffer>, base: nat, limit: nat)
    requires Layout(list, base, limit)
    requires forall i :: 0 <= i < |list| ==> list[i].free
    ensures |list| == 1 && list[0].free && list[0].userData == base && SizeAt(list, limit, 0) == limit - base
  {
    assert !MergesRight(list, 0);
  }

  /** What the rest of the driver can see of the layout. */
  function Shape(list: seq<Buffer>): seq<(nat, bool)> {
    seq(|list|, i requires 0 <= i < |list| => (list[i].userData, list[i].free))
  }

  /** Freeing what was just allocated restores the layout, whatever the split. */
  lemma ReleasedUndoesTaken(list: seq<Buffer>, base: nat, limit: nat, i: nat, size: nat, filled: Buffer)
    requires Layout(list, base, limit) && i < |list| && list[i].free
    requires 0 < size <= SizeAt(list, limit, i)
    requires filled.userData == list[i].userData && !filled.free
    ensures Shape(Released(Taken(list, limit, i, size, filled), i)) == Shape(list)
  {
    var taken := Taken(list, limit, i, size, filled);
    assert !MergesRight(list, i);
    assert 0 < i ==> !list[i - 1].free || !MergesRight(list, i - 1);
    var back := Released(taken, i);
    assert |back| == |list|;
    forall k | 0 <= k < |list|
      ensures back[k].userData == list[k].userData && back[k].free == list[k].free
    {
    }
  }
}
