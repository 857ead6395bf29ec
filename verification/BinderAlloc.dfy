/** The buffer allocator of one process: `struct binder_alloc` and the functions that run
    under its mutex. */
module BinderAlloc {
  import opened SizeArith
  import opened SearchTree
  import opened BufferList
  import opened AllocBudget
  import opened AllocRequests
  import opened AllocTrees
  import opened AllocPages

  newtype byte = x: int | 0 <= x < 256

  datatype Errno = ESRCH | EINVAL | ENOSPC | ENOMEM | EPERM | EBUSY

  datatype Result<T> = Ok(value: T) | Err(error: Errno)

  /** `pages[i].page_ptr` together with what the page holds. */
  datatype Frame = Absent | Present(bytes: seq<byte>)

  /** What the page allocator and the page-table insertion answer for one page. */
  datatype Grant = Granted | NoPage | InsertFails

  /** Everything a request depends on that the allocator does not control. */
  datatype Env = Env(mmAlive: bool, vmaStays: bool, grant: nat -> Grant, structAvailable: bool)

  ghost predicate AllGranted(env: Env) {
    env.mmAlive && env.vmaStays && env.structAvailable && forall p :: env.grant(p) == Granted
  }

  function ZeroPage(): (z: seq<byte>)
    ensures |z| == PAGE
  {
    seq(PAGE, _ => 0)
  }

  /** The checks before the search: the padded size, or why the request is refused. */
  function Admit(vma: bool, freeAsync: size_t, d: size_t, o: size_t, e: size_t, isAsync: bool): Result<nat> {
    if !vma then Err(ESRCH)
    else
      var check := CheckedSize(d, o, e);
      if check.BadSize? then Err(EINVAL)
      else if isAsync && freeAsync < AddWrap(check.size, BUFFER_STRUCT) then Err(ENOSPC)
      else Ok(Max(check.size, PTR))
  }

  /** When the allocator must refuse a request, in terms of the layout and of unbounded
      arithmetic: nothing about trees, word size or the order of the checks. */
  ghost function Refusal(list: seq<Buffer>, limit: nat, vma: bool, freeAsync: nat, d: size_t, o: size_t, e: size_t, isAsync: bool): Result<()> {
    if !vma then Err(ESRCH)
    else if Padded(d, o, e) >= TWO64 then Err(EINVAL)
    else if isAsync && freeAsync < Padded(d, o, e) + BUFFER_STRUCT then Err(ENOSPC)
    else if !SomeFits(list, limit, Max(Padded(d, o, e), PTR)) then Err(ENOSPC)
    else Ok(())
  }

  /** A request that fits is far from the end of the 64-bit range. */
  lemma FittingIsSmall(list: seq<Buffer>, base: nat, limit: nat, size: nat, j: nat)
    requires Partition(list, base, limit) && PageRegion(base, limit)
    requires j < |list| && list[j].free && size <= SizeAt(list, limit, j)
    ensures size + PAGE <= TWO64 && SomeFits(list, limit, size)
  {
    InRegion(list, base, limit, j);
  }

  /** The early checks are exact: the one-way check wraps only for requests that cannot be
      placed anyway. */
  lemma AdmitIsRefusal(list: seq<Buffer>, base: nat, limit: nat, vma: bool, freeAsync: size_t, d: size_t, o: size_t, e: size_t, isAsync: bool)
    requires Partition(list, base, limit) && PageRegion(base, limit)
    ensures var admitted := Admit(vma, freeAsync, d, o, e, isAsync);
            var refusal := Refusal(list, limit, vma, freeAsync, d, o, e, isAsync);
            && (admitted.Err? ==> refusal == Err(admitted.error))
            && (admitted.Ok? ==> admitted.value == Max(Padded(d, o, e), PTR))
            && (admitted.Ok? && SomeFits(list, limit, admitted.value) ==> refusal.Ok?)
            && (admitted.Ok? && !SomeFits(list, limit, admitted.value) ==> refusal == Err(ENOSPC))
            && (admitted.Ok? && SomeFits(list, limit, admitted.value) && isAsync ==> Padded(d, o, e) + BUFFER_STRUCT <= freeAsync)
            && (admitted == Err(EINVAL) <==> vma && Padded(d, o, e) >= TWO64)
  {
    CheckedSizeExact(d, o, e);
    var padded := Padded(d, o, e);
    if padded < TWO64 {
      AddWrapSmall(padded, BUFFER_STRUCT);
      if SomeFits(list, limit, Max(padded, PTR)) {
        var j :| 0 <= j < |list| && list[j].free && Max(padded, PTR) <= SizeAt(list, limit, j);
        FittingIsSmall(list, base, limit, Max(padded, PTR), j);
      }
    }
  }

  // ---------- the region as flat memory ----------

  /** The byte at offset x of the region; 0 where no page is mapped. */
  function ByteAt(frames: seq<Frame>, x: nat): byte {
    if x / PAGE < |frames| && frames[x / PAGE].Present? && x % PAGE < |frames[x / PAGE].bytes|
    then frames[x / PAGE].bytes[x % PAGE] else 0
  }

  function ReadBytes(frames: seq<Frame>, start: nat, n: nat): seq<byte> {
    seq(n, j requires 0 <= j < n => ByteAt(frames, start + j))
  }

  /** The flat effect of a write: the bytes of src at start, everything else as before. */
  ghost predicate Patched(before: seq<Frame>, after: seq<Frame>, start: nat, src: seq<byte>) {
    && |after| == |before|
    && (forall p :: 0 <= p < |after| ==> after[p].Present? == before[p].Present?)
    && forall x: nat :: ByteAt(after, x) == if start <= x < start + |src| then src[x - start] else ByteAt(before, x)
  }

  /** One `memcpy` into one page. */
  function Splice(bytes: seq<byte>, off: nat, chunk: seq<byte>): seq<byte>
    requires off + |chunk| <= |bytes|
  {
    bytes[..off] + chunk + bytes[off + |chunk|..]
  }

  lemma SpliceIsPatch(frames: seq<Frame>, p: nat, off: nat, chunk: seq<byte>)
    requires p < |frames| && frames[p].Present? && |frames[p].bytes| == PAGE && off + |chunk| <= PAGE
    ensures Patched(frames, frames[p := Present(Splice(frames[p].bytes, off, chunk))], p * PAGE + off, chunk)
  {
    var after := frames[p := Present(Splice(frames[p].bytes, off, chunk))];
    var start := p * PAGE + off;
    forall x: nat
      ensures ByteAt(after, x) == if start <= x < start + |chunk| then chunk[x - start] else ByteAt(frames, x)
    {
      if x / PAGE == p {
        assert x % PAGE == x - p * PAGE;
      }
    }
  }

  /** Writing two adjacent pieces is writing their concatenation. */
  lemma PatchesCompose(a: seq<Frame>, b: seq<Frame>, c: seq<Frame>, start: nat, s: seq<byte>, t: seq<byte>)
    requires Patched(a, b, start, s) && Patched(b, c, start + |s|, t)
    ensures Patched(a, c, start, s + t)
  {
  }

  lemma ChunkIsRead(frames: seq<Frame>, p: nat, off: nat, size: nat)
    requires p < |frames| && frames[p].Present? && |frames[p].bytes| == PAGE && off + size <= PAGE
    ensures frames[p].bytes[off..off + size] == ReadBytes(frames, p * PAGE + off, size)
  {
    var chunk := frames[p].bytes[off..off + size];
    forall j | 0 <= j < size
      ensures chunk[j] == ByteAt(frames, p * PAGE + off + j)
    {
      var x := p * PAGE + off + j;
      assert x / PAGE == p || off + j == PAGE;
    }
  }

  lemma ReadsCompose(frames: seq<Frame>, start: nat, n: nat, m: nat)
    ensures ReadBytes(frames, start, n + m) == ReadBytes(frames, start, n) + ReadBytes(frames, start + n, m)
  {
  }

  /** Reading back what was written gives the same bytes. */
  lemma ReadAfterWrite(before: seq<Frame>, after: seq<Frame>, start: nat, src: seq<byte>)
    requires Patched(before, after, start, src)
    ensures ReadBytes(after, start, |src|) == src
  {
  }

  /** A write inside one buffer changes no byte of another. */
  lemma OtherBuffersUntouched(list: seq<Buffer>, base: nat, limit: nat, k: nat, j: nat, before: seq<Frame>, after: seq<Frame>, offset: nat, src: seq<byte>)
    requires Partition(list, base, limit) && k < |list| && j < |list| && j != k
    requires offset + |src| <= SizeAt(list, limit, k)
    requires base <= list[k].userData && base <= list[j].userData
    requires Patched(before, after, list[k].userData - base + offset, src)
    ensures ReadBytes(after, list[j].userData - base, SizeAt(list, limit, j)) == ReadBytes(before, list[j].userData - base, SizeAt(list, limit, j))
  {
    if j < k {
      Order(list, base, limit, j, k);
    } else {
      Order(list, base, limit, k, j);
    }
  }

  /** `check_buffer`. */
  predicate CheckBuffer(list: seq<Buffer>, limit: nat, k: nat, offset: nat, bytes: nat)
    requires k < |list|
  {
    var bufferSize := SizeAt(list, limit, k);
    && bufferSize >= bytes
    && offset <= bufferSize - bytes
    && offset % 4 == 0
    && !list[k].free
    && (!list[k].allowUserFree || !list[k].inTransaction)
  }

  /** Accepted are exactly the aligned spans of an allocated buffer's own bytes, while it is being
      filled or no transaction points to it. */
  lemma CheckedExactly(list: seq<Buffer>, base: nat, limit: nat, k: nat, offset: nat, bytes: nat)
    requires Partition(list, base, limit) && k < |list|
    ensures CheckBuffer(list, limit, k, offset, bytes) <==>
              && list[k].userData + offset + bytes <= EndAt(list, limit, k)
              && (exists q: nat :: offset == 4 * q)
              && EntryAt(list, list[k].userData).Some?
              && !(MayFree(list, list[k].userData) && list[k].inTransaction)
  {
    hide Partition;
    EntryIs(list, base, limit, k);
    if offset % 4 == 0 {
      assert offset == 4 * (offset / 4);
    }
  }

  /** Only the two flags that the rest of the driver sets differ. */
  function WithFlags(list: seq<Buffer>, k: nat, allowUserFree: bool, inTransaction: bool): seq<Buffer>
    requires k < |list|
  {
    list[k := list[k].(allowUserFree := allowUserFree, inTransaction := inTransaction)]
  }

  lemma FlagsKeepLayout(list: seq<Buffer>, limit: nat, k: nat, allowUserFree: bool, inTransaction: bool)
    requires k < |list|
    ensures var after := WithFlags(list, k, allowUserFree, inTransaction);
            && (forall a :: SizeOf(after, limit, a) == SizeOf(list, limit, a))
            && (forall j {:trigger SizeAt(after, limit, j)} :: 0 <= j < |list| ==> SizeAt(after, limit, j) == SizeAt(list, limit, j))
  {
    var after := WithFlags(list, k, allowUserFree, inTransaction);
    forall a
      ensures SizeOf(after, limit, a) == SizeOf(list, limit, a)
    {
      SizeOfSameLayout(after, list, limit, a);
    }
  }

  lemma SingleAddrs(b: Buffer, isFree: bool)
    ensures Addrs([b], isFree) == if b.free == isFree then {b.userData} else {}
  {
    assert [b][0] == b;
  }

  lemma FlagsKeepAddrs(list: seq<Buffer>, k: nat, allowUserFree: bool, inTransaction: bool, isFree: bool)
    requires k < |list|
    ensures Addrs(WithFlags(list, k, allowUserFree, inTransaction), isFree) == Addrs(list, isFree)
  {
    var b := list[k].(allowUserFree := allowUserFree, inTransaction := inTransaction);
    assert WithFlags(list, k, allowUserFree, inTransaction) == list[..k] + [b] + list[k + 1..];
    assert list == list[..k] + [list[k]] + list[k + 1..];
    AddrsAround(list, k, [b]);
    AddrsAround(list, k, [list[k]]);
    SingleAddrs(b, isFree);
    SingleAddrs(list[k], isFree);
  }

  lemma FlagsKeepOwed(list: seq<Buffer>, k: nat, allowUserFree: bool, inTransaction: bool)
    requires k < |list|
    ensures OwedAll(WithFlags(list, k, allowUserFree, inTransaction)) == OwedAll(list)
  {
    var b := list[k].(allowUserFree := allowUserFree, inTransaction := inTransaction);
    assert WithFlags(list, k, allowUserFree, inTransaction) == list[..k] + [b] + list[k + 1..];
    OwedAround(list, k, [b]);
    assert [b][1..] == [];
  }

  lemma FlagsKeepPages(list: seq<Buffer>, base: nat, limit: nat, k: nat, allowUserFree: bool, inTransaction: bool, p: nat)
    requires k < |list|
    ensures Touched(WithFlags(list, k, allowUserFree, inTransaction), base, limit, p) == Touched(list, base, limit, p)
  {
    var after := WithFlags(list, k, allowUserFree, inTransaction);
    assert forall j :: 0 <= j < |list| ==> EndAt(after, limit, j) == EndAt(list, limit, j);
    assert forall j :: 0 <= j < |list| ==> TouchedBy(after, base, limit, j, p) == TouchedBy(list, base, limit, j, p);
  }

  /** Linking what is left over as a new free buffer: the key of the buffer being cut
      shrinks while it is still in the free tree. */
  method SplitOff(list: seq<Buffer>, ghost base: nat, limit: nat, t: Tree, i: nat, size: nat) returns (list': seq<Buffer>, t': Tree)
    requires Partition(list, base, limit) && i < |list| && list[i].free
    requires FreeTreeOk(list, limit, InOrder(t))
    requires 0 < size < SizeAt(list, limit, i)
    requires FirstLargeEnough(list, limit, InOrder(t), size, list[i].userData)
    ensures list' == Taken(list, limit, i, size, list[i])
    ensures MidSplit(list, limit, i, size, InOrder(t'))
  {
    var addr := list[i].userData + size;
    ShrunkKeyStaysInOrder(list, base, limit, i, size, InOrder(t));
    RestIsNew(list, base, limit, i, size);
    list' := list[..i] + [list[i], FreshFree(addr)] + list[i + 1..];
    t' := InsertFree(list', limit, t, addr);
    MidSplitReached(list, base, limit, i, size, InOrder(t), InOrder(t'));
  }

  /** The list and the two trees of a granted request. */
  method Carve(list: seq<Buffer>, ghost base: nat, limit: nat, freeTree: Tree, allocatedTree: Tree, i: nat, size: nat, filled: Buffer)
      returns (list': seq<Buffer>, freeTree': Tree, allocatedTree': Tree)
    requires Partition(list, base, limit)
    requires FreeTreeOk(list, limit, InOrder(freeTree)) && AllocTreeOk(list, InOrder(allocatedTree))
    requires i < |list| && list[i].free && 0 < size <= SizeAt(list, limit, i)
    requires SizeAt(list, limit, i) == size || FirstLargeEnough(list, limit, InOrder(freeTree), size, list[i].userData)
    requires filled.userData == list[i].userData && !filled.free
    ensures list' == Taken(list, limit, i, size, filled)
    ensures FreeTreeOk(list', limit, InOrder(freeTree')) && AllocTreeOk(list', InOrder(allocatedTree'))
  {
    var u := list[i].userData;
    var cut, t := list, freeTree;
    if SizeAt(list, limit, i) != size {
      cut, t := SplitOff(list, base, limit, freeTree, i, size);
    } else {
      MidSplitTrivial(list, limit, i, size, InOrder(freeTree));
    }
    FreeTreeAfterTake(list, base, limit, i, size, filled, t);
    freeTree' := Erase(t, u);
    list' := cut[i := filled];
    assert list' == Taken(list, limit, i, size, filled);
    TakenAddrs(list, base, limit, i, size, filled);
    allocatedTree' := InsertAllocated(allocatedTree, u);
    AddressOrderedNoDup(InOrder(allocatedTree'));
  }

  function AllocatedCount(list: seq<Buffer>): nat {
    if list == [] then 0 else (if list[0].free then 0 else 1) + AllocatedCount(list[1..])
  }

  lemma {:induction false} CountConcat(s: seq<Buffer>, t: seq<Buffer>)
    ensures AllocatedCount(s + t) == AllocatedCount(s) + AllocatedCount(t)
  {
    if s == [] {
      assert s + t == t;
    } else {
      assert (s + t)[1..] == s[1..] + t;
      CountConcat(s[1..], t);
    }
  }

  lemma CountAround(list: seq<Buffer>, i: nat, middle: seq<Buffer>)
    requires i < |list|
    ensures AllocatedCount(list) == AllocatedCount(list[..i]) + (if list[i].free then 0 else 1) + AllocatedCount(list[i + 1..])
    ensures AllocatedCount(list[..i] + middle + list[i + 1..]) == AllocatedCount(list[..i]) + AllocatedCount(middle) + AllocatedCount(list[i + 1..])
  {
    assert list == list[..i] + [list[i]] + list[i + 1..];
    CountConcat(list[..i] + [list[i]], list[i + 1..]);
    CountConcat(list[..i], [list[i]]);
    CountConcat(list[..i] + middle, list[i + 1..]);
    CountConcat(list[..i], middle);
    assert [list[i]][1..] == [];
  }

  lemma DropCount(list: seq<Buffer>, i: nat)
    requires i < |list| && list[i].free
    ensures AllocatedCount(Drop(list, i)) == AllocatedCount(list)
  {
    CountAround(list, i, []);
    assert Drop(list, i) == list[..i] + [] + list[i + 1..];
  }

  lemma MarkCount(list: seq<Buffer>, i: nat)
    requires i < |list| && !list[i].free
    ensures AllocatedCount(list[i := list[i].(free := true)]) == AllocatedCount(list) - 1
  {
    var m := list[i].(free := true);
    CountAround(list, i, [m]);
    assert list[i := m] == list[..i] + [m] + list[i + 1..] && [m][1..] == [];
  }

  /** Every free takes exactly one allocated buffer away. */
  lemma ReleasedCount(list: seq<Buffer>, i: nat)
    requires i < |list| && !list[i].free
    ensures AllocatedCount(Released(list, i)) == AllocatedCount(list) - 1
  {
    var marked := list[i := list[i].(free := true)];
    MarkCount(list, i);
    if MergesRight(list, i) {
      DropCount(marked, i + 1);
    }
    if MergesLeft(list, i) {
      DropCount(RightMerged(list, i), i);
    }
  }

  /** `rb_first`. */
  function First(t: Tree): nat
    requires t.Node?
  {
    if t.left.Leaf? then t.addr else First(t.left)
  }

  lemma {:induction false} FirstInOrder(t: Tree)
    requires t.Node?
    ensures First(t) in InOrder(t)
  {
    if t.left.Node? {
      FirstInOrder(t.left);
    }
  }

  lemma AllocatedAddrs(list: seq<Buffer>)
    ensures forall i :: 0 <= i < |list| && !list[i].free ==> list[i].userData in Addrs(list, false)
  {
  }

  /** With an empty tree of allocated buffers one free buffer spans the region and no page
      is held. */
  lemma NothingAllocated(list: seq<Buffer>, base: nat, limit: nat)
    requires Good(list, base, limit) && AllocTreeOk(list, [])
    ensures |list| == 1 && list[0].free && SizeAt(list, limit, 0) == limit - base
    ensures forall p: nat :: !Touched(list, base, limit, p)
    ensures OwedAll(list) == 0
  {
    AllocatedAddrs(list);
    assert Addrs(list, false) == {};
    AllFreeIsOne(list, base, limit);
    assert list[1..] == [];
  }

  /** The buffer leaves the tree of allocated buffers. */
  method MarkFree(list: seq<Buffer>, ghost base: nat, ghost limit: nat, ghost freeTree: Tree, allocatedTree: Tree, i: nat)
      returns (list': seq<Buffer>, allocatedTree': Tree)
    requires Partition(list, base, limit) && i < |list| && !list[i].free
    requires FreeTreeOk(list, limit, InOrder(freeTree)) && AllocTreeOk(list, InOrder(allocatedTree))
    ensures list' == list[i := list[i].(free := true)]
    ensures MidFree(list', limit, InOrder(freeTree), list[i].userData)
    ensures AllocTreeOk(Released(list, i), InOrder(allocatedTree'))
  {
    AllocTreeAfterFree(list, base, limit, i, allocatedTree);
    MarkedTree(list, base, limit, i, InOrder(freeTree));
    allocatedTree' := Erase(allocatedTree, list[i].userData);
    list' := list[i := list[i].(free := true)];
  }

  /** The merged buffer goes back into the free tree. */
  method PutBack(list: seq<Buffer>, limit: nat, t: Tree, k: nat) returns (t': Tree)
    requires k < |list| && list[k].free && MidFree(list, limit, InOrder(t), list[k].userData)
    ensures FreeTreeOk(list, limit, InOrder(t'))
  {
    var hole := list[k].userData;
    assert hole in Addrs(list, true);
    t' := InsertFree(list, limit, t, hole);
    FilledHole(list, limit, InOrder(t), InOrder(t'), hole);
  }

  class Alloc {
    const base: nat
    const bufferSize: nat
    var vma: bool
    var buffers: seq<Buffer>
    var freeTree: Tree
    var allocatedTree: Tree
    var freeAsync: size_t
    const pages: array<Frame>
    /** Pages claimed by allocate passes and not yet given back by free passes. */
    ghost var claimed: set<nat>
    /** Accepted one-way requests whose three sizes are all zero. */
    ghost var zeroAsync: nat

    ghost function Limit(): nat {
      base + bufferSize
    }

    ghost predicate PagesOk()
      reads this, pages
    {
      && PageRegion(base, Limit())
      && pages.Length * PAGE == bufferSize
      && (forall p :: p in claimed ==> p < pages.Length && pages[p].Present?)
      && (forall p :: 0 <= p < pages.Length && pages[p].Present? ==> |pages[p].bytes| == PAGE)
    }

    /** The pages held are exactly those some allocated buffer overlaps. */
    ghost predicate ClaimsExact()
      reads this
    {
      forall p: nat :: p in claimed <==> Touched(buffers, base, Limit(), p)
    }

    ghost predicate TreesOk()
      reads this
    {
      && FreeTreeOk(buffers, Limit(), InOrder(freeTree))
      && AllocTreeOk(buffers, InOrder(allocatedTree))
    }

    /** The one-way budget: every zero-size one-way request costs 8 bytes for good. */
    ghost predicate BudgetOk()
      reads this
    {
      Budget(freeAsync, OwedAll(buffers), zeroAsync, bufferSize / 2)
    }

    ghost predicate Valid()
      reads this, pages
    {
      && PagesOk()
      && Good(buffers, base, Limit())
      && TreesOk()
      && ClaimsExact()
      && BudgetOk()
    }

    /** What `binder_alloc_mmap_handler` sets up when it succeeds. */
    constructor (vmStart: nat, npages: nat)
      requires npages > 0 && vmStart % PAGE == 0 && vmStart + npages * PAGE + PAGE <= TWO64
      ensures Valid() && vma && base == vmStart && bufferSize == npages * PAGE
      ensures buffers == [FreshFree(vmStart)] && claimed == {} && freeAsync == bufferSize / 2 && zeroAsync == 0
      ensures fresh(pages) && forall p :: 0 <= p < pages.Length ==> pages[p].Absent?
    {
      base := vmStart;
      bufferSize := npages * PAGE;
      pages := new Frame[npages](_ => Absent);
      buffers := [FreshFree(vmStart)];
      freeTree := Node(Leaf, vmStart, Leaf);
      allocatedTree := Leaf;
      freeAsync := npages * PAGE / 2;
      vma := true;
      claimed := {};
      zeroAsync := 0;
      new;
      assert buffers[0] == FreshFree(vmStart);
      assert InOrder(freeTree) == [vmStart];
      assert Addrs(buffers, true) == {vmStart} && Addrs(buffers, false) == {};
      assert buffers[1..] == [];
    }

    /** `binder_alloc_vma_close`. */
    method VmaClose()
      requires Valid()
      modifies this`vma
      ensures Valid() && !vma
    {
      vma := false;
    }

    /** Recolouring and rotation: any other shape with the same in-order sequences. */
    method Rebalance(freeShape: Tree, allocatedShape: Tree)
      requires Valid()
      requires InOrder(freeShape) == InOrder(freeTree) && InOrder(allocatedShape) == InOrder(allocatedTree)
      modifies this`freeTree, this`allocatedTree
      ensures Valid()
    {
      freeTree := freeShape;
      allocatedTree := allocatedShape;
    }

    /** `binder_update_page_range`.  An allocate pass may only be asked for pages that are
        not held, a free pass only for pages that are; a pass that fails midway gives back
        what it had taken. */
    method UpdatePageRange(allocate: bool, start: nat, end: nat, env: Env) returns (error: Result<()>)
      requires PagesOk()
      requires start < end ==> start % PAGE == 0 && end % PAGE == 0 && base <= start && end <= Limit()
      requires allocate ==> PageRange(base, start, end) !! claimed
      requires !allocate ==> PageRange(base, start, end) <= claimed
      modifies this`claimed, pages
      ensures PagesOk()
      ensures !allocate ==> error.Ok?
      ensures error.Err? ==> claimed == old(claimed) && error.error in {ENOMEM, ESRCH}
      ensures error.Ok? ==> claimed == if allocate then old(claimed) + PageRange(base, start, end) else old(claimed) - PageRange(base, start, end)
      ensures forall p :: 0 <= p < pages.Length && old(pages[p]).Present? ==> pages[p] == old(pages[p])
      ensures allocate && env.mmAlive && env.vmaStays && vma && (forall p :: env.grant(p) == Granted) ==> error.Ok?
    {
      if end <= start {
        assert PageRange(base, start, end) == {};
        return Ok(());
      }
      if !allocate {
        FreePages(start, end);
        return Ok(());
      }
      var needMm := SomePageAbsent(start, end);
      var mm := needMm && env.mmAlive;
      var vmaSeen := mm && vma && env.vmaStays;
      if !vmaSeen && needMm {
        return Err(ESRCH);
      }
      var reached := ClaimPages(start, end, vmaSeen, env);
      if reached < end {
        if reached != start {
          FreePages(start, reached);
        }
        assert PageRange(base, start, start) == {};
        return Err(if vmaSeen then ENOMEM else ESRCH);
      }
      return Ok(());
    }

    /** The first scan of an allocate pass. */
    method SomePageAbsent(start: nat, end: nat) returns (absent: bool)
      requires PagesOk() && start < end
      requires start % PAGE == 0 && end % PAGE == 0 && base <= start && end <= Limit()
      ensures absent <==> exists p :: p in PageRange(base, start, end) && pages[p].Absent?
    {
      var addr := start;
      while addr < end
        invariant start <= addr <= end && addr % PAGE == 0
        invariant forall p :: p in PageRange(base, start, addr) ==> pages[p].Present?
      {
        var index := (addr - base) / PAGE;
        RangeGrows(base, start, addr);
        if pages[index].Absent? {
          assert index in PageRange(base, start, end);
          return true;
        }
        addr := addr + PAGE;
      }
      return false;
    }

    /** The claiming loop: stops at the first page it cannot get.  Its test for a missing
        mapping cannot fire, because such a page was seen by the scan. */
    method ClaimPages(start: nat, end: nat, vmaSeen: bool, env: Env) returns (reached: nat)
      requires PagesOk() && start < end
      requires start % PAGE == 0 && end % PAGE == 0 && base <= start && end <= Limit()
      requires PageRange(base, start, end) !! claimed
      requires !vmaSeen ==> forall p :: p in PageRange(base, start, end) ==> pages[p].Present?
      modifies this`claimed, pages
      ensures PagesOk() && start <= reached <= end && reached % PAGE == 0
      ensures claimed == old(claimed) + PageRange(base, start, reached)
      ensures forall p :: 0 <= p < pages.Length && old(pages[p]).Present? ==> pages[p] == old(pages[p])
      ensures (forall p :: env.grant(p) == Granted) ==> reached == end
    {
      reached := start;
      assert PageRange(base, start, start) == {};
      hide PageRange;
      while reached < end
        invariant start <= reached <= end && reached % PAGE == 0
        invariant PagesOk()
        invariant claimed == old(claimed) + PageRange(base, start, reached)
        invariant forall p :: 0 <= p < pages.Length && old(pages[p]).Present? ==> pages[p] == old(pages[p])
      {
        var index := (reached - base) / PAGE;
        PageAt(base, Limit(), start, reached, end);
        if pages[index].Absent? {
          assert vmaSeen;
          if env.grant(index) != Granted {
            return;
          }
          pages[index] := Present(ZeroPage());
        }
        RangeGrows(base, start, reached);
        claimed := claimed + {index};
        reached := reached + PAGE;
      }
    }

    /** The free half of the pass, from the last page down. */
    method FreePages(start: nat, end: nat)
      requires PagesOk() && start < end
      requires start % PAGE == 0 && end % PAGE == 0 && base <= start && end <= Limit()
      requires PageRange(base, start, end) <= claimed
      modifies this`claimed
      ensures PagesOk() && claimed == old(claimed) - PageRange(base, start, end)
    {
      var addr := end;
      assert PageRange(base, end, end) == {};
      hide PageRange;
      while addr != start
        invariant start <= addr <= end && addr % PAGE == 0
        invariant claimed == old(claimed) - PageRange(base, addr, end)
        decreases addr
      {
        addr := addr - PAGE;
        var index := (addr - base) / PAGE;
        PageAt(base, Limit(), start, addr, end);
        RangeGrowsDown(base, addr, end);
        claimed := claimed - {index};
      }
    }

    /** The page claim of a request, undone again when a needed buffer struct is missing. */
    method ClaimFor(i: nat, size: nat, filled: Buffer, env: Env) returns (error: Result<()>)
      requires PagesOk() && ClaimsExact() && Good(buffers, base, Limit())
      requires i < |buffers| && buffers[i].free && 0 < size <= SizeAt(buffers, Limit(), i)
      requires filled.userData == buffers[i].userData && !filled.free
      modifies this`claimed, pages
      ensures PagesOk()
      ensures error.Err? ==> claimed == old(claimed) && error.error in {ENOMEM, ESRCH}
      ensures error.Ok? ==> forall p: nat :: p in claimed <==> Touched(Taken(buffers, Limit(), i, size, filled), base, Limit(), p)
      ensures AllGranted(env) && vma ==> error.Ok?
      ensures forall p :: 0 <= p < pages.Length && old(pages[p]).Present? ==> pages[p] == old(pages[p])
    {
      var u := buffers[i].userData;
      var bufferEnd := EndAt(buffers, base + bufferSize, i);
      var start, end := TakeStart(u), TakeEnd(u, size, bufferEnd);
      ClaimInRegion(buffers, base, Limit(), i, size);
      TakenPagesAll(buffers, base, Limit(), i, size, filled);
      hide Touched, Taken, Partition, NoFreeNeighbours, Fits, TakeStart, TakeEnd, EndAt, SizeAt, PageRange, PageRegion;
      error := UpdatePageRange(true, start, end, env);
      if error.Ok? && bufferEnd - u != size && !env.structAvailable {
        var ignored := UpdatePageRange(false, start, end, env);
        assert claimed == old(claimed);
        error := Err(ENOMEM);
      }
    }

    /** `binder_alloc_new_buf_locked`. */
    method NewBuf(dataSize: size_t, offsetsSize: size_t, extraSize: size_t, isAsync: bool, env: Env) returns (r: Result<nat>)
      requires Valid()
      modifies this`buffers, this`freeTree, this`allocatedTree, this`freeAsync, this`claimed, this`zeroAsync, pages
      ensures Valid()
      ensures r.Err? ==> buffers == old(buffers) && claimed == old(claimed) && freeAsync == old(freeAsync) && zeroAsync == old(zeroAsync)
      ensures r.Ok? ==>
                var filled := Filled(r.value, dataSize, offsetsSize, extraSize, isAsync);
                var i := IndexOf(old(buffers), r.value);
                && IsBestFit(old(buffers), Limit(), Need(filled), i)
                && buffers == Taken(old(buffers), Limit(), i, Need(filled), filled)
                && freeAsync == Charged(old(freeAsync), filled) && zeroAsync == old(zeroAsync) + Zeroes(filled)
      ensures r.Ok? ==> Serves(old(buffers), buffers, Limit(), r.value, dataSize, offsetsSize, extraSize, isAsync)
      ensures Refusal(old(buffers), Limit(), vma, old(freeAsync), dataSize, offsetsSize, extraSize, isAsync).Err?
              ==> r == Err(Refusal(old(buffers), Limit(), vma, old(freeAsync), dataSize, offsetsSize, extraSize, isAsync).error)
      ensures Refusal(old(buffers), Limit(), vma, old(freeAsync), dataSize, offsetsSize, extraSize, isAsync).Ok? && AllGranted(env)
              ==> r.Ok?
      ensures forall p :: 0 <= p < pages.Length && old(pages[p]).Present? ==> pages[p] == old(pages[p])
    {
      hide AllocTreeOk, Budget, Touched, Padded, Pad, Fits, NoFreeNeighbours, SizeOrdered, HoldsExactly, IsBestFit, FirstLargeEnough, Serves;
      var admitted := Admit(vma, freeAsync, dataSize, offsetsSize, extraSize, isAsync);
      AdmitIsRefusal(buffers, base, Limit(), vma, freeAsync, dataSize, offsetsSize, extraSize, isAsync);
      if admitted.Err? {
        r := Err(admitted.error);
      } else {
        var fit := BestFit(buffers, base + bufferSize, freeTree, admitted.value);
        ghost var before := buffers;
        r := TakeFit(fit, admitted.value, Filled(0, dataSize, offsetsSize, extraSize, isAsync), env);
        if r.Ok? {
          BestFitServes(before, base, Limit(), r.value, dataSize, offsetsSize, extraSize, isAsync);
        }
      }
    }

    /** A request after the search. */
    method TakeFit(fit: Fit, size: nat, request: Buffer, env: Env) returns (r: Result<nat>)
      requires Valid() && !request.free && Need(request) == size
      requires fit.NoFit? ==> forall a :: a in InOrder(freeTree) ==> SizeOf(buffers, Limit(), a) < size
      requires !fit.NoFit? ==> fit.addr in InOrder(freeTree)
      requires fit.Exact? ==> SizeOf(buffers, Limit(), fit.addr) == size
      requires fit.Larger? ==> size < SizeOf(buffers, Limit(), fit.addr) && FirstLargeEnough(buffers, Limit(), InOrder(freeTree), size, fit.addr)
      requires SomeFits(buffers, Limit(), size) ==> Owed(request) <= freeAsync
      modifies this`buffers, this`freeTree, this`allocatedTree, this`freeAsync, this`claimed, this`zeroAsync, pages
      ensures Valid()
      ensures r.Err? ==> buffers == old(buffers) && claimed == old(claimed) && freeAsync == old(freeAsync) && zeroAsync == old(zeroAsync)
      ensures r.Ok? ==>
                var i := IndexOf(old(buffers), r.value);
                && IsBestFit(old(buffers), Limit(), size, i)
                && buffers == Taken(old(buffers), Limit(), i, size, request.(userData := r.value))
                && freeAsync == Charged(old(freeAsync), request) && zeroAsync == old(zeroAsync) + Zeroes(request)
      ensures r.Err? ==> r.error in {ENOSPC, ENOMEM, ESRCH}
      ensures !SomeFits(old(buffers), Limit(), size) ==> r == Err(ENOSPC)
      ensures SomeFits(old(buffers), Limit(), size) && AllGranted(env) && vma ==> r.Ok?
      ensures forall p :: 0 <= p < pages.Length && old(pages[p]).Present? ==> pages[p] == old(pages[p])
    {
      if fit.NoFit? {
        NothingFits(buffers, base, Limit(), InOrder(freeTree), size);
        r := Err(ENOSPC);
      } else {
        ghost var i := FitIsBest(buffers, base, Limit(), InOrder(freeTree), size, fit.addr);
        FittingIsSmall(buffers, base, Limit(), size, i);
        var error := Serve(IndexOf(buffers, fit.addr), size, request.(userData := fit.addr), env);
        r := if error.Err? then Err(error.error) else Ok(fit.addr);
      }
    }

    /** The part of a request that starts once a buffer has been found. */
    method Serve(i: nat, size: nat, filled: Buffer, env: Env) returns (error: Result<()>)
      requires Valid()
      requires i < |buffers| && buffers[i].free && size <= SizeAt(buffers, Limit(), i) && size + PAGE <= TWO64
      requires SizeAt(buffers, Limit(), i) == size || FirstLargeEnough(buffers, Limit(), InOrder(freeTree), size, buffers[i].userData)
      requires filled.userData == buffers[i].userData && !filled.free && Need(filled) == size
      requires Owed(filled) <= freeAsync
      modifies this`buffers, this`freeTree, this`allocatedTree, this`freeAsync, this`claimed, this`zeroAsync, pages
      ensures Valid()
      ensures error.Err? ==> buffers == old(buffers) && claimed == old(claimed) && freeAsync == old(freeAsync) && zeroAsync == old(zeroAsync)
      ensures error.Ok? ==> buffers == Taken(old(buffers), Limit(), i, size, filled)
      ensures error.Ok? ==> freeAsync == Charged(old(freeAsync), filled) && zeroAsync == old(zeroAsync) + Zeroes(filled)
      ensures error.Err? ==> error.error in {ENOMEM, ESRCH}
      ensures AllGranted(env) && vma ==> error.Ok?
      ensures forall p :: 0 <= p < pages.Length && old(pages[p]).Present? ==> pages[p] == old(pages[p])
    {
      hide FreeTreeOk, AllocTreeOk, Budget, Padded;
      ghost var before := buffers;
      error := ClaimFor(i, size, filled, env);
      if error.Err? {
        return;
      }
      TakenGood(before, base, Limit(), i, size, filled);
      TakenOwed(before, Limit(), i, size, filled);
      buffers, freeTree, allocatedTree := Carve(buffers, base, base + bufferSize, freeTree, allocatedTree, i, size, filled);
      zeroAsync := zeroAsync + Zeroes(filled);
      if filled.async {
        BudgetAfterTake(OwedAll(before), filled, freeAsync, zeroAsync - Zeroes(filled), bufferSize / 2);
        freeAsync := SubWrap(freeAsync, size + BUFFER_STRUCT);
      }
    }

    /** `binder_delete_free_buffer`: entry k goes, and with it the page it starts in when
        nothing else is on that page. */
    method DeleteFreeBuffer(k: nat)
      requires PagesOk() && Partition(buffers, base, Limit())
      requires 0 < k < |buffers| && buffers[k - 1].free
      requires DeletesPage(buffers, k) ==> PageIndex(base, buffers[k].userData) in claimed
      modifies this`buffers, this`claimed, pages
      ensures PagesOk() && buffers == Drop(old(buffers), k)
      ensures claimed == old(claimed) - (if DeletesPage(old(buffers), k) then {PageIndex(base, old(buffers)[k].userData)} else {})
      ensures forall p :: 0 <= p < pages.Length && old(pages[p]).Present? ==> pages[p] == old(pages[p])
    {
      var u := buffers[k].userData;
      InRegion(buffers, base, Limit(), k);
      if DeletesPage(buffers, k) {
        OnePage(base, u);
        var ignored := UpdatePageRange(false, PageDown(u), PageDown(u) + PAGE, Env(true, true, _ => Granted, true));
      }
      buffers := buffers[..k] + buffers[k + 1..];
    }

    /** Absorbing the free buffer behind entry i. */
    method MergeRight(i: nat, ghost before: seq<Buffer>)
      requires PagesOk() && Partition(before, base, Limit())
      requires i < |before| && buffers == before[i := before[i].(free := true)]
      requires MidFree(buffers, Limit(), InOrder(freeTree), before[i].userData)
      requires DropsLastPage(before, i) ==> PageIndex(base, EndAt(before, Limit(), i)) in claimed
      modifies this`buffers, this`claimed, this`freeTree, pages
      ensures PagesOk() && buffers == RightMerged(before, i)
      ensures MidFree(buffers, Limit(), InOrder(freeTree), before[i].userData)
      ensures claimed == old(claimed) - (if DropsLastPage(before, i) then {PageIndex(base, EndAt(before, Limit(), i))} else {})
      ensures forall p :: 0 <= p < pages.Length && old(pages[p]).Present? ==> pages[p] == old(pages[p])
    {
      if i + 1 < |buffers| && buffers[i + 1].free {
        MarkedPartition(before, base, Limit(), i);
        var next := buffers[i + 1].userData;
        MergedTree(buffers, base, Limit(), i + 1, freeTree, before[i].userData, next);
        freeTree := Erase(freeTree, next);
        DeleteFreeBuffer(i + 1);
      }
    }

    /** Being absorbed by the free buffer in front of entry i; returns where the merged
        buffer is. */
    method MergeLeft(i: nat, ghost before: seq<Buffer>) returns (k: nat)
      requires PagesOk() && Partition(before, base, Limit())
      requires i < |before| && buffers == RightMerged(before, i)
      requires MidFree(buffers, Limit(), InOrder(freeTree), before[i].userData)
      requires DropsFirstPage(before, i) ==> PageIndex(base, before[i].userData) in claimed
      modifies this`buffers, this`claimed, this`freeTree, pages
      ensures PagesOk() && buffers == Released(before, i)
      ensures k < |buffers| && buffers[k].free && MidFree(buffers, Limit(), InOrder(freeTree), buffers[k].userData)
      ensures claimed == old(claimed) - (if DropsFirstPage(before, i) then {PageIndex(base, before[i].userData)} else {})
      ensures forall p :: 0 <= p < pages.Length && old(pages[p]).Present? ==> pages[p] == old(pages[p])
    {
      RightMergedAt(before, base, Limit(), i);
      k := i;
      if 0 < i && buffers[i - 1].free {
        var prev := buffers[i - 1].userData;
        MergedTree(buffers, base, Limit(), i, freeTree, before[i].userData, prev);
        DeleteFreeBuffer(i);
        freeTree := Erase(freeTree, prev);
        k := i - 1;
      }
    }

    /** The pages strictly inside the buffer being freed. */
    method ReleaseInside(i: nat)
      requires PagesOk() && ClaimsExact() && Layout(buffers, base, Limit()) && i < |buffers| && !buffers[i].free
      modifies this`claimed, pages
      ensures PagesOk()
      ensures claimed == old(claimed) - PageRange(base, PageUp(buffers[i].userData), PageDown(EndAt(buffers, Limit(), i)))
      ensures DropsLastPage(buffers, i) ==> PageIndex(base, EndAt(buffers, Limit(), i)) in claimed
      ensures DropsFirstPage(buffers, i) ==> PageIndex(base, buffers[i].userData) in claimed
      ensures DropsFirstPage(buffers, i) && DropsLastPage(buffers, i) ==> PageIndex(base, buffers[i].userData) != PageIndex(base, EndAt(buffers, Limit(), i))
      ensures forall p :: 0 <= p < pages.Length && old(pages[p]).Present? ==> pages[p] == old(pages[p])
    {
      var u, e := buffers[i].userData, EndAt(buffers, base + bufferSize, i);
      InRegion(buffers, base, Limit(), i);
      ReleasedPagesWereHeld(buffers, base, Limit(), i);
      var ignored := UpdatePageRange(false, PageUp(u), PageDown(e), Env(true, true, _ => Granted, true));
    }

    /** `binder_free_buf_locked` for the buffer at entry i. */
    method FreeBuf(i: nat)
      requires Valid() && i < |buffers| && !buffers[i].free && !buffers[i].inTransaction
      modifies this`buffers, this`freeTree, this`allocatedTree, this`freeAsync, this`claimed, pages
      ensures Valid() && buffers == Released(old(buffers), i)
      ensures freeAsync == (old(freeAsync) + Owed(old(buffers)[i])) % TWO64
      ensures forall p :: 0 <= p < pages.Length && old(pages[p]).Present? ==> pages[p] == old(pages[p])
    {
      hide FreeTreeOk, AllocTreeOk, Budget, Padded;
      ghost var before := buffers;
      Refund(i);
      ReleaseInside(i);
      Coalesce(i);
      FreedGood(before, base, Limit(), i, old(claimed), claimed, old(freeAsync), zeroAsync, bufferSize / 2);
    }

    /** The list and tree half of a free. */
    method Coalesce(i: nat)
      requires PagesOk() && Partition(buffers, base, Limit()) && TreesOk() && i < |buffers| && !buffers[i].free
      requires DropsLastPage(buffers, i) ==> PageIndex(base, EndAt(buffers, Limit(), i)) in claimed
      requires DropsFirstPage(buffers, i) ==> PageIndex(base, buffers[i].userData) in claimed
      requires DropsFirstPage(buffers, i) && DropsLastPage(buffers, i) ==> PageIndex(base, buffers[i].userData) != PageIndex(base, EndAt(buffers, Limit(), i))
      modifies this`buffers, this`freeTree, this`allocatedTree, this`claimed, pages
      ensures PagesOk() && TreesOk() && buffers == Released(old(buffers), i)
      ensures claimed == old(claimed)
                - (if DropsLastPage(old(buffers), i) then {PageIndex(base, EndAt(old(buffers), Limit(), i))} else {})
                - (if DropsFirstPage(old(buffers), i) then {PageIndex(base, old(buffers)[i].userData)} else {})
      ensures forall p :: 0 <= p < pages.Length && old(pages[p]).Present? ==> pages[p] == old(pages[p])
    {
      hide FreeTreeOk, AllocTreeOk, MidFree;
      ghost var before := buffers;
      buffers, allocatedTree := MarkFree(buffers, base, base + bufferSize, freeTree, allocatedTree, i);
      MergeRight(i, before);
      var k := MergeLeft(i, before);
      freeTree := PutBack(buffers, base + bufferSize, freeTree, k);
    }

    /** The rest of the driver marking a buffer: `allow_user_free` when it is delivered, and
        whether a transaction still points to it. */
    method SetFlags(k: nat, allowUserFree: bool, inTransaction: bool)
      requires Valid() && k < |buffers|
      modifies this`buffers
      ensures Valid() && buffers == WithFlags(old(buffers), k, allowUserFree, inTransaction)
    {
      ghost var before := buffers;
      FlagsKeepLayout(before, Limit(), k, allowUserFree, inTransaction);
      FlagsKeepAddrs(before, k, allowUserFree, inTransaction, true);
      FlagsKeepAddrs(before, k, allowUserFree, inTransaction, false);
      FlagsKeepOwed(before, k, allowUserFree, inTransaction);
      forall p: nat
        ensures Touched(WithFlags(before, k, allowUserFree, inTransaction), base, Limit(), p) == Touched(before, base, Limit(), p)
      {
        FlagsKeepPages(before, base, Limit(), k, allowUserFree, inTransaction, p);
      }
      buffers := buffers[k := buffers[k].(allowUserFree := allowUserFree, inTransaction := inTransaction)];
      assert forall j :: 0 <= j < |buffers| ==> MergesRight(buffers, j) == MergesRight(before, j);
      SameKeysSameOrder(before, buffers, Limit(), InOrder(freeTree));
    }

    /** `binder_alloc_prepare_to_free_locked`: the entry of the allocated buffer at userPtr
        when user space may free it now, and it may do so only once. */
    method PrepareToFree(userPtr: nat) returns (r: Result<nat>, found: bool)
      requires Valid()
      modifies this`buffers
      ensures Valid()
      ensures found <==> userPtr in Addrs(old(buffers), false)
      ensures r.Ok? ==> found && r.value == IndexOf(old(buffers), userPtr) && r.value < |old(buffers)| && !old(buffers)[r.value].free
      ensures r.Ok? ==> old(buffers)[r.value].allowUserFree
      ensures r.Ok? ==> buffers == WithFlags(old(buffers), r.value, false, old(buffers)[r.value].inTransaction)
      ensures r.Err? ==> buffers == old(buffers)
      ensures r.Ok? <==> MayFree(old(buffers), userPtr)
    {
      found := FindAddress(allocatedTree, userPtr);
      var k := IndexOf(buffers, userPtr);
      if found {
        ghost var k' := AddrIndex(buffers, false, userPtr);
        IndexOfAt(buffers, base, Limit(), k');
      } else {
        AllocatedAddrs(buffers);
      }
      if !found || !buffers[k].allowUserFree {
        r := Err(EPERM);
      } else {
        SetFlags(k, false, buffers[k].inTransaction);
        r := Ok(k);
      }
    }

    /** The page of an allocated buffer's byte is there. */
    lemma BufferIsBacked(k: nat, x: nat)
      requires PagesOk() && Partition(buffers, base, Limit()) && ClaimsExact() && k < |buffers| && !buffers[k].free
      requires base <= buffers[k].userData <= base + x < EndAt(buffers, Limit(), k)
      ensures x / PAGE < pages.Length && pages[x / PAGE].Present? && |pages[x / PAGE].bytes| == PAGE
    {
      InRegion(buffers, base, Limit(), k);
      assert TouchedBy(buffers, base, Limit(), k, x / PAGE);
      assert x / PAGE in claimed;
    }

    /** One mapped page, one `memcpy`. */
    method WriteChunk(x: nat, chunk: seq<byte>)
      requires PagesOk() && x / PAGE < pages.Length && pages[x / PAGE].Present? && x % PAGE + |chunk| <= PAGE
      modifies pages
      ensures PagesOk() && Patched(old(pages[..]), pages[..], x, chunk)
    {
      var p, off := x / PAGE, x % PAGE;
      ghost var before := pages[..];
      SpliceIsPatch(before, p, off, chunk);
      pages[p] := Present(Splice(pages[p].bytes, off, chunk));
      assert pages[..] == before[p := pages[p]];
    }

    method ReadChunk(x: nat, size: nat) returns (chunk: seq<byte>)
      requires PagesOk() && x / PAGE < pages.Length && pages[x / PAGE].Present? && x % PAGE + size <= PAGE
      ensures chunk == ReadBytes(pages[..], x, size)
    {
      var p, off := x / PAGE, x % PAGE;
      ChunkIsRead(pages[..], p, off, size);
      chunk := pages[p].bytes[off..off + size];
    }

    /** `binder_alloc_copy_to_buffer`: page by page, but in effect one flat write. */
    method CopyTo(k: nat, offset: nat, src: seq<byte>) returns (ok: bool)
      requires Valid() && k < |buffers|
      modifies pages
      ensures Valid()
      ensures ok <==> CheckBuffer(buffers, Limit(), k, offset, |src|)
      ensures !ok ==> pages[..] == old(pages[..])
      ensures ok ==> base <= buffers[k].userData && Patched(old(pages[..]), pages[..], buffers[k].userData - base + offset, src)
    {
      hide FreeTreeOk, AllocTreeOk, Budget, ByteAt;
      ok := CheckBuffer(buffers, base + bufferSize, k, offset, |src|);
      if !ok {
        return;
      }
      InRegion(buffers, base, Limit(), k);
      var start := buffers[k].userData - base + offset;
      var done := 0;
      while done < |src|
        invariant 0 <= done <= |src|
        invariant PagesOk()
        invariant Patched(old(pages[..]), pages[..], start, src[..done])
      {
        BufferIsBacked(k, start + done);
        var off := (start + done) % PAGE;
        var size := if |src| - done < PAGE - off then |src| - done else PAGE - off;
        ghost var before := pages[..];
        WriteChunk(start + done, src[done..done + size]);
        PatchesCompose(old(pages[..]), before, pages[..], start, src[..done], src[done..done + size]);
        assert src[..done] + src[done..done + size] == src[..done + size];
        done := done + size;
      }
      assert src[..done] == src;
    }

    /** `binder_alloc_copy_from_buffer`. */
    method CopyFrom(k: nat, offset: nat, n: nat) returns (ok: bool, dst: seq<byte>)
      requires Valid() && k < |buffers|
      ensures ok <==> CheckBuffer(buffers, Limit(), k, offset, n)
      ensures ok ==> base <= buffers[k].userData && dst == ReadBytes(pages[..], buffers[k].userData - base + offset, n)
    {
      hide FreeTreeOk, AllocTreeOk, Budget, ByteAt, NoFreeNeighbours;
      dst := [];
      ok := CheckBuffer(buffers, base + bufferSize, k, offset, n);
      if !ok {
        return;
      }
      InRegion(buffers, base, Limit(), k);
      var start := buffers[k].userData - base + offset;
      while |dst| < n
        invariant |dst| <= n
        invariant dst == ReadBytes(pages[..], start, |dst|)
        decreases n - |dst|
      {
        BufferIsBacked(k, start + |dst|);
        var off := (start + |dst|) % PAGE;
        var size := if n - |dst| < PAGE - off then n - |dst| else PAGE - off;
        var chunk := ReadChunk(start + |dst|, size);
        ReadsCompose(pages[..], start, |dst|, size);
        dst := dst + chunk;
      }
    }

    method FreeFirst()
      requires Valid() && allocatedTree.Node? && forall j :: 0 <= j < |buffers| ==> !buffers[j].inTransaction
      modifies this`buffers, this`freeTree, this`allocatedTree, this`freeAsync, this`claimed, pages
      ensures Valid() && forall j :: 0 <= j < |buffers| ==> !buffers[j].inTransaction
      ensures AllocatedCount(buffers) < AllocatedCount(old(buffers))
    {
      var first := First(allocatedTree);
      FirstInOrder(allocatedTree);
      ghost var k' := AddrIndex(buffers, false, first);
      IndexOfAt(buffers, base, Limit(), k');
      var k := IndexOf(buffers, first);
      ReleasedCount(buffers, k);
      ReleasedAt(buffers, base, Limit(), k);
      FreeBuf(k);
    }

    /** `binder_alloc_deferred_release`, once the mapping is gone: frees whatever is left, lowest
        address first.  After that the list is a single free buffer, so neither of its warnings
        can fire, and the pages still there, held by nobody, go last. */
    method DeferredRelease()
      requires Valid() && !vma && forall j :: 0 <= j < |buffers| ==> !buffers[j].inTransaction
      modifies this`buffers, this`freeTree, this`allocatedTree, this`freeAsync, this`claimed, pages
      ensures buffers == [] && claimed == {} && forall p :: 0 <= p < pages.Length ==> pages[p].Absent?
      ensures zeroAsync == 0 ==> freeAsync == bufferSize / 2
    {
      while allocatedTree.Node?
        invariant Valid() && forall j :: 0 <= j < |buffers| ==> !buffers[j].inTransaction
        decreases AllocatedCount(buffers)
      {
        FreeFirst();
      }
      NothingAllocated(buffers, base, Limit());
      assert claimed == {};
      while buffers != []
        invariant buffers == [] || (|buffers| == 1 && buffers[0].free)
        modifies this`buffers
        decreases |buffers|
      {
        assert buffers[0].free;
        buffers := buffers[1..];
        assert buffers == [];
      }
      FreeAllPages();
    }

    /** The last loop of `binder_alloc_deferred_release`. */
    method FreeAllPages()
      requires PagesOk() && claimed == {}
      modifies pages
      ensures forall p :: 0 <= p < pages.Length ==> pages[p].Absent?
    {
      for i := 0 to bufferSize / PAGE
        invariant forall p :: 0 <= p < i && p < pages.Length ==> pages[p].Absent?
      {
        if pages[i].Present? {
          pages[i] := Absent;
        }
      }
    }

    /** The refund of a one-way buffer; the checks on the sizes cannot fire. */
    method Refund(i: nat)
      requires PagesOk() && Good(buffers, base, Limit()) && BudgetOk() && i < |buffers| && !buffers[i].free
      modifies this`freeAsync
      ensures freeAsync == (old(freeAsync) + Owed(buffers[i])) % TWO64
    {
      var buffer := buffers[i];
      var size := WrappedSize(buffer);
      OwedIsWrapped(buffers, base, Limit(), i);
      hide Good, Budget, Owed, WrappedSize, SizeAt, PageRegion;
      assert !buffer.free && size <= SizeAt(buffers, Limit(), i);
      assert base <= buffer.userData <= Limit();
      if buffer.async {
        freeAsync := AddWrap(freeAsync, size + BUFFER_STRUCT);
      }
    }
  }

  function WrappedSize(b: Buffer): size_t {
    AddWrap(AddWrap(Align(b.dataSize), Align(b.offsetsSize)), Align(b.extraSize))
  }

  /** The sizes of an allocated buffer never wrapped. */
  lemma SizesOfAllocated(list: seq<Buffer>, base: nat, limit: nat, i: nat)
    requires Good(list, base, limit) && limit + PAGE <= TWO64 && i < |list| && !list[i].free
    ensures var b := list[i];
            && WrappedSize(b) == Padded(b.dataSize, b.offsetsSize, b.extraSize)
            && WrappedSize(b) <= SizeAt(list, limit, i)
            && WrappedSize(b) + BUFFER_STRUCT < TWO64
    ensures base <= list[i].userData <= limit
  {
    InRegion(list, base, limit, i);
    assert SizeAt(list, limit, i) == Need(list[i]);
    CheckedSizeExact(list[i].dataSize, list[i].offsetsSize, list[i].extraSize);
  }

  lemma OwedIsWrapped(list: seq<Buffer>, base: nat, limit: nat, i: nat)
    requires Good(list, base, limit) && limit + PAGE <= TWO64 && i < |list| && !list[i].free
    ensures Owed(list[i]) == if list[i].async then WrappedSize(list[i]) + BUFFER_STRUCT else 0
    ensures WrappedSize(list[i]) <= SizeAt(list, limit, i) && WrappedSize(list[i]) + BUFFER_STRUCT < TWO64
    ensures base <= list[i].userData <= limit
  {
    SizesOfAllocated(list, base, limit, i);
  }

  /** What a free leaves behind, layout, claims and budget together. */
  lemma FreedGood(list: seq<Buffer>, base: nat, limit: nat, i: nat, before: set<nat>, after: set<nat>, free: size_t, zeroes: nat, half: nat)
    requires Good(list, base, limit) && PageRegion(base, limit) && i < |list| && !list[i].free
    requires forall p: nat :: p in before <==> Touched(list, base, limit, p)
    requires after == before - PageRange(base, PageUp(list[i].userData), PageDown(EndAt(list, limit, i)))
                      - (if DropsLastPage(list, i) then {PageIndex(base, EndAt(list, limit, i))} else {})
                      - (if DropsFirstPage(list, i) then {PageIndex(base, list[i].userData)} else {})
    requires half < TWO64 && Budget(free, OwedAll(list), zeroes, half)
    ensures Good(Released(list, i), base, limit)
    ensures forall p: nat :: p in after <==> Touched(Released(list, i), base, limit, p)
    ensures Budget((free + Owed(list[i])) % TWO64, OwedAll(Released(list, i)), zeroes, half)
  {
    ReleasedGood(list, base, limit, i);
    ClaimsAfterFree(list, base, limit, i, before, after);
    ReleasedOwed(list, i);
    BudgetRefunded(free, OwedAll(list), Owed(list[i]), zeroes, half);
  }

  /** After a free the pages held are again exactly those touched. */
  lemma ClaimsAfterFree(list: seq<Buffer>, base: nat, limit: nat, i: nat, before: set<nat>, after: set<nat>)
    requires Layout(list, base, limit) && PageRegion(base, limit) && i < |list| && !list[i].free
    requires forall p: nat :: p in before <==> Touched(list, base, limit, p)
    requires after == before - PageRange(base, PageUp(list[i].userData), PageDown(EndAt(list, limit, i)))
                      - (if DropsLastPage(list, i) then {PageIndex(base, EndAt(list, limit, i))} else {})
                      - (if DropsFirstPage(list, i) then {PageIndex(base, list[i].userData)} else {})
    ensures forall p: nat :: p in after <==> Touched(Released(list, i), base, limit, p)
  {
    forall p: nat
      ensures p in after <==> Touched(Released(list, i), base, limit, p)
    {
      ReleasedPagesExact(list, base, limit, i, p);
    }
  }

  lemma OnePage(base: nat, u: nat)
    requires base % PAGE == 0 && base <= u
    ensures PageRange(base, PageDown(u), PageDown(u) + PAGE) == {PageIndex(base, u)}
    ensures base <= PageDown(u)
  {
  }

  /** The page at an address inside a range. */
  lemma PageAt(base: nat, limit: nat, start: nat, addr: nat, end: nat)
    requires PageRegion(base, limit) && addr % PAGE == 0 && base <= start <= addr < end <= limit
    ensures var index := (addr - base) / PAGE;
            base + index * PAGE == addr && base + (index + 1) * PAGE <= limit && index in PageRange(base, start, end)
  {
  }

  lemma RangeGrows(base: nat, start: nat, addr: nat)
    requires base % PAGE == 0 && addr % PAGE == 0 && start % PAGE == 0 && base <= start <= addr
    ensures PageRange(base, start, addr + PAGE) == PageRange(base, start, addr) + {(addr - base) / PAGE}
    ensures (addr - base) / PAGE !in PageRange(base, start, addr)
  {
  }

  lemma RangeGrowsDown(base: nat, addr: nat, end: nat)
    requires base % PAGE == 0 && addr % PAGE == 0 && end % PAGE == 0 && base <= addr < end
    ensures PageRange(base, addr, end) == PageRange(base, addr + PAGE, end) + {(addr - base) / PAGE}
    ensures (addr - base) / PAGE !in PageRange(base, addr + PAGE, end)
  {
  }
}
