/** A run on which the budget for one-way requests is not what one expects. */
module AllocLeak {
  import opened SizeArith
  import opened BufferList
  import opened AllocTrees
  import opened AllocPages
  import opened AllocBudget
  import opened BinderAlloc

  /** The plain budget law fails on a run of two calls: a zero-size one-way request, freed. */
  method ZeroSizeRequestCostsAPointer() returns (half: nat, left: nat)
    ensures half == PAGE / 2 && left == half - PTR
  {
    hide FreeTreeOk, AllocTreeOk, Budget, Touched, Good, Padded, Pad, Fits, Taken, Released, Patched, IsBestFit, Refusal, Filled, Owed, Charged;
    var alloc := new Alloc(PAGE, 1);
    half := alloc.freeAsync;
    FirstRequest(PAGE);
    var r := alloc.NewBuf(0, 0, 0, true, Env(true, true, _ => Granted, true));
    EmptyRequest(FilledFirst(r.value), half);
    FirstBuffer(PAGE, r.value);
    var k := IndexOf(alloc.buffers, r.value);
    alloc.FreeBuf(k);
    left := alloc.freeAsync;
  }

  function FilledFirst(addr: nat): (b: Buffer)
    ensures b.dataSize == b.offsetsSize == b.extraSize == 0 && b.async && !b.free && !b.inTransaction
  {
    Filled(addr, 0, 0, 0, true)
  }

  lemma NoBytes(b: Buffer)
    requires b.dataSize == b.offsetsSize == b.extraSize == 0
    ensures Padded(b.dataSize, b.offsetsSize, b.extraSize) == 0
  {
    assert Pad(b.dataSize) == 0;
  }

  lemma EmptyRequest(b: Buffer, free: size_t)
    requires b.dataSize == b.offsetsSize == b.extraSize == 0 && b.async && !b.free && BUFFER_STRUCT + PTR <= free
    ensures Padded(b.dataSize, b.offsetsSize, b.extraSize) == 0
    ensures Need(b) == PTR && Owed(b) == BUFFER_STRUCT && Charged(free, b) == free - BUFFER_STRUCT - PTR
  {
    hide Padded;
    NoBytes(b);
  }

  lemma FirstRequest(base: nat)
    ensures Refusal([FreshFree(base)], base + PAGE, true, PAGE / 2, 0, 0, 0, true) == Ok(())
  {
    hide Padded, Pad;
    var list := [FreshFree(base)];
    EmptyRequest(FilledFirst(base), PAGE / 2);
    assert list[0].free && SizeAt(list, base + PAGE, 0) == PAGE;
    assert SomeFits(list, base + PAGE, PTR);
  }

  lemma FirstBuffer(base: nat, addr: nat)
    requires IsBestFit([FreshFree(base)], base + PAGE, PTR, IndexOf([FreshFree(base)], addr))
    ensures addr == base && IndexOf([FreshFree(base)], base) == 0
    ensures var filled := Filled(base, 0, 0, 0, true);
            var list := Taken([FreshFree(base)], base + PAGE, 0, PTR, filled);
            list != [] && list[0] == filled && IndexOf(list, base) == 0
  {
  }
}
