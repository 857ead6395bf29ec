/** Mapping the address space of a process: the exits of `binder_alloc_mmap_handler`. */
module AllocMapping {
  import opened SizeArith
  import opened BufferList
  import opened BinderAlloc

  const SZ_4M: nat := 0x40_0000

  /** A process's allocator; there is none while its `buffer_size` is zero. */
  class Mapping {
    var alloc: Alloc?

    constructor ()
      ensures alloc == null
    {
      alloc := null;
    }

    /** At most 4 MiB are used; a process maps once, also after the mapping is gone, and a
        failed attempt leaves nothing behind, so that it may be repeated. */
    method MmapHandler(vmStart: nat, vmEnd: nat, haveArray: bool, haveStruct: bool) returns (ret: Result<int>)
      requires vmStart < vmEnd && vmStart % PAGE == 0 && vmEnd % PAGE == 0 && vmEnd + PAGE <= TWO64
      modifies this
      ensures ret == if old(alloc) != null then Err(EBUSY) else if haveArray && haveStruct then Ok(0) else Err(ENOMEM)
      ensures ret.Err? ==> alloc == old(alloc)
      ensures ret.Ok? ==>
                && alloc != null && fresh(alloc) && fresh(alloc.pages) && alloc.Valid() && alloc.vma
                && alloc.base == vmStart && (forall p :: 0 <= p < alloc.pages.Length ==> alloc.pages[p].Absent?)
                && alloc.bufferSize <= vmEnd - vmStart && alloc.bufferSize <= SZ_4M
                && (alloc.bufferSize == vmEnd - vmStart || alloc.bufferSize == SZ_4M)
                && alloc.freeAsync == alloc.bufferSize / 2
    {
      if alloc != null {
        return Err(EBUSY);
      }
      var size := if vmEnd - vmStart < SZ_4M then vmEnd - vmStart else SZ_4M;
      if !haveArray {
        return Err(ENOMEM);
      }
      if !haveStruct {
        return Err(ENOMEM);
      }
      alloc := new Alloc(vmStart, size / PAGE);
      return Ok(0);
    }
  }
}
