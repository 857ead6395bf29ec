/** Which pages of the region the allocator must hold.

    The allocator never looks at a set of pages: it computes two page ranges and one
    single-page test from the addresses of the buffer at hand and its neighbours.  This
    module shows that those computations are exact. */
module AllocPages {
  import opened SizeArith
  import opened BufferList

  function PageDown(x: nat): nat { x / PAGE * PAGE }

  function PageUp(x: nat): nat { (x + PAGE - 1) / PAGE * PAGE }

  /** The region starts and ends on page boundaries, below the last page of the address space. */
  ghost predicate PageRegion(base: nat, limit: nat) {
    base % PAGE == 0 && limit % PAGE == 0 && base < limit && limit + PAGE <= TWO64
  }

  /** The byte range [start, end) meets page p of the region. */
  predicate Meets(base: nat, start: nat, end: nat, p: nat) {
    start < base + (p + 1) * PAGE && base + p * PAGE < end
  }

  ghost predicate TouchedBy(list: seq<Buffer>, base: nat, limit: nat, j: nat, p: nat)
    requires j < |list|
  {
    !list[j].free && Meets(base, list[j].userData, EndAt(list, limit, j), p)
  }

  /** Some allocated buffer overlaps page p. */
  ghost predicate Touched(list: seq<Buffer>, base: nat, limit: nat, p: nat) {
    exists j :: 0 <= j < |list| && TouchedBy(list, base, limit, j, p)
  }

  /** The pages a pass over [start, end) visits, by index. */
  function PageRange(base: nat, start: nat, end: nat): set<nat> {
    set p: nat | p < end && start <= base + p * PAGE < end
  }

  lemma BeforeFreeIsTaken(list: seq<Buffer>, base: nat, limit: nat, i: nat)
    requires Layout(list, base, limit) && i + 1 < |list| && list[i + 1].free
    ensures !list[i].free
  {
    assert MergesRight(list, i);
  }

  /** Every address of a page has that page's number and index. */
  lemma SamePage(base: nat, p: nat, x: nat)
    requires base % PAGE == 0 && base + p * PAGE <= x < base + (p + 1) * PAGE
    ensures x / PAGE == (base + p * PAGE) / PAGE && PageIndex(base, x) == p
  {
  }

  // ---------- allocating ----------

  function TakeStart(u: nat): nat { PageUp(u) }

  function TakeEnd(u: nat, size: nat, bufferEnd: nat): nat {
    if PageUp(u + size) > PageDown(bufferEnd) then PageDown(bufferEnd) else PageUp(u + size)
  }

  /** A page strictly inside a buffer is touched by no other. */
  lemma InsideIsUntouched(list: seq<Buffer>, base: nat, limit: nat, i: nat, p: nat)
    requires Partition(list, base, limit) && i < |list|
    requires list[i].userData <= base + p * PAGE && base + (p + 1) * PAGE <= EndAt(list, limit, i)
    ensures forall j :: 0 <= j < |list| && j != i ==> !TouchedBy(list, base, limit, j, p)
  {
    forall j | 0 <= j < |list| && j != i
      ensures !TouchedBy(list, base, limit, j, p)
    {
      if j < i {
        Order(list, base, limit, j, i);
      } else {
        Order(list, base, limit, i, j);
      }
    }
  }

  /** An entry that is the same and has the same gap touches the same pages. */
  lemma SameTouch(list: seq<Buffer>, after: seq<Buffer>, base: nat, limit: nat, j: nat, j': nat, p: nat)
    requires j < |list| && j' < |after| && list[j] == after[j'] && SizeAt(list, limit, j) == SizeAt(after, limit, j')
    ensures TouchedBy(list, base, limit, j, p) == TouchedBy(after, base, limit, j', p)
  {
  }

  /** The entries of a list after a request that are not the buffer just filled. */
  lemma TakenOthers(list: seq<Buffer>, base: nat, limit: nat, i: nat, size: nat, filled: Buffer, j: nat)
    requires Partition(list, base, limit) && i < |list|
    requires 0 < size <= SizeAt(list, limit, i) && filled.userData == list[i].userData
    ensures var after := Taken(list, limit, i, size, filled);
            var off := if SizeAt(list, limit, i) != size then 1 else 0;
            && |after| == |list| + off && after[i] == filled && EndAt(after, limit, i) == list[i].userData + size
            && (off == 1 ==> after[i + 1].free)
            && (j < |list| && j != i ==>
                  var j' := if j < i then j else j + off;
                  after[j'] == list[j] && SizeAt(after, limit, j') == SizeAt(list, limit, j))
  {
    if SizeAt(list, limit, i) != size {
      SplitAt(list, base, limit, i, size, filled);
    }
  }

  lemma TouchedAfterTake(list: seq<Buffer>, base: nat, limit: nat, i: nat, size: nat, filled: Buffer, p: nat)
    requires Partition(list, base, limit) && i < |list|
    requires 0 < size <= SizeAt(list, limit, i) && filled.userData == list[i].userData
    requires Touched(Taken(list, limit, i, size, filled), base, limit, p)
    ensures Meets(base, list[i].userData, list[i].userData + size, p) || Touched(list, base, limit, p)
  {
    hide Taken, Partition;
    var after := Taken(list, limit, i, size, filled);
    var off := if SizeAt(list, limit, i) != size then 1 else 0;
    var j :| 0 <= j < |after| && TouchedBy(after, base, limit, j, p);
    TakenOthers(list, base, limit, i, size, filled, if j < i then j else if j == i then i else j - off);
    if j != i {
      var j' := if j < i then j else j - off;
      SameTouch(list, after, base, limit, j', j, p);
    }
  }

  lemma TouchedBeforeTake(list: seq<Buffer>, base: nat, limit: nat, i: nat, size: nat, filled: Buffer, p: nat)
    requires Partition(list, base, limit) && i < |list| && list[i].free
    requires 0 < size <= SizeAt(list, limit, i) && filled.userData == list[i].userData && !filled.free
    requires Meets(base, list[i].userData, list[i].userData + size, p) || Touched(list, base, limit, p)
    ensures Touched(Taken(list, limit, i, size, filled), base, limit, p)
  {
    hide Taken, Partition;
    var after := Taken(list, limit, i, size, filled);
    TakenOthers(list, base, limit, i, size, filled, i);
    if Meets(base, list[i].userData, list[i].userData + size, p) {
      assert TouchedBy(after, base, limit, i, p);
    } else {
      var j :| 0 <= j < |list| && TouchedBy(list, base, limit, j, p);
      TakenOthers(list, base, limit, i, size, filled, j);
      var j' := if j < i then j else if SizeAt(list, limit, i) != size then j + 1 else j;
      SameTouch(list, after, base, limit, j, j', p);
      assert TouchedBy(after, base, limit, j', p);
    }
  }

  /** A page is touched afterwards by the buffer just filled or by one that was there. */
  lemma TakenTouches(list: seq<Buffer>, base: nat, limit: nat, i: nat, size: nat, filled: Buffer, p: nat)
    requires Partition(list, base, limit) && i < |list| && list[i].free
    requires 0 < size <= SizeAt(list, limit, i) && filled.userData == list[i].userData && !filled.free
    ensures Touched(Taken(list, limit, i, size, filled), base, limit, p) <==>
            Meets(base, list[i].userData, list[i].userData + size, p) || Touched(list, base, limit, p)
  {
    hide Touched, Taken, Partition, Meets;
    if Touched(Taken(list, limit, i, size, filled), base, limit, p) {
      TouchedAfterTake(list, base, limit, i, size, filled, p);
    }
    if Meets(base, list[i].userData, list[i].userData + size, p) || Touched(list, base, limit, p) {
      TouchedBeforeTake(list, base, limit, i, size, filled, p);
    }
  }

  lemma SharedWithBefore(list: seq<Buffer>, base: nat, limit: nat, i: nat, p: nat)
    requires Layout(list, base, limit) && PageRegion(base, limit) && i < |list| && list[i].free
    requires base + p * PAGE < list[i].userData < base + (p + 1) * PAGE
    ensures Touched(list, base, limit, p)
  {
    assert list[0].userData == base;
    BeforeFreeIsTaken(list, base, limit, i - 1);
    InRegion(list, base, limit, i - 1);
    assert TouchedBy(list, base, limit, i - 1, p);
  }

  lemma SharedWithBehind(list: seq<Buffer>, base: nat, limit: nat, i: nat, p: nat)
    requires Layout(list, base, limit) && PageRegion(base, limit) && i < |list| && list[i].free
    requires list[i].userData <= base + p * PAGE < EndAt(list, limit, i) < base + (p + 1) * PAGE
    ensures Touched(list, base, limit, p)
  {
    assert !MergesRight(list, i);
    InRegion(list, base, limit, i);
    assert i + 1 < |list| by {
      if i + 1 == |list| {
        assert EndAt(list, limit, i) == limit;
        PageBelowLimit(base, limit, p);
      }
    }
    InRegion(list, base, limit, i + 1);
    assert TouchedBy(list, base, limit, i + 1, p);
  }

  lemma PageBelowLimit(base: nat, limit: nat, p: nat)
    requires PageRegion(base, limit) && base + p * PAGE < limit
    ensures base + (p + 1) * PAGE <= limit
  {
  }

  /** A page of the new buffer outside the claimed range was already held, for a neighbour. */
  lemma SharedPage(list: seq<Buffer>, base: nat, limit: nat, i: nat, size: nat, p: nat)
    requires Layout(list, base, limit) && PageRegion(base, limit) && i < |list| && list[i].free
    requires 0 < size <= SizeAt(list, limit, i)
    requires Meets(base, list[i].userData, list[i].userData + size, p)
    requires p !in PageRange(base, TakeStart(list[i].userData), TakeEnd(list[i].userData, size, EndAt(list, limit, i)))
    ensures Touched(list, base, limit, p)
  {
    hide Layout, Touched, TouchedBy;
    var u, e := list[i].userData, EndAt(list, limit, i);
    var page := base + p * PAGE;
    if page < u {
      SharedWithBefore(list, base, limit, i, p);
    } else {
      assert page < PageUp(u + size);
      assert PageDown(e) <= page;
      assert e < page + PAGE;
      SharedWithBehind(list, base, limit, i, p);
    }
  }

  /** The claimed range holds no page of another buffer, and adds just what is missing. */
  lemma ClaimIsUntouched(list: seq<Buffer>, base: nat, limit: nat, i: nat, size: nat, p: nat)
    requires Layout(list, base, limit) && PageRegion(base, limit) && i < |list| && list[i].free
    requires 0 < size <= SizeAt(list, limit, i)
    requires p in PageRange(base, TakeStart(list[i].userData), TakeEnd(list[i].userData, size, EndAt(list, limit, i)))
    ensures !Touched(list, base, limit, p) && Meets(base, list[i].userData, list[i].userData + size, p)
  {
    InRegion(list, base, limit, i);
    InsideIsUntouched(list, base, limit, i, p);
  }

  lemma TakenPages(list: seq<Buffer>, base: nat, limit: nat, i: nat, size: nat, filled: Buffer, p: nat)
    requires Layout(list, base, limit) && PageRegion(base, limit) && i < |list| && list[i].free
    requires 0 < size <= SizeAt(list, limit, i) && filled.userData == list[i].userData && !filled.free
    ensures var claim := PageRange(base, TakeStart(list[i].userData), TakeEnd(list[i].userData, size, EndAt(list, limit, i)));
            && (p in claim ==> !Touched(list, base, limit, p))
            && (Touched(Taken(list, limit, i, size, filled), base, limit, p) <==> p in claim || Touched(list, base, limit, p))
  {
    var u, e := list[i].userData, EndAt(list, limit, i);
    TakenTouches(list, base, limit, i, size, filled, p);
    hide Layout, Touched, Taken, EndAt, SizeAt, PageRegion, Meets, TakeStart, TakeEnd;
    if p in PageRange(base, TakeStart(u), TakeEnd(u, size, e)) {
      ClaimIsUntouched(list, base, limit, i, size, p);
    } else if Meets(base, u, u + size, p) {
      SharedPage(list, base, limit, i, size, p);
    }
  }

  lemma ClaimInRegion(list: seq<Buffer>, base: nat, limit: nat, i: nat, size: nat)
    requires Partition(list, base, limit) && PageRegion(base, limit) && i < |list|
    ensures var start, end := TakeStart(list[i].userData), TakeEnd(list[i].userData, size, EndAt(list, limit, i));
            start % PAGE == 0 && end % PAGE == 0 && base <= start && end <= limit
  {
    InRegion(list, base, limit, i);
  }

  lemma TakenPagesAll(list: seq<Buffer>, base: nat, limit: nat, i: nat, size: nat, filled: Buffer)
    requires Layout(list, base, limit) && PageRegion(base, limit) && i < |list| && list[i].free
    requires 0 < size <= SizeAt(list, limit, i) && filled.userData == list[i].userData && !filled.free
    ensures var claim := PageRange(base, TakeStart(list[i].userData), TakeEnd(list[i].userData, size, EndAt(list, limit, i)));
            && (forall p :: p in claim ==> !Touched(list, base, limit, p))
            && (forall p: nat :: Touched(Taken(list, limit, i, size, filled), base, limit, p) <==> p in claim || Touched(list, base, limit, p))
  {
    forall p: nat
      ensures var claim := PageRange(base, TakeStart(list[i].userData), TakeEnd(list[i].userData, size, EndAt(list, limit, i)));
              && (p in claim ==> !Touched(list, base, limit, p))
              && (Touched(Taken(list, limit, i, size, filled), base, limit, p) <==> p in claim || Touched(list, base, limit, p))
    {
      TakenPages(list, base, limit, i, size, filled, p);
    }
  }

  // ---------- freeing ----------

  /** The page of the byte before address x; address 0 wraps to the last page. */
  function PageBefore(x: nat): nat {
    if x == 0 then (TWO64 - 1) / PAGE else (x - 1) / PAGE
  }

  /** The test of `binder_delete_free_buffer`: the page in which entry i starts is given
      back when it is shared neither with what lies before entry i - 1 nor with entry i + 1,
      and entry i does not start it. */
  predicate DeletesPage(list: seq<Buffer>, i: nat)
    requires 0 < i < |list|
  {
    && PageBefore(list[i - 1].userData) != list[i].userData / PAGE
    && (i + 1 < |list| ==> list[i + 1].userData / PAGE != list[i].userData / PAGE)
    && list[i].userData % PAGE != 0
  }

  function PageIndex(base: nat, x: nat): nat {
    if x < base then 0 else (x - base) / PAGE
  }

  /** Whether the page shared with the buffer behind, or with the buffer before, goes. */
  predicate DropsLastPage(list: seq<Buffer>, i: nat)
    requires i < |list|
  {
    MergesRight(list, i) && DeletesPage(list[i := list[i].(free := true)], i + 1)
  }

  predicate DropsFirstPage(list: seq<Buffer>, i: nat)
    requires i < |list|
  {
    MergesLeft(list, i) && i < |RightMerged(list, i)| && DeletesPage(RightMerged(list, i), i)
  }

  /** Another allocated buffer touches p. */
  ghost predicate TouchedByOther(list: seq<Buffer>, base: nat, limit: nat, i: nat, p: nat) {
    exists j :: 0 <= j < |list| && j != i && TouchedBy(list, base, limit, j, p)
  }

  lemma SplicedTouches(list: seq<Buffer>, after: seq<Buffer>, base: nat, limit: nat, i: nat, cut: nat, off: nat, p: nat)
    requires Spliced(after, list, limit, cut, cut + 1, off) && cut < |after| && after[cut].free
    requires cut <= i <= cut + off < |list|
    requires forall j :: cut <= j <= cut + off && j != i ==> list[j].free
    ensures Touched(after, base, limit, p) <==> TouchedByOther(list, base, limit, i, p)
  {
    if Touched(after, base, limit, p) {
      var j :| 0 <= j < |after| && TouchedBy(after, base, limit, j, p);
      var j' := if j < cut then j else j + off;
      SameTouch(after, list, base, limit, j, j', p);
      assert TouchedBy(list, base, limit, j', p);
    }
    if TouchedByOther(list, base, limit, i, p) {
      var j :| 0 <= j < |list| && j != i && TouchedBy(list, base, limit, j, p);
      var j' := if j < cut then j else j - off;
      SameTouch(after, list, base, limit, j', j, p);
      assert TouchedBy(after, base, limit, j', p);
    }
  }

  lemma MergedAreFree(list: seq<Buffer>, i: nat, cut: int, off: int)
    requires i < |list| && cut == (if MergesLeft(list, i) then i - 1 else i)
    requires off == (if MergesRight(list, i) then 1 else 0) + (i - cut)
    ensures 0 <= cut <= i <= cut + off < |list| && forall j :: cut <= j <= cut + off && j != i ==> list[j].free
  {
  }

  lemma ReleasedTouches(list: seq<Buffer>, base: nat, limit: nat, i: nat, p: nat)
    requires Partition(list, base, limit) && i < |list| && !list[i].free
    ensures Touched(Released(list, i), base, limit, p) <==> TouchedByOther(list, base, limit, i, p)
  {
    hide Touched, TouchedBy, TouchedByOther, Spliced, Released, Partition, MergesLeft, MergesRight, EndAt;
    ReleasedAt(list, base, limit, i);
    var cut := if MergesLeft(list, i) then i - 1 else i;
    var off := (if MergesRight(list, i) then 1 else 0) + (i - cut);
    MergedAreFree(list, i, cut, off);
    SplicedTouches(list, Released(list, i), base, limit, i, cut, off, p);
  }

  /** Among the buffers before entry i, only the nearest allocated one can reach a page that
      entry i meets, and only through the byte in front of it. */
  lemma ReachFromBefore(list: seq<Buffer>, base: nat, limit: nat, i: nat, p: nat)
    requires Layout(list, base, limit) && PageRegion(base, limit) && i < |list|
    requires Meets(base, list[i].userData, EndAt(list, limit, i), p)
    ensures (exists j :: 0 <= j < i && TouchedBy(list, base, limit, j, p)) <==>
            && 0 < i && base + p * PAGE < list[i].userData
            && (list[i - 1].free ==> PageBefore(list[i - 1].userData) == (base + p * PAGE) / PAGE)
  {
    var page, u := base + p * PAGE, list[i].userData;
    if exists j :: 0 <= j < i && TouchedBy(list, base, limit, j, p) {
      var j :| 0 <= j < i && TouchedBy(list, base, limit, j, p);
      Order(list, base, limit, j, i);
      if list[i - 1].free {
        Order(list, base, limit, j, i - 1);
        Order(list, base, limit, i - 1, i);
      }
    }
    if 0 < i && page < u && (list[i - 1].free ==> PageBefore(list[i - 1].userData) == page / PAGE) {
      InRegion(list, base, limit, i - 1);
      if list[i - 1].free {
        assert i - 1 != 0;
        BeforeFreeIsTaken(list, base, limit, i - 2);
        assert SizeAt(list, limit, i - 2) > 0;
        InRegion(list, base, limit, i - 2);
        assert TouchedBy(list, base, limit, i - 2, p);
      } else {
        assert TouchedBy(list, base, limit, i - 1, p);
      }
    }
  }

  lemma ReachFromBehind(list: seq<Buffer>, base: nat, limit: nat, i: nat, p: nat)
    requires Layout(list, base, limit) && PageRegion(base, limit) && i < |list|
    requires Meets(base, list[i].userData, EndAt(list, limit, i), p)
    ensures (exists j :: i < j < |list| && TouchedBy(list, base, limit, j, p)) <==>
            && i + 1 < |list| && EndAt(list, limit, i) < base + (p + 1) * PAGE
            && (list[i + 1].free ==> i + 2 < |list| && list[i + 2].userData / PAGE == (base + p * PAGE) / PAGE)
  {
    var page, e := base + p * PAGE, EndAt(list, limit, i);
    InRegion(list, base, limit, i);
    if exists j :: i < j < |list| && TouchedBy(list, base, limit, j, p) {
      var j :| i < j < |list| && TouchedBy(list, base, limit, j, p);
      Order(list, base, limit, i, j);
      if list[i + 1].free {
        assert j != i + 1;
        Order(list, base, limit, i + 1, j);
        Order(list, base, limit, i, i + 2);
        assert list[i + 2].userData <= list[j].userData by {
          if i + 2 < j {
            Order(list, base, limit, i + 2, j);
          }
        }
        Order(list, base, limit, i + 1, i + 2);
      }
    }
    if i + 1 < |list| && e < page + PAGE && (list[i + 1].free ==> i + 2 < |list| && list[i + 2].userData / PAGE == page / PAGE) {
      InRegion(list, base, limit, i + 1);
      if list[i + 1].free {
        assert !MergesRight(list, i + 1);
        InRegion(list, base, limit, i + 2);
        assert TouchedBy(list, base, limit, i + 2, p);
      } else {
        assert TouchedBy(list, base, limit, i + 1, p);
      }
    }
  }

  /** The conditions under which the two single pages go, spelled out on the old list. */
  lemma DropConditions(list: seq<Buffer>, base: nat, limit: nat, i: nat)
    requires Partition(list, base, limit) && PageRegion(base, limit) && i < |list| && !list[i].free
    ensures var u, e := list[i].userData, EndAt(list, limit, i);
            && (DropsLastPage(list, i) <==>
                && i + 1 < |list| && list[i + 1].free && e % PAGE != 0
                && PageBefore(u) != e / PAGE
                && (i + 2 < |list| ==> list[i + 2].userData / PAGE != e / PAGE))
            && (DropsFirstPage(list, i) <==>
                && 0 < i && list[i - 1].free && u % PAGE != 0
                && PageBefore(list[i - 1].userData) != u / PAGE
                && (MergesRight(list, i) ==> (i + 2 < |list| ==> list[i + 2].userData / PAGE != u / PAGE))
                && (!MergesRight(list, i) ==> (i + 1 < |list| ==> list[i + 1].userData / PAGE != u / PAGE)))
  {
    RightMergedAt(list, base, limit, i);
  }

  /** What a free gives back is the pages inside the buffer, and its first and last page when
      the two tests say so: all pages it touches, and none of them twice. */
  lemma ReleasedPagesWereHeld(list: seq<Buffer>, base: nat, limit: nat, i: nat)
    requires Layout(list, base, limit) && PageRegion(base, limit) && i < |list| && !list[i].free
    ensures var u, e := list[i].userData, EndAt(list, limit, i);
            var inside := PageRange(base, PageUp(u), PageDown(e));
            var first, last := PageIndex(base, u), PageIndex(base, e);
            && (forall p :: p in inside ==> TouchedBy(list, base, limit, i, p))
            && (DropsLastPage(list, i) ==> last !in inside && TouchedBy(list, base, limit, i, last))
            && (DropsFirstPage(list, i) ==> first !in inside && TouchedBy(list, base, limit, i, first))
            && (DropsFirstPage(list, i) && DropsLastPage(list, i) ==> first != last)
  {
    var u, e := list[i].userData, EndAt(list, limit, i);
    InRegion(list, base, limit, i);
    DropConditions(list, base, limit, i);
    EdgePages(base, limit, u, e);
  }

  lemma InsideMeets(base: nat, limit: nat, u: nat, e: nat, p: nat)
    requires PageRegion(base, limit) && base <= u < e <= limit && p in PageRange(base, PageUp(u), PageDown(e))
    ensures Meets(base, u, e, p)
  {
  }

  lemma LastPage(base: nat, limit: nat, u: nat, e: nat)
    requires PageRegion(base, limit) && base <= u < e <= limit && e % PAGE != 0
    ensures PageIndex(base, e) !in PageRange(base, PageUp(u), PageDown(e)) && Meets(base, u, e, PageIndex(base, e))
  {
  }

  lemma FirstPage(base: nat, limit: nat, u: nat, e: nat)
    requires PageRegion(base, limit) && base <= u < e <= limit && u % PAGE != 0
    ensures PageIndex(base, u) !in PageRange(base, PageUp(u), PageDown(e)) && Meets(base, u, e, PageIndex(base, u))
  {
  }

  lemma PagesDiffer(base: nat, u: nat, e: nat)
    requires base % PAGE == 0 && base <= u < e && u % PAGE != 0 && PageBefore(u) != e / PAGE
    ensures PageIndex(base, u) != PageIndex(base, e)
  {
  }

  /** The first and last page of a byte range that does not fill them. */
  lemma EdgePages(base: nat, limit: nat, u: nat, e: nat)
    requires PageRegion(base, limit) && base <= u < e <= limit
    ensures var inside := PageRange(base, PageUp(u), PageDown(e));
            var first, last := PageIndex(base, u), PageIndex(base, e);
            && (forall p :: p in inside ==> Meets(base, u, e, p))
            && (e % PAGE != 0 ==> last !in inside && Meets(base, u, e, last))
            && (u % PAGE != 0 ==> first !in inside && Meets(base, u, e, first))
            && (u % PAGE != 0 && PageBefore(u) != e / PAGE ==> first != last)
  {
    hide PageRange, PageUp, PageDown, PageIndex, Meets, PageRegion, PageBefore;
    forall p | p in PageRange(base, PageUp(u), PageDown(e))
      ensures Meets(base, u, e, p)
    {
      InsideMeets(base, limit, u, e, p);
    }
    if e % PAGE != 0 {
      LastPage(base, limit, u, e);
    }
    if u % PAGE != 0 {
      FirstPage(base, limit, u, e);
      if PageBefore(u) != e / PAGE {
        RegionAligned(base, limit);
        PagesDiffer(base, u, e);
      }
    }
  }

  lemma RegionAligned(base: nat, limit: nat)
    requires PageRegion(base, limit)
    ensures base % PAGE == 0
  {
  }

  /** What stays held is exactly what the remaining buffers touch. */
  lemma ReleasedPagesExact(list: seq<Buffer>, base: nat, limit: nat, i: nat, p: nat)
    requires Layout(list, base, limit) && PageRegion(base, limit) && i < |list| && !list[i].free
    ensures var u, e := list[i].userData, EndAt(list, limit, i);
            Touched(Released(list, i), base, limit, p) <==>
                && Touched(list, base, limit, p)
                && p !in PageRange(base, PageUp(u), PageDown(e))
                && !(DropsLastPage(list, i) && p == PageIndex(base, e))
                && !(DropsFirstPage(list, i) && p == PageIndex(base, u))
  {
    var u, e := list[i].userData, EndAt(list, limit, i);
    var inside := PageRange(base, PageUp(u), PageDown(e));
    InRegion(list, base, limit, i);
    ReleasedTouches(list, base, limit, i, p);
    DropConditions(list, base, limit, i);
    if !TouchedBy(list, base, limit, i, p) {
      OnlyTheBuffersOwnPages(list, base, limit, i, p);
    } else if p in inside {
      InsideIsUntouched(list, base, limit, i, p);
    } else {
      EdgePage(list, base, limit, i, p);
    }
  }

  /** A page the buffer does not touch is not among those given back. */
  lemma OnlyTheBuffersOwnPages(list: seq<Buffer>, base: nat, limit: nat, i: nat, p: nat)
    requires Partition(list, base, limit) && PageRegion(base, limit) && i < |list| && !list[i].free
    requires !TouchedBy(list, base, limit, i, p)
    ensures var u, e := list[i].userData, EndAt(list, limit, i);
            && p !in PageRange(base, PageUp(u), PageDown(e))
            && (e % PAGE != 0 ==> p != PageIndex(base, e))
            && (u % PAGE != 0 ==> p != PageIndex(base, u))
    ensures TouchedByOther(list, base, limit, i, p) <==> Touched(list, base, limit, p)
  {
    InRegion(list, base, limit, i);
    assert !Meets(base, list[i].userData, EndAt(list, limit, i), p);
    if Touched(list, base, limit, p) {
      var j :| 0 <= j < |list| && TouchedBy(list, base, limit, j, p);
      assert j != i;
    }
  }

  lemma OnEitherSide(list: seq<Buffer>, base: nat, limit: nat, i: nat, p: nat)
    requires i < |list|
    ensures TouchedByOther(list, base, limit, i, p) <==>
            || (exists j :: 0 <= j < i && TouchedBy(list, base, limit, j, p))
            || (exists j :: i < j < |list| && TouchedBy(list, base, limit, j, p))
  {
    hide TouchedBy;
  }

  /** The first or last page of the buffer goes exactly when nothing else touches it. */
  lemma EdgePage(list: seq<Buffer>, base: nat, limit: nat, i: nat, p: nat)
    requires Layout(list, base, limit) && PageRegion(base, limit) && i < |list| && !list[i].free
    requires TouchedBy(list, base, limit, i, p)
    requires p !in PageRange(base, PageUp(list[i].userData), PageDown(EndAt(list, limit, i)))
    ensures var u, e := list[i].userData, EndAt(list, limit, i);
            TouchedByOther(list, base, limit, i, p) <==>
            && !(DropsLastPage(list, i) && p == PageIndex(base, e))
            && !(DropsFirstPage(list, i) && p == PageIndex(base, u))
  {
    var u, e := list[i].userData, EndAt(list, limit, i);
    InRegion(list, base, limit, i);
    DropConditions(list, base, limit, i);
    ReachFromBefore(list, base, limit, i, p);
    ReachFromBehind(list, base, limit, i, p);
    var page := base + p * PAGE;
    OnEitherSide(list, base, limit, i, p);
    hide TouchedByOther, DropsLastPage, DropsFirstPage;
    assert page < u || e < page + PAGE;
    if page < u && e < page + PAGE {
      SamePage(base, p, u);
      SamePage(base, p, e);
      SamePage(base, p, u - 1);
    } else if page < u {
      SamePage(base, p, u);
      if i + 2 < |list| {
        Order(list, base, limit, i, i + 2);
      }
    } else {
      SamePage(base, p, e);
    }
  }
}
