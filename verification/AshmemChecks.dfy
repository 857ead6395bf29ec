/** The checks on the arguments of a pin command: from bytes to pages. */
module AshmemChecks {
  const PAGE: nat := 4096
  const U32_MAX: nat := 0xFFFF_FFFF
  const TWO64: nat := 0x1_0000_0000_0000_0000

  type u32 = x: nat | x <= U32_MAX
  type size_t = x: nat | x < TWO64

  /** `PAGE_ALIGN` of a 64-bit word. */
  function PageAlign(x: size_t): nat {
    (x + PAGE - 1) % TWO64 / PAGE * PAGE
  }

  /** The length meant: 0 is everything from the offset on, computed into 32 bits. */
  function Length(size: size_t, offset: u32, len: u32): u32 {
    if len == 0 then (PageAlign(size) - offset) % (U32_MAX + 1) else len
  }

  datatype Pages = BadPages | Pages(start: nat, end: nat)

  /** The checks of `ashmem_pin_unpin`, and the first and the last page. */
  function CheckPages(size: size_t, offset: u32, len0: u32): Pages {
    var len := Length(size, offset, len0);
    if offset % PAGE != 0 || len % PAGE != 0 then BadPages
    else if U32_MAX - offset < len then BadPages
    else if PageAlign(size) < offset + len then BadPages
    else Pages(offset / PAGE, (offset / PAGE + len / PAGE - 1) % TWO64)
  }

  /** The length meant, without wrap-around: that of the argument, or what the area has left. */
  function Meant(size: size_t, offset: u32, len: u32): int {
    if len == 0 then PageAlign(size) - offset else len
  }

  /** The arguments name whole pages of the area, below 4 GiB. */
  predicate WholePages(size: size_t, offset: u32, length: int) {
    && offset % PAGE == 0 && length % PAGE == 0
    && 0 <= length && offset + length <= PageAlign(size) && offset + length <= U32_MAX
  }

  /** The page is one of those that the bytes cover. */
  predicate Covered(offset: nat, length: int, x: nat) {
    offset <= x * PAGE < offset + length
  }

  lemma AlignedIsMultiple(size: size_t)
    ensures PageAlign(size) % PAGE == 0
  {
  }

  /** What the rest of the area comes to in 32 bits: past the end it wraps to a length that the
      next check refuses. */
  lemma RestOfArea(aligned: nat, offset: u32)
    requires aligned <= U32_MAX
    ensures offset <= aligned ==> (aligned - offset) % (U32_MAX + 1) == aligned - offset
    ensures offset > aligned ==> U32_MAX - offset < (aligned - offset) % (U32_MAX + 1)
  {
  }

  /** Accepted are exactly whole pages of the area; when everything onward is asked of an area of
      4 GiB or more, the rest of it modulo 4 GiB is taken. */
  lemma AcceptedExactly(size: size_t, offset: u32, len0: u32)
    ensures CheckPages(size, offset, len0).Pages? <==> WholePages(size, offset, Length(size, offset, len0))
    ensures len0 != 0 || PageAlign(size) <= U32_MAX ==>
              && (CheckPages(size, offset, len0).Pages? <==> WholePages(size, offset, Meant(size, offset, len0)))
              && (CheckPages(size, offset, len0).Pages? ==> Length(size, offset, len0) == Meant(size, offset, len0))
    ensures len0 == 0 && PageAlign(size) > U32_MAX ==>
              0 <= Length(size, offset, len0) <= U32_MAX && (Meant(size, offset, len0) - Length(size, offset, len0)) % (U32_MAX + 1) == 0
  {
    AlignedIsMultiple(size);
    if len0 == 0 && PageAlign(size) <= U32_MAX {
      RestOfArea(PageAlign(size), offset);
    }
  }

  /** The pages handed on are exactly those that the bytes cover. */
  lemma PagesCovered(size: size_t, offset: u32, len0: u32, x: nat)
    requires CheckPages(size, offset, len0).Pages?
    ensures var p := CheckPages(size, offset, len0); var length := Length(size, offset, len0);
            && p.start * PAGE == offset
            && (length > 0 ==> (p.end + 1) * PAGE == offset + length && (p.start <= x <= p.end <==> Covered(offset, length, x)))
            && (length == 0 ==> !Covered(offset, length, x) && p.end == (p.start - 1) % TWO64)
  {
    var length := Length(size, offset, len0);
    PageNumbers(offset, length);
    Inside(offset / PAGE, length / PAGE, x);
  }

  lemma PageNumbers(offset: u32, length: u32)
    requires offset % PAGE == 0 && length % PAGE == 0
    ensures offset / PAGE * PAGE == offset && length / PAGE * PAGE == length
    ensures (offset / PAGE + length / PAGE) * PAGE == offset + length && offset / PAGE + length / PAGE < TWO64
    ensures length > 0 <==> length / PAGE > 0
  {
  }

  lemma Inside(first: nat, count: nat, x: nat)
    ensures first <= x < first + count <==> first * PAGE <= x * PAGE < (first + count) * PAGE
  {
  }

  /** The pages are in order and inside the area unless the length is 0. */
  lemma PagesInOrder(size: size_t, offset: u32, len0: u32)
    requires CheckPages(size, offset, len0).Pages?
    ensures var p := CheckPages(size, offset, len0);
            && (p.start <= p.end <==> Length(size, offset, len0) != 0 || offset == 0)
            && (Length(size, offset, len0) != 0 ==> p.end < PageAlign(size) / PAGE)
  {
    var length := Length(size, offset, len0);
    PageNumbers(offset, length);
    AlignedIsMultiple(size);
    PagesCovered(size, offset, len0, 0);
  }

  /** Length 0 does get past the checks: everything onward, asked for at the very end, in every
      area below 4 GiB, and at no other offset of such an area. */
  lemma RestCanBeEmpty(size: size_t, offset: u32, len0: u32)
    requires PageAlign(size) <= U32_MAX
    ensures CheckPages(size, offset, len0).Pages? && Length(size, offset, len0) == 0 <==> len0 == 0 && offset == PageAlign(size)
    ensures CheckPages(PAGE, PAGE, 0) == Pages(1, 0)
  {
    assert PageAlign(PAGE) == PAGE;
    AlignedIsMultiple(size);
    AcceptedExactly(size, offset, len0);
    RestOfArea(PageAlign(size), offset);
  }
}
