/** Scatter-gather buffers and what is written into them: the offsets loop of
    `binder_transaction` for buffer objects and descriptor arrays. */
module Fixups {
  import opened Common
  import SizeArith

  const UINTPTR: nat := 8
  const FD: nat := 4
  const SIZE_MAX: nat := 0xFFFF_FFFF_FFFF_FFFF

  /** An object in the data of a transaction, with the fields that matter here. */
  datatype Kind =
    | Flat
    | FdObject
    | Ptr(hasParent: bool, parent: nat, parentOffset: nat, length: nat)
    | Fda(parent: nat, parentOffset: nat, numFds: nat)
    | Unknown

  function SizeOfKind(k: Kind): nat {
    match k
    case Flat => 24
    case FdObject => 24
    case Ptr(_, _, _, _) => 40
    case Fda(_, _, _) => 32
    case Unknown => 0
  }

  /** A transaction's data, its array of offsets, and the extra area behind them. */
  datatype Input = Input(dataSize: nat, offsets: seq<nat>, objectAt: map<nat, Kind>, sgStart: nat, sgEnd: nat)

  ghost predicate WellFormed(input: Input) {
    input.sgStart <= input.sgEnd <= SIZE_MAX && input.sgStart % 8 == 0 && input.sgEnd % 8 == 0
  }

  /** `binder_get_object`: Unknown unless a complete object of a known type is there. */
  function GetObject(input: Input, off: nat): Kind {
    if off in input.objectAt && off % 4 == 0 && off + SizeOfKind(input.objectAt[off]) <= input.dataSize then input.objectAt[off]
    else Unknown
  }

  /** `binder_validate_ptr`: the offset of the buffer object at an index of the array. */
  function ValidatePtr(input: Input, index: nat, numValid: nat): Option<nat>
    requires numValid <= |input.offsets|
  {
    if index >= numValid then None
    else if GetObject(input, input.offsets[index]).Ptr? then Some(input.offsets[index])
    else None
  }

  // ---------- which parents may still be written, and from where on ----------

  /** The first i objects have been verified: in order, and every parent an earlier buffer. */
  ghost predicate Verified(input: Input, i: nat) {
    && i <= |input.offsets|
    && (forall j :: 0 <= j < i ==> !GetObject(input, input.offsets[j]).Unknown?)
    && (forall j, k :: 0 <= j < k < i ==> input.offsets[j] + SizeOfKind(GetObject(input, input.offsets[j])) <= input.offsets[k])
    && (forall j :: 0 <= j < i && GetObject(input, input.offsets[j]).Ptr? && GetObject(input, input.offsets[j]).hasParent ==>
          var p := GetObject(input, input.offsets[j]).parent;
          p < j && GetObject(input, input.offsets[p]).Ptr?)
  }

  /** off is the offset of a verified buffer object. */
  ghost predicate IsBuffer(input: Input, i: nat, off: nat) {
    exists j :: 0 <= j < i && i <= |input.offsets| && input.offsets[j] == off && GetObject(input, off).Ptr?
  }

  lemma ParentIsEarlier(input: Input, i: nat, off: nat)
    requires Verified(input, i) && IsBuffer(input, i, off) && GetObject(input, off).hasParent
    ensures var p := GetObject(input, off).parent;
            p < |input.offsets| && input.offsets[p] < off && IsBuffer(input, i, input.offsets[p])
  {
    var j :| 0 <= j < i && input.offsets[j] == off && GetObject(input, off).Ptr?;
    var p := GetObject(input, off).parent;
    assert input.offsets[p] + SizeOfKind(GetObject(input, input.offsets[p])) <= input.offsets[j];
  }

  /** The climb of `binder_validate_fixup`: from the last buffer up to the wanted one, with
      the least offset that may still be written there. */
  function Climb(input: Input, i: nat, off: nat, min: nat, wanted: nat): Option<nat>
    requires Verified(input, i) && IsBuffer(input, i, off)
    decreases off
  {
    if off == wanted then Some(min)
    else if !GetObject(input, off).hasParent then None
    else
      ParentIsEarlier(input, i, off);
      Climb(input, i, input.offsets[GetObject(input, off).parent], GetObject(input, off).parentOffset + UINTPTR, wanted)
  }

  /** `binder_validate_fixup`; a last buffer at offset 0 counts as no buffer at all. */
  function Allowed(input: Input, i: nat, wanted: nat, fixup: nat, lastOff: nat, lastMin: nat): bool
    requires Verified(input, i) && (lastOff != 0 ==> IsBuffer(input, i, lastOff))
  {
    lastOff != 0 &&
    match Climb(input, i, lastOff, lastMin, wanted)
    case None => false
    case Some(min) => fixup >= min
  }

  /** The loop itself; it ends because a parent's offset is smaller than its child's. */
  method ValidateFixup(input: Input, ghost i: nat, wanted: nat, fixup: nat, lastOff: nat, lastMin: nat) returns (ok: bool)
    requires Verified(input, i) && (lastOff != 0 ==> IsBuffer(input, i, lastOff))
    ensures ok == Allowed(input, i, wanted, fixup, lastOff, lastMin)
  {
    if lastOff == 0 {
      return false;
    }
    var off: nat, min: nat := lastOff, lastMin;
    while off != wanted
      invariant IsBuffer(input, i, off)
      invariant Climb(input, i, off, min, wanted) == Climb(input, i, lastOff, lastMin, wanted)
      decreases off
    {
      var last := GetObject(input, off);
      if !last.Ptr? || !last.hasParent {
        return false;
      }
      ParentIsEarlier(input, i, off);
      min := last.parentOffset + UINTPTR;
      off := input.offsets[last.parent];
    }
    return fixup >= min;
  }

  /** The k-th ancestor of a buffer, itself for k = 0. */
  ghost function Up(input: Input, i: nat, off: nat, k: nat): Option<nat>
    requires Verified(input, i) && IsBuffer(input, i, off)
  {
    if k == 0 then Some(off)
    else if !GetObject(input, off).hasParent then None
    else
      ParentIsEarlier(input, i, off);
      Up(input, i, input.offsets[GetObject(input, off).parent], k - 1)
  }

  /** A buffer may be written when it is the last one or one of its ancestors ... */
  lemma {:induction false} AncestorIsFound(input: Input, i: nat, off: nat, min: nat, wanted: nat, k: nat)
    requires Verified(input, i) && IsBuffer(input, i, off) && Up(input, i, off, k) == Some(wanted)
    ensures Climb(input, i, off, min, wanted).Some?
  {
    if off != wanted {
      ParentIsEarlier(input, i, off);
      AncestorIsFound(input, i, input.offsets[GetObject(input, off).parent], GetObject(input, off).parentOffset + UINTPTR, wanted, k - 1);
    }
  }

  /** ... and only then; an ancestor from behind the pointer to the next buffer on the path. */
  lemma {:induction false} FoundIsAncestor(input: Input, i: nat, off: nat, min: nat, wanted: nat) returns (k: nat)
    requires Verified(input, i) && IsBuffer(input, i, off) && Climb(input, i, off, min, wanted).Some?
    ensures Up(input, i, off, k) == Some(wanted)
    ensures k == 0 ==> Climb(input, i, off, min, wanted) == Some(min)
    ensures k > 0 ==>
              && Up(input, i, off, k - 1).Some?
              && var c := GetObject(input, Up(input, i, off, k - 1).value);
                c.Ptr? && c.hasParent && c.parent < |input.offsets| && input.offsets[c.parent] == wanted
                && Climb(input, i, off, min, wanted) == Some(c.parentOffset + UINTPTR)
    decreases off
  {
    if off == wanted {
      k := 0;
    } else {
      ParentIsEarlier(input, i, off);
      var x := GetObject(input, off);
      var j := FoundIsAncestor(input, i, input.offsets[x.parent], x.parentOffset + UINTPTR, wanted);
      k := j + 1;
    }
  }

  // ---------- what has been placed and written ----------

  /** Bytes [start, start + size) of the extra area, relative to the whole buffer. */
  datatype Span = Span(start: nat, size: nat)

  /** A pointer or a descriptor written into a buffer object. */
  datatype Slot = Slot(buffer: nat, span: Span)

  predicate Apart(a: Span, b: Span) {
    a.start + a.size <= b.start || b.start + b.size <= a.start
  }

  predicate Inside(a: Span, b: Span) {
    b.start <= a.start && a.start + a.size <= b.start + b.size
  }

  /** The state of the loop: where each buffer object's bytes are, what was written, and the
      bookkeeping of the code. */
  datatype Work = Work(placed: map<nat, Span>, slots: seq<Slot>, sgOff: nat, lastOff: nat, lastMin: nat, offMin: nat)

  /** Every slot in the buffers from off upwards ends at or before the place from which the
      next fixup there is allowed. */
  ghost predicate Settled(input: Input, i: nat, w: Work, off: nat, min: nat)
    requires Verified(input, i) && IsBuffer(input, i, off)
    decreases off
  {
    && off in w.placed
    && (forall s :: 0 <= s < |w.slots| && w.slots[s].buffer == off ==>
          w.slots[s].span.start + w.slots[s].span.size <= w.placed[off].start + min)
    && (GetObject(input, off).hasParent ==>
          (ParentIsEarlier(input, i, off);
           Settled(input, i, w, input.offsets[GetObject(input, off).parent], GetObject(input, off).parentOffset + UINTPTR)))
  }

  ghost predicate SlotsOk(w: Work) {
    && (forall s :: 0 <= s < |w.slots| ==> w.slots[s].buffer in w.placed && Inside(w.slots[s].span, w.placed[w.slots[s].buffer]))
    && (forall s, t :: 0 <= s < t < |w.slots| && w.slots[s].buffer == w.slots[t].buffer ==> Apart(w.slots[s].span, w.slots[t].span))
  }

  ghost predicate PlacedOk(input: Input, i: nat, w: Work) {
    && (forall off :: off in w.placed <==> IsBuffer(input, i, off))
    && (forall off :: off in w.placed ==>
          w.placed[off].size == GetObject(input, off).length && input.sgStart <= w.placed[off].start && w.placed[off].start + w.placed[off].size <= w.sgOff
          && w.placed[off].start % 8 == 0)
    && (forall a, b :: a in w.placed && b in w.placed && a != b ==> Apart(w.placed[a], w.placed[b]))
  }

  ghost predicate Inv(input: Input, i: nat, w: Work) {
    && Verified(input, i)
    && PlacedOk(input, i, w) && SlotsOk(w)
    && input.sgStart <= w.sgOff <= input.sgEnd && w.sgOff % 8 == 0
    && (forall j :: 0 <= j < i ==> input.offsets[j] + SizeOfKind(GetObject(input, input.offsets[j])) <= w.offMin)
    && (w.lastOff != 0 ==> IsBuffer(input, i, w.lastOff) && Settled(input, i, w, w.lastOff, w.lastMin))
  }

  /** The climb finds, for an ancestor, a bound that all its slots respect. */
  lemma {:induction false} ClimbSettled(input: Input, i: nat, w: Work, off: nat, min: nat, wanted: nat)
    requires Verified(input, i) && IsBuffer(input, i, off) && Settled(input, i, w, off, min)
    requires Climb(input, i, off, min, wanted).Some?
    ensures IsBuffer(input, i, wanted) && Settled(input, i, w, wanted, Climb(input, i, off, min, wanted).value)
    decreases off
  {
    if off != wanted {
      ParentIsEarlier(input, i, off);
      ClimbSettled(input, i, w, input.offsets[GetObject(input, off).parent], GetObject(input, off).parentOffset + UINTPTR, wanted);
    }
  }

  /** Raising the bound of one buffer, and adding slots to it below that bound, leaves the
      buffers above it settled. */
  lemma {:induction false} SettledMore(input: Input, i: nat, i': nat, w: Work, w': Work, off: nat, min: nat)
    requires Verified(input, i) && Verified(input, i') && i <= i' && IsBuffer(input, i, off) && Settled(input, i, w, off, min)
    requires forall a :: a in w.placed ==> a in w'.placed && w'.placed[a] == w.placed[a]
    requires forall s :: 0 <= s < |w'.slots| ==> (s < |w.slots| && w'.slots[s] == w.slots[s]) || w'.slots[s].buffer > off
    ensures IsBuffer(input, i', off) && Settled(input, i', w', off, min)
    decreases off
  {
    if GetObject(input, off).hasParent {
      ParentIsEarlier(input, i, off);
      SettledMore(input, i, i', w, w', input.offsets[GetObject(input, off).parent], GetObject(input, off).parentOffset + UINTPTR);
    }
  }

  /** The same for the buffer that receives the slots. */
  lemma SettledAfterWrite(input: Input, i: nat, i': nat, w: Work, w': Work, off: nat, min: nat, min': nat)
    requires Verified(input, i) && Verified(input, i') && i <= i' && IsBuffer(input, i, off) && Settled(input, i, w, off, min)
    requires forall a :: a in w.placed ==> a in w'.placed && w'.placed[a] == w.placed[a]
    requires |w.slots| <= |w'.slots| && w'.slots[..|w.slots|] == w.slots
    requires forall s :: |w.slots| <= s < |w'.slots| ==> w'.slots[s].buffer == off && w'.slots[s].span.start + w'.slots[s].span.size <= w.placed[off].start + min'
    requires min <= min'
    ensures IsBuffer(input, i', off) && Settled(input, i', w', off, min')
  {
    assert forall s :: 0 <= s < |w.slots| ==> w'.slots[s] == w'.slots[..|w.slots|][s];
    if GetObject(input, off).hasParent {
      ParentIsEarlier(input, i, off);
      var p := input.offsets[GetObject(input, off).parent];
      SettledMore(input, i, i', w, w', p, GetObject(input, off).parentOffset + UINTPTR);
    }
  }

  // ---------- one object ----------

  function Base(w: Work, off: nat): nat {
    if off in w.placed then w.placed[off].start else 0
  }

  function FdSlots(off: nat, start: nat, n: nat): seq<Slot> {
    seq(n, k requires 0 <= k < n => Slot(off, Span(start + k * FD, FD)))
  }

  /** The parent of a fixup, if the fixup is allowed. */
  function FixupParent(input: Input, i: nat, w: Work, index: nat, fixup: nat): Option<nat>
    requires Verified(input, i) && (w.lastOff != 0 ==> IsBuffer(input, i, w.lastOff))
  {
    var p := ValidatePtr(input, index, i);
    if p.Some? && Allowed(input, i, p.value, fixup, w.lastOff, w.lastMin) then p else None
  }

  function LengthAt(input: Input, off: nat): nat {
    if GetObject(input, off).Ptr? then GetObject(input, off).length else 0
  }

  /** Every check on object i. */
  predicate ObjectOk(input: Input, i: nat, w: Work)
    requires i < |input.offsets| && Verified(input, i) && (w.lastOff != 0 ==> IsBuffer(input, i, w.lastOff))
  {
    var off := input.offsets[i];
    var x := GetObject(input, off);
    && !x.Unknown? && off >= w.offMin
    && match x
      case Ptr(hasParent, parent, parentOffset, length) =>
        && length <= input.sgEnd - w.sgOff
        && (hasParent ==>
              var p := FixupParent(input, i, w, parent, parentOffset);
              && p.Some?
              && UINTPTR <= LengthAt(input, p.value) && parentOffset <= LengthAt(input, p.value) - UINTPTR
              && (Base(w, p.value) + parentOffset) % 4 == 0)
      case Fda(parent, parentOffset, numFds) =>
        var p := FixupParent(input, i, w, parent, parentOffset);
        && p.Some?
        && numFds < SIZE_MAX / FD
        && numFds * FD <= LengthAt(input, p.value) && parentOffset <= LengthAt(input, p.value) - numFds * FD
        && (Base(w, p.value) + parentOffset) % FD == 0
      case _ => true
  }

  /** What object i adds. */
  function StepWork(input: Input, i: nat, w: Work): Work
    requires i < |input.offsets| && Verified(input, i) && (w.lastOff != 0 ==> IsBuffer(input, i, w.lastOff)) && ObjectOk(input, i, w)
  {
    var off := input.offsets[i];
    var x := GetObject(input, off);
    var w1 := w.(offMin := off + SizeOfKind(x));
    match x
    case Ptr(hasParent, parent, parentOffset, length) =>
      var slots := if hasParent then [Slot(input.offsets[parent], Span(Base(w, input.offsets[parent]) + parentOffset, UINTPTR))] else [];
      w1.(placed := w.placed[off := Span(w.sgOff, length)], sgOff := w.sgOff + SizeArith.Pad(length), slots := w.slots + slots, lastOff := off, lastMin := 0)
    case Fda(parent, parentOffset, numFds) =>
      var p := input.offsets[parent];
      w1.(slots := w.slots + FdSlots(p, Base(w, p) + parentOffset, numFds), lastOff := p, lastMin := parentOffset + numFds * FD)
    case _ => w1
  }

  lemma ParentFacts(input: Input, i: nat, w: Work, index: nat, fixup: nat)
    requires Inv(input, i, w) && FixupParent(input, i, w, index, fixup).Some?
    ensures var p := FixupParent(input, i, w, index, fixup).value;
            && index < i && i <= |input.offsets| && p == input.offsets[index] && IsBuffer(input, i, p) && p in w.placed
            && exists min: nat :: min <= fixup && Settled(input, i, w, p, min)
  {
    var p := FixupParent(input, i, w, index, fixup).value;
    ClimbSettled(input, i, w, w.lastOff, w.lastMin, p);
    var min := Climb(input, i, w.lastOff, w.lastMin, p).value;
    assert min <= fixup && Settled(input, i, w, p, min);
  }

  lemma VerifiedStep(input: Input, i: nat, w: Work)
    requires Inv(input, i, w) && i < |input.offsets| && ObjectOk(input, i, w)
    ensures Verified(input, i + 1)
  {
    hide PlacedOk, SlotsOk, Settled, IsBuffer;
    var x := GetObject(input, input.offsets[i]);
    if x.Ptr? && x.hasParent {
      assert ValidatePtr(input, x.parent, i).Some?;
    }
  }

  lemma VerifiedNext(input: Input, i: nat, w: Work)
    requires Inv(input, i, w) && i < |input.offsets| && ObjectOk(input, i, w)
    ensures Verified(input, i + 1)
    ensures forall off :: IsBuffer(input, i + 1, off) <==> IsBuffer(input, i, off) || (off == input.offsets[i] && GetObject(input, off).Ptr?)
    ensures !IsBuffer(input, i, input.offsets[i])
    ensures forall off :: IsBuffer(input, i, off) ==> off < input.offsets[i]
  {
    VerifiedStep(input, i, w);
    hide Inv, ObjectOk, GetObject;
    forall off | IsBuffer(input, i, off)
      ensures IsBuffer(input, i + 1, off) && off < input.offsets[i]
    {
      var j :| 0 <= j < i && input.offsets[j] == off && GetObject(input, off).Ptr?;
    }
    if GetObject(input, input.offsets[i]).Ptr? {
      assert IsBuffer(input, i + 1, input.offsets[i]);
    }
  }

  lemma PadFits(length: nat, sgOff: nat, sgEnd: nat)
    requires sgOff % 8 == 0 && sgEnd % 8 == 0 && sgOff <= sgEnd && length <= sgEnd - sgOff
    ensures length <= SizeArith.Pad(length) && sgOff + SizeArith.Pad(length) <= sgEnd && (sgOff + SizeArith.Pad(length)) % 8 == 0
  {
  }

  /** New slots behind everything settled in their buffer. */
  lemma SlotsAdded(w: Work, more: seq<Slot>, p: nat, settled: nat)
    requires SlotsOk(w) && p in w.placed
    requires forall s :: 0 <= s < |w.slots| && w.slots[s].buffer == p ==> w.slots[s].span.start + w.slots[s].span.size <= settled
    requires forall s :: 0 <= s < |more| ==> more[s].buffer == p && settled <= more[s].span.start && Inside(more[s].span, w.placed[p])
    requires forall s, t :: 0 <= s < t < |more| ==> Apart(more[s].span, more[t].span)
    ensures SlotsOk(w.(slots := w.slots + more))
  {
  }

  lemma SlotsKept(w: Work, w': Work)
    requires SlotsOk(w) && w'.slots == w.slots && forall a :: a in w.placed ==> a in w'.placed && w'.placed[a] == w.placed[a]
    ensures SlotsOk(w')
  {
  }

  lemma FdSlotsApart(off: nat, start: nat, n: nat)
    ensures |FdSlots(off, start, n)| == n
    ensures forall s, t :: 0 <= s < t < n ==> Apart(FdSlots(off, start, n)[s].span, FdSlots(off, start, n)[t].span)
    ensures forall s :: 0 <= s < n ==>
              && FdSlots(off, start, n)[s].buffer == off && FdSlots(off, start, n)[s].span.size == FD
              && start <= FdSlots(off, start, n)[s].span.start && FdSlots(off, start, n)[s].span.start + FD <= start + n * FD
  {
  }

  lemma PlacedMore(input: Input, i: nat, w: Work, w': Work, off: nat, length: nat)
    requires PlacedOk(input, i, w) && input.sgStart <= w.sgOff && w.sgOff % 8 == 0 && off !in w.placed
    requires GetObject(input, off).Ptr? && GetObject(input, off).length == length
    requires w'.placed == w.placed[off := Span(w.sgOff, length)] && w.sgOff + length <= w'.sgOff
    requires forall o :: IsBuffer(input, i + 1, o) <==> IsBuffer(input, i, o) || o == off
    ensures PlacedOk(input, i + 1, w')
  {
    hide IsBuffer, GetObject;
    assert forall a :: a in w.placed ==> Apart(w.placed[a], w'.placed[off]);
  }

  lemma PlacedSame(input: Input, i: nat, w: Work, w': Work)
    requires PlacedOk(input, i, w) && w'.placed == w.placed && w'.sgOff == w.sgOff
    requires forall o :: IsBuffer(input, i + 1, o) <==> IsBuffer(input, i, o)
    ensures PlacedOk(input, i + 1, w')
  {
    hide IsBuffer;
  }

  lemma InvParts(input: Input, i: nat, w: Work)
    requires Inv(input, i, w)
    ensures Verified(input, i) && PlacedOk(input, i, w) && SlotsOk(w) && input.sgStart <= w.sgOff <= input.sgEnd && w.sgOff % 8 == 0
    ensures w.lastOff != 0 ==> IsBuffer(input, i, w.lastOff) && Settled(input, i, w, w.lastOff, w.lastMin)
  {
  }

  /** The parts of the invariant after an object whose end is the new minimum. */
  lemma InvFromParts(input: Input, i: nat, w: Work, w': Work)
    requires Inv(input, i, w) && i < |input.offsets| && !GetObject(input, input.offsets[i]).Unknown? && input.offsets[i] >= w.offMin
    requires w'.offMin == input.offsets[i] + SizeOfKind(GetObject(input, input.offsets[i]))
    requires Verified(input, i + 1) && PlacedOk(input, i + 1, w') && SlotsOk(w') && input.sgStart <= w'.sgOff <= input.sgEnd && w'.sgOff % 8 == 0
    requires w'.lastOff != 0 ==> IsBuffer(input, i + 1, w'.lastOff) && Settled(input, i + 1, w', w'.lastOff, w'.lastMin)
    ensures Inv(input, i + 1, w')
  {
    hide PlacedOk, SlotsOk, Verified, IsBuffer, GetObject;
  }

  /** A buffer object: its bytes go to the end of what is used, its pointer into its parent. */
  lemma PtrKeepsInv(input: Input, i: nat, w: Work)
    requires WellFormed(input) && i < |input.offsets| && Inv(input, i, w) && ObjectOk(input, i, w)
    requires GetObject(input, input.offsets[i]).Ptr?
    ensures Inv(input, i + 1, StepWork(input, i, w))
  {
    hide GetObject, Inv, IsBuffer, Verified, PlacedOk, SlotsOk;
    var off := input.offsets[i];
    var x := GetObject(input, off);
    InvParts(input, i, w);
    var w' := StepWork(input, i, w);
    VerifiedNext(input, i, w);
    NotPlaced(input, i, w, off);
    PadFits(x.length, w.sgOff, input.sgEnd);
    PlacedMore(input, i, w, w', off, x.length);
    if x.hasParent {
      PtrIntoParent(input, i, w);
    } else {
      assert w'.slots == w.slots;
      SlotsKept(w, w');
    }
    FreshSettled(input, i, w, w', off);
    InvFromParts(input, i, w, w');
  }

  lemma NotPlaced(input: Input, i: nat, w: Work, off: nat)
    requires PlacedOk(input, i, w) && !IsBuffer(input, i, off)
    ensures off !in w.placed
  {
  }

  lemma PtrIntoParent(input: Input, i: nat, w: Work)
    requires WellFormed(input) && i < |input.offsets| && Inv(input, i, w) && ObjectOk(input, i, w) && Verified(input, i + 1)
    requires GetObject(input, input.offsets[i]).Ptr? && GetObject(input, input.offsets[i]).hasParent && input.offsets[i] !in w.placed
    ensures var x := GetObject(input, input.offsets[i]); var w' := StepWork(input, i, w);
            && SlotsOk(w') && x.parent < |input.offsets| && IsBuffer(input, i + 1, input.offsets[x.parent]) && input.offsets[x.parent] in w.placed
            && Settled(input, i + 1, w', input.offsets[x.parent], x.parentOffset + UINTPTR)
  {
    hide GetObject, Inv, IsBuffer, Verified, PlacedOk, SlotsOk;
    var x := GetObject(input, input.offsets[i]);
    InvParts(input, i, w);
    var w' := StepWork(input, i, w);
    ParentFacts(input, i, w, x.parent, x.parentOffset);
    var p := input.offsets[x.parent];
    var min: nat :| min <= x.parentOffset && Settled(input, i, w, p, min);
    SettledHere(input, i, w, p, min);
    PlacedLength(input, i, w, p);
    var more := [Slot(p, Span(Base(w, p) + x.parentOffset, UINTPTR))];
    SlotsAdded(w, more, p, w.placed[p].start + min);
    SlotsKept(w.(slots := w.slots + more), w');
    assert w'.slots[..|w.slots|] == w.slots;
    SettledAfterWrite(input, i, i + 1, w, w', p, min, x.parentOffset + UINTPTR);
  }

  lemma PlacedLength(input: Input, i: nat, w: Work, p: nat)
    requires PlacedOk(input, i, w) && p in w.placed
    ensures w.placed[p].size == LengthAt(input, p)
  {
  }

  lemma SettledHere(input: Input, i: nat, w: Work, p: nat, min: nat)
    requires Verified(input, i) && IsBuffer(input, i, p) && Settled(input, i, w, p, min)
    ensures p in w.placed
    ensures forall s :: 0 <= s < |w.slots| && w.slots[s].buffer == p ==> w.slots[s].span.start + w.slots[s].span.size <= w.placed[p].start + min
  {
  }

  /** A buffer just placed has nothing written into it. */
  lemma FreshSettled(input: Input, i: nat, w: Work, w': Work, off: nat)
    requires SlotsOk(w) && off !in w.placed && off in w'.placed && Verified(input, i + 1) && IsBuffer(input, i + 1, off)
    requires forall s :: 0 <= s < |w'.slots| ==> (s < |w.slots| && w'.slots[s] == w.slots[s]) || w'.slots[s].buffer != off
    requires GetObject(input, off).hasParent ==>
               (ParentIsEarlier(input, i + 1, off);
                Settled(input, i + 1, w', input.offsets[GetObject(input, off).parent], GetObject(input, off).parentOffset + UINTPTR))
    ensures Settled(input, i + 1, w', off, 0)
  {
  }

  /** A descriptor array: its slots go into its parent, which becomes the last buffer. */
  lemma FdaKeepsInv(input: Input, i: nat, w: Work)
    requires WellFormed(input) && i < |input.offsets| && Inv(input, i, w) && ObjectOk(input, i, w)
    requires GetObject(input, input.offsets[i]).Fda?
    ensures Inv(input, i + 1, StepWork(input, i, w))
  {
    hide GetObject, Inv, IsBuffer, Verified, PlacedOk, SlotsOk;
    InvParts(input, i, w);
    VerifiedNext(input, i, w);
    FdaIntoParent(input, i, w);
    var w' := StepWork(input, i, w);
    PlacedSame(input, i, w, w');
    InvFromParts(input, i, w, w');
  }

  lemma FdaIntoParent(input: Input, i: nat, w: Work)
    requires WellFormed(input) && i < |input.offsets| && Inv(input, i, w) && ObjectOk(input, i, w) && Verified(input, i + 1)
    requires GetObject(input, input.offsets[i]).Fda?
    ensures var w' := StepWork(input, i, w);
            SlotsOk(w') && IsBuffer(input, i + 1, w'.lastOff) && Settled(input, i + 1, w', w'.lastOff, w'.lastMin)
  {
    hide GetObject, Inv, IsBuffer, Verified, PlacedOk, SlotsOk, FdSlots;
    var x := GetObject(input, input.offsets[i]);
    InvParts(input, i, w);
    var w' := StepWork(input, i, w);
    ParentFacts(input, i, w, x.parent, x.parentOffset);
    var p := input.offsets[x.parent];
    var min: nat :| min <= x.parentOffset && Settled(input, i, w, p, min);
    SettledHere(input, i, w, p, min);
    PlacedLength(input, i, w, p);
    var start := Base(w, p) + x.parentOffset;
    var more := FdSlots(p, start, x.numFds);
    FdSlotsApart(p, start, x.numFds);
    SlotsAdded(w, more, p, w.placed[p].start + min);
    SlotsKept(w.(slots := w.slots + more), w');
    assert w'.slots[..|w.slots|] == w.slots;
    SettledAfterWrite(input, i, i + 1, w, w', p, min, x.parentOffset + x.numFds * FD);
  }

  /** Objects that are not fixed up leave everything settled. */
  lemma OtherKeepsInv(input: Input, i: nat, w: Work)
    requires i < |input.offsets| && Inv(input, i, w) && ObjectOk(input, i, w)
    requires !GetObject(input, input.offsets[i]).Ptr? && !GetObject(input, input.offsets[i]).Fda?
    ensures Inv(input, i + 1, StepWork(input, i, w))
  {
    hide GetObject, Inv, IsBuffer, Verified, PlacedOk, SlotsOk;
    InvParts(input, i, w);
    var w' := StepWork(input, i, w);
    VerifiedNext(input, i, w);
    PlacedSame(input, i, w, w');
    SlotsKept(w, w');
    if w.lastOff != 0 {
      SettledMore(input, i, i + 1, w, w', w.lastOff, w.lastMin);
    }
    InvFromParts(input, i, w, w');
  }

  lemma StepKeepsInv(input: Input, i: nat, w: Work)
    requires WellFormed(input) && i < |input.offsets| && Inv(input, i, w) && ObjectOk(input, i, w)
    ensures Inv(input, i + 1, StepWork(input, i, w))
  {
    hide Inv;
    match GetObject(input, input.offsets[i])
    case Ptr(_, _, _, _) => PtrKeepsInv(input, i, w);
    case Fda(_, _, _) => FdaKeepsInv(input, i, w);
    case _ => OtherKeepsInv(input, i, w);
  }

  // ---------- a buffer object at offset 0 ----------

  /** No verified buffer has its parent at offset 0, and nothing was written into a buffer there. */
  ghost predicate FirstUntouched(input: Input, i: nat, w: Work) {
    && i <= |input.offsets|
    && (forall j :: 0 <= j < i && GetObject(input, input.offsets[j]).Ptr? && GetObject(input, input.offsets[j]).hasParent ==>
          var p := GetObject(input, input.offsets[j]).parent;
          p < |input.offsets| && input.offsets[p] != 0)
    && (forall s :: 0 <= s < |w.slots| ==> w.slots[s].buffer != 0)
  }

  lemma {:induction false} ClimbAvoidsFirst(input: Input, i: nat, w: Work, off: nat, min: nat, wanted: nat)
    requires Verified(input, i) && IsBuffer(input, i, off) && FirstUntouched(input, i, w) && off != 0
    requires Climb(input, i, off, min, wanted).Some?
    ensures wanted != 0
    decreases off
  {
    if off != wanted {
      ParentIsEarlier(input, i, off);
      var x := GetObject(input, off);
      ClimbAvoidsFirst(input, i, w, input.offsets[x.parent], x.parentOffset + UINTPTR, wanted);
    }
  }

  lemma ParentIsNotFirst(input: Input, i: nat, w: Work, index: nat, fixup: nat)
    requires Inv(input, i, w) && FirstUntouched(input, i, w) && FixupParent(input, i, w, index, fixup).Some?
    ensures index < |input.offsets| && input.offsets[index] != 0
  {
    InvParts(input, i, w);
    hide Inv, FirstUntouched, Settled, PlacedOk, SlotsOk;
    ClimbAvoidsFirst(input, i, w, w.lastOff, w.lastMin, FixupParent(input, i, w, index, fixup).value);
  }

  lemma StepSparesFirst(input: Input, i: nat, w: Work)
    requires i < |input.offsets| && Inv(input, i, w) && ObjectOk(input, i, w) && FirstUntouched(input, i, w)
    ensures FirstUntouched(input, i + 1, StepWork(input, i, w))
  {
    InvParts(input, i, w);
    hide Inv, Verified, PlacedOk, SlotsOk, IsBuffer;
    var x := GetObject(input, input.offsets[i]);
    if (x.Ptr? && x.hasParent) || x.Fda? {
      ParentIsNotFirst(input, i, w, x.parent, x.parentOffset);
    }
    hide ObjectOk, GetObject, Base;
  }

  // ---------- the whole loop ----------

  function Start(input: Input): Work {
    Work(map[], [], input.sgStart, 0, 0, 0)
  }

  /** The loop accepts the objects from i on. */
  ghost predicate Accepts(input: Input, i: nat, w: Work)
    requires WellFormed(input) && i <= |input.offsets| && Inv(input, i, w)
    decreases |input.offsets| - i
  {
    i == |input.offsets| ||
    (InvParts(input, i, w);
     ObjectOk(input, i, w) && (StepKeepsInv(input, i, w); Accepts(input, i + 1, StepWork(input, i, w))))
  }

  lemma StartInv(input: Input)
    requires WellFormed(input)
    ensures Inv(input, 0, Start(input))
  {
  }

  /** Where the bytes of object i's buffer begin: behind those of all earlier buffers. */
  function SgBefore(input: Input, i: nat): nat
    requires i <= |input.offsets|
  {
    if i == 0 then input.sgStart
    else SgBefore(input, i - 1) + (match GetObject(input, input.offsets[i - 1]) case Ptr(_, _, _, n) => SizeArith.Pad(n) case _ => 0)
  }

  /** The slots object i asks for. */
  function AskedBy(input: Input, i: nat): seq<Slot>
    requires i < |input.offsets|
  {
    match GetObject(input, input.offsets[i])
    case Ptr(hasParent, p, o, _) => if hasParent && p < i then [Slot(input.offsets[p], Span(SgBefore(input, p) + o, UINTPTR))] else []
    case Fda(p, o, n) => if p < i then FdSlots(input.offsets[p], SgBefore(input, p) + o, n) else []
    case _ => []
  }

  function AskedBefore(input: Input, i: nat): seq<Slot>
    requires i <= |input.offsets|
  {
    if i == 0 then [] else AskedBefore(input, i - 1) + AskedBy(input, i - 1)
  }

  /** What was placed and written so far is what the objects ask for, no more and no less. */
  ghost predicate AsAsked(input: Input, i: nat, w: Work)
    requires i <= |input.offsets|
  {
    && w.sgOff == SgBefore(input, i)
    && w.slots == AskedBefore(input, i)
    && (forall j :: 0 <= j < i && GetObject(input, input.offsets[j]).Ptr? ==>
          input.offsets[j] in w.placed && w.placed[input.offsets[j]] == Span(SgBefore(input, j), GetObject(input, input.offsets[j]).length))
  }

  lemma StepAsAsked(input: Input, i: nat, w: Work)
    requires WellFormed(input) && i < |input.offsets| && Inv(input, i, w) && ObjectOk(input, i, w) && AsAsked(input, i, w)
    ensures AsAsked(input, i + 1, StepWork(input, i, w))
  {
    hide GetObject, Inv, IsBuffer, Verified, PlacedOk, SlotsOk, FdSlots;
    InvParts(input, i, w);
    SlotsAsAsked(input, i, w);
    PlacedAsAsked(input, i, w);
    hide AskedBy;
    VerifiedNext(input, i, w);
    var w' := StepWork(input, i, w);
    hide StepWork, ObjectOk;
    forall j | 0 <= j < i && GetObject(input, input.offsets[j]).Ptr?
      ensures input.offsets[j] in w'.placed && w'.placed[input.offsets[j]] == w.placed[input.offsets[j]]
    {
      EarlierKept(input, i, w, j);
    }
  }

  lemma EarlierKept(input: Input, i: nat, w: Work, j: nat)
    requires WellFormed(input) && i < |input.offsets| && Inv(input, i, w) && ObjectOk(input, i, w) && j < i
    requires input.offsets[j] in w.placed
    ensures var w' := StepWork(input, i, w);
            input.offsets[j] in w'.placed && w'.placed[input.offsets[j]] == w.placed[input.offsets[j]]
  {
    hide GetObject, Inv, IsBuffer, Verified, SlotsOk, FdSlots;
    InvParts(input, i, w);
    VerifiedNext(input, i, w);
  }

  /** Where an earlier buffer was placed. */
  lemma BaseIsBefore(input: Input, i: nat, w: Work, p: nat)
    requires p < i <= |input.offsets| && AsAsked(input, i, w) && GetObject(input, input.offsets[p]).Ptr?
    ensures Base(w, input.offsets[p]) == SgBefore(input, p)
  {
    hide GetObject;
  }

  /** The step adds exactly what object i asks for. */
  lemma SlotsAsAsked(input: Input, i: nat, w: Work)
    requires WellFormed(input) && i < |input.offsets| && Inv(input, i, w) && ObjectOk(input, i, w) && AsAsked(input, i, w)
    ensures StepWork(input, i, w).slots == w.slots + AskedBy(input, i)
  {
    hide Inv, AsAsked, SgBefore, WellFormed, FdSlots;
    InvParts(input, i, w);
    hide Verified, PlacedOk, SlotsOk, IsBuffer;
    var x := GetObject(input, input.offsets[i]);
    if (x.Ptr? && x.hasParent) || x.Fda? {
      ParentIsBuffer(input, i, w, x.parent, x.parentOffset);
      BaseIsBefore(input, i, w, x.parent);
      hide ObjectOk, GetObject, Base;
    } else {
      hide ObjectOk, GetObject, Base;
      assert w.slots + [] == w.slots;
    }
  }

  lemma PlacedAsAsked(input: Input, i: nat, w: Work)
    requires WellFormed(input) && i < |input.offsets| && Inv(input, i, w) && ObjectOk(input, i, w) && w.sgOff == SgBefore(input, i)
    ensures StepWork(input, i, w).sgOff == SgBefore(input, i + 1)
    ensures GetObject(input, input.offsets[i]).Ptr? ==>
              && input.offsets[i] in StepWork(input, i, w).placed
              && StepWork(input, i, w).placed[input.offsets[i]] == Span(w.sgOff, GetObject(input, input.offsets[i]).length)
  {
    hide Inv, Verified, PlacedOk, SlotsOk, IsBuffer, FdSlots, GetObject;
    InvParts(input, i, w);
  }

  lemma ParentIsBuffer(input: Input, i: nat, w: Work, index: nat, fixup: nat)
    requires Inv(input, i, w) && FixupParent(input, i, w, index, fixup).Some?
    ensures index < i && i <= |input.offsets| && GetObject(input, input.offsets[index]).Ptr?
  {
  }

  /** The offsets loop for the geometry; `fails` says where something else goes wrong.  A
      transaction it accepts has its buffers apart from each other inside the extra area, and
      every pointer and descriptor inside its parent and apart from all others there. */
  method Place(input: Input, fails: seq<bool>) returns (ok: bool, w: Work)
    requires WellFormed(input) && |fails| == |input.offsets|
    ensures ok ==> Inv(input, |input.offsets|, w) && AsAsked(input, |input.offsets|, w)
    ensures ok ==> forall s :: 0 <= s < |w.slots| ==> w.slots[s].buffer != 0
    ensures Inv(input, 0, Start(input))
    ensures ok <==> Accepts(input, 0, Start(input)) && forall j :: 0 <= j < |fails| ==> !fails[j]
  {
    hide Inv, ObjectOk, AsAsked;
    StartInv(input);
    StartAsAsked(input);
    w := Start(input);
    var i := 0;
    while i < |input.offsets|
      invariant 0 <= i <= |input.offsets| && Inv(input, i, w) && AsAsked(input, i, w)
      invariant FirstUntouched(input, i, w)
      invariant Accepts(input, 0, Start(input)) <==> Accepts(input, i, w)
      invariant forall j :: 0 <= j < i ==> !fails[j]
    {
      InvParts(input, i, w);
      if fails[i] || !ObjectOk(input, i, w) {
        return false, w;
      }
      StepKeepsInv(input, i, w);
      StepAsAsked(input, i, w);
      StepSparesFirst(input, i, w);
      w := StepWork(input, i, w);
      i := i + 1;
    }
    ok := true;
  }

  lemma StartAsAsked(input: Input)
    ensures AsAsked(input, 0, Start(input))
  {
  }

  /** In an accepted transaction every object is a complete one of a known type, aligned, inside
      the data, and behind all earlier ones. */
  lemma ObjectsInside(input: Input, w: Work, j: nat)
    requires Inv(input, |input.offsets|, w) && j < |input.offsets|
    ensures var off := input.offsets[j];
            && off % 4 == 0 && off in input.objectAt && !input.objectAt[off].Unknown?
            && off + SizeOfKind(input.objectAt[off]) <= input.dataSize
            && (forall k :: 0 <= k < j ==>
                  input.offsets[k] in input.objectAt && input.offsets[k] + SizeOfKind(input.objectAt[input.offsets[k]]) <= off)
  {
    InvParts(input, |input.offsets|, w);
    forall k | 0 <= k < j
      ensures input.offsets[k] in input.objectAt && input.offsets[k] + SizeOfKind(input.objectAt[input.offsets[k]]) <= input.offsets[j]
    {
      assert !GetObject(input, input.offsets[k]).Unknown?;
    }
  }

  /** The other way round, no complete and aligned object inside the data is taken for unknown. */
  lemma KnownExactly(input: Input, off: nat)
    ensures !GetObject(input, off).Unknown? <==>
            off in input.objectAt && !input.objectAt[off].Unknown? && (exists q: nat :: off == 4 * q) && off + SizeOfKind(input.objectAt[off]) <= input.dataSize
    ensures !GetObject(input, off).Unknown? ==> GetObject(input, off) == input.objectAt[off]
  {
    if off % 4 == 0 {
      assert off == 4 * (off / 4);
    }
  }

  /** In an accepted transaction the buffers are apart inside the extra area. */
  lemma BuffersApart(input: Input, w: Work, a: nat, b: nat)
    requires Inv(input, |input.offsets|, w) && a in w.placed && b in w.placed && a != b
    ensures Apart(w.placed[a], w.placed[b])
    ensures Inside(w.placed[a], Span(input.sgStart, input.sgEnd - input.sgStart))
  {
    InvParts(input, |input.offsets|, w);
  }

  /** ... and every two things written, in whatever buffers, are apart and inside the area. */
  lemma WritesApart(input: Input, w: Work, s: nat, t: nat)
    requires WellFormed(input) && Inv(input, |input.offsets|, w) && s < t < |w.slots|
    ensures Apart(w.slots[s].span, w.slots[t].span)
    ensures w.slots[s].buffer in w.placed && Inside(w.slots[s].span, w.placed[w.slots[s].buffer])
    ensures Inside(w.slots[s].span, Span(input.sgStart, input.sgEnd - input.sgStart))
  {
    hide Inv;
    InvParts(input, |input.offsets|, w);
  }

  /** While there is no last buffer, or it is at offset 0, no fixup is allowed. */
  lemma NothingInFirst(input: Input, i: nat, w: Work, index: nat, fixup: nat)
    requires Inv(input, i, w) && w.lastOff == 0
    ensures FixupParent(input, i, w, index, fixup).None?
  {
  }

  /** The extra area is what the allocator set aside behind the data and the offsets: with the
      two alignment checks passed it ends exactly with the buffer. */
  lemma ExtraAreaEndsBuffer(dataSize: nat, offsetsSize: nat, extraSize: nat)
    requires offsetsSize % 8 == 0 && extraSize % 8 == 0
    ensures SizeArith.Pad(SizeArith.Pad(dataSize) + offsetsSize) + extraSize == SizeArith.Padded(dataSize, offsetsSize, extraSize)
  {
    SizeArith.SumOfMultiples(SizeArith.Pad(dataSize), offsetsSize);
  }
}
