/** The rule for buffer fixups as the comment above `binder_validate_fixup` states it, on the
    objects alone: a fixup goes into the last buffer verified or one of its ancestors, behind the
    last pointer on the path.  The code follows it except for a buffer object at offset 0, which
    it takes for "no buffer yet". */
module FixupsDocumented {
  import opened Common
  import opened Fixups

  /** The last buffer by its index, and the place from which it may be written. */
  datatype Last = NoBuffer | Last(index: nat, min: nat)

  /** The last buffer when the first i objects have been handled. */
  function LastOf(input: Input, i: nat): (l: Last)
    requires i <= |input.offsets|
    ensures l.Last? ==> l.index < |input.offsets|
  {
    if i == 0 then NoBuffer
    else
      match GetObject(input, input.offsets[i - 1])
      case Ptr(_, _, _, _) => Last(i - 1, 0)
      case Fda(p, o, n) => if p < |input.offsets| then Last(p, o + n * FD) else NoBuffer
      case _ => LastOf(input, i - 1)
  }

  /** From buffer j up to the wanted one. */
  function ClimbTo(input: Input, j: nat, min: nat, wanted: nat): Option<nat>
    requires j < |input.offsets|
  {
    if j == wanted then Some(min)
    else
      match GetObject(input, input.offsets[j])
      case Ptr(hasParent, p, o, _) => if hasParent && p < j then ClimbTo(input, p, o + UINTPTR, wanted) else None
      case _ => None
  }

  /** The rule of the comment, for a fixup by object i. */
  predicate MayWrite(input: Input, i: nat, parent: nat, fixup: nat)
    requires i <= |input.offsets|
  {
    && parent < i && GetObject(input, input.offsets[parent]).Ptr?
    && LastOf(input, i).Last?
    && var c := ClimbTo(input, LastOf(input, i).index, LastOf(input, i).min, parent);
      c.Some? && fixup >= c.value
  }

  function EndOfObject(input: Input, i: nat): nat
    requires i <= |input.offsets|
  {
    if i == 0 then 0 else input.offsets[i - 1] + SizeOfKind(GetObject(input, input.offsets[i - 1]))
  }

  /** Every check on object i, with that rule. */
  predicate ObjectDocumented(input: Input, i: nat)
    requires i < |input.offsets|
  {
    var off := input.offsets[i];
    && off >= EndOfObject(input, i)
    && match GetObject(input, off)
      case Unknown => false
      case Ptr(hasParent, p, o, n) =>
        && n + SgBefore(input, i) <= input.sgEnd
        && (hasParent ==>
              && MayWrite(input, i, p, o)
              && o + UINTPTR <= LengthAt(input, input.offsets[p]) && (SgBefore(input, p) + o) % 4 == 0)
      case Fda(p, o, n) =>
        && MayWrite(input, i, p, o)
        && n < SIZE_MAX / FD && o + n * FD <= LengthAt(input, input.offsets[p]) && (SgBefore(input, p) + o) % FD == 0
      case _ => true
  }

  /** Object i is fixed up in the buffer object at offset 0. */
  predicate NamesFirst(input: Input, i: nat)
    requires i < |input.offsets|
  {
    match GetObject(input, input.offsets[i])
    case Ptr(hasParent, p, _, _) => hasParent && p < |input.offsets| && input.offsets[p] == 0
    case Fda(p, _, _) => p < |input.offsets| && input.offsets[p] == 0
    case _ => false
  }

  /** The loop's bookkeeping and the rule's agree on the last buffer. */
  ghost predicate Agrees(input: Input, i: nat, w: Work) {
    && i <= |input.offsets|
    && AsAsked(input, i, w) && FirstUntouched(input, i, w) && w.offMin == EndOfObject(input, i)
    && match LastOf(input, i)
      case NoBuffer => w.lastOff == 0
      case Last(j, min) => j < i && GetObject(input, input.offsets[j]).Ptr? && input.offsets[j] == w.lastOff && min == w.lastMin
  }

  /** Verified objects have increasing offsets. */
  lemma OffsetsIncrease(input: Input, i: nat)
    requires Verified(input, i)
    ensures forall j, k :: 0 <= j < k < i ==> input.offsets[j] < input.offsets[k]
  {
  }

  /** The climb by offsets is the climb by indices. */
  lemma {:induction false} ClimbsAgree(input: Input, i: nat, j: nat, min: nat, wanted: nat)
    requires Verified(input, i) && j < i && wanted < i && GetObject(input, input.offsets[j]).Ptr? && IsBuffer(input, i, input.offsets[j])
    requires GetObject(input, input.offsets[wanted]).Ptr?
    ensures Climb(input, i, input.offsets[j], min, input.offsets[wanted]) == ClimbTo(input, j, min, wanted)
    decreases j
  {
    OffsetsIncrease(input, i);
    if input.offsets[j] != input.offsets[wanted] && GetObject(input, input.offsets[j]).hasParent {
      ParentIsEarlier(input, i, input.offsets[j]);
      ClimbsAgree(input, i, GetObject(input, input.offsets[j]).parent, GetObject(input, input.offsets[j]).parentOffset + UINTPTR, wanted);
    }
  }

  /** A verified buffer at offset 0 has no parent. */
  lemma FirstHasNoParent(input: Input, i: nat, j: nat)
    requires Verified(input, i) && j < i && GetObject(input, input.offsets[j]).Ptr? && input.offsets[j] == 0
    ensures !GetObject(input, input.offsets[j]).hasParent
  {
    OffsetsIncrease(input, i);
  }

  /** The code allows a fixup exactly when the comment does and the parent is not at offset 0. */
  lemma AllowedExactly(input: Input, i: nat, w: Work, parent: nat, fixup: nat)
    requires Inv(input, i, w) && Agrees(input, i, w)
    ensures FixupParent(input, i, w, parent, fixup).Some? <==> MayWrite(input, i, parent, fixup) && input.offsets[parent] != 0
    ensures FixupParent(input, i, w, parent, fixup).Some? ==> FixupParent(input, i, w, parent, fixup) == Some(input.offsets[parent])
  {
    InvParts(input, i, w);
    if parent < i && GetObject(input, input.offsets[parent]).Ptr? {
      if w.lastOff != 0 {
        if FixupParent(input, i, w, parent, fixup).Some? {
          ParentIsNotFirst(input, i, w, parent, fixup);
        }
        var j := LastOf(input, i).index;
        hide Inv, Settled, PlacedOk, SlotsOk, AsAsked, FirstUntouched;
        ClimbsAgree(input, i, j, w.lastMin, parent);
      } else {
        NothingInFirst(input, i, w, parent, fixup);
        if LastOf(input, i).Last? {
          FirstHasNoParent(input, i, LastOf(input, i).index);
        }
      }
    }
  }

  /** The loop's bookkeeping says of object i what the rule says of it. */
  ghost predicate SameFacts(input: Input, i: nat, w: Work)
    requires i < |input.offsets| && Verified(input, i) && (w.lastOff != 0 ==> IsBuffer(input, i, w.lastOff))
  {
    && w.sgOff == SgBefore(input, i) && w.offMin == EndOfObject(input, i)
    && forall p: nat, o: nat ::
         var f := FixupParent(input, i, w, p, o);
         && (f.Some? <==> MayWrite(input, i, p, o) && input.offsets[p] != 0)
         && (f.Some? ==> f == Some(input.offsets[p]) && Base(w, input.offsets[p]) == SgBefore(input, p))
  }

  lemma AgreesOnFacts(input: Input, i: nat, w: Work)
    requires Inv(input, i, w) && i < |input.offsets| && Agrees(input, i, w)
    ensures Verified(input, i) && (w.lastOff != 0 ==> IsBuffer(input, i, w.lastOff)) && SameFacts(input, i, w)
  {
    InvParts(input, i, w);
    forall p: nat, o: nat
      ensures var f := FixupParent(input, i, w, p, o);
              && (f.Some? <==> MayWrite(input, i, p, o) && input.offsets[p] != 0)
              && (f.Some? ==> f == Some(input.offsets[p]) && Base(w, input.offsets[p]) == SgBefore(input, p))
    {
      AllowedExactly(input, i, w, p, o);
      if MayWrite(input, i, p, o) {
        BaseIsBefore(input, i, w, p);
      }
    }
  }

  lemma ObjectExactly(input: Input, i: nat, w: Work)
    requires WellFormed(input) && i < |input.offsets| && Verified(input, i) && (w.lastOff != 0 ==> IsBuffer(input, i, w.lastOff))
    requires SameFacts(input, i, w) && w.sgOff <= input.sgEnd
    ensures ObjectOk(input, i, w) <==> ObjectDocumented(input, i) && !NamesFirst(input, i)
  {
    var x := GetObject(input, input.offsets[i]);
    if (x.Ptr? && x.hasParent) || x.Fda? {
      assert MayWrite(input, i, x.parent, x.parentOffset) ==> x.parent < i;
      assert FixupParent(input, i, w, x.parent, x.parentOffset).Some? ==> x.parent < i;
    }
    hide Verified, IsBuffer, GetObject, SgBefore, EndOfObject, Base, FixupParent, MayWrite;
  }

  lemma StepAgrees(input: Input, i: nat, w: Work)
    requires WellFormed(input) && i < |input.offsets| && Inv(input, i, w) && ObjectOk(input, i, w) && Agrees(input, i, w)
    ensures Agrees(input, i + 1, StepWork(input, i, w))
  {
    InvParts(input, i, w);
    StepAsAsked(input, i, w);
    StepSparesFirst(input, i, w);
    var x := GetObject(input, input.offsets[i]);
    if x.Fda? {
      ParentIsBuffer(input, i, w, x.parent, x.parentOffset);
    }
    hide Inv, ObjectOk, AsAsked, FirstUntouched, PlacedOk, SlotsOk, Verified, Settled, IsBuffer, GetObject;
  }

  lemma {:induction false} AcceptsFrom(input: Input, i: nat, w: Work)
    requires WellFormed(input) && i <= |input.offsets| && Inv(input, i, w) && Agrees(input, i, w)
    ensures Accepts(input, i, w) <==> forall j :: i <= j < |input.offsets| ==> ObjectDocumented(input, j) && !NamesFirst(input, j)
    decreases |input.offsets| - i
  {
    hide Inv, Agrees, SameFacts, ObjectOk, ObjectDocumented, NamesFirst, WellFormed, StepWork;
    if i < |input.offsets| {
      InvParts(input, i, w);
      AgreesOnFacts(input, i, w);
      ObjectExactly(input, i, w);
      if ObjectOk(input, i, w) {
        StepKeepsInv(input, i, w);
        StepAgrees(input, i, w);
        AcceptsFrom(input, i + 1, StepWork(input, i, w));
      }
    }
  }

  /** The loop accepts a transaction exactly when every object obeys the rule of the comment and
      none is to be fixed up in a buffer object at offset 0. */
  lemma AcceptsExactly(input: Input)
    requires WellFormed(input)
    ensures Inv(input, 0, Start(input))
    ensures Accepts(input, 0, Start(input))
            <==> forall j :: 0 <= j < |input.offsets| ==> ObjectDocumented(input, j) && !NamesFirst(input, j)
  {
    StartInv(input);
    StartAsAsked(input);
    AcceptsFrom(input, 0, Start(input));
  }

  /** A buffer at offset 0 and one that is to be linked into it: the comment allows it, the code
      refuses it. */
  const PAIR: Input := Input(80, [0, 40], map[0 := Ptr(false, 0, 0, 16), 40 := Ptr(true, 0, 0, 8)], 96, 120)

  lemma PairIsRefused()
    ensures WellFormed(PAIR) && Inv(PAIR, 0, Start(PAIR))
    ensures forall j :: 0 <= j < |PAIR.offsets| ==> ObjectDocumented(PAIR, j)
    ensures !Accepts(PAIR, 0, Start(PAIR))
  {
    AcceptsExactly(PAIR);
    hide Accepts, Inv;
    assert GetObject(PAIR, 0) == Ptr(false, 0, 0, 16) && GetObject(PAIR, 40) == Ptr(true, 0, 0, 8);
    assert LastOf(PAIR, 1) == Last(0, 0);
    assert SgBefore(PAIR, 0) == 96 && SgBefore(PAIR, 1) == 112;
    assert ObjectDocumented(PAIR, 0) && ObjectDocumented(PAIR, 1);
    assert NamesFirst(PAIR, 1);
  }
}
