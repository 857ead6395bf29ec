/** The budget for one-way requests: `free_async_space`. */
module AllocBudget {
  import opened SizeArith
  import opened BufferList

  /** What the code's free path will give back to the one-way budget for a buffer. */
  function Owed(b: Buffer): nat {
    if !b.free && b.async then Padded(b.dataSize, b.offsetsSize, b.extraSize) + BUFFER_STRUCT else 0
  }

  function OwedAll(list: seq<Buffer>): nat {
    if list == [] then 0 else Owed(list[0]) + OwedAll(list[1..])
  }

  lemma {:induction false} OwedConcat(s: seq<Buffer>, t: seq<Buffer>)
    ensures OwedAll(s + t) == OwedAll(s) + OwedAll(t)
  {
    if s == [] {
      assert s + t == t;
    } else {
      assert (s + t)[1..] == s[1..] + t;
      OwedConcat(s[1..], t);
    }
  }

  lemma OwedAround(list: seq<Buffer>, i: nat, middle: seq<Buffer>)
    requires i < |list|
    ensures OwedAll(list) == OwedAll(list[..i]) + Owed(list[i]) + OwedAll(list[i + 1..])
    ensures OwedAll(list[..i] + middle + list[i + 1..]) == OwedAll(list[..i]) + OwedAll(middle) + OwedAll(list[i + 1..])
  {
    assert list == list[..i] + [list[i]] + list[i + 1..];
    OwedConcat(list[..i] + [list[i]], list[i + 1..]);
    OwedConcat(list[..i], [list[i]]);
    OwedConcat(list[..i] + middle, list[i + 1..]);
    OwedConcat(list[..i], middle);
    assert OwedAll([list[i]]) == Owed(list[i]) + OwedAll([]);
  }

  lemma TakenOwed(list: seq<Buffer>, limit: nat, i: nat, size: nat, filled: Buffer)
    requires i < |list| && list[i].free
    ensures OwedAll(Taken(list, limit, i, size, filled)) == OwedAll(list) + Owed(filled)
  {
    var rest := FreshFree(list[i].userData + size);
    OwedAround(list, i, [filled, rest]);
    OwedAround(list, i, [filled]);
    assert list[i := filled] == list[..i] + [filled] + list[i + 1..];
    assert [filled, rest][1..] == [rest] && [rest][1..] == [] && [filled][1..] == [];
  }

  lemma DropOwed(list: seq<Buffer>, i: nat)
    requires i < |list| && list[i].free
    ensures OwedAll(Drop(list, i)) == OwedAll(list)
  {
    OwedAround(list, i, []);
    assert Drop(list, i) == list[..i] + [] + list[i + 1..];
  }

  lemma ReleasedOwed(list: seq<Buffer>, i: nat)
    requires i < |list|
    ensures OwedAll(Released(list, i)) == OwedAll(list) - Owed(list[i])
  {
    var marked := list[i := list[i].(free := true)];
    OwedAround(list, i, [marked[i]]);
    assert marked == list[..i] + [marked[i]] + list[i + 1..];
    assert [marked[i]][1..] == [];
    if MergesRight(list, i) {
      DropOwed(marked, i + 1);
    }
    if MergesLeft(list, i) {
      DropOwed(RightMerged(list, i), i);
    }
  }

  function Filled(userData: nat, d: size_t, o: size_t, e: size_t, isAsync: bool): Buffer {
    Buffer(userData, false, false, isAsync, false, d, o, e)
  }

  /** The law of the one-way budget: what is free, plus what live one-way buffers will give
      back, is half the region, less 8 bytes for every zero-size request ever accepted (the
      charge pads such a request to one pointer after the check, the refund does not). */
  ghost predicate Budget(free: size_t, owed: nat, zeroes: nat, half: nat) {
    && (free + owed + PTR * zeroes) % TWO64 == half % TWO64
    && (zeroes == 0 ==> free + owed == half)
  }

  lemma BudgetCharged(free: size_t, owed: nat, zeroes: nat, half: nat, padded: nat)
    requires Budget(free, owed, zeroes, half)
    requires padded % PTR == 0 && padded + BUFFER_STRUCT <= free
    ensures var charge := Max(padded, PTR) + BUFFER_STRUCT;
            var zeroes' := if padded == 0 then zeroes + 1 else zeroes;
            Budget((free - charge) % TWO64, owed + padded + BUFFER_STRUCT, zeroes', half)
  {
    var charge := Max(padded, PTR) + BUFFER_STRUCT;
    var zeroes' := if padded == 0 then zeroes + 1 else zeroes;
    var x := free + owed + PTR * zeroes;
    var y := (free - charge) % TWO64 + (owed + padded + BUFFER_STRUCT) + PTR * zeroes';
    if free < charge {
      assert free - charge + TWO64 < TWO64;
      assert y == x + TWO64;
      assert y % TWO64 == x % TWO64 by {
        SameModulo(y, 1);
      }
    } else {
      assert y == x;
    }
  }

  function SubWrap(x: size_t, y: nat): size_t {
    (x - y) % TWO64
  }

  /** 1 for a one-way request without any bytes. */
  function Zeroes(b: Buffer): nat {
    if b.async && Padded(b.dataSize, b.offsetsSize, b.extraSize) == 0 then 1 else 0
  }

  /** The budget after a request has been served. */
  function Charged(free: size_t, b: Buffer): size_t {
    if b.async then SubWrap(free, Need(b) + BUFFER_STRUCT) else free
  }

  lemma BudgetAfterTake(owed: nat, filled: Buffer, free: size_t, zeroes: nat, half: nat)
    requires !filled.free && filled.async && Owed(filled) <= free
    requires Budget(free, owed, zeroes, half)
    ensures Budget(SubWrap(free, Need(filled) + BUFFER_STRUCT), owed + Owed(filled), zeroes + Zeroes(filled), half)
  {
    hide Padded, Budget;
    PaddedMultiple(filled.dataSize, filled.offsetsSize, filled.extraSize);
    BudgetCharged(free, owed, zeroes, half, Padded(filled.dataSize, filled.offsetsSize, filled.extraSize));
  }

  lemma BudgetRefunded(free: size_t, owed: nat, refund: nat, zeroes: nat, half: nat)
    requires Budget(free, owed, zeroes, half) && refund <= owed && half < TWO64
    ensures Budget((free + refund) % TWO64, owed - refund, zeroes, half)
  {
    if free + refund < TWO64 {
      assert (free + refund) % TWO64 == free + refund;
    } else {
      var q := (free + refund) / TWO64;
      assert (free + refund) % TWO64 == free + refund - q * TWO64;
      SameModulo(free + owed + PTR * zeroes, q);
    }
  }

  lemma SameModulo(x: nat, q: nat)
    requires q * TWO64 <= x
    ensures (x - q * TWO64) % TWO64 == x % TWO64
  {
    if q > 0 {
      SameModulo(x - TWO64, q - 1);
    }
  }

  /** The law one expects, `free + owed == half`, holds exactly as long as no zero-size one-way
      request has been accepted. */
  lemma PlainLawExactly(free: size_t, owed: nat, zeroes: nat, half: nat)
    requires Budget(free, owed, zeroes, half) && PTR * zeroes < TWO64
    ensures free + owed == half <==> zeroes == 0
  {
    if zeroes != 0 {
      ModuloMoves(half, PTR * zeroes);
    }
  }

  lemma ModuloMoves(x: nat, y: nat)
    requires 0 < y < TWO64
    ensures (x + y) % TWO64 != x % TWO64
  {
    var q, r := x / TWO64, x % TWO64;
    SameModulo(x + y, q);
    if r + y < TWO64 {
      assert (r + y) % TWO64 == r + y;
    } else {
      SameModulo(r + y, 1);
      assert (r + y - TWO64) % TWO64 == r + y - TWO64;
    }
  }

  /** Serving an admitted one-way request and freeing its buffer gives the budget back, except
      that a zero-size request costs one pointer for good; its charge is also the only one that
      can wrap around, and does so exactly when the check left less than a pointer to spare. */
  lemma RoundTripOfBudget(free: size_t, b: Buffer)
    requires !b.free && b.async && Owed(b) <= free
    ensures AddWrap(Charged(free, b), Owed(b)) == if Zeroes(b) == 0 then free else SubWrap(free, PTR)
    ensures Charged(free, b) > free <==> Zeroes(b) == 1 && free < BUFFER_STRUCT + PTR
  {
    var padded := Padded(b.dataSize, b.offsetsSize, b.extraSize);
    PaddedMultiple(b.dataSize, b.offsetsSize, b.extraSize);
    hide Padded, Pad;
    assert Need(b) == Max(padded, PTR);
    if padded == 0 && free < BUFFER_STRUCT + PTR {
      assert Charged(free, b) == free - BUFFER_STRUCT - PTR + TWO64;
      assert SubWrap(free, PTR) == free - PTR;
    } else {
      assert Charged(free, b) == free - Need(b) - BUFFER_STRUCT;
    }
  }
}
