/** The two search trees of the allocator, related to the buffer list that gives them
    their keys: free buffers ordered by size, allocated buffers ordered by address. */
module AllocTrees {
  import opened Common
  import opened SearchTree
  import opened BufferList

  ghost function Addrs(list: seq<Buffer>, isFree: bool): set<nat> {
    set i | 0 <= i < |list| && list[i].free == isFree :: list[i].userData
  }

  ghost predicate SizeOrdered(list: seq<Buffer>, limit: nat, ord: seq<nat>) {
    forall i, j :: 0 <= i < j < |ord| ==> SizeOf(list, limit, ord[i]) <= SizeOf(list, limit, ord[j])
  }

  ghost predicate AddressOrdered(ord: seq<nat>) {
    forall i, j :: 0 <= i < j < |ord| ==> ord[i] < ord[j]
  }

  ghost predicate HoldsExactly(ord: seq<nat>, addrs: set<nat>) {
    NoDup(ord) && forall a :: a in ord <==> a in addrs
  }

  ghost predicate FreeTreeOk(list: seq<Buffer>, limit: nat, ord: seq<nat>) {
    HoldsExactly(ord, Addrs(list, true)) && SizeOrdered(list, limit, ord)
  }

  ghost predicate AllocTreeOk(list: seq<Buffer>, ord: seq<nat>) {
    HoldsExactly(ord, Addrs(list, false)) && AddressOrdered(ord)
  }

  /** At every node of an ordered tree, what hangs left is not larger and what hangs right
      is not smaller. */
  lemma SizesAround(list: seq<Buffer>, limit: nat, t: Tree, path: Path)
    requires SizeOrdered(list, limit, InOrder(t)) && ValidPath(t, path) && At(t, path).Node?
    ensures forall a :: a in InOrder(At(t, path).left) ==> SizeOf(list, limit, a) <= SizeOf(list, limit, At(t, path).addr)
    ensures forall a :: a in InOrder(At(t, path).right) ==> SizeOf(list, limit, At(t, path).addr) <= SizeOf(list, limit, a)
  {
    var n, s := At(t, path), InOrder(t);
    FocusSplits(t, path);
    OrderAround(list, limit, s, Before(t, path), InOrder(n), After(t, path), InOrder(n.left), n.addr, InOrder(n.right));
  }

  lemma OrderAround(list: seq<Buffer>, limit: nat, s: seq<nat>, pre: seq<nat>, mid: seq<nat>, post: seq<nat>, l: seq<nat>, a: nat, r: seq<nat>)
    requires SizeOrdered(list, limit, s) && s == pre + mid + post && mid == l + [a] + r
    ensures forall x :: x in l ==> SizeOf(list, limit, x) <= SizeOf(list, limit, a)
    ensures forall x :: x in r ==> SizeOf(list, limit, a) <= SizeOf(list, limit, x)
  {
    PiecesAt(s, pre, mid, post, l, a, r);
  }

  lemma AddressesAround(t: Tree, path: Path)
    requires AddressOrdered(InOrder(t)) && ValidPath(t, path) && At(t, path).Node?
    ensures At(t, path).addr in InOrder(t)
    ensures forall a :: a in InOrder(At(t, path).left) ==> a < At(t, path).addr
    ensures forall a :: a in InOrder(At(t, path).right) ==> At(t, path).addr < a
  {
    var n, s := At(t, path), InOrder(t);
    FocusSplits(t, path);
    AddressAround(s, Before(t, path), InOrder(n), After(t, path), InOrder(n.left), n.addr, InOrder(n.right));
  }

  lemma AddressAround(s: seq<nat>, pre: seq<nat>, mid: seq<nat>, post: seq<nat>, l: seq<nat>, a: nat, r: seq<nat>)
    requires AddressOrdered(s) && s == pre + mid + post && mid == l + [a] + r
    ensures a in s
    ensures forall x :: x in l ==> x < a
    ensures forall x :: x in r ==> a < x
  {
    PiecesAt(s, pre, mid, post, l, a, r);
  }

  // ---------- the descents ----------

  /** addr is in the order, and everything before it is too small. */
  ghost predicate FirstLargeEnough(list: seq<Buffer>, limit: nat, ord: seq<nat>, size: nat, addr: nat) {
    exists k :: 0 <= k < |ord| && ord[k] == addr && forall j :: 0 <= j < k ==> SizeOf(list, limit, ord[j]) < size
  }

  datatype Fit = NoFit | Exact(addr: nat) | Larger(addr: nat)

  /** The best-fit search.  Whatever the shape of the tree, a `Larger` answer is the first
      node in order that is large enough, and then no free buffer has the exact size. */
  method BestFit(list: seq<Buffer>, limit: nat, t: Tree, size: nat) returns (fit: Fit)
    requires SizeOrdered(list, limit, InOrder(t))
    ensures fit.NoFit? ==> forall a :: a in InOrder(t) ==> SizeOf(list, limit, a) < size
    ensures fit.Exact? ==> fit.addr in InOrder(t) && SizeOf(list, limit, fit.addr) == size
    ensures fit.Larger? ==>
              size < SizeOf(list, limit, fit.addr) && FirstLargeEnough(list, limit, InOrder(t), size, fit.addr)
  {
    var n := t;
    fit := NoFit;
    ghost var path: Path := [];
    while n.Node?
      invariant ValidPath(t, path) && At(t, path) == n
      invariant forall a :: a in Before(t, path) ==> SizeOf(list, limit, a) < size
      invariant !fit.Exact?
      invariant fit.NoFit? ==> After(t, path) == []
      invariant fit.Larger? ==> After(t, path) != [] && After(t, path)[0] == fit.addr && size < SizeOf(list, limit, fit.addr)
      decreases n
    {
      var bufferSize := SizeOf(list, limit, n.addr);
      SizesAround(list, limit, t, path);
      if size < bufferSize {
        fit := Larger(n.addr);
        StepDown(t, path, false);
        path := path + [false];
        n := n.left;
      } else if size > bufferSize {
        StepDown(t, path, true);
        path := path + [true];
        n := n.right;
      } else {
        FocusSplits(t, path);
        assert InOrder(t)[|Before(t, path)| + |InOrder(n.left)|] == n.addr;
        return Exact(n.addr);
      }
    }
    FocusSplits(t, path);
    if fit.Larger? {
      assert InOrder(t)[|Before(t, path)|] == fit.addr;
      assert forall j :: 0 <= j < |Before(t, path)| ==> InOrder(t)[j] in Before(t, path);
    }
  }

  /** `binder_insert_free_buffer`: after every node that is not larger. */
  method InsertFree(list: seq<Buffer>, limit: nat, t: Tree, addr: nat) returns (t': Tree)
    requires SizeOrdered(list, limit, InOrder(t)) && addr !in InOrder(t)
    ensures exists k :: 0 <= k <= |InOrder(t)| && InOrder(t') == InOrder(t)[..k] + [addr] + InOrder(t)[k..]
    ensures SizeOrdered(list, limit, InOrder(t'))
  {
    var newSize := SizeOf(list, limit, addr);
    var p: Path := [];
    var n := t;
    while n.Node?
      invariant ValidPath(t, p) && At(t, p) == n
      invariant forall a :: a in Before(t, p) ==> SizeOf(list, limit, a) <= newSize
      invariant forall a :: a in After(t, p) ==> newSize < SizeOf(list, limit, a)
      decreases n
    {
      SizesAround(list, limit, t, p);
      if newSize < SizeOf(list, limit, n.addr) {
        StepDown(t, p, false);
        p := p + [false];
        n := n.left;
      } else {
        StepDown(t, p, true);
        p := p + [true];
        n := n.right;
      }
    }
    LinkInOrder(t, p, addr);
    t' := Link(t, p, addr);
    assert InOrder(t)[..|Before(t, p)|] == Before(t, p) && InOrder(t)[|Before(t, p)|..] == After(t, p);
    InsertedOrder(list, limit, Before(t, p), addr, After(t, p));
  }

  lemma InsertedOrder(list: seq<Buffer>, limit: nat, pre: seq<nat>, addr: nat, post: seq<nat>)
    requires SizeOrdered(list, limit, pre + post)
    requires forall a :: a in pre ==> SizeOf(list, limit, a) <= SizeOf(list, limit, addr)
    requires forall a :: a in post ==> SizeOf(list, limit, addr) <= SizeOf(list, limit, a)
    ensures SizeOrdered(list, limit, pre + [addr] + post)
  {
    var s, s' := pre + post, pre + [addr] + post;
    forall i, j | 0 <= i < j < |s'|
      ensures SizeOf(list, limit, s'[i]) <= SizeOf(list, limit, s'[j])
    {
      var i' := if i <= |pre| then i else i - 1;
      var j' := if j <= |pre| then j else j - 1;
      if i != |pre| && j != |pre| {
        assert s[i'] == s'[i] && s[j'] == s'[j];
      } else if i == |pre| {
        assert s'[j] in post;
      } else {
        assert s'[i] in pre;
      }
    }
  }

  lemma InsertedAddress(pre: seq<nat>, addr: nat, post: seq<nat>)
    requires AddressOrdered(pre + post)
    requires forall a :: a in pre ==> a < addr
    requires forall a :: a in post ==> addr < a
    ensures AddressOrdered(pre + [addr] + post)
  {
    var s, s' := pre + post, pre + [addr] + post;
    forall i, j | 0 <= i < j < |s'|
      ensures s'[i] < s'[j]
    {
      var i' := if i <= |pre| then i else i - 1;
      var j' := if j <= |pre| then j else j - 1;
      if i != |pre| && j != |pre| {
        assert s[i'] == s'[i] && s[j'] == s'[j];
      } else if i == |pre| {
        assert s'[j] in post;
      } else {
        assert s'[i] in pre;
      }
    }
  }

  /** `binder_insert_allocated_buffer_locked`; its BUG() on an equal address is unreachable. */
  method InsertAllocated(t: Tree, addr: nat) returns (t': Tree)
    requires AddressOrdered(InOrder(t)) && addr !in InOrder(t)
    ensures AddressOrdered(InOrder(t'))
    ensures forall a :: a in InOrder(t') <==> a == addr || a in InOrder(t)
  {
    var p: Path := [];
    var n := t;
    while n.Node?
      invariant ValidPath(t, p) && At(t, p) == n
      invariant forall a :: a in Before(t, p) ==> a < addr
      invariant forall a :: a in After(t, p) ==> addr < a
      decreases n
    {
      AddressesAround(t, p);
      if addr < n.addr {
        StepDown(t, p, false);
        p := p + [false];
        n := n.left;
      } else if addr > n.addr {
        StepDown(t, p, true);
        p := p + [true];
        n := n.right;
      } else {
        assert false;
      }
    }
    LinkInOrder(t, p, addr);
    InsertedAddress(Before(t, p), addr, After(t, p));
    t' := Link(t, p, addr);
  }

  /** The address search of `binder_alloc_prepare_to_free_locked`. */
  method FindAddress(t: Tree, addr: nat) returns (found: bool)
    requires AddressOrdered(InOrder(t))
    ensures found <==> addr in InOrder(t)
  {
    var n := t;
    ghost var p: Path := [];
    while n.Node?
      invariant ValidPath(t, p) && At(t, p) == n
      invariant forall a :: a in Before(t, p) ==> a < addr
      invariant forall a :: a in After(t, p) ==> addr < a
      decreases n
    {
      AddressesAround(t, p);
      if addr < n.addr {
        StepDown(t, p, false);
        p := p + [false];
        n := n.left;
      } else if addr > n.addr {
        StepDown(t, p, true);
        p := p + [true];
        n := n.right;
      } else {
        return true;
      }
    }
    FocusSplits(t, p);
    return false;
  }

  // ---------- what an edit of the list does to the keys ----------

  lemma SizeOfSameLayout(one: seq<Buffer>, two: seq<Buffer>, limit: nat, addr: nat)
    requires |one| == |two| && forall k :: 0 <= k < |one| ==> one[k].userData == two[k].userData
    ensures SizeOf(one, limit, addr) == SizeOf(two, limit, addr)
  {
    var j, k := IndexOf(one, addr), IndexOf(two, addr);
    IndexOfSameLayout(one, two, addr);
  }

  lemma {:induction false} IndexOfSameLayout(one: seq<Buffer>, two: seq<Buffer>, addr: nat)
    requires |one| == |two| && forall k :: 0 <= k < |one| ==> one[k].userData == two[k].userData
    ensures IndexOf(one, addr) == IndexOf(two, addr)
  {
    if one != [] {
      IndexOfSameLayout(one[1..], two[1..], addr);
    }
  }

  /** An entry that keeps its gap keeps its key. */
  lemma KeptSize(list: seq<Buffer>, after: seq<Buffer>, base: nat, limit: nat, k: nat, k': nat)
    requires Partition(list, base, limit) && Partition(after, base, limit)
    requires k < |list| && k' < |after| && list[k].userData == after[k'].userData
    requires SizeAt(list, limit, k) == SizeAt(after, limit, k')
    ensures SizeOf(list, limit, list[k].userData) == SizeOf(after, limit, list[k].userData)
  {
    IndexOfAt(list, base, limit, k);
    IndexOfAt(after, base, limit, k');
  }

  lemma AddrIndex(list: seq<Buffer>, isFree: bool, a: nat) returns (k: nat)
    requires a in Addrs(list, isFree)
    ensures k < |list| && list[k].userData == a && list[k].free == isFree
  {
    k :| 0 <= k < |list| && list[k].free == isFree && list[k].userData == a;
  }

  /** A split changes the key of the buffer it cuts and adds one; no other key changes. */
  lemma SplitKeys(list: seq<Buffer>, base: nat, limit: nat, i: nat, size: nat, filled: Buffer)
    requires Partition(list, base, limit) && i < |list|
    requires 0 < size < SizeAt(list, limit, i) && filled.userData == list[i].userData
    ensures var after := Taken(list, limit, i, size, filled);
            && SizeOf(after, limit, list[i].userData) == size
            && SizeOf(after, limit, list[i].userData + size) == SizeAt(list, limit, i) - size
            && (forall k {:trigger list[k]} :: 0 <= k < |list| && k != i ==> SizeOf(after, limit, list[k].userData) == SizeOf(list, limit, list[k].userData))
            && (forall k {:trigger list[k]} :: 0 <= k < |list| ==> list[k].userData != list[i].userData + size)
  {
    var after := Taken(list, limit, i, size, filled);
    SplitAt(list, base, limit, i, size, filled);
    IndexOfAt(after, base, limit, i);
    IndexOfAt(after, base, limit, i + 1);
    forall k | 0 <= k < |list| && k != i
      ensures SizeOf(after, limit, list[k].userData) == SizeOf(list, limit, list[k].userData)
    {
      if k < i {
        KeptSize(list, after, base, limit, k, k);
      } else {
        assert after[k + 1] == list[k];
        KeptSize(list, after, base, limit, k, k + 1);
      }
    }
    forall k | 0 <= k < |list|
      ensures list[k].userData != list[i].userData + size
    {
      if k < i {
        Order(list, base, limit, k, i);
      } else if i < k {
        Order(list, base, limit, i, k);
      }
    }
  }

  /** The free tree stays ordered although the key of the buffer found by the search has
      just shrunk to the request, while it is still linked. */
  lemma ShrunkKeyStaysInOrder(list: seq<Buffer>, base: nat, limit: nat, i: nat, size: nat, ord: seq<nat>)
    requires Partition(list, base, limit) && i < |list|
    requires 0 < size < SizeAt(list, limit, i)
    requires FreeTreeOk(list, limit, ord) && FirstLargeEnough(list, limit, ord, size, list[i].userData)
    ensures SizeOrdered(Taken(list, limit, i, size, list[i]), limit, ord)
  {
    var after := Taken(list, limit, i, size, list[i]);
    SplitKeys(list, base, limit, i, size, list[i]);
    var u := list[i].userData;
    var k :| 0 <= k < |ord| && ord[k] == u && forall j :: 0 <= j < k ==> SizeOf(list, limit, ord[j]) < size;
    IndexOfAt(list, base, limit, i);
    forall j | 0 <= j < |ord| && j != k
      ensures SizeOf(after, limit, ord[j]) == SizeOf(list, limit, ord[j])
    {
      assert ord[j] in ord;
      var m := AddrIndex(list, true, ord[j]);
      assert ord[j] != ord[k];
    }
  }

  lemma AddrsConcat(s: seq<Buffer>, t: seq<Buffer>, isFree: bool)
    ensures Addrs(s + t, isFree) == Addrs(s, isFree) + Addrs(t, isFree)
  {
    var u := s + t;
    assert forall k :: 0 <= k < |s| ==> u[k] == s[k];
    assert forall k :: 0 <= k < |t| ==> u[|s| + k] == t[k];
  }

  /** Each entry's address is nobody else's. */
  lemma AddressIsUnique(list: seq<Buffer>, base: nat, limit: nat, i: nat)
    requires Partition(list, base, limit) && i < |list|
    ensures list == list[..i] + [list[i]] + list[i + 1..]
    ensures forall f :: list[i].userData !in Addrs(list[..i], f) && list[i].userData !in Addrs(list[i + 1..], f)
  {
    forall k | 0 <= k < |list| && k != i
      ensures list[k].userData != list[i].userData
    {
      if k < i {
        Order(list, base, limit, k, i);
      } else {
        Order(list, base, limit, i, k);
      }
    }
  }

  /** Replacing entry i by some others. */
  lemma AddrsAround(list: seq<Buffer>, i: nat, middle: seq<Buffer>)
    requires i < |list|
    ensures forall f :: Addrs(list[..i] + middle + list[i + 1..], f)
                     == Addrs(list[..i], f) + Addrs(middle, f) + Addrs(list[i + 1..], f)
  {
    forall f: bool
      ensures Addrs(list[..i] + middle + list[i + 1..], f)
           == Addrs(list[..i], f) + Addrs(middle, f) + Addrs(list[i + 1..], f)
    {
      AddrsConcat(list[..i] + middle, list[i + 1..], f);
      AddrsConcat(list[..i], middle, f);
    }
  }

  /** The addresses of each kind after a request has been served. */
  lemma TakenAddrs(list: seq<Buffer>, base: nat, limit: nat, i: nat, size: nat, filled: Buffer)
    requires Partition(list, base, limit) && i < |list| && list[i].free
    requires 0 < size <= SizeAt(list, limit, i) && filled.userData == list[i].userData && !filled.free
    ensures var after := Taken(list, limit, i, size, filled);
            var rest := if SizeAt(list, limit, i) != size then {list[i].userData + size} else {};
            && Addrs(after, true) == Addrs(list, true) - {list[i].userData} + rest
            && Addrs(after, false) == Addrs(list, false) + {list[i].userData}
            && list[i].userData !in Addrs(list, false)
  {
    var after := Taken(list, limit, i, size, filled);
    var u := list[i].userData;
    AddressIsUnique(list, base, limit, i);
    AddrsAround(list, i, [list[i]]);
    assert [list[i]][0] == list[i];
    assert Addrs([list[i]], true) == {u} && Addrs([list[i]], false) == {};
    if SizeAt(list, limit, i) != size {
      assert after == list[..i] + [filled, FreshFree(u + size)] + list[i + 1..];
      var two := [filled, FreshFree(u + size)];
      AddrsAround(list, i, two);
      assert two[0] == filled && two[1] == FreshFree(u + size);
      assert Addrs(two, true) == {u + size} && Addrs(two, false) == {u};
    } else {
      assert after == list[..i] + [filled] + list[i + 1..];
      AddrsAround(list, i, [filled]);
      assert [filled][0] == filled;
      assert Addrs([filled], true) == {} && Addrs([filled], false) == {u};
    }
  }

  /** Dropping an entry changes the key of the entry before it and no other. */
  lemma DropKeys(list: seq<Buffer>, base: nat, limit: nat, i: nat)
    requires Partition(list, base, limit) && 0 < i < |list|
    ensures forall k {:trigger list[k]} :: 0 <= k < |list| && k != i && k != i - 1 ==>
              SizeOf(Drop(list, i), limit, list[k].userData) == SizeOf(list, limit, list[k].userData)
  {
    var after := Drop(list, i);
    DropPartition(list, base, limit, i);
    forall k | 0 <= k < |list| && k != i && k != i - 1
      ensures SizeOf(after, limit, list[k].userData) == SizeOf(list, limit, list[k].userData)
    {
      if k < i {
        KeptSize(list, after, base, limit, k, k);
      } else {
        assert after[k - 1] == list[k];
        KeptSize(list, after, base, limit, k, k - 1);
      }
    }
  }

  lemma DropAddrs(list: seq<Buffer>, base: nat, limit: nat, i: nat)
    requires Partition(list, base, limit) && i < |list|
    ensures Addrs(Drop(list, i), list[i].free) == Addrs(list, list[i].free) - {list[i].userData}
    ensures Addrs(Drop(list, i), !list[i].free) == Addrs(list, !list[i].free)
  {
    AddressIsUnique(list, base, limit, i);
    AddrsAround(list, i, [list[i]]);
    assert [list[i]][0] == list[i];
    assert Addrs([list[i]], list[i].free) == {list[i].userData} && Addrs([list[i]], !list[i].free) == {};
    AddrsAround(list, i, []);
    assert Drop(list, i) == list[..i] + [] + list[i + 1..];
  }

  /** Marking an allocated entry free. */
  lemma MarkAddrs(list: seq<Buffer>, base: nat, limit: nat, i: nat)
    requires Partition(list, base, limit) && i < |list| && !list[i].free
    ensures var marked := list[i := list[i].(free := true)];
            && Addrs(marked, true) == Addrs(list, true) + {list[i].userData}
            && Addrs(marked, false) == Addrs(list, false) - {list[i].userData}
            && list[i].userData !in Addrs(list, true)
  {
    var b, m := list[i], list[i].(free := true);
    AddressIsUnique(list, base, limit, i);
    AddrsAround(list, i, [b]);
    AddrsAround(list, i, [m]);
    assert [b][0] == b && [m][0] == m;
    assert Addrs([b], true) == {} && Addrs([b], false) == {b.userData};
    assert Addrs([m], true) == {b.userData} && Addrs([m], false) == {};
    assert list[i := m] == list[..i] + [m] + list[i + 1..];
  }

  /** The order only depends on the keys of the nodes in it. */
  lemma SameKeysSameOrder(list: seq<Buffer>, after: seq<Buffer>, limit: nat, ord: seq<nat>)
    requires SizeOrdered(list, limit, ord)
    requires forall a :: a in ord ==> SizeOf(after, limit, a) == SizeOf(list, limit, a)
    ensures SizeOrdered(after, limit, ord)
  {
    assert forall i :: 0 <= i < |ord| ==> ord[i] in ord;
  }

  /** An erased tree lists a subsequence of what it listed: element i comes from Source(i). */
  lemma ErasedSource(t: Tree, addr: nat) returns (k: nat)
    requires NoDup(InOrder(t))
    ensures var ord := InOrder(t); var cut := InOrder(Erase(t, addr));
            && |cut| <= |ord|
            && (forall i {:trigger cut[i]} :: 0 <= i < |cut| ==> i < k ==> i < |ord| && cut[i] == ord[i])
            && (forall i {:trigger cut[i]} :: 0 <= i < |cut| ==> i >= k ==> i + 1 < |ord| && cut[i] == ord[i + 1])
            && (forall a :: a in cut <==> a in ord && a != addr)
  {
    var ord := InOrder(t);
    EraseInOrder(t, addr);
    WithoutMember(ord, addr);
    if addr in ord {
      k :| 0 <= k < |ord| && ord[k] == addr;
      WithoutSplit(ord, k);
    } else {
      WithoutAbsent(ord, addr);
      k := |ord|;
    }
  }

  lemma ErasedOrder(list: seq<Buffer>, limit: nat, t: Tree, addr: nat)
    requires NoDup(InOrder(t))
    ensures NoDup(InOrder(Erase(t, addr)))
    ensures forall a :: a in InOrder(Erase(t, addr)) <==> a in InOrder(t) && a != addr
    ensures SizeOrdered(list, limit, InOrder(t)) ==> SizeOrdered(list, limit, InOrder(Erase(t, addr)))
    ensures AddressOrdered(InOrder(t)) ==> AddressOrdered(InOrder(Erase(t, addr)))
  {
    var k := ErasedSource(t, addr);
  }

  lemma AddressOrderedNoDup(ord: seq<nat>)
    requires AddressOrdered(ord)
    ensures NoDup(ord)
  {
  }

  /** Putting one new address into an order without duplicates. */
  lemma InsertedNoDup(ord: seq<nat>, k: nat, addr: nat)
    requires NoDup(ord) && addr !in ord && k <= |ord|
    ensures NoDup(ord[..k] + [addr] + ord[k..])
    ensures forall a :: a in ord[..k] + [addr] + ord[k..] <==> a == addr || a in ord
  {
    var s := ord[..k] + [addr] + ord[k..];
    forall i | 0 <= i < |s|
      ensures s[i] == if i < k then ord[i] else if i == k then addr else ord[i - 1]
    {
    }
    forall a | a in ord
      ensures a in s
    {
      var i :| 0 <= i < |ord| && ord[i] == a;
      assert s[if i < k then i else i + 1] == a;
    }
  }

  // ---------- best fit, on the list ----------

  /** Entry i is a free buffer that can take the request and none that can is smaller. */
  ghost predicate IsBestFit(list: seq<Buffer>, limit: nat, size: nat, i: nat) {
    && i < |list| && list[i].free && size <= SizeAt(list, limit, i)
    && forall j :: 0 <= j < |list| && list[j].free && size <= SizeAt(list, limit, j) ==> SizeAt(list, limit, i) <= SizeAt(list, limit, j)
  }

  ghost predicate SomeFits(list: seq<Buffer>, limit: nat, size: nat) {
    exists j :: 0 <= j < |list| && list[j].free && size <= SizeAt(list, limit, j)
  }

  /** A free entry is somewhere in the free tree's order, under its size. */
  lemma FreeEntryInOrder(list: seq<Buffer>, base: nat, limit: nat, ord: seq<nat>, j: nat) returns (m: nat)
    requires Partition(list, base, limit) && FreeTreeOk(list, limit, ord)
    requires j < |list| && list[j].free
    ensures m < |ord| && ord[m] == list[j].userData && SizeOf(list, limit, ord[m]) == SizeAt(list, limit, j)
  {
    IndexOfAt(list, base, limit, j);
    assert list[j].userData in Addrs(list, true);
    assert list[j].userData in ord;
    m :| 0 <= m < |ord| && ord[m] == list[j].userData;
  }

  lemma NothingFits(list: seq<Buffer>, base: nat, limit: nat, ord: seq<nat>, size: nat)
    requires Partition(list, base, limit) && FreeTreeOk(list, limit, ord)
    requires forall a :: a in ord ==> SizeOf(list, limit, a) < size
    ensures !SomeFits(list, limit, size)
  {
    forall j | 0 <= j < |list| && list[j].free
      ensures SizeAt(list, limit, j) < size
    {
      var m := FreeEntryInOrder(list, base, limit, ord, j);
      assert ord[m] in ord;
    }
  }

  /** The search result, read on the list, is a true best fit. */
  lemma FitIsBest(list: seq<Buffer>, base: nat, limit: nat, ord: seq<nat>, size: nat, addr: nat) returns (i: nat)
    requires Partition(list, base, limit) && FreeTreeOk(list, limit, ord) && addr in ord
    requires SizeOf(list, limit, addr) == size
             || (size < SizeOf(list, limit, addr) && FirstLargeEnough(list, limit, ord, size, addr))
    ensures i == IndexOf(list, addr) && IsBestFit(list, limit, size, i) && list[i].userData == addr
    ensures SizeAt(list, limit, i) == SizeOf(list, limit, addr)
  {
    i := AddrIndex(list, true, addr);
    IndexOfAt(list, base, limit, i);
    if SizeOf(list, limit, addr) != size {
      var k :| 0 <= k < |ord| && ord[k] == addr && forall j :: 0 <= j < k ==> SizeOf(list, limit, ord[j]) < size;
      forall j | 0 <= j < |list| && list[j].free && size <= SizeAt(list, limit, j)
        ensures SizeAt(list, limit, i) <= SizeAt(list, limit, j)
      {
        var m := FreeEntryInOrder(list, base, limit, ord, j);
      }
    }
  }

  // ---------- what the free tree holds while a request is being served ----------

  /** The free tree between linking the rest of a split and erasing the buffer itself. */
  ghost predicate MidSplit(before: seq<Buffer>, limit: nat, i: nat, size: nat, ord: seq<nat>)
    requires i < |before|
  {
    var after := Taken(before, limit, i, size, before[i]);
    && NoDup(ord)
    && SizeOrdered(after, limit, ord)
    && (forall a :: a in ord <==> (a == before[i].userData + size && SizeAt(before, limit, i) != size) || a in Addrs(before, true))
  }

  lemma MidSplitReached(before: seq<Buffer>, base: nat, limit: nat, i: nat, size: nat, ord: seq<nat>, ord': seq<nat>)
    requires Partition(before, base, limit) && i < |before| && 0 < size < SizeAt(before, limit, i)
    requires FreeTreeOk(before, limit, ord)
    requires SizeOrdered(Taken(before, limit, i, size, before[i]), limit, ord')
    requires exists k :: 0 <= k <= |ord| && ord' == ord[..k] + [before[i].userData + size] + ord[k..]
    requires before[i].userData + size !in ord
    ensures MidSplit(before, limit, i, size, ord')
  {
    var k :| 0 <= k <= |ord| && ord' == ord[..k] + [before[i].userData + size] + ord[k..];
    InsertedNoDup(ord, k, before[i].userData + size);
  }

  lemma MidSplitTrivial(before: seq<Buffer>, limit: nat, i: nat, size: nat, ord: seq<nat>)
    requires i < |before| && SizeAt(before, limit, i) == size && FreeTreeOk(before, limit, ord)
    ensures MidSplit(before, limit, i, size, ord)
  {
    assert Taken(before, limit, i, size, before[i]) == before;
  }

  /** The address of the rest is new. */
  lemma RestIsNew(list: seq<Buffer>, base: nat, limit: nat, i: nat, size: nat)
    requires Partition(list, base, limit) && i < |list| && 0 < size < SizeAt(list, limit, i)
    ensures list[i].userData + size !in Addrs(list, true)
  {
    SplitKeys(list, base, limit, i, size, list[i]);
  }

  /** Erasing the buffer that was found and filling it in. */
  lemma FreeTreeAfterTake(before: seq<Buffer>, base: nat, limit: nat, i: nat, size: nat, filled: Buffer, t: Tree)
    requires Partition(before, base, limit) && i < |before| && before[i].free
    requires 0 < size <= SizeAt(before, limit, i) && filled.userData == before[i].userData && !filled.free
    requires MidSplit(before, limit, i, size, InOrder(t))
    ensures FreeTreeOk(Taken(before, limit, i, size, filled), limit, InOrder(Erase(t, before[i].userData)))
  {
    var cut := Taken(before, limit, i, size, before[i]);
    var after := Taken(before, limit, i, size, filled);
    var u := before[i].userData;
    ErasedOrder(cut, limit, t, u);
    TakenAddrs(before, base, limit, i, size, filled);
    assert |cut| == |after| && forall k :: 0 <= k < |cut| ==> cut[k].userData == after[k].userData;
    forall a
      ensures SizeOf(after, limit, a) == SizeOf(cut, limit, a)
    {
      SizeOfSameLayout(after, cut, limit, a);
    }
    SameKeysSameOrder(cut, after, limit, InOrder(Erase(t, u)));
    IndexOfAt(before, base, limit, i);
  }

  // ---------- what the free tree holds while a buffer is being freed ----------

  /** The free tree holds every free buffer except the one at `hole`, which is still growing. */
  ghost predicate MidFree(list: seq<Buffer>, limit: nat, ord: seq<nat>, hole: nat) {
    HoldsExactly(ord, Addrs(list, true) - {hole}) && SizeOrdered(list, limit, ord)
  }

  lemma MarkedTree(list: seq<Buffer>, base: nat, limit: nat, i: nat, ord: seq<nat>)
    requires Partition(list, base, limit) && i < |list| && !list[i].free && FreeTreeOk(list, limit, ord)
    ensures MidFree(list[i := list[i].(free := true)], limit, ord, list[i].userData)
  {
    var marked := list[i := list[i].(free := true)];
    MarkAddrs(list, base, limit, i);
    forall a
      ensures SizeOf(marked, limit, a) == SizeOf(list, limit, a)
    {
      SizeOfSameLayout(marked, list, limit, a);
    }
    SameKeysSameOrder(list, marked, limit, ord);
  }

  /** Merging two free neighbours, one of which is the hole: the other is erased from the
      tree by position, and then the key that the merge changed is not in the tree. */
  lemma MergedTree(list: seq<Buffer>, base: nat, limit: nat, j: nat, t: Tree, hole: nat, erased: nat)
    requires Partition(list, base, limit) && 0 < j < |list| && list[j].free && list[j - 1].free
    requires (hole == list[j].userData && erased == list[j - 1].userData) || (hole == list[j - 1].userData && erased == list[j].userData)
    requires MidFree(list, limit, InOrder(t), hole)
    ensures MidFree(Drop(list, j), limit, InOrder(Erase(t, erased)), list[j - 1].userData)
  {
    var after := Drop(list, j);
    var ord := InOrder(Erase(t, erased));
    ErasedOrder(list, limit, t, erased);
    DropAddrs(list, base, limit, j);
    DropKeys(list, base, limit, j);
    forall a | a in ord
      ensures SizeOf(after, limit, a) == SizeOf(list, limit, a)
    {
      var k := AddrIndex(list, true, a);
    }
    SameKeysSameOrder(list, after, limit, ord);
  }

  lemma FilledHole(list: seq<Buffer>, limit: nat, ord: seq<nat>, ord': seq<nat>, hole: nat)
    requires MidFree(list, limit, ord, hole) && hole in Addrs(list, true)
    requires SizeOrdered(list, limit, ord')
    requires exists k :: 0 <= k <= |ord| && ord' == ord[..k] + [hole] + ord[k..]
    ensures FreeTreeOk(list, limit, ord')
  {
    var k :| 0 <= k <= |ord| && ord' == ord[..k] + [hole] + ord[k..];
    InsertedNoDup(ord, k, hole);
  }

  /** The allocated buffers after a free. */
  lemma ReleasedAddrs(list: seq<Buffer>, base: nat, limit: nat, i: nat)
    requires Partition(list, base, limit) && i < |list| && !list[i].free
    ensures Addrs(Released(list, i), false) == Addrs(list, false) - {list[i].userData}
  {
    MarkAddrs(list, base, limit, i);
    var marked := list[i := list[i].(free := true)];
    MarkedPartition(list, base, limit, i);
    if MergesRight(list, i) {
      DropAddrs(marked, base, limit, i + 1);
    }
    var right := RightMerged(list, i);
    assert Addrs(right, false) == Addrs(marked, false);
    if MergesLeft(list, i) {
      RightMergedAt(list, base, limit, i);
      DropAddrs(right, base, limit, i);
    }
  }

  lemma MarkedPartition(list: seq<Buffer>, base: nat, limit: nat, i: nat)
    requires Partition(list, base, limit) && i < |list|
    ensures Partition(list[i := list[i].(free := true)], base, limit)
  {
    var marked := list[i := list[i].(free := true)];
    assert forall k {:trigger SizeAt(marked, limit, k)} :: 0 <= k < |list| ==> SizeAt(marked, limit, k) == SizeAt(list, limit, k);
  }

  lemma AllocTreeAfterFree(list: seq<Buffer>, base: nat, limit: nat, i: nat, t: Tree)
    requires Partition(list, base, limit) && i < |list| && !list[i].free && AllocTreeOk(list, InOrder(t))
    ensures AllocTreeOk(Released(list, i), InOrder(Erase(t, list[i].userData)))
  {
    ErasedOrder(list, limit, t, list[i].userData);
    ReleasedAddrs(list, base, limit, i);
  }
}
