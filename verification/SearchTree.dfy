/** Search trees over buffer addresses.

    The keys that order a tree are not stored in it, so everything here is stated about
    the in-order sequence of the nodes.  Two trees with the same in-order sequence are
    interchangeable for every contract of the allocator: recolouring and rotation, which
    keep that sequence, never matter. */
module SearchTree {
  import opened Common

  datatype Tree = Leaf | Node(left: Tree, addr: nat, right: Tree)

  function InOrder(t: Tree): seq<nat> {
    match t
    case Leaf => []
    case Node(l, a, r) => InOrder(l) + [a] + InOrder(r)
  }

  // ---------- a descent from the root, as the search loops make it ----------

  /** A descent: at each node, true goes right and false goes left. */
  type Path = seq<bool>

  predicate ValidPath(t: Tree, path: Path) {
    path == [] || (t.Node? && ValidPath(if path[0] then t.right else t.left, path[1..]))
  }

  function At(t: Tree, path: Path): Tree
    requires ValidPath(t, path)
  {
    if path == [] then t else At(if path[0] then t.right else t.left, path[1..])
  }

  /** The nodes in order before the subtree at path. */
  ghost function Before(t: Tree, path: Path): seq<nat>
    requires ValidPath(t, path)
  {
    if path == [] then []
    else if path[0] then InOrder(t.left) + [t.addr] + Before(t.right, path[1..])
    else Before(t.left, path[1..])
  }

  /** The nodes in order after the subtree at path. */
  ghost function After(t: Tree, path: Path): seq<nat>
    requires ValidPath(t, path)
  {
    if path == [] then []
    else if path[0] then After(t.right, path[1..])
    else After(t.left, path[1..]) + [t.addr] + InOrder(t.right)
  }

  lemma Regroup(a: seq<nat>, b: seq<nat>, c: seq<nat>, d: seq<nat>)
    ensures (a + b) + (c + d) == a + (b + c) + d
    ensures a + (b + c + d) == (a + b) + c + d
    ensures (a + b + c) + d == a + b + (c + d)
  {
  }

  lemma {:induction false} FocusSplits(t: Tree, path: Path)
    requires ValidPath(t, path)
    ensures InOrder(t) == Before(t, path) + InOrder(At(t, path)) + After(t, path)
  {
    if path != [] {
      var l, a, r := InOrder(t.left), [t.addr], InOrder(t.right);
      if path[0] {
        FocusSplits(t.right, path[1..]);
        Regroup(l + a, Before(t.right, path[1..]), InOrder(At(t, path)), After(t, path));
      } else {
        FocusSplits(t.left, path[1..]);
        Regroup(Before(t, path) + InOrder(At(t, path)), After(t.left, path[1..]), a, r);
      }
    }
  }

  /** One more step down. */
  lemma {:induction false} StepDown(t: Tree, path: Path, right: bool)
    requires ValidPath(t, path) && At(t, path).Node?
    ensures ValidPath(t, path + [right])
    ensures At(t, path + [right]) == if right then At(t, path).right else At(t, path).left
    ensures right ==> Before(t, path + [right]) == Before(t, path) + InOrder(At(t, path).left) + [At(t, path).addr]
    ensures right ==> After(t, path + [right]) == After(t, path)
    ensures !right ==> Before(t, path + [right]) == Before(t, path)
    ensures !right ==> After(t, path + [right]) == [At(t, path).addr] + InOrder(At(t, path).right) + After(t, path)
  {
    var longer := path + [right];
    if path == [] {
      assert longer == [right] && longer[1..] == [];
    } else {
      assert longer[0] == path[0] && longer[1..] == path[1..] + [right];
      var sub := if path[0] then t.right else t.left;
      StepDown(sub, path[1..], right);
      var n := At(sub, path[1..]);
      if path[0] && right {
        Regroup(InOrder(t.left) + [t.addr], Before(sub, path[1..]), InOrder(n.left), [n.addr]);
      } else if !path[0] && !right {
        Regroup([n.addr] + InOrder(n.right), After(sub, path[1..]), [t.addr], InOrder(t.right));
      }
    }
  }

  /** `rb_link_node` at the empty slot a descent has reached. */
  function Link(t: Tree, path: Path, addr: nat): Tree
    requires ValidPath(t, path) && At(t, path).Leaf?
  {
    if path == [] then Node(Leaf, addr, Leaf)
    else if path[0] then t.(right := Link(t.right, path[1..], addr))
    else t.(left := Link(t.left, path[1..], addr))
  }

  lemma {:induction false} LinkInOrder(t: Tree, path: Path, addr: nat)
    requires ValidPath(t, path) && At(t, path).Leaf?
    ensures InOrder(t) == Before(t, path) + After(t, path)
    ensures InOrder(Link(t, path, addr)) == Before(t, path) + [addr] + After(t, path)
  {
    if path != [] {
      var l, a, r := InOrder(t.left), [t.addr], InOrder(t.right);
      if path[0] {
        LinkInOrder(t.right, path[1..], addr);
        Regroup(l + a, Before(t.right, path[1..]), [addr], After(t, path));
        Regroup(l + a, Before(t.right, path[1..]), [], After(t, path));
      } else {
        LinkInOrder(t.left, path[1..], addr);
        Regroup(Before(t, path) + [addr], After(t.left, path[1..]), a, r);
        Regroup(Before(t, path), After(t.left, path[1..]), a, r);
      }
    }
  }

  // ---------- structural removal ----------

  /** Puts r after l. */
  function Join(l: Tree, r: Tree): Tree {
    match l
    case Leaf => r
    case Node(ll, a, lr) => Node(ll, a, Join(lr, r))
  }

  /** `rb_erase` of the node at addr; a tree without that node stays as it is. */
  function Erase(t: Tree, addr: nat): Tree {
    match t
    case Leaf => Leaf
    case Node(l, a, r) =>
      if a == addr then Join(l, r) else Node(Erase(l, addr), a, Erase(r, addr))
  }

  /** s without every occurrence of addr. */
  ghost function Without(s: seq<nat>, addr: nat): seq<nat> {
    if s == [] then []
    else if s[0] == addr then Without(s[1..], addr)
    else [s[0]] + Without(s[1..], addr)
  }

  lemma {:induction false} WithoutConcat(s: seq<nat>, t: seq<nat>, addr: nat)
    ensures Without(s + t, addr) == Without(s, addr) + Without(t, addr)
  {
    if s == [] {
      assert s + t == t;
    } else {
      assert (s + t)[0] == s[0] && (s + t)[1..] == s[1..] + t;
      WithoutConcat(s[1..], t, addr);
    }
  }

  lemma {:induction false} WithoutAbsent(s: seq<nat>, addr: nat)
    requires addr !in s
    ensures Without(s, addr) == s
  {
    if s != [] {
      WithoutAbsent(s[1..], addr);
    }
  }

  lemma {:induction false} WithoutMember(s: seq<nat>, addr: nat)
    ensures addr !in Without(s, addr)
    ensures forall x :: x in Without(s, addr) <==> x in s && x != addr
  {
    if s != [] {
      WithoutMember(s[1..], addr);
      assert forall x :: x in s <==> x == s[0] || x in s[1..];
    }
  }

  /** Removing one occurrence from a sequence without duplicates. */
  lemma {:induction false} WithoutSplit(s: seq<nat>, k: nat)
    requires NoDup(s) && k < |s|
    ensures Without(s, s[k]) == s[..k] + s[k + 1..]
  {
    assert s == s[..k] + ([s[k]] + s[k + 1..]);
    WithoutConcat(s[..k], [s[k]] + s[k + 1..], s[k]);
    WithoutAbsent(s[..k], s[k]);
    WithoutAbsent(s[k + 1..], s[k]);
    assert ([s[k]] + s[k + 1..])[1..] == s[k + 1..];
  }

  lemma {:induction false} JoinInOrder(l: Tree, r: Tree)
    ensures InOrder(Join(l, r)) == InOrder(l) + InOrder(r)
  {
    match l
    case Leaf =>
    case Node(ll, a, lr) => JoinInOrder(lr, r);
  }

  lemma WithoutMiddle(s: seq<nat>, a: nat, t: seq<nat>, addr: nat)
    ensures Without(s + [a] + t, addr) == Without(s, addr) + (if a == addr then [] else [a]) + Without(t, addr)
  {
    WithoutConcat(s + [a], t, addr);
    WithoutConcat(s, [a], addr);
    assert [a][1..] == [] && Without([], addr) == [];
    assert Without([a], addr) == if a == addr then [] else [a];
  }

  /** Where the pieces of a focused order are. */
  lemma PiecesAt(s: seq<nat>, pre: seq<nat>, mid: seq<nat>, post: seq<nat>, l: seq<nat>, a: nat, r: seq<nat>)
    requires s == pre + mid + post && mid == l + [a] + r
    ensures |pre| + |l| + 1 + |r| <= |s|
    ensures s[|pre| + |l|] == a
    ensures forall k :: 0 <= k < |l| ==> s[|pre| + k] == l[k]
    ensures forall k :: 0 <= k < |r| ==> s[|pre| + |l| + 1 + k] == r[k]
  {
    assert forall k :: 0 <= k < |mid| ==> s[|pre| + k] == mid[k];
    assert forall k :: 0 <= k < |r| ==> r[k] == mid[|l| + 1 + k];
  }

  lemma NoDupParts(s: seq<nat>, a: nat, t: seq<nat>)
    requires NoDup(s + [a] + t)
    ensures NoDup(s) && NoDup(t) && a !in s && a !in t
  {
    var u := s + [a] + t;
    assert u[|s|] == a;
    assert forall i :: 0 <= i < |s| ==> s[i] == u[i];
    assert forall i :: 0 <= i < |t| ==> t[i] == u[|s| + 1 + i];
  }

  lemma {:induction false} EraseInOrder(t: Tree, addr: nat)
    requires NoDup(InOrder(t))
    ensures InOrder(Erase(t, addr)) == Without(InOrder(t), addr)
  {
    match t
    case Leaf =>
    case Node(l, a, r) =>
      var ls, rs := InOrder(l), InOrder(r);
      NoDupParts(ls, a, rs);
      WithoutMiddle(ls, a, rs, addr);
      if a == addr {
        JoinInOrder(l, r);
        WithoutAbsent(ls, addr);
        WithoutAbsent(rs, addr);
        assert ls + [] + rs == ls + rs;
      } else {
        EraseInOrder(l, addr);
        EraseInOrder(r, addr);
      }
  }
}
