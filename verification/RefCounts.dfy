/** What each operation does to the counts that the rest of the driver can observe; a ref or
    a node that does not exist counts as 0. */
module RefCounts {
  import opened Common
  import opened RefGraph
  import opened RefOps

  function StrongOf(s: State, p: nat, n: nat): nat {
    if (p, n) in s.byNode && s.byNode[(p, n)] in s.refs then s.refs[s.byNode[(p, n)]].strong else 0
  }

  function WeakOf(s: State, p: nat, n: nat): nat {
    if (p, n) in s.byNode && s.byNode[(p, n)] in s.refs then s.refs[s.byNode[(p, n)]].weak else 0
  }

  function LocalStrongOf(s: State, n: nat): int {
    if n in s.nodes then s.nodes[n].localStrong else 0
  }

  function LocalWeakOf(s: State, n: nat): int {
    if n in s.nodes then s.nodes[n].localWeak else 0
  }

  function TempsOf(s: State, n: nat): int {
    if n in s.nodes then s.nodes[n].temps else 0
  }

  /** The reference counts change for process p and node n at most, by the given amounts. */
  ghost predicate RefsShift(s: State, s': State, p: nat, n: nat, strong: int, weak: int) {
    forall q: nat, m: nat ::
      && StrongOf(s', q, m) == StrongOf(s, q, m) + (if q == p && m == n then strong else 0)
      && WeakOf(s', q, m) == WeakOf(s, q, m) + (if q == p && m == n then weak else 0)
  }

  ghost predicate LocalsShift(s: State, s': State, n: nat, strong: int, weak: int, temps: int) {
    forall m: nat ::
      && LocalStrongOf(s', m) == LocalStrongOf(s, m) + (if m == n then strong else 0)
      && LocalWeakOf(s', m) == LocalWeakOf(s, m) + (if m == n then weak else 0)
      && TempsOf(s', m) == TempsOf(s, m) + (if m == n then temps else 0)
  }

  ghost predicate SameCounts(s: State, s': State) {
    RefsShift(s, s', 0, 0, 0, 0) && LocalsShift(s, s', 0, 0, 0, 0)
  }

  /** A node-only step. */
  lemma SettleCounts(s: State, n: nat, x: Node, strong: bool, internal: bool, dues: Dues)
    requires n in s.nodes && (strong && internal ==> x.internalStrong > 0)
    requires x.proc.None? ==> x.work == Idle(false)
    requires x.proc.Some? ==> Announced(x) && (x.hasStrong ==> x.hasWeak)
    ensures var s' := Settle(s, n, DecN(x, strong, internal), dues);
            && LocalsShift(s, s', n,
                 x.localStrong - One(strong && !internal) - s.nodes[n].localStrong,
                 x.localWeak - One(!strong && !internal) - s.nodes[n].localWeak,
                 x.temps - s.nodes[n].temps)
  {
    DecNFacts(x, strong, internal);
  }

  lemma SettleRefs(s: State, n: nat, d: Dec, dues: Dues)
    requires n in s.nodes
    ensures RefsShift(s, Settle(s, n, d, dues), 0, 0, 0, 0)
  {
  }

  lemma TakeTempCounts(s: State, n: nat)
    requires n in s.nodes
    ensures RefsShift(s, TakeTemp(s, n), 0, 0, 0, 0) && LocalsShift(s, TakeTemp(s, n), n, 0, 0, 1)
  {
  }

  lemma DropTempCounts(s: State, n: nat)
    requires Inv(s) && n in s.nodes && s.dues.temps[n] > 0
    ensures RefsShift(s, DropTemp(s, n), 0, 0, 0, 0) && LocalsShift(s, DropTemp(s, n), n, 0, 0, -1)
  {
    hide Inv;
    var d := DecN(s.nodes[n].(temps := s.nodes[n].temps - 1), false, true);
    SettleRefs(s, n, d, s.dues.(temps := s.dues.temps - multiset{n}));
  }

  lemma AddObjectCounts(s: State, n: nat, strong: bool)
    requires Live(s, n)
    ensures RefsShift(s, AddObject(s, n, strong), 0, 0, 0, 0)
    ensures LocalsShift(s, AddObject(s, n, strong), n, One(strong), One(!strong), 0)
  {
  }

  lemma DropObjectCounts(s: State, n: nat, strong: bool)
    requires Inv(s) && Live(s, n)
    ensures RefsShift(s, DropObject(s, n, strong), 0, 0, 0, 0)
    ensures LocalsShift(s, DropObject(s, n, strong), n, 0 - One(strong), 0 - One(!strong), 0)
  {
    hide Inv, Announced;
    InvNode(s, n);
    SettleCounts(s, n, s.nodes[n], strong, false, DroppedDue(s.dues, n, strong));
    SettleRefs(s, n, DecN(s.nodes[n], strong, false), DroppedDue(s.dues, n, strong));
  }

  lemma TakeTargetCounts(s: State, n: nat)
    requires Live(s, n)
    ensures RefsShift(s, TakeTarget(s, n), 0, 0, 0, 0) && LocalsShift(s, TakeTarget(s, n), n, 1, 0, 1)
  {
  }

  lemma DropTargetCounts(s: State, n: nat)
    requires Inv(s) && Live(s, n)
    ensures RefsShift(s, DropTarget(s, n), 0, 0, 0, 0) && LocalsShift(s, DropTarget(s, n), n, -1, 0, 0)
  {
    hide Inv, Announced;
    InvNode(s, n);
    SettleCounts(s, n, s.nodes[n], true, false, s.dues.(targets := s.dues.targets - multiset{n}));
    SettleRefs(s, n, DecN(s.nodes[n], true, false), s.dues.(targets := s.dues.targets - multiset{n}));
  }

  lemma NewNodeCounts(s: State, p: nat, ptr: nat, cookie: nat)
    requires s.nextId !in s.nodes
    ensures RefsShift(s, NewNode(s, p, ptr, cookie), 0, 0, 0, 0) && LocalsShift(s, NewNode(s, p, ptr, cookie), s.nextId, 0, 0, 1)
  {
  }

  /** The tree of refs by node finds refs of that process and node only. */
  ghost predicate ByNodeOk(s: State) {
    forall k :: k in s.byNode ==> s.byNode[k] in s.refs && s.refs[s.byNode[k]].proc == k.0 && s.refs[s.byNode[k]].node == k.1
  }

  lemma InvByNode(s: State)
    requires Inv(s)
    ensures ByNodeOk(s)
    ensures forall r :: r in s.refs ==> (s.refs[r].proc, s.refs[r].node) in s.byNode && s.byNode[(s.refs[r].proc, s.refs[r].node)] == r && s.refs[r].node in s.nodes
  {
    hide NodeOk;
    forall r | r in s.refs
      ensures RefOk(s, r)
    {
    }
  }

  lemma AddRefCounts(s: State, p: nat, n: nat)
    requires n in s.nodes && ByNodeOk(s) && (p, n) !in s.byNode && s.nextId !in s.refs
    ensures SameCounts(s, AddRef(s, p, n))
  {
  }

  /** Changing the counts of one ref. */
  lemma OneRefCounts(s: State, s': State, r: nat)
    requires ByNodeOk(s) && r in s.refs && r in s'.refs && s'.byNode == s.byNode && s'.refs == s.refs[r := s'.refs[r]]
    requires s'.refs[r] == s.refs[r].(strong := s'.refs[r].strong, weak := s'.refs[r].weak)
    requires (s.refs[r].proc, s.refs[r].node) in s.byNode && s.byNode[(s.refs[r].proc, s.refs[r].node)] == r
    ensures RefsShift(s, s', s.refs[r].proc, s.refs[r].node, s'.refs[r].strong - s.refs[r].strong, s'.refs[r].weak - s.refs[r].weak)
  {
  }

  lemma SameLocals(s: State, s': State, n: nat)
    requires n in s.nodes && n in s'.nodes && s'.nodes == s.nodes[n := s'.nodes[n]]
    requires var x, y := s.nodes[n], s'.nodes[n]; y.localStrong == x.localStrong && y.localWeak == x.localWeak && y.temps == x.temps
    ensures LocalsShift(s, s', 0, 0, 0, 0)
  {
  }

  lemma IncRefCounts(s: State, r: nat, strong: bool, todo: Option<nat>)
    requires Inv(s) && r in s.refs && s.refs[r].node in s.nodes
    ensures var inc := IncRef(s, r, strong, todo);
            && LocalsShift(s, inc.state, 0, 0, 0, 0)
            && (inc.ok ==> RefsShift(s, inc.state, s.refs[r].proc, s.refs[r].node, One(strong), One(!strong)))
            && (!inc.ok ==> inc.state == s)
  {
    hide Inv, RefsShift, LocalsShift;
    InvByNode(s);
    var inc := IncRef(s, r, strong, todo);
    SameLocals(s, s, s.refs[r].node);
    if inc.ok {
      OneRefCounts(s, inc.state, r);
      SameLocals(s, inc.state, s.refs[r].node);
    }
  }

  lemma NoShift(s: State)
    ensures SameCounts(s, s)
  {
  }

  lemma IncRefForNodeCounts(s: State, p: nat, n: nat, strong: bool, todo: Option<nat>)
    requires Inv(s) && n in s.nodes
    ensures var inc := IncRefForNode(s, p, n, strong, todo);
            && LocalsShift(s, inc.state, 0, 0, 0, 0)
            && (inc.ok ==> RefsShift(s, inc.state, p, n, One(strong), One(!strong)))
            && (!inc.ok ==> RefsShift(s, inc.state, 0, 0, 0, 0))
  {
    hide Inv, RefsShift, LocalsShift, AddRef, IncRef;
    NoShift(s);
    if (p, n) in s.byNode {
      ByNodeIsRef(s, p, n);
      IncRefCounts(s, s.byNode[(p, n)], strong, todo);
    } else {
      AddRefKeepsInv(s, p, n);
      InvByNode(s);
      AddRefCounts(s, p, n);
      AddedIsThere(s, p, n);
      var s1 := AddRef(s, p, n);
      IncRefCounts(s1, s.nextId, strong, todo);
      var inc := IncRef(s1, s.nextId, strong, todo);
      LocalsAdd(s, s1, inc.state, 0, 0, 0, 0);
      if inc.ok {
        RefsAdd(s, s1, inc.state, p, n, One(strong), One(!strong));
      } else {
        RefsAdd(s, s1, inc.state, 0, 0, 0, 0);
      }
    }
  }

  lemma AddedIsThere(s: State, p: nat, n: nat)
    requires n in s.nodes
    ensures var s1 := AddRef(s, p, n); s.nextId in s1.refs && s1.refs[s.nextId].proc == p && s1.refs[s.nextId].node == n && n in s1.nodes
  {
  }

  /** A step without effect on the counts, then one with. */
  lemma RefsAdd(a: State, b: State, c: State, p: nat, n: nat, strong: int, weak: int)
    requires RefsShift(a, b, 0, 0, 0, 0) && RefsShift(b, c, p, n, strong, weak)
    ensures RefsShift(a, c, p, n, strong, weak)
  {
  }

  lemma RefsThen(a: State, b: State, c: State, p: nat, n: nat, strong: int, weak: int)
    requires RefsShift(a, b, p, n, strong, weak) && RefsShift(b, c, 0, 0, 0, 0)
    ensures RefsShift(a, c, p, n, strong, weak)
  {
  }

  lemma LocalsAdd(a: State, b: State, c: State, n: nat, strong: int, weak: int, temps: int)
    requires LocalsShift(a, b, 0, 0, 0, 0) && LocalsShift(b, c, n, strong, weak, temps)
    ensures LocalsShift(a, c, n, strong, weak, temps)
  {
  }

  lemma LocalsSum(a: State, b: State, c: State, n: nat, s1: int, w1: int, t1: int, s2: int, w2: int, t2: int)
    requires LocalsShift(a, b, n, s1, w1, t1) && LocalsShift(b, c, n, s2, w2, t2)
    ensures LocalsShift(a, c, n, s1 + s2, w1 + w2, t1 + t2)
  {
  }

  lemma TakeOutRefs(s: State, r: nat)
    requires r in s.refs && s.refs[r].node in s.nodes && ByNodeOk(s)
    requires (s.refs[r].proc, s.refs[r].node) in s.byNode && s.byNode[(s.refs[r].proc, s.refs[r].node)] == r
    ensures RefsShift(s, TakeOut(s, r), s.refs[r].proc, s.refs[r].node, 0 - s.refs[r].strong, 0 - s.refs[r].weak)
  {
    hide DecN;
  }

  lemma TakeOutLocals(s: State, r: nat)
    requires r in s.refs && s.refs[r].node in s.nodes
    ensures LocalsShift(s, TakeOut(s, r), 0, 0, 0, 0)
  {
    var x := s.refs[r];
    var y := s.nodes[x.node].(list := s.nodes[x.node].list - {r});
    var d := DecN(y, false, true);
    assert d.Gone? ==> y.localStrong == 0 && y.localWeak == 0 && y.temps == 0;
  }

  lemma TakeOutCounts(s: State, r: nat)
    requires Inv(s) && r in s.refs && s.refs[r].node in s.nodes && s.refs[r].strong == 0 && s.refs[r].weak == 0
    ensures RefsShift(s, TakeOut(s, r), 0, 0, 0, 0) && LocalsShift(s, TakeOut(s, r), 0, 0, 0, 0)
  {
    hide Inv, TakeOut, LocalsShift;
    InvByNode(s);
    TakeOutLocals(s, r);
    TakeOutRefs(s, r);
  }

  lemma LowerStrongCounts(s: State, r: nat, strong: nat)
    requires Inv(s) && r in s.refs && Counted(s, r) && strong < s.refs[r].strong
    ensures var s' := LowerStrong(s, r, strong);
            && RefsShift(s, s', s.refs[r].proc, s.refs[r].node, strong - s.refs[r].strong, 0)
            && LocalsShift(s, s', 0, 0, 0, 0)
  {
    hide Inv, RefsShift, LocalsShift;
    InvByNode(s);
    var s' := LowerStrong(s, r, strong);
    OneRefCounts(s, s', r);
    SameLocals(s, s', s.refs[r].node);
  }

  /** A decrement takes one off the ref's count, or changes nothing when it is 0 already. */
  lemma DecRefCounts(s: State, r: nat, strong: bool)
    requires Inv(s) && r in s.refs
    ensures var s' := DecRef(s, r, strong); var x := s.refs[r];
            && LocalsShift(s, s', 0, 0, 0, 0)
            && (if (if strong then x.strong else x.weak) > 0 then RefsShift(s, s', x.proc, x.node, 0 - One(strong), 0 - One(!strong)) else s' == s)
  {
    hide Inv, RefsShift, LocalsShift, LowerStrong, TakeOut;
    NoShift(s);
    InvRef(s, r);
    StrongIsCounted(s, r);
    var x := s.refs[r];
    if strong && x.strong > 0 {
      LowerStrongCounts(s, r, x.strong - 1);
      LowerStrongKeepsInv(s, r, x.strong - 1);
      LoweredRef(s, r, x.strong - 1);
      var s1 := LowerStrong(s, r, x.strong - 1);
      if x.strong == 1 && x.weak == 0 {
        TakeOutCounts(s1, r);
        RefsThen(s, s1, TakeOut(s1, r), x.proc, x.node, -1, 0);
        LocalsAdd(s, s1, TakeOut(s1, r), 0, 0, 0, 0);
      }
    } else if !strong && x.weak > 0 {
      var s1 := s.(refs := s.refs[r := x.(weak := x.weak - 1)]);
      LowerWeakCounts(s, r);
      if x.strong == 0 && x.weak == 1 {
        LowerWeakKeepsInv(s, r);
        TakeOutCounts(s1, r);
        RefsThen(s, s1, TakeOut(s1, r), x.proc, x.node, 0, -1);
        LocalsAdd(s, s1, TakeOut(s1, r), 0, 0, 0, 0);
      }
    }
  }

  lemma LoweredRef(s: State, r: nat, strong: nat)
    requires r in s.refs && Counted(s, r) && strong < s.refs[r].strong
    ensures var s1 := LowerStrong(s, r, strong);
            r in s1.refs && s1.refs[r] == s.refs[r].(strong := strong) && s.refs[r].node in s1.nodes
  {
  }

  lemma LowerWeakCounts(s: State, r: nat)
    requires Inv(s) && r in s.refs && s.refs[r].weak > 0
    ensures var s1 := s.(refs := s.refs[r := s.refs[r].(weak := s.refs[r].weak - 1)]);
            RefsShift(s, s1, s.refs[r].proc, s.refs[r].node, 0, -1) && LocalsShift(s, s1, 0, 0, 0, 0)
  {
    hide Inv, RefsShift, LocalsShift;
    InvByNode(s);
    var s1 := s.(refs := s.refs[r := s.refs[r].(weak := s.refs[r].weak - 1)]);
    OneRefCounts(s, s1, r);
    assert s1.nodes == s.nodes[s.refs[r].node := s1.nodes[s.refs[r].node]];
    SameLocals(s, s1, s.refs[r].node);
  }

  lemma LowerWeakKeepsInv(s: State, r: nat)
    requires Inv(s) && r in s.refs && s.refs[r].weak > 0
    ensures Inv(s.(refs := s.refs[r := s.refs[r].(weak := s.refs[r].weak - 1)]))
  {
    hide Inv;
    InvRef(s, r);
    var x := s.refs[r];
    InvNode(s, x.node);
    var s1 := s.(refs := s.refs[r := x.(weak := x.weak - 1)]);
    assert s1.nodes == s1.nodes[x.node := s1.nodes[x.node]];
    RefChanged(s, s1, x.node, r);
  }
}
