/** What each operation on the graph does to the entitlements it books, and to the nodes that
    have lost their process. */
module RefEffects {
  import opened Common
  import opened RefGraph
  import opened RefOps
  import opened RefCounts

  function At(m: nat, n: nat, d: int): int {
    if m == n then d else 0
  }

  /** Something still keeps a node without a process, or should: a ref, a temporary reference,
      or a local count that is not 0. */
  predicate Sustained(x: Node) {
    x.list != {} || x.temps != 0 || x.localStrong != 0 || x.localWeak != 0
  }

  /** The entitlements to node n change by these amounts, all others stay; a node that goes has
      none left, and the names of the others stay. */
  ghost predicate Shifts(g: State, g': State, n: nat, targets: int, strong: int, weak: int, temps: int) {
    && g'.ctx == g.ctx && g.nextId <= g'.nextId && g'.dues.managers == g.dues.managers
    && (forall m :: m in g'.nodes ==> m in g.nodes && g'.nodes[m].proc == g.nodes[m].proc && g'.nodes[m].ptr == g.nodes[m].ptr)
    && (forall m :: m in g'.nodes ==>
          && g'.dues.temps[m] == g.dues.temps[m] + At(m, n, temps)
          && (Live(g, m) ==>
                && g'.dues.targets[m] == g.dues.targets[m] + At(m, n, targets)
                && g'.dues.strongObjects[m] == g.dues.strongObjects[m] + At(m, n, strong)
                && g'.dues.weakObjects[m] == g.dues.weakObjects[m] + At(m, n, weak)))
    && (forall m :: m in g.nodes && m !in g'.nodes ==>
          && g.dues.temps[m] + At(m, n, temps) == 0
          && (Live(g, m) ==>
                && g.dues.targets[m] + At(m, n, targets) == 0
                && g.dues.strongObjects[m] + At(m, n, strong) == 0
                && g.dues.weakObjects[m] + At(m, n, weak) == 0))
    && (forall k :: k in g'.byPtr ==> k in g.byPtr && g'.byPtr[k] == g.byPtr[k])
    && (forall k :: k in g.byPtr && g.byPtr[k] in g'.nodes ==> k in g'.byPtr)
  }

  /** Nodes without a process: what is given back lowers their local counts, and a decrement
      frees them as soon as nothing keeps them. */
  ghost predicate DeadShift(g: State, g': State, n: nat, strong: int, weak: int) {
    && (forall m :: m in g'.nodes && g'.nodes[m].proc.None? && m in g.nodes ==>
          && g'.nodes[m].localStrong == g.nodes[m].localStrong + At(m, n, strong)
          && g'.nodes[m].localWeak == g.nodes[m].localWeak + At(m, n, weak)
          && (Sustained(g.nodes[m]) ==> Sustained(g'.nodes[m])))
    && (forall m :: m in g.nodes && m !in g'.nodes && g.nodes[m].proc.None? ==>
          g.nodes[m].localStrong + At(m, n, strong) == 0 && g.nodes[m].localWeak + At(m, n, weak) == 0)
  }

  ghost predicate Effect(g: State, g': State, n: nat, targets: int, strong: int, weak: int, temps: int) {
    Inv(g') && Shifts(g, g', n, targets, strong, weak, temps) && DeadShift(g, g', n, targets + strong, weak)
  }

  lemma NoEffect(g: State)
    requires Inv(g)
    ensures Effect(g, g, 0, 0, 0, 0, 0)
  {
  }

  lemma ShiftsThen(a: State, b: State, c: State)
    requires Shifts(a, b, 0, 0, 0, 0, 0) && Shifts(b, c, 0, 0, 0, 0, 0)
    ensures Shifts(a, c, 0, 0, 0, 0, 0)
  {
  }

  lemma DeadShiftThen(a: State, b: State, c: State)
    requires DeadShift(a, b, 0, 0, 0) && DeadShift(b, c, 0, 0, 0)
    requires forall m :: m in c.nodes ==> m in b.nodes && c.nodes[m].proc == b.nodes[m].proc
    requires forall m :: m in b.nodes ==> m in a.nodes && b.nodes[m].proc == a.nodes[m].proc
    ensures DeadShift(a, c, 0, 0, 0)
  {
    hide Sustained;
  }

  lemma EffectThen(a: State, b: State, c: State)
    requires Effect(a, b, 0, 0, 0, 0, 0) && Effect(b, c, 0, 0, 0, 0, 0)
    ensures Effect(a, c, 0, 0, 0, 0, 0)
  {
    ShiftedNodes(a, b, 0, 0, 0, 0, 0);
    ShiftedNodes(b, c, 0, 0, 0, 0, 0);
    hide Inv, Shifts, DeadShift;
    ShiftsThen(a, b, c);
    DeadShiftThen(a, b, c);
  }

  lemma ShiftedNodes(g: State, g': State, n: nat, targets: int, strong: int, weak: int, temps: int)
    requires Shifts(g, g', n, targets, strong, weak, temps)
    ensures forall m :: m in g'.nodes ==> m in g.nodes && g'.nodes[m].proc == g.nodes[m].proc
  {
  }

  lemma KeptSettle(g: State, n: nat, x: Node, dues: Dues, targets: int, strong: int, weak: int, temps: int)
    requires n in g.nodes && x.proc == g.nodes[n].proc && x.ptr == g.nodes[n].ptr
    requires dues.managers == g.dues.managers && OnlyDuesOf(g.dues, dues, n)
    requires dues.temps[n] == g.dues.temps[n] + temps
    requires Live(g, n) ==>
               && dues.targets[n] == g.dues.targets[n] + targets
               && dues.strongObjects[n] == g.dues.strongObjects[n] + strong
               && dues.weakObjects[n] == g.dues.weakObjects[n] + weak
    ensures Shifts(g, Settle(g, n, Kept(x), dues), n, targets, strong, weak, temps)
  {
  }

  lemma GoneSettle(g: State, n: nat, dues: Dues, targets: int, strong: int, weak: int, temps: int)
    requires n in g.nodes && PtrOk(g, n)
    requires dues.managers == g.dues.managers && OnlyDuesOf(g.dues, dues, n)
    requires dues.temps[n] == g.dues.temps[n] + temps == 0
    requires Live(g, n) ==>
               && dues.targets[n] == g.dues.targets[n] + targets == 0
               && dues.strongObjects[n] == g.dues.strongObjects[n] + strong == 0
               && dues.weakObjects[n] == g.dues.weakObjects[n] + weak == 0
    ensures Shifts(g, Settle(g, n, Gone, dues), n, targets, strong, weak, temps)
  {
    assert forall m :: m in Settle(g, n, Gone, dues).nodes ==> m in g.nodes && m != n;
  }

  /** Storing the outcome of a decrement of node n. */
  lemma SettleEffect(g: State, n: nat, d: Dec, dues: Dues, targets: int, strong: int, weak: int, temps: int)
    requires n in g.nodes && PtrOk(g, n)
    requires d.Kept? ==> d.node.proc == g.nodes[n].proc && d.node.ptr == g.nodes[n].ptr
    requires dues.managers == g.dues.managers && OnlyDuesOf(g.dues, dues, n)
    requires dues.temps[n] == g.dues.temps[n] + temps
    requires Live(g, n) ==>
               && dues.targets[n] == g.dues.targets[n] + targets
               && dues.strongObjects[n] == g.dues.strongObjects[n] + strong
               && dues.weakObjects[n] == g.dues.weakObjects[n] + weak
    requires d.Gone? ==> dues.temps[n] == 0 && (Live(g, n) ==> dues.targets[n] == 0 && dues.strongObjects[n] == 0 && dues.weakObjects[n] == 0)
    ensures Shifts(g, Settle(g, n, d, dues), n, targets, strong, weak, temps)
  {
    hide Shifts, OnlyDuesOf, PtrOk;
    match d
    case Kept(x) => KeptSettle(g, n, x, dues, targets, strong, weak, temps);
    case Gone => GoneSettle(g, n, dues, targets, strong, weak, temps);
  }

  /** The name of a live node, and of no other. */
  ghost predicate PtrOk(g: State, n: nat)
    requires n in g.nodes
  {
    && (forall k :: k in g.byPtr && g.byPtr[k] == n ==> g.nodes[n].proc == Some(k.0) && g.nodes[n].ptr == k.1)
    && (g.nodes[n].proc.Some? ==> (g.nodes[n].proc.value, g.nodes[n].ptr) in g.byPtr && g.byPtr[(g.nodes[n].proc.value, g.nodes[n].ptr)] == n)
  }

  lemma InvPtr(g: State, n: nat)
    requires Inv(g) && n in g.nodes
    ensures PtrOk(g, n)
  {
    hide LocalOk, Announced;
    assert NodeOk(g, n);
  }

  /** A decrement of a node without a process leaves it only if something keeps it. */
  lemma DecDead(x: Node, strong: bool, internal: bool)
    requires (strong && internal ==> x.internalStrong > 0) && x.proc.None?
    requires strong && x.internalStrong > One(internal) ==> x.list != {}
    ensures var d := DecN(x, strong, internal);
            && (d.Kept? ==>
                  && d.node.localStrong == x.localStrong - One(strong && !internal)
                  && d.node.localWeak == x.localWeak - One(!strong && !internal)
                  && Sustained(d.node))
            && (d.Gone? ==> x.localStrong == One(strong && !internal) && x.localWeak == One(!strong && !internal))
  {
  }

  lemma DeadSettled(g: State, n: nat, d: Dec, dues: Dues, ds: int, dw: int)
    requires n in g.nodes && (d.Kept? ==> d.node.proc == g.nodes[n].proc)
    requires g.nodes[n].proc.None? && d.Kept? ==>
               d.node.localStrong == g.nodes[n].localStrong + ds && d.node.localWeak == g.nodes[n].localWeak + dw && Sustained(d.node)
    requires g.nodes[n].proc.None? && d.Gone? ==> g.nodes[n].localStrong + ds == 0 && g.nodes[n].localWeak + dw == 0
    ensures DeadShift(g, Settle(g, n, d, dues), n, ds, dw)
  {
    hide Sustained;
  }

  lemma SettleDead(g: State, n: nat, x: Node, strong: bool, internal: bool, dues: Dues, ds: int, dw: int)
    requires n in g.nodes && (strong && internal ==> x.internalStrong > 0) && x.proc == g.nodes[n].proc
    requires strong && x.internalStrong > One(internal) ==> x.list != {}
    requires x.localStrong - One(strong && !internal) == g.nodes[n].localStrong + ds
    requires x.localWeak - One(!strong && !internal) == g.nodes[n].localWeak + dw
    ensures DeadShift(g, Settle(g, n, DecN(x, strong, internal), dues), n, ds, dw)
  {
    DecKeepsName(x, strong, internal);
    if x.proc.None? {
      DecDead(x, strong, internal);
    }
    hide DecN, Sustained, DeadShift;
    DeadSettled(g, n, DecN(x, strong, internal), dues, ds, dw);
  }

  lemma SettleLive(g: State, n: nat, d: Dec, dues: Dues, strong: int, weak: int)
    requires Live(g, n) && (d.Kept? ==> d.node.proc.Some?)
    ensures DeadShift(g, Settle(g, n, d, dues), n, strong, weak)
  {
  }

  lemma StrongHasList(g: State, n: nat)
    requires n in g.nodes && NodeOk(g, n) && g.nodes[n].internalStrong > 0
    ensures g.nodes[n].list != {}
  {
    assert StrongRefs(g.refs, {}) == {};
  }

  // ---------- operations on one node ----------

  lemma TakeTempEffect(g: State, n: nat)
    requires Inv(g) && n in g.nodes
    ensures Effect(g, TakeTemp(g, n), n, 0, 0, 0, 1)
  {
    hide Inv, Shifts, NodeOk;
    TakeTempKeepsInv(g, n);
    InvNode(g, n);
    TempsAreDue(g, n);
    KeptShifts(g, TakeTemp(g, n), n, 0, 0, 0, 1);
  }

  /** A node that a decrement of nothing frees is owed nothing. */
  lemma GoneIsOwedNothing(g: State, n: nat, x: Node)
    requires n in g.nodes && NodeOk(g, n) && x == g.nodes[n].(temps := x.temps, list := x.list) && DecN(x, false, true).Gone?
    ensures x.temps == 0
    ensures g.nodes[n].proc.Some? ==> g.dues.targets[n] == 0 && g.dues.strongObjects[n] == 0 && g.dues.weakObjects[n] == 0
  {
    hide Announced;
  }

  lemma DropTempEffect(g: State, n: nat)
    requires Inv(g) && n in g.nodes && g.dues.temps[n] > 0
    ensures Effect(g, DropTemp(g, n), n, 0, 0, 0, -1)
  {
    hide Inv, NodeOk;
    DropTempKeepsInv(g, n);
    InvNode(g, n);
    InvPtr(g, n);
    TempsAreDue(g, n);
    var x := g.nodes[n].(temps := g.nodes[n].temps - 1);
    var dues := g.dues.(temps := g.dues.temps - multiset{n});
    var d := DecN(x, false, true);
    if d.Gone? {
      GoneIsOwedNothing(g, n, x);
    }
    DecKeepsName(x, false, true);
    SettleDead(g, n, x, false, true, dues, 0, 0);
    hide DecN, PtrOk;
    SettleEffect(g, n, d, dues, 0, 0, 0, -1);
  }

  lemma DecKeepsName(x: Node, strong: bool, internal: bool)
    requires strong && internal ==> x.internalStrong > 0
    ensures DecN(x, strong, internal).Kept? ==> DecN(x, strong, internal).node.proc == x.proc && DecN(x, strong, internal).node.ptr == x.ptr
  {
  }

  lemma IncKeepsName(x: Node, isCtx: bool, strong: bool, internal: bool, todo: Option<nat>)
    ensures var y := IncN(x, isCtx, strong, internal, todo).node;
            y.proc == x.proc && y.ptr == x.ptr && y.list == x.list && y.temps == x.temps
    ensures internal ==> var y := IncN(x, isCtx, strong, internal, todo).node; y.localStrong == x.localStrong && y.localWeak == x.localWeak
  {
  }

  /** A step that leaves every node but n, and all names, as they are. */
  lemma KeptEffect(g: State, g': State, n: nat, targets: int, strong: int, weak: int, temps: int)
    requires n in g.nodes && n in g'.nodes && g' == g.(nodes := g.nodes[n := g'.nodes[n]], dues := g'.dues)
    requires g'.nodes[n].proc == g.nodes[n].proc && g'.nodes[n].ptr == g.nodes[n].ptr
    requires g'.dues.managers == g.dues.managers && OnlyDuesOf(g.dues, g'.dues, n)
    requires g'.dues.temps[n] == g.dues.temps[n] + temps
    requires g'.dues.targets[n] == g.dues.targets[n] + targets
    requires g'.dues.strongObjects[n] == g.dues.strongObjects[n] + strong
    requires g'.dues.weakObjects[n] == g.dues.weakObjects[n] + weak
    requires g.nodes[n].proc.Some? && Inv(g')
    ensures Effect(g, g', n, targets, strong, weak, temps)
  {
    hide Inv;
    KeptShifts(g, g', n, targets, strong, weak, temps);
    hide Shifts, OnlyDuesOf;
  }

  lemma KeptShifts(g: State, g': State, n: nat, targets: int, strong: int, weak: int, temps: int)
    requires n in g.nodes && n in g'.nodes && g' == g.(nodes := g.nodes[n := g'.nodes[n]], dues := g'.dues)
    requires g'.nodes[n].proc == g.nodes[n].proc && g'.nodes[n].ptr == g.nodes[n].ptr
    requires g'.dues.managers == g.dues.managers && OnlyDuesOf(g.dues, g'.dues, n)
    requires g'.dues.temps[n] == g.dues.temps[n] + temps
    requires g'.dues.targets[n] == g.dues.targets[n] + targets
    requires g'.dues.strongObjects[n] == g.dues.strongObjects[n] + strong
    requires g'.dues.weakObjects[n] == g.dues.weakObjects[n] + weak
    ensures Shifts(g, g', n, targets, strong, weak, temps)
  {
    forall m | m in g'.nodes && m != n
      ensures m in g.nodes && g'.nodes[m] == g.nodes[m]
    {
    }
  }

  lemma AddObjectEffect(g: State, n: nat, strong: bool)
    requires Inv(g) && Live(g, n)
    ensures Effect(g, AddObject(g, n, strong), n, 0, One(strong), One(!strong), 0)
  {
    hide Inv;
    AddObjectKeepsInv(g, n, strong);
    IncKeepsName(g.nodes[n], IsCtx(g, n), strong, false, None);
    hide IncN;
    KeptEffect(g, AddObject(g, n, strong), n, 0, One(strong), One(!strong), 0);
  }

  lemma TakeTargetEffect(g: State, n: nat)
    requires Inv(g) && Live(g, n)
    ensures Effect(g, TakeTarget(g, n), n, 1, 0, 0, 1)
  {
    hide Inv;
    TakeTargetKeepsInv(g, n);
    IncKeepsName(g.nodes[n], IsCtx(g, n), true, false, None);
    hide IncN;
    KeptEffect(g, TakeTarget(g, n), n, 1, 0, 0, 1);
  }

  lemma DropObjectEffect(g: State, n: nat, strong: bool)
    requires Inv(g) && n in g.nodes && g.dues.temps[n] > 0
    requires Live(g, n) ==> if strong then g.dues.strongObjects[n] > 0 else g.dues.weakObjects[n] > 0
    ensures Effect(g, DropObject(g, n, strong), n, 0, 0 - One(strong), 0 - One(!strong), 0)
    ensures n in DropObject(g, n, strong).nodes
  {
    hide Inv, NodeOk, DroppedDue, OnlyDuesOf, PtrOk, Shifts, DeadShift;
    DropObjectKeepsInv(g, n, strong);
    assert DecN(g.nodes[n], strong, false).Kept?;
    hide Settle;
    InvNode(g, n);
    InvPtr(g, n);
    if g.nodes[n].internalStrong > 0 {
      StrongHasList(g, n);
    }
    var dues := DroppedDue(g.dues, n, strong);
    DroppedDues(g, n, strong);
    var d := DecN(g.nodes[n], strong, false);
    DecKeepsName(g.nodes[n], strong, false);
    SettleDead(g, n, g.nodes[n], strong, false, dues, 0 - One(strong), 0 - One(!strong));
    hide DecN;
    SettleEffect(g, n, d, dues, 0, 0 - One(strong), 0 - One(!strong), 0);
  }

  lemma TargetGone(g: State, n: nat)
    requires n in g.nodes && NodeOk(g, n) && DecN(g.nodes[n], true, false).Gone?
    ensures g.dues.temps[n] == 0
    ensures g.nodes[n].proc.Some? ==> g.dues.targets[n] <= 1 && g.dues.strongObjects[n] <= 1 - g.dues.targets[n] && g.dues.weakObjects[n] == 0
  {
    hide Announced;
  }

  lemma DropTargetEffect(g: State, n: nat)
    requires Inv(g) && n in g.nodes && (Live(g, n) ==> g.dues.targets[n] > 0)
    ensures Effect(g, DropTarget(g, n), n, -1, 0, 0, 0)
  {
    hide Inv, NodeOk;
    DropTargetKeepsInv(g, n);
    InvNode(g, n);
    InvPtr(g, n);
    if g.nodes[n].internalStrong > 0 {
      StrongHasList(g, n);
    }
    var dues := g.dues.(targets := g.dues.targets - multiset{n});
    var d := DecN(g.nodes[n], true, false);
    if d.Gone? {
      TargetGone(g, n);
    }
    DecKeepsName(g.nodes[n], true, false);
    SettleDead(g, n, g.nodes[n], true, false, dues, -1, 0);
    hide DecN, PtrOk;
    SettleEffect(g, n, d, dues, -1, 0, 0, 0);
  }

  lemma WorkKeepsName(x: Node)
    ensures WorkN(x).proc == x.proc && WorkN(x).ptr == x.ptr
  {
  }

  lemma WeakIsOwed(g: State, n: nat)
    requires n in g.nodes && NodeOk(g, n) && !Weak(g.nodes[n])
    ensures g.dues.temps[n] == 0
    ensures g.nodes[n].proc.Some? ==> g.dues.targets[n] == 0 && g.dues.strongObjects[n] == 0 && g.dues.weakObjects[n] == 0
  {
    hide Announced;
  }

  lemma NodeWorkEffect(g: State, n: nat)
    requires Inv(g) && Live(g, n) && OnList(g.nodes[n])
    ensures Effect(g, NodeWork(g, n), 0, 0, 0, 0, 0)
  {
    hide Inv, NodeOk;
    NodeWorkKeepsInv(g, n);
    InvNode(g, n);
    InvPtr(g, n);
    WorkKeepsName(g.nodes[n]);
    var d := if Weak(g.nodes[n]) then Kept(WorkN(g.nodes[n])) else Gone;
    if d.Gone? {
      WeakIsOwed(g, n);
    }
    hide WorkN, Weak, PtrOk;
    SettleEffect(g, n, d, g.dues, 0, 0, 0, 0);
    SettleLive(g, n, d, g.dues, 0, 0);
    hide Shifts, DeadShift, Settle;
    NowhereElse(g, NodeWork(g, n), n);
  }

  lemma ThrowWorkEffect(g: State, n: nat)
    requires Inv(g) && Live(g, n)
    ensures Effect(g, ThrowWork(g, n), 0, 0, 0, 0, 0)
  {
    hide Inv;
    ThrowWorkKeepsInv(g, n);
    var g' := ThrowWork(g, n);
    KeptEffect(g, g', n, 0, 0, 0, 0);
    NowhereElse(g, g', n);
  }

  lemma NowhereElse(g: State, g': State, n: nat)
    requires Shifts(g, g', n, 0, 0, 0, 0) && DeadShift(g, g', n, 0, 0)
    ensures Shifts(g, g', 0, 0, 0, 0, 0) && DeadShift(g, g', 0, 0, 0)
  {
    hide Sustained;
    assert forall m: nat :: At(m, n, 0) == At(m, 0, 0);
  }

  lemma DoneEffect(g: State, n: nat, strong: bool)
    requires Inv(g) && Live(g, n) && g.dues.temps[n] > 0
    requires if strong then g.nodes[n].pendingStrong else g.nodes[n].pendingWeak
    ensures Effect(g, Done(g, n, strong), 0, 0, 0, 0, 0)
  {
    hide Inv;
    DoneKeepsInv(g, n, strong);
    var x := if strong then g.nodes[n].(pendingStrong := false) else g.nodes[n].(pendingWeak := false);
    InvNode(g, n);
    DecNFacts(x, strong, false);
    DecKeepsName(x, strong, false);
    hide DecN, NodeOk;
    KeptEffect(g, Done(g, n, strong), n, 0, 0, 0, 0);
    hide Shifts, DeadShift, Done;
    NowhereElse(g, Done(g, n, strong), n);
  }

  // ---------- operations on refs ----------

  /** A step that changes the list of node n and its flags. */
  lemma ListEffect(g: State, g': State, n: nat)
    requires Inv(g') && n in g.nodes && n in g'.nodes && g'.nodes == g.nodes[n := g'.nodes[n]]
    requires g'.dues == g.dues && g'.ctx == g.ctx && g'.byPtr == g.byPtr && g.nextId <= g'.nextId
    requires var x, y := g.nodes[n], g'.nodes[n];
             y.proc == x.proc && y.ptr == x.ptr && y.localStrong == x.localStrong && y.localWeak == x.localWeak && y.temps == x.temps
             && (y.proc.None? && Sustained(x) ==> Sustained(y))
    ensures Effect(g, g', 0, 0, 0, 0, 0)
  {
    hide Inv;
  }

  lemma IncRefEffect(g: State, r: nat, strong: bool, todo: Option<nat>)
    requires Inv(g) && r in g.refs && g.refs[r].node in g.nodes && (todo.Some? ==> Live(g, g.refs[r].node))
    ensures Effect(g, IncRef(g, r, strong, todo).state, 0, 0, 0, 0, 0)
  {
    hide Inv;
    IncRefKeepsInv(g, r, strong, todo);
    var n := g.refs[r].node;
    IncKeepsName(g.nodes[n], IsCtx(g, n), strong, true, todo);
    var g' := IncRef(g, r, strong, todo).state;
    hide IncN;
    assert g.nodes[n := g.nodes[n]] == g.nodes;
    ListEffect(g, g', n);
  }

  lemma AddRefEffect(g: State, p: nat, n: nat)
    requires Inv(g) && n in g.nodes && (p, n) !in g.byNode
    ensures Effect(g, AddRef(g, p, n), 0, 0, 0, 0, 0)
  {
    hide Inv;
    AddRefKeepsInv(g, p, n);
    assert g.nextId in AddRef(g, p, n).nodes[n].list;
    ListEffect(g, AddRef(g, p, n), n);
  }

  lemma IncRefForNodeEffect(g: State, p: nat, n: nat, strong: bool, todo: Option<nat>)
    requires Inv(g) && n in g.nodes && (todo.Some? ==> Live(g, n))
    ensures Effect(g, IncRefForNode(g, p, n, strong, todo).state, 0, 0, 0, 0, 0)
  {
    hide Inv, IncRef, Shifts, DeadShift;
    if (p, n) in g.byNode {
      ByNodeIsRef(g, p, n);
      IncRefEffect(g, g.byNode[(p, n)], strong, todo);
    } else {
      AddRefKeepsInv(g, p, n);
      AddRefEffect(g, p, n);
      AddedIsThere(g, p, n);
      AddedLives(g, p, n);
      IncRefEffect(AddRef(g, p, n), g.nextId, strong, todo);
      EffectThen(g, AddRef(g, p, n), IncRef(AddRef(g, p, n), g.nextId, strong, todo).state);
    }
  }

  lemma AddedLives(g: State, p: nat, n: nat)
    requires n in g.nodes
    ensures Live(g, n) ==> Live(AddRef(g, p, n), n)
  {
  }

  lemma LowerStrongEffect(g: State, r: nat, strong: nat)
    requires Inv(g) && r in g.refs && Counted(g, r) && strong < g.refs[r].strong
    ensures Effect(g, LowerStrong(g, r, strong), 0, 0, 0, 0, 0)
  {
    hide Inv;
    LowerStrongKeepsInv(g, r, strong);
    var n := g.refs[r].node;
    DecKeepsName(g.nodes[n], true, true);
    var g' := LowerStrong(g, r, strong);
    assert g'.nodes == g.nodes[n := g'.nodes[n]];
    ListEffect(g, g', n);
  }

  lemma TakeOutEffect(g: State, r: nat)
    requires Inv(g) && r in g.refs && g.refs[r].node in g.nodes && g.refs[r].strong == 0
    ensures Effect(g, TakeOut(g, r), 0, 0, 0, 0, 0)
  {
    hide Inv, NodeOk;
    TakeOutKeepsInv(g, r);
    var n := g.refs[r].node;
    InvNode(g, n);
    InvPtr(g, n);
    TempsAreDue(g, n);
    var x := g.nodes[n].(list := g.nodes[n].list - {r});
    var d := DecN(x, false, true);
    if d.Gone? {
      GoneIsOwedNothing(g, n, x);
    }
    DecKeepsName(x, false, true);
    var g1 := g.(refs := g.refs - {r}, byDesc := TakeOut(g, r).byDesc, byNode := TakeOut(g, r).byNode);
    SettleDead(g1, n, x, false, true, g.dues, 0, 0);
    hide DecN;
    assert PtrOk(g1, n);
    hide PtrOk;
    SettleEffect(g1, n, d, g.dues, 0, 0, 0, 0);
    SameGraph(g, g1, TakeOut(g, r), n);
  }

  lemma SameGraph(g: State, g1: State, g': State, n: nat)
    requires g1 == g.(refs := g1.refs, byDesc := g1.byDesc, byNode := g1.byNode)
    requires Inv(g') && Shifts(g1, g', n, 0, 0, 0, 0) && DeadShift(g1, g', n, 0, 0)
    ensures Effect(g, g', 0, 0, 0, 0, 0)
  {
    hide Inv, Shifts, DeadShift;
    SameShifts(g, g1, g', n);
    SameDeadShift(g, g1, g', n);
    NowhereElse(g, g', n);
  }

  lemma SameShifts(g: State, g1: State, g': State, n: nat)
    requires g1 == g.(refs := g1.refs, byDesc := g1.byDesc, byNode := g1.byNode) && Shifts(g1, g', n, 0, 0, 0, 0)
    ensures Shifts(g, g', n, 0, 0, 0, 0)
  {
  }

  lemma SameDeadShift(g: State, g1: State, g': State, n: nat)
    requires g1.nodes == g.nodes && DeadShift(g1, g', n, 0, 0)
    ensures DeadShift(g, g', n, 0, 0)
  {
  }

  lemma CleanupEffect(g: State, r: nat)
    requires Inv(g) && r in g.refs
    ensures Effect(g, Cleanup(g, r), 0, 0, 0, 0, 0)
  {
    hide Inv, Shifts, DeadShift, TakeOut;
    InvRef(g, r);
    StrongIsCounted(g, r);
    if g.refs[r].strong > 0 {
      LowerStrongKeepsInv(g, r, 0);
      LowerStrongEffect(g, r, 0);
      LoweredRef(g, r, 0);
      var g1 := LowerStrong(g, r, 0);
      TakeOutEffect(g1, r);
      EffectThen(g, g1, TakeOut(g1, r));
    } else {
      TakeOutEffect(g, r);
    }
  }

  lemma LowerWeakEffect(g: State, r: nat)
    requires Inv(g) && r in g.refs && g.refs[r].weak > 0
    ensures Effect(g, g.(refs := g.refs[r := g.refs[r].(weak := g.refs[r].weak - 1)]), 0, 0, 0, 0, 0)
  {
    hide Inv;
    LowerWeakKeepsInv(g, r);
    InvRef(g, r);
    var g1 := g.(refs := g.refs[r := g.refs[r].(weak := g.refs[r].weak - 1)]);
    assert g1.nodes == g.nodes[g.refs[r].node := g1.nodes[g.refs[r].node]];
    ListEffect(g, g1, g.refs[r].node);
  }

  lemma DecRefEffect(g: State, r: nat, strong: bool)
    requires Inv(g) && r in g.refs
    ensures Effect(g, DecRef(g, r, strong), 0, 0, 0, 0, 0)
  {
    hide Inv, Shifts, DeadShift, TakeOut, LowerStrong;
    NoEffect(g);
    InvRef(g, r);
    StrongIsCounted(g, r);
    var x := g.refs[r];
    if strong && x.strong > 0 {
      LowerStrongKeepsInv(g, r, x.strong - 1);
      LowerStrongEffect(g, r, x.strong - 1);
      LoweredRef(g, r, x.strong - 1);
      var g1 := LowerStrong(g, r, x.strong - 1);
      if x.strong == 1 && x.weak == 0 {
        TakeOutEffect(g1, r);
        EffectThen(g, g1, TakeOut(g1, r));
      }
    } else if !strong && x.weak > 0 {
      var g1 := g.(refs := g.refs[r := x.(weak := x.weak - 1)]);
      LowerWeakEffect(g, r);
      if x.strong == 0 && x.weak == 1 {
        LowerWeakKeepsInv(g, r);
        TakeOutEffect(g1, r);
        EffectThen(g, g1, TakeOut(g1, r));
      }
    }
  }
}
