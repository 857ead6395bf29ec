/** Nodes come and go with their processes; the context manager. */
module RefProcs {
  import opened Common
  import opened RefGraph
  import opened RefOps
  import opened RefCounts
  import opened RefUndo
  import opened RefEffects
  import opened RefBuffers
  import opened RefClaims
  import opened RefSystem

  // ---------- a new node ----------

  /** `binder_new_node` for a pointer without a node. */
  predicate CanCreate(s: System, op: nat, p: nat, ptr: nat) {
    op !in s.held && (p, ptr) !in s.graph.byPtr && p !in s.closing
  }

  function Create(s: System, op: nat, p: nat, ptr: nat, cookie: nat): System {
    s.(graph := NewNode(s.graph, p, ptr, cookie), held := s.held[op := s.graph.nextId])
  }

  /** Nothing names or holds a node that is not there yet. */
  lemma NobodyClaimsNew(s: System, p: nat, ptr: nat)
    requires SysInv(s) && (p, ptr) !in s.graph.byPtr && p !in s.closing
    ensures Targeting(s.buffers, s.graph.nextId) == {} && Holders(s.held, s.graph.nextId) == {}
    ensures forall strong :: Naming(s.buffers, p, ptr, strong) == {}
    ensures !IsManager(s, s.graph.nextId) && s.graph.nextId !in s.graph.nodes && !IsDue(s.graph.dues, s.graph.nextId)
    ensures s.late.strong[s.graph.nextId] == 0 && s.late.weak[s.graph.nextId] == 0
  {
    SysGraph(s);
    NewIdUnused(s.graph);
    InvTrees(s.graph);
    forall b | b in s.buffers
      ensures s.buffers[b].target != Some(s.graph.nextId)
      ensures forall i, strong :: s.buffers[b].owner == p && s.buffers[b].done <= i < |s.buffers[b].objs| ==> !Names(s.buffers[b].objs[i], ptr, strong)
    {
      SysBuffer(s, b);
    }
  }

  lemma CreatedBooks(s: System, op: nat, p: nat, ptr: nat, cookie: nat, m: nat)
    requires SysInv(s) && CanCreate(s, op, p, ptr) && m in Create(s, op, p, ptr, cookie).graph.nodes
    ensures Booked(Create(s, op, p, ptr, cookie), m)
  {
    hide SysInv, Naming, Targeting, Holders, Inv;
    NobodyClaimsNew(s, p, ptr);
    HoldingAdded(s.held, op, s.graph.nextId, m);
    if m != s.graph.nextId {
      SysNode(s, m);
      hide IsDue;
    } else {
      assert Naming(s.buffers, p, ptr, true) == {} && Naming(s.buffers, p, ptr, false) == {};
    }
  }

  lemma NewNameOk(g: State, g': State, closing: set<nat>, held: map<nat, nat>, held': map<nat, nat>, x: Buffer, p: nat, ptr: nat, cookie: nat)
    requires BufferOk(g, closing, held, x) && g' == NewNode(g, p, ptr, cookie) && (p, ptr) !in g.byPtr && g.nextId !in g.nodes && p !in closing
    requires forall op :: op in held ==> op in held' && held'[op] == held[op]
    ensures BufferOk(g', closing, held', x)
  {
  }

  lemma CreatedRest(s: System, op: nat, p: nat, ptr: nat, cookie: nat)
    requires HeldOk(s.graph, s.held) && ManagerOk(s) && LateOk(s.graph, s.late) && s.graph.nextId !in s.graph.nodes
    requires s.late.strong[s.graph.nextId] == 0 && s.late.weak[s.graph.nextId] == 0 && s.graph.nextId !in s.retired
    ensures var s' := Create(s, op, p, ptr, cookie); HeldOk(s'.graph, s'.held) && ManagerOk(s') && LateOk(s'.graph, s'.late)
  {
    hide LateNode;
    var s' := Create(s, op, p, ptr, cookie);
    forall m | m in s'.graph.nodes
      ensures LateNode(s'.graph, s'.late, m)
    {
      CreatedLate(s, op, p, ptr, cookie, m);
    }
  }

  lemma CreatedLate(s: System, op: nat, p: nat, ptr: nat, cookie: nat, m: nat)
    requires m in s.graph.nodes ==> LateNode(s.graph, s.late, m)
    requires m in Create(s, op, p, ptr, cookie).graph.nodes && s.graph.nextId !in s.graph.nodes
    ensures LateNode(Create(s, op, p, ptr, cookie).graph, s.late, m)
  {
  }

  lemma CreateKeepsInv(s: System, op: nat, p: nat, ptr: nat, cookie: nat)
    requires SysInv(s) && CanCreate(s, op, p, ptr)
    ensures SysInv(Create(s, op, p, ptr, cookie))
  {
    hide SysInv, BufferOk, Booked, Inv, IsDue, HeldOk, ManagerOk, LateOk, Naming, Targeting, Holders;
    var s' := Create(s, op, p, ptr, cookie);
    SysGraph(s);
    NobodyClaimsNew(s, p, ptr);
    NewNodeKeepsInv(s.graph, p, ptr, cookie);
    CreatedRest(s, op, p, ptr, cookie);
    forall m | m in s'.graph.nodes
      ensures Booked(s', m)
    {
      CreatedBooks(s, op, p, ptr, cookie, m);
    }
    forall b | b in s'.buffers
      ensures BufferOk(s'.graph, s'.closing, s'.held, s'.buffers[b])
    {
      SysBuffer(s, b);
      NewNameOk(s.graph, s'.graph, s.closing, s.held, s'.held, s.buffers[b], p, ptr, cookie);
    }
    SysFromParts(s');
  }

  // ---------- the context manager ----------

  predicate CanBecome(s: System, n: nat) {
    Live(s.graph, n) && s.graph.ctx.None? && s.graph.nodes[n].proc.value !in s.closing
  }

  /** `binder_ioctl_set_ctx_mgr`. */
  function Become(s: System, n: nat): System
    requires CanBecome(s, n)
  {
    s.(graph := SetCtx(s.graph, n))
  }

  lemma BecomeBooks(s: System, n: nat, m: nat)
    requires CanBecome(s, n) && ManagerOk(s) && m in s.graph.nodes && Booked(s, m)
    ensures Booked(Become(s, n), m)
  {
    hide Naming, Targeting, Holders;
  }

  lemma BecomeRest(s: System, n: nat)
    requires CanBecome(s, n) && HeldOk(s.graph, s.held) && ManagerOk(s) && LateOk(s.graph, s.late)
    ensures var s' := Become(s, n); HeldOk(s'.graph, s'.held) && ManagerOk(s') && LateOk(s'.graph, s'.late)
  {
    var s' := Become(s, n);
    forall m | m in s'.graph.nodes
      ensures LateNode(s'.graph, s'.late, m)
    {
      assert LateNode(s.graph, s.late, m);
    }
  }

  lemma BecomeKeepsInv(s: System, n: nat)
    requires SysInv(s) && CanBecome(s, n)
    ensures SysInv(Become(s, n))
  {
    hide SysInv, BufferOk, Booked, Inv, HeldOk, ManagerOk, LateOk, Naming, Targeting, Holders;
    SysGraph(s);
    SetCtxKeepsInv(s.graph, n);
    BecomeRest(s, n);
    var s' := Become(s, n);
    forall m | m in s'.graph.nodes
      ensures Booked(s', m)
    {
      SysNode(s, m);
      BecomeBooks(s, n, m);
    }
    forall b | b in s'.buffers
      ensures BufferOk(s'.graph, s'.closing, s'.held, s'.buffers[b])
    {
      SysBuffer(s, b);
      SameNamesOk(s.graph, s'.graph, s.closing, s.held, s.buffers[b]);
    }
    SysFromParts(s');
  }

  /** The buffer does not see counts, flags or the context. */
  lemma SameNamesOk(g: State, g': State, closing: set<nat>, held: map<nat, nat>, x: Buffer)
    requires BufferOk(g, closing, held, x) && g'.byPtr == g.byPtr && g'.nodes.Keys == g.nodes.Keys && g'.nextId == g.nextId
    requires forall m :: m in g.nodes ==> g'.nodes[m].proc == g.nodes[m].proc
    ensures BufferOk(g', closing, held, x)
  {
  }

  // ---------- a process dies ----------

  /** No command of the process is under way when its file is released. */
  predicate CanClose(s: System, p: nat) {
    p !in s.closing && forall b :: b in s.buffers ==> !(s.buffers[b].owner == p && s.buffers[b].phase.Freeing?)
  }

  predicate OwnsContext(s: System, p: nat) {
    s.graph.ctx.Some? && s.graph.ctx.value in s.graph.nodes && s.graph.nodes[s.graph.ctx.value].proc == Some(p)
  }

  /** The head of `binder_deferred_release`: the context loses the process's node, if it is its
      manager. */
  function Close(s: System, p: nat): System {
    if OwnsContext(s, p) then
      s.(closing := s.closing + {p}, retired := s.retired + {s.graph.ctx.value}, graph := s.graph.(ctx := None))
    else s.(closing := s.closing + {p})
  }

  lemma ClosedBuffer(s: System, p: nat, b: nat)
    requires CanClose(s, p) && b in s.buffers && BufferOk(s.graph, s.closing, s.held, s.buffers[b])
    ensures BufferOk(Close(s, p).graph, Close(s, p).closing, s.held, s.buffers[b])
  {
  }

  lemma ClosedBooks(s: System, p: nat, m: nat)
    requires m in s.graph.nodes && Booked(s, m)
    ensures Booked(Close(s, p), m)
  {
    hide Naming, Targeting, Holders;
  }

  lemma ClosedRest(s: System, p: nat)
    requires HeldOk(s.graph, s.held) && ManagerOk(s) && LateOk(s.graph, s.late)
    requires OwnsContext(s, p) ==> s.graph.ctx.value < s.graph.nextId
    ensures var s' := Close(s, p); HeldOk(s'.graph, s'.held) && ManagerOk(s') && LateOk(s'.graph, s'.late)
  {
    var s' := Close(s, p);
    forall m | m in s'.graph.nodes
      ensures LateNode(s'.graph, s'.late, m)
    {
      assert LateNode(s.graph, s.late, m);
    }
  }

  lemma CloseKeepsInv(s: System, p: nat)
    requires SysInv(s) && CanClose(s, p)
    ensures SysInv(Close(s, p))
  {
    hide SysInv, BufferOk, Booked, Inv, HeldOk, ManagerOk, LateOk, Naming, Targeting, Holders;
    var s' := Close(s, p);
    SysGraph(s);
    ClearCtxKeepsInv(s.graph);
    if OwnsContext(s, p) {
      SysId(s, s.graph.ctx.value);
    }
    ClosedRest(s, p);
    forall m | m in s'.graph.nodes
      ensures Booked(s', m)
    {
      SysNode(s, m);
      ClosedBooks(s, p, m);
    }
    forall b | b in s'.buffers
      ensures BufferOk(s'.graph, s'.closing, s'.held, s'.buffers[b])
    {
      SysBuffer(s, b);
      ClosedBuffer(s, p, b);
    }
    SysFromParts(s');
  }

  predicate CanDie(s: System, n: nat) {
    Live(s.graph, n) && s.graph.nodes[n].proc.value in s.closing
  }

  /** `binder_node_release`. */
  function Die(s: System, n: nat): System
    requires CanDie(s, n)
  {
    s.(graph := NodeDies(s.graph, n))
  }

  lemma DyingBuffer(s: System, n: nat, b: nat)
    requires SysInv(s) && CanDie(s, n) && b in s.buffers
    ensures BufferOk(Die(s, n).graph, s.closing, s.held, s.buffers[b])
  {
    hide SysInv, Inv, NamesOk, PtrOk, TargetOk, AtOk, NodeDies, HeldOk;
    SysGraph(s);
    SysBuffer(s, b);
    InvPtr(s.graph, n);
    HeldNodesStay(s, n);
    var x := s.buffers[b];
    if x.at.Some? && x.at.value in s.held && s.held[x.at.value] in s.graph.nodes {
      InvPtr(s.graph, s.held[x.at.value]);
    }
    if x.owner in s.closing {
      ClosingNames(Die(s, n).graph, s.closing, x);
    } else {
      NamesStay(s, n, x);
    }
    DyingTarget(s, n, x);
    DyingAt(s, n, x);
  }

  lemma ClosingNames(g: State, closing: set<nat>, x: Buffer)
    requires x.owner in closing
    ensures NamesOk(g, closing, x)
  {
  }

  lemma NamesStay(s: System, n: nat, x: Buffer)
    requires CanDie(s, n) && PtrOk(s.graph, n) && x.owner !in s.closing && NamesOk(s.graph, s.closing, x)
    ensures NamesOk(Die(s, n).graph, s.closing, x)
  {
  }

  lemma DyingTarget(s: System, n: nat, x: Buffer)
    requires CanDie(s, n) && TargetOk(s.graph, s.closing, s.held, x)
    ensures TargetOk(Die(s, n).graph, s.closing, s.held, x)
  {
  }

  lemma DyingAt(s: System, n: nat, x: Buffer)
    requires CanDie(s, n) && AtOk(s.graph, s.closing, s.held, x)
    requires forall op :: op in s.held ==> s.held[op] in Die(s, n).graph.nodes
    requires n in s.graph.nodes && PtrOk(s.graph, n)
    requires x.at.Some? && x.at.value in s.held && s.held[x.at.value] in s.graph.nodes ==> PtrOk(s.graph, s.held[x.at.value])
    ensures AtOk(Die(s, n).graph, s.closing, s.held, x)
  {
  }

  /** A node that is held does not go at once. */
  lemma HeldNodesStay(s: System, n: nat)
    requires SysInv(s) && CanDie(s, n)
    ensures forall op :: op in s.held ==> s.held[op] in Die(s, n).graph.nodes
  {
    forall op | op in s.held
      ensures s.held[op] in Die(s, n).graph.nodes
    {
      HeldIsDue(s, op);
      SysGraph(s);
      InvNode(s.graph, s.held[op]);
      TempsAreDue(s.graph, s.held[op]);
      hide SysInv, Inv, NodeOk;
    }
  }

  lemma DyingBooks(s: System, n: nat, m: nat)
    requires CanDie(s, n) && m in s.graph.nodes && Booked(s, m) && m in Die(s, n).graph.nodes
    ensures Booked(Die(s, n), m)
  {
    hide Naming, Targeting, Holders;
  }

  lemma DyingLate(s: System, n: nat, m: nat)
    requires CanDie(s, n) && m in s.graph.nodes && LateNode(s.graph, s.late, m) && m in Die(s, n).graph.nodes
    requires s.late.strong[n] == 0 && s.late.weak[n] == 0
    ensures LateNode(Die(s, n).graph, s.late, m)
  {
  }

  lemma DyingRest(s: System, n: nat)
    requires CanDie(s, n) && ManagerOk(s) && LateOk(s.graph, s.late)
    ensures ManagerOk(Die(s, n)) && LateOk(Die(s, n).graph, s.late)
  {
    hide LateNode;
    forall m | m in Die(s, n).graph.nodes
      ensures LateNode(Die(s, n).graph, s.late, m)
    {
      DyingLate(s, n, m);
    }
  }

  lemma DieKeepsInv(s: System, n: nat)
    requires SysInv(s) && CanDie(s, n)
    ensures SysInv(Die(s, n))
  {
    hide SysInv, BufferOk, Booked, Inv, ManagerOk, LateOk, Naming, Targeting, Holders;
    var s' := Die(s, n);
    SysGraph(s);
    ManagerIsOpen(s, n);
    NodeDiesKeepsInv(s.graph, n);
    DyingRest(s, n);
    HeldNodesStay(s, n);
    forall m | m in s'.graph.nodes
      ensures Booked(s', m)
    {
      SysNode(s, m);
      DyingBooks(s, n, m);
    }
    forall b | b in s'.buffers
      ensures BufferOk(s'.graph, s'.closing, s'.held, s'.buffers[b])
    {
      DyingBuffer(s, n, b);
    }
    SysFromParts(s');
  }

  lemma ManagerIsOpen(s: System, n: nat)
    requires ManagerOk(s) && CanDie(s, n)
    ensures s.graph.ctx != Some(n)
  {
  }

  /** The last reference of a dead process: nodes and refs are gone and nobody is at work on its
      buffers. */
  predicate CanForget(s: System, p: nat) {
    && p in s.closing
    && (forall n :: n in s.graph.nodes ==> s.graph.nodes[n].proc != Some(p))
    && (forall r :: r in s.graph.refs ==> s.graph.refs[r].proc != p)
    && (forall b :: b in s.buffers && s.buffers[b].owner == p ==> s.buffers[b].phase.Delivered?)
  }

  /** `binder_alloc_deferred_release`: what is left goes without any count being given back. */
  function Forget(s: System, p: nat): System {
    s.(buffers := map b | b in s.buffers && s.buffers[b].owner != p :: s.buffers[b])
  }

  lemma ForgottenNames(s: System, p: nat, q: nat, ptr: nat, strong: bool)
    requires q != p
    ensures Naming(Forget(s, p).buffers, q, ptr, strong) == Naming(s.buffers, q, ptr, strong)
  {
  }

  lemma ForgottenTargets(s: System, p: nat, m: nat)
    requires forall b :: b in s.buffers && s.buffers[b].owner == p ==> s.buffers[b].target != Some(m)
    ensures Targeting(Forget(s, p).buffers, m) == Targeting(s.buffers, m)
  {
  }

  lemma ForgetClaims(s: System, p: nat, m: nat)
    requires SysInv(s) && CanForget(s, p) && m in s.graph.nodes
    ensures ClaimShift(s, Forget(s, p), m, 0, 0, 0, 0)
  {
    forall b | b in s.buffers && s.buffers[b].owner == p
      ensures s.graph.nodes[m].proc.Some? ==> s.buffers[b].target != Some(m)
    {
      SysBuffer(s, b);
    }
    hide SysInv, Targeting, Naming, Holders;
    var x := s.graph.nodes[m];
    if x.proc.Some? {
      ForgottenTargets(s, p, m);
      ForgottenNames(s, p, x.proc.value, x.ptr, true);
      ForgottenNames(s, p, x.proc.value, x.ptr, false);
    }
  }

  lemma ForgetKeepsInv(s: System, p: nat)
    requires SysInv(s) && CanForget(s, p)
    ensures SysInv(Forget(s, p))
  {
    hide SysInv, Effect, Inv, LateShift, BufferOk, Naming, Targeting, Holders, ClaimShift;
    SysGraph(s);
    NoEffect(s.graph);
    var s' := Forget(s, p);
    forall m | m in s.graph.nodes
      ensures ClaimShift(s, s', m, 0, 0, 0, 0)
    {
      ForgetClaims(s, p, m);
    }
    assert ClaimsShift(s, s', 0, 0, 0, 0, 0);
    forall b | b in s'.buffers
      ensures BufferOk(s.graph, s.closing, s'.held, s'.buffers[b])
    {
      SysBuffer(s, b);
    }
    SameLate(s, s', 0);
    BalancedKeepsInv(s, s', 0, 0, 0, 0, 0);
  }
}
