/** The sections that move counts between nodes, refs, operations and buffers. */
module RefSystem {
  import opened Common
  import opened RefGraph
  import opened RefOps
  import opened RefCounts
  import opened RefUndo
  import opened RefEffects
  import opened RefBuffers
  import opened RefClaims

  // ---------- operations that hold a node for a while ----------

  /** Sections that change neither buffers nor operations. */
  function OnGraph(s: System, g: State): System {
    s.(graph := g)
  }

  lemma SameClaims(s: System, g: State)
    ensures ClaimsShift(s, OnGraph(s, g), 0, 0, 0, 0, 0)
  {
    hide Naming, Targeting, Holders;
  }

  lemma OnGraphKeepsInv(s: System, g: State)
    requires SysInv(s) && Effect(s.graph, g, 0, 0, 0, 0, 0)
    ensures SysInv(OnGraph(s, g))
  {
    hide Effect, ClaimsShift, BufferOk, BooksOk, Inv, LateOk, ManagerOk;
    SameClaims(s, g);
    BalancedKeepsInv(s, OnGraph(s, g), 0, 0, 0, 0, 0);
  }

  predicate CanHold(s: System, op: nat, n: nat) {
    op !in s.held && n in s.graph.nodes
  }

  /** A temporary reference, under the lock it was looked up with. */
  function Hold(s: System, op: nat, n: nat): System
    requires CanHold(s, op, n)
  {
    s.(graph := TakeTemp(s.graph, n), held := s.held[op := n])
  }

  /** Nobody else's operation is the one that a new one is taken for. */
  lemma HeldStays(g: State, closing: set<nat>, held: map<nat, nat>, held': map<nat, nat>, x: Buffer)
    requires BufferOk(g, closing, held, x)
    requires x.phase.Building? && x.target.Some? && x.maker in held ==> x.maker in held' && held'[x.maker] == held[x.maker]
    requires x.at.Some? && x.at.value in held ==> x.at.value in held' && held'[x.at.value] == held[x.at.value]
    ensures BufferOk(g, closing, held', x)
  {
    hide NamesOk;
  }

  lemma HoldClaims(s: System, op: nat, n: nat)
    requires CanHold(s, op, n)
    ensures ClaimsShift(s, Hold(s, op, n), n, 0, 0, 0, 1)
  {
    hide Naming, Targeting, Holders;
    forall m | m in s.graph.nodes
      ensures ClaimShift(s, Hold(s, op, n), m, 0, 0, 0, At(m, n, 1))
    {
      HoldingAdded(s.held, op, n, m);
    }
  }

  lemma HoldKeepsInv(s: System, op: nat, n: nat)
    requires SysInv(s) && CanHold(s, op, n)
    ensures SysInv(Hold(s, op, n))
  {
    hide SysInv, Effect, ClaimsShift, BufferOk, Inv, LateOk, ManagerOk;
    SysGraph(s);
    var s' := Hold(s, op, n);
    TakeTempEffect(s.graph, n);
    HoldClaims(s, op, n);
    forall b | b in s'.buffers
      ensures BufferOk(s.graph, s.closing, s'.held, s'.buffers[b])
    {
      SysBuffer(s, b);
      HeldStays(s.graph, s.closing, s.held, s'.held, s.buffers[b]);
    }
    BalancedKeepsInv(s, s', n, 0, 0, 0, 1);
  }

  /** `binder_get_node`, for a command of a process that is not closing. */
  predicate CanGetNode(s: System, op: nat, p: nat, ptr: nat) {
    op !in s.held && (p, ptr) in s.graph.byPtr && p !in s.closing
  }

  /** `binder_get_node_from_ref`. */
  predicate CanGetFromRef(s: System, op: nat, p: nat, desc: nat, strong: bool) {
    op !in s.held && FindRef(s.graph, p, desc, strong).Some?
  }

  lemma RefIsThere(s: System, p: nat, desc: nat, strong: bool)
    requires SysInv(s) && FindRef(s.graph, p, desc, strong).Some?
    ensures var r := FindRef(s.graph, p, desc, strong).value; r in s.graph.refs && s.graph.refs[r].node in s.graph.nodes
  {
    hide SysInv;
    SysGraph(s);
    ByDescIsRef(s.graph, p, desc);
  }

  lemma NodeIsThere(s: System, p: nat, ptr: nat)
    requires SysInv(s) && (p, ptr) in s.graph.byPtr
    ensures var n := s.graph.byPtr[(p, ptr)]; Live(s.graph, n) && s.graph.nodes[n].proc == Some(p) && s.graph.nodes[n].ptr == ptr
  {
    hide SysInv;
    SysGraph(s);
    PtrIsLive(s.graph, p, ptr);
  }

  /** Some section to come still relies on the operation. */
  predicate InUse(s: System, op: nat) {
    exists b :: b in s.buffers &&
      ((s.buffers[b].phase.Building? && s.buffers[b].target.Some? && s.buffers[b].maker == op) || s.buffers[b].at == Some(op))
  }

  predicate CanPut(s: System, op: nat) {
    op in s.held && !InUse(s, op)
  }

  lemma HeldIsDue(s: System, op: nat)
    requires SysInv(s) && op in s.held
    ensures s.held[op] in s.graph.nodes && s.graph.dues.temps[s.held[op]] > 0
  {
    SysGraph(s);
    SysNode(s, s.held[op]);
    HolderIsThere(s.held, op);
  }

  /** `binder_put_node`. */
  function Put(s: System, op: nat): System
    requires SysInv(s) && CanPut(s, op)
  {
    HeldIsDue(s, op);
    s.(graph := DropTemp(s.graph, s.held[op]), held := s.held - {op})
  }

  lemma PutClaims(s: System, op: nat)
    requires SysInv(s) && CanPut(s, op)
    ensures ClaimsShift(s, Put(s, op), s.held[op], 0, 0, 0, -1)
  {
    hide SysInv, Naming, Targeting, Holders;
    HeldIsDue(s, op);
    forall m | m in s.graph.nodes
      ensures ClaimShift(s, Put(s, op), m, 0, 0, 0, At(m, s.held[op], -1))
    {
      HoldingRemoved(s.held, op, m);
    }
  }

  lemma PutKeepsInv(s: System, op: nat)
    requires SysInv(s) && CanPut(s, op)
    ensures SysInv(Put(s, op))
  {
    hide SysInv, Effect, ClaimsShift, BufferOk, Inv, LateOk, ManagerOk;
    SysGraph(s);
    HeldIsDue(s, op);
    var s' := Put(s, op);
    DropTempEffect(s.graph, s.held[op]);
    PutClaims(s, op);
    forall b | b in s'.buffers
      ensures BufferOk(s.graph, s.closing, s'.held, s'.buffers[b])
    {
      SysBuffer(s, b);
      HeldStays(s.graph, s.closing, s.held, s'.held, s.buffers[b]);
    }
    BalancedKeepsInv(s, s', s.held[op], 0, 0, 0, -1);
  }

  // ---------- a transaction begins ----------

  /** `binder_get_node_refs_for_txn`, and the buffer that will name the target. */
  predicate CanBegin(s: System, b: nat, op: nat, n: nat) {
    b !in s.buffers && op !in s.held && Live(s.graph, n)
  }

  function Begin(s: System, b: nat, op: nat, n: nat): System
    requires CanBegin(s, b, op, n)
  {
    s.(graph := TakeTarget(s.graph, n), held := s.held[op := n],
       buffers := s.buffers[b := Buffer(s.graph.nodes[n].proc.value, Some(n), op, [], 0, Building, None)])
  }

  lemma BeginClaims(s: System, b: nat, op: nat, n: nat)
    requires CanBegin(s, b, op, n)
    ensures ClaimsShift(s, Begin(s, b, op, n), n, 1, 0, 0, 1)
  {
    hide Naming, Targeting, Holders;
    var s' := Begin(s, b, op, n);
    forall m | m in s.graph.nodes
      ensures ClaimShift(s, s', m, At(m, n, 1), 0, 0, At(m, n, 1))
    {
      HoldingAdded(s.held, op, n, m);
      TargetingChanged(s.buffers, b, s'.buffers[b], m);
      if s.graph.nodes[m].proc.Some? {
        NamingKept(s.buffers, b, s'.buffers[b], s.graph.nodes[m].proc.value, s.graph.nodes[m].ptr, true);
        NamingKept(s.buffers, b, s'.buffers[b], s.graph.nodes[m].proc.value, s.graph.nodes[m].ptr, false);
      }
    }
  }

  lemma BeginKeepsInv(s: System, b: nat, op: nat, n: nat)
    requires SysInv(s) && CanBegin(s, b, op, n)
    ensures SysInv(Begin(s, b, op, n))
  {
    hide SysInv, Effect, ClaimsShift, BufferOk, Inv, LateOk, ManagerOk;
    SysGraph(s);
    SysId(s, n);
    var s' := Begin(s, b, op, n);
    TakeTargetEffect(s.graph, n);
    BeginClaims(s, b, op, n);
    assert BufferOk(s.graph, s.closing, s'.held, s'.buffers[b]) by {
      NewBufferOk(s, b, op, n);
    }
    forall c | c in s'.buffers && c != b
      ensures BufferOk(s.graph, s.closing, s'.held, s'.buffers[c])
    {
      SysBuffer(s, c);
      HeldStays(s.graph, s.closing, s.held, s'.held, s.buffers[c]);
    }
    BalancedKeepsInv(s, s', n, 1, 0, 0, 1);
  }

  lemma NewBufferOk(s: System, b: nat, op: nat, n: nat)
    requires CanBegin(s, b, op, n) && n < s.graph.nextId
    ensures var s' := Begin(s, b, op, n); BufferOk(s.graph, s.closing, s'.held, s'.buffers[b])
  {
  }

  // ---------- one buffer changes and nothing else is held ----------

  /** The claims after buffer b has become x. */
  function WithBuffer(s: System, b: nat, x: Buffer, g: State, late: Late): System {
    s.(graph := g, buffers := s.buffers[b := x], late := late)
  }

  lemma BufferKeepsInv(s: System, b: nat, x: Buffer, g: State, late: Late, n: nat, t: int, strong: int, weak: int)
    requires SysInv(s) && Effect(s.graph, g, n, t, strong, weak, 0)
    requires ClaimsShift(s, WithBuffer(s, b, x, g, late), n, t, strong, weak, 0)
    requires LateShift(s, WithBuffer(s, b, x, g, late), n, t + strong, weak)
    requires BufferOk(s.graph, s.closing, s.held, x)
    ensures SysInv(WithBuffer(s, b, x, g, late))
  {
    hide SysInv, Effect, ClaimsShift, BufferOk, Inv, LateOk, ManagerOk, LateShift;
    SysGraph(s);
    var s' := WithBuffer(s, b, x, g, late);
    forall c | c in s'.buffers
      ensures BufferOk(s.graph, s.closing, s'.held, s'.buffers[c])
    {
      if c != b {
        SysBuffer(s, c);
      }
    }
    BalancedKeepsInv(s, s', n, t, strong, weak, 0);
  }

  /** Nothing is given back. */
  lemma SameLate(s: System, s': System, n: nat)
    requires s'.late == s.late
    ensures LateShift(s, s', n, 0, 0)
  {
  }

  predicate CanBeginReply(s: System, b: nat) {
    b !in s.buffers
  }

  /** A reply targets a thread, not a node. */
  function BeginReply(s: System, b: nat, to: nat): System {
    WithBuffer(s, b, Buffer(to, None, 0, [], 0, Building, None), s.graph, s.late)
  }

  /** The buffer names the same objects and targets the same node. */
  lemma SameBufferClaims(s: System, b: nat, x: Buffer, g: State)
    requires if b in s.buffers
             then x.owner == s.buffers[b].owner && x.objs == s.buffers[b].objs && x.done == s.buffers[b].done && x.target == s.buffers[b].target
             else x.done == |x.objs| && x.target.None?
    ensures ClaimsShift(s, WithBuffer(s, b, x, g, s.late), 0, 0, 0, 0, 0)
  {
    hide Naming, Targeting, Holders;
    var s' := WithBuffer(s, b, x, g, s.late);
    forall m | m in s.graph.nodes
      ensures ClaimShift(s, s', m, 0, 0, 0, 0)
    {
      TargetingChanged(s.buffers, b, x, m);
      if s.graph.nodes[m].proc.Some? {
        NamingKept(s.buffers, b, x, s.graph.nodes[m].proc.value, s.graph.nodes[m].ptr, true);
        NamingKept(s.buffers, b, x, s.graph.nodes[m].proc.value, s.graph.nodes[m].ptr, false);
      }
    }
  }

  lemma BeginReplyKeepsInv(s: System, b: nat, to: nat)
    requires SysInv(s) && CanBeginReply(s, b)
    ensures SysInv(BeginReply(s, b, to))
  {
    hide SysInv, Effect, ClaimsShift, Inv, LateShift;
    SysGraph(s);
    var x := Buffer(to, None, 0, [], 0, Building, None);
    NoEffect(s.graph);
    SameBufferClaims(s, b, x, s.graph);
    SameLate(s, BeginReply(s, b, to), 0);
    BufferKeepsInv(s, b, x, s.graph, s.late, 0, 0, 0, 0);
  }

  predicate CanDeliver(s: System, b: nat) {
    b in s.buffers && s.buffers[b].phase.Building?
  }

  /** The transaction is queued; its buffer is its owner's. */
  function Deliver(s: System, b: nat): System
    requires CanDeliver(s, b)
  {
    WithBuffer(s, b, s.buffers[b].(phase := Delivered), s.graph, s.late)
  }

  lemma DeliverKeepsInv(s: System, b: nat)
    requires SysInv(s) && CanDeliver(s, b)
    ensures SysInv(Deliver(s, b))
  {
    hide SysInv, Effect, ClaimsShift, Inv, LateShift;
    SysGraph(s);
    SysBuffer(s, b);
    assert BufferOk(s.graph, s.closing, s.held, s.buffers[b].(phase := Delivered));
    NoEffect(s.graph);
    SameBufferClaims(s, b, s.buffers[b].(phase := Delivered), s.graph);
    SameLate(s, Deliver(s, b), 0);
    BufferKeepsInv(s, b, s.buffers[b].(phase := Delivered), s.graph, s.late, 0, 0, 0, 0);
  }

  // ---------- translation of one object ----------

  predicate CanAppend(s: System, b: nat) {
    b in s.buffers && s.buffers[b].phase.Building?
  }

  /** The buffer with one more object. */
  function Appended(s: System, b: nat, o: Object): Buffer
    requires CanAppend(s, b)
  {
    s.buffers[b].(objs := s.buffers[b].objs + [o])
  }

  lemma AppendedClaims(s: System, b: nat, o: Object, g: State)
    requires CanAppend(s, b) && !o.Binder? && s.buffers[b].done <= |s.buffers[b].objs|
    ensures ClaimsShift(s, WithBuffer(s, b, Appended(s, b, o), g, s.late), 0, 0, 0, 0, 0)
  {
    hide Naming, Targeting, Holders;
    var x := Appended(s, b, o);
    forall m | m in s.graph.nodes
      ensures ClaimShift(s, WithBuffer(s, b, x, g, s.late), m, 0, 0, 0, 0)
    {
      TargetingChanged(s.buffers, b, x, m);
      if s.graph.nodes[m].proc.Some? {
        NamingAppended(s.buffers, b, x, o, s.graph.nodes[m].proc.value, s.graph.nodes[m].ptr, true);
        NamingAppended(s.buffers, b, x, o, s.graph.nodes[m].proc.value, s.graph.nodes[m].ptr, false);
      }
    }
  }

  lemma AppendedOk(g: State, closing: set<nat>, held: map<nat, nat>, x: Buffer, o: Object)
    requires BufferOk(g, closing, held, x) && x.phase.Building? && (o.Binder? ==> (x.owner, o.ptr) in g.byPtr)
    ensures BufferOk(g, closing, held, x.(objs := x.objs + [o]))
  {
  }

  lemma AppendKeepsInv(s: System, b: nat, o: Object, g: State)
    requires SysInv(s) && CanAppend(s, b) && !o.Binder? && Effect(s.graph, g, 0, 0, 0, 0, 0)
    ensures SysInv(WithBuffer(s, b, Appended(s, b, o), g, s.late))
  {
    hide SysInv, Effect, ClaimsShift, Inv, LateShift, TargetOk, NamesOk, AtOk;
    SysGraph(s);
    SysBuffer(s, b);
    AppendedOk(s.graph, s.closing, s.held, s.buffers[b], o);
    AppendedClaims(s, b, o, g);
    SameLate(s, WithBuffer(s, b, Appended(s, b, o), g, s.late), 0);
    BufferKeepsInv(s, b, Appended(s, b, o), g, s.late, 0, 0, 0, 0);
  }

  predicate CanAppendHandle(s: System, b: nat, op: nat, todo: Option<nat>) {
    && CanAppend(s, b) && op in s.held
    && (todo.Some? ==> Live(s.graph, s.held[op]) && (s.graph.nodes[s.held[op]].proc.value, todo.value) !in s.left)
  }

  /** `binder_inc_ref_for_node` for the node held, on behalf of the buffer's owner; for an object
      of the sender with the list of the sending thread. */
  function AppendHandle(s: System, b: nat, op: nat, strong: bool, todo: Option<nat>): System
    requires SysInv(s) && CanAppendHandle(s, b, op, todo)
  {
    hide SysInv;
    SysGraph(s);
    var n := s.held[op];
    var to := s.buffers[b].owner;
    IncRefForNodeFacts(s.graph, to, n, strong, todo);
    var inc := IncRefForNode(s.graph, to, n, strong, todo);
    if inc.ok then
      WithBuffer(s, b, Appended(s, b, Handle(inc.state.refs[inc.state.byNode[(to, n)]].desc, strong)), inc.state, s.late)
    else OnGraph(s, inc.state)
  }

  lemma AppendHandleKeepsInv(s: System, b: nat, op: nat, strong: bool, todo: Option<nat>)
    requires SysInv(s) && CanAppendHandle(s, b, op, todo)
    ensures SysInv(AppendHandle(s, b, op, strong, todo))
  {
    hide SysInv, Effect, IncRefForNode, WithBuffer, Inv;
    SysGraph(s);
    var n := s.held[op];
    var to := s.buffers[b].owner;
    IncRefForNodeFacts(s.graph, to, n, strong, todo);
    IncRefForNodeEffect(s.graph, to, n, strong, todo);
    var inc := IncRefForNode(s.graph, to, n, strong, todo);
    if inc.ok {
      AppendKeepsInv(s, b, Handle(inc.state.refs[inc.state.byNode[(to, n)]].desc, strong), inc.state);
    } else {
      OnGraphKeepsInv(s, inc.state);
    }
  }

  predicate CanAppendBinder(s: System, b: nat, op: nat) {
    && CanAppend(s, b) && op in s.held && Live(s.graph, s.held[op])
    && s.graph.nodes[s.held[op]].proc == Some(s.buffers[b].owner)
  }

  /** The branch of `binder_translate_handle` for a node of the target process. */
  function AppendBinder(s: System, b: nat, op: nat, strong: bool): System
    requires CanAppendBinder(s, b, op)
  {
    var x := s.graph.nodes[s.held[op]];
    WithBuffer(s, b, Appended(s, b, Binder(x.ptr, x.cookie, strong)), AddObject(s.graph, s.held[op], strong), s.late)
  }

  lemma AppendBinderClaims(s: System, b: nat, op: nat, strong: bool)
    requires Inv(s.graph) && CanAppendBinder(s, b, op) && s.buffers[b].done <= |s.buffers[b].objs|
    ensures ClaimsShift(s, AppendBinder(s, b, op, strong), s.held[op], 0, One(strong), One(!strong), 0)
  {
    hide Naming, Targeting, Holders, Inv, AddObject;
    var n := s.held[op];
    var o := Binder(s.graph.nodes[n].ptr, s.graph.nodes[n].cookie, strong);
    var x := Appended(s, b, o);
    forall m | m in s.graph.nodes
      ensures ClaimShift(s, AppendBinder(s, b, op, strong), m, 0, At(m, n, One(strong)), At(m, n, One(!strong)), 0)
    {
      TargetingChanged(s.buffers, b, x, m);
      if s.graph.nodes[m].proc.Some? {
        NamingAppended(s.buffers, b, x, o, s.graph.nodes[m].proc.value, s.graph.nodes[m].ptr, true);
        NamingAppended(s.buffers, b, x, o, s.graph.nodes[m].proc.value, s.graph.nodes[m].ptr, false);
        if s.graph.nodes[m].proc == s.graph.nodes[n].proc && s.graph.nodes[m].ptr == s.graph.nodes[n].ptr {
          OneNodePerName(s.graph, m, n);
        }
      }
    }
  }

  lemma AppendBinderKeepsInv(s: System, b: nat, op: nat, strong: bool)
    requires SysInv(s) && CanAppendBinder(s, b, op)
    ensures SysInv(AppendBinder(s, b, op, strong))
  {
    hide SysInv, Effect, ClaimsShift, Inv, LateShift, TargetOk, NamesOk, AtOk;
    SysGraph(s);
    SysBuffer(s, b);
    var n := s.held[op];
    var x := s.graph.nodes[n];
    InvPtr(s.graph, n);
    AddObjectEffect(s.graph, n, strong);
    AppendBinderClaims(s, b, op, strong);
    AppendedOk(s.graph, s.closing, s.held, s.buffers[b], Binder(x.ptr, x.cookie, strong));
    LiveIsNotLate(s, AppendBinder(s, b, op, strong), n, One(strong), One(!strong));
    BufferKeepsInv(s, b, Appended(s, b, Binder(x.ptr, x.cookie, strong)), AddObject(s.graph, n, strong), s.late, n, 0, One(strong), One(!strong));
  }

  lemma LiveIsNotLate(s: System, s': System, n: nat, strong: int, weak: int)
    requires s'.late == s.late && Live(s.graph, n)
    ensures LateShift(s, s', n, strong, weak)
  {
  }
}
