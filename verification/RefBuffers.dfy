/** Nodes and refs together with what their local counts stand for: the transactions and buffers
    that target a node, the translated objects that name it, the operations in progress that
    hold it, and the context manager.

    The multisets that `RefGraph` books entitlements in are tied here to that state: each equals
    a number of buffers, of objects in them or of operations. */
module RefBuffers {
  import opened Common
  import opened RefGraph
  import opened RefOps
  import opened RefUndo
  import opened RefEffects

  /** A buffer under construction by a sender, delivered, taken apart by the sender that failed,
      or freed by its owner. */
  datatype Phase = Building | Delivered | Aborting | Freeing

  /** Objects are translated one after the other and later released one after the other; `done`
      of them have been released.  `maker` is the operation of the sender that holds the target,
      `at` the operation that holds the node of the object being released. */
  datatype Buffer = Buffer(owner: nat, target: Option<nat>, maker: nat, objs: seq<Object>, done: nat, phase: Phase, at: Option<nat>)

  /** History: local counts given back to a node after its process had died. */
  datatype Late = Late(strong: multiset<nat>, weak: multiset<nat>)

  /** `held`: operations in progress and the node each holds a temporary reference on.
      `closing`: processes being released.  `retired`: nodes that were the context manager's
      when the release of their process began.  `left`: threads, numbered per process, that
      have left. */
  datatype System = System(graph: State, buffers: map<nat, Buffer>, held: map<nat, nat>, closing: set<nat>, retired: set<nat>, late: Late, left: set<(nat, nat)>)

  // ---------- what the counts of a node stand for ----------

  ghost function Targeting(buffers: map<nat, Buffer>, n: nat): set<nat> {
    set b | b in buffers && buffers[b].target == Some(n)
  }

  predicate Names(o: Object, ptr: nat, strong: bool) {
    o.Binder? && o.ptr == ptr && o.strong == strong
  }

  /** The objects in buffers of process p, not yet released, that name its pointer `ptr`. */
  ghost function Naming(buffers: map<nat, Buffer>, p: nat, ptr: nat, strong: bool): set<(nat, nat)> {
    set b, i | b in buffers && buffers[b].owner == p && buffers[b].done <= i < |buffers[b].objs| && Names(buffers[b].objs[i], ptr, strong) :: (b, i)
  }

  ghost function Holders(held: map<nat, nat>, n: nat): set<nat> {
    set op | op in held && held[op] == n
  }

  predicate IsManager(s: System, n: nat) {
    s.graph.ctx == Some(n) || n in s.retired
  }

  // ---------- the invariant ----------

  /** The entitlements of node n are what the buffers, the operations and the context say. */
  ghost predicate Booked(s: System, n: nat)
    requires n in s.graph.nodes
  {
    var x := s.graph.nodes[n];
    var d := s.graph.dues;
    && d.temps[n] == |Holders(s.held, n)|
    && (x.proc.Some? ==>
          && d.targets[n] == |Targeting(s.buffers, n)|
          && d.strongObjects[n] == |Naming(s.buffers, x.proc.value, x.ptr, true)|
          && d.weakObjects[n] == |Naming(s.buffers, x.proc.value, x.ptr, false)|
          && d.managers[n] == One(IsManager(s, n)))
  }

  ghost predicate BooksOk(s: System) {
    forall n :: n in s.graph.nodes ==> Booked(s, n)
  }

  predicate NamesOk(g: State, closing: set<nat>, x: Buffer) {
    x.owner !in closing ==>
      forall i :: x.done <= i < |x.objs| && x.objs[i].Binder? ==> (x.owner, x.objs[i].ptr) in g.byPtr
  }

  predicate TargetOk(g: State, closing: set<nat>, held: map<nat, nat>, x: Buffer) {
    x.target.Some? ==>
      var n := x.target.value;
      && n < g.nextId
      && (x.owner !in closing ==> Live(g, n))
      && (Live(g, n) ==> g.nodes[n].proc == Some(x.owner))
      && (x.phase.Building? ==> x.maker in held && held[x.maker] == n)
  }

  /** The node of the object being released, which may have lost its process. */
  predicate AtOk(g: State, closing: set<nat>, held: map<nat, nat>, x: Buffer) {
    x.at.Some? ==>
      && (x.phase.Aborting? || x.phase.Freeing?) && x.done < |x.objs| && x.objs[x.done].Binder? && x.at.value in held
      && var n := held[x.at.value]; var k := (x.owner, x.objs[x.done].ptr);
        && n in g.nodes
        && (Live(g, n) ==> k in g.byPtr && g.byPtr[k] == n)
        && (!Live(g, n) ==> x.owner in closing && k !in g.byPtr)
  }

  predicate BufferOk(g: State, closing: set<nat>, held: map<nat, nat>, x: Buffer) {
    && x.done <= |x.objs| && (x.phase.Building? || x.phase.Delivered? ==> x.done == 0)
    && (x.phase.Freeing? ==> x.owner !in closing) && (x.target.Some? ==> x.phase.Building? || x.phase.Delivered?)
    && TargetOk(g, closing, held, x) && NamesOk(g, closing, x) && AtOk(g, closing, held, x)
  }

  predicate HeldOk(g: State, held: map<nat, nat>) {
    forall op :: op in held ==> held[op] in g.nodes
  }

  predicate ManagerOk(s: System) {
    && (s.graph.ctx.Some? ==>
          Live(s.graph, s.graph.ctx.value) && s.graph.nodes[s.graph.ctx.value].proc.value !in s.closing)
    && (forall n :: n in s.retired ==> n < s.graph.nextId && (Live(s.graph, n) ==> s.graph.nodes[n].proc.value in s.closing))
  }

  /** A node without a process has what was given back late, and stays only while something
      keeps it; a node that was given something back late never goes. */
  predicate LateNode(g: State, late: Late, n: nat)
    requires n in g.nodes
  {
    g.nodes[n].proc.None? ==>
      g.nodes[n].localStrong + late.strong[n] == 0 && g.nodes[n].localWeak + late.weak[n] == 0 && Sustained(g.nodes[n])
  }

  ghost predicate LateOk(g: State, late: Late) {
    && (forall n :: n in g.nodes ==> LateNode(g, late, n))
    && (forall n: nat :: late.strong[n] > 0 || late.weak[n] > 0 ==> n in g.nodes && !Live(g, n))
  }

  ghost predicate SysInv(s: System) {
    && Inv(s.graph)
    && BooksOk(s)
    && (forall b :: b in s.buffers ==> BufferOk(s.graph, s.closing, s.held, s.buffers[b]))
    && HeldOk(s.graph, s.held) && ManagerOk(s) && LateOk(s.graph, s.late)
  }

  lemma SysGraph(s: System)
    requires SysInv(s)
    ensures Inv(s.graph) && HeldOk(s.graph, s.held) && ManagerOk(s) && LateOk(s.graph, s.late)
  {
  }

  lemma SysFromParts(s: System)
    requires Inv(s.graph) && HeldOk(s.graph, s.held) && ManagerOk(s) && LateOk(s.graph, s.late)
    requires forall n :: n in s.graph.nodes ==> Booked(s, n)
    requires forall b :: b in s.buffers ==> BufferOk(s.graph, s.closing, s.held, s.buffers[b])
    ensures SysInv(s)
  {
  }

  lemma SysNode(s: System, n: nat)
    requires SysInv(s) && n in s.graph.nodes
    ensures Booked(s, n) && LateNode(s.graph, s.late, n)
  {
  }

  lemma SysBuffer(s: System, b: nat)
    requires SysInv(s) && b in s.buffers
    ensures BufferOk(s.graph, s.closing, s.held, s.buffers[b])
  {
  }

  // ---------- a step that shifts the claims on one node ----------

  /** The claims on node n change by these amounts, the claims on all others stay. */
  ghost predicate ClaimsShift(s: System, s': System, n: nat, targets: int, strong: int, weak: int, temps: int) {
    forall m :: m in s.graph.nodes ==> ClaimShift(s, s', m, At(m, n, targets), At(m, n, strong), At(m, n, weak), At(m, n, temps))
  }

  ghost predicate ClaimShift(s: System, s': System, m: nat, targets: int, strong: int, weak: int, temps: int)
    requires m in s.graph.nodes
  {
    var x := s.graph.nodes[m];
    && |Holders(s'.held, m)| == |Holders(s.held, m)| + temps
    && (x.proc.Some? ==>
          && |Targeting(s'.buffers, m)| == |Targeting(s.buffers, m)| + targets
          && |Naming(s'.buffers, x.proc.value, x.ptr, true)| == |Naming(s.buffers, x.proc.value, x.ptr, true)| + strong
          && |Naming(s'.buffers, x.proc.value, x.ptr, false)| == |Naming(s.buffers, x.proc.value, x.ptr, false)| + weak)
  }

  /** What is given back to a node without a process is on record. */
  ghost predicate LateShift(s: System, s': System, n: nat, strong: int, weak: int) {
    var dead := n in s.graph.nodes && s.graph.nodes[n].proc.None?;
    forall m: nat ::
      && s'.late.strong[m] == s.late.strong[m] - (if dead then At(m, n, strong) else 0)
      && s'.late.weak[m] == s.late.weak[m] - (if dead then At(m, n, weak) else 0)
  }

  ghost predicate Balanced(s: System, s': System, n: nat, targets: int, strong: int, weak: int, temps: int) {
    && Effect(s.graph, s'.graph, n, targets, strong, weak, temps)
    && ClaimsShift(s, s', n, targets, strong, weak, temps)
    && LateShift(s, s', n, targets + strong, weak)
    && s'.closing == s.closing && s'.retired == s.retired
    && HeldOk(s.graph, s'.held)
    && forall b :: b in s'.buffers ==> BufferOk(s.graph, s.closing, s'.held, s'.buffers[b])
  }

  lemma ShiftedBooks(s: System, s': System, n: nat, t: int, strong: int, weak: int, temps: int, m: nat)
    requires m in s.graph.nodes && Booked(s, m) && m in s'.graph.nodes
    requires Shifts(s.graph, s'.graph, n, t, strong, weak, temps)
    requires ClaimShift(s, s', m, At(m, n, t), At(m, n, strong), At(m, n, weak), At(m, n, temps))
    requires s'.retired == s.retired
    ensures Booked(s', m)
  {
  }

  /** Nobody has a claim on a node that goes. */
  lemma GoneIsUnclaimed(s: System, s': System, n: nat, t: int, strong: int, weak: int, temps: int, m: nat)
    requires m in s.graph.nodes && Booked(s, m) && m !in s'.graph.nodes
    requires Shifts(s.graph, s'.graph, n, t, strong, weak, temps)
    requires ClaimShift(s, s', m, At(m, n, t), At(m, n, strong), At(m, n, weak), At(m, n, temps))
    ensures Holders(s'.held, m) == {}
    ensures s.graph.nodes[m].proc.Some? ==>
              var x := s.graph.nodes[m];
              Targeting(s'.buffers, m) == {} && Naming(s'.buffers, x.proc.value, x.ptr, true) == {} && Naming(s'.buffers, x.proc.value, x.ptr, false) == {}
  {
  }

  lemma NamedIsThere(buffers: map<nat, Buffer>, b: nat, i: nat)
    requires b in buffers && buffers[b].done <= i < |buffers[b].objs| && buffers[b].objs[i].Binder?
    ensures (b, i) in Naming(buffers, buffers[b].owner, buffers[b].objs[i].ptr, buffers[b].objs[i].strong)
  {
  }

  lemma BalancedStays(s: System, s': System, n: nat, t: int, strong: int, weak: int, temps: int, m: nat)
    requires SysInv(s) && Balanced(s, s', n, t, strong, weak, temps) && m in s.graph.nodes
    ensures m in s'.graph.nodes ==> Booked(s', m)
    ensures m !in s'.graph.nodes ==>
              && Holders(s'.held, m) == {}
              && (s.graph.nodes[m].proc.Some? ==>
                    var x := s.graph.nodes[m];
                    Targeting(s'.buffers, m) == {} && Naming(s'.buffers, x.proc.value, x.ptr, true) == {} && Naming(s'.buffers, x.proc.value, x.ptr, false) == {})
  {
    SysNode(s, m);
    hide SysInv, Shifts, DeadShift, Booked, ClaimShift, HeldOk, BufferOk, LateShift;
    if m in s'.graph.nodes {
      ShiftedBooks(s, s', n, t, strong, weak, temps, m);
    } else {
      GoneIsUnclaimed(s, s', n, t, strong, weak, temps, m);
    }
  }

  /** A name in use stays. */
  lemma BalancedName(s: System, s': System, n: nat, t: int, strong: int, weak: int, temps: int, b: nat, i: nat)
    requires SysInv(s) && Balanced(s, s', n, t, strong, weak, temps)
    requires b in s'.buffers && s'.buffers[b].done <= i < |s'.buffers[b].objs| && s'.buffers[b].objs[i].Binder?
    requires (s'.buffers[b].owner, s'.buffers[b].objs[i].ptr) in s.graph.byPtr
    ensures (s'.buffers[b].owner, s'.buffers[b].objs[i].ptr) in s'.graph.byPtr
  {
    var k := (s'.buffers[b].owner, s'.buffers[b].objs[i].ptr);
    var m := s.graph.byPtr[k];
    SysGraph(s);
    PtrIsLive(s.graph, k.0, k.1);
    BalancedStays(s, s', n, t, strong, weak, temps, m);
    NamedIsThere(s'.buffers, b, i);
    hide SysInv, Inv, DeadShift, ClaimsShift, LateShift, BufferOk, Naming, Booked;
    assert (b, i) in Naming(s'.buffers, k.0, k.1, true) || (b, i) in Naming(s'.buffers, k.0, k.1, false);
  }

  lemma TargetIsThere(buffers: map<nat, Buffer>, b: nat)
    requires b in buffers && buffers[b].target.Some?
    ensures b in Targeting(buffers, buffers[b].target.value)
  {
  }

  lemma BalancedTarget(s: System, s': System, n: nat, t: int, strong: int, weak: int, temps: int, b: nat)
    requires SysInv(s) && Balanced(s, s', n, t, strong, weak, temps) && b in s'.buffers
    ensures TargetOk(s'.graph, s.closing, s'.held, s'.buffers[b])
  {
    var x := s'.buffers[b];
    assert BufferOk(s.graph, s.closing, s'.held, x);
    if x.target.Some? {
      var m := x.target.value;
      if Live(s.graph, m) {
        BalancedStays(s, s', n, t, strong, weak, temps, m);
        TargetIsThere(s'.buffers, b);
      }
      hide SysInv, Inv, DeadShift, ClaimsShift, LateShift, Targeting, Naming, Booked;
    }
  }

  lemma HolderIsThere(held: map<nat, nat>, op: nat)
    requires op in held
    ensures op in Holders(held, held[op])
  {
  }

  lemma BalancedHeld(s: System, s': System, n: nat, t: int, strong: int, weak: int, temps: int, op: nat)
    requires SysInv(s) && Balanced(s, s', n, t, strong, weak, temps) && op in s'.held
    ensures s'.held[op] in s'.graph.nodes
  {
    BalancedStays(s, s', n, t, strong, weak, temps, s'.held[op]);
    HolderIsThere(s'.held, op);
  }

  lemma BalancedAt(s: System, s': System, n: nat, t: int, strong: int, weak: int, temps: int, b: nat)
    requires SysInv(s) && Balanced(s, s', n, t, strong, weak, temps) && b in s'.buffers
    ensures AtOk(s'.graph, s.closing, s'.held, s'.buffers[b])
  {
    var x := s'.buffers[b];
    assert BufferOk(s.graph, s.closing, s'.held, x);
    if x.at.Some? {
      BalancedHeld(s, s', n, t, strong, weak, temps, x.at.value);
      hide SysInv, Inv, DeadShift, ClaimsShift, LateShift, Targeting, Naming, Booked;
    }
  }

  lemma BalancedBuffer(s: System, s': System, n: nat, t: int, strong: int, weak: int, temps: int, b: nat)
    requires SysInv(s) && Balanced(s, s', n, t, strong, weak, temps) && b in s'.buffers
    ensures BufferOk(s'.graph, s.closing, s'.held, s'.buffers[b])
  {
    var x := s'.buffers[b];
    BalancedTarget(s, s', n, t, strong, weak, temps, b);
    BalancedAt(s, s', n, t, strong, weak, temps, b);
    assert BufferOk(s.graph, s.closing, s'.held, x);
    hide SysInv, Effect, ClaimsShift, LateShift, TargetOk, AtOk, HeldOk;
    if x.owner !in s.closing {
      forall i | x.done <= i < |x.objs| && x.objs[i].Binder?
        ensures (x.owner, x.objs[i].ptr) in s'.graph.byPtr
      {
        BalancedName(s, s', n, t, strong, weak, temps, b, i);
      }
    }
  }

  lemma ShiftedLate(s: System, s': System, n: nat, strong: int, weak: int, m: nat)
    requires m in s.graph.nodes && m in s'.graph.nodes && s'.graph.nodes[m].proc == s.graph.nodes[m].proc
    requires LateNode(s.graph, s.late, m) && DeadShift(s.graph, s'.graph, n, strong, weak) && LateShift(s, s', n, strong, weak)
    ensures LateNode(s'.graph, s'.late, m)
  {
    hide Sustained;
  }

  lemma LateIsDead(s: System, s': System, n: nat, strong: int, weak: int, m: nat)
    requires LateOk(s.graph, s.late) && LateShift(s, s', n, strong, weak) && DeadShift(s.graph, s'.graph, n, strong, weak)
    requires forall k :: k in s'.graph.nodes ==> k in s.graph.nodes && s'.graph.nodes[k].proc == s.graph.nodes[k].proc
    requires s'.late.strong[m] > 0 || s'.late.weak[m] > 0
    ensures m in s'.graph.nodes && !Live(s'.graph, m)
  {
    if m in s.graph.nodes {
      assert LateNode(s.graph, s.late, m);
    }
  }

  lemma BalancedLate(s: System, s': System, n: nat, t: int, strong: int, weak: int, temps: int)
    requires SysInv(s) && Balanced(s, s', n, t, strong, weak, temps)
    ensures LateOk(s'.graph, s'.late)
  {
    hide SysInv, Inv, ClaimsShift, HeldOk, BufferOk, LateShift, DeadShift, LateNode, ManagerOk;
    SysGraph(s);
    forall m | m in s'.graph.nodes
      ensures LateNode(s'.graph, s'.late, m)
    {
      ShiftedLate(s, s', n, t + strong, weak, m);
    }
    hide LateOk;
    var dead := s'.late;
    forall m: nat | dead.strong[m] > 0 || dead.weak[m] > 0
      ensures m in s'.graph.nodes && !Live(s'.graph, m)
    {
      LateIsDead(s, s', n, t + strong, weak, m);
    }
    LateFromParts(s'.graph, s'.late);
  }

  lemma LateFromParts(g: State, late: Late)
    requires forall n :: n in g.nodes ==> LateNode(g, late, n)
    requires forall n: nat :: late.strong[n] > 0 || late.weak[n] > 0 ==> n in g.nodes && !Live(g, n)
    ensures LateOk(g, late)
  {
  }

  lemma SysId(s: System, n: nat)
    requires SysInv(s) && n in s.graph.nodes
    ensures n < s.graph.nextId
  {
    InvNode(s.graph, n);
  }

  lemma BalancedKeepsInv(s: System, s': System, n: nat, t: int, strong: int, weak: int, temps: int)
    requires SysInv(s) && Balanced(s, s', n, t, strong, weak, temps)
    ensures SysInv(s')
  {
    BalancedLate(s, s', n, t, strong, weak, temps);
    SysGraph(s);
    hide DeadShift, ClaimsShift, LateShift, BufferOk, Booked, LateOk;
    forall m | m in s'.graph.nodes
      ensures Booked(s', m)
    {
      BalancedStays(s, s', n, t, strong, weak, temps, m);
    }
    forall b | b in s'.buffers
      ensures BufferOk(s'.graph, s'.closing, s'.held, s'.buffers[b])
    {
      BalancedBuffer(s, s', n, t, strong, weak, temps, b);
    }
    forall op | op in s'.held
      ensures s'.held[op] in s'.graph.nodes
    {
      BalancedHeld(s, s', n, t, strong, weak, temps, op);
    }
    assert ManagerOk(s') by {
      BalancedManager(s, s', n, t, strong, weak, temps);
    }
  }

  lemma BalancedManager(s: System, s': System, n: nat, t: int, strong: int, weak: int, temps: int)
    requires SysInv(s) && Balanced(s, s', n, t, strong, weak, temps)
    ensures ManagerOk(s')
  {
    SysGraph(s);
    hide SysInv, DeadShift, ClaimsShift, LateShift, BufferOk, Booked;
    InvTrees(s'.graph);
    hide NodesOk, RefsOk, Inv;
  }
}
