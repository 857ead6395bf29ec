/** The ledger of references: which step changes which count of which ref, and by how much; what
    a buffer holds after each step; and that user space is told of every reference. */
module RefLedger {
  import opened Common
  import opened RefGraph
  import opened RefOps
  import opened RefCounts
  import opened RefUndo
  import opened RefRelease
  import opened RefBuffers
  import opened RefSystem
  import opened RefTeardown
  import opened RefProcs
  import opened RefRuns
  import opened RefNames
  import opened RefWork

  /** What process p holds on node n. */
  function CountOf(g: State, p: nat, n: nat, strong: bool): nat {
    if strong then StrongOf(g, p, n) else WeakOf(g, p, n)
  }

  predicate IsRefOf(g: State, r: nat, p: nat, n: nat) {
    r in g.refs && g.refs[r].proc == p && g.refs[r].node == n
  }

  /** What a step adds to the count that process p holds on node n. */
  ghost function Added(s: System, step: Step, p: nat, n: nat, strong: bool): int
    requires SysInv(s) && Enabled(s, step)
  {
    hide SysInv, Inv;
    GraphFacts(s);
    var g := s.graph;
    match step
    case ObjectToHandle(b, op, st, todo) =>
      if st == strong && p == s.buffers[b].owner && n == s.held[op] && CanTell(g, p, n, st, todo) then 1 else 0
    case ManagerRef(q, st) => if st == strong && p == q && g.ctx == Some(n) && CanTell(g, p, n, st, None) then 1 else 0
    case RefUp(r, st) => if st == strong && IsRefOf(g, r, p, n) && CanTell(g, p, n, st, None) then 1 else 0
    case RefDown(r, st) => if st == strong && IsRefOf(g, r, p, n) && CountOf(g, p, n, strong) > 0 then -1 else 0
    case ReleasesOther(b) =>
      var o := NextObject(s, b);
      if o.Handle? && o.strong == strong && s.buffers[b].owner == p && NodeNamed(g, p, o) == Some(n) && CountOf(g, p, n, strong) > 0
      then -1 else 0
    case RefDies(r) => if IsRefOf(g, r, p, n) then 0 - CountOf(g, p, n, strong) else 0
    case _ => 0
  }

  // ---------- one step ----------

  lemma Shifted(g: State, g': State, q: nat, m: nat, a: int, b: int, p: nat, n: nat, strong: bool)
    requires RefsShift(g, g', q, m, a, b)
    ensures CountOf(g', p, n, strong) == CountOf(g, p, n, strong) + (if p == q && n == m then if strong then a else b else 0)
  {
  }

  predicate ChangesRefs(step: Step) {
    step.ObjectToHandle? || step.ManagerRef? || step.RefUp? || step.RefDown? || step.ReleasesOther? || step.RefDies?
  }

  predicate SameRefs(g: State, g': State) {
    g'.refs == g.refs && g'.byNode == g.byNode
  }

  lemma HoldKeepsRefs(s: System, step: Step)
    requires SysInv(s) && Enabled(s, step)
    requires step.NodeCreated? || step.NodeFound? || step.NodeOfRef? || step.NodePut? || step.TransactionBegins? || step.LooksUp?
    ensures SameRefs(s.graph, Next(s, step).graph)
  {
    hide SysInv, Inv, DecN, IncN;
    GraphFacts(s);
  }

  lemma BufferKeepsRefs(s: System, step: Step)
    requires SysInv(s) && Enabled(s, step) && (step.ObjectToBinder? || step.ReleaseBegins? || step.GivesBack?)
    ensures SameRefs(s.graph, Next(s, step).graph)
  {
    hide SysInv, Inv, DecN, IncN;
  }

  lemma NodeKeepsRefs(s: System, step: Step)
    requires SysInv(s) && Enabled(s, step)
    requires step.NodeWorkRead? || step.WorkThrownAway? || step.UserDone? || step.ManagerSet? || step.NodeDies? || step.ProcCloses?
    ensures SameRefs(s.graph, Next(s, step).graph)
  {
    hide SysInv, Inv, DecN, WorkN;
    GraphFacts(s);
  }

  lemma OtherKeepsRefs(s: System, step: Step)
    requires SysInv(s) && Enabled(s, step)
    requires step.ReplyBegins? || step.InertObject? || step.Delivers? || step.PassesOver? || step.ReleaseEnds? || step.ThreadLeaves? || step.ProcForgotten?
    ensures SameRefs(s.graph, Next(s, step).graph)
  {
    hide SysInv, Inv;
  }

  /** All other steps leave the refs alone. */
  lemma RefsStay(s: System, step: Step)
    requires SysInv(s) && Enabled(s, step) && !ChangesRefs(step)
    ensures SameRefs(s.graph, Next(s, step).graph)
  {
    hide SysInv, Enabled, Next, SameRefs;
    if step.NodeCreated? || step.NodeFound? || step.NodeOfRef? || step.NodePut? || step.TransactionBegins? || step.LooksUp? {
      HoldKeepsRefs(s, step);
    } else if step.ObjectToBinder? || step.ReleaseBegins? || step.GivesBack? {
      BufferKeepsRefs(s, step);
    } else if step.NodeWorkRead? || step.WorkThrownAway? || step.UserDone? || step.ManagerSet? || step.NodeDies? || step.ProcCloses? {
      NodeKeepsRefs(s, step);
    } else {
      OtherKeepsRefs(s, step);
    }
  }

  lemma SameRefsSameCount(g: State, g': State, p: nat, n: nat, strong: bool)
    requires SameRefs(g, g')
    ensures CountOf(g', p, n, strong) == CountOf(g, p, n, strong)
  {
  }

  lemma IncLedger(g: State, q: nat, m: nat, st: bool, todo: Option<nat>, p: nat, n: nat, strong: bool)
    requires Inv(g) && m in g.nodes
    ensures CountOf(IncRefForNode(g, q, m, st, todo).state, p, n, strong)
         == CountOf(g, p, n, strong) + if st == strong && p == q && n == m && CanTell(g, q, m, st, todo) then 1 else 0
  {
    hide Inv, RefsShift, IncRefForNode, CanTell, CountOf;
    IncRefForNodeCounts(g, q, m, st, todo);
    IncRefForNodeOk(g, q, m, st, todo);
    var inc := IncRefForNode(g, q, m, st, todo);
    if inc.ok {
      Shifted(g, inc.state, q, m, One(st), One(!st), p, n, strong);
    } else {
      Shifted(g, inc.state, 0, 0, 0, 0, p, n, strong);
    }
  }

  lemma RefIsItsOwn(g: State, r: nat)
    requires Inv(g) && r in g.refs
    ensures var x := g.refs[r];
            && x.node in g.nodes && (x.proc, x.node) in g.byNode && g.byNode[(x.proc, x.node)] == r
            && (x.proc, x.desc) in g.byDesc && g.byDesc[(x.proc, x.desc)] == r
            && StrongOf(g, x.proc, x.node) == x.strong && WeakOf(g, x.proc, x.node) == x.weak
  {
    hide Inv;
    InvRef(g, r);
  }

  lemma UpLedger(g: State, r: nat, st: bool, p: nat, n: nat, strong: bool)
    requires Inv(g) && r in g.refs && g.refs[r].node in g.nodes
    ensures IsRefOf(g, r, p, n) ==> n in g.nodes
    ensures CountOf(IncRef(g, r, st, None).state, p, n, strong)
         == CountOf(g, p, n, strong) + if st == strong && IsRefOf(g, r, p, n) && CanTell(g, p, n, st, None) then 1 else 0
  {
    hide Inv, IncRef, CanTell, CountOf;
    RefIsItsOwn(g, r);
    IncLedger(g, g.refs[r].proc, g.refs[r].node, st, None, p, n, strong);
  }

  lemma DownLedger(g: State, r: nat, st: bool, p: nat, n: nat, strong: bool)
    requires Inv(g) && r in g.refs
    ensures CountOf(DecRef(g, r, st), p, n, strong)
         == CountOf(g, p, n, strong) - if st == strong && IsRefOf(g, r, p, n) && CountOf(g, p, n, strong) > 0 then 1 else 0
  {
    hide Inv, RefsShift, DecRef;
    DecRefCounts(g, r, st);
    RefIsItsOwn(g, r);
    var x := g.refs[r];
    if (if st then x.strong else x.weak) > 0 {
      Shifted(g, DecRef(g, r, st), x.proc, x.node, 0 - One(st), 0 - One(!st), p, n, strong);
    }
  }

  lemma GoneLedger(g: State, r: nat, p: nat, n: nat, strong: bool)
    requires Inv(g) && r in g.refs
    ensures CountOf(Cleanup(g, r), p, n, strong) == if IsRefOf(g, r, p, n) then 0 else CountOf(g, p, n, strong)
  {
    hide Inv, RefsShift, TakeOut, LowerStrong, ByNodeOk;
    InvByNode(g);
    RefIsItsOwn(g, r);
    StrongIsCounted(g, r);
    var x := g.refs[r];
    if x.strong > 0 {
      LowerStrongKeepsInv(g, r, 0);
      LowerStrongCounts(g, r, 0);
      LoweredRef(g, r, 0);
      var g1 := LowerStrong(g, r, 0);
      InvByNode(g1);
      RefIsItsOwn(g1, r);
      TakeOutRefs(g1, r);
      Shifted(g, g1, x.proc, x.node, 0 - x.strong, 0, p, n, strong);
      Shifted(g1, TakeOut(g1, r), x.proc, x.node, 0, 0 - x.weak, p, n, strong);
    } else {
      TakeOutRefs(g, r);
      Shifted(g, TakeOut(g, r), x.proc, x.node, 0, 0 - x.weak, p, n, strong);
    }
  }

  lemma ReleasedLedger(s: System, b: nat, p: nat, n: nat, strong: bool)
    requires SysInv(s) && Enabled(s, ReleasesOther(b))
    ensures CountOf(Next(s, ReleasesOther(b)).graph, p, n, strong) == CountOf(s.graph, p, n, strong) + Added(s, ReleasesOther(b), p, n, strong)
  {
    hide SysInv, Inv, DecRef;
    SysGraph(s);
    match NextObject(s, b)
    case Inert =>
    case Handle(desc, st) =>
      var g := s.graph;
      var owner := s.buffers[b].owner;
      if (owner, desc) in g.byDesc {
        ByDescIsRef(g, owner, desc);
        var r := g.byDesc[(owner, desc)];
        RefIsItsOwn(g, r);
        DownLedger(g, r, st, p, n, strong);
      }
  }

  lemma RaisedLedger(s: System, step: Step, p: nat, n: nat, strong: bool)
    requires SysInv(s) && Enabled(s, step) && (step.ObjectToHandle? || step.ManagerRef? || step.RefUp?)
    ensures CountOf(Next(s, step).graph, p, n, strong) == CountOf(s.graph, p, n, strong) + Added(s, step, p, n, strong)
  {
    hide SysInv, Inv, IncRefForNode, IncRef, CanTell, CountOf;
    GraphFacts(s);
    match step
    case ObjectToHandle(b, op, st, todo) => IncLedger(s.graph, s.buffers[b].owner, s.held[op], st, todo, p, n, strong);
    case ManagerRef(q, st) => IncLedger(s.graph, q, s.graph.ctx.value, st, None, p, n, strong);
    case RefUp(r, st) => UpLedger(s.graph, r, st, p, n, strong);
  }

  lemma LoweredLedger(s: System, step: Step, p: nat, n: nat, strong: bool)
    requires SysInv(s) && Enabled(s, step) && (step.RefDown? || step.RefDies?)
    ensures CountOf(Next(s, step).graph, p, n, strong) == CountOf(s.graph, p, n, strong) + Added(s, step, p, n, strong)
  {
    hide SysInv, Inv, DecRef, Cleanup, CountOf;
    GraphFacts(s);
    match step
    case RefDown(r, st) => DownLedger(s.graph, r, st, p, n, strong);
    case RefDies(r) => GoneLedger(s.graph, r, p, n, strong);
  }

  lemma NothingAdded(s: System, step: Step, p: nat, n: nat, strong: bool)
    requires SysInv(s) && Enabled(s, step) && !ChangesRefs(step)
    ensures Added(s, step, p, n, strong) == 0
  {
    hide SysInv, Inv, Enabled;
  }

  /** Every count of every ref after every step: it changes exactly as the table says. */
  lemma StepLedger(s: System, step: Step, p: nat, n: nat, strong: bool)
    requires SysInv(s) && Enabled(s, step)
    ensures CountOf(Next(s, step).graph, p, n, strong) == CountOf(s.graph, p, n, strong) + Added(s, step, p, n, strong)
  {
    hide SysInv, Inv, Enabled, Next, Added, CountOf;
    if step.ObjectToHandle? || step.ManagerRef? || step.RefUp? {
      RaisedLedger(s, step, p, n, strong);
    } else if step.RefDown? || step.RefDies? {
      LoweredLedger(s, step, p, n, strong);
    } else if step.ReleasesOther? {
      ReleasedLedger(s, step.buffer, p, n, strong);
    } else {
      RefsStay(s, step);
      NothingAdded(s, step, p, n, strong);
      SameRefsSameCount(s.graph, Next(s, step).graph, p, n, strong);
    }
  }

  // ---------- runs ----------

  ghost function AddedIn(s: System, steps: seq<Step>, p: nat, n: nat, strong: bool): int
    requires SysInv(s) && IsRun(s, steps)
    decreases |steps|
  {
    hide SysInv, Enabled, Next, Added;
    if steps == [] then 0
    else
      RunParts(s, steps);
      Added(s, steps[0], p, n, strong) + AddedIn(Next(s, steps[0]), steps[1..], p, n, strong)
  }

  /** Every count of every ref is what the steps of the run have added to it. */
  lemma {:induction false} RunLedger(s: System, steps: seq<Step>, p: nat, n: nat, strong: bool)
    requires SysInv(s) && IsRun(s, steps)
    ensures CountOf(End(s, steps).graph, p, n, strong) == CountOf(s.graph, p, n, strong) + AddedIn(s, steps, p, n, strong)
    decreases |steps|
  {
    hide SysInv, Enabled, Next, Added, CountOf;
    if steps != [] {
      RunParts(s, steps);
      StepLedger(s, steps[0], p, n, strong);
      RunLedger(Next(s, steps[0]), steps[1..], p, n, strong);
    }
  }

  // ---------- what a buffer holds ----------

  function ObjectsOf(s: System, b: nat): seq<Object> {
    if b in s.buffers then s.buffers[b].objs else []
  }

  function ReleasedOf(s: System, b: nat): nat {
    if b in s.buffers then s.buffers[b].done else 0
  }

  /** Object o is what a step has written into buffer b. */
  ghost predicate Writes(s: System, step: Step, b: nat, o: Object)
    requires SysInv(s) && Enabled(s, step)
  {
    hide SysInv, Inv;
    GraphFacts(s);
    match step
    case ObjectToHandle(c, op, strong, todo) =>
      && b == c && CanTell(s.graph, s.buffers[b].owner, s.held[op], strong, todo)
      && o.Handle? && o.strong == strong && NodeNamed(Next(s, step).graph, s.buffers[b].owner, o) == Some(s.held[op])
    case ObjectToBinder(c, op, strong) =>
      var x := s.graph.nodes[s.held[op]];
      b == c && o == Binder(x.ptr, x.cookie, strong) && NodeNamed(Next(s, step).graph, s.buffers[b].owner, o) == Some(s.held[op])
    case InertObject(c) => b == c && o == Inert
    case _ => false
  }

  /** Whether the step writes into buffer b at all. */
  ghost predicate WritesInto(s: System, step: Step, b: nat)
    requires SysInv(s) && Enabled(s, step)
  {
    hide SysInv, Inv;
    GraphFacts(s);
    match step
    case ObjectToHandle(c, op, strong, todo) => b == c && CanTell(s.graph, s.buffers[b].owner, s.held[op], strong, todo)
    case ObjectToBinder(c, _, _) => b == c
    case InertObject(c) => b == c
    case _ => false
  }

  lemma HandleWritten(s: System, b: nat, op: nat, strong: bool, todo: Option<nat>)
    requires SysInv(s) && Enabled(s, ObjectToHandle(b, op, strong, todo)) && WritesInto(s, ObjectToHandle(b, op, strong, todo), b)
    ensures var step := ObjectToHandle(b, op, strong, todo); var s' := Next(s, step);
            b in s.buffers && b in s'.buffers && s'.buffers == s.buffers[b := s'.buffers[b]] && |s'.buffers[b].objs| > 0
            && var o := s'.buffers[b].objs[|s'.buffers[b].objs| - 1];
              Writes(s, step, b, o) && s'.buffers[b] == s.buffers[b].(objs := s.buffers[b].objs + [o])
  {
    hide SysInv, Inv, IncRefForNode, CanTell, OnlyGrows;
    GraphFacts(s);
    var n := s.held[op];
    var to := s.buffers[b].owner;
    IncRefForNodeOk(s.graph, to, n, strong, todo);
    IncRefForNodeFacts(s.graph, to, n, strong, todo);
  }

  lemma BinderWritten(s: System, b: nat, op: nat, strong: bool)
    requires SysInv(s) && Enabled(s, ObjectToBinder(b, op, strong))
    ensures var step := ObjectToBinder(b, op, strong); var s' := Next(s, step);
            b in s.buffers && b in s'.buffers && s'.buffers == s.buffers[b := s'.buffers[b]] && |s'.buffers[b].objs| > 0
            && var o := s'.buffers[b].objs[|s'.buffers[b].objs| - 1];
              Writes(s, step, b, o) && s'.buffers[b] == s.buffers[b].(objs := s.buffers[b].objs + [o])
  {
    hide SysInv, Inv, IncN;
    GraphFacts(s);
    OwnPtr(s.graph, s.held[op]);
  }

  lemma NothingWritten(s: System, b: nat, op: nat, strong: bool, todo: Option<nat>)
    requires SysInv(s) && Enabled(s, ObjectToHandle(b, op, strong, todo)) && !WritesInto(s, ObjectToHandle(b, op, strong, todo), b)
    ensures Next(s, ObjectToHandle(b, op, strong, todo)).buffers == s.buffers
  {
    hide SysInv, Inv, IncRefForNode, CanTell;
    GraphFacts(s);
    IncRefForNodeOk(s.graph, s.buffers[b].owner, s.held[op], strong, todo);
  }

  /** What is in a buffer after a step: one more object if the step writes one, with the strength
      asked for and naming, for the buffer's owner, the node that the operation holds; the same
      objects otherwise, as long as there is the buffer. */
  lemma StepObjects(s: System, step: Step, b: nat)
    requires SysInv(s) && Enabled(s, step)
    ensures var s' := Next(s, step);
            && (WritesInto(s, step, b) ==>
                  && ObjectsOf(s', b) != []
                  && var o := ObjectsOf(s', b)[|ObjectsOf(s', b)| - 1]; Writes(s, step, b, o) && ObjectsOf(s', b) == ObjectsOf(s, b) + [o])
            && (!WritesInto(s, step, b) && b in s'.buffers ==> ObjectsOf(s', b) == ObjectsOf(s, b))
            && (b in s.buffers && b in s'.buffers ==> s'.buffers[b].owner == s.buffers[b].owner)
  {
    hide SysInv, Inv, CanTell, NodeNamed, Enabled, Next;
    match step
    case ObjectToHandle(c, op, strong, todo) =>
      if WritesInto(s, step, c) {
        HandleWritten(s, c, op, strong, todo);
      } else {
        NothingWritten(s, c, op, strong, todo);
      }
    case ObjectToBinder(c, op, strong) => BinderWritten(s, c, op, strong);
    case InertObject(c) => InertWritten(s, c);
    case _ => OthersWriteNothing(s, step, b);
  }

  lemma InertWritten(s: System, b: nat)
    requires SysInv(s) && Enabled(s, InertObject(b))
    ensures var s' := Next(s, InertObject(b));
            b in s.buffers && s'.buffers == s.buffers[b := s.buffers[b].(objs := s.buffers[b].objs + [Inert])]
  {
    hide SysInv;
  }

  predicate IsWrite(step: Step) {
    step.ObjectToHandle? || step.ObjectToBinder? || step.InertObject?
  }

  lemma OthersWriteNothing(s: System, step: Step, b: nat)
    requires SysInv(s) && Enabled(s, step) && !IsWrite(step)
    ensures var s' := Next(s, step);
            && (b in s'.buffers ==> ObjectsOf(s', b) == ObjectsOf(s, b))
            && (b in s.buffers && b in s'.buffers ==> s'.buffers[b].owner == s.buffers[b].owner)
  {
    hide SysInv, Inv, TakeTarget, DropTarget, DropTemp, DropObject, NodeWork, ThrowWork, Done, IncRef, DecRef, Cleanup, IncRefForNode;
    GraphFacts(s);
  }

  // ---------- handles ----------

  /** Handle d is the least one that process p does not use, from 0 on for the node of the context
      manager and from 1 on for any other. */
  predicate IsLeastFree(g: State, p: nat, n: nat, d: nat) {
    && (p, d) !in g.byDesc && (d == 0 ==> g.ctx == Some(n))
    && forall e :: 0 <= e < d && (e == 0 ==> g.ctx == Some(n)) ==> (p, e) in g.byDesc
  }

  /** Refs keep their process, node and handle. */
  predicate SameHandles(g: State, g': State) {
    forall r :: r in g'.refs && r in g.refs ==> g'.refs[r].proc == g.refs[r].proc && g'.refs[r].node == g.refs[r].node && g'.refs[r].desc == g.refs[r].desc
  }

  lemma UpHandles(g: State, r: nat, st: bool, todo: Option<nat>)
    requires r in g.refs && g.refs[r].node in g.nodes
    ensures SameHandles(g, IncRef(g, r, st, todo).state) && IncRef(g, r, st, todo).state.refs.Keys == g.refs.Keys
  {
  }

  lemma AddedHandle(g: State, q: nat, m: nat)
    requires Inv(g) && m in g.nodes
    ensures var g1 := AddRef(g, q, m);
            && SameHandles(g, g1) && g.nextId !in g.refs && g1.refs.Keys == g.refs.Keys + {g.nextId}
            && g1.refs[g.nextId].proc == q && g1.refs[g.nextId].node == m && IsLeastFree(g, q, m, g1.refs[g.nextId].desc) && m in g1.nodes
  {
    hide Inv, LeastFree;
    NewIdUnused(g);
    LeastFreeIsLeast(g.byDesc.Keys, q, if g.ctx == Some(m) then 0 else 1);
  }

  lemma IncHandles(g: State, q: nat, m: nat, st: bool, todo: Option<nat>, r: nat)
    requires Inv(g) && m in g.nodes
    ensures var g' := IncRefForNode(g, q, m, st, todo).state;
            && SameHandles(g, g')
            && (r in g'.refs && r !in g.refs ==> g'.refs[r].proc == q && g'.refs[r].node == m && IsLeastFree(g, q, m, g'.refs[r].desc))
  {
    hide Inv, IncRef, AddRef, IsLeastFree;
    if (q, m) in g.byNode {
      ByNodeIsRef(g, q, m);
      InvRef(g, g.byNode[(q, m)]);
      UpHandles(g, g.byNode[(q, m)], st, todo);
    } else {
      AddedHandle(g, q, m);
      UpHandles(AddRef(g, q, m), g.nextId, st, todo);
    }
  }

  lemma DownHandles(g: State, r: nat, st: bool)
    requires Inv(g) && r in g.refs
    ensures SameHandles(g, DecRef(g, r, st)) && DecRef(g, r, st).refs.Keys <= g.refs.Keys
  {
    hide Inv, DecRef;
    DecRefFacts(g, r, st);
  }

  lemma GoneHandles(g: State, r: nat)
    requires Inv(g) && r in g.refs
    ensures SameHandles(g, Cleanup(g, r)) && Cleanup(g, r).refs.Keys <= g.refs.Keys
  {
    hide Inv, DecN;
    RefIsItsOwn(g, r);
    StrongIsCounted(g, r);
    if g.refs[r].strong > 0 {
      LoweredRef(g, r, 0);
    }
  }

  lemma RaisedHandles(s: System, step: Step, r: nat)
    requires SysInv(s) && Enabled(s, step) && (step.ObjectToHandle? || step.ManagerRef? || step.RefUp?) && r in Next(s, step).graph.refs
    ensures SameHandles(s.graph, Next(s, step).graph)
    ensures r !in s.graph.refs ==>
              var x := Next(s, step).graph.refs[r];
              (step.ObjectToHandle? || step.ManagerRef?) && IsLeastFree(s.graph, x.proc, x.node, x.desc)
  {
    hide SysInv, Inv, IncRefForNode, IncRef, IsLeastFree, SameHandles;
    GraphFacts(s);
    match step
    case ObjectToHandle(b, op, st, todo) => IncHandles(s.graph, s.buffers[b].owner, s.held[op], st, todo, r);
    case ManagerRef(q, st) => IncHandles(s.graph, q, s.graph.ctx.value, st, None, r);
    case RefUp(q, st) => UpHandles(s.graph, q, st, None);
  }

  lemma LoweredHandles(s: System, step: Step)
    requires SysInv(s) && Enabled(s, step) && (step.RefDown? || step.RefDies?)
    ensures SameHandles(s.graph, Next(s, step).graph) && Next(s, step).graph.refs.Keys <= s.graph.refs.Keys
  {
    hide SysInv, Inv, DecRef, Cleanup, SameHandles;
    GraphFacts(s);
    match step
    case RefDown(q, st) => DownHandles(s.graph, q, st);
    case RefDies(q) => GoneHandles(s.graph, q);
  }

  /** Handles after every step: those that stay are the same, and a new one is the least free one of
      its process; only the node of the context manager ever gets handle 0. */
  lemma HandlesMove(s: System, step: Step, r: nat)
    requires SysInv(s) && Enabled(s, step) && r in Next(s, step).graph.refs
    ensures var x := Next(s, step).graph.refs[r];
            if r in s.graph.refs then x.proc == s.graph.refs[r].proc && x.node == s.graph.refs[r].node && x.desc == s.graph.refs[r].desc
            else (step.ObjectToHandle? || step.ManagerRef?) && IsLeastFree(s.graph, x.proc, x.node, x.desc)
  {
    hide SysInv, Enabled, Next, IsLeastFree;
    if step.ObjectToHandle? || step.ManagerRef? || step.RefUp? {
      RaisedHandles(s, step, r);
    } else if step.RefDown? || step.RefDies? {
      LoweredHandles(s, step);
    } else if step.ReleasesOther? {
      ReleasedHandles(s, step.buffer);
    } else {
      RefsStay(s, step);
    }
  }

  lemma ReleasedHandles(s: System, b: nat)
    requires SysInv(s) && Enabled(s, ReleasesOther(b))
    ensures SameHandles(s.graph, Next(s, ReleasesOther(b)).graph) && Next(s, ReleasesOther(b)).graph.refs.Keys <= s.graph.refs.Keys
  {
    hide SysInv, Inv, DecRef;
    SysGraph(s);
    match NextObject(s, b)
    case Inert =>
    case Handle(desc, st) =>
      var found := FindRef(s.graph, s.buffers[b].owner, desc, st);
      if found.Some? {
        RefIsThere(s, s.buffers[b].owner, desc, st);
        DownHandles(s.graph, found.value, st);
      }
  }

  // ---------- user space is told ----------

  ghost predicate IsHeld(g: State, n: nat, strong: bool) {
    exists p: nat :: CountOf(g, p, n, strong) > 0
  }

  /** User space knows of such a reference on node n, or the item that tells it is on a list, or
      has been thrown away. */
  predicate Told(x: Node, strong: bool) {
    (if strong then x.hasStrong else x.hasWeak) || x.work != Idle(false)
  }

  ghost predicate TellsAll(g: State, n: nat) {
    Live(g, n) ==> forall strong :: IsHeld(g, n, strong) ==> Told(g.nodes[n], strong)
  }

  lemma MovesOnTold(x: Node, y: Node, strong: bool)
    requires MovesOn(x, y) && Told(x, strong)
    ensures Told(y, strong)
  {
  }

  /** A first reference is there before or is announced by the step that adds it. */
  lemma CanTellTells(g: State, p: nat, n: nat, strong: bool)
    requires Inv(g) && Live(g, n) && TellsAll(g, n) && CanTell(g, p, n, strong, None)
    ensures Told(g.nodes[n], strong)
  {
    hide Inv;
    if (p, n) in g.byNode && g.byNode[(p, n)] in g.refs && CountOf(g, p, n, strong) > 0 {
      assert IsHeld(g, n, strong);
    } else if strong && g.nodes[n].internalStrong > 0 {
      StrongRefIsThere(g, n);
    }
  }

  lemma StrongRefIsThere(g: State, n: nat)
    requires Inv(g) && n in g.nodes && g.nodes[n].internalStrong > 0
    ensures IsHeld(g, n, true)
  {
    hide Inv;
    GraphExact(g, n);
    var refs := set r | r in g.refs && g.refs[r].node == n && g.refs[r].strong > 0;
    assert refs != {};
    var r :| r in refs;
    RefIsItsOwn(g, r);
    assert CountOf(g, g.refs[r].proc, n, true) > 0;
  }

  /** A first count on a ref, with the list of thread t to put the node's work on: the item that
      tells user space is on that list, unless user space knows, or, for a weak count, unless
      the item is on some list already. */
  lemma ListTells(g: State, p: nat, n: nat, strong: bool, t: nat)
    requires Inv(g) && Live(g, n) && CountOf(g, p, n, strong) == 0
    ensures var g' := IncRefForNode(g, p, n, strong, Some(t)).state;
            && Live(g', n) && Told(g'.nodes[n], strong)
            && (strong && !g.nodes[n].hasStrong ==> g'.nodes[n].work == OnThread(t))
            && (!strong && !g.nodes[n].hasWeak ==> g'.nodes[n].work == if OnList(g.nodes[n]) then g.nodes[n].work else OnThread(t))
  {
    hide Inv;
    if (p, n) in g.byNode {
      ByNodeIsRef(g, p, n);
    }
  }

  lemma HeldIsInternal(g: State, n: nat)
    requires Inv(g) && n in g.nodes && IsHeld(g, n, true)
    ensures Strong(g.nodes[n])
  {
    hide Inv;
    var p: nat :| CountOf(g, p, n, true) > 0;
    GraphExact(g, n);
    ByNodeIsRef(g, p, n);
    var r := g.byNode[(p, n)];
    var refs := set q | q in g.refs && g.refs[q].node == n && g.refs[q].strong > 0;
    assert r in refs;
    assert g.nodes[n].internalStrong == |refs|;
  }

  lemma ReadTells(s: System, n: nat)
    requires SysInv(s) && Enabled(s, NodeWorkRead(n))
    ensures TellsAll(Next(s, NodeWorkRead(n)).graph, n)
  {
    hide SysInv, Inv, NodeWork;
    StepKeepsInv(s, NodeWorkRead(n));
    NodeWorkExact(s.graph, n);
    var s' := Next(s, NodeWorkRead(n));
    SysGraph(s');
    if n in s'.graph.nodes && IsHeld(s'.graph, n, true) {
      HeldIsInternal(s'.graph, n);
    }
  }

  lemma TakenTells(s: System, step: Step, n: nat)
    requires SysInv(s) && Enabled(s, step) && Takes(step, n)
    ensures TellsAll(Next(s, step).graph, n)
  {
    hide SysInv, Enabled, Next, IsHeld;
    if step.NodeWorkRead? {
      ReadTells(s, n);
    } else {
      TakenWork(s, step, n);
    }
  }

  /** Nobody refers to a node that is not there. */
  lemma UnheldNode(g: State, p: nat, n: nat, strong: bool)
    requires Inv(g) && n !in g.nodes
    ensures CountOf(g, p, n, strong) == 0
  {
    hide Inv;
    if (p, n) in g.byNode {
      InvByNode(g);
    }
  }

  lemma AddedTells(s: System, step: Step, p: nat, n: nat, strong: bool)
    requires SysInv(s) && Enabled(s, step) && Added(s, step, p, n, strong) > 0 && CountOf(s.graph, p, n, strong) == 0
    ensures n in s.graph.nodes
    ensures TellsAll(s.graph, n) && Live(s.graph, n) ==>
              Told(s.graph.nodes[n], strong) || (Live(Next(s, step).graph, n) && Told(Next(s, step).graph.nodes[n], strong))
  {
    hide SysInv, Inv, IncRefForNode, IncRef, CanTell, CountOf, TellsAll, Told;
    GraphFacts(s);
    if TellsAll(s.graph, n) && Live(s.graph, n) {
      match step
      case ObjectToHandle(b, op, _, todo) =>
        if todo.Some? {
          ListTells(s.graph, p, n, strong, todo.value);
        } else {
          CanTellTells(s.graph, p, n, strong);
        }
      case _ => CanTellTells(s.graph, p, n, strong);
    }
  }

  lemma StepTells(s: System, step: Step, n: nat)
    requires SysInv(s) && Enabled(s, step) && TellsAll(s.graph, n)
    ensures TellsAll(Next(s, step).graph, n)
  {
    hide SysInv, Inv, Enabled, Next, Added, CountOf, Told, MovesOn;
    var s' := Next(s, step);
    if Takes(step, n) {
      TakenTells(s, step, n);
    } else if Live(s'.graph, n) {
      StepWorks(s, step, n);
      forall strong | IsHeld(s'.graph, n, strong)
        ensures Told(s'.graph.nodes[n], strong)
      {
        HeldTells(s, step, n, strong);
      }
    }
  }

  lemma HeldTells(s: System, step: Step, n: nat, strong: bool)
    requires SysInv(s) && Enabled(s, step) && TellsAll(s.graph, n) && !Takes(step, n)
    requires Live(Next(s, step).graph, n) && IsHeld(Next(s, step).graph, n, strong)
    ensures Told(Next(s, step).graph.nodes[n], strong)
  {
    hide SysInv, Inv, Enabled, Next, Added, CountOf, Told, MovesOn;
    var s' := Next(s, step);
    StepWorks(s, step, n);
    SysGraph(s);
    var p: nat :| CountOf(s'.graph, p, n, strong) > 0;
    StepLedger(s, step, p, n, strong);
    if CountOf(s.graph, p, n, strong) == 0 {
      AddedTells(s, step, p, n, strong);
    } else {
      if n !in s.graph.nodes {
        UnheldNode(s.graph, p, n, strong);
      }
      assert IsHeld(s.graph, n, strong);
    }
    if Told(s.graph.nodes[n], strong) {
      MovesOnTold(s.graph.nodes[n], s'.graph.nodes[n], strong);
    }
  }

  lemma {:induction false} RunTells(s: System, steps: seq<Step>, n: nat)
    requires SysInv(s) && IsRun(s, steps) && TellsAll(s.graph, n)
    ensures TellsAll(End(s, steps).graph, n)
    decreases |steps|
  {
    hide SysInv, Enabled, Next, TellsAll;
    if steps != [] {
      RunParts(s, steps);
      StepTells(s, steps[0], n);
      RunTells(Next(s, steps[0]), steps[1..], n);
    }
  }

  /** In every reachable state user space has been told of every reference that another process
      holds on a node of a living process, unless the item that tells it is still on a list or
      has been thrown away. */
  lemma ReferencesAreTold(s: System, n: nat, p: nat, strong: bool)
    requires Reachable(s) && Live(s.graph, n) && CountOf(s.graph, p, n, strong) > 0
    ensures Told(s.graph.nodes[n], strong)
  {
    hide SysInv;
    StartInv();
    var steps :| IsRun(START, steps) && s == End(START, steps);
    RunTells(START, steps, n);
    assert IsHeld(s.graph, n, strong);
  }
}
