/** Any interleaving of operations on nodes, refs, transactions and buffers, over any number of
    processes. */
module RefRuns {
  import opened Common
  import opened RefGraph
  import opened RefOps
  import opened RefCounts
  import opened RefUndo
  import opened RefEffects
  import opened RefBuffers
  import opened RefSystem
  import opened RefTeardown
  import opened RefProcs

  datatype Step =
    | NodeCreated(op: nat, proc: nat, ptr: nat, cookie: nat)
    | NodeFound(op: nat, proc: nat, ptr: nat)
    | NodeOfRef(op: nat, proc: nat, desc: nat, strong: bool)
    | NodePut(op: nat)
    | TransactionBegins(buffer: nat, op: nat, node: nat)
    | ReplyBegins(buffer: nat, to: nat)
    | ObjectToHandle(buffer: nat, op: nat, strong: bool, todo: Option<nat>)
    | ObjectToBinder(buffer: nat, op: nat, strong: bool)
    | InertObject(buffer: nat)
    | Delivers(buffer: nat)
    | ReleaseBegins(buffer: nat, how: Phase)
    | ReleasesOther(buffer: nat)
    | LooksUp(buffer: nat, op: nat)
    | PassesOver(buffer: nat)
    | GivesBack(buffer: nat)
    | ReleaseEnds(buffer: nat)
    | NodeWorkRead(node: nat)
    | ThreadLeaves(proc: nat, thread: nat)
    | WorkThrownAway(node: nat)
    | UserDone(op: nat, strong: bool)
    | ManagerSet(node: nat)
    | ManagerRef(proc: nat, strong: bool)
    | RefUp(ref: nat, strong: bool)
    | RefDown(ref: nat, strong: bool)
    | ProcCloses(proc: nat)
    | NodeDies(node: nat)
    | RefDies(ref: nat)
    | ProcForgotten(proc: nat)

  /** The node's work is on the list of a thread that has left, which `binder_release_work` is
      taking apart. */
  predicate OnLeftList(s: System, n: nat)
    requires Live(s.graph, n)
  {
    var x := s.graph.nodes[n];
    x.work.OnThread? && (x.proc.value, x.work.thread) in s.left
  }

  ghost predicate Enabled(s: System, step: Step) {
    match step
    case NodeCreated(op, p, ptr, _) => CanCreate(s, op, p, ptr)
    case NodeFound(op, p, ptr) => CanGetNode(s, op, p, ptr)
    case NodeOfRef(op, p, desc, strong) => CanGetFromRef(s, op, p, desc, strong)
    case NodePut(op) => CanPut(s, op)
    case TransactionBegins(b, op, n) => CanBegin(s, b, op, n)
    case ReplyBegins(b, _) => CanBeginReply(s, b)
    case ObjectToHandle(b, op, _, todo) => CanAppendHandle(s, b, op, todo)
    case ObjectToBinder(b, op, _) => CanAppendBinder(s, b, op)
    case InertObject(b) => CanAppend(s, b)
    case Delivers(b) => CanDeliver(s, b)
    case ReleaseBegins(b, how) => CanRelease(s, b, how)
    case ReleasesOther(b) => CanReleaseOther(s, b)
    case LooksUp(b, op) => CanLookup(s, b, op)
    case PassesOver(b) => CanPassOver(s, b)
    case GivesBack(b) => CanGive(s, b)
    case ReleaseEnds(b) => CanEnd(s, b)
    case NodeWorkRead(n) => Live(s.graph, n) && OnList(s.graph.nodes[n]) && !OnLeftList(s, n)
    case ThreadLeaves(_, _) => true
    case WorkThrownAway(n) => Live(s.graph, n) && OnLeftList(s, n)
    case UserDone(op, strong) =>
      && op in s.held && Live(s.graph, s.held[op])
      && (if strong then s.graph.nodes[s.held[op]].pendingStrong else s.graph.nodes[s.held[op]].pendingWeak)
    case ManagerSet(n) => CanBecome(s, n)
    case ManagerRef(_, _) => s.graph.ctx.Some?
    case RefUp(r, _) => r in s.graph.refs
    case RefDown(r, _) => r in s.graph.refs
    case ProcCloses(p) => CanClose(s, p)
    case NodeDies(n) => CanDie(s, n)
    case RefDies(r) => r in s.graph.refs && s.graph.refs[r].proc in s.closing
    case ProcForgotten(p) => CanForget(s, p)
  }

  /** What the sections on the graph alone rely on. */
  lemma GraphFacts(s: System)
    requires SysInv(s)
    ensures Inv(s.graph)
    ensures forall r :: r in s.graph.refs ==> s.graph.refs[r].node in s.graph.nodes
    ensures s.graph.ctx.Some? ==> s.graph.ctx.value in s.graph.nodes
    ensures forall op :: op in s.held ==> s.held[op] in s.graph.nodes && s.graph.dues.temps[s.held[op]] > 0
  {
    hide SysInv;
    SysGraph(s);
    forall r | r in s.graph.refs
      ensures s.graph.refs[r].node in s.graph.nodes
    {
      InvRef(s.graph, r);
    }
    forall op | op in s.held
      ensures s.held[op] in s.graph.nodes && s.graph.dues.temps[s.held[op]] > 0
    {
      HeldIsDue(s, op);
    }
  }

  ghost function Next(s: System, step: Step): System
    requires SysInv(s) && Enabled(s, step)
  {
    hide SysInv, Inv;
    GraphFacts(s);
    match step
    case NodeCreated(op, p, ptr, cookie) => Create(s, op, p, ptr, cookie)
    case NodeFound(op, p, ptr) => NodeIsThere(s, p, ptr); Hold(s, op, s.graph.byPtr[(p, ptr)])
    case NodeOfRef(op, p, desc, strong) =>
      RefIsThere(s, p, desc, strong);
      Hold(s, op, s.graph.refs[FindRef(s.graph, p, desc, strong).value].node)
    case NodePut(op) => Put(s, op)
    case TransactionBegins(b, op, n) => Begin(s, b, op, n)
    case ReplyBegins(b, to) => BeginReply(s, b, to)
    case ObjectToHandle(b, op, strong, todo) => AppendHandle(s, b, op, strong, todo)
    case ObjectToBinder(b, op, strong) => AppendBinder(s, b, op, strong)
    case InertObject(b) => WithBuffer(s, b, Appended(s, b, Inert), s.graph, s.late)
    case Delivers(b) => Deliver(s, b)
    case ReleaseBegins(b, how) => Release(s, b, how)
    case ReleasesOther(b) => ReleaseOther(s, b)
    case LooksUp(b, op) => Lookup(s, b, op)
    case PassesOver(b) => PassOver(s, b)
    case GivesBack(b) => Give(s, b)
    case ReleaseEnds(b) => EndRelease(s, b)
    case NodeWorkRead(n) => OnGraph(s, NodeWork(s.graph, n))
    case ThreadLeaves(p, t) => s.(left := s.left + {(p, t)})
    case WorkThrownAway(n) => OnGraph(s, ThrowWork(s.graph, n))
    case UserDone(op, strong) => OnGraph(s, Done(s.graph, s.held[op], strong))
    case ManagerSet(n) => Become(s, n)
    case ManagerRef(p, strong) => OnGraph(s, IncRefForNode(s.graph, p, s.graph.ctx.value, strong, None).state)
    case RefUp(r, strong) => OnGraph(s, IncRef(s.graph, r, strong, None).state)
    case RefDown(r, strong) => OnGraph(s, DecRef(s.graph, r, strong))
    case ProcCloses(p) => Close(s, p)
    case NodeDies(n) => Die(s, n)
    case RefDies(r) => OnGraph(s, Cleanup(s.graph, r))
    case ProcForgotten(p) => Forget(s, p)
  }

  /** The sections on the graph alone. */
  predicate OnGraphOnly(step: Step) {
    step.NodeWorkRead? || step.WorkThrownAway? || step.UserDone? || step.ManagerRef? || step.RefUp? || step.RefDown? || step.RefDies?
  }

  lemma NodeStep(s: System, step: Step)
    requires SysInv(s) && Enabled(s, step) && (step.NodeWorkRead? || step.WorkThrownAway? || step.UserDone?)
    ensures Effect(s.graph, Next(s, step).graph, 0, 0, 0, 0, 0) && Next(s, step) == OnGraph(s, Next(s, step).graph)
  {
    hide SysInv, Inv, Effect, NodeWork, ThrowWork, Done;
    GraphFacts(s);
    match step
    case NodeWorkRead(n) => NodeWorkEffect(s.graph, n);
    case WorkThrownAway(n) => ThrowWorkEffect(s.graph, n);
    case UserDone(op, strong) => DoneEffect(s.graph, s.held[op], strong);
  }

  lemma RefStep(s: System, step: Step)
    requires SysInv(s) && Enabled(s, step) && (step.ManagerRef? || step.RefUp? || step.RefDown? || step.RefDies?)
    ensures Effect(s.graph, Next(s, step).graph, 0, 0, 0, 0, 0) && Next(s, step) == OnGraph(s, Next(s, step).graph)
  {
    hide SysInv, Inv, Effect, IncRefForNode, IncRef, DecRef, Cleanup;
    GraphFacts(s);
    match step
    case ManagerRef(p, strong) => IncRefForNodeEffect(s.graph, p, s.graph.ctx.value, strong, None);
    case RefUp(r, strong) => IncRefEffect(s.graph, r, strong, None);
    case RefDown(r, strong) => DecRefEffect(s.graph, r, strong);
    case RefDies(r) => CleanupEffect(s.graph, r);
  }

  lemma GraphStep(s: System, step: Step)
    requires SysInv(s) && Enabled(s, step) && OnGraphOnly(step)
    ensures Effect(s.graph, Next(s, step).graph, 0, 0, 0, 0, 0) && Next(s, step) == OnGraph(s, Next(s, step).graph)
  {
    hide SysInv, Enabled, Next, Effect;
    if step.NodeWorkRead? || step.WorkThrownAway? || step.UserDone? {
      NodeStep(s, step);
    } else {
      RefStep(s, step);
    }
  }

  lemma StepKeepsInv(s: System, step: Step)
    requires SysInv(s) && Enabled(s, step)
    ensures SysInv(Next(s, step))
  {
    hide SysInv, Inv, Effect;
    if OnGraphOnly(step) {
      GraphStep(s, step);
      OnGraphKeepsInv(s, Next(s, step).graph);
      return;
    }
    match step
    case NodeCreated(op, p, ptr, cookie) => CreateKeepsInv(s, op, p, ptr, cookie);
    case NodeFound(op, p, ptr) => NodeIsThere(s, p, ptr); HoldKeepsInv(s, op, s.graph.byPtr[(p, ptr)]);
    case NodeOfRef(op, p, desc, strong) =>
      RefIsThere(s, p, desc, strong);
      HoldKeepsInv(s, op, s.graph.refs[FindRef(s.graph, p, desc, strong).value].node);
    case NodePut(op) => PutKeepsInv(s, op);
    case TransactionBegins(b, op, n) => BeginKeepsInv(s, b, op, n);
    case ReplyBegins(b, to) => BeginReplyKeepsInv(s, b, to);
    case ObjectToHandle(b, op, strong, todo) => AppendHandleKeepsInv(s, b, op, strong, todo);
    case ObjectToBinder(b, op, strong) => AppendBinderKeepsInv(s, b, op, strong);
    case InertObject(b) => InertKeepsInv(s, b);
    case Delivers(b) => DeliverKeepsInv(s, b);
    case ReleaseBegins(b, how) => ReleaseKeepsInv(s, b, how);
    case ReleasesOther(b) => ReleaseOtherKeepsInv(s, b);
    case LooksUp(b, op) => LookupKeepsInv(s, b, op);
    case PassesOver(b) => PassOverKeepsInv(s, b);
    case GivesBack(b) => GiveKeepsInv(s, b);
    case ReleaseEnds(b) => EndReleaseKeepsInv(s, b);
    case ThreadLeaves(p, t) => SameButThreads(s, Next(s, step));
    case ManagerSet(n) => BecomeKeepsInv(s, n);
    case ProcCloses(p) => CloseKeepsInv(s, p);
    case NodeDies(n) => DieKeepsInv(s, n);
    case ProcForgotten(p) => ForgetKeepsInv(s, p);
  }

  lemma SameButThreads(s: System, s': System)
    requires SysInv(s) && s' == s.(left := s'.left)
    ensures SysInv(s')
  {
    hide Inv, BufferOk, LateOk, Targeting, Naming, Holders;
    assert forall n :: n in s.graph.nodes ==> Booked(s, n) ==> Booked(s', n);
  }

  lemma InertKeepsInv(s: System, b: nat)
    requires SysInv(s) && CanAppend(s, b)
    ensures SysInv(WithBuffer(s, b, Appended(s, b, Inert), s.graph, s.late))
  {
    hide SysInv, Effect;
    SysGraph(s);
    NoEffect(s.graph);
    AppendKeepsInv(s, b, Inert, s.graph);
  }

  const START: System := System(INITIAL, map[], map[], {}, {}, Late(multiset{}, multiset{}), {})

  lemma StartInv()
    ensures SysInv(START)
  {
  }

  ghost predicate IsRun(s: System, steps: seq<Step>)
    requires SysInv(s)
    decreases |steps|
  {
    hide SysInv, Enabled, Next;
    steps == [] || (Enabled(s, steps[0]) && (StepKeepsInv(s, steps[0]); IsRun(Next(s, steps[0]), steps[1..])))
  }

  ghost function End(s: System, steps: seq<Step>): (s': System)
    requires SysInv(s) && IsRun(s, steps)
    ensures SysInv(s')
    decreases |steps|
  {
    hide SysInv, Enabled, Next;
    if steps == [] then s
    else
      StepKeepsInv(s, steps[0]);
      End(Next(s, steps[0]), steps[1..])
  }

  ghost predicate Reachable(s: System) {
    StartInv();
    exists steps :: IsRun(START, steps) && s == End(START, steps)
  }

  lemma ReachableInv(s: System)
    requires Reachable(s)
    ensures SysInv(s)
  {
    hide SysInv;
    StartInv();
    var steps :| IsRun(START, steps) && s == End(START, steps);
  }

  lemma RunParts(s: System, steps: seq<Step>)
    requires SysInv(s) && IsRun(s, steps) && steps != []
    ensures Enabled(s, steps[0]) && SysInv(Next(s, steps[0])) && IsRun(Next(s, steps[0]), steps[1..])
    ensures End(s, steps) == End(Next(s, steps[0]), steps[1..])
  {
    hide SysInv, Enabled, Next;
    StepKeepsInv(s, steps[0]);
  }

  lemma StartReachable()
    ensures Reachable(START)
  {
    StartInv();
    assert IsRun(START, []) && End(START, []) == START;
  }

  lemma {:induction false} OneMoreStep(s: System, steps: seq<Step>, step: Step)
    requires SysInv(s) && IsRun(s, steps) && Enabled(End(s, steps), step)
    ensures IsRun(s, steps + [step]) && End(s, steps + [step]) == Next(End(s, steps), step)
    decreases |steps|
  {
    hide SysInv, Enabled, Next;
    var all := steps + [step];
    StepKeepsInv(End(s, steps), step);
    if steps == [] {
      assert all[1..] == [];
      assert all[0] == step;
      assert IsRun(Next(s, step), []) && End(Next(s, step), []) == Next(s, step);
    } else {
      assert all[0] == steps[0] && all[1..] == steps[1..] + [step];
      StepKeepsInv(s, steps[0]);
      OneMoreStep(Next(s, steps[0]), steps[1..], step);
    }
  }

  lemma ReachableNext(s: System, step: Step)
    requires Reachable(s) && SysInv(s) && Enabled(s, step)
    ensures Reachable(Next(s, step)) && SysInv(Next(s, step))
  {
    hide SysInv, Enabled, Next;
    StartInv();
    var steps :| IsRun(START, steps) && s == End(START, steps);
    OneMoreStep(START, steps, step);
    ReachableInv(Next(s, step));
  }

  // ---------- what holds in every reachable state ----------

  /** No ref points to a freed node, a node's list is exactly the refs on it, its internal count
      the strong ones among them. */
  lemma NodesOutliveRefs(s: System, n: nat)
    requires Reachable(s)
    ensures forall r :: r in s.graph.refs ==> s.graph.refs[r].node in s.graph.nodes
    ensures n in s.graph.nodes ==> s.graph.nodes[n].list == (set r | r in s.graph.refs && s.graph.refs[r].node == n)
    ensures n in s.graph.nodes ==>
              s.graph.nodes[n].internalStrong == |set r | r in s.graph.refs && s.graph.refs[r].node == n && s.graph.refs[r].strong > 0|
  {
    hide SysInv, Reachable;
    ReachableInv(s);
    SysGraph(s);
    GraphExact(s.graph, n);
  }

  /** While its process lives, a node's local counts are exactly its pending handshakes, one more
      if it is the context manager's, the transactions and buffers that target it and the
      objects in its process's buffers that name it; its temporary count is the operations that
      hold it.  The flags imply each other, and user space knows of a node that nothing keeps. */
  lemma LocalCountsExact(s: System, n: nat)
    requires Reachable(s) && Live(s.graph, n)
    ensures var x := s.graph.nodes[n]; var p := x.proc.value;
            && x.localStrong == One(x.pendingStrong) + One(IsManager(s, n)) + |Targeting(s.buffers, n)| + |Naming(s.buffers, p, x.ptr, true)|
            && x.localWeak == One(x.pendingWeak) + One(IsManager(s, n)) + |Naming(s.buffers, p, x.ptr, false)|
            && x.temps == |Holders(s.held, n)|
            && (p !in s.closing ==> (IsManager(s, n) <==> s.graph.ctx == Some(n)))
            && (x.pendingStrong ==> x.hasStrong) && (x.pendingWeak ==> x.hasWeak) && (x.hasStrong ==> x.hasWeak)
            && (!Weak(x) ==> x.hasWeak)
  {
    hide SysInv, Inv, Reachable, Targeting, Naming, Holders;
    ReachableInv(s);
    SysGraph(s);
    SysNode(s, n);
    InvNode(s.graph, n);
  }

  /** Every object in a buffer of a living process that names a node names one that is there, and
      every node targeted by a buffer of a living process is alive and belongs to it: releasing
      a buffer always finds what it gives back. */
  lemma BuffersFindTheirNodes(s: System, b: nat)
    requires Reachable(s) && b in s.buffers && s.buffers[b].owner !in s.closing
    ensures var x := s.buffers[b];
            && (forall i :: x.done <= i < |x.objs| && x.objs[i].Binder? ==>
                  && (x.owner, x.objs[i].ptr) in s.graph.byPtr
                  && var n := s.graph.byPtr[(x.owner, x.objs[i].ptr)];
                    Live(s.graph, n) && (if x.objs[i].strong then s.graph.nodes[n].localStrong else s.graph.nodes[n].localWeak) > 0)
            && (x.target.Some? ==> Live(s.graph, x.target.value) && s.graph.nodes[x.target.value].proc == Some(x.owner)
                                   && s.graph.nodes[x.target.value].localStrong > 0)
  {
    hide Reachable;
    ReachableInv(s);
    SysGraph(s);
    SysBuffer(s, b);
    var x := s.buffers[b];
    hide SysInv, Inv;
    forall i | x.done <= i < |x.objs| && x.objs[i].Binder?
      ensures (x.owner, x.objs[i].ptr) in s.graph.byPtr
      ensures var n := s.graph.byPtr[(x.owner, x.objs[i].ptr)];
              Live(s.graph, n) && (if x.objs[i].strong then s.graph.nodes[n].localStrong else s.graph.nodes[n].localWeak) > 0
    {
      NodeIsThere(s, x.owner, x.objs[i].ptr);
      NamedIsThere(s.buffers, b, i);
      LocalCountsExact(s, s.graph.byPtr[(x.owner, x.objs[i].ptr)]);
    }
    if x.target.Some? {
      TargetIsThere(s.buffers, b);
      LocalCountsExact(s, x.target.value);
    }
  }
}
