/** The work item of a node, with which user space is told that the last strong or the last
    reference has gone.  One expects such a node to have it on a list.  It has, unless the item
    lay on the list of a thread that left: that list is thrown away. */
module RefWork {
  import opened Common
  import opened RefGraph
  import opened RefOps
  import opened RefCounts
  import opened RefUndo
  import opened RefEffects
  import opened RefBuffers
  import opened RefSystem
  import opened RefTeardown
  import opened RefProcs
  import opened RefRuns

  // ---------- what a section does to work items ----------

  /** Sections that neither read work nor throw it away put it on a thread's list, or on the
      process's if it was on none; user space knows of the references it knew of. */
  predicate MovesOn(x: Node, y: Node) {
    && (y.work == x.work || y.work.OnThread? || (x.work.Idle? && y.work.OnProc?))
    && y.hasStrong == x.hasStrong && y.hasWeak == x.hasWeak && y.proc == x.proc
  }

  /** Node m across such a section: it goes only if user space does not know of it. */
  predicate Works(a: State, b: State, m: nat) {
    && a.nextId <= b.nextId && (m in b.nodes && m !in a.nodes ==> m >= a.nextId && b.nodes[m].work == Idle(false) && !b.nodes[m].hasStrong && !b.nodes[m].hasWeak)
    && (Live(a, m) ==> if m in b.nodes then MovesOn(a.nodes[m], b.nodes[m]) else !a.nodes[m].hasStrong && !a.nodes[m].hasWeak)
    && (m in a.nodes && Live(b, m) ==> Live(a, m))
  }

  lemma WorksThen(a: State, b: State, c: State, m: nat)
    requires Works(a, b, m) && Works(b, c, m) && (m in c.nodes ==> m in b.nodes) && (m in b.nodes ==> m in a.nodes)
    ensures Works(a, c, m)
  {
  }

  lemma OneNodeWorks(a: State, b: State, n: nat, m: nat)
    requires n in a.nodes && n in b.nodes && MovesOn(a.nodes[n], b.nodes[n]) && b.nodes == a.nodes[n := b.nodes[n]] && a.nextId <= b.nextId
    ensures Works(a, b, m)
  {
  }

  lemma DecWorks(x: Node, strong: bool, internal: bool)
    requires (strong && internal ==> x.internalStrong > 0) && x.proc.Some?
    ensures var d := DecN(x, strong, internal); if d.Kept? then MovesOn(x, d.node) else !x.hasStrong && !x.hasWeak
  {
  }

  lemma SettleWorks(g: State, n: nat, x: Node, strong: bool, internal: bool, dues: Dues, m: nat)
    requires n in g.nodes && (strong && internal ==> x.internalStrong > 0)
    requires x.proc == g.nodes[n].proc && x.work == g.nodes[n].work && x.hasStrong == g.nodes[n].hasStrong && x.hasWeak == g.nodes[n].hasWeak
    ensures Works(g, Settle(g, n, DecN(x, strong, internal), dues), m)
  {
    if x.proc.Some? {
      DecWorks(x, strong, internal);
    } else {
      DecKeepsName(x, strong, internal);
    }
    hide DecN;
  }

  lemma IncWorks(x: Node, isCtx: bool, strong: bool, internal: bool, todo: Option<nat>)
    ensures MovesOn(x, IncN(x, isCtx, strong, internal, todo).node)
  {
  }

  lemma IncRefWorks(g: State, r: nat, strong: bool, todo: Option<nat>, m: nat)
    requires r in g.refs && g.refs[r].node in g.nodes
    ensures Works(g, IncRef(g, r, strong, todo).state, m)
    ensures IncRef(g, r, strong, todo).state.nodes.Keys == g.nodes.Keys
  {
    var n := g.refs[r].node;
    IncWorks(g.nodes[n], IsCtx(g, n), strong, true, todo);
    hide IncN;
  }

  lemma IncRefForNodeWorks(g: State, p: nat, n: nat, strong: bool, todo: Option<nat>, m: nat)
    requires Inv(g) && n in g.nodes
    ensures Works(g, IncRefForNode(g, p, n, strong, todo).state, m)
  {
    hide Inv, IncRef;
    if (p, n) in g.byNode {
      ByNodeIsRef(g, p, n);
      IncRefWorks(g, g.byNode[(p, n)], strong, todo, m);
    } else {
      var g1 := AddRef(g, p, n);
      IncRefWorks(g1, g.nextId, strong, todo, m);
      assert g1.nodes.Keys == g.nodes.Keys;
      assert Works(g, g1, m);
      WorksThen(g, g1, IncRef(g1, g.nextId, strong, todo).state, m);
    }
  }

  lemma LowerStrongWorks(g: State, r: nat, strong: nat, m: nat)
    requires r in g.refs && Counted(g, r) && strong < g.refs[r].strong
    ensures Works(g, LowerStrong(g, r, strong), m) && LowerStrong(g, r, strong).nodes.Keys == g.nodes.Keys
  {
    var n := g.refs[r].node;
    if g.nodes[n].proc.Some? {
      DecWorks(g.nodes[n], true, true);
    } else {
      DecKeepsName(g.nodes[n], true, true);
    }
  }

  lemma TakeOutWorks(g: State, r: nat, m: nat)
    requires r in g.refs && g.refs[r].node in g.nodes
    ensures Works(g, TakeOut(g, r), m) && (m in TakeOut(g, r).nodes ==> m in g.nodes)
  {
    hide DecN;
    var x := g.refs[r];
    var y := g.nodes[x.node].(list := g.nodes[x.node].list - {r});
    SettleWorks(g.(refs := g.refs - {r}, byDesc := g.byDesc - {(x.proc, x.desc)}, byNode := g.byNode - {(x.proc, x.node)}), x.node, y, false, true, g.dues, m);
  }

  lemma CleanupWorks(g: State, r: nat, m: nat)
    requires Inv(g) && r in g.refs
    ensures Works(g, Cleanup(g, r), m)
  {
    hide Inv, LowerStrong, TakeOut;
    InvRef(g, r);
    StrongIsCounted(g, r);
    if g.refs[r].strong > 0 {
      LowerStrongKeepsInv(g, r, 0);
      LoweredRef(g, r, 0);
      var g1 := LowerStrong(g, r, 0);
      LowerStrongWorks(g, r, 0, m);
      TakeOutWorks(g1, r, m);
      WorksThen(g, g1, TakeOut(g1, r), m);
    } else {
      TakeOutWorks(g, r, m);
    }
  }

  lemma DecRefWorks(g: State, r: nat, strong: bool, m: nat)
    requires Inv(g) && r in g.refs
    ensures Works(g, DecRef(g, r, strong), m)
  {
    hide Inv, LowerStrong, TakeOut;
    InvRef(g, r);
    StrongIsCounted(g, r);
    var x := g.refs[r];
    if strong && x.strong > 0 {
      LoweredRef(g, r, x.strong - 1);
      var g1 := LowerStrong(g, r, x.strong - 1);
      LowerStrongWorks(g, r, x.strong - 1, m);
      if x.strong == 1 && x.weak == 0 {
        TakeOutWorks(g1, r, m);
        WorksThen(g, g1, TakeOut(g1, r), m);
      }
    } else if !strong && x.weak > 0 {
      var g1 := g.(refs := g.refs[r := x.(weak := x.weak - 1)]);
      if x.strong == 0 && x.weak == 1 {
        TakeOutWorks(g1, r, m);
      }
    }
  }

  lemma DoneWorks(g: State, n: nat, strong: bool, m: nat)
    requires Inv(g) && Live(g, n) && g.dues.temps[n] > 0
    requires if strong then g.nodes[n].pendingStrong else g.nodes[n].pendingWeak
    ensures Works(g, Done(g, n, strong), m)
  {
    hide Inv;
    var x := if strong then g.nodes[n].(pendingStrong := false) else g.nodes[n].(pendingWeak := false);
    InvNode(g, n);
    assert x.hasWeak || x.hasStrong;
    DecWorks(x, strong, false);
    assert DecN(x, strong, false).Kept?;
    hide DecN, NodeOk;
  }

  // ---------- every section ----------

  /** The sections that do more to the work of node m, or to what user space knows of it. */
  predicate Takes(step: Step, m: nat) {
    step == NodeWorkRead(m) || step == WorkThrownAway(m) || step == NodeDies(m) || step == ManagerSet(m)
  }

  lemma RefStepWorks(s: System, step: Step, m: nat)
    requires SysInv(s) && Enabled(s, step) && (step.ManagerRef? || step.RefUp? || step.RefDown? || step.RefDies?)
    ensures Works(s.graph, Next(s, step).graph, m)
  {
    hide SysInv, Inv, IncRefForNode, IncRef, DecRef, Cleanup, Works;
    GraphFacts(s);
    match step
    case ManagerRef(p, strong) => IncRefForNodeWorks(s.graph, p, s.graph.ctx.value, strong, None, m);
    case RefUp(r, strong) => IncRefWorks(s.graph, r, strong, None, m);
    case RefDown(r, strong) => DecRefWorks(s.graph, r, strong, m);
    case RefDies(r) => CleanupWorks(s.graph, r, m);
  }

  lemma NodeStepWorks(s: System, step: Step, m: nat)
    requires SysInv(s) && Enabled(s, step) && (step.NodeWorkRead? || step.WorkThrownAway? || step.UserDone?) && !Takes(step, m)
    ensures Works(s.graph, Next(s, step).graph, m)
  {
    hide SysInv, Inv, Done, WorkN, Works;
    GraphFacts(s);
    match step
    case NodeWorkRead(n) => OtherNodeWorks(s.graph, NodeWork(s.graph, n), n, m);
    case WorkThrownAway(n) => OtherNodeWorks(s.graph, ThrowWork(s.graph, n), n, m);
    case UserDone(op, strong) => DoneWorks(s.graph, s.held[op], strong, m);
  }

  lemma OtherNodeWorks(a: State, b: State, n: nat, m: nat)
    requires n != m && (m in b.nodes <==> m in a.nodes) && (m in a.nodes ==> b.nodes[m] == a.nodes[m]) && a.nextId <= b.nextId
    ensures Works(a, b, m)
  {
  }

  lemma HeldWorks(g: State, n: nat, strong: bool, m: nat)
    requires n in g.nodes
    ensures Works(g, TakeTemp(g, n), m)
    ensures Live(g, n) ==> Works(g, TakeTarget(g, n), m) && Works(g, AddObject(g, n, strong), m)
  {
    OneNodeWorks(g, TakeTemp(g, n), n, m);
    IncWorks(g.nodes[n], IsCtx(g, n), true, false, None);
    IncWorks(g.nodes[n], IsCtx(g, n), strong, false, None);
    hide IncN;
  }

  lemma GivenWorks(g: State, n: nat, strong: bool, m: nat)
    requires n in g.nodes
    ensures g.dues.temps[n] > 0 ==> Works(g, DropTemp(g, n), m)
    ensures Works(g, DropTarget(g, n), m) && Works(g, DropObject(g, n, strong), m)
  {
    hide DecN, Works;
    SettleWorks(g, n, g.nodes[n].(temps := g.nodes[n].temps - 1), false, true, g.dues.(temps := g.dues.temps - multiset{n}), m);
    SettleWorks(g, n, g.nodes[n], true, false, g.dues.(targets := g.dues.targets - multiset{n}), m);
    SettleWorks(g, n, g.nodes[n], strong, false, DroppedDue(g.dues, n, strong), m);
  }

  lemma SameWorks(a: State, b: State, m: nat)
    requires b.nodes == a.nodes && b.nextId == a.nextId
    ensures Works(a, b, m)
  {
  }

  lemma NewWorks(g: State, p: nat, ptr: nat, cookie: nat, m: nat)
    requires Inv(g)
    ensures Works(g, NewNode(g, p, ptr, cookie), m)
  {
    NewIdUnused(g);
    hide Inv;
  }

  lemma HoldStepWorks(s: System, step: Step, m: nat)
    requires SysInv(s) && Enabled(s, step)
    requires step.NodeCreated? || step.NodeFound? || step.NodeOfRef? || step.NodePut? || step.TransactionBegins? || step.LooksUp?
    ensures Works(s.graph, Next(s, step).graph, m)
  {
    hide SysInv, Inv, TakeTemp, DropTemp, TakeTarget, NewNode, Works;
    match step
    case NodeCreated(op, p, ptr, cookie) =>
      SysGraph(s);
      NewWorks(s.graph, p, ptr, cookie, m);
    case NodeFound(op, p, ptr) =>
      NodeIsThere(s, p, ptr);
      HeldWorks(s.graph, s.graph.byPtr[(p, ptr)], true, m);
    case NodeOfRef(op, p, desc, strong) =>
      RefIsThere(s, p, desc, strong);
      HeldWorks(s.graph, s.graph.refs[FindRef(s.graph, p, desc, strong).value].node, true, m);
    case NodePut(op) =>
      HeldIsDue(s, op);
      GivenWorks(s.graph, s.held[op], true, m);
    case TransactionBegins(b, op, n) => HeldWorks(s.graph, n, true, m);
    case LooksUp(b, op) =>
      NodeIsThere(s, s.buffers[b].owner, NextObject(s, b).ptr);
      HeldWorks(s.graph, s.graph.byPtr[(s.buffers[b].owner, NextObject(s, b).ptr)], true, m);
  }

  lemma BufferStepWorks(s: System, step: Step, m: nat)
    requires SysInv(s) && Enabled(s, step)
    requires step.ObjectToHandle? || step.ObjectToBinder? || step.ReleaseBegins? || step.ReleasesOther? || step.GivesBack?
    ensures Works(s.graph, Next(s, step).graph, m)
  {
    hide SysInv, Inv, IncRefForNode, AddObject, DropTarget, DropObject, DecRef, Works;
    SysGraph(s);
    SameWorks(s.graph, s.graph, m);
    match step
    case ObjectToHandle(b, op, strong, todo) =>
      GraphFacts(s);
      IncRefForNodeWorks(s.graph, s.buffers[b].owner, s.held[op], strong, todo, m);
    case ObjectToBinder(b, op, strong) => HeldWorks(s.graph, s.held[op], strong, m);
    case ReleaseBegins(b, how) =>
      if s.buffers[b].target.Some? {
        TargetIsDue(s, b, how);
        GivenWorks(s.graph, s.buffers[b].target.value, true, m);
      }
    case ReleasesOther(b) =>
      match NextObject(s, b) {
        case Handle(desc, strong) =>
          var found := FindRef(s.graph, s.buffers[b].owner, desc, strong);
          if found.Some? {
            RefIsThere(s, s.buffers[b].owner, desc, strong);
            DecRefWorks(s.graph, found.value, strong, m);
          }
        case _ =>
      }
    case GivesBack(b) =>
      GivenIsDue(s, b);
      var x := s.buffers[b];
      GivenWorks(s.graph, s.held[x.at.value], x.objs[x.done].strong, m);
  }

  lemma OtherStepWorks(s: System, step: Step, m: nat)
    requires SysInv(s) && Enabled(s, step) && !Takes(step, m)
    requires step.ReplyBegins? || step.InertObject? || step.Delivers? || step.PassesOver? || step.ReleaseEnds? || step.ThreadLeaves?
             || step.ProcCloses? || step.ProcForgotten?
    ensures Works(s.graph, Next(s, step).graph, m)
  {
    hide SysInv, Inv, Works;
    SameWorks(s.graph, Next(s, step).graph, m);
  }

  lemma ManagerStepWorks(s: System, step: Step, m: nat)
    requires SysInv(s) && Enabled(s, step) && !Takes(step, m) && (step.ManagerSet? || step.NodeDies?)
    ensures Works(s.graph, Next(s, step).graph, m)
  {
    hide SysInv, Inv, Works;
    if step.NodeDies? {
      OtherNodeWorks(s.graph, RefOps.NodeDies(s.graph, step.node), step.node, m);
    } else {
      OtherNodeWorks(s.graph, SetCtx(s.graph, step.node), step.node, m);
    }
  }

  lemma StepWorks(s: System, step: Step, m: nat)
    requires SysInv(s) && Enabled(s, step) && !Takes(step, m)
    ensures Works(s.graph, Next(s, step).graph, m)
  {
    hide SysInv, Enabled, Next, Works;
    if step.ManagerRef? || step.RefUp? || step.RefDown? || step.RefDies? {
      RefStepWorks(s, step, m);
    } else if step.NodeWorkRead? || step.WorkThrownAway? || step.UserDone? {
      NodeStepWorks(s, step, m);
    } else if step.NodeCreated? || step.NodeFound? || step.NodeOfRef? || step.NodePut? || step.TransactionBegins? || step.LooksUp? {
      HoldStepWorks(s, step, m);
    } else if step.ObjectToHandle? || step.ObjectToBinder? || step.ReleaseBegins? || step.ReleasesOther? || step.GivesBack? {
      BufferStepWorks(s, step, m);
    } else if step.ManagerSet? || step.NodeDies? {
      ManagerStepWorks(s, step, m);
    } else {
      OtherStepWorks(s, step, m);
    }
  }

  // ---------- whether an item was thrown away ----------

  predicate Listed(s: System, n: nat) {
    Live(s.graph, n) && OnList(s.graph.nodes[n])
  }

  predicate Thrown(s: System, n: nat) {
    Live(s.graph, n) && s.graph.nodes[n].work == Idle(true)
  }

  /** The node's item is on no list all along a run. */
  ghost predicate Unlisted(s: System, steps: seq<Step>, n: nat)
    requires SysInv(s) && IsRun(s, steps)
    decreases |steps|
  {
    hide SysInv, Enabled, Next;
    !Listed(s, n) && (steps == [] || (RunParts(s, steps); Unlisted(Next(s, steps[0]), steps[1..], n)))
  }

  /** Somewhere along a run the item is thrown away, and it is on no list any more. */
  ghost predicate ThrownIn(s: System, steps: seq<Step>, n: nat)
    requires SysInv(s) && IsRun(s, steps)
    decreases |steps|
  {
    hide SysInv, Enabled, Next;
    steps != [] &&
    (RunParts(s, steps);
     (steps[0] == WorkThrownAway(n) && Unlisted(Next(s, steps[0]), steps[1..], n)) || ThrownIn(Next(s, steps[0]), steps[1..], n))
  }

  lemma ReadWork(s: System, n: nat)
    requires SysInv(s) && Enabled(s, NodeWorkRead(n))
    ensures var s' := Next(s, NodeWorkRead(n));
            Listed(s, n) && !Thrown(s', n) && !Listed(s', n) && s.graph.nextId <= s'.graph.nextId
  {
    hide SysInv, Inv;
  }

  lemma ThrownWork(s: System, n: nat)
    requires SysInv(s) && Enabled(s, WorkThrownAway(n))
    ensures var s' := Next(s, WorkThrownAway(n));
            Listed(s, n) && Thrown(s', n) && s.graph.nextId <= s'.graph.nextId
  {
    hide SysInv, Inv;
  }

  lemma DeadWork(s: System, n: nat)
    requires SysInv(s) && Enabled(s, RefRuns.NodeDies(n))
    ensures var s' := Next(s, RefRuns.NodeDies(n));
            Live(s.graph, n) && !Live(s'.graph, n) && s.graph.nextId <= s'.graph.nextId
  {
    hide SysInv, Inv;
  }

  lemma ManagerWork(s: System, n: nat)
    requires SysInv(s) && Enabled(s, ManagerSet(n))
    ensures var s' := Next(s, ManagerSet(n));
            && Live(s.graph, n) && Live(s'.graph, n) && s.graph.nextId <= s'.graph.nextId
            && s'.graph.nodes[n].work == s.graph.nodes[n].work && s'.graph.nodes[n].hasStrong && s'.graph.nodes[n].hasWeak
  {
    hide SysInv, Inv;
  }

  lemma TakenWork(s: System, step: Step, n: nat)
    requires SysInv(s) && Enabled(s, step) && Takes(step, n)
    ensures Live(s.graph, n) && s.graph.nextId <= Next(s, step).graph.nextId
    ensures step == WorkThrownAway(n) ==> Listed(s, n) && Thrown(Next(s, step), n)
    ensures step == NodeWorkRead(n) ==> Listed(s, n) && !Thrown(Next(s, step), n) && !Listed(Next(s, step), n)
    ensures step == RefRuns.NodeDies(n) ==> !Live(Next(s, step).graph, n)
    ensures step == ManagerSet(n) ==>
              var s' := Next(s, step);
              Live(s'.graph, n) && s'.graph.nodes[n].work == s.graph.nodes[n].work && s'.graph.nodes[n].hasStrong && s'.graph.nodes[n].hasWeak
  {
    hide SysInv, Enabled, Next;
    if step.ManagerSet? {
      ManagerWork(s, n);
    } else if step.NodeWorkRead? {
      ReadWork(s, n);
    } else if step.WorkThrownAway? {
      ThrownWork(s, n);
    } else {
      DeadWork(s, n);
    }
  }

  lemma BoundedIds(s: System, n: nat)
    requires SysInv(s) && Live(s.graph, n)
    ensures n < s.graph.nextId
  {
    SysGraph(s);
    hide SysInv;
    InvNode(s.graph, n);
  }

  /** What one step does to the two facts. */
  lemma StepThrown(s: System, step: Step, n: nat)
    requires SysInv(s) && Enabled(s, step)
    ensures var s' := Next(s, step);
            && (Thrown(s', n) ==> step == WorkThrownAway(n) || Thrown(s, n))
            && (step == WorkThrownAway(n) ==> Thrown(s', n))
            && (Thrown(s, n) && Live(s'.graph, n) ==> Thrown(s', n) || Listed(s', n))
            && s.graph.nextId <= s'.graph.nextId
            && (n < s.graph.nextId && Live(s'.graph, n) ==> Live(s.graph, n))
  {
    hide SysInv, Enabled, Next;
    if Takes(step, n) {
      TakenWork(s, step, n);
    } else {
      StepWorks(s, step, n);
    }
  }

  lemma {:induction false} DeadStays(s: System, steps: seq<Step>, n: nat)
    requires SysInv(s) && IsRun(s, steps) && n < s.graph.nextId && Live(End(s, steps).graph, n)
    ensures Live(s.graph, n)
    decreases |steps|
  {
    hide SysInv, Enabled, Next, Live;
    if steps != [] {
      RunParts(s, steps);
      StepThrown(s, steps[0], n);
      DeadStays(Next(s, steps[0]), steps[1..], n);
    }
  }

  lemma {:induction false} ThrownExactly(s: System, steps: seq<Step>, n: nat)
    requires SysInv(s) && IsRun(s, steps) && Live(End(s, steps).graph, n)
    ensures Thrown(End(s, steps), n) <==> (Thrown(s, n) && Unlisted(s, steps, n)) || ThrownIn(s, steps, n)
    decreases |steps|
  {
    hide SysInv, Enabled, Next;
    if steps != [] {
      RunParts(s, steps);
      var s' := Next(s, steps[0]);
      StepThrown(s, steps[0], n);
      ThrownExactly(s', steps[1..], n);
      if Thrown(s, n) {
        BoundedIds(s, n);
        DeadStays(s', steps[1..], n);
      }
    }
  }

  // ---------- the result ----------

  /** In every reachable state: when the last strong or the last reference on a node has gone and
      user space has not been told, the work item that tells it is on a list if and only if it
      was not thrown away with a thread's list since it was last on one. */
  lemma UntoldIsListedUnlessThrown(steps: seq<Step>, n: nat)
    requires SysInv(START) && IsRun(START, steps) && Live(End(START, steps).graph, n) && Untold(End(START, steps).graph.nodes[n])
    ensures Listed(End(START, steps), n) <==> !ThrownIn(START, steps, n)
  {
    hide SysInv, IsRun, Enabled, Next;
    var s := End(START, steps);
    ThrownExactly(START, steps, n);
    SysGraph(s);
    InvNode(s.graph, n);
  }

  /** A node that user space knows of and whose item is on no list stays, and user space is not
      told, for as long as nothing puts the item on a list and its process does not die. */
  lemma {:induction false} StrandedStays(s: System, steps: seq<Step>, n: nat)
    requires SysInv(s) && IsRun(s, steps) && Live(s.graph, n) && s.graph.nodes[n].hasWeak
    requires Unlisted(s, steps, n) && RefRuns.NodeDies(n) !in steps
    ensures Live(End(s, steps).graph, n) && End(s, steps).graph.nodes[n].hasWeak && NodeWorkRead(n) !in steps
    decreases |steps|
  {
    hide SysInv, Enabled, Next;
    if steps != [] {
      RunParts(s, steps);
      var s' := Next(s, steps[0]);
      assert forall i :: 0 <= i < |steps[1..]| ==> steps[1..][i] == steps[i + 1];
      if Takes(steps[0], n) {
        TakenWork(s, steps[0], n);
      } else {
        StepWorks(s, steps[0], n);
      }
      StrandedStays(s', steps[1..], n);
      assert steps == [steps[0]] + steps[1..];
    }
  }

  ghost predicate NeverOnThread(s: System, steps: seq<Step>, n: nat)
    requires SysInv(s) && IsRun(s, steps)
    decreases |steps|
  {
    hide SysInv, Enabled, Next;
    && !(Live(s.graph, n) && s.graph.nodes[n].work.OnThread?)
    && (steps == [] || (RunParts(s, steps); NeverOnThread(Next(s, steps[0]), steps[1..], n)))
  }

  /** On the list of the process an item is safe: it stays there until it is read, is moved to a
      thread's list, or the process dies. */
  lemma {:induction false} ProcessWorkStays(s: System, steps: seq<Step>, n: nat)
    requires SysInv(s) && IsRun(s, steps) && Live(s.graph, n) && s.graph.nodes[n].work.OnProc?
    requires NeverOnThread(s, steps, n) && NodeWorkRead(n) !in steps && RefRuns.NodeDies(n) !in steps
    ensures Live(End(s, steps).graph, n) && End(s, steps).graph.nodes[n].work.OnProc?
    decreases |steps|
  {
    hide SysInv, Enabled, Next;
    if steps != [] {
      RunParts(s, steps);
      var s' := Next(s, steps[0]);
      KnownOnProc(s, n);
      ThrownFromThread(s, steps[0], n);
      if steps[0] == ManagerSet(n) {
        TakenWork(s, steps[0], n);
      } else {
        StepWorks(s, steps[0], n);
      }
      assert steps == [steps[0]] + steps[1..];
      ProcessWorkStays(s', steps[1..], n);
    }
  }

  lemma KnownOnProc(s: System, n: nat)
    requires SysInv(s) && Live(s.graph, n) && s.graph.nodes[n].work.OnProc?
    ensures s.graph.nodes[n].hasWeak
  {
    SysGraph(s);
    hide SysInv;
    InvNode(s.graph, n);
  }

  lemma ThrownFromThread(s: System, step: Step, n: nat)
    requires SysInv(s) && Enabled(s, step)
    ensures step == WorkThrownAway(n) ==> Live(s.graph, n) && s.graph.nodes[n].work.OnThread?
  {
  }
}
