/** What becomes of a node whose process has died.  One expects it to go with its last ref and
    its last temporary reference.  It does, unless a local count is given back to it after its
    death: the counts were zeroed then and become negative, and the last decrement takes that
    for a reason to keep the node. */
module RefDead {
  import opened Common
  import opened RefGraph
  import opened RefOps
  import opened RefUndo
  import opened RefEffects
  import opened RefBuffers
  import opened RefSystem
  import opened RefTeardown
  import opened RefProcs
  import opened RefRuns

  predicate GivenLate(s: System, n: nat) {
    s.late.strong[n] > 0 || s.late.weak[n] > 0
  }

  predicate Dead(s: System, n: nat) {
    n in s.graph.nodes && s.graph.nodes[n].proc.None?
  }

  /** Nobody refers to the node any more. */
  ghost predicate Unused(s: System, n: nat) {
    (forall r :: r in s.graph.refs ==> s.graph.refs[r].node != n) && (forall op :: op in s.held ==> s.held[op] != n)
  }

  /** In every reachable state, a node without a process that nobody refers to is still there
      exactly when something was given back to it too late. */
  lemma DeadNodesGo(s: System, n: nat)
    requires Reachable(s) && !Live(s.graph, n) && Unused(s, n)
    ensures n in s.graph.nodes <==> GivenLate(s, n)
  {
    hide Reachable;
    ReachableInv(s);
    SysGraph(s);
    if n in s.graph.nodes {
      SysNode(s, n);
      NodesOutliveRefs(s, n);
      TempsAreDue(s.graph, n);
      assert Holders(s.held, n) == {};
      assert s.graph.nodes[n].list == {};
    }
  }

  /** What was given back late is never forgotten ... */
  lemma LateGrows(s: System, step: Step, n: nat)
    requires SysInv(s) && Enabled(s, step)
    ensures s.late.strong[n] <= Next(s, step).late.strong[n] && s.late.weak[n] <= Next(s, step).late.weak[n]
  {
    hide SysInv, Inv;
    if OnGraphOnly(step) {
      GraphStep(s, step);
    }
  }

  /** ... and such a node stays for ever. */
  lemma {:induction false} LateNodesStay(s: System, steps: seq<Step>, n: nat)
    requires SysInv(s) && IsRun(s, steps) && GivenLate(s, n)
    ensures Dead(End(s, steps), n) && GivenLate(End(s, steps), n)
    decreases |steps|
  {
    hide SysInv, Enabled, Next, IsRun;
    if steps == [] {
      LateIsThere(s, n);
      assert End(s, steps) == s;
    } else {
      RunParts(s, steps);
      LateGrows(s, steps[0], n);
      LateNodesStay(Next(s, steps[0]), steps[1..], n);
    }
  }

  lemma LateIsThere(s: System, n: nat)
    requires SysInv(s) && GivenLate(s, n)
    ensures Dead(s, n)
  {
    SysGraph(s);
  }

  // ---------- it does happen ----------

  function OneNode(x: Node, closing: set<nat>, late: Late, buffers: map<nat, Buffer>, held: map<nat, nat>, dues: Dues): System {
    System(State(map[0 := x], map[], map[], map[], if x.proc.Some? then map[(0, 0) := 0] else map[], None, 1, dues), buffers, held, closing, {}, late, {})
  }

  const ZERO: Late := Late(multiset{}, multiset{})
  const FRESH_NODE: Node := Node(Some(0), 0, 0, 0, 0, 0, 1, false, false, false, false, {}, Idle(false))
  const TARGETED: Node := FRESH_NODE.(localStrong := 1, temps := 2)
  const ORPHANED: Node := TARGETED.(proc := None, localStrong := 0)
  const TRANSACTION: Buffer := Buffer(0, Some(0), 1, [], 0, Building, None)

  lemma TransactionBegun()
    ensures var s := OneNode(TARGETED, {}, ZERO, map[0 := TRANSACTION], map[0 := 0, 1 := 0], Dues(multiset{}, multiset{0}, multiset{}, multiset{}, multiset{0, 0}));
            Reachable(s) && SysInv(s)
  {
    hide Reachable, SysInv, Inv;
    StartReachable();
    StartInv();
    var create := NodeCreated(0, 0, 0, 0);
    ReachableNext(START, create);
    var s1 := OneNode(FRESH_NODE, {}, ZERO, map[], map[0 := 0], Dues(multiset{}, multiset{}, multiset{}, multiset{}, multiset{0}));
    assert Next(START, create) == s1;
    var begin := TransactionBegins(0, 1, 0);
    ReachableNext(s1, begin);
    assert multiset{0} + multiset{0} == multiset{0, 0};
    assert Begin(s1, 0, 1, 0).graph.nodes == map[0 := TARGETED];
    assert Next(s1, begin)
        == OneNode(TARGETED, {}, ZERO, map[0 := TRANSACTION], map[0 := 0, 1 := 0], Dues(multiset{}, multiset{0}, multiset{}, multiset{}, multiset{0, 0}));
  }

  /** A process dies with a transaction to it under construction; the sender fails and gives the
      target's strong reference back. */
  lemma OwnerDied()
    ensures var s := OneNode(ORPHANED, {0}, ZERO, map[0 := TRANSACTION], map[0 := 0, 1 := 0], Dues(multiset{}, multiset{0}, multiset{}, multiset{}, multiset{0, 0}));
            Reachable(s) && SysInv(s)
  {
    hide Reachable, SysInv, Inv;
    TransactionBegun();
    var d := Dues(multiset{}, multiset{0}, multiset{}, multiset{}, multiset{0, 0});
    var s0 := OneNode(TARGETED, {}, ZERO, map[0 := TRANSACTION], map[0 := 0, 1 := 0], d);
    ReachableNext(s0, ProcCloses(0));
    var s1 := OneNode(TARGETED, {0}, ZERO, map[0 := TRANSACTION], map[0 := 0, 1 := 0], d);
    assert Next(s0, ProcCloses(0)) == s1;
    ReachableNext(s1, RefRuns.NodeDies(0));
    assert Die(s1, 0).graph.byPtr == map[];
    assert Next(s1, RefRuns.NodeDies(0)) == OneNode(ORPHANED, {0}, ZERO, map[0 := TRANSACTION], map[0 := 0, 1 := 0], d);
  }

  const GIVEN: Node := ORPHANED.(localStrong := -1)

  lemma SenderFailed()
    ensures var s := OneNode(GIVEN, {0}, Late(multiset{0}, multiset{}), map[], map[0 := 0, 1 := 0], Dues(multiset{}, multiset{}, multiset{}, multiset{}, multiset{0, 0}));
            Reachable(s) && SysInv(s)
  {
    hide Reachable, SysInv, Inv;
    OwnerDied();
    var s0 := OneNode(ORPHANED, {0}, ZERO, map[0 := TRANSACTION], map[0 := 0, 1 := 0], Dues(multiset{}, multiset{0}, multiset{}, multiset{}, multiset{0, 0}));
    var d := Dues(multiset{}, multiset{}, multiset{}, multiset{}, multiset{0, 0});
    ReachableNext(s0, ReleaseBegins(0, Aborting));
    var s1 := OneNode(GIVEN, {0}, Late(multiset{0}, multiset{}), map[0 := TRANSACTION.(target := None, phase := Aborting)], map[0 := 0, 1 := 0], d);
    assert DropTarget(s0.graph, 0).nodes == map[0 := GIVEN];
    assert Next(s0, ReleaseBegins(0, Aborting)) == s1;
    ReachableNext(s1, ReleaseEnds(0));
    assert EndRelease(s1, 0).buffers == map[];
    assert Next(s1, ReleaseEnds(0)) == OneNode(GIVEN, {0}, Late(multiset{0}, multiset{}), map[], map[0 := 0, 1 := 0], d);
  }

  lemma OnePut()
    ensures var s := OneNode(GIVEN.(temps := 1), {0}, Late(multiset{0}, multiset{}), map[], map[0 := 0], Dues(multiset{}, multiset{}, multiset{}, multiset{}, multiset{0}));
            Reachable(s) && SysInv(s)
  {
    hide Reachable, SysInv, Inv;
    SenderFailed();
    var s0 := OneNode(GIVEN, {0}, Late(multiset{0}, multiset{}), map[], map[0 := 0, 1 := 0], Dues(multiset{}, multiset{}, multiset{}, multiset{}, multiset{0, 0}));
    ReachableNext(s0, NodePut(1));
    assert multiset{0, 0} - multiset{0} == multiset{0};
    assert DropTemp(s0.graph, 0).nodes == map[0 := GIVEN.(temps := 1)];
    assert Put(s0, 1).held == map[0 := 0];
    assert Next(s0, NodePut(1))
        == OneNode(GIVEN.(temps := 1), {0}, Late(multiset{0}, multiset{}), map[], map[0 := 0], Dues(multiset{}, multiset{}, multiset{}, multiset{}, multiset{0}));
  }

  /** The node is left behind: dead, unused, and there for good. */
  lemma ADeadNodeCanBeLeftBehind()
    ensures exists s :: Reachable(s) && Dead(s, 0) && Unused(s, 0) && s.buffers == map[] && s.graph.nodes[0].localStrong == -1
  {
    hide Reachable, SysInv, Inv;
    OnePut();
    var s0 := OneNode(GIVEN.(temps := 1), {0}, Late(multiset{0}, multiset{}), map[], map[0 := 0], Dues(multiset{}, multiset{}, multiset{}, multiset{}, multiset{0}));
    ReachableNext(s0, NodePut(0));
    var s1 := Next(s0, NodePut(0));
    assert s1 == Put(s0, 0);
    assert s1.graph.nodes == map[0 := GIVEN.(temps := 0)] && s1.held == map[] && s1.graph.refs == map[] && s1.buffers == map[];
    assert Dead(s1, 0) && Unused(s1, 0);
  }
}
