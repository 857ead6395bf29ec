/** A run that leaves a node behind in a living process: thread 7 of process 0 sends its object
    weak and then strong to process 1, leaves before it has read the work of the second message,
    and process 1 gives both handles back. */
module RefStranded {
  import opened Common
  import opened RefGraph
  import opened RefOps
  import opened RefUndo
  import opened RefBuffers
  import opened RefSystem
  import opened RefTeardown
  import opened RefProcs
  import opened RefRuns
  import opened RefWork

  const NO_LATE: Late := Late(multiset{}, multiset{})
  const CREATED: Node := Node(Some(0), 0, 0, 0, 0, 0, 1, false, false, false, false, {}, Idle(false))
  const WEAK_SENT: Node := CREATED.(list := {1}, work := OnThread(7))
  const READ: Node := CREATED.(temps := 0, list := {1}, hasWeak := true, pendingWeak := true, localWeak := 1)
  const DONE: Node := READ.(pendingWeak := false, localWeak := 0)
  const STRONG_SENT: Node := DONE.(internalStrong := 1, work := OnThread(7))
  const STRANDED: Node := DONE.(list := {}, work := Idle(true))

  function Message(objs: seq<Object>, done: nat, phase: Phase): Buffer {
    Buffer(1, None, 0, objs, done, phase, None)
  }

  ghost predicate Reached(s: System) {
    Reachable(s) && SysInv(s)
  }

  const WEAK_MESSAGE: seq<Object> := [Handle(1, false)]
  const STRONG_MESSAGE: seq<Object> := [Handle(1, true)]
  const FIRST: Buffer := Message(WEAK_MESSAGE, 0, Delivered)
  const SECOND: Buffer := Message(STRONG_MESSAGE, 0, Delivered)

  /** The node, held by operation 0 or by none, and the ref of process 1 on it. */
  function Shop(x: Node, refs: map<nat, Ref>, nextId: nat, buffers: map<nat, Buffer>, left: set<(nat, nat)>): System {
    System(
      State(map[0 := x], refs, if refs == map[] then map[] else map[(1, 1) := 1], if refs == map[] then map[] else map[(1, 0) := 1], map[(0, 0) := 0], None, nextId,
            Dues(multiset{}, multiset{}, multiset{}, multiset{}, if x.temps == 0 then multiset{} else multiset{0})),
      buffers, if x.temps == 0 then map[] else map[0 := 0], {}, {}, NO_LATE, left)
  }

  function OneRef(strong: nat, weak: nat): (refs: map<nat, Ref>)
    ensures 1 in refs && refs != map[]
  {
    map[1 := Ref(1, 0, 1, strong, weak)]
  }

  lemma NodeIsMade()
    ensures Reached(Shop(CREATED, map[], 1, map[0 := Message([], 0, Building)], {}))
  {
    hide Reachable, SysInv, Inv;
    StartReachable();
    StartInv();
    var create := NodeCreated(0, 0, 0, 0);
    ReachableNext(START, create);
    var s1 := Shop(CREATED, map[], 1, map[], {});
    assert Next(START, create) == s1;
    ReachableNext(s1, ReplyBegins(0, 1));
    assert Next(s1, ReplyBegins(0, 1)) == Shop(CREATED, map[], 1, map[0 := Message([], 0, Building)], {});
  }

  lemma NodeHeld(x: Node, refs: map<nat, Ref>, buffers: map<nat, Buffer>)
    requires x.temps == 0 && x.proc == Some(0) && Reached(Shop(x, refs, 2, buffers, {}))
    ensures Reached(Shop(x.(temps := 1), refs, 2, buffers, {}))
  {
    hide Reachable, SysInv, Inv;
    var s := Shop(x, refs, 2, buffers, {});
    ReachableNext(s, NodeFound(0, 0, 0));
    assert TakeTemp(s.graph, 0).nodes == map[0 := x.(temps := 1)];
    assert Next(s, NodeFound(0, 0, 0)) == Shop(x.(temps := 1), refs, 2, buffers, {});
  }

  lemma NodeGivenBack(x: Node, refs: map<nat, Ref>, buffers: map<nat, Buffer>)
    requires x.temps == 1 && x.list == {1} && x.proc == Some(0) && Reached(Shop(x, refs, 2, buffers, {}))
    requires forall b :: b in buffers ==> buffers[b].target.None? && buffers[b].at.None?
    ensures Reached(Shop(x.(temps := 0), refs, 2, buffers, {}))
  {
    hide Reachable, SysInv, Inv;
    var s := Shop(x, refs, 2, buffers, {});
    ReachableNext(s, NodePut(0));
    assert 1 in x.list;
    assert DropTemp(s.graph, 0).nodes == map[0 := x.(temps := 0)];
    assert Next(s, NodePut(0)) == Shop(x.(temps := 0), refs, 2, buffers, {});
  }

  lemma MessageDelivered(x: Node, refs: map<nat, Ref>, rest: map<nat, Buffer>, b: nat, objs: seq<Object>)
    requires Reached(Shop(x, refs, 2, rest[b := Message(objs, 0, Building)], {}))
    ensures Reached(Shop(x, refs, 2, rest[b := Message(objs, 0, Delivered)], {}))
  {
    hide Reachable, SysInv, Inv;
    var s := Shop(x, refs, 2, rest[b := Message(objs, 0, Building)], {});
    ReachableNext(s, Delivers(b));
    assert Next(s, Delivers(b)) == Shop(x, refs, 2, rest[b := Message(objs, 0, Delivered)], {});
  }

  lemma MessageBeingFreed(x: Node, refs: map<nat, Ref>, rest: map<nat, Buffer>, b: nat, objs: seq<Object>)
    requires Reached(Shop(x, refs, 2, rest[b := Message(objs, 0, Delivered)], {}))
    ensures Reached(Shop(x, refs, 2, rest[b := Message(objs, 0, Freeing)], {}))
  {
    hide Reachable, SysInv, Inv;
    var s := Shop(x, refs, 2, rest[b := Message(objs, 0, Delivered)], {});
    ReachableNext(s, ReleaseBegins(b, Freeing));
    assert Next(s, ReleaseBegins(b, Freeing)) == Shop(x, refs, 2, rest[b := Message(objs, 0, Freeing)], {});
  }

  lemma MessageFreed(x: Node, refs: map<nat, Ref>, rest: map<nat, Buffer>, b: nat, o: Object)
    requires b !in rest && Reached(Shop(x, refs, 2, rest[b := Message([o], 1, Freeing)], {}))
    ensures Reached(Shop(x, refs, 2, rest, {}))
  {
    hide Reachable, SysInv, Inv;
    var s := Shop(x, refs, 2, rest[b := Message([o], 1, Freeing)], {});
    ReachableNext(s, ReleaseEnds(b));
    assert s.buffers - {b} == rest;
    assert Next(s, ReleaseEnds(b)) == Shop(x, refs, 2, rest, {});
  }

  lemma SendingWeak()
    ensures Reached(Shop(WEAK_SENT, OneRef(0, 1), 2, map[0 := Message(WEAK_MESSAGE, 0, Building)], {}))
  {
    hide Reachable, SysInv, Inv;
    NodeIsMade();
    var s0 := Shop(CREATED, map[], 1, map[0 := Message([], 0, Building)], {});
    var send := ObjectToHandle(0, 0, false, Some(7));
    ReachableNext(s0, send);
    var s1 := Shop(WEAK_SENT, OneRef(0, 1), 2, map[0 := Message(WEAK_MESSAGE, 0, Building)], {});
    SysGraph(s0);
    FirstIncrement();
    assert Appended(s0, 0, Handle(1, false)) == s1.buffers[0];
    hide IncRefForNode;
    assert Next(s0, send).buffers == s1.buffers;
    assert Next(s0, send) == s1;
  }

  lemma FirstIncrement()
    ensures var g := Shop(CREATED, map[], 1, map[], {}).graph;
            Inv(g) ==> IncRefForNode(g, 1, 0, false, Some(7)) == RefInc(Shop(WEAK_SENT, OneRef(0, 1), 2, map[], {}).graph, true)
  {
    hide Inv;
    var g0 := Shop(CREATED, map[], 1, map[], {}).graph;
    assert CREATED.list + {1} == {1};
    var g := AddRef(g0, 1, 0);
    assert g.nodes == map[0 := CREATED.(list := {1})] && g.refs == OneRef(0, 0) && g.byDesc == map[(1, 1) := 1] && g.byNode == map[(1, 0) := 1];
    assert IncRef(g, 1, false, Some(7)).state == Shop(WEAK_SENT, OneRef(0, 1), 2, map[], {}).graph;
  }

  lemma SentWeak()
    ensures Reached(Shop(WEAK_SENT.(temps := 0), OneRef(0, 1), 2, map[0 := FIRST], {}))
  {
    hide Reached;
    SendingWeak();
    NodeGivenBack(WEAK_SENT, OneRef(0, 1), map[0 := Message(WEAK_MESSAGE, 0, Building)]);
    var none: map<nat, Buffer> := map[];
    assert none[0 := Message(WEAK_MESSAGE, 0, Building)] == map[0 := Message(WEAK_MESSAGE, 0, Building)];
    MessageDelivered(WEAK_SENT.(temps := 0), OneRef(0, 1), none, 0, WEAK_MESSAGE);
    assert none[0 := FIRST] == map[0 := FIRST];
  }

  /** User space reads BR_INCREFS ... */
  lemma WeakIsRead()
    ensures Reached(Shop(READ, OneRef(0, 1), 2, map[0 := FIRST], {}))
  {
    hide Reachable, SysInv, Inv;
    SentWeak();
    var s0 := Shop(WEAK_SENT.(temps := 0), OneRef(0, 1), 2, map[0 := FIRST], {});
    ReachableNext(s0, NodeWorkRead(0));
    assert NodeWork(s0.graph, 0).nodes == map[0 := READ];
    assert Next(s0, NodeWorkRead(0)) == Shop(READ, OneRef(0, 1), 2, map[0 := FIRST], {});
  }

  /** ... and answers BC_INCREFS_DONE. */
  lemma WeakIsKnown()
    ensures Reached(Shop(DONE, OneRef(0, 1), 2, map[0 := FIRST], {}))
  {
    hide Reachable, SysInv, Inv;
    WeakIsRead();
    NodeHeld(READ, OneRef(0, 1), map[0 := FIRST]);
    var s := Shop(READ.(temps := 1), OneRef(0, 1), 2, map[0 := FIRST], {});
    ReachableNext(s, UserDone(0, false));
    SysGraph(s);
    assert Done(s.graph, 0, false).nodes == map[0 := DONE.(temps := 1)];
    assert Next(s, UserDone(0, false)) == Shop(DONE.(temps := 1), OneRef(0, 1), 2, map[0 := FIRST], {});
    NodeGivenBack(DONE.(temps := 1), OneRef(0, 1), map[0 := FIRST]);
  }

  /** The same thread sends the object strong: the work is on its list again. */
  lemma SendingStrong()
    ensures Reached(Shop(STRONG_SENT.(temps := 1), OneRef(1, 1), 2, map[0 := FIRST, 1 := Message(STRONG_MESSAGE, 0, Building)], {}))
  {
    hide Reachable, SysInv, Inv;
    SecondMessage();
    var s := Shop(DONE.(temps := 1), OneRef(0, 1), 2, map[0 := FIRST, 1 := Message([], 0, Building)], {});
    var send := ObjectToHandle(1, 0, true, Some(7));
    ReachableNext(s, send);
    var s' := Shop(STRONG_SENT.(temps := 1), OneRef(1, 1), 2, map[0 := FIRST, 1 := Message(STRONG_MESSAGE, 0, Building)], {});
    SysGraph(s);
    SecondIncrement();
    assert Appended(s, 1, Handle(1, true)) == s'.buffers[1];
    hide IncRefForNode;
    assert Next(s, send).buffers == s'.buffers;
    assert Next(s, send) == s';
  }

  lemma SecondIncrement()
    ensures var g := Shop(DONE.(temps := 1), OneRef(0, 1), 2, map[], {}).graph;
            Inv(g) ==> IncRefForNode(g, 1, 0, true, Some(7)) == RefInc(Shop(STRONG_SENT.(temps := 1), OneRef(1, 1), 2, map[], {}).graph, true)
  {
    hide Inv;
    var g := Shop(DONE.(temps := 1), OneRef(0, 1), 2, map[], {}).graph;
    assert IncRef(g, 1, true, Some(7)).state == Shop(STRONG_SENT.(temps := 1), OneRef(1, 1), 2, map[], {}).graph;
  }

  lemma SecondMessage()
    ensures Reached(Shop(DONE.(temps := 1), OneRef(0, 1), 2, map[0 := FIRST, 1 := Message([], 0, Building)], {}))
  {
    hide Reachable, SysInv, Inv;
    WeakIsKnown();
    NodeHeld(DONE, OneRef(0, 1), map[0 := FIRST]);
    var s := Shop(DONE.(temps := 1), OneRef(0, 1), 2, map[0 := FIRST], {});
    ReachableNext(s, ReplyBegins(1, 1));
    assert Next(s, ReplyBegins(1, 1)) == Shop(DONE.(temps := 1), OneRef(0, 1), 2, map[0 := FIRST, 1 := Message([], 0, Building)], {});
  }

  lemma SentStrong()
    ensures Reached(Shop(STRONG_SENT, OneRef(1, 1), 2, map[1 := SECOND, 0 := FIRST], {}))
  {
    hide Reached;
    SendingStrong();
    NodeGivenBack(STRONG_SENT.(temps := 1), OneRef(1, 1), map[0 := FIRST, 1 := Message(STRONG_MESSAGE, 0, Building)]);
    var rest := map[0 := FIRST];
    assert rest[1 := Message(STRONG_MESSAGE, 0, Building)] == map[0 := FIRST, 1 := Message(STRONG_MESSAGE, 0, Building)];
    MessageDelivered(STRONG_SENT, OneRef(1, 1), rest, 1, STRONG_MESSAGE);
    assert rest[1 := SECOND] == map[1 := SECOND, 0 := FIRST];
  }

  lemma FirstRefGoes()
    ensures var g := Shop(STRONG_SENT, OneRef(1, 1), 2, map[], {}).graph;
            Inv(g) ==> DecRef(g, 1, false) == Shop(STRONG_SENT, OneRef(1, 0), 2, map[], {}).graph
  {
    hide Inv;
  }

  /** The handles given back one after the other. */
  lemma HandleGivenBack(x: Node, x': Node, refs: map<nat, Ref>, refs': map<nat, Ref>, rest: map<nat, Buffer>, b: nat, strong: bool)
    requires x.temps == 0 && refs == OneRef(1, if strong then 0 else 1) && Reached(Shop(x, refs, 2, rest[b := Message([Handle(1, strong)], 0, Freeing)], {}))
    requires var g := Shop(x, refs, 2, map[], {}).graph; Inv(g) ==> DecRef(g, 1, strong) == Shop(x', refs', 2, map[], {}).graph
    requires x'.temps == 0
    ensures Reached(Shop(x', refs', 2, rest[b := Message([Handle(1, strong)], 1, Freeing)], {}))
  {
    hide Reachable, SysInv, Inv, DecRef;
    var s := Shop(x, refs, 2, rest[b := Message([Handle(1, strong)], 0, Freeing)], {});
    ReachableNext(s, ReleasesOther(b));
    SysGraph(s);
    assert FindRef(s.graph, 1, 1, strong) == Some(1);
    assert Next(s, ReleasesOther(b)) == Shop(x', refs', 2, rest[b := Message([Handle(1, strong)], 1, Freeing)], {});
  }

  lemma WeakGivenBack()
    ensures Reached(Shop(STRONG_SENT, OneRef(1, 0), 2, map[1 := SECOND], {}))
  {
    hide Reached, DecRef;
    SentStrong();
    var rest := map[1 := SECOND];
    assert rest[0 := FIRST] == map[1 := SECOND, 0 := FIRST];
    MessageBeingFreed(STRONG_SENT, OneRef(1, 1), rest, 0, WEAK_MESSAGE);
    FirstRefGoes();
    HandleGivenBack(STRONG_SENT, STRONG_SENT, OneRef(1, 1), OneRef(1, 0), rest, 0, false);
    MessageFreed(STRONG_SENT, OneRef(1, 0), rest, 0, Handle(1, false));
  }

  /** The last reference goes while the work is on the thread's list. */
  lemma StrongGivenBack()
    ensures Reached(Shop(STRANDED.(work := OnThread(7)), map[], 2, map[], {}))
  {
    hide Reached, DecRef;
    WeakGivenBack();
    var rest: map<nat, Buffer> := map[];
    assert rest[1 := SECOND] == map[1 := SECOND];
    MessageBeingFreed(STRONG_SENT, OneRef(1, 0), rest, 1, STRONG_MESSAGE);
    LastRefGoes();
    HandleGivenBack(STRONG_SENT, STRANDED.(work := OnThread(7)), OneRef(1, 0), map[], rest, 1, true);
    MessageFreed(STRANDED.(work := OnThread(7)), map[], rest, 1, Handle(1, true));
  }

  lemma LastRefGoes()
    ensures var g := Shop(STRONG_SENT, OneRef(1, 0), 2, map[], {}).graph;
            Inv(g) ==> DecRef(g, 1, true) == Shop(STRANDED.(work := OnThread(7)), map[], 2, map[], {}).graph
  {
    hide Inv;
    var g := Shop(STRONG_SENT, OneRef(1, 0), 2, map[], {}).graph;
    assert STRONG_SENT.list - {1} == {};
    if Inv(g) {
      var g1 := LowerStrong(g, 1, 0);
      assert g1.nodes == map[0 := STRONG_SENT.(internalStrong := 0)] && g1.refs == OneRef(0, 0);
      var g2 := TakeOut(g1, 1);
      assert g2.nodes == map[0 := STRANDED.(work := OnThread(7))];
      assert g2.refs == map[] && g2.byDesc == map[] && g2.byNode == map[];
    }
  }

  /** The thread leaves and its list is thrown away.  The process lives, nobody refers to the node
      any more, and nothing will tell user space. */
  lemma ALiveNodeCanBeLeftBehind()
    ensures exists s ::
              && Reachable(s) && s.closing == {} && s.buffers == map[] && s.held == map[] && s.graph.refs == map[]
              && Live(s.graph, 0) && !Weak(s.graph.nodes[0]) && s.graph.nodes[0].hasWeak && Thrown(s, 0)
  {
    hide Reachable, SysInv, Inv;
    StrongGivenBack();
    var s0 := Shop(STRANDED.(work := OnThread(7)), map[], 2, map[], {});
    ReachableNext(s0, ThreadLeaves(0, 7));
    var s1 := Shop(STRANDED.(work := OnThread(7)), map[], 2, map[], {(0, 7)});
    assert Next(s0, ThreadLeaves(0, 7)) == s1;
    ReachableNext(s1, WorkThrownAway(0));
    var s2 := Shop(STRANDED, map[], 2, map[], {(0, 7)});
    assert Next(s1, WorkThrownAway(0)) == s2;
  }
}
