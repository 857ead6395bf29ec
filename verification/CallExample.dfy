/** A run with a nested call: thread 0 of process 0 calls process 1, whose thread 1 calls back
    while serving.  The callback goes to the thread that waits, not to the process. */
module CallExample {
  import opened Common
  import opened CallGraph
  import opened CallFrames
  import opened CallReading
  import opened CallSending
  import opened CallQueueing
  import opened CallRelease
  import opened CallRuns

  /** Two processes with a thread each, in the given states. */
  function Two(caller: Thread, server: Thread, queue: seq<Work>, txns: map<nat, Txn>, nextId: nat): State {
    State(map[0 := caller, 1 := server], map[0 := Proc(false, []), 1 := Proc(false, queue)], txns, nextId, map[], {})
  }

  const IDLE0: Thread := Thread(0, false, Idle, None, [], [], false)
  const IDLE1: Thread := Thread(1, false, Idle, None, [], [], false)
  const CALLING: Thread := Thread(0, false, Idle, Some(0), [Other], [Out(0)], false)
  const SERVING: Thread := Thread(1, false, Idle, Some(0), [], [In(0)], false)

  function Outer(holder: Holder, toThread: Option<nat>): Txn {
    Txn(Some(0), None, 1, toThread, None, holder, {})
  }

  lemma Start()
    ensures Reachable(Two(IDLE0, IDLE1, [], map[], 0)) && Inv(Two(IDLE0, IDLE1, [], map[], 0))
  {
    hide Reachable;
    InitialInv();
    assert Reachable(INITIAL) by {
      AtStart();
    }
    ReachableNext(INITIAL, ProcStep(0, Created));
    var g1 := INITIAL.(procs := map[0 := Proc(false, [])]);
    assert Next(INITIAL, ProcStep(0, Created)) == g1;
    ReachableNext(g1, ProcStep(1, Created));
    var g2 := g1.(procs := map[0 := Proc(false, []), 1 := Proc(false, [])]);
    assert Next(g1, ProcStep(1, Created)) == g2;
    ReachableNext(g2, ThreadStarts(0, 0));
    var g3 := g2.(threads := map[0 := IDLE0]);
    assert Next(g2, ThreadStarts(0, 0)) == g3;
    ReachableNext(g3, ThreadStarts(1, 1));
    assert Next(g3, ThreadStarts(1, 1)) == Two(IDLE0, IDLE1, [], map[], 0);
  }

  lemma AtStart()
    ensures Reachable(INITIAL)
  {
    InitialInv();
    assert IsRun(INITIAL, []) && End(INITIAL, []) == INITIAL;
  }

  /** The outer call is on its way. */
  lemma Called()
    ensures var g := Two(CALLING, IDLE1, [Call(0)], map[0 := Outer(ProcTodo(1), None)], 1); Reachable(g) && Inv(g)
  {
    hide Reachable, Inv;
    Start();
    var g0 := Two(IDLE0, IDLE1, [], map[], 0);
    ReachableNext(g0, StartCall(0, 1));
    var g1 := Two(IDLE0.(phase := Sending(0, 1, None)), IDLE1, [], map[], 1);
    assert Next(g0, StartCall(0, 1)) == g1;
    ReachableNext(g1, PushCall(0));
    var g2 := Two(CALLING.(phase := Sent(0, None)), IDLE1, [], map[0 := Outer(Sender(0), None)], 1);
    assert [Out(0)] + [] == [Out(0)] && [] + [Other] == [Other];
    assert Push(g1, 0).txns == g2.txns && Push(g1, 0).threads == g2.threads;
    assert Next(g1, PushCall(0)) == g2;
    ReachableNext(g2, QueueToProc(0));
    assert [] + [Call(0)] == [Call(0)];
    assert SubmitToProc(g2, 0).threads == map[0 := CALLING, 1 := IDLE1];
    assert SubmitToProc(g2, 0).procs[1] == Proc(false, [Call(0)]);
    assert Next(g2, QueueToProc(0)) == Two(CALLING, IDLE1, [Call(0)], map[0 := Outer(ProcTodo(1), None)], 1);
  }

  /** Thread 1 serves it. */
  lemma Served()
    ensures var g := Two(CALLING, SERVING, [], map[0 := Outer(Receiver(1), Some(1))], 1); Reachable(g) && Inv(g)
  {
    hide Reachable, Inv;
    Called();
    var g0 := Two(CALLING, IDLE1, [Call(0)], map[0 := Outer(ProcTodo(1), None)], 1);
    ReachableNext(g0, Quiet(1, Reading(true), []));
    var g1 := Two(CALLING, IDLE1.(phase := Reading(true)), [Call(0)], map[0 := Outer(ProcTodo(1), None)], 1);
    assert Next(g0, Quiet(1, Reading(true), [])) == g1;
    ReachableNext(g1, ReadProc(1));
    var g2 := Two(CALLING, IDLE1.(phase := Delivering(0, true)), [], map[0 := Outer(Delivery(1), None)], 1);
    assert [Call(0)][1..] == [];
    assert TakeProc(g1, 1).threads == g2.threads && TakeProc(g1, 1).procs == g2.procs && TakeProc(g1, 1).txns == g2.txns;
    assert Next(g1, ReadProc(1)) == g2;
    ReachableNext(g2, Deliver(1));
    assert [In(0)] + [] == [In(0)];
    assert Accept(g2, 1).threads == map[0 := CALLING, 1 := SERVING];
    assert Next(g2, Deliver(1)) == Two(CALLING, SERVING, [], map[0 := Outer(Receiver(1), Some(1))], 1);
  }

  const OUTER: Txn := Outer(Receiver(1), Some(1))
  const SERVER: Thread := Thread(1, false, Idle, Some(1), [Other], [Out(1), In(0)], false)
  const CALLBACK: Txn := Txn(Some(1), Some(0), 0, Some(0), None, Sender(1), {0})

  lemma CallbackStarted()
    ensures var g := Two(CALLING, SERVING.(phase := Sending(1, 0, Some(0))), [], map[0 := OUTER], 2); Reachable(g) && Inv(g)
  {
    hide Reachable, Inv;
    Served();
    var g0 := Two(CALLING, SERVING, [], map[0 := OUTER], 1);
    ReachableNext(g0, StartCall(1, 0));
    assert Next(g0, StartCall(1, 0)) == Two(CALLING, SERVING.(phase := Sending(1, 0, Some(0))), [], map[0 := OUTER], 2);
  }

  lemma CallbackPushed()
    ensures var g := Two(CALLING, SERVER.(phase := Sent(1, Some(0))), [], map[0 := OUTER, 1 := CALLBACK], 2); Reachable(g) && Inv(g)
  {
    hide Reachable, Inv;
    CallbackStarted();
    var g1 := Two(CALLING, SERVING.(phase := Sending(1, 0, Some(0))), [], map[0 := OUTER], 2);
    ReachableNext(g1, PushCall(1));
    var g2 := Two(CALLING, SERVER.(phase := Sent(1, Some(0))), [], map[0 := OUTER, 1 := CALLBACK], 2);
    assert [Out(1)] + [In(0)] == [Out(1), In(0)] && [] + [Other] == [Other];
    assert Within(g1.txns, [In(0)]) == {0};
    assert Push(g1, 1).txns == g2.txns && Push(g1, 1).threads == g2.threads;
    assert Next(g1, PushCall(1)) == g2;
  }

  /** Its callback is queued to thread 0, which waits for the outer call. */
  lemma CallbackGoesToTheWaitingThread()
    ensures exists g :: Reachable(g) && 0 in g.threads && 1 in g.txns
                        && g.threads[0].stack == Some(0) && g.threads[0].todo == [Other, Call(1)]
                        && g.txns[1].fromParent == Some(0) && g.txns[1].above == {0}
  {
    hide Reachable, Inv;
    CallbackPushed();
    var g2 := Two(CALLING, SERVER.(phase := Sent(1, Some(0))), [], map[0 := OUTER, 1 := CALLBACK], 2);
    ReachableNext(g2, QueueToThread(1, 0));
    var g3 := Two(CALLING.(todo := [Other, Call(1)]), SERVER, [], map[0 := OUTER, 1 := CALLBACK.(holder := ThreadTodo(0))], 2);
    assert [Other] + [Call(1)] == [Other, Call(1)];
    assert SubmitToThread(g2, 1, 0).txns == g3.txns && SubmitToThread(g2, 1, 0).threads == g3.threads;
    assert Next(g2, QueueToThread(1, 0)) == g3;
    assert g3.threads[0].todo == [Other, Call(1)] && g3.txns[1].above == {0};
  }
}
