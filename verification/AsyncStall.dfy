/** The stall of a one-way queue can be reached. */
module AsyncStall {
  import opened Common
  import opened AsyncQueue
  import opened AsyncSteps
  import opened AsyncRuns
  import opened AsyncProgress

  const BUSY: State := State(
    map[0 := Open], map[0 := Thread(0, true)], map[0 := Node(0, Serving, true, [1])],
    map[0 := Buffer(0, Runnable(ThreadTodo(0))), 1 := Buffer(0, Waiting)],
    map[0 := Log([0, 1], [], Some(0), [])], 2)

  const IDLE: State := State(
    map[0 := Open], map[0 := Thread(0, true)], map[0 := Node(0, Serving, false, [])],
    map[], map[0 := Log([], [], None, [])], 0)

  lemma IdleIsReachable()
    ensures Reachable(IDLE) && Inv(IDLE)
  {
    hide Reachable;
    InitialReachable();
    InitialInv();
    ReachableNext(INITIAL, NewProc(0));
    var s1 := State(map[0 := Open], map[], map[], map[], map[], 0);
    assert Next(INITIAL, NewProc(0)) == s1;
    ReachableNext(s1, NewThread(0, 0));
    var s2 := s1.(threads := map[0 := Thread(0, true)]);
    assert Next(s1, NewThread(0, 0)) == s2;
    ReachableNext(s2, NewNode(0, 0));
    assert Next(s2, NewNode(0, 0)) == IDLE;
  }

  lemma SentOnce()
    ensures var s := IDLE.(buffers := map[0 := Buffer(0, Runnable(ThreadTodo(0)))], nodes := map[0 := Node(0, Serving, true, [])],
                           logs := map[0 := Log([0], [], Some(0), [])], nextId := 1);
            Reachable(s) && Inv(s)
  {
    hide Reachable;
    IdleIsReachable();
    ReachableNext(IDLE, Begins(0));
    var s1 := IDLE.(buffers := map[0 := Buffer(0, Building)], nextId := 1);
    assert Next(IDLE, Begins(0)) == s1;
    ReachableNext(s1, Sends(0, ThreadTodo(0)));
    var s2 := Next(s1, Sends(0, ThreadTodo(0)));
    assert s2 == Send(s1, 0, ThreadTodo(0));
    assert s2.buffers == map[0 := Buffer(0, Runnable(ThreadTodo(0)))];
    assert s2.nodes == map[0 := Node(0, Serving, true, [])];
    assert s2.logs[0] == Log([0], [], Some(0), []);
    assert s2.logs == map[0 := Log([0], [], Some(0), [])];
  }

  /** One transaction on the list of a waiting thread, a second one behind it. */
  lemma BusyIsReachable()
    ensures Reachable(BUSY) && Inv(BUSY)
  {
    hide Reachable;
    SentOnce();
    var s1 := IDLE.(buffers := map[0 := Buffer(0, Runnable(ThreadTodo(0)))], nodes := map[0 := Node(0, Serving, true, [])],
                    logs := map[0 := Log([0], [], Some(0), [])], nextId := 1);
    ReachableNext(s1, Begins(0));
    var s2 := s1.(buffers := s1.buffers[1 := Buffer(0, Building)], nextId := 2);
    assert Next(s1, Begins(0)) == s2;
    SecondWaits(s2);
    ReachableNext(s2, Sends(1, ProcTodo(0)));
  }

  lemma SecondWaits(s: State)
    requires Inv(s) && s.buffers == map[0 := Buffer(0, Runnable(ThreadTodo(0))), 1 := Buffer(0, Building)]
    requires s == BUSY.(buffers := s.buffers, nodes := map[0 := Node(0, Serving, true, [])], logs := map[0 := Log([0], [], Some(0), [])])
    ensures Enabled(s, Sends(1, ProcTodo(0))) && Next(s, Sends(1, ProcTodo(0))) == BUSY
  {
    hide Inv;
    var s' := Send(s, 1, ProcTodo(0));
    assert s'.logs[0] == Log([0, 1], [], Some(0), []);
    assert s'.nodes[0] == Node(0, Serving, true, [1]);
    assert s'.buffers == BUSY.buffers && s'.nodes == BUSY.nodes && s'.logs == BUSY.logs;
  }

  lemma InitialReachable()
    ensures Reachable(INITIAL)
  {
    InitialInv();
    assert IsRun(INITIAL, []) && End(INITIAL, []) == INITIAL;
  }

  /** The stall does happen: the thread leaves, and the second transaction waits in vain though
      its process and the sender are alive and well. */
  lemma AThreadThatLeavesStallsTheQueue()
    ensures exists s :: Reachable(s) && NodeOpen(s, 0) && s.nodes[0].todo == [1] && Stalled(s, 0)
  {
    BusyIsReachable();
    hide Reachable;
    ReachableNext(BUSY, Exits(0));
    var s1 := BUSY.(threads := map[0 := Thread(0, false)]);
    assert Next(BUSY, Exits(0)) == s1;
    ReachableNext(s1, Loses(0));
    var s2 := s1.(buffers := s1.buffers[0 := Buffer(0, Lost)]);
    assert Next(s1, Loses(0)) == s2;
    assert Reachable(s2) && NodeOpen(s2, 0) && s2.nodes[0].todo == [1] && Stalled(s2, 0);
  }
}
