/** When a queue can still move.  A one-way transaction on the list of a thread that leaves is
    thrown away, but its buffer stays, user space never learns of it and so cannot free it: the
    node's queue stands still for the rest of the life of its process. */
module AsyncProgress {
  import opened Common
  import opened AsyncQueue
  import opened AsyncSteps
  import opened AsyncRelease
  import opened AsyncRuns

  predicate OnDeadList(s: State, ph: Phase) {
    ph.Runnable? && ph.list.ThreadTodo? && ph.list.thread in s.threads && !s.threads[ph.list.thread].alive
  }

  /** The outstanding buffer of the node lost its transaction, or is about to. */
  predicate Stalled(s: State, n: nat) {
    && n in s.logs && s.logs[n].slot.Some?
    && var b := s.logs[n].slot.value;
      b in s.buffers && (s.buffers[b].phase.Lost? || OnDeadList(s, s.buffers[b].phase))
  }

  predicate NodeOpen(s: State, n: nat) {
    n in s.nodes && IsOpen(s, s.nodes[n].owner)
  }

  /** The node a step works on, for the steps that work on the books of one. */
  function At(s: State, step: Step): nat
    requires Inv(s) && Enabled(s, step) && (step.Sends? || step.Advances? || step.Drops?)
  {
    match step
    case Sends(b, _) => s.buffers[b].node
    case Advances(b) => s.buffers[b].node
    case Drops(m) => m
  }

  lemma BooksElsewhere(s: State, step: Step)
    requires Inv(s) && Enabled(s, step) && (step.Sends? || step.Advances? || step.Drops?)
    ensures SameElsewhere(s, Next(s, step), At(s, step))
  {
    hide Inv, SameElsewhere, Send, Advance, DropHead;
    match step
    case Sends(b, to) => SendElsewhere(s, b, to);
    case Advances(b) => AdvanceElsewhere(s, b);
    case Drops(m) => DropElsewhere(s, m);
  }

  predicate MovesBuffer(step: Step) {
    step.Takes? || step.Ends? || step.Frees? || step.Loses?
  }

  lemma BufferStepKeepsNodes(s: State, step: Step)
    requires Inv(s) && Enabled(s, step) && MovesBuffer(step)
    ensures Next(s, step).nodes == s.nodes && Next(s, step).procs == s.procs
  {
    hide Inv, Enabled;
  }

  lemma OtherStepKeepsOwner(s: State, step: Step, n: nat)
    requires Inv(s) && Enabled(s, step) && n in s.nodes && s.nodes[n].owner in s.procs
    requires !(step.Sends? || step.Advances? || step.Drops?) && !MovesBuffer(step)
    ensures n in Next(s, step).nodes && Next(s, step).nodes[n].owner == s.nodes[n].owner
    ensures NodeOpen(Next(s, step), n) ==> NodeOpen(s, n)
  {
    hide Inv, Put, Send, Advance, DropHead;
  }

  lemma StepKeepsOwners(s: State, step: Step, n: nat)
    requires Inv(s) && Enabled(s, step) && n in s.nodes
    ensures n in Next(s, step).nodes && Next(s, step).nodes[n].owner == s.nodes[n].owner
    ensures NodeOpen(Next(s, step), n) ==> NodeOpen(s, n)
  {
    InvTables(s, n);
    hide Inv, Next, Enabled;
    if step.Sends? || step.Advances? || step.Drops? {
      BooksElsewhere(s, step);
    } else if MovesBuffer(step) {
      BufferStepKeepsNodes(s, step);
    } else {
      OtherStepKeepsOwner(s, step, n);
    }
  }

  /** The sections that move a queue cannot do so at a stalled node. */
  lemma StalledBufferStays(s: State, step: Step, n: nat)
    requires Inv(s) && Enabled(s, step) && Stalled(s, n) && NodeOpen(s, n)
    requires (step.Sends? || step.Advances? || step.Drops?) && At(s, step) == n
    ensures Stalled(Next(s, step), n) && Started(Next(s, step).logs[n]) == Started(s.logs[n])
  {
    InvNode(s, n);
    match step
    case Sends(b, _) =>
      InvBuffer(s, b);
      hide Inv, LogOk;
    case Advances(b) =>
      InvBuffer(s, b);
      assert false;
    case Drops(_) =>
      assert false;
  }

  lemma SlotBuffer(s: State, n: nat)
    requires Inv(s) && n in s.nodes && n in s.logs && NodeOpen(s, n) && s.logs[n].slot.Some?
    ensures var b := s.logs[n].slot.value;
            b in s.buffers && s.buffers[b].node == n && s.buffers[b].phase.Outstanding() && b < s.nextId
  {
    InvNode(s, n);
    InvBuffer(s, s.logs[n].slot.value);
  }

  lemma StallSeenElsewhere(s: State, s': State, m: nat, n: nat)
    requires Inv(s) && SameElsewhere(s, s', m) && m != n && Stalled(s, n) && NodeOpen(s, n)
    ensures Stalled(s', n) && s'.logs[n] == s.logs[n]
  {
    SlotBuffer(s, n);
    hide Inv;
  }

  lemma PutLeavesBooks(s: State, b: nat, ph: Phase, n: nat)
    requires Stalled(s, n) && b in s.buffers && (s.logs[n].slot == Some(b) ==> ph.Lost?)
    ensures Stalled(Put(s, b, ph), n) && Put(s, b, ph).logs[n] == s.logs[n]
  {
  }

  lemma StalledIsIdle(s: State, step: Step, n: nat)
    requires Inv(s) && Enabled(s, step) && Stalled(s, n) && MovesBuffer(step)
    ensures step.buffer in s.buffers && (s.logs[n].slot == Some(step.buffer) ==> step.Loses?)
  {
    hide Inv;
  }

  lemma BufferStepsLeaveBooks(s: State, step: Step, n: nat)
    requires Inv(s) && Enabled(s, step) && Stalled(s, n) && MovesBuffer(step)
    ensures Stalled(Next(s, step), n) && Next(s, step).logs[n] == s.logs[n]
  {
    StalledIsIdle(s, step, n);
    hide Inv, Put, Enabled, Stalled, Send, Advance, DropHead, FreeProc, SetProc, SetStage, Forget, Begin, Discard, Exit;
    match step
    case Takes(b, t) => PutLeavesBooks(s, b, Taken(t), n);
    case Ends(b, ph) => PutLeavesBooks(s, b, ph, n);
    case Frees(b) => PutLeavesBooks(s, b, Freeing, n);
    case Loses(b) => PutLeavesBooks(s, b, Lost, n);
  }

  /** Threads come and go, the ones that have left do not come back. */
  lemma ThreadStepsLeaveBooks(s: State, step: Step, n: nat)
    requires Inv(s) && Enabled(s, step) && Stalled(s, n) && (step.NewThread? || step.Exits? || step.Forgets?)
    ensures Stalled(Next(s, step), n) && Next(s, step).logs[n] == s.logs[n]
  {
    hide Inv, Put, Send, Advance, DropHead, FreeProc, SetProc, SetStage, Begin, Discard;
  }

  /** Requests that have not been sent come and go. */
  lemma RequestsLeaveBooks(s: State, step: Step, n: nat)
    requires Inv(s) && Enabled(s, step) && Stalled(s, n) && n in s.nodes && NodeOpen(s, n) && (step.Begins? || step.Discards?)
    ensures Stalled(Next(s, step), n) && Next(s, step).logs[n] == s.logs[n]
  {
    SlotBuffer(s, n);
    hide Inv, Put, Send, Advance, DropHead, FreeProc, SetProc, SetStage, Forget, Exit, NodeOpen;
  }

  lemma OtherStepsLeaveBooks(s: State, step: Step, n: nat)
    requires Inv(s) && Enabled(s, step) && Stalled(s, n) && n in s.nodes && NodeOpen(s, n)
    requires step.NewProc? || step.NewNode? || step.Closes? || step.Stages? || step.Settles?
    ensures Stalled(Next(s, step), n) && Next(s, step).logs[n] == s.logs[n]
  {
    hide Inv, Put, Send, Advance, DropHead, FreeProc, Forget, Exit, Begin, Discard, NodeOpen;
  }

  lemma FreedProcLeavesBooks(s: State, step: Step, n: nat)
    requires Inv(s) && Enabled(s, step) && step.ProcFreed? && Stalled(s, n) && n in s.nodes && NodeOpen(s, n)
    ensures Stalled(Next(s, step), n) && Next(s, step).logs[n] == s.logs[n]
  {
    SlotBuffer(s, n);
    hide Inv;
  }

  lemma StallStaysOneStep(s: State, step: Step, n: nat)
    requires Inv(s) && Enabled(s, step) && Stalled(s, n) && n in s.nodes && NodeOpen(Next(s, step), n)
    ensures Stalled(Next(s, step), n) && Started(Next(s, step).logs[n]) == Started(s.logs[n])
  {
    hide Inv, Next, Enabled, NodeOpen, Stalled;
    StepKeepsOwners(s, step, n);
    if step.Sends? || step.Advances? || step.Drops? {
      if At(s, step) == n {
        StalledBufferStays(s, step, n);
      } else {
        BooksElsewhere(s, step);
        StallSeenElsewhere(s, Next(s, step), At(s, step), n);
      }
    } else if step.ProcFreed? {
      FreedProcLeavesBooks(s, step, n);
    } else if MovesBuffer(step) {
      BufferStepsLeaveBooks(s, step, n);
    } else if step.NewThread? || step.Exits? || step.Forgets? {
      ThreadStepsLeaveBooks(s, step, n);
    } else if step.Begins? || step.Discards? {
      RequestsLeaveBooks(s, step, n);
    } else {
      OtherStepsLeaveBooks(s, step, n);
    }
  }

  /** A stalled queue stays stalled until its process dies: nothing more ever becomes runnable. */
  lemma {:induction false} StallStays(s: State, steps: seq<Step>, n: nat)
    requires Inv(s) && IsRun(s, steps) && Stalled(s, n) && n in s.nodes && NodeOpen(End(s, steps), n)
    ensures Stalled(End(s, steps), n) && Started(End(s, steps).logs[n]) == Started(s.logs[n])
    ensures NodeOpen(s, n)
    decreases |steps|
  {
    hide Inv, Enabled, Next, Stalled, NodeOpen;
    if steps != [] {
      StepKeepsInv(s, steps[0]);
      StepKeepsOwners(s, steps[0], n);
      var s' := Next(s, steps[0]);
      StayedOpen(s', steps[1..], n);
      StallStaysOneStep(s, steps[0], n);
      StallStays(s', steps[1..], n);
    }
  }

  lemma {:induction false} StayedOpen(s: State, steps: seq<Step>, n: nat)
    requires Inv(s) && IsRun(s, steps) && n in s.nodes && NodeOpen(End(s, steps), n)
    ensures NodeOpen(s, n)
    decreases |steps|
  {
    hide Inv, Enabled, Next, NodeOpen;
    if steps != [] {
      StepKeepsInv(s, steps[0]);
      StepKeepsOwners(s, steps[0], n);
      StayedOpen(Next(s, steps[0]), steps[1..], n);
    }
  }

  /** How many steps of reader and user an outstanding buffer is away from being freed. */
  function Rank(ph: Phase): nat {
    match ph
    case Freeing => 1
    case Delivered => 2
    case Taken(_) => 3
    case _ => 4
  }

  ghost predicate Runs(s: State, n: nat, w: nat, steps: seq<Step>)
    requires Inv(s)
  {
    && IsRun(s, steps)
    && NodeOpen(End(s, steps), n) && n in End(s, steps).logs && w in Started(End(s, steps).logs[n])
  }

  lemma RunsAfter(s: State, step: Step, n: nat, w: nat, rest: seq<Step>)
    requires Inv(s) && Enabled(s, step) && Inv(Next(s, step)) && Runs(Next(s, step), n, w, rest)
    ensures Runs(s, n, w, [step] + rest)
  {
    hide Inv, Enabled, Next, NodeOpen;
    var steps := [step] + rest;
    assert steps[0] == step && steps[1..] == rest;
    StepKeepsInv(s, step);
  }

  /** The node waits on buffer `b`, which is in phase `ph`. */
  predicate Waits(s: State, n: nat, b: nat, ph: Phase) {
    && NodeOpen(s, n) && n in s.logs && s.logs[n].slot == Some(b) && b in s.buffers
    && s.buffers[b] == Buffer(n, ph) && ph.Outstanding()
    && s.nodes[n].todo != []
  }

  lemma NextIsRunnable(s: State, n: nat, b: nat)
    requires Inv(s) && Waits(s, n, b, Freeing)
    ensures var s' := Advance(s, b);
            NodeOpen(s', n) && n in s'.logs && s.nodes[n].todo[0] in Started(s'.logs[n])
  {
    InvNode(s, n);
    InvBuffer(s, b);
    hide Inv, LogOk, StageOk, PhaseOk;
    var log := Advance(s, b).logs[n];
    assert Started(log)[|log.finished|] == s.nodes[n].todo[0];
  }

  lemma LastStep(s: State, n: nat, b: nat) returns (steps: seq<Step>)
    requires Inv(s) && Waits(s, n, b, Freeing)
    ensures Runs(s, n, s.nodes[n].todo[0], steps)
  {
    var step := Advances(b);
    var w := s.nodes[n].todo[0];
    StepKeepsInv(s, step);
    NextIsRunnable(s, n, b);
    hide Inv, LogOk, Advance;
    var s' := Next(s, step);
    assert s' == Advance(s, b);
    assert IsRun(s', []) && End(s', []) == s';
    RunsAfter(s, step, n, w, []);
    steps := [step] + [];
  }

  lemma HeldStep(s: State, n: nat, b: nat, ph: Phase)
    requires Inv(s) && Waits(s, n, b, ph) && (ph.Delivered? || ph.Taken?)
    ensures var step := if ph.Delivered? then Frees(b) else Ends(b, Delivered);
            var next := if ph.Delivered? then Freeing else Delivered;
            Enabled(s, step) && Inv(Next(s, step)) && Waits(Next(s, step), n, b, next)
            && Next(s, step).nodes == s.nodes && n in s.nodes && s.nodes[n].todo != []
  {
    StepKeepsInv(s, if ph.Delivered? then Frees(b) else Ends(b, Delivered));
    hide Inv;
  }

  /** A buffer in the hands of the reader or of user space can be brought to its end. */
  lemma {:induction false} HeldMoves(s: State, n: nat, b: nat, ph: Phase) returns (steps: seq<Step>)
    requires Inv(s) && Waits(s, n, b, ph) && (ph.Freeing? || ph.Delivered? || ph.Taken?)
    ensures Runs(s, n, s.nodes[n].todo[0], steps)
    decreases Rank(ph)
  {
    if ph.Freeing? {
      steps := LastStep(s, n, b);
    } else {
      var step := if ph.Delivered? then Frees(b) else Ends(b, Delivered);
      var next := if ph.Delivered? then Freeing else Delivered;
      HeldStep(s, n, b, ph);
      hide Inv, Runs, Next, Enabled, Waits;
      var rest := HeldMoves(Next(s, step), n, b, next);
      RunsAfter(s, step, n, s.nodes[n].todo[0], rest);
      steps := [step] + rest;
    }
  }

  lemma TakenMoves(s: State, n: nat, b: nat, ph: Phase, t: nat) returns (steps: seq<Step>)
    requires Inv(s) && Waits(s, n, b, ph) && ph.Runnable? && CanTake(s, b, t)
    ensures Runs(s, n, s.nodes[n].todo[0], steps)
  {
    var step := Takes(b, t);
    StepKeepsInv(s, step);
    hide Inv;
    var rest := HeldMoves(Next(s, step), n, b, Taken(t));
    RunsAfter(s, step, n, s.nodes[n].todo[0], rest);
    steps := [step] + rest;
  }

  lemma UnusedThread(s: State) returns (t: nat)
    ensures t !in s.threads
  {
    t := SomethingAbove(s.threads.Keys);
  }

  lemma {:induction false} SomethingAbove(q: set<nat>) returns (t: nat)
    ensures forall x :: x in q ==> x < t
    decreases |q|
  {
    if q == {} {
      t := 0;
    } else {
      var x :| x in q;
      var rest := SomethingAbove(q - {x});
      t := if rest <= x then x + 1 else rest;
      assert forall y :: y in q ==> y == x || y in q - {x};
    }
  }

  /** A queue that is not stalled can move: some run frees the outstanding buffer and makes the
      head of the queue runnable, with the process alive throughout. */
  lemma QueueMoves(s: State, n: nat) returns (steps: seq<Step>)
    requires Inv(s) && NodeOpen(s, n) && s.nodes[n].todo != [] && !Stalled(s, n)
    ensures Runs(s, n, s.nodes[n].todo[0], steps)
  {
    InvNode(s, n);
    var b := s.logs[n].slot.value;
    InvBuffer(s, b);
    hide Inv, LogOk;
    var ph := s.buffers[b].phase;
    match ph
    case Runnable(ThreadTodo(t)) =>
      steps := TakenMoves(s, n, b, ph, t);
    case Runnable(ProcTodo(p)) =>
      var t := UnusedThread(s);
      var step := NewThread(t, p);
      StepKeepsInv(s, step);
      var rest := TakenMoves(Next(s, step), n, b, ph, t);
      RunsAfter(s, step, n, s.nodes[n].todo[0], rest);
      steps := [step] + rest;
    case _ =>
      steps := HeldMoves(s, n, b, ph);
  }

  /** Exactly when the next waiting transaction of a live node can still be delivered. */
  lemma MovesUnlessStalled(s: State, n: nat)
    requires Reachable(s) && NodeOpen(s, n) && s.nodes[n].todo != []
    ensures Inv(s)
    ensures (exists steps :: Runs(s, n, s.nodes[n].todo[0], steps)) <==> !Stalled(s, n)
  {
    hide Reachable;
    ReachableInv(s);
    if Stalled(s, n) {
      NotYetStarted(s, n);
      hide Inv, Stalled, NodeOpen;
      forall steps | IsRun(s, steps) && NodeOpen(End(s, steps), n)
        ensures !Runs(s, n, s.nodes[n].todo[0], steps)
      {
        StallStays(s, steps, n);
      }
    } else {
      hide Inv, Stalled, NodeOpen;
      var steps := QueueMoves(s, n);
    }
  }

  lemma NotYetStarted(s: State, n: nat)
    requires Inv(s) && n in s.nodes && s.nodes[n].todo != []
    ensures n in s.logs && s.nodes[n].todo[0] !in Started(s.logs[n])
  {
    InvNode(s, n);
    hide NoDup;
    var log := s.logs[n];
    assert log.sent == (Started(log) + log.dropped) + s.nodes[n].todo;
    DistinctParts(Started(log) + log.dropped, s.nodes[n].todo);
    assert forall x :: x in Started(log) ==> x in Started(log) + log.dropped;
  }
}
