/** Runs of the one-way queues under any interleaving of senders, readers, frees, leaving
    threads and dying processes. */
module AsyncRuns {
  import opened Common
  import opened AsyncQueue
  import opened AsyncSteps
  import opened AsyncRelease

  datatype Step =
    | NewProc(proc: nat)
    | NewThread(thread: nat, proc: nat)
    | NewNode(node: nat, proc: nat)
    | Begins(node: nat)
    | Sends(buffer: nat, to: Todo)
    | Discards(buffer: nat)
    | Takes(buffer: nat, thread: nat)
    | Ends(buffer: nat, outcome: Phase)
    | Frees(buffer: nat)
    | Advances(buffer: nat)
    | Exits(thread: nat)
    | Loses(buffer: nat)
    | Forgets(thread: nat)
    | Closes(proc: nat)
    | Stages(node: nat, stage: Stage)
    | Drops(node: nat)
    | Settles(proc: nat)
    | ProcFreed(proc: nat)

  predicate IsOpen(s: State, p: nat) {
    p in s.procs && s.procs[p].Open?
  }

  predicate Enabled(s: State, step: Step)
    requires Inv(s)
  {
    match step
    case NewProc(p) => p !in s.procs
    case NewThread(t, p) => t !in s.threads && IsOpen(s, p)
    case NewNode(n, p) => n !in s.nodes && n !in s.logs && IsOpen(s, p)
    case Begins(n) => CanBegin(s, n)
    case Sends(b, to) => CanSend(s, b, to)
    case Discards(b) => CanDiscard(s, b)
    case Takes(b, t) => CanTake(s, b, t)
    case Ends(b, ph) => b in s.buffers && s.buffers[b].phase.Taken? && IsOutcome(ph)
    case Frees(b) => CanFree(s, b)
    case Advances(b) => CanAdvance(s, b)
    case Exits(t) => CanExit(s, t)
    case Loses(b) => CanLose(s, b)
    case Forgets(t) => CanForget(s, t)
    case Closes(p) => CanClose(s, p)
    case Stages(n, stage) => CanStage(s, n, stage)
    case Drops(n) => CanDrop(s, n)
    case Settles(p) => CanSettle(s, p)
    case ProcFreed(p) => CanFreeProc(s, p)
  }

  function Next(s: State, step: Step): State
    requires Inv(s) && Enabled(s, step)
  {
    hide Inv;
    match step
    case NewProc(p) => SetProc(s, p, Open)
    case NewThread(t, p) => s.(threads := s.threads[t := Thread(p, true)])
    case NewNode(n, p) => s.(nodes := s.nodes[n := Node(p, Serving, false, [])], logs := s.logs[n := Log([], [], None, [])])
    case Begins(n) => Begin(s, n)
    case Sends(b, to) => Send(s, b, to)
    case Discards(b) => Discard(s, b)
    case Takes(b, t) => Put(s, b, Taken(t))
    case Ends(b, ph) => Put(s, b, ph)
    case Frees(b) => Put(s, b, Freeing)
    case Advances(b) => Advance(s, b)
    case Exits(t) => Exit(s, t)
    case Loses(b) => Put(s, b, Lost)
    case Forgets(t) => Forget(s, t)
    case Closes(p) => SetProc(s, p, Closing)
    case Stages(n, stage) => SetStage(s, n, stage)
    case Drops(n) => DropHead(s, n)
    case Settles(p) => SetProc(s, p, Drained)
    case ProcFreed(p) => FreeProc(s, p)
  }

  lemma NewThingsKeepInv(s: State, step: Step)
    requires Inv(s) && Enabled(s, step) && (step.NewProc? || step.NewThread? || step.NewNode?)
    ensures Inv(Next(s, step))
  {
    var s' := Next(s, step);
    forall n | n in s'.nodes
      ensures NodeOk(s', n)
    {
      if n in s.nodes { InvNode(s, n); }
    }
    forall b | b in s'.buffers
      ensures BufferOk(s', b)
    {
      InvBuffer(s, b);
    }
    forall t | t in s'.threads
      ensures ThreadOk(s', t)
    {
      assert t in s.threads ==> ThreadOk(s, t);
    }
  }

  lemma StepKeepsInv(s: State, step: Step)
    requires Inv(s) && Enabled(s, step)
    ensures Inv(Next(s, step))
  {
    hide Inv;
    match step
    case NewProc(_) => NewThingsKeepInv(s, step);
    case NewThread(_, _) => NewThingsKeepInv(s, step);
    case NewNode(_, _) => NewThingsKeepInv(s, step);
    case Begins(n) => BeginKeepsInv(s, n);
    case Sends(b, to) => SendKeepsInv(s, b, to);
    case Discards(b) => DiscardKeepsInv(s, b);
    case Takes(b, t) => TakeKeepsInv(s, b, t);
    case Ends(b, ph) => OutcomeKeepsInv(s, b, ph);
    case Frees(b) => FreeKeepsInv(s, b);
    case Advances(b) => AdvanceKeepsInv(s, b);
    case Exits(t) => ExitKeepsInv(s, t);
    case Loses(b) => LoseKeepsInv(s, b);
    case Forgets(t) => ForgetKeepsInv(s, t);
    case Closes(p) => CloseKeepsInv(s, p);
    case Stages(n, stage) => SetStageKeepsInv(s, n, stage);
    case Drops(n) => DropHeadKeepsInv(s, n);
    case Settles(p) => SettleKeepsInv(s, p);
    case ProcFreed(p) => FreeProcKeepsInv(s, p);
  }

  const INITIAL: State := State(map[], map[], map[], map[], map[], 0)

  ghost predicate IsRun(s: State, steps: seq<Step>)
    requires Inv(s)
    decreases |steps|
  {
    hide Inv, Enabled, Next;
    steps == [] || (Enabled(s, steps[0]) && (StepKeepsInv(s, steps[0]); IsRun(Next(s, steps[0]), steps[1..])))
  }

  ghost function End(s: State, steps: seq<Step>): (s': State)
    requires Inv(s) && IsRun(s, steps)
    ensures Inv(s')
    decreases |steps|
  {
    hide Inv, Enabled, Next;
    if steps == [] then s
    else
      StepKeepsInv(s, steps[0]);
      End(Next(s, steps[0]), steps[1..])
  }

  lemma InitialInv()
    ensures Inv(INITIAL)
  {
  }

  ghost predicate Reachable(s: State) {
    InitialInv();
    exists steps :: IsRun(INITIAL, steps) && s == End(INITIAL, steps)
  }

  lemma ReachableInv(s: State)
    requires Reachable(s)
    ensures Inv(s)
  {
    hide Inv;
    InitialInv();
    var steps :| IsRun(INITIAL, steps) && s == End(INITIAL, steps);
  }

  lemma {:induction false} OneMoreStep(s: State, steps: seq<Step>, step: Step)
    requires Inv(s) && IsRun(s, steps) && Enabled(End(s, steps), step)
    ensures IsRun(s, steps + [step]) && End(s, steps + [step]) == Next(End(s, steps), step)
    decreases |steps|
  {
    hide Inv, Enabled, Next;
    var all := steps + [step];
    StepKeepsInv(End(s, steps), step);
    if steps == [] {
      assert all[1..] == [];
      assert all[0] == step;
      assert IsRun(Next(s, step), []) && End(Next(s, step), []) == Next(s, step);
    } else {
      assert all[0] == steps[0] && all[1..] == steps[1..] + [step];
      StepKeepsInv(s, steps[0]);
      OneMoreStep(Next(s, steps[0]), steps[1..], step);
    }
  }

  lemma ReachableNext(s: State, step: Step)
    requires Reachable(s) && Inv(s) && Enabled(s, step)
    ensures Reachable(Next(s, step)) && Inv(Next(s, step))
  {
    hide Inv, Enabled, Next;
    InitialInv();
    var steps :| IsRun(INITIAL, steps) && s == End(INITIAL, steps);
    OneMoreStep(INITIAL, steps, step);
    ReachableInv(Next(s, step));
  }

  // ---------- what holds in every reachable state ----------

  ghost predicate HoldsSlot(s: State, b: nat, n: nat) {
    b in s.buffers && s.buffers[b].node == n && s.buffers[b].phase.Outstanding()
  }

  /** At most one one-way buffer of a node is outstanding outside `async_todo`, and while the
      process lives, anything waiting has one before it: freeing it finds the flag set. */
  lemma OneAtATime(s: State, n: nat)
    requires Reachable(s) && n in s.nodes
    ensures forall b, c :: HoldsSlot(s, b, n) && HoldsSlot(s, c, n) ==> b == c
    ensures s.nodes[n].todo != [] ==>
              s.nodes[n].hasAsync && exists b :: HoldsSlot(s, b, n)
    ensures s.nodes[n].owner in s.procs
    ensures s.procs[s.nodes[n].owner].Open? && s.nodes[n].hasAsync ==> exists b :: HoldsSlot(s, b, n)
  {
    hide Reachable;
    ReachableInv(s);
    InvNode(s, n);
    forall b: nat | HoldsSlot(s, b, n)
      ensures s.logs[n].slot == Some(b)
    {
      InvBuffer(s, b);
    }
    if s.logs[n].slot.Some? && s.procs[s.nodes[n].owner] != Gone {
      assert HoldsSlot(s, s.logs[n].slot.value, n);
    }
  }

  /** Service is in send order and one at a time: when a transaction has become runnable, every
      transaction accepted for its node before it has been freed. */
  lemma ServedInOrder(s: State, n: nat, i: nat, j: nat)
    requires Reachable(s) && n in s.nodes && n in s.logs && i < j < |s.logs[n].sent|
    requires s.logs[n].sent[j] in Started(s.logs[n])
    ensures s.logs[n].sent[i] in s.logs[n].finished
  {
    hide Reachable;
    ReachableInv(s);
    InvNode(s, n);
    hide Inv, NodeOk;
    var log := s.logs[n];
    var k :| 0 <= k < |Started(log)| && Started(log)[k] == log.sent[j];
    assert log.sent[k] == Started(log)[k];
    assert k == j;
    assert log.sent[i] == log.finished[i];
  }

  /** Nothing is lost on the way: while the process lives, what a node has accepted is, in
      order, what has been freed, the one outstanding buffer, and what waits. */
  lemma AcceptedIsAccountedFor(s: State, n: nat)
    requires Reachable(s) && n in s.nodes && s.nodes[n].owner in s.procs && s.procs[s.nodes[n].owner].Open?
    ensures n in s.logs && s.logs[n].sent == s.logs[n].finished + SlotSeq(s.logs[n].slot) + s.nodes[n].todo
    ensures forall b :: b in s.nodes[n].todo <==> b in s.buffers && s.buffers[b] == Buffer(n, Waiting)
    ensures forall b: nat :: s.logs[n].slot == Some(b) <==> HoldsSlot(s, b, n)
  {
    hide Reachable;
    ReachableInv(s);
    InvNode(s, n);
    forall b | b in s.buffers && s.buffers[b].node == n
      ensures s.buffers[b].phase.Outstanding() ==> s.logs[n].slot == Some(b)
      ensures s.buffers[b].phase.Waiting? ==> b in s.nodes[n].todo
    {
      InvBuffer(s, b);
    }
  }

  // ---------- along a run ----------

  predicate Extends(s: State, s': State, n: nat) {
    && n in s'.nodes && n in s.logs && n in s'.logs
    && s.logs[n].sent <= s'.logs[n].sent && s.logs[n].finished <= s'.logs[n].finished
    && Started(s.logs[n]) <= Started(s'.logs[n])
  }

  lemma AdvanceExtends(s: State, b: nat, n: nat)
    requires Inv(s) && CanAdvance(s, b) && n in s.nodes
    ensures Extends(s, Advance(s, b), n)
  {
    InvNode(s, n);
    InvBuffer(s, b);
    hide Inv, LogOk, StageOk;
    if s.buffers[b].node == n {
      assert Started(s.logs[n]) == Advance(s, b).logs[n].finished;
    }
  }

  lemma SendExtends(s: State, b: nat, to: Todo, n: nat)
    requires Inv(s) && CanSend(s, b, to) && n in s.nodes
    ensures Extends(s, Send(s, b, to), n)
  {
    InvNode(s, n);
    InvBuffer(s, b);
    hide Inv, NoDup;
  }

  lemma DropExtends(s: State, m: nat, n: nat)
    requires Inv(s) && CanDrop(s, m) && n in s.nodes
    ensures Extends(s, DropHead(s, m), n)
  {
    InvNode(s, n);
    InvNode(s, m);
    hide Inv, LogOk, StageOk;
  }

  lemma OtherStepsKeepLogs(s: State, step: Step, n: nat)
    requires Inv(s) && Enabled(s, step) && n in s.nodes && n in s.logs
    requires !(step.Sends? || step.Advances? || step.Drops?)
    ensures n in Next(s, step).nodes && n in Next(s, step).logs && Next(s, step).logs[n] == s.logs[n]
  {
    hide Inv;
  }

  lemma StepExtends(s: State, step: Step, n: nat)
    requires Inv(s) && Enabled(s, step) && n in s.nodes
    ensures Extends(s, Next(s, step), n)
  {
    hide Inv, Send, Advance, DropHead, CanSend, CanAdvance, CanDrop, Extends;
    match step
    case Advances(b) => AdvanceExtends(s, b, n);
    case Sends(b, to) => SendExtends(s, b, to, n);
    case Drops(m) => DropExtends(s, m, n);
    case _ =>
      OtherStepsExtend(s, step, n);
  }

  lemma OtherStepsExtend(s: State, step: Step, n: nat)
    requires Inv(s) && Enabled(s, step) && n in s.nodes
    requires !(step.Sends? || step.Advances? || step.Drops?)
    ensures Extends(s, Next(s, step), n)
  {
    hide Inv, Next, Enabled;
    InvTables(s, n);
    OtherStepsKeepLogs(s, step, n);
  }

  /** Acceptance, service and freeing are never taken back or reordered. */
  lemma {:induction false} RunExtends(s: State, steps: seq<Step>, n: nat)
    requires Inv(s) && IsRun(s, steps) && n in s.nodes
    ensures Extends(s, End(s, steps), n)
    decreases |steps|
  {
    hide Inv, Enabled, Next;
    if steps == [] {
      InvNode(s, n);
    } else {
      StepKeepsInv(s, steps[0]);
      StepExtends(s, steps[0], n);
      RunExtends(Next(s, steps[0]), steps[1..], n);
    }
  }
}
