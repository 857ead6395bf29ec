/** Runs: any interleaving of the sections, over any number of threads and processes. */
module CallRuns {
  import opened Common
  import opened CallGraph
  import opened CallFrames
  import opened CallFailing
  import opened CallReading
  import opened CallReplies
  import opened CallSending
  import opened CallQueueing
  import opened CallRelease

  datatype Step =
    | ProcStep(proc: nat, event: ProcEvent)
    | ThreadStarts(thread: nat, proc: nat)
    | Quiet(thread: nat, phase: Phase, todo: seq<Work>)
    | ReadOwn(thread: nat)
    | ReadProc(thread: nat)
    | DeliveryFails(thread: nat)
    | Deliver(thread: nat)
    | StartCall(thread: nat, toProc: nat)
    | CallFails(thread: nat)
    | PushCall(thread: nat)
    | QueueToThread(thread: nat, to: nat)
    | QueueToProc(thread: nat)
    | QueueRefused(thread: nat)
    | StartReply(thread: nat)
    | ReplyFails(thread: nat)
    | SendReply(thread: nat)
    | FailNext(txn: nat)
    | ErrorTold(thread: nat)
    | ThreadDies(thread: nat)
    | DropThreadCall(thread: nat)
    | DropProcCall(proc: nat)

  ghost predicate Enabled(g: State, step: Step) {
    match step
    case ProcStep(p, event) => CanChangeProc(g, p, event)
    case ThreadStarts(r, p) => r !in g.threads && p in g.procs
    case Quiet(r, phase, todo) => r in g.threads && QuietChange(g.threads[r], phase, todo)
    case ReadOwn(r) => CanTakeOwn(g, r)
    case ReadProc(r) => CanTakeProc(g, r)
    case DeliveryFails(r) => IsDelivering(g, r)
    case Deliver(r) => IsDelivering(g, r)
    case StartCall(r, toProc) => CanSend(g, r, toProc)
    case CallFails(r) => IsSending(g, r)
    case PushCall(r) => IsSending(g, r)
    case QueueToThread(r, s) => IsSent(g, r) && !Refuses(g, r) && IsDestination(g, r, s)
    case QueueToProc(r) => IsSent(g, r) && !Refuses(g, r) && g.threads[r].phase.target.None?
                           && forall s :: !CanPick(g, g.txns[g.threads[r].phase.id].toProc, s)
    case QueueRefused(r) => IsSent(g, r) && Refuses(g, r)
    case StartReply(r) => CanReply(g, r)
    case ReplyFails(r) => IsReplying(g, r)
    case SendReply(r) => IsReplying(g, r)
    case FailNext(t) => t in g.txns && g.txns[t].holder.Failing?
    case ErrorTold(r) => CanTell(g, r)
    case ThreadDies(r) => IsIdle(g, r)
    case DropThreadCall(r) => CanDrainThread(g, r)
    case DropProcCall(p) => CanDrainProc(g, p)
  }

  ghost function Next(g: State, step: Step): State
    requires Inv(g) && Enabled(g, step)
  {
    hide Inv;
    match step
    case ProcStep(p, event) => ChangeProc(g, p, event)
    case ThreadStarts(r, p) => NewThread(g, r, p)
    case Quiet(r, phase, todo) => LocalStep(g, r, phase, todo)
    case ReadOwn(r) => TakeOwn(g, r)
    case ReadProc(r) => TakeProc(g, r)
    case DeliveryFails(r) => Refuse(g, r)
    case Deliver(r) => Accept(g, r)
    case StartCall(r, toProc) => BeginSend(g, r, toProc)
    case CallFails(r) => AbortSend(g, r)
    case PushCall(r) => Push(g, r)
    case QueueToThread(r, s) => SubmitToThread(g, r, s)
    case QueueToProc(r) => SubmitToProc(g, r)
    case QueueRefused(r) => SubmitRefused(g, r)
    case StartReply(r) => BeginReply(g, r)
    case ReplyFails(r) => DropReply(g, r)
    case SendReply(r) => FinishReply(g, r)
    case FailNext(t) => FailOne(g, t)
    case ErrorTold(r) => TellError(g, r)
    case ThreadDies(r) => Release(g, r)
    case DropThreadCall(r) => DrainThread(g, r)
    case DropProcCall(p) => DrainProc(g, p)
  }

  /** Every section keeps the stacks well formed. */
  lemma StepKeepsInv(g: State, step: Step)
    requires Inv(g) && Enabled(g, step)
    ensures Inv(Next(g, step))
  {
    hide Inv;
    match step
    case ProcStep(p, event) => ChangeProcKeepsInv(g, p, event);
    case ThreadStarts(r, p) => NewThreadKeepsInv(g, r, p);
    case Quiet(r, phase, todo) => LocalStepKeepsInv(g, r, phase, todo);
    case ReadOwn(r) => TakeOwnKeepsInv(g, r);
    case ReadProc(r) => TakeProcKeepsInv(g, r);
    case DeliveryFails(r) => RefuseKeepsInv(g, r);
    case Deliver(r) => AcceptKeepsInv(g, r);
    case StartCall(r, toProc) => BeginSendKeepsInv(g, r, toProc);
    case CallFails(r) => AbortSendKeepsInv(g, r);
    case PushCall(r) => PushKeepsInv(g, r);
    case QueueToThread(r, s) => SubmitToThreadKeepsInv(g, r, s);
    case QueueToProc(r) => SubmitToProcKeepsInv(g, r);
    case QueueRefused(r) => SubmitRefusedKeepsInv(g, r);
    case StartReply(r) => BeginReplyKeepsInv(g, r);
    case ReplyFails(r) => DropReplyKeepsInv(g, r);
    case SendReply(r) => FinishReplyKeepsInv(g, r);
    case FailNext(t) => FailKeepsInv(g, t);
    case ErrorTold(r) => TellErrorKeepsInv(g, r);
    case ThreadDies(r) => ReleaseKeepsInv(g, r);
    case DropThreadCall(r) => DrainThreadKeepsInv(g, r);
    case DropProcCall(p) => DrainProcKeepsInv(g, p);
  }

  const INITIAL: State := State(map[], map[], map[], 0, map[], {})

  lemma InitialInv()
    ensures Inv(INITIAL)
  {
  }

  ghost predicate IsRun(g: State, steps: seq<Step>)
    requires Inv(g)
    decreases |steps|
  {
    hide Inv, Enabled;
    steps == [] || (Enabled(g, steps[0]) && (StepKeepsInv(g, steps[0]); IsRun(Next(g, steps[0]), steps[1..])))
  }

  ghost function End(g: State, steps: seq<Step>): (g': State)
    requires Inv(g) && IsRun(g, steps)
    ensures Inv(g')
    decreases |steps|
  {
    hide Inv, Enabled;
    if steps == [] then g
    else
      StepKeepsInv(g, steps[0]);
      End(Next(g, steps[0]), steps[1..])
  }

  // ---------- every call leaves its sender's stack once and is freed once ----------

  ghost predicate HistoryGrows(g: State, g': State) {
    && (forall t :: t in g.left ==> t in g'.left && g'.left[t] == g.left[t])
    && g.freed <= g'.freed
  }

  lemma PopGrows(g: State, s: nat, t: nat, how: Outcome, notice: seq<Work>)
    requires Inv(g) && t in g.txns && g.txns[t].from == Some(s) && g.txns[t].holder.Failing?
    ensures HistoryGrows(g, PopAndFree(g, s, t, how, notice))
  {
    InvTables(g);
  }

  lemma PushGrows(g: State, r: nat)
    requires Inv(g) && IsSending(g, r)
    ensures HistoryGrows(g, Push(g, r))
  {
    PushedHere(g, r);
  }

  lemma ReleaseGrows(g: State, r: nat)
    requires Inv(g) && IsIdle(g, r)
    ensures HistoryGrows(g, Release(g, r))
  {
    InvTables(g);
  }

  /** The steps that only read, check or move work around. */
  predicate IsMinor(step: Step) {
    step.ProcStep? || step.ThreadStarts? || step.Quiet? || step.ReadOwn? || step.ReadProc? || step.DeliveryFails? ||
    step.StartCall? || step.CallFails? || step.ErrorTold?
  }

  lemma MinorStep(g: State, step: Step)
    requires Inv(g) && Enabled(g, step) && IsMinor(step)
    ensures var g' := Next(g, step);
            && g'.left == g.left && g'.freed == g.freed
            && forall r :: r in g.threads ==>
                r in g'.threads && g'.threads[r].chain == g.threads[r].chain && g'.threads[r].dead == g.threads[r].dead
  {
    hide Inv, FindTarget;
  }

  lemma StepGrows(g: State, step: Step)
    requires Inv(g) && Enabled(g, step)
    ensures HistoryGrows(g, Next(g, step))
  {
    hide Inv, Push, Release, PopAndFree, FindTarget;
    if IsMinor(step) {
      MinorStep(g, step);
      return;
    }
    match step
    case PushCall(r) => PushGrows(g, r);
    case QueueRefused(r) =>
      SentHere(g, r);
      WithdrawKeepsInv(g, r);
      PopGrows(Withdraw(g, r), r, g.threads[r].phase.id, Refused, []);
    case SendReply(r) =>
      RepliedHere(g, r);
      DropReplyKeepsInv(g, r);
      if !g.threads[g.threads[r].phase.caller].dead {
        PopGrows(DropReply(g, r), g.threads[r].phase.caller, g.threads[r].phase.id, Replied, [Reply(g.threads[r].phase.id)]);
      }
    case FailNext(t) =>
      if g.txns[t].from.Some? {
        SenderWaits(g, t, g.txns[t].from.value);
        PopGrows(g, g.txns[t].from.value, t, Failed, []);
      }
    case ThreadDies(r) => ReleaseGrows(g, r);
    case _ =>
  }

  lemma {:induction false} RunGrows(g: State, steps: seq<Step>)
    requires Inv(g) && IsRun(g, steps)
    ensures HistoryGrows(g, End(g, steps))
    decreases |steps|
  {
    hide Inv, Enabled;
    if steps != [] {
      StepKeepsInv(g, steps[0]);
      StepGrows(g, steps[0]);
      RunGrows(Next(g, steps[0]), steps[1..]);
    }
  }

  ghost predicate Reachable(g: State) {
    InitialInv();
    exists steps :: IsRun(INITIAL, steps) && g == End(INITIAL, steps)
  }

  lemma ReachableInv(g: State)
    requires Reachable(g)
    ensures Inv(g)
  {
    hide Inv;
    InitialInv();
    var steps :| IsRun(INITIAL, steps) && g == End(INITIAL, steps);
  }

  lemma {:induction false} OneMoreStep(g: State, steps: seq<Step>, step: Step)
    requires Inv(g) && IsRun(g, steps) && Enabled(End(g, steps), step)
    ensures IsRun(g, steps + [step]) && End(g, steps + [step]) == Next(End(g, steps), step)
    decreases |steps|
  {
    hide Inv, Enabled, Next;
    var all := steps + [step];
    StepKeepsInv(End(g, steps), step);
    if steps == [] {
      assert all[1..] == [];
      assert all[0] == step;
      assert IsRun(Next(g, step), []) && End(Next(g, step), []) == Next(g, step);
    } else {
      assert all[0] == steps[0] && all[1..] == steps[1..] + [step];
      StepKeepsInv(g, steps[0]);
      OneMoreStep(Next(g, steps[0]), steps[1..], step);
    }
  }

  lemma ReachableNext(g: State, step: Step)
    requires Reachable(g) && Inv(g) && Enabled(g, step)
    ensures Reachable(Next(g, step)) && Inv(Next(g, step))
  {
    hide Inv, Enabled, Next;
    InitialInv();
    var steps :| IsRun(INITIAL, steps) && g == End(INITIAL, steps);
    OneMoreStep(INITIAL, steps, step);
    ReachableInv(Next(g, step));
  }

  /** In every reachable state: what is on a stack is alive and linked to that thread, no two
      calls are nested in the same call, and the stack pointer is the top. */
  lemma StacksWellFormed(g: State)
    requires Reachable(g)
    ensures forall r, link :: r in g.threads && link in g.threads[r].chain ==>
              && link.id in g.txns
              && (link.In? ==> g.txns[link.id].toThread == Some(r))
              && (link.Out? ==> g.txns[link.id].from == Some(r))
    ensures forall r :: r in g.threads && !g.threads[r].dead ==> g.threads[r].stack == Top(g.threads[r].chain)
    ensures forall c, d :: c in g.txns && d in g.txns && g.txns[c].fromParent.Some? && g.txns[c].fromParent == g.txns[d].fromParent ==> c == d
  {
    hide Inv, Reachable;
    ReachableInv(g);
    InvTables(g);
    forall r, link | r in g.threads && link in g.threads[r].chain
      ensures link.id in g.txns
      ensures link.In? ==> g.txns[link.id].toThread == Some(r)
      ensures link.Out? ==> g.txns[link.id].from == Some(r)
    {
      InvThread(g, r);
      LinkFacts(g.txns, r, g.threads[r].chain, link);
    }
    forall r | r in g.threads && !g.threads[r].dead
      ensures g.threads[r].stack == Top(g.threads[r].chain)
    {
      InvThread(g, r);
    }
  }

  lemma {:induction false} LinkFacts(txns: map<nat, Txn>, r: nat, chain: seq<Link>, link: Link)
    requires ChainOk(txns, r, chain) && link in chain
    ensures link.id in txns
    ensures link.In? ==> txns[link.id].toThread == Some(r)
    ensures link.Out? ==> txns[link.id].from == Some(r)
  {
    assert LinkOk(txns, r, chain[0], chain[1..]);
    if link != chain[0] {
      LinkFacts(txns, r, chain[1..], link);
    }
  }

  /** A call that has left its sender's stack never gets back on a stack as an outgoing call,
      and how it left never changes; a freed call is on no stack and no list. */
  lemma LeavesOnce(g: State, steps: seq<Step>, t: nat)
    requires Inv(g) && IsRun(g, steps) && t in g.left
    ensures var g' := End(g, steps);
            && t in g'.left && g'.left[t] == g.left[t]
            && (forall r :: r in g'.threads ==> Out(t) !in g'.threads[r].chain)
            && (t in g.freed ==> t in g'.freed && t !in g'.txns)
  {
    hide Inv, ThreadOk;
    var g' := End(g, steps);
    RunGrows(g, steps);
    InvTables(g');
    forall r | r in g'.threads
      ensures Out(t) !in g'.threads[r].chain
    {
      if Out(t) in g'.threads[r].chain {
        OutIsOwn(g', r, t);
      }
    }
  }

  lemma OutIsOwn(g: State, r: nat, t: nat)
    requires Inv(g) && r in g.threads && Out(t) in g.threads[r].chain
    ensures t in g.txns && g.txns[t].from == Some(r)
  {
    assert ThreadOk(g, r);
    LinkFacts(g.txns, r, g.threads[r].chain, Out(t));
  }

  /** Every live call is on its sender's stack or has left it, never both, and exactly one
      place is responsible for it. */
  lemma Accounted(g: State, t: nat)
    requires Inv(g) && t in g.txns
    ensures t !in g.freed
    ensures t !in g.left <==> exists s :: s in g.threads && Out(t) in g.threads[s].chain
    ensures match g.txns[t].holder
            case Sender(r) => r in g.threads && g.threads[r].phase.Sent? && g.threads[r].phase.id == t
            case ThreadTodo(r) => r in g.threads && Call(t) in g.threads[r].todo
            case ProcTodo(p) => p in g.procs && Call(t) in g.procs[p].todo
            case Delivery(r) => r in g.threads && g.threads[r].phase.Delivering? && g.threads[r].phase.id == t
            case Receiver(r) => r in g.threads && In(t) in g.threads[r].chain
            case Answer(r) => r in g.threads && g.threads[r].phase.Replying? && g.threads[r].phase.id == t
            case Failing => true
            case Orphan => exists c :: c in g.txns && g.txns[c].fromParent == Some(t)
  {
    hide Inv;
    InvTables(g);
    InvTxn(g, t);
    if t in g.left {
      forall s | s in g.threads
        ensures Out(t) !in g.threads[s].chain
      {
        if Out(t) in g.threads[s].chain {
          OutIsOwn(g, s, t);
        }
      }
    }
  }

  /** Once every thread is dead, every list drained and nothing is left to be failed, no
      transaction is left over. */
  lemma NothingLeaks(g: State)
    requires Inv(g)
    requires forall r :: r in g.threads ==> g.threads[r].dead && NoCall(g.threads[r].todo)
    requires forall p :: p in g.procs ==> NoCall(g.procs[p].todo)
    requires forall t :: t in g.txns ==> !g.txns[t].holder.Failing?
    ensures g.txns == map[]
  {
    hide Inv;
    if t :| t in g.txns {
      OnlyOrphans(g, t);
    }
  }

  /** An orphan's nested call would be a younger orphan, and so on. */
  lemma {:induction false} OnlyOrphans(g: State, t: nat)
    requires Inv(g) && t in g.txns
    requires forall r :: r in g.threads ==> g.threads[r].dead && NoCall(g.threads[r].todo)
    requires forall p :: p in g.procs ==> NoCall(g.procs[p].todo)
    requires forall u :: u in g.txns ==> !g.txns[u].holder.Failing?
    ensures false
    decreases g.nextId - t
  {
    hide Inv;
    InvTxn(g, t);
    IdBounded(g, t);
    forall r | r in g.threads
      ensures g.threads[r].phase == Idle && g.threads[r].chain == []
    {
      DeadIsIdle(g, r);
    }
    var c :| c in g.txns && g.txns[c].fromParent == Some(t);
    InvTxn(g, c);
    OnlyOrphans(g, c);
  }

  // ---------- a call returns to where it was made ----------

  ghost predicate HasBase(chain: seq<Link>, base: seq<Link>) {
    |base| <= |chain| && chain[|chain| - |base|..] == base
  }

  /** What one step can do to one stack. */
  ghost predicate StackStep(g: State, g': State, r: nat)
    requires r in g.threads
  {
    && r in g'.threads
    && (g.threads[r].dead ==> g'.threads[r].dead)
    && var c, c' := g.threads[r].chain, g'.threads[r].chain;
      || g'.threads[r].dead
      || c' == c
      || (c' != [] && c'[1..] == c)
      || (c != [] && c[0].In? && c' == c[1..])
      || (c != [] && c[0].Out? && c' == c[1..] && c[0].id in g'.left)
  }

  lemma PopStack(g: State, s: nat, t: nat, how: Outcome, notice: seq<Work>, r: nat)
    requires Inv(g) && t in g.txns && g.txns[t].from == Some(s) && g.txns[t].holder.Failing? && r in g.threads
    ensures StackStep(g, PopAndFree(g, s, t, how, notice), r)
  {
    HeldIsLeaf(g, t);
    LeafSilent(g, t, s);
  }

  lemma RefusedStack(g: State, s: nat, r: nat)
    requires Inv(g) && IsSent(g, s) && r in g.threads
    ensures StackStep(g, SubmitRefused(g, s), r)
  {
    hide Inv, TargetOk;
    SentHere(g, s);
    WithdrawKeepsInv(g, s);
    PopStack(Withdraw(g, s), s, g.threads[s].phase.id, Refused, [], r);
  }

  lemma ReplyStack(g: State, s: nat, r: nat)
    requires Inv(g) && IsReplying(g, s) && r in g.threads
    ensures StackStep(g, FinishReply(g, s), r)
  {
    hide Inv;
    RepliedHere(g, s);
    DropReplyKeepsInv(g, s);
    if !g.threads[g.threads[s].phase.caller].dead {
      PopStack(DropReply(g, s), g.threads[s].phase.caller, g.threads[s].phase.id, Replied, [Reply(g.threads[s].phase.id)], r);
    }
  }

  lemma FailStack(g: State, t: nat, r: nat)
    requires Inv(g) && t in g.txns && g.txns[t].holder.Failing? && r in g.threads
    ensures StackStep(g, FailOne(g, t), r)
  {
    hide Inv;
    if g.txns[t].from.Some? {
      SenderWaits(g, t, g.txns[t].from.value);
      PopStack(g, g.txns[t].from.value, t, Failed, [], r);
    }
  }

  lemma PushStack(g: State, s: nat, r: nat)
    requires Inv(g) && r in g.threads
    ensures IsDelivering(g, s) ==> StackStep(g, Accept(g, s), r)
    ensures IsSending(g, s) ==> StackStep(g, Push(g, s), r)
  {
    hide Inv;
    if IsDelivering(g, s) {
      assert Accept(g, s).threads[s].chain[1..] == g.threads[s].chain;
    }
    if IsSending(g, s) {
      assert Push(g, s).threads[s].chain[1..] == g.threads[s].chain;
    }
  }

  lemma StepStacks(g: State, step: Step, r: nat)
    requires Inv(g) && Enabled(g, step) && r in g.threads
    ensures StackStep(g, Next(g, step), r)
  {
    hide Inv, FailOne, FinishReply, SubmitRefused, Accept, Push, FindTarget;
    if IsMinor(step) {
      MinorStep(g, step);
      return;
    }
    match step
    case QueueRefused(s) => RefusedStack(g, s, r);
    case StartReply(s) => ReplyToTop(g, s);
    case SendReply(s) => ReplyStack(g, s, r);
    case FailNext(t) => FailStack(g, t, r);
    case Deliver(s) => PushStack(g, s, r);
    case PushCall(s) => PushStack(g, s, r);
    case _ =>
  }

  /** While a call is on its sender's stack, what is below it does not change; the step that
      takes it off leaves the stack as it was when the call was made. */
  lemma StepReturns(g: State, step: Step, r: nat, id: nat, base: seq<Link>)
    requires Inv(g) && Enabled(g, step) && r in g.threads && HasBase(g.threads[r].chain, [Out(id)] + base)
    ensures var g' := Next(g, step);
            && r in g'.threads
            && (g'.threads[r].dead
                || HasBase(g'.threads[r].chain, [Out(id)] + base)
                || (id in g'.left && g'.threads[r].chain == base))
  {
    hide Inv, Enabled, Next, HasBase;
    StepStacks(g, step, r);
    BaseKept(g.threads[r].chain, Next(g, step).threads[r].chain, id, base);
  }

  lemma BaseKept(c: seq<Link>, c': seq<Link>, id: nat, base: seq<Link>)
    requires HasBase(c, [Out(id)] + base)
    ensures c' == c || (c' != [] && c'[1..] == c) ==> HasBase(c', [Out(id)] + base)
    ensures c != [] && c[0].In? && c' == c[1..] ==> HasBase(c', [Out(id)] + base)
    ensures c != [] && c[0].Out? && c' == c[1..] ==> HasBase(c', [Out(id)] + base) || (c[0] == Out(id) && c' == base)
  {
    var b := [Out(id)] + base;
    if |c| == |b| {
      assert c == b && c[1..] == base;
    }
  }

  /** Dead threads stay dead. */
  lemma {:induction false} ThreadsStay(g: State, steps: seq<Step>, r: nat)
    requires Inv(g) && IsRun(g, steps) && r in g.threads
    ensures r in End(g, steps).threads && (g.threads[r].dead ==> End(g, steps).threads[r].dead)
    decreases |steps|
  {
    hide Inv, Enabled, Next;
    if steps != [] {
      StepKeepsInv(g, steps[0]);
      StepStacks(g, steps[0], r);
      ThreadsStay(Next(g, steps[0]), steps[1..], r);
    }
  }

  /** Over a whole run: a call on its sender's stack stays there over an unchanged base,
      unless the sender dies or the call leaves. */
  lemma {:induction false} CallReturns(g: State, steps: seq<Step>, r: nat, id: nat, base: seq<Link>)
    requires Inv(g) && IsRun(g, steps) && r in g.threads && HasBase(g.threads[r].chain, [Out(id)] + base)
    ensures var g' := End(g, steps);
            r in g'.threads && (g'.threads[r].dead || id in g'.left || HasBase(g'.threads[r].chain, [Out(id)] + base))
    decreases |steps|
  {
    hide Inv, Enabled, Next, HistoryGrows, HasBase;
    if steps != [] {
      StepKeepsInv(g, steps[0]);
      StepReturns(g, steps[0], r, id, base);
      var g1 := Next(g, steps[0]);
      ThreadsStay(g1, steps[1..], r);
      if g1.threads[r].dead {
      } else if HasBase(g1.threads[r].chain, [Out(id)] + base) {
        CallReturns(g1, steps[1..], r, id, base);
      } else {
        LeavesOnce(g1, steps[1..], id);
      }
    }
  }
}
