/** A call that fails is reported to the thread that sent it: exactly one item for exactly that
    thread, unless an earlier report has not been read to its end. */
module CallErrors {
  import opened Common
  import opened CallGraph
  import opened CallFrames
  import opened CallFailing
  import opened CallReading
  import opened CallReplies
  import opened CallSending
  import opened CallQueueing
  import opened CallRelease
  import opened CallRuns
  import opened CallAnswers

  /** The step ends call t, sent by thread s, with a failure. */
  ghost predicate Fails(g: State, g': State, s: nat, t: nat) {
    && t !in g.left && t in g'.left && g'.left[t] == Failed
    && t in g.txns && g.txns[t].from == Some(s) && s in g.threads
  }

  predicate Pending(g: State, r: nat) {
    r in g.threads && g.threads[r].failed
  }

  lemma FailLeaves(g: State, u: nat)
    requires Inv(g) && u in g.txns && g.txns[u].holder.Failing?
    ensures FailOne(g, u).left == match g.txns[u].from case Some(_) => g.left[u := Failed] case None => g.left
    ensures g.txns[u].from.Some? ==> u !in g.left && g.txns[u].from.value in g.threads
  {
    hide Inv, PopAndFree;
    if g.txns[u].from.Some? {
      SenderWaits(g, u, g.txns[u].from.value);
      PopLeaves(g, g.txns[u].from.value, u, Failed, []);
    }
  }

  /** Only one section ends a call with a failure, and with it exactly the call it fails. */
  lemma OnlyFailing(g: State, step: Step, t: nat)
    requires Inv(g) && Enabled(g, step) && t in Next(g, step).left && t !in g.left
    ensures Next(g, step).left[t] == Failed <==> step == FailNext(t)
    ensures step == FailNext(t) ==> t in g.txns && g.txns[t].from.Some? && g.txns[t].from.value in g.threads
  {
    hide Inv, PopAndFree, FindTarget, Push, FinishReply, FailOne;
    if IsMinor(step) {
      MinorStep(g, step);
      return;
    }
    match step
    case PushCall(r) => PushLeaves(g, r);
    case SendReply(r) => ReplyLeaves(g, r);
    case QueueRefused(r) =>
      SentHere(g, r);
      WithdrawKeepsInv(g, r);
      PopLeaves(Withdraw(g, r), r, g.threads[r].phase.id, Refused, []);
    case FailNext(u) => FailLeaves(g, u);
    case _ =>
  }

  lemma FailsExactly(g: State, step: Step, s: nat, t: nat)
    requires Inv(g) && Enabled(g, step)
    ensures Fails(g, Next(g, step), s, t) <==> step == FailNext(t) && g.txns[t].from == Some(s)
  {
    hide Inv, Enabled, Next;
    if step == FailNext(t) {
      FailsHere(g, t);
    } else if t in Next(g, step).left && t !in g.left {
      OnlyFailing(g, step, t);
    }
  }

  lemma FailsHere(g: State, t: nat)
    requires Inv(g) && Enabled(g, FailNext(t))
    ensures t in g.txns
    ensures g.txns[t].from.Some? ==> Fails(g, Next(g, FailNext(t)), g.txns[t].from.value, t)
  {
    hide Inv, FailOne;
    FailLeaves(g, t);
  }

  lemma OtherFlags(g: State, step: Step, r: nat)
    requires Inv(g) && Enabled(g, step) && !step.SendReply? && !step.QueueRefused? && !step.FailNext? && !step.PushCall? && !step.Deliver? && !step.ThreadDies?
    ensures r in g.threads ==> r in Next(g, step).threads
    ensures Pending(Next(g, step), r) <==> Pending(g, r) && step != ErrorTold(r)
  {
    hide Inv, FindTarget;
  }

  lemma MovedFlags(g: State, step: Step, r: nat)
    requires Inv(g) && Enabled(g, step) && (step.Deliver? || step.ThreadDies?)
    ensures r in g.threads ==> r in Next(g, step).threads
    ensures Pending(Next(g, step), r) <==> Pending(g, r)
  {
    hide Inv, SentBy;
  }

  /** The flag of `reply_error`: set when a call of the thread fails, cleared when the thread has
      read the report, and by nothing else. */
  lemma FlagMoves(g: State, step: Step, r: nat)
    requires Inv(g) && Enabled(g, step)
    ensures r in g.threads ==> r in Next(g, step).threads
    ensures Pending(Next(g, step), r) <==>
              (Pending(g, r) && step != ErrorTold(r)) || (step.FailNext? && step.txn in g.txns && g.txns[step.txn].from == Some(r))
  {
    hide Inv, Enabled, Next;
    match step
    case SendReply(s) => FlagOfReply(g, s, r);
    case QueueRefused(s) => FlagOfRefusal(g, s, r);
    case FailNext(t) => FlagOfFailure(g, t, r);
    case PushCall(s) => FlagOfPush(g, s, r);
    case _ =>
      if step.Deliver? || step.ThreadDies? {
        MovedFlags(g, step, r);
      } else {
        OtherFlags(g, step, r);
      }
  }

  lemma FlagOfPop(g: State, s: nat, t: nat, how: Outcome, notice: seq<Work>, r: nat)
    requires Inv(g) && t in g.txns && g.txns[t].from == Some(s) && g.txns[t].holder.Failing?
    ensures r in g.threads ==> r in PopAndFree(g, s, t, how, notice).threads
    ensures Pending(PopAndFree(g, s, t, how, notice), r) <==> Pending(g, r)
  {
    HeldIsLeaf(g, t);
    LeafSilent(g, t, s);
    hide Inv;
  }

  lemma FlagOfReply(g: State, s: nat, r: nat)
    requires Inv(g) && Enabled(g, SendReply(s))
    ensures r in g.threads ==> r in Next(g, SendReply(s)).threads
    ensures Pending(Next(g, SendReply(s)), r) <==> Pending(g, r)
  {
    hide Inv, PopAndFree;
    RepliedHere(g, s);
    DropReplyKeepsInv(g, s);
    var x := g.threads[s].phase;
    if !g.threads[x.caller].dead {
      FlagOfPop(DropReply(g, s), x.caller, x.id, Replied, [Reply(x.id)], r);
    }
  }

  lemma FlagOfRefusal(g: State, s: nat, r: nat)
    requires Inv(g) && Enabled(g, QueueRefused(s))
    ensures r in g.threads ==> r in Next(g, QueueRefused(s)).threads
    ensures Pending(Next(g, QueueRefused(s)), r) <==> Pending(g, r)
  {
    hide Inv, PopAndFree;
    SentHere(g, s);
    WithdrawKeepsInv(g, s);
    FlagOfPop(Withdraw(g, s), s, g.threads[s].phase.id, Refused, [], r);
  }

  lemma FlagOfFailure(g: State, t: nat, r: nat)
    requires Inv(g) && Enabled(g, FailNext(t))
    ensures r in g.threads ==> r in Next(g, FailNext(t)).threads
    ensures Pending(Next(g, FailNext(t)), r) <==> Pending(g, r) || (t in g.txns && g.txns[t].from == Some(r))
  {
    hide Inv, PopAndFree;
    if g.txns[t].from.Some? {
      SenderWaits(g, t, g.txns[t].from.value);
    }
  }

  lemma FlagOfPush(g: State, s: nat, r: nat)
    requires Inv(g) && Enabled(g, PushCall(s))
    ensures r in g.threads ==> r in Next(g, PushCall(s)).threads
    ensures Pending(Next(g, PushCall(s)), r) <==> Pending(g, r)
  {
    hide Inv;
  }

  /** The step that ends a call with a failure appends the report to the list of the thread that
      sent it, unless one is pending there; no other list changes. */
  lemma FailedStep(g: State, step: Step, s: nat, t: nat, l: List)
    requires Inv(g) && Enabled(g, step) && Fails(g, Next(g, step), s, t)
    ensures Items(Next(g, step), l) == Items(g, l) + When(l == OfThread(s) && !Pending(g, s), ReplyError)
    ensures Pending(Next(g, step), s)
  {
    hide Inv, Enabled, Next, Items;
    FailsExactly(g, step, s, t);
    FailsThere(g, t);
    QueuesMove(g, step, l);
    FlagMoves(g, step, s);
  }

  lemma FailsThere(g: State, t: nat)
    requires Inv(g) && Enabled(g, FailNext(t))
    ensures t in g.txns
    ensures forall l :: !TakesHead(g, FailNext(t), l)
    ensures forall l :: Added(g, FailNext(t), l) ==
              When(g.txns[t].from.Some? && l == OfThread(g.txns[t].from.value) && g.txns[t].from.value in g.threads && !g.threads[g.txns[t].from.value].failed, ReplyError)
  {
    hide Inv;
  }

  /** A report comes on no other occasion. */
  lemma OnlyFailuresReport(g: State, step: Step, l: List)
    requires Inv(g) && Enabled(g, step) && ReplyError in Added(g, step, l)
    ensures l.OfThread? && !Pending(g, l.thread) && step.FailNext? && Fails(g, Next(g, step), l.thread, step.txn)
  {
    ReportIsFailure(g, step, l);
    hide Inv, Enabled, Next, Added;
    FailsExactly(g, step, l.thread, step.txn);
  }

  lemma ReportIsFailure(g: State, step: Step, l: List)
    requires Inv(g) && Enabled(g, step) && ReplyError in Added(g, step, l)
    ensures step.FailNext? && l.OfThread? && step.txn in g.txns && g.txns[step.txn].from == Some(l.thread) && l.thread in g.threads && !Pending(g, l.thread)
  {
    hide Inv;
  }

  // ---------- reachable states ----------

  function Reports(g: State, l: List): nat {
    multiset(Items(g, l))[ReplyError]
  }

  /** At most one report on a list, and only while the flag is set. */
  ghost predicate ReportsOk(g: State) {
    forall l :: Reports(g, l) <= if l.OfThread? && Pending(g, l.thread) then 1 else 0
  }

  lemma AddedOnce(g: State, step: Step, l: List)
    requires Inv(g) && Enabled(g, step)
    ensures multiset(Added(g, step, l))[ReplyError] <= 1
    ensures ReplyError in Added(g, step, l) ==> Pending(Next(g, step), l.thread) && l.OfThread?
  {
    if ReplyError in Added(g, step, l) {
      ReportIsFailure(g, step, l);
      FlagMoves(g, step, l.thread);
      FailsThere(g, step.txn);
    } else {
      CountsAdd(Added(g, step, l), [], ReplyError);
    }
    hide Inv, Enabled, Next, Added;
  }

  lemma ToldIsRead(g: State, r: nat)
    requires Inv(g) && Enabled(g, ErrorTold(r))
    ensures Reports(g, OfThread(r)) == 0
  {
    hide Inv;
    CountsAdd(Items(g, OfThread(r)), [], ReplyError);
  }

  lemma StepKeepsReports(g: State, step: Step)
    requires Inv(g) && Enabled(g, step) && ReportsOk(g)
    ensures ReportsOk(Next(g, step))
  {
    hide Inv, Enabled, Next, Added, TakesHead, Items;
    forall l
      ensures Reports(Next(g, step), l) <= if l.OfThread? && Pending(Next(g, step), l.thread) then 1 else 0
    {
      ListKeepsReports(g, step, l);
    }
  }

  lemma ListKeepsReports(g: State, step: Step, l: List)
    requires Inv(g) && Enabled(g, step) && ReportsOk(g)
    ensures Reports(Next(g, step), l) <= if l.OfThread? && Pending(Next(g, step), l.thread) then 1 else 0
  {
    hide Inv, Enabled, Next, Added, TakesHead, Items, Pending;
    QueuesMove(g, step, l);
    var rest := if TakesHead(g, step, l) then Items(g, l)[1..] else Items(g, l);
    var more := Added(g, step, l);
    CountsAdd(rest, more, ReplyError);
    CountsAdd(more, [], ReplyError);
    CountsAdd(Items(g, l), [], ReplyError);
    AddedOnce(g, step, l);
    if ReplyError in more {
      OnlyFailuresReport(g, step, l);
    } else if l.OfThread? {
      FlagMoves(g, step, l.thread);
      if step == ErrorTold(l.thread) {
        ToldIsRead(g, l.thread);
      }
    }
  }

  lemma {:induction false} RunKeepsReports(g: State, steps: seq<Step>)
    requires Inv(g) && IsRun(g, steps) && ReportsOk(g)
    ensures ReportsOk(End(g, steps))
    decreases |steps|
  {
    hide Inv, Enabled, Next, ReportsOk;
    if steps != [] {
      StepKeepsInv(g, steps[0]);
      StepKeepsReports(g, steps[0]);
      RunKeepsReports(Next(g, steps[0]), steps[1..]);
    }
  }

  /** In every reachable state a thread has at most one report on its list, no process has any,
      and a report on a list has its error code: the warning on taking it off cannot fire. */
  lemma ReportsHaveCodes(g: State)
    requires Reachable(g)
    ensures forall r :: r in g.threads && ReplyError in g.threads[r].todo ==>
              g.threads[r].failed && multiset(g.threads[r].todo)[ReplyError] == 1
    ensures forall p :: p in g.procs ==> ReplyError !in g.procs[p].todo
  {
    hide Inv;
    InitialInv();
    var steps :| IsRun(INITIAL, steps) && g == End(INITIAL, steps);
    assert ReportsOk(INITIAL);
    RunKeepsReports(INITIAL, steps);
    forall r | r in g.threads && ReplyError in g.threads[r].todo
      ensures g.threads[r].failed && multiset(g.threads[r].todo)[ReplyError] == 1
    {
      assert Reports(g, OfThread(r)) <= if Pending(g, r) then 1 else 0;
      CountsAdd(g.threads[r].todo, [], ReplyError);
    }
    forall p | p in g.procs
      ensures ReplyError !in g.procs[p].todo
    {
      assert Reports(g, OfProc(p)) == 0;
      CountsAdd(g.procs[p].todo, [], ReplyError);
    }
  }
}
