/** What every step does to the work lists, and why a call that has been answered has put exactly
    one answer on its sender's list. */
module CallAnswers {
  import opened Common
  import opened CallGraph
  import opened CallFrames
  import opened CallFailing
  import opened CallReading
  import opened CallReplies
  import opened CallSending
  import opened CallQueueing
  import opened CallRelease
  import opened CallRuns

  // ---------- the work lists ----------

  datatype List = OfThread(thread: nat) | OfProc(proc: nat)

  function Items(g: State, l: List): seq<Work> {
    match l
    case OfThread(r) => if r in g.threads then g.threads[r].todo else []
    case OfProc(p) => if p in g.procs then g.procs[p].todo else []
  }

  function When(c: bool, w: Work): seq<Work> {
    if c then [w] else []
  }

  /** What a step puts at the end of a list. */
  ghost function Added(g: State, step: Step, l: List): seq<Work>
    requires Inv(g) && Enabled(g, step)
  {
    match step
    case PushCall(r) => When(l == OfThread(r), Other)
    case CallFails(r) => When(l == OfThread(r), Other)
    case ReplyFails(r) => When(l == OfThread(r), Other)
    case SendReply(r) =>
      var x := g.threads[r].phase;
      When(l == OfThread(r), Other) + When(l == OfThread(x.caller) && x.caller in g.threads && !g.threads[x.caller].dead, Reply(x.id))
    case QueueToThread(r, s) => When(l == OfThread(s), Call(g.threads[r].phase.id))
    case QueueToProc(r) =>
      SentHere(g, r);
      When(l == OfProc(g.txns[g.threads[r].phase.id].toProc), Call(g.threads[r].phase.id))
    case FailNext(t) =>
      var s := g.txns[t].from;
      When(s.Some? && l == OfThread(s.value) && s.value in g.threads && !g.threads[s.value].failed, ReplyError)
    case Quiet(r, _, todo) => if l == OfThread(r) && |todo| > |g.threads[r].todo| then todo[|g.threads[r].todo|..] else []
    case ProcStep(p, event) => if l == OfProc(p) && event.OtherQueued? then [event.work] else []
    case _ => []
  }

  /** A step takes the head off a list. */
  ghost predicate TakesHead(g: State, step: Step, l: List)
    requires Inv(g) && Enabled(g, step)
  {
    match step
    case ReadOwn(r) => l == OfThread(r)
    case ReadProc(r) => l == OfProc(g.threads[r].proc)
    case DropThreadCall(r) => l == OfThread(r)
    case DropProcCall(p) => l == OfProc(p)
    case Quiet(r, _, todo) => l == OfThread(r) && |todo| < |g.threads[r].todo|
    case ProcStep(p, event) => l == OfProc(p) && event.OtherTaken?
    case _ => false
  }

  lemma NothingMore(q: seq<Work>)
    ensures q + [] == q && forall w :: q + ([w] + []) == q + [w] && q + ([] + [w]) == q + [w]
  {
  }

  /** The thread that answers is not the one that waits. */
  lemma CallerIsOther(g: State, r: nat)
    requires Inv(g) && IsReplying(g, r)
    ensures var s := g.threads[r].phase.caller; s in g.threads && (g.threads[s].dead || s != r)
  {
    hide Inv;
    RepliedHere(g, r);
    var t, s := g.threads[r].phase.id, g.threads[r].phase.caller;
    if !g.threads[s].dead {
      LeafSilent(g, t, s);
    }
  }

  lemma PopItems(g: State, s: nat, t: nat, how: Outcome, notice: seq<Work>, l: List)
    requires Inv(g) && t in g.txns && g.txns[t].from == Some(s) && g.txns[t].holder.Failing?
    ensures Items(PopAndFree(g, s, t, how, notice), l) == Items(g, l) + if l == OfThread(s) then notice else []
  {
    HeldIsLeaf(g, t);
    LeafSilent(g, t, s);
    hide Inv;
    NothingMore(Items(g, l));
  }

  lemma DropItems(g: State, r: nat, l: List)
    requires Inv(g) && IsReplying(g, r)
    ensures var g1 := DropReply(g, r); var x := g.threads[r].phase;
            && Inv(g1) && x.caller in g.threads && x.id in g1.txns && g1.txns[x.id].holder.Failing?
            && (!g.threads[x.caller].dead ==> g1.txns[x.id].from == Some(x.caller))
            && Items(g1, l) == Items(g, l) + When(l == OfThread(r), Other)
  {
    hide Inv;
    RepliedHere(g, r);
    DropReplyKeepsInv(g, r);
    hide IsLeaf, SenderOk, NoCall;
    NothingMore(Items(g, l));
  }

  lemma AddedByAnswer(g: State, step: Step, l: List)
    requires Inv(g) && Enabled(g, step) && step.SendReply?
    ensures step.thread in g.threads && g.threads[step.thread].phase.Replying?
    ensures var x := g.threads[step.thread].phase;
            Added(g, step, l)
            == When(l == OfThread(step.thread), Other) + When(l == OfThread(x.caller) && x.caller in g.threads && !g.threads[x.caller].dead, Reply(x.id))
  {
    hide Inv;
  }

  lemma AnswerMoves(g: State, r: nat, l: List)
    requires Inv(g) && IsReplying(g, r)
    ensures var x := g.threads[r].phase;
            Items(FinishReply(g, r), l)
            == Items(g, l) + (When(l == OfThread(r), Other) + When(l == OfThread(x.caller) && x.caller in g.threads && !g.threads[x.caller].dead, Reply(x.id)))
  {
    hide Inv, PopAndFree, DropReply, Items;
    CallerIsOther(g, r);
    DropItems(g, r, l);
    var x := g.threads[r].phase;
    var g1 := DropReply(g, r);
    if !g.threads[x.caller].dead {
      PopItems(g1, x.caller, x.id, Replied, [Reply(x.id)], l);
    }
    NothingMore(Items(g, l));
    NothingMore(Items(g1, l));
  }

  lemma FailMoves(g: State, t: nat, l: List)
    requires Inv(g) && Enabled(g, FailNext(t))
    ensures Items(FailOne(g, t), l) == Items(g, l) + Added(g, FailNext(t), l)
  {
    hide Inv, PopAndFree;
    if g.txns[t].from.Some? {
      SenderWaits(g, t, g.txns[t].from.value);
      PopItems(g, g.txns[t].from.value, t, Failed, [], l);
    }
    NothingMore(Items(g, l));
  }

  lemma RefusalMoves(g: State, r: nat, l: List)
    requires Inv(g) && Enabled(g, QueueRefused(r))
    ensures Items(SubmitRefused(g, r), l) == Items(g, l) + Added(g, QueueRefused(r), l)
  {
    hide Inv;
    SentHere(g, r);
    WithdrawKeepsInv(g, r);
    assert Items(g, l) + [] == Items(g, l);
  }

  lemma QueueMoves(g: State, step: Step, l: List)
    requires Inv(g) && Enabled(g, step) && (step.QueueToThread? || step.QueueToProc? || step.PushCall? || step.ReadOwn? || step.ReadProc?)
    ensures TakesHead(g, step, l) ==> Items(g, l) != []
    ensures Items(Next(g, step), l) == (if TakesHead(g, step, l) then Items(g, l)[1..] else Items(g, l)) + Added(g, step, l)
  {
    hide Inv, FindTarget;
    assert Items(g, l) + [] == Items(g, l);
    if step.QueueToProc? || step.QueueToThread? {
      SentHere(g, step.thread);
    }
  }

  lemma QuietMoves(g: State, r: nat, phase: Phase, todo: seq<Work>, l: List)
    requires Inv(g) && Enabled(g, Quiet(r, phase, todo))
    ensures var step := Quiet(r, phase, todo);
            && (TakesHead(g, step, l) ==> Items(g, l) != [])
            && Items(LocalStep(g, r, phase, todo), l) == (if TakesHead(g, step, l) then Items(g, l)[1..] else Items(g, l)) + Added(g, step, l)
  {
    hide Inv;
    NothingMore(Items(g, l));
  }

  lemma ProcMoves(g: State, p: nat, event: ProcEvent, l: List)
    requires Inv(g) && Enabled(g, ProcStep(p, event))
    ensures var step := ProcStep(p, event);
            && (TakesHead(g, step, l) ==> Items(g, l) != [])
            && Items(ChangeProc(g, p, event), l) == (if TakesHead(g, step, l) then Items(g, l)[1..] else Items(g, l)) + Added(g, step, l)
  {
    hide Inv;
    NothingMore(Items(g, l));
  }

  lemma PlainMoves(g: State, step: Step, l: List)
    requires Inv(g) && Enabled(g, step)
    requires step.ThreadStarts? || step.DeliveryFails? || step.Deliver? || step.StartCall? || step.StartReply? || step.ThreadDies? || step.ErrorTold?
    ensures Items(Next(g, step), l) == Items(g, l) && Added(g, step, l) == [] && !TakesHead(g, step, l)
  {
    hide Inv, FindTarget, PopAndFree;
  }

  lemma DropMoves(g: State, step: Step, l: List)
    requires Inv(g) && Enabled(g, step) && (step.CallFails? || step.ReplyFails? || step.DropThreadCall? || step.DropProcCall?)
    ensures TakesHead(g, step, l) ==> Items(g, l) != []
    ensures Items(Next(g, step), l) == (if TakesHead(g, step, l) then Items(g, l)[1..] else Items(g, l)) + Added(g, step, l)
  {
    hide Inv, FindTarget, PopAndFree;
    NothingMore(Items(g, l));
  }

  /** Every list is a queue, and each step puts on it and takes off it exactly that. */
  lemma QueuesMove(g: State, step: Step, l: List)
    requires Inv(g) && Enabled(g, step)
    ensures TakesHead(g, step, l) ==> Items(g, l) != []
    ensures Items(Next(g, step), l) == (if TakesHead(g, step, l) then Items(g, l)[1..] else Items(g, l)) + Added(g, step, l)
  {
    hide Inv, Added, Items, TakesHead, FinishReply, FailOne, SubmitRefused, LocalStep, ChangeProc;
    match step
    case SendReply(r) => NeverTaken(g, step, l); AnswerMoves(g, r, l); AddedByAnswer(g, step, l);
    case FailNext(t) => NeverTaken(g, step, l); FailMoves(g, t, l);
    case QueueRefused(r) => NeverTaken(g, step, l); RefusalMoves(g, r, l);
    case Quiet(r, phase, todo) => QuietMoves(g, r, phase, todo, l);
    case ProcStep(p, event) => ProcMoves(g, p, event, l);
    case _ =>
      hide Next;
      if step.QueueToThread? || step.QueueToProc? || step.PushCall? || step.ReadOwn? || step.ReadProc? {
        QueueMoves(g, step, l);
      } else if step.CallFails? || step.ReplyFails? || step.DropThreadCall? || step.DropProcCall? {
        DropMoves(g, step, l);
      } else {
        PlainMoves(g, step, l);
        NothingMore(Items(g, l));
      }
  }

  lemma NeverTaken(g: State, step: Step, l: List)
    requires Inv(g) && Enabled(g, step) && (step.SendReply? || step.FailNext? || step.QueueRefused?)
    ensures !TakesHead(g, step, l)
  {
    hide Inv;
  }

  // ---------- answers ----------

  /** The step ends call t, sent by thread s, with an answer. */
  ghost predicate Answers(g: State, g': State, s: nat, t: nat) {
    && t !in g.left && t in g'.left && g'.left[t] == Replied
    && t in g.txns && g.txns[t].from == Some(s) && s in g.threads
  }

  /** An answer to call t arrives on list l. */
  ghost predicate Arrives(g: State, g': State, l: List, t: nat) {
    multiset(Items(g', l))[Reply(t)] > multiset(Items(g, l))[Reply(t)]
  }

  lemma PopLeaves(g: State, s: nat, t: nat, how: Outcome, notice: seq<Work>)
    requires Inv(g) && t in g.txns && g.txns[t].from == Some(s) && g.txns[t].holder.Failing?
    ensures PopAndFree(g, s, t, how, notice).left == g.left[t := how] && t !in g.left
  {
    hide Inv;
    InvTables(g);
    CallIsNotLeft(g, t, s);
  }

  lemma CallIsNotLeft(g: State, t: nat, s: nat)
    requires Inv(g) && t in g.txns && g.txns[t].from == Some(s)
    ensures t !in g.left
  {
    InvTables(g);
  }

  lemma ReplyLeaves(g: State, r: nat)
    requires Inv(g) && IsReplying(g, r)
    ensures var x := g.threads[r].phase; var g' := FinishReply(g, r);
            && x.caller in g.threads
            && g'.left == (if g.threads[x.caller].dead then g.left else g.left[x.id := Replied])
            && (!g.threads[x.caller].dead ==> x.id !in g.left && x.id in g.txns && g.txns[x.id].from == Some(x.caller))
  {
    hide Inv, PopAndFree;
    RepliedHere(g, r);
    DropReplyKeepsInv(g, r);
    var x := g.threads[r].phase;
    if !g.threads[x.caller].dead {
      PopLeaves(DropReply(g, r), x.caller, x.id, Replied, [Reply(x.id)]);
    }
  }

  lemma OthersLeave(g: State, step: Step, t: nat)
    requires Inv(g) && Enabled(g, step) && !step.SendReply? && t in Next(g, step).left && t !in g.left
    ensures Next(g, step).left[t] != Replied
  {
    hide Inv, PopAndFree, FindTarget, Push;
    if IsMinor(step) {
      MinorStep(g, step);
      return;
    }
    match step
    case PushCall(r) => PushLeaves(g, r);
    case QueueRefused(r) =>
      SentHere(g, r);
      WithdrawKeepsInv(g, r);
      PopLeaves(Withdraw(g, r), r, g.threads[r].phase.id, Refused, []);
    case FailNext(u) =>
      if g.txns[u].from.Some? {
        SenderWaits(g, u, g.txns[u].from.value);
        PopLeaves(g, g.txns[u].from.value, u, Failed, []);
      }
    case _ =>
  }

  lemma PushLeaves(g: State, r: nat)
    requires Inv(g) && IsSending(g, r)
    ensures Push(g, r).left == g.left
  {
    hide Inv;
  }

  lemma OnlyAnswersAdded(g: State, step: Step, l: List, t: nat)
    requires Inv(g) && Enabled(g, step) && Reply(t) in Added(g, step, l)
    ensures step.SendReply? && var x := g.threads[step.thread].phase;
            x.caller in g.threads && !g.threads[x.caller].dead && t == x.id && l == OfThread(x.caller)
  {
    hide Inv;
  }

  lemma CountsAdd(q: seq<Work>, more: seq<Work>, w: Work)
    ensures multiset(q + more)[w] == multiset(q)[w] + multiset(more)[w]
    ensures w in q <==> multiset(q)[w] > 0
    ensures q != [] ==> multiset(q[1..])[w] <= multiset(q)[w]
  {
    assert q != [] ==> q == [q[0]] + q[1..];
  }

  /** The step that ends a call with an answer appends that answer to the list of the thread
      that sent the call; no other list of a thread gains a transaction. */
  lemma AnsweredStep(g: State, step: Step, s: nat, t: nat)
    requires Inv(g) && Enabled(g, step) && Answers(g, Next(g, step), s, t)
    ensures var g' := Next(g, step);
            && s in g'.threads && g'.threads[s].todo == g.threads[s].todo + [Reply(t)]
            && forall r :: r in g.threads && r != s ==>
                r in g'.threads && (g'.threads[r].todo == g.threads[r].todo || g'.threads[r].todo == g.threads[r].todo + [Other])
  {
    hide Inv, FinishReply, Items, Added;
    if !step.SendReply? {
      OthersLeave(g, step, t);
    } else {
      ReplyLeaves(g, step.thread);
      CallerIsOther(g, step.thread);
      forall r | r in g.threads
        ensures r in FinishReply(g, step.thread).threads
      {
        ReplyStack(g, step.thread, r);
      }
      forall r | r in g.threads
        ensures Items(Next(g, step), OfThread(r)) == Items(g, OfThread(r))
                + (When(r == step.thread, Other) + When(r == s, Reply(t)))
      {
        AnswerMoves(g, step.thread, OfThread(r));
      }
      AnswerLists(g, Next(g, step), step.thread, s, t);
    }
  }

  lemma AnswerLists(g: State, g': State, r0: nat, s: nat, t: nat)
    requires s in g.threads && r0 != s && forall r :: r in g.threads ==> r in g'.threads
    requires forall r :: r in g.threads ==>
               Items(g', OfThread(r)) == Items(g, OfThread(r)) + (When(r == r0, Other) + When(r == s, Reply(t)))
    ensures s in g'.threads && g'.threads[s].todo == g.threads[s].todo + [Reply(t)]
    ensures forall r :: r in g.threads && r != s ==>
              r in g'.threads && (g'.threads[r].todo == g.threads[r].todo || g'.threads[r].todo == g.threads[r].todo + [Other])
  {
    forall r | r in g.threads
      ensures Items(g', OfThread(r)) == g'.threads[r].todo && Items(g, OfThread(r)) == g.threads[r].todo
    {
    }
    forall r | r in g.threads
      ensures g.threads[r].todo + [] == g.threads[r].todo
    {
    }
  }

  /** An answer arrives on a list exactly when the call is ended with it and the list is its
      sender's. */
  lemma ArrivesExactly(g: State, step: Step, l: List, t: nat)
    requires Inv(g) && Enabled(g, step)
    ensures Arrives(g, Next(g, step), l, t) <==> l.OfThread? && Answers(g, Next(g, step), l.thread, t)
  {
    hide Inv, Added, TakesHead, Enabled, Next;
    QueuesMove(g, step, l);
    var rest := if TakesHead(g, step, l) then Items(g, l)[1..] else Items(g, l);
    CountsAdd(rest, Added(g, step, l), Reply(t));
    CountsAdd(Items(g, l), [], Reply(t));
    CountsAdd(Added(g, step, l), [], Reply(t));
    if Arrives(g, Next(g, step), l, t) {
      OnlyAnswersAdded(g, step, l, t);
      AnswersHere(g, step);
    } else if l.OfThread? && Answers(g, Next(g, step), l.thread, t) {
      AnsweredStep(g, step, l.thread, t);
      CountsAdd(Items(g, l), [Reply(t)], Reply(t));
    }
  }

  lemma AnswersHere(g: State, step: Step)
    requires Inv(g) && Enabled(g, step) && step.SendReply?
    ensures var x := g.threads[step.thread].phase;
            x.caller in g.threads && !g.threads[x.caller].dead ==> Answers(g, Next(g, step), x.caller, x.id)
  {
    hide Inv, FinishReply;
    ReplyLeaves(g, step.thread);
  }

  // ---------- runs ----------

  /** How often an answer to call t arrives on list l along a run. */
  ghost function Arrivals(g: State, steps: seq<Step>, l: List, t: nat): nat
    requires Inv(g) && IsRun(g, steps)
    decreases |steps|
  {
    hide Inv, Enabled, Next;
    if steps == [] then 0
    else
      StepKeepsInv(g, steps[0]);
      var g' := Next(g, steps[0]);
      (if Arrives(g, g', l, t) then 1 else 0) + Arrivals(g', steps[1..], l, t)
  }

  /** Somewhere along a run thread s is the sender of call t. */
  ghost predicate SentIn(g: State, steps: seq<Step>, s: nat, t: nat)
    requires Inv(g) && IsRun(g, steps)
    decreases |steps|
  {
    hide Inv, Enabled, Next;
    (t in g.txns && g.txns[t].from == Some(s)) ||
    (steps != [] && (StepKeepsInv(g, steps[0]); SentIn(Next(g, steps[0]), steps[1..], s, t)))
  }

  lemma {:induction false} NoSecondAnswer(g: State, steps: seq<Step>, l: List, t: nat)
    requires Inv(g) && IsRun(g, steps) && t in g.left
    ensures Arrivals(g, steps, l, t) == 0
    decreases |steps|
  {
    hide Inv, Enabled, Next, Arrives;
    if steps != [] {
      StepKeepsInv(g, steps[0]);
      StepGrows(g, steps[0]);
      ArrivesExactly(g, steps[0], l, t);
      NoSecondAnswer(Next(g, steps[0]), steps[1..], l, t);
    }
  }

  /** Along any run, a call that was answered has put exactly one answer on its sender's list and
      none on any other; one that was not answered has put none anywhere. */
  lemma {:induction false} AnsweredOnce(g: State, steps: seq<Step>, t: nat) returns (s: nat)
    requires Inv(g) && IsRun(g, steps) && t !in g.left
    ensures var g' := End(g, steps);
            if t in g'.left && g'.left[t] == Replied then
              SentIn(g, steps, s, t) && forall l :: Arrivals(g, steps, l, t) == if l == OfThread(s) then 1 else 0
            else forall l :: Arrivals(g, steps, l, t) == 0
    decreases |steps|
  {
    hide Inv, Enabled, Next, Arrives, Answers;
    s := 0;
    if steps != [] {
      StepKeepsInv(g, steps[0]);
      var g1 := Next(g, steps[0]);
      forall l
        ensures Arrives(g, g1, l, t) <==> l.OfThread? && Answers(g, g1, l.thread, t)
      {
        ArrivesExactly(g, steps[0], l, t);
      }
      if t in g1.left {
        forall l
          ensures Arrivals(g1, steps[1..], l, t) == 0
        {
          NoSecondAnswer(g1, steps[1..], l, t);
        }
        RunGrows(g1, steps[1..]);
        s := WhoWasAnswered(g, steps[0], t);
      } else {
        s := AnsweredOnce(g1, steps[1..], t);
        NotAnswered(g, g1, t);
      }
    }
  }

  lemma NotAnswered(g: State, g': State, t: nat)
    requires t !in g'.left
    ensures forall s :: !Answers(g, g', s, t)
  {
  }

  /** The sender of a call that a step ends with an answer. */
  lemma WhoWasAnswered(g: State, step: Step, t: nat) returns (s: nat)
    requires Inv(g) && Enabled(g, step) && t !in g.left && t in Next(g, step).left
    ensures Next(g, step).left[t] == Replied ==> t in g.txns && g.txns[t].from == Some(s)
    ensures forall r :: Answers(g, Next(g, step), r, t) <==> Next(g, step).left[t] == Replied && r == s
  {
    hide Inv, FinishReply;
    s := 0;
    if step.SendReply? {
      ReplyLeaves(g, step.thread);
      s := g.threads[step.thread].phase.caller;
    } else {
      OthersLeave(g, step, t);
    }
  }
}
