/** What every step does to every stack and to who is responsible for every call. */
module CallStacks {
  import opened Common
  import opened CallGraph
  import opened CallFrames
  import opened CallFailing
  import opened CallReading
  import opened CallReplies
  import opened CallSending
  import opened CallQueueing
  import opened CallRelease
  import opened CallRuns

  function StackOf(g: State, r: nat): seq<Link> {
    if r in g.threads then g.threads[r].chain else []
  }

  function HolderOf(g: State, t: nat): Option<Holder> {
    if t in g.txns then Some(g.txns[t].holder) else None
  }

  /** The call a thread is busy with. */
  function Busy(g: State, r: nat): Option<nat> {
    if r !in g.threads then None
    else match g.threads[r].phase
         case Delivering(id, _) => Some(id)
         case Sending(id, _, _) => Some(id)
         case Sent(id, _) => Some(id)
         case Replying(id, _) => Some(id)
         case _ => None
  }

  function Pushed(q: seq<Link>, link: Link): seq<Link> {
    [link] + q
  }

  function Popped(q: seq<Link>): seq<Link> {
    if q == [] then [] else q[1..]
  }

  /** The stack of thread r after a step, top first. */
  ghost function StackAfter(g: State, step: Step, r: nat): seq<Link>
    requires Inv(g) && Enabled(g, step)
  {
    hide Inv;
    var q := StackOf(g, r);
    match step
    case Deliver(s) => if r == s then Pushed(q, In(Busy(g, s).value)) else q
    case PushCall(s) => if r == s then Pushed(q, Out(Busy(g, s).value)) else q
    case StartReply(s) => if r == s then Popped(q) else q
    case SendReply(s) => if r == g.threads[s].phase.caller then Popped(q) else q
    case QueueRefused(s) => if r == s then Popped(q) else q
    case FailNext(t) => if g.txns[t].from == Some(r) then Popped(q) else q
    case ThreadDies(s) => if r == s then [] else q
    case _ => q
  }

  /** The call at the head of a list. */
  function HeadCall(todo: seq<Work>): Option<nat> {
    if todo != [] && todo[0].Call? then Some(todo[0].id) else None
  }

  /** Where call t is after a step. */
  ghost function HolderAfter(g: State, step: Step, t: nat): Option<Holder>
    requires Inv(g) && Enabled(g, step)
  {
    hide Inv;
    var h := HolderOf(g, t);
    match step
    case ReadOwn(r) => if HeadCall(g.threads[r].todo) == Some(t) then Some(Delivery(r)) else h
    case ReadProc(r) => if HeadCall(g.procs[g.threads[r].proc].todo) == Some(t) then Some(Delivery(r)) else h
    case DeliveryFails(r) => if Busy(g, r) == Some(t) then Some(Failing) else h
    case Deliver(r) => if Busy(g, r) == Some(t) then Some(Receiver(r)) else h
    case PushCall(r) => if Busy(g, r) == Some(t) then Some(Sender(r)) else h
    case QueueToThread(r, s) => if Busy(g, r) == Some(t) then Some(ThreadTodo(s)) else h
    case QueueToProc(r) => if Busy(g, r) == Some(t) && t in g.txns then Some(ProcTodo(g.txns[t].toProc)) else h
    case QueueRefused(r) => if Busy(g, r) == Some(t) then None else h
    case StartReply(r) =>
      if g.threads[r].stack == Some(t) && t in g.txns then Some(if g.txns[t].from.Some? then Answer(r) else Failing) else h
    case ReplyFails(r) => if Busy(g, r) == Some(t) then Some(Failing) else h
    case SendReply(r) =>
      if Busy(g, r) != Some(t) then h
      else if g.threads[r].phase.caller in g.threads && g.threads[g.threads[r].phase.caller].dead then Some(Failing)
      else None
    case FailNext(u) =>
      if t == u then None
      else if g.txns[u].from.None? && g.txns[u].fromParent == Some(t) && h.Some? then Some(Failing)
      else h
    case ThreadDies(r) =>
      if h == Some(Receiver(r)) then Some(if g.threads[r].stack == Some(t) then Failing else Orphan) else h
    case DropThreadCall(r) => if HeadCall(g.threads[r].todo) == Some(t) then Some(Failing) else h
    case DropProcCall(p) => if HeadCall(g.procs[p].todo) == Some(t) then Some(Failing) else h
    case _ => h
  }

  // ---------- stacks ----------

  lemma PopStackExactly(g: State, s: nat, t: nat, how: Outcome, notice: seq<Work>, r: nat)
    requires Inv(g) && t in g.txns && g.txns[t].from == Some(s) && g.txns[t].holder.Failing?
    ensures StackOf(PopAndFree(g, s, t, how, notice), r) == if r == s then Popped(StackOf(g, r)) else StackOf(g, r)
    ensures HolderOf(PopAndFree(g, s, t, how, notice), r) == if r == t then None else HolderOf(g, r)
    ensures StackOf(g, s) != [] && StackOf(g, s)[0] == Out(t)
  {
    hide Inv, IsLeaf;
    SenderIsSilent(g, t, s);
  }

  lemma SenderIsSilent(g: State, t: nat, s: nat)
    requires Inv(g) && t in g.txns && g.txns[t].from == Some(s) && g.txns[t].holder.Failing?
    ensures s in g.threads && g.threads[s].chain != [] && g.threads[s].chain[0] == Out(t)
  {
    HeldIsLeaf(g, t);
    LeafSilent(g, t, s);
  }

  lemma ReplyStacks(g: State, s: nat, r: nat)
    requires Inv(g) && Enabled(g, SendReply(s))
    ensures StackOf(FinishReply(g, s), r) == StackAfter(g, SendReply(s), r)
    ensures HolderOf(FinishReply(g, s), r) == HolderAfter(g, SendReply(s), r)
  {
    hide Inv, PopAndFree;
    RepliedHere(g, s);
    DropReplyKeepsInv(g, s);
    var x := g.threads[s].phase;
    if !g.threads[x.caller].dead {
      PopStackExactly(DropReply(g, s), x.caller, x.id, Replied, [Reply(x.id)], r);
    } else {
      DeadIsIdle(g, x.caller);
    }
  }

  lemma RefusalStacks(g: State, s: nat, r: nat)
    requires Inv(g) && Enabled(g, QueueRefused(s))
    ensures StackOf(SubmitRefused(g, s), r) == StackAfter(g, QueueRefused(s), r)
    ensures HolderOf(SubmitRefused(g, s), r) == HolderAfter(g, QueueRefused(s), r)
  {
    hide Inv, PopAndFree, TargetOk;
    SentHere(g, s);
    WithdrawKeepsInv(g, s);
    PopStackExactly(Withdraw(g, s), s, g.threads[s].phase.id, Refused, [], r);
  }

  lemma FailureStacks(g: State, t: nat, r: nat)
    requires Inv(g) && Enabled(g, FailNext(t))
    ensures StackOf(FailOne(g, t), r) == StackAfter(g, FailNext(t), r)
    ensures HolderOf(FailOne(g, t), r) == HolderAfter(g, FailNext(t), r)
  {
    hide Inv, PopAndFree;
    if g.txns[t].from.Some? {
      SenderWaits(g, t, g.txns[t].from.value);
      PopStackExactly(g, g.txns[t].from.value, t, Failed, [], r);
    } else {
      InvTxn(g, t);
    }
  }

  /** Steps that leave all stacks alone, and those that only push. */
  predicate KeepsStacks(step: Step) {
    !(step.SendReply? || step.QueueRefused? || step.FailNext? || step.StartReply? || step.Deliver? || step.PushCall? || step.ThreadDies?)
  }

  lemma SameStacks(g: State, step: Step, r: nat)
    requires Inv(g) && Enabled(g, step) && KeepsStacks(step)
    ensures StackOf(Next(g, step), r) == StackOf(g, r) && StackAfter(g, step, r) == StackOf(g, r)
  {
    hide Inv, FindTarget, SentBy;
  }

  lemma ChangedStacks(g: State, step: Step, r: nat)
    requires Inv(g) && Enabled(g, step) && (step.StartReply? || step.Deliver? || step.PushCall? || step.ThreadDies?)
    ensures StackOf(Next(g, step), r) == StackAfter(g, step, r)
  {
    hide Inv, SentBy, Within;
    if step.StartReply? {
      ReplyToTop(g, step.thread);
    }
  }

  /** Every stack after every step. */
  lemma StacksMove(g: State, step: Step, r: nat)
    requires Inv(g) && Enabled(g, step)
    ensures StackOf(Next(g, step), r) == StackAfter(g, step, r)
  {
    hide Inv, FinishReply, SubmitRefused, FailOne, Enabled, StackAfter, StackOf;
    match step
    case SendReply(s) => ReplyStacks(g, s, r);
    case QueueRefused(s) => RefusalStacks(g, s, r);
    case FailNext(t) => FailureStacks(g, t, r);
    case _ =>
      hide Next;
      if KeepsStacks(step) {
        SameStacks(g, step, r);
      } else {
        ChangedStacks(g, step, r);
      }
  }

  lemma TakenHolders(g: State, step: Step, t: nat)
    requires Inv(g) && Enabled(g, step) && (step.ReadOwn? || step.ReadProc? || step.DropThreadCall? || step.DropProcCall?)
    ensures HolderOf(Next(g, step), t) == HolderAfter(g, step, t)
  {
    hide Inv;
  }

  lemma QuietHolders(g: State, step: Step, t: nat)
    requires Inv(g) && Enabled(g, step)
    requires step.ProcStep? || step.ThreadStarts? || step.Quiet? || step.StartCall? || step.CallFails? || step.ErrorTold? || step.ThreadDies?
    ensures HolderOf(Next(g, step), t) == HolderAfter(g, step, t)
  {
    hide Inv, FindTarget, SentBy;
  }

  lemma HandedHolders(g: State, step: Step, t: nat)
    requires Inv(g) && Enabled(g, step)
    requires step.DeliveryFails? || step.Deliver? || step.PushCall? || step.ReplyFails?
    ensures HolderOf(Next(g, step), t) == HolderAfter(g, step, t)
  {
    hide Inv, Within, IsLeaf, SenderOk;
    match step
    case Deliver(s) => DeliveredHere(g, s);
    case DeliveryFails(s) => DeliveredHere(g, s);
    case PushCall(s) => PushedHere(g, s);
    case ReplyFails(s) => RepliedHere(g, s);
  }

  lemma StartedHolders(g: State, s: nat, t: nat)
    requires Inv(g) && Enabled(g, StartReply(s))
    ensures HolderOf(Next(g, StartReply(s)), t) == HolderAfter(g, StartReply(s), t)
  {
    hide Inv;
    ReplyToTop(g, s);
  }

  lemma QueuedHolders(g: State, step: Step, t: nat)
    requires Inv(g) && Enabled(g, step) && (step.QueueToThread? || step.QueueToProc?)
    ensures HolderOf(Next(g, step), t) == HolderAfter(g, step, t)
  {
    hide Inv, TargetOk;
    SentHere(g, step.thread);
  }

  /** Who is responsible for every call after every step. */
  lemma HoldersMove(g: State, step: Step, t: nat)
    requires Inv(g) && Enabled(g, step)
    ensures HolderOf(Next(g, step), t) == HolderAfter(g, step, t)
  {
    hide Inv, FinishReply, SubmitRefused, FailOne, Enabled, HolderAfter, HolderOf;
    match step
    case SendReply(s) => ReplyStacks(g, s, t);
    case QueueRefused(s) => RefusalStacks(g, s, t);
    case FailNext(u) => FailureStacks(g, u, t);
    case StartReply(s) => StartedHolders(g, s, t);
    case _ =>
      hide Next;
      if step.ReadOwn? || step.ReadProc? || step.DropThreadCall? || step.DropProcCall? {
        TakenHolders(g, step, t);
      } else if step.QueueToThread? || step.QueueToProc? {
        QueuedHolders(g, step, t);
      } else if step.DeliveryFails? || step.Deliver? || step.PushCall? || step.ReplyFails? {
        HandedHolders(g, step, t);
      } else {
        QuietHolders(g, step, t);
      }
  }

  // ---------- what a call says ----------

  /** A call keeps its caller until that thread dies, and what it is nested in for good. */
  lemma CallsKeep(g: State, step: Step, t: nat)
    requires Inv(g) && Enabled(g, step) && t in g.txns && t in Next(g, step).txns
    ensures var x, y := g.txns[t], Next(g, step).txns[t];
            && y.fromParent == x.fromParent && y.toProc == x.toProc && y.above == x.above
            && y.from == if step.ThreadDies? && x.from == Some(step.thread) then None else x.from
  {
    hide Inv, Enabled, Next;
    match step
    case SendReply(s) => ReplyCalls(g, s, t);
    case QueueRefused(s) => RefusalCalls(g, s, t);
    case FailNext(u) => FailureCalls(g, u, t);
    case _ => OtherCalls(g, step, t);
  }

  lemma OtherCalls(g: State, step: Step, t: nat)
    requires Inv(g) && Enabled(g, step) && !step.SendReply? && !step.QueueRefused? && !step.FailNext?
    requires t in g.txns && t in Next(g, step).txns
    ensures var x, y := g.txns[t], Next(g, step).txns[t];
            && y.fromParent == x.fromParent && y.toProc == x.toProc && y.above == x.above
            && y.from == if step.ThreadDies? && x.from == Some(step.thread) then None else x.from
  {
    hide Inv, FindTarget, SentBy, Within;
    if step.PushCall? {
      PushedHere(g, step.thread);
    }
    if step.ThreadDies? {
      NotOwnReceiver(g, t);
    }
  }

  /** Nobody receives a call from himself. */
  lemma NotOwnReceiver(g: State, t: nat)
    requires Inv(g) && t in g.txns
    ensures forall r: nat :: g.txns[t].holder == Receiver(r) ==> g.txns[t].from != Some(r)
  {
    assert TxnOk(g, t);
  }

  lemma PopCalls(g: State, s: nat, t: nat, how: Outcome, notice: seq<Work>)
    requires Inv(g) && t in g.txns && g.txns[t].from == Some(s) && g.txns[t].holder.Failing?
    ensures PopAndFree(g, s, t, how, notice).txns == g.txns - {t}
  {
    hide Inv;
  }

  lemma ReplyCalls(g: State, s: nat, t: nat)
    requires Inv(g) && Enabled(g, SendReply(s)) && t in Next(g, SendReply(s)).txns && t in g.txns
    ensures Next(g, SendReply(s)).txns[t] == g.txns[t].(holder := Next(g, SendReply(s)).txns[t].holder)
  {
    hide Inv, PopAndFree;
    RepliedHere(g, s);
    DropReplyKeepsInv(g, s);
    var x := g.threads[s].phase;
    if !g.threads[x.caller].dead {
      PopCalls(DropReply(g, s), x.caller, x.id, Replied, [Reply(x.id)]);
    }
  }

  lemma RefusalCalls(g: State, s: nat, t: nat)
    requires Inv(g) && Enabled(g, QueueRefused(s)) && t in Next(g, QueueRefused(s)).txns && t in g.txns
    ensures Next(g, QueueRefused(s)).txns[t] == g.txns[t].(holder := Next(g, QueueRefused(s)).txns[t].holder)
  {
    hide Inv, PopAndFree, TargetOk;
    SentHere(g, s);
    WithdrawKeepsInv(g, s);
    PopCalls(Withdraw(g, s), s, g.threads[s].phase.id, Refused, []);
  }

  lemma FailureCalls(g: State, u: nat, t: nat)
    requires Inv(g) && Enabled(g, FailNext(u)) && t in Next(g, FailNext(u)).txns && t in g.txns
    ensures Next(g, FailNext(u)).txns[t] == g.txns[t].(holder := Next(g, FailNext(u)).txns[t].holder)
  {
    hide Inv, PopAndFree;
    if g.txns[u].from.Some? {
      SenderWaits(g, u, g.txns[u].from.value);
      PopCalls(g, g.txns[u].from.value, u, Failed, []);
    } else {
      InvTxn(g, u);
    }
  }

  /** A new call is from the thread that pushes it, nested in what was on top, and for the process
      and the thread chosen when it was started. */
  lemma CallAsStarted(g: State, r: nat)
    requires Inv(g) && Enabled(g, PushCall(r))
    ensures var id := g.threads[r].phase.id; var g' := Next(g, PushCall(r));
            && id !in g.txns && id in g'.txns
            && g'.txns[id].from == Some(r) && g'.txns[id].fromParent == Top(StackOf(g, r)) && g'.txns[id].toProc == g.threads[r].phase.toProc
            && Busy(g', r) == Some(id) && g'.threads[r].phase.Sent? && g'.threads[r].phase.target == g.threads[r].phase.target
  {
    hide Inv, Within;
    PushedHere(g, r);
  }

  /** Among the calls that a new call is nested in, the nearest one that has a live sender in the
      target process. */
  ghost predicate Nearest(g: State, within: set<nat>, toProc: nat, w: nat) {
    && w in within && w in g.txns && IsFrom(g, w, toProc)
    && forall x :: x in within && x > w ==> x in g.txns && !IsFrom(g, x, toProc)
  }

  /** The thread chosen when a call is started is the sender of the nearest enclosing call from the
      target process, and none only if there is no such call. */
  lemma TargetExactly(g: State, r: nat, toProc: nat)
    requires Inv(g) && Enabled(g, StartCall(r, toProc))
    ensures var g' := Next(g, StartCall(r, toProc)); var within := Within(g.txns, StackOf(g, r));
            && r in g'.threads && g'.threads[r].phase.Sending?
            && var x := g'.threads[r].phase;
              && x.id == g.nextId && x.toProc == toProc
              && (x.target.Some? ==> exists w :: Nearest(g, within, toProc, w) && g.txns[w].from == x.target)
              && (x.target.None? ==> forall w :: w in within ==> w in g.txns && !IsFrom(g, w, toProc))
  {
    SenderIsQuiet(g, r, toProc);
    InvTables(g);
    hide Inv;
    var top := g.threads[r].stack;
    if top.Some? {
      if FindTarget(g, top, toProc).Some? {
        var w := FoundFirst(g, top.value, toProc);
        assert Nearest(g, Within(g.txns, StackOf(g, r)), toProc, w);
      } else {
        NobodyFound(g, top.value, toProc);
      }
    }
  }
}
