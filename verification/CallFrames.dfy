/** What a step leaves alone: threads and calls that it does not concern stay well formed. */
module CallFrames {
  import opened Common
  import opened CallGraph

  function WithThread(g: State, r: nat, th: Thread): State {
    g.(threads := g.threads[r := th])
  }

  function WithTxn(g: State, t: nat, x: Txn): State {
    g.(txns := g.txns[t := x])
  }

  function Held(g: State, t: nat, h: Holder): State
    requires t in g.txns
  {
    WithTxn(g, t, g.txns[t].(holder := h))
  }

  ghost predicate Keeps(x: Txn, y: Txn, threads: map<nat, Thread>) {
    && y == x.(from := y.from)
    && (y.from == x.from || (y.from == None && x.from.Some? && x.from.value in threads && threads[x.from.value].dead))
  }

  /** What thread r holds or has sent is as before, up to senders that died. */
  ghost predicate Undisturbed(g: State, g': State, r: nat) {
    && (forall t :: t in g.txns && Owner(g.txns[t].holder) == Some(r) ==>
          t in g'.txns && Keeps(g.txns[t], g'.txns[t], g'.threads))
    && (forall t :: t in g.txns && g.txns[t].from == Some(r) ==>
          && t in g'.txns
          && g'.txns[t].from == Some(r) && g'.txns[t].fromParent == g.txns[t].fromParent && g'.txns[t].above == g.txns[t].above)
  }

  function TargetOf(th: Thread): Option<nat> {
    if th.phase.Sending? || th.phase.Sent? then th.phase.target else None
  }

  ghost predicate SameTop(g: State, g': State, f: nat)
    requires f in g.threads
  {
    && f in g'.threads && g'.threads[f].proc == g.threads[f].proc
    && (g'.threads[f].dead
        || g'.threads[f].chain == g.threads[f].chain
        || (g.threads[f].chain != [] && g'.threads[f].chain != [] && g'.threads[f].chain[0] == g.threads[f].chain[0]))
  }

  ghost predicate TargetKept(g: State, g': State, r: nat)
    requires r in g.threads
  {
    TargetOf(g.threads[r]).Some? ==>
      TargetOf(g.threads[r]).value in g.threads ==> SameTop(g, g', TargetOf(g.threads[r]).value)
  }

  ghost predicate Grows(g: State, g': State) {
    && g.procs.Keys <= g'.procs.Keys
    && g.threads.Keys <= g'.threads.Keys
    && g.nextId <= g'.nextId
    && (forall r :: r in g.threads ==> g'.threads[r].proc == g.threads[r].proc && (g.threads[r].dead ==> g'.threads[r].dead))
  }

  lemma {:induction false} ChainFrame(g: State, g': State, r: nat, chain: seq<Link>)
    requires ChainOk(g.txns, r, chain) && Undisturbed(g, g', r)
    ensures ChainOk(g'.txns, r, chain)
  {
    if chain != [] {
      ChainFrame(g, g', r, chain[1..]);
      assert LinkOk(g.txns, r, chain[0], chain[1..]);
      if chain[0].In? {
        assert Owner(g.txns[chain[0].id].holder) == Some(r);
      }
    }
  }

  lemma TodoFrame(g: State, g': State, r: nat, todo: seq<Work>)
    requires TodoOk(g.txns, todo, ThreadTodo(r)) && Undisturbed(g, g', r)
    ensures TodoOk(g'.txns, todo, ThreadTodo(r))
  {
    forall i | 0 <= i < |todo| && todo[i].Call?
      ensures todo[i].id in g'.txns && g'.txns[todo[i].id].holder == ThreadTodo(r)
    {
      assert Owner(g.txns[todo[i].id].holder) == Some(r);
    }
  }

  lemma QueuedFrame(g: State, g': State, r: nat, todo: seq<Work>, chain: seq<Link>)
    requires TodoOk(g.txns, todo, ThreadTodo(r)) && QueuedOk(g.txns, todo, chain) && Undisturbed(g, g', r)
    ensures QueuedOk(g'.txns, todo, chain)
  {
    forall i | 0 <= i < |todo| && todo[i].Call?
      ensures todo[i].id in g'.txns && Serves(chain, g'.txns[todo[i].id])
    {
      assert Owner(g.txns[todo[i].id].holder) == Some(r);
    }
  }

  lemma PhaseFrame(g: State, g': State, r: nat)
    requires r in g.threads && r in g'.threads && PhaseOk(g, r) && ChainOk(g.txns, r, g.threads[r].chain)
    requires g'.threads[r] == g.threads[r]
    requires Undisturbed(g, g', r) && Grows(g, g') && TargetKept(g, g', r)
    requires UnusedId(g', g.threads[r].phase)
    ensures PhaseOk(g', r)
  {
    var th := g.threads[r];
    if th.chain != [] {
      assert LinkOk(g.txns, r, th.chain[0], th.chain[1..]);
    }
    match th.phase
    case Idle =>
    case Reading(_) =>
    case Waiting(_) =>
    case Delivering(id, _) => assert Owner(g.txns[id].holder) == Some(r);
    case Sending(id, toProc, target) =>
      if th.chain != [] {
        assert Owner(g.txns[th.chain[0].id].holder) == Some(r);
      }
    case Sent(id, target) => assert Owner(g.txns[id].holder) == Some(r);
    case Replying(id, caller) => assert Owner(g.txns[id].holder) == Some(r);
  }

  /** The id of a call that is still being built is new. */
  ghost predicate UnusedId(g: State, phase: Phase) {
    phase.Sending? ==> phase.id !in g.txns && phase.id !in g.left && phase.id !in g.freed && phase.id < g.nextId
  }

  lemma SendingUnused(g: State, r: nat)
    requires r in g.threads && ThreadOk(g, r)
    ensures UnusedId(g, g.threads[r].phase)
  {
  }

  lemma IdBounded(g: State, t: nat)
    requires t in g.txns && TxnOk(g, t)
    ensures t < g.nextId
  {
  }

  /** A thread the step does not concern stays well formed. */
  lemma ThreadFrame(g: State, g': State, r: nat)
    requires r in g.threads && r in g'.threads && ThreadOk(g, r) && g'.threads[r] == g.threads[r]
    requires Undisturbed(g, g', r) && Grows(g, g') && TargetKept(g, g', r)
    requires UnusedId(g', g.threads[r].phase)
    ensures ThreadOk(g', r)
  {
    var th := g.threads[r];
    ChainFrame(g, g', r, th.chain);
    TodoFrame(g, g', r, th.todo);
    if !th.dead {
      QueuedFrame(g, g', r, th.todo, th.chain);
    }
    PhaseFrame(g, g', r);
  }

  /** The list of a process whose calls stay where they are. */
  lemma ProcFrame(g: State, g': State, p: nat)
    requires p in g.procs && TodoOk(g.txns, g.procs[p].todo, ProcTodo(p)) && p in g'.procs && g'.procs[p].todo == g.procs[p].todo
    requires forall t :: t in g.txns && g.txns[t].holder == ProcTodo(p) ==> t in g'.txns && g'.txns[t].holder == ProcTodo(p)
    ensures TodoOk(g'.txns, g'.procs[p].todo, ProcTodo(p))
  {
  }

  lemma KeepsChild(txns: map<nat, Txn>, txns': map<nat, Txn>, u: nat)
    requires !IsLeaf(txns, u)
    requires forall c :: c in txns && txns[c].fromParent == Some(u) ==> c in txns' && txns'[c].fromParent == Some(u)
    ensures !IsLeaf(txns', u)
  {
    var c :| c in txns && txns[c].fromParent == Some(u);
    assert c in txns';
  }

  /** A transaction the step does not concern stays well formed. */
  lemma TxnFrame(g: State, g': State, t: nat)
    requires t in g.txns && t in g'.txns && TxnOk(g, t) && g'.txns[t] == g.txns[t] && Grows(g, g')
    requires g.txns[t].fromParent.Some? ==>
               var p := g.txns[t].fromParent.value;
               p in g'.txns && g'.txns[p].above == g.txns[p].above && g'.txns[p].holder == g.txns[p].holder
    requires g.txns[t].from.Some? ==> Out(t) in g'.threads[g.txns[t].from.value].chain
    requires HolderOk(g', t)
    ensures TxnOk(g', t)
  {
  }

  lemma {:induction false} ChainSame(txns: map<nat, Txn>, txns': map<nat, Txn>, r: nat, chain: seq<Link>)
    requires ChainOk(txns, r, chain)
    requires forall link :: link in chain ==> link.id in txns' && link.id in txns && txns'[link.id] == txns[link.id]
    ensures ChainOk(txns', r, chain)
  {
    if chain != [] {
      ChainSame(txns, txns', r, chain[1..]);
      assert LinkOk(txns, r, chain[0], chain[1..]);
    }
  }

  // ---------- moving one call from holder to holder ----------

  /** Only the call t changes hands. */
  ghost predicate Moves(g: State, g': State, t: nat) {
    && t in g.txns && t in g'.txns && g'.txns == g.txns[t := g'.txns[t]]
    && g'.txns[t] == g.txns[t].(holder := g'.txns[t].holder, toThread := g'.txns[t].toThread, toParent := g'.txns[t].toParent)
    && IsLeaf(g.txns, t)
    && Grows(g, g') && g'.nextId == g.nextId && g'.left == g.left && g'.freed == g.freed
    && g'.threads.Keys == g.threads.Keys && g'.procs.Keys == g.procs.Keys
  }

  /** A call other than t is still where its holder says. */
  ghost predicate StillThere(g: State, g': State, u: nat)
    requires u in g.txns
  {
    && (g.txns[u].from.Some? ==> g.txns[u].from.value in g'.threads && Out(u) in g'.threads[g.txns[u].from.value].chain)
    && match g.txns[u].holder
      case Sender(r) => r in g'.threads && g'.threads[r].phase.Sent? && g'.threads[r].phase.id == u
      case ThreadTodo(r) => r in g'.threads && Call(u) in g'.threads[r].todo
      case ProcTodo(p) => p in g'.procs && Call(u) in g'.procs[p].todo
      case Delivery(r) => r in g'.threads && g'.threads[r].phase.Delivering? && g'.threads[r].phase.id == u
      case Receiver(r) => r in g'.threads && In(u) in g'.threads[r].chain
      case Answer(r) => r in g'.threads && g'.threads[r].phase.Replying? && g'.threads[r].phase.id == u
      case Failing => true
      case Orphan => true
  }

  lemma MovedTxn(g: State, g': State, t: nat, u: nat)
    requires TxnsOk(g) && Moves(g, g', t) && u in g.txns && u != t && StillThere(g, g', u)
    ensures TxnOk(g', u)
  {
    assert TxnOk(g, u);
    if g.txns[u].holder.Orphan? {
      KeepsChild(g.txns, g'.txns, u);
    }
    TxnFrame(g, g', u);
  }

  lemma MovedTxns(g: State, g': State, t: nat)
    requires TxnsOk(g) && Moves(g, g', t)
    requires forall u :: u in g.txns && u != t ==> StillThere(g, g', u)
    requires SenderOk(g', t) && HolderOk(g', t)
    ensures TxnsOk(g')
  {
    hide StillThere, SenderOk, HolderOk;
    assert TxnOk(g', t) by {
      assert TxnOk(g, t);
    }
    hide TxnOk;
    forall u | u in g'.txns
      ensures TxnOk(g', u)
    {
      if u != t {
        MovedTxn(g, g', t, u);
      }
    }
  }

  lemma MovedTables(g: State, g': State, t: nat)
    requires OneChild(g.txns) && HistoryOk(g) && FreshIds(g) && Moves(g, g', t)
    requires forall r :: r in g'.threads && g'.threads[r].phase.Sending? ==> g'.threads[r].phase == g.threads[r].phase
    ensures OneChild(g'.txns) && HistoryOk(g') && FreshIds(g')
  {
  }

  /** A thread that does not hold t is not disturbed by its move. */
  lemma MovedThread(g: State, g': State, t: nat, r: nat)
    requires Moves(g, g', t) && r in g.threads && r in g'.threads && ThreadOk(g, r) && g'.threads[r] == g.threads[r]
    requires Owner(g.txns[t].holder) != Some(r) && TargetKept(g, g', r)
    ensures ThreadOk(g', r)
  {
    hide ThreadOk;
    SendingUnused(g, r);
    ThreadFrame(g, g', r);
  }

  /** The thread still has everything it had, except for the call t. */
  ghost predicate Retains(th: Thread, th': Thread, t: nat) {
    && (forall l :: l in th.chain && l.id != t ==> l in th'.chain)
    && (forall w :: w in th.todo && w.Call? && w.id != t ==> w in th'.todo)
    && ((th.phase.Sent? || th.phase.Delivering? || th.phase.Replying?) && th.phase.id != t ==> th'.phase == th.phase)
    && (th'.phase.Sending? ==> th'.phase == th.phase)
  }

  lemma RetainedStill(g: State, g': State, t: nat, u: nat)
    requires TxnsOk(g) && Moves(g, g', t) && u in g.txns && u != t
    requires forall r :: r in g.threads ==> Retains(g.threads[r], g'.threads[r], t)
    requires forall p :: p in g.procs ==> forall w :: w in g.procs[p].todo && w.Call? && w.id != t ==> w in g'.procs[p].todo
    ensures StillThere(g, g', u)
  {
    assert TxnOk(g, u);
  }

  /** Handing one call on keeps the invariant when the threads involved stay well formed. */
  lemma MoveKeepsInv(g: State, g': State, t: nat, involved: set<nat>)
    requires Inv(g) && Moves(g, g', t)
    requires forall r :: r in g.threads ==> Retains(g.threads[r], g'.threads[r], t)
    requires forall r :: r in g.threads && r in involved ==> ThreadOk(g', r)
    requires forall r :: r in g.threads && r !in involved ==>
               g'.threads[r] == g.threads[r] && Owner(g.txns[t].holder) != Some(r) && TargetKept(g, g', r)
    requires forall p :: p in g.procs ==> forall w :: w in g.procs[p].todo && w.Call? && w.id != t ==> w in g'.procs[p].todo
    requires ProcsOk(g') && SenderOk(g', t) && HolderOk(g', t)
    ensures Inv(g')
  {
    hide ThreadOk, TxnOk, SenderOk, HolderOk, TargetKept, TodoOk;
    forall r | r in g'.threads
      ensures ThreadOk(g', r)
    {
      if r !in involved {
        MovedThread(g, g', t, r);
      }
    }
    forall u | u in g.txns && u != t
      ensures StillThere(g, g', u)
    {
      RetainedStill(g, g', t, u);
    }
    MovedTxns(g, g', t);
    MovedTables(g, g', t);
  }

  /** The lists of the processes when no call enters or leaves them. */
  lemma MovedProcs(g: State, g': State, t: nat)
    requires ProcsOk(g) && Moves(g, g', t) && g'.procs == g.procs && !g.txns[t].holder.ProcTodo?
    ensures ProcsOk(g')
  {
    hide TodoOk;
    forall p | p in g'.procs
      ensures TodoOk(g'.txns, g'.procs[p].todo, ProcTodo(p))
    {
      ProcFrame(g, g', p);
    }
  }

  /** Nothing changes for a thread whose target keeps its stack. */
  lemma SameChains(g: State, g': State)
    requires forall r :: r in g.threads ==> r in g'.threads && g'.threads[r].proc == g.threads[r].proc && g'.threads[r].chain == g.threads[r].chain
    ensures forall r :: r in g.threads ==> TargetKept(g, g', r)
  {
  }

  /** A stack does not notice that a call which it did not receive changes hands. */
  lemma {:induction false} ChainMoved(g: State, g': State, t: nat, r: nat, chain: seq<Link>)
    requires ChainOk(g.txns, r, chain) && Moves(g, g', t) && g.txns[t].holder != Receiver(r)
    ensures ChainOk(g'.txns, r, chain)
  {
    if chain != [] {
      ChainMoved(g, g', t, r, chain[1..]);
      assert LinkOk(g.txns, r, chain[0], chain[1..]);
    }
  }

  /** The call t moves between holders of which only thread r is a thread, and no stack
      changes. */
  ghost predicate LocalMove(g: State, g': State, t: nat, r: nat) {
    && Moves(g, g', t)
    && r in g.threads && g'.procs == g.procs
    && g'.threads == g.threads[r := g'.threads[r]]
    && g'.threads[r].chain == g.threads[r].chain && g'.threads[r].proc == g.threads[r].proc
    && Owner(g.txns[t].holder) == Some(r)
    && Retains(g.threads[r], g'.threads[r], t)
    && SenderOk(g', t) && HolderOk(g', t)
  }

  lemma LocalMoveKeepsInv(g: State, g': State, t: nat, r: nat)
    requires Inv(g) && LocalMove(g, g', t, r) && ThreadOk(g', r)
    ensures Inv(g')
  {
    hide ThreadOk, TxnOk, TodoOk, SenderOk, HolderOk, ProcsOk, OneChild, HistoryOk, FreshIds;
    SameChains(g, g');
    MovedProcs(g, g', t);
    MoveKeepsInv(g, g', t, {r});
  }

  // ---------- steps of one thread that hand no call on ----------

  /** Only thread r changes, and it keeps its stack, its calls and what it holds. */
  ghost predicate LocalChange(g: State, g': State, r: nat) {
    && r in g.threads && r in g'.threads
    && g' == g.(threads := g.threads[r := g'.threads[r]], nextId := g'.nextId) && g.nextId <= g'.nextId
    && g'.threads[r] == g.threads[r].(phase := g'.threads[r].phase, todo := g'.threads[r].todo, failed := g'.threads[r].failed)
    && (forall w :: w in g.threads[r].todo && w.Call? ==> w in g'.threads[r].todo)
    && (g.threads[r].phase.Sent? || g.threads[r].phase.Delivering? || g.threads[r].phase.Replying? ==>
          g'.threads[r].phase == g.threads[r].phase)
    && FreshIds(g')
  }

  lemma LocalTxn(g: State, g': State, r: nat, u: nat)
    requires LocalChange(g, g', r) && u in g.txns && TxnOk(g, u)
    ensures TxnOk(g', u)
  {
    hide FreshIds;
    TxnFrame(g, g', u);
  }

  lemma LocalKeepsInv(g: State, g': State, r: nat)
    requires Inv(g) && LocalChange(g, g', r) && ThreadOk(g', r)
    ensures Inv(g')
  {
    hide ThreadOk, TxnOk, TodoOk, OneChild, FreshIds;
    SameChains(g, g');
    forall s | s in g'.threads
      ensures ThreadOk(g', s)
    {
      if s != r {
        SendingUnused(g, s);
        ThreadFrame(g, g', s);
      }
    }
    forall u | u in g'.txns
      ensures TxnOk(g', u)
    {
      LocalTxn(g, g', r, u);
    }
  }

  /** A thread goes from one quiet phase to another and may gain work that is neither a call nor
      an answer, or drop from the head work that is not a call. */
  function LocalStep(g: State, r: nat, phase: Phase, todo: seq<Work>): State
    requires r in g.threads
  {
    WithThread(g, r, g.threads[r].(phase := phase, todo := todo))
  }

  ghost predicate QuietChange(th: Thread, phase: Phase, todo: seq<Work>) {
    && !th.phase.Sent? && !th.phase.Delivering? && !th.phase.Replying?
    && (todo == th.todo || (exists w: Work :: !w.Call? && !w.Reply? && !w.ReplyError? && todo == th.todo + [w]) || (th.todo != [] && !th.todo[0].Call? && todo == th.todo[1..]))
    && match phase
      case Idle => true
      case Reading(procWork) => !th.dead && (procWork ==> th.stack.None?)
      case Waiting(listed) => !th.dead && th.stack.None? && (listed ==> todo == [])
      case _ => false
  }

  lemma LocalStepThread(g: State, r: nat, phase: Phase, todo: seq<Work>)
    requires r in g.threads && ThreadOk(g, r) && QuietChange(g.threads[r], phase, todo)
    ensures ThreadOk(LocalStep(g, r, phase, todo), r)
  {
  }

  lemma LocalStepKeepsInv(g: State, r: nat, phase: Phase, todo: seq<Work>)
    requires Inv(g) && r in g.threads && QuietChange(g.threads[r], phase, todo)
    ensures Inv(LocalStep(g, r, phase, todo))
  {
    hide ThreadOk, TxnsOk, ThreadsOk, OneChild, ProcsOk, HistoryOk;
    var g' := LocalStep(g, r, phase, todo);
    assert forall w :: w in g.threads[r].todo && w.Call? ==> w in todo;
    assert LocalChange(g, g', r);
    InvThread(g, r);
    LocalStepThread(g, r, phase, todo);
    LocalKeepsInv(g, g', r);
  }

  /** The end of reading an error: with the item off the list and the code written to user space,
      the thread's `reply_error` is free for the next one.  No lock is held, so an error that
      comes between the two is dropped. */
  predicate CanTell(g: State, r: nat) {
    r in g.threads && g.threads[r].failed && ReplyError !in g.threads[r].todo
  }

  function TellError(g: State, r: nat): State
    requires CanTell(g, r)
  {
    WithThread(g, r, g.threads[r].(failed := false))
  }

  lemma TellErrorKeepsInv(g: State, r: nat)
    requires Inv(g) && CanTell(g, r)
    ensures Inv(TellError(g, r))
  {
    hide ThreadOk, TxnsOk, ThreadsOk, OneChild, ProcsOk, HistoryOk;
    var g' := TellError(g, r);
    InvThread(g, r);
    ToldThread(g, r);
    LocalKeepsInv(g, g', r);
  }

  lemma ToldThread(g: State, r: nat)
    requires CanTell(g, r) && ThreadOk(g, r)
    ensures ThreadOk(TellError(g, r), r)
  {
  }
}
