/** The two-way transactions of one binder context and the stacks of the threads that are
    busy with them.

    A thread has one `transaction_stack` pointer.  A call it sent is linked to the next
    entry by `from_parent`, a call it received by `to_parent`; the same transaction is on
    two stacks, its sender's and its receiver's.  Every state below is one between two
    lock-protected sections. */
module CallGraph {
  import opened Common

  /** An entry of a todo list: a two-way call, the answer to one, any other
      `BINDER_WORK_TRANSACTION` (a one-way transaction), the thread's `reply_error`, or work of
      another type. */
  datatype Work = Call(id: nat) | Reply(call: nat) | OtherTransaction | ReplyError | Other

  /** Where a two-way transaction is.  Exactly one place is responsible for it at any time. */
  datatype Holder =
    | Sender(thread: nat)      // pushed on the sender's stack, not queued yet
    | ThreadTodo(thread: nat)
    | ProcTodo(proc: nat)
    | Delivery(thread: nat)    // dequeued, being written to user space
    | Receiver(thread: nat)    // on the receiver's stack
    | Answer(thread: nat)      // off the receiver's stack, the reply is being built
    | Failing                  // about to be failed by whoever removed it
    | Orphan                   // its receiver died while waiting for a nested call

  function Owner(h: Holder): Option<nat> {
    match h
    case ProcTodo(_) => None
    case Failing => None
    case Orphan => None
    case _ => Some(h.thread)
  }

  /** `struct binder_transaction`.  `holder` and `above` are specification only: above holds
      all transactions reached by following fromParent. */
  datatype Txn = Txn(
    from: Option<nat>,
    fromParent: Option<nat>,
    toProc: nat,
    toThread: Option<nat>,
    toParent: Option<nat>,
    holder: Holder,
    above: set<nat>)

  /** What a thread is doing between two sections of a command. */
  datatype Phase =
    | Idle
    | Reading(procWork: bool)                               // in the loop of binder_thread_read
    | Waiting(listed: bool)                                 // asleep; listed: on waiting_threads
    | Delivering(id: nat, procWork: bool)
    | Sending(id: nat, toProc: nat, target: Option<nat>)    // checks passed, not pushed yet
    | Sent(id: nat, target: Option<nat>)                    // pushed, not queued yet
    | Replying(id: nat, caller: nat)

  /** One entry of a stack as the thread sees it. */
  datatype Link = In(id: nat) | Out(id: nat)

  /** `struct binder_thread`.  `chain` is specification only: the whole stack, top first.
      `failed`: `reply_error.cmd` is not BR_OK. */
  datatype Thread = Thread(proc: nat, dead: bool, phase: Phase, stack: Option<nat>, todo: seq<Work>, chain: seq<Link>, failed: bool)

  datatype Proc = Proc(dead: bool, todo: seq<Work>)

  datatype Outcome = Replied | Failed | SenderDied | Refused

  /** `left` and `freed` are history: how each call left its sender's stack, and which were
      freed. */
  datatype State = State(
    threads: map<nat, Thread>,
    procs: map<nat, Proc>,
    txns: map<nat, Txn>,
    nextId: nat,
    left: map<nat, Outcome>,
    freed: set<nat>)

  // ---------- well-formed states ----------

  function Top(chain: seq<Link>): Option<nat> {
    if chain == [] then None else Some(chain[0].id)
  }

  /** A thread with this stack may be handed t: it is idle, or it waits for a call that t
      is nested in. */
  predicate Serves(chain: seq<Link>, t: Txn) {
    chain == [] || (chain[0].Out? && chain[0].id in t.above)
  }

  ghost predicate LinkOk(txns: map<nat, Txn>, r: nat, link: Link, rest: seq<Link>) {
    && link.id in txns
    && (rest == [] || rest[0].id < link.id)
    && var t := txns[link.id];
      match link
      case In(_) => t.holder == Receiver(r) && t.toThread == Some(r) && t.toParent == Top(rest) && Serves(rest, t)
      case Out(_) => t.from == Some(r) && t.fromParent == Top(rest) && (rest == [] || rest[0].In?)
  }

  ghost predicate ChainOk(txns: map<nat, Txn>, r: nat, chain: seq<Link>) {
    chain == [] || (LinkOk(txns, r, chain[0], chain[1..]) && ChainOk(txns, r, chain[1..]))
  }

  predicate NoCall(todo: seq<Work>) {
    forall i :: 0 <= i < |todo| ==> !todo[i].Call?
  }

  ghost predicate TodoOk(txns: map<nat, Txn>, todo: seq<Work>, h: Holder) {
    && (forall i :: 0 <= i < |todo| && todo[i].Call? ==> todo[i].id in txns && txns[todo[i].id].holder == h)
    && (forall i, j :: 0 <= i < j < |todo| && todo[i].Call? && todo[j].Call? ==> todo[i].id != todo[j].id)
  }

  /** A call waits at the head of an idle thread's list, or is nested in what the thread
      waits for. */
  ghost predicate QueuedOk(txns: map<nat, Txn>, todo: seq<Work>, chain: seq<Link>) {
    forall i :: 0 <= i < |todo| && todo[i].Call? ==>
      todo[i].id in txns && Serves(chain, txns[todo[i].id]) && (chain == [] ==> i == 0)
  }

  /** The thread picked for a nested call is dead or waits for one of the calls in `within`. */
  ghost predicate TargetOk(g: State, toProc: nat, target: Option<nat>, within: set<nat>) {
    target.None? ||
    (&& target.value in g.threads
     && var f := g.threads[target.value];
       && f.proc == toProc
       && (f.dead || (f.chain != [] && f.chain[0].Out? && f.chain[0].id in within)))
  }

  /** The calls a new call of this thread is nested in. */
  function Within(txns: map<nat, Txn>, chain: seq<Link>): set<nat> {
    if chain == [] then {}
    else if chain[0].id in txns then txns[chain[0].id].above + {chain[0].id}
    else {}
  }

  ghost predicate PhaseOk(g: State, r: nat)
    requires r in g.threads
  {
    var th := g.threads[r];
    match th.phase
    case Idle => true
    case Reading(procWork) => procWork ==> th.chain == []
    case Waiting(listed) => th.chain == [] && (listed ==> th.todo == [])
    case Delivering(id, procWork) =>
      && id in g.txns && g.txns[id].holder == Delivery(r) && NoCall(th.todo)
      && Serves(th.chain, g.txns[id]) && (procWork ==> th.chain == [])
    case Sending(id, toProc, target) =>
      && NoCall(th.todo) && (th.chain == [] || th.chain[0].In?)
      && id !in g.txns && id !in g.left && id !in g.freed && id < g.nextId
      && (th.chain != [] ==> th.chain[0].id < id)
      && toProc != th.proc && toProc in g.procs && TargetOk(g, toProc, target, Within(g.txns, th.chain))
    case Sent(id, target) =>
      && th.chain != [] && th.chain[0] == Out(id)
      && id in g.txns && g.txns[id].holder == Sender(r)
      && TargetOk(g, g.txns[id].toProc, target, g.txns[id].above)
    case Replying(id, caller) =>
      && id in g.txns && g.txns[id].holder == Answer(r) && NoCall(th.todo)
      && Serves(th.chain, g.txns[id])
      && caller in g.threads
      && (g.txns[id].from == Some(caller) || (g.txns[id].from == None && g.threads[caller].dead))
  }

  ghost predicate ThreadOk(g: State, r: nat)
    requires r in g.threads
  {
    var th := g.threads[r];
    && th.proc in g.procs
    && (th.dead ==> th.chain == [] && th.phase == Idle)
    && (!th.dead ==> th.stack == Top(th.chain) && QueuedOk(g.txns, th.todo, th.chain))
    && ChainOk(g.txns, r, th.chain)
    && TodoOk(g.txns, th.todo, ThreadTodo(r))
    && PhaseOk(g, r)
  }

  ghost predicate ParentOk(txns: map<nat, Txn>, t: nat)
    requires t in txns
  {
    var x := txns[t];
    match x.fromParent
    case None => x.above == {}
    case Some(p) =>
      && p in txns && p < t
      && x.above == txns[p].above + {p}
      && txns[p].holder == if x.from == None then Orphan else Receiver(x.from.value)
  }

  ghost predicate IsLeaf(txns: map<nat, Txn>, t: nat) {
    forall c :: c in txns ==> txns[c].fromParent != Some(t)
  }

  ghost predicate HeldBy(g: State, t: nat, r: nat)
    requires t in g.txns
  {
    r in g.threads && g.threads[r].proc == g.txns[t].toProc
  }

  ghost predicate HolderOk(g: State, t: nat)
    requires t in g.txns
  {
    var x := g.txns[t];
    match x.holder
    case Sender(r) => x.from == Some(r) && r in g.threads && g.threads[r].phase.Sent? && g.threads[r].phase.id == t
    case ThreadTodo(r) => HeldBy(g, t, r) && Call(t) in g.threads[r].todo
    case ProcTodo(p) => p == x.toProc && p in g.procs && Call(t) in g.procs[p].todo
    case Delivery(r) => HeldBy(g, t, r) && g.threads[r].phase.Delivering? && g.threads[r].phase.id == t
    case Receiver(r) => HeldBy(g, t, r) && In(t) in g.threads[r].chain
    case Answer(r) => HeldBy(g, t, r) && g.threads[r].phase.Replying? && g.threads[r].phase.id == t
    case Failing => true
    case Orphan => !IsLeaf(g.txns, t)
  }

  ghost predicate SenderOk(g: State, t: nat)
    requires t in g.txns
  {
    var x := g.txns[t];
    && (x.from.Some? ==>
          && x.from.value in g.threads
          && Out(t) in g.threads[x.from.value].chain
          && g.threads[x.from.value].proc != x.toProc)
    && (x.toThread.Some? ==> x.toThread.value in g.threads && g.threads[x.toThread.value].proc == x.toProc)
  }

  ghost predicate TxnOk(g: State, t: nat)
    requires t in g.txns
  {
    && t < g.nextId
    && g.txns[t].toProc in g.procs
    && ParentOk(g.txns, t)
    && SenderOk(g, t)
    && HolderOk(g, t)
  }

  /** No transaction has two live nested calls. */
  ghost predicate OneChild(txns: map<nat, Txn>) {
    forall c, d :: c in txns && d in txns && txns[c].fromParent.Some? && txns[c].fromParent == txns[d].fromParent ==> c == d
  }

  /** A live call is on its sender's stack or has left it, a freed one is gone for good. */
  ghost predicate HistoryOk(g: State) {
    && (forall t :: t in g.txns ==> (g.txns[t].from == None <==> t in g.left))
    && (forall t :: t in g.freed ==> t in g.left && t !in g.txns)
    && (forall t :: t in g.left ==> t < g.nextId && (t in g.txns || t in g.freed))
  }

  ghost predicate FreshIds(g: State) {
    forall r, s :: r in g.threads && s in g.threads && r != s && g.threads[r].phase.Sending? && g.threads[s].phase.Sending?
      ==> g.threads[r].phase.id != g.threads[s].phase.id
  }

  ghost predicate ThreadsOk(g: State) {
    forall r :: r in g.threads ==> ThreadOk(g, r)
  }

  ghost predicate TxnsOk(g: State) {
    forall t :: t in g.txns ==> TxnOk(g, t)
  }

  ghost predicate ProcsOk(g: State) {
    forall p :: p in g.procs ==> TodoOk(g.txns, g.procs[p].todo, ProcTodo(p))
  }

  ghost predicate Inv(g: State) {
    && ThreadsOk(g)
    && TxnsOk(g)
    && ProcsOk(g)
    && OneChild(g.txns)
    && HistoryOk(g)
    && FreshIds(g)
  }

  // ---------- nesting ----------

  /** The step from w towards the call t nested in it. */
  lemma {:induction false} ChildTowards(g: State, w: nat, t: nat) returns (c: nat)
    requires TxnsOk(g) && t in g.txns && w in g.txns[t].above
    ensures w in g.txns && w < t && g.txns[w].above <= g.txns[t].above
    ensures c in g.txns && g.txns[c].fromParent == Some(w) && (c == t || c in g.txns[t].above)
    decreases t
  {
    assert TxnOk(g, t);
    var p := g.txns[t].fromParent.value;
    if p == w {
      c := t;
    } else {
      c := ChildTowards(g, w, p);
    }
  }

  /** Nested calls form a line: what is nested in w lies between w and the innermost call. */
  lemma {:induction false} Linear(g: State, w: nat, leaf: nat, x: nat)
    requires TxnsOk(g) && OneChild(g.txns)
    requires leaf in g.txns && w in g.txns[leaf].above && IsLeaf(g.txns, leaf)
    requires x in g.txns && w in g.txns[x].above
    ensures x == leaf || x in g.txns[leaf].above
    decreases leaf - w
  {
    var c := ChildTowards(g, w, leaf);
    var d := ChildTowards(g, w, x);
    assert c == d;
    if c != x {
      if c == leaf {
        var e := ChildTowards(g, leaf, x);
        assert false;
      } else {
        var below := ChildTowards(g, c, leaf);
        Linear(g, c, leaf, x);
      }
    }
  }

  lemma LeafUnique(g: State, w: nat, a: nat, b: nat)
    requires TxnsOk(g) && OneChild(g.txns)
    requires a in g.txns && b in g.txns && w in g.txns[a].above && w in g.txns[b].above
    requires IsLeaf(g.txns, a) && IsLeaf(g.txns, b)
    ensures a == b
  {
    Linear(g, w, a, b);
    if b in g.txns[a].above {
      var c := ChildTowards(g, b, a);
    }
  }

  /** Only a call on its receiver's stack, or an orphan, has a nested call. */
  lemma HeldIsLeaf(g: State, t: nat)
    requires TxnsOk(g) && t in g.txns && !g.txns[t].holder.Receiver? && !g.txns[t].holder.Orphan?
    ensures IsLeaf(g.txns, t)
  {
    forall c | c in g.txns
      ensures g.txns[c].fromParent != Some(t)
    {
      assert TxnOk(g, c);
    }
  }

  lemma {:induction false} TopIsHighest(txns: map<nat, Txn>, r: nat, chain: seq<Link>, link: Link)
    requires ChainOk(txns, r, chain) && link in chain
    ensures link.id in txns && link.id <= chain[0].id
    ensures link.id == chain[0].id ==> link == chain[0]
  {
    if link != chain[0] {
      assert link in chain[1..];
      TopIsHighest(txns, r, chain[1..], link);
    }
  }

  /** An incoming call on top of a stack has no nested call. */
  lemma TopInIsLeaf(g: State, r: nat)
    requires TxnsOk(g) && r in g.threads && ThreadOk(g, r) && g.threads[r].chain != [] && g.threads[r].chain[0].In?
    ensures IsLeaf(g.txns, g.threads[r].chain[0].id)
  {
    var t := g.threads[r].chain[0].id;
    assert LinkOk(g.txns, r, g.threads[r].chain[0], g.threads[r].chain[1..]);
    forall c | c in g.txns
      ensures g.txns[c].fromParent != Some(t)
    {
      if g.txns[c].fromParent == Some(t) {
        assert TxnOk(g, c);
        TopIsHighest(g.txns, r, g.threads[r].chain, Out(c));
      }
    }
  }

  /** An outgoing call without a nested call is on top of its sender's stack. */
  lemma {:induction false} OutLeafOnTop(g: State, s: nat, chain: seq<Link>, t: nat)
    requires TxnsOk(g) && ChainOk(g.txns, s, chain) && Out(t) in chain && IsLeaf(g.txns, t)
    ensures chain[0] == Out(t)
  {
    if chain[0] != Out(t) {
      assert Out(t) in chain[1..];
      OutLeafOnTop(g, s, chain[1..], t);
      assert chain[0].In? && t in g.txns[chain[0].id].above;
      var c := ChildTowards(g, t, chain[0].id);
      assert false;
    }
  }

  /** Whatever is above an outgoing call is nested in it. */
  lemma {:induction false} AboveOut(g: State, s: nat, chain: seq<Link>, w: nat)
    requires TxnsOk(g) && ChainOk(g.txns, s, chain) && Out(w) in chain && chain[0] != Out(w)
    ensures w in g.txns[chain[0].id].above
  {
    assert Out(w) in chain[1..];
    var rest := chain[1..];
    assert TxnOk(g, chain[0].id);
    if rest[0] != Out(w) {
      AboveOut(g, s, rest, w);
      if chain[0].In? {
        var c := ChildTowards(g, rest[0].id, chain[0].id);
      }
    }
  }

  // ---------- what a thread waiting for a call cannot be doing ----------

  /** The top of a live thread's stack is the call t, which has no nested call and is held
      by nobody on a stack: then no queued, delivered or answered call, and no other thread's
      choice of target, depends on t staying there. */
  lemma LeafSilent(g: State, t: nat, s: nat)
    requires Inv(g) && t in g.txns && g.txns[t].from == Some(s) && IsLeaf(g.txns, t)
    ensures s in g.threads && !g.threads[s].dead && g.threads[s].stack == Some(t) && g.threads[s].chain != [] && g.threads[s].chain[0] == Out(t)
    ensures NoCall(g.threads[s].todo)
    ensures g.threads[s].phase in {Idle, Reading(false)} || g.txns[t].holder == Sender(s)
  {
    assert TxnOk(g, t) && ThreadOk(g, s);
    OutLeafOnTop(g, s, g.threads[s].chain, t);
    forall x | x in g.txns
      ensures t !in g.txns[x].above
    {
      if t in g.txns[x].above {
        var c := ChildTowards(g, t, x);
      }
    }
  }

  lemma NobodyTargets(g: State, t: nat, s: nat, r: nat)
    requires Inv(g) && t in g.txns && g.txns[t].from == Some(s) && IsLeaf(g.txns, t)
    requires !g.txns[t].holder.Receiver?
    requires r in g.threads
    ensures g.threads[r].phase.Sending? || g.threads[r].phase.Sent? ==> g.threads[r].phase.target != Some(s)
  {
    assert ThreadOk(g, r);
    LeafSilent(g, t, s);
    forall x | x in g.txns
      ensures t !in g.txns[x].above
    {
      if t in g.txns[x].above {
        var c := ChildTowards(g, t, x);
      }
    }
  }

  lemma InvThread(g: State, r: nat)
    requires Inv(g) && r in g.threads
    ensures ThreadOk(g, r) && ProcsOk(g)
  {
  }

  lemma InvTxn(g: State, t: nat)
    requires Inv(g) && t in g.txns
    ensures TxnOk(g, t) && TxnsOk(g)
  {
  }

  lemma InvTables(g: State)
    requires Inv(g)
    ensures ProcsOk(g) && OneChild(g.txns) && HistoryOk(g) && FreshIds(g)
  {
  }
}
