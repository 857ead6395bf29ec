/** Threads and processes going away: `binder_thread_release`, `binder_release_work` and the
    creation of threads and processes. */
module CallRelease {
  import opened Common
  import opened CallGraph
  import opened CallFrames
  import opened CallFailing
  import opened CallReading
  import opened CallReplies

  // ---------- a thread is released ----------

  /** What becomes of a transaction when thread r is released: r is taken out of both its
      ends, and the call on top of r's stack, if r received it, is to be failed. */
  function Detached(x: Txn, r: nat, isTop: bool): Txn {
    if x.holder == Receiver(r) then x.(toThread := None, holder := if isTop then Failing else Orphan)
    else if x.from == Some(r) then x.(from := None)
    else x
  }

  function Release(g: State, r: nat): State
    requires IsIdle(g, r)
  {
    var th := g.threads[r];
    g.(threads := g.threads[r := th.(dead := true, chain := [])],
       txns := map t | t in g.txns :: Detached(g.txns[t], r, th.stack == Some(t)),
       left := g.left + SentBy(g.txns, r))
  }

  /** The calls whose sender dies with r. */
  function SentBy(txns: map<nat, Txn>, r: nat): map<nat, Outcome> {
    map t | t in txns && txns[t].from == Some(r) && txns[t].holder != Receiver(r) :: SenderDied
  }

  /** Below the top of a stack every received call has a nested call. */
  lemma {:induction false} BelowTopHasChild(txns: map<nat, Txn>, r: nat, chain: seq<Link>, u: nat)
    requires ChainOk(txns, r, chain) && In(u) in chain && chain[0] != In(u)
    ensures !IsLeaf(txns, u)
  {
    assert In(u) in chain[1..];
    if chain[1] != In(u) {
      BelowTopHasChild(txns, r, chain[1..], u);
    } else {
      assert LinkOk(txns, r, chain[0], chain[1..]);
      assert txns[chain[0].id].fromParent == Some(u);
    }
  }

  /** The two ends of a transaction are different threads. */
  lemma EndsDiffer(g: State, t: nat)
    requires Inv(g) && t in g.txns && g.txns[t].holder.Receiver?
    ensures g.txns[t].from != Some(g.txns[t].holder.thread)
  {
    assert TxnOk(g, t);
  }

  lemma ReceivedHere(g: State, r: nat, u: nat)
    requires Inv(g) && Alive(g, r) && u in g.txns && g.txns[u].holder == Receiver(r)
    ensures g.threads[r].stack == Some(u) ==> IsLeaf(g.txns, u)
    ensures g.threads[r].stack != Some(u) ==> !IsLeaf(g.txns, u)
  {
    assert TxnOk(g, u) && ThreadOk(g, r);
    var chain := g.threads[r].chain;
    TopIsHighest(g.txns, r, chain, In(u));
    if chain[0] == In(u) {
      TopInIsLeaf(g, r);
    } else {
      BelowTopHasChild(g.txns, r, chain, u);
    }
  }

  lemma DetachedLinks(txns: map<nat, Txn>, r: nat, top: Option<nat>, u: nat)
    requires u in txns && ParentOk(txns, u) && (txns[u].holder == Receiver(r) ==> txns[u].from != Some(r))
    requires txns[u].fromParent.Some? && txns[txns[u].fromParent.value].holder == Receiver(r) ==> top != txns[u].fromParent
    ensures ParentOk(map t | t in txns :: Detached(txns[t], r, top == Some(t)), u)
  {
  }

  lemma DetachedParent(g: State, r: nat, u: nat)
    requires Inv(g) && IsIdle(g, r) && u in g.txns
    ensures ParentOk(Release(g, r).txns, u)
  {
    hide Inv, SenderOk, HolderOk;
    InvTxn(g, u);
    var x := g.txns[u];
    if x.holder.Receiver? {
      EndsDiffer(g, u);
    }
    if x.fromParent.Some? && g.txns[x.fromParent.value].holder == Receiver(r) {
      ReceivedHere(g, r, x.fromParent.value);
      assert !IsLeaf(g.txns, x.fromParent.value);
    }
    DetachedLinks(g.txns, r, g.threads[r].stack, u);
    hide ParentOk;
  }

  lemma DetachedHolder(g: State, r: nat, u: nat)
    requires Inv(g) && IsIdle(g, r) && u in g.txns
    ensures HolderOk(Release(g, r), u)
  {
    hide Inv, ParentOk, SenderOk;
    var g' := Release(g, r);
    InvTxn(g, u);
    if g.txns[u].holder == Receiver(r) {
      ReceivedHere(g, r, u);
    }
    if g'.txns[u].holder.Orphan? {
      KeepsChild(g.txns, g'.txns, u);
    }
  }

  lemma DetachedTxn(g: State, r: nat, u: nat)
    requires Inv(g) && IsIdle(g, r) && u in g.txns
    ensures TxnOk(Release(g, r), u)
  {
    hide Inv, ParentOk, HolderOk;
    InvTxn(g, u);
    DetachedParent(g, r, u);
    DetachedHolder(g, r, u);
    if g.txns[u].holder == Receiver(r) {
      EndsDiffer(g, u);
    }
  }

  lemma ReleasedThread(g: State, r: nat)
    requires IsIdle(g, r) && ThreadOk(g, r)
    ensures ThreadOk(Release(g, r), r)
  {
  }

  lemma BystanderThread(g: State, r: nat, s: nat)
    requires Inv(g) && IsIdle(g, r) && s in g.threads && s != r
    ensures ThreadOk(Release(g, r), s)
  {
    hide Inv, ThreadOk;
    var g' := Release(g, r);
    InvThread(g, s);
    SendingUnused(g, s);
    forall t | t in g.txns && Owner(g.txns[t].holder) == Some(s)
      ensures Keeps(g.txns[t], g'.txns[t], g'.threads)
    {
    }
    ThreadFrame(g, g', s);
  }

  lemma ReleasedTables(g: State, r: nat)
    requires Inv(g) && IsIdle(g, r)
    ensures var g' := Release(g, r); OneChild(g'.txns) && FreshIds(g')
  {
    hide ThreadsOk, TxnsOk, ProcsOk, HistoryOk;
  }

  lemma ReleasedHistory(g: State, r: nat)
    requires Inv(g) && IsIdle(g, r)
    ensures HistoryOk(Release(g, r))
  {
    hide ThreadsOk, OneChild, FreshIds, ProcsOk, TxnOk;
    forall t | t in g.txns
      ensures t < g.nextId && (g.txns[t].holder == Receiver(r) ==> g.txns[t].from != Some(r))
    {
      IdBounded(g, t);
      if g.txns[t].holder.Receiver? {
        EndsDiffer(g, t);
      }
    }
  }

  lemma ReleasedProcs(g: State, r: nat)
    requires Inv(g) && IsIdle(g, r)
    ensures ProcsOk(Release(g, r))
  {
    hide ThreadsOk, TxnsOk, OneChild, HistoryOk, FreshIds, TodoOk;
    var g' := Release(g, r);
    forall p | p in g'.procs
      ensures TodoOk(g'.txns, g'.procs[p].todo, ProcTodo(p))
    {
      ProcFrame(g, g', p);
    }
  }

  lemma ReleaseKeepsInv(g: State, r: nat)
    requires Inv(g) && IsIdle(g, r)
    ensures Inv(Release(g, r))
  {
    hide ThreadOk, TxnOk, ProcsOk, OneChild, HistoryOk, FreshIds;
    var g' := Release(g, r);
    forall s | s in g'.threads
      ensures ThreadOk(g', s)
    {
      if s == r {
        InvThread(g, r);
        ReleasedThread(g, r);
      } else {
        BystanderThread(g, r, s);
      }
    }
    forall u | u in g'.txns
      ensures TxnOk(g', u)
    {
      DetachedTxn(g, r, u);
    }
    ReleasedTables(g, r);
    ReleasedHistory(g, r);
    ReleasedProcs(g, r);
  }

  // ---------- lists of the dead are emptied ----------

  predicate CanDrainThread(g: State, r: nat) {
    r in g.threads && g.threads[r].dead && g.threads[r].todo != [] && g.threads[r].todo[0].Call?
  }

  function DrainThread(g: State, r: nat): State
    requires Inv(g) && CanDrainThread(g, r)
  {
    QueuedHere(g, r, 0);
    Held(LocalStep(g, r, g.threads[r].phase, g.threads[r].todo[1..]), g.threads[r].todo[0].id, Failing)
  }

  lemma DeadIsIdle(g: State, r: nat)
    requires Inv(g) && r in g.threads && g.threads[r].dead
    ensures g.threads[r].phase == Idle && g.threads[r].chain == []
  {
    assert ThreadOk(g, r);
  }

  lemma DrainedMove(g: State, r: nat)
    requires Inv(g) && CanDrainThread(g, r)
    ensures LocalMove(g, DrainThread(g, r), g.threads[r].todo[0].id, r)
  {
    hide Inv, ThreadOk;
    QueuedHere(g, r, 0);
    DeadIsIdle(g, r);
    var todo := g.threads[r].todo;
    assert todo == [todo[0]] + todo[1..];
  }

  lemma DrainedThread(g: State, g': State, r: nat)
    requires CanDrainThread(g, r) && ThreadOk(g, r) && LocalMove(g, g', g.threads[r].todo[0].id, r)
    requires g'.threads[r] == g.threads[r].(todo := g.threads[r].todo[1..])
    ensures ThreadOk(g', r)
  {
  }

  lemma DrainThreadKeepsInv(g: State, r: nat)
    requires Inv(g) && CanDrainThread(g, r)
    ensures Inv(DrainThread(g, r))
  {
    hide Inv, ThreadOk, LocalMove;
    var g' := DrainThread(g, r);
    InvThread(g, r);
    DrainedMove(g, r);
    DrainedThread(g, g', r);
    LocalMoveKeepsInv(g, g', g.threads[r].todo[0].id, r);
  }

  predicate CanDrainProc(g: State, p: nat) {
    p in g.procs && g.procs[p].dead && g.procs[p].todo != [] && g.procs[p].todo[0].Call?
  }

  function DrainProc(g: State, p: nat): State
    requires Inv(g) && CanDrainProc(g, p)
  {
    ProcHead(g, p);
    Held(WithoutHead(g, p), g.procs[p].todo[0].id, Failing)
  }

  lemma DrainProcKeepsInv(g: State, p: nat)
    requires Inv(g) && CanDrainProc(g, p)
    ensures Inv(DrainProc(g, p))
  {
    hide Inv, ThreadOk, ProcsOk;
    var g' := DrainProc(g, p);
    ProcHead(g, p);
    var t := g.procs[p].todo[0].id;
    assert Moves(g, g', t);
    InvTables(g);
    HeadProcs(g, g', p, t);
    SameChains(g, g');
    MoveKeepsInv(g, g', t, {});
  }

  // ---------- lists of processes without calls involved, new threads and processes ----------

  ghost predicate ProcsChange(g: State, g': State) {
    && g' == g.(procs := g'.procs) && g.procs.Keys <= g'.procs.Keys
    && (forall p :: p in g.procs ==> forall w :: w in g.procs[p].todo && w.Call? ==> w in g'.procs[p].todo)
  }

  lemma ProcsChangeKeepsInv(g: State, g': State)
    requires Inv(g) && ProcsChange(g, g') && ProcsOk(g')
    ensures Inv(g')
  {
    hide ThreadOk, TxnOk, OneChild, ProcsOk;
    SameChains(g, g');
    forall s | s in g'.threads
      ensures ThreadOk(g', s)
    {
      SendingUnused(g, s);
      ThreadFrame(g, g', s);
    }
    forall u | u in g'.txns
      ensures TxnOk(g', u)
    {
      ProcsChangeTxn(g, g', u);
    }
  }

  lemma ProcsChangeTxn(g: State, g': State, u: nat)
    requires u in g.txns && TxnOk(g, u) && ProcsChange(g, g')
    ensures TxnOk(g', u)
  {
    TxnFrame(g, g', u);
  }

  /** What may happen to a process without touching any call. */
  datatype ProcEvent = Created | Killed | OtherQueued(work: Work) | OtherTaken

  predicate CanChangeProc(g: State, p: nat, event: ProcEvent) {
    match event
    case Created => p !in g.procs
    case Killed => p in g.procs
    case OtherQueued(work) => p in g.procs && !work.Call? && !work.Reply? && !work.ReplyError?
    case OtherTaken => p in g.procs && g.procs[p].todo != [] && !g.procs[p].todo[0].Call?
  }

  function ChangeProc(g: State, p: nat, event: ProcEvent): State
    requires CanChangeProc(g, p, event)
  {
    match event
    case Created => g.(procs := g.procs[p := Proc(false, [])])
    case Killed => g.(procs := g.procs[p := g.procs[p].(dead := true)])
    case OtherQueued(work) => g.(procs := g.procs[p := g.procs[p].(todo := g.procs[p].todo + [work])])
    case OtherTaken => WithoutHead(g, p)
  }

  lemma ChangeProcKeepsInv(g: State, p: nat, event: ProcEvent)
    requires Inv(g) && CanChangeProc(g, p, event)
    ensures Inv(ChangeProc(g, p, event))
  {
    hide Inv;
    var g' := ChangeProc(g, p, event);
    InvTables(g);
    assert p in g.procs ==> TodoOk(g.txns, g.procs[p].todo, ProcTodo(p));
    ProcsChangeKeepsInv(g, g');
  }

  function NewThread(g: State, r: nat, p: nat): State {
    WithThread(g, r, Thread(p, false, Idle, None, [], [], false))
  }

  lemma NewIsQuiet(g: State, r: nat, p: nat)
    requires p in g.procs
    ensures ThreadOk(NewThread(g, r, p), r)
  {
    QuietThread(NewThread(g, r, p), r);
  }

  lemma NewThreadKeepsInv(g: State, r: nat, p: nat)
    requires Inv(g) && r !in g.threads && p in g.procs
    ensures Inv(NewThread(g, r, p))
  {
    hide ThreadOk, TxnOk, OneChild, TargetKept, TodoOk;
    var g' := NewThread(g, r, p);
    NewIsQuiet(g, r, p);
    forall s | s in g.threads
      ensures ThreadOk(g', s)
    {
      SendingUnused(g, s);
      assert TargetKept(g, g', s) by {
        SameChains(g, g');
      }
      ThreadFrame(g, g', s);
    }
    forall u | u in g'.txns
      ensures TxnOk(g', u)
    {
      NewThreadTxn(g, g', r, u);
    }
  }

  lemma NewThreadTxn(g: State, g': State, r: nat, u: nat)
    requires u in g.txns && TxnOk(g, u) && r !in g.threads && r in g'.threads && g' == g.(threads := g.threads[r := g'.threads[r]])
    ensures TxnOk(g', u)
  {
    TxnFrame(g, g', u);
  }
}
