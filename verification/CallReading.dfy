/** Receiving calls: what `binder_thread_read` does with them. */
module CallReading {
  import opened Common
  import opened CallGraph
  import opened CallFrames
  import opened CallFailing

  predicate Alive(g: State, r: nat) {
    r in g.threads && !g.threads[r].dead
  }

  predicate IsIdle(g: State, r: nat) {
    Alive(g, r) && g.threads[r].phase.Idle?
  }

  /** What is known of a call on a thread's list. */
  lemma QueuedHere(g: State, r: nat, i: nat)
    requires Inv(g) && r in g.threads && i < |g.threads[r].todo| && g.threads[r].todo[i].Call?
    ensures var t := g.threads[r].todo[i].id;
            && t in g.txns && g.txns[t].holder == ThreadTodo(r) && IsLeaf(g.txns, t)
            && SenderOk(g, t) && HeldBy(g, t, r)
  {
    assert ThreadOk(g, r) && TxnOk(g, g.threads[r].todo[i].id);
    HeldIsLeaf(g, g.threads[r].todo[i].id);
  }

  /** Taking a call from the thread's own list. */
  predicate CanTakeOwn(g: State, r: nat) {
    Alive(g, r) && g.threads[r].phase.Reading? && g.threads[r].todo != [] && g.threads[r].todo[0].Call?
  }

  function TakeOwn(g: State, r: nat): State
    requires Inv(g) && CanTakeOwn(g, r)
  {
    assert ThreadOk(g, r);
    var th := g.threads[r];
    var t := th.todo[0].id;
    Held(WithThread(g, r, th.(phase := Delivering(t, th.phase.procWork), todo := th.todo[1..])), t, Delivery(r))
  }

  /** A live thread never has two calls on its list. */
  lemma OneCallQueued(g: State, r: nat, i: nat, j: nat)
    requires Inv(g) && Alive(g, r) && i < |g.threads[r].todo| && j < |g.threads[r].todo|
    requires g.threads[r].todo[i].Call? && g.threads[r].todo[j].Call?
    ensures i == j
  {
    assert ThreadOk(g, r);
    var th := g.threads[r];
    var a, b := th.todo[i].id, th.todo[j].id;
    HeldIsLeaf(g, a);
    HeldIsLeaf(g, b);
    if th.chain != [] {
      LeafUnique(g, th.chain[0].id, a, b);
    }
  }

  lemma TakenMove(g: State, r: nat)
    requires Inv(g) && CanTakeOwn(g, r)
    ensures LocalMove(g, TakeOwn(g, r), g.threads[r].todo[0].id, r)
  {
    hide Inv;
    QueuedHere(g, r, 0);
    var todo := g.threads[r].todo;
    assert todo == [todo[0]] + todo[1..];
  }

  lemma TakenThread(g: State, g': State, r: nat)
    requires CanTakeOwn(g, r) && ThreadOk(g, r) && LocalMove(g, g', g.threads[r].todo[0].id, r)
    requires var th := g.threads[r];
             && g'.threads[r] == th.(phase := Delivering(th.todo[0].id, th.phase.procWork), todo := th.todo[1..])
             && g'.txns[th.todo[0].id].holder == Delivery(r)
    requires NoCall(g.threads[r].todo[1..])
    ensures ThreadOk(g', r)
  {
    ChainMoved(g, g', g.threads[r].todo[0].id, r, g.threads[r].chain);
  }

  lemma NoSecondCall(g: State, r: nat)
    requires Inv(g) && CanTakeOwn(g, r)
    ensures NoCall(g.threads[r].todo[1..])
  {
    hide Inv;
    forall i | 0 <= i < |g.threads[r].todo| - 1
      ensures !g.threads[r].todo[1..][i].Call?
    {
      if g.threads[r].todo[i + 1].Call? {
        OneCallQueued(g, r, 0, i + 1);
      }
    }
  }

  lemma TakeOwnKeepsInv(g: State, r: nat)
    requires Inv(g) && CanTakeOwn(g, r)
    ensures Inv(TakeOwn(g, r))
  {
    var g' := TakeOwn(g, r);
    hide ThreadOk, TxnOk, ProcsOk, OneChild, HistoryOk, FreshIds, LocalMove;
    TakenMove(g, r);
    NoSecondCall(g, r);
    TakenThread(g, g', r);
    LocalMoveKeepsInv(g, g', g.threads[r].todo[0].id, r);
  }

  // ---------- from the list of the process ----------

  predicate CanTakeProc(g: State, r: nat) {
    && Alive(g, r) && g.threads[r].phase == Reading(true) && g.threads[r].todo == []
    && g.threads[r].proc in g.procs
    && g.procs[g.threads[r].proc].todo != [] && g.procs[g.threads[r].proc].todo[0].Call?
  }

  function WithoutHead(g: State, p: nat): State
    requires p in g.procs && g.procs[p].todo != []
  {
    g.(procs := g.procs[p := g.procs[p].(todo := g.procs[p].todo[1..])])
  }

  function TakeProc(g: State, r: nat): State
    requires Inv(g) && CanTakeProc(g, r)
  {
    var p := g.threads[r].proc;
    var t := g.procs[p].todo[0].id;
    assert TodoOk(g.txns, g.procs[p].todo, ProcTodo(p));
    Held(WithThread(WithoutHead(g, p), r, g.threads[r].(phase := Delivering(t, true))), t, Delivery(r))
  }

  lemma ProcHead(g: State, p: nat)
    requires Inv(g) && p in g.procs && g.procs[p].todo != [] && g.procs[p].todo[0].Call?
    ensures var t := g.procs[p].todo[0].id;
            && t in g.txns && g.txns[t].holder == ProcTodo(p) && g.txns[t].toProc == p && IsLeaf(g.txns, t) && SenderOk(g, t)
  {
    var t := g.procs[p].todo[0].id;
    assert TodoOk(g.txns, g.procs[p].todo, ProcTodo(p));
    assert TxnOk(g, t);
    HeldIsLeaf(g, t);
  }

  /** Dequeuing the head of a process list. */
  lemma HeadProcs(g: State, g': State, p: nat, t: nat)
    requires ProcsOk(g) && Moves(g, g', t) && p in g.procs && g.procs[p].todo != [] && g.procs[p].todo[0] == Call(t)
    requires g'.procs == WithoutHead(g, p).procs && g.txns[t].holder == ProcTodo(p)
    ensures ProcsOk(g')
    ensures forall q :: q in g.procs ==> forall w :: w in g.procs[q].todo && w.Call? && w.id != t ==> w in g'.procs[q].todo
  {
    forall q | q in g'.procs
      ensures TodoOk(g'.txns, g'.procs[q].todo, ProcTodo(q))
      ensures forall w :: w in g.procs[q].todo && w.Call? && w.id != t ==> w in g'.procs[q].todo
    {
      assert TodoOk(g.txns, g.procs[q].todo, ProcTodo(q));
      if q != p {
        ProcFrame(g, g', q);
      }
    }
  }

  lemma TakenFromProc(g: State, g': State, r: nat, t: nat)
    requires r in g.threads && ThreadOk(g, r) && g.threads[r].phase == Reading(true) && g.threads[r].todo == [] && !g.threads[r].dead
    requires r in g'.threads && g'.threads[r] == g.threads[r].(phase := Delivering(t, true))
    requires g.procs.Keys == g'.procs.Keys && t in g'.txns && g'.txns[t].holder == Delivery(r)
    ensures ThreadOk(g', r)
  {
  }

  lemma TakenProcPlace(g: State, g': State, r: nat, t: nat)
    requires Moves(g, g', t) && SenderOk(g, t) && r in g.threads && g.txns[t].toProc == g.threads[r].proc
    requires g'.threads == g.threads[r := g.threads[r].(phase := Delivering(t, true))]
    requires g'.txns[t] == g.txns[t].(holder := Delivery(r))
    ensures SenderOk(g', t) && HolderOk(g', t)
  {
  }

  lemma TakeProcKeepsInv(g: State, r: nat)
    requires Inv(g) && CanTakeProc(g, r)
    ensures Inv(TakeProc(g, r))
  {
    hide Inv, ThreadOk, TxnOk, ProcsOk, TodoOk, SenderOk, HolderOk, LocalMove;
    var g' := TakeProc(g, r);
    var p := g.threads[r].proc;
    InvThread(g, r);
    ProcHead(g, p);
    var t := g.procs[p].todo[0].id;
    assert Moves(g, g', t);
    assert SenderOk(g', t) && HolderOk(g', t) by {
      TakenProcPlace(g, g', r, t);
    }
    HeadProcs(g, g', p, t);
    TakenFromProc(g, g', r, t);
    SameChains(g, g');
    MoveKeepsInv(g, g', t, {r});
  }

  // ---------- delivery ----------

  predicate IsDelivering(g: State, r: nat) {
    Alive(g, r) && g.threads[r].phase.Delivering?
  }

  /** What is known of the call being delivered. */
  lemma DeliveredHere(g: State, r: nat)
    requires Inv(g) && IsDelivering(g, r)
    ensures var t := g.threads[r].phase.id;
            && t in g.txns && g.txns[t].holder == Delivery(r) && IsLeaf(g.txns, t) && SenderOk(g, t) && HeldBy(g, t, r)
            && Serves(g.threads[r].chain, g.txns[t])
            && (forall w :: w in g.txns[t].above ==> w < t)
  {
    var t := g.threads[r].phase.id;
    assert ThreadOk(g, r) && TxnOk(g, t);
    HeldIsLeaf(g, t);
    forall w | w in g.txns[t].above
      ensures w < t
    {
      var c := ChildTowards(g, w, t);
    }
  }

  /** Delivery fails: the descriptors cannot be installed or user memory faults. */
  function Refuse(g: State, r: nat): State
    requires Inv(g) && IsDelivering(g, r)
  {
    assert ThreadOk(g, r);
    var th := g.threads[r];
    Held(WithThread(g, r, th.(phase := Reading(th.phase.procWork))), th.phase.id, Failing)
  }

  lemma RefusedThread(g: State, g': State, r: nat)
    requires IsDelivering(g, r) && ThreadOk(g, r) && LocalMove(g, g', g.threads[r].phase.id, r)
    requires g'.threads[r] == g.threads[r].(phase := Reading(g.threads[r].phase.procWork))
    ensures ThreadOk(g', r)
  {
    ChainMoved(g, g', g.threads[r].phase.id, r, g.threads[r].chain);
  }

  lemma RefusedMove(g: State, r: nat)
    requires Inv(g) && IsDelivering(g, r)
    ensures LocalMove(g, Refuse(g, r), g.threads[r].phase.id, r)
  {
    hide Inv, ThreadOk;
    DeliveredHere(g, r);
  }

  lemma RefuseKeepsInv(g: State, r: nat)
    requires Inv(g) && IsDelivering(g, r)
    ensures Inv(Refuse(g, r))
  {
    hide Inv, ThreadOk, LocalMove;
    var g' := Refuse(g, r);
    InvThread(g, r);
    RefusedMove(g, r);
    RefusedThread(g, g', r);
    LocalMoveKeepsInv(g, g', g.threads[r].phase.id, r);
  }

  /** The call goes on the receiver's stack. */
  function Accept(g: State, r: nat): State
    requires Inv(g) && IsDelivering(g, r)
  {
    assert ThreadOk(g, r);
    var th := g.threads[r];
    var t := th.phase.id;
    var x := g.txns[t].(toParent := th.stack, toThread := Some(r), holder := Receiver(r));
    WithTxn(WithThread(g, r, th.(phase := Idle, stack := Some(t), chain := [In(t)] + th.chain)), t, x)
  }

  /** Nobody has chosen a thread that is busy with the innermost call as its target. */
  lemma BusyIsNoTarget(g: State, r: nat, t: nat, s: nat)
    requires Inv(g) && Alive(g, r) && t in g.txns && IsLeaf(g.txns, t) && s in g.threads
    requires Serves(g.threads[r].chain, g.txns[t]) && !g.txns[t].holder.Receiver? && !g.txns[t].holder.Sender?
    ensures TargetOf(g.threads[s]) != Some(r)
  {
    assert ThreadOk(g, s);
    if TargetOf(g.threads[s]) == Some(r) {
      var chain := g.threads[s].chain;
      var l := chain[0].id;
      var w := g.threads[r].chain[0].id;
      var c := ChildTowards(g, w, t);
      if g.threads[s].phase.Sending? {
        TopInIsLeaf(g, s);
      } else {
        HeldIsLeaf(g, l);
      }
      assert w in g.txns[l].above;
      LeafUnique(g, w, l, t);
    }
  }

  lemma AcceptedThread(g: State, g': State, r: nat)
    requires IsDelivering(g, r) && ThreadOk(g, r) && Moves(g, g', g.threads[r].phase.id)
    requires forall w :: w in g.txns[g.threads[r].phase.id].above ==> w < g.threads[r].phase.id
    requires var th := g.threads[r]; var t := th.phase.id;
             && r in g'.threads && g'.threads[r] == th.(phase := Idle, stack := Some(t), chain := [In(t)] + th.chain)
             && g'.txns[t] == g.txns[t].(toParent := th.stack, toThread := Some(r), holder := Receiver(r))
    ensures ThreadOk(g', r)
  {
    var th := g.threads[r];
    ChainMoved(g, g', th.phase.id, r, th.chain);
    assert g'.threads[r].chain[1..] == th.chain;
  }

  lemma AcceptedPlace(g: State, g': State, r: nat)
    requires IsDelivering(g, r) && g.threads[r].phase.id in g.txns && g.threads[r].proc == g.txns[g.threads[r].phase.id].toProc
    requires IsLeaf(g.txns, g.threads[r].phase.id) && SenderOk(g, g.threads[r].phase.id)
    requires var th := g.threads[r]; var t := th.phase.id;
             g' == WithTxn(WithThread(g, r, th.(phase := Idle, stack := Some(t), chain := [In(t)] + th.chain)), t,
                           g.txns[t].(toParent := th.stack, toThread := Some(r), holder := Receiver(r)))
    ensures var t := g.threads[r].phase.id;
            Moves(g, g', t) && SenderOk(g', t) && HolderOk(g', t) && Retains(g.threads[r], g'.threads[r], t)
  {
    assert g'.threads[r].chain[0] == In(g.threads[r].phase.id);
    assert g'.threads[r].chain[1..] == g.threads[r].chain;
  }

  /** When only the stack of r changes, a thread that has not chosen r is not affected. */
  lemma OthersTargets(g: State, g': State, r: nat, s: nat)
    requires r in g.threads && s in g.threads && r in g'.threads && g'.threads == g.threads[r := g'.threads[r]] && TargetOf(g.threads[s]) != Some(r)
    ensures TargetKept(g, g', s)
  {
  }

  lemma AcceptKeepsInv(g: State, r: nat)
    requires Inv(g) && IsDelivering(g, r)
    ensures Inv(Accept(g, r))
  {
    hide Inv, ThreadOk, ProcsOk, TargetKept, SenderOk, HolderOk;
    var g' := Accept(g, r);
    var t := g.threads[r].phase.id;
    InvThread(g, r);
    DeliveredHere(g, r);
    AcceptedPlace(g, g', r);
    AcceptedThread(g, g', r);
    forall s | s in g.threads && s != r
      ensures TargetKept(g, g', s)
    {
      BusyIsNoTarget(g, r, t, s);
      OthersTargets(g, g', r, s);
    }
    MovedProcs(g, g', t);
    MoveKeepsInv(g, g', t, {r});
  }
}
