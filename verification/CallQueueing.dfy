/** `binder_proc_transaction`: queueing a call that has been pushed, or refusing it because
    the target is dead. */
module CallQueueing {
  import opened Common
  import opened CallGraph
  import opened CallFrames
  import opened CallFailing
  import opened CallReading

  predicate IsSent(g: State, r: nat) {
    Alive(g, r) && g.threads[r].phase.Sent? && g.threads[r].phase.id in g.txns && g.txns[g.threads[r].phase.id].toProc in g.procs
  }

  lemma SentHere(g: State, r: nat)
    requires Inv(g) && Alive(g, r) && g.threads[r].phase.Sent?
    ensures IsSent(g, r)
    ensures var id := g.threads[r].phase.id;
            && id in g.txns && g.txns[id].holder == Sender(r) && g.txns[id].from == Some(r) && IsLeaf(g.txns, id)
            && SenderOk(g, id) && g.txns[id].toProc in g.procs && g.txns[id].toProc != g.threads[r].proc
            && TargetOk(g, g.txns[id].toProc, g.threads[r].phase.target, g.txns[id].above)
  {
    var id := g.threads[r].phase.id;
    assert ThreadOk(g, r) && TxnOk(g, id);
    HeldIsLeaf(g, id);
  }

  /** "target process or thread is dead" */
  predicate Refuses(g: State, r: nat)
    requires IsSent(g, r)
  {
    var target := g.threads[r].phase.target;
    || g.procs[g.txns[g.threads[r].phase.id].toProc].dead
    || (target.Some? && target.value in g.threads && g.threads[target.value].dead)
  }

  // ---------- refused ----------

  function Withdraw(g: State, r: nat): State
    requires Inv(g) && IsSent(g, r)
  {
    Held(LocalStep(g, r, Idle, g.threads[r].todo), g.threads[r].phase.id, Failing)
  }

  lemma WithdrawnMove(g: State, r: nat)
    requires Inv(g) && IsSent(g, r)
    ensures LocalMove(g, Withdraw(g, r), g.threads[r].phase.id, r)
  {
    hide Inv, ThreadOk, TargetOk;
    SentHere(g, r);
  }

  lemma WithdrawnThread(g: State, g': State, r: nat)
    requires IsSent(g, r) && ThreadOk(g, r) && LocalMove(g, g', g.threads[r].phase.id, r)
    requires g.txns[g.threads[r].phase.id].holder == Sender(r)
    requires g'.threads[r] == g.threads[r].(phase := Idle)
    ensures ThreadOk(g', r)
  {
    ChainMoved(g, g', g.threads[r].phase.id, r, g.threads[r].chain);
  }

  lemma WithdrawKeepsInv(g: State, r: nat)
    requires Inv(g) && IsSent(g, r)
    ensures Inv(Withdraw(g, r))
  {
    hide Inv, ThreadOk, LocalMove, TargetOk;
    var g' := Withdraw(g, r);
    SentHere(g, r);
    InvThread(g, r);
    WithdrawnMove(g, r);
    WithdrawnThread(g, g', r);
    LocalMoveKeepsInv(g, g', g.threads[r].phase.id, r);
  }

  /** The call is popped from its sender's stack again and freed. */
  function SubmitRefused(g: State, r: nat): State
    requires Inv(g) && IsSent(g, r)
  {
    SentHere(g, r);
    WithdrawKeepsInv(g, r);
    PopAndFree(Withdraw(g, r), r, g.threads[r].phase.id, Refused, [])
  }

  lemma SubmitRefusedKeepsInv(g: State, r: nat)
    requires Inv(g) && IsSent(g, r)
    ensures Inv(SubmitRefused(g, r))
  {
    hide Inv, TargetOk;
    SentHere(g, r);
    WithdrawKeepsInv(g, r);
    PopKeepsInv(Withdraw(g, r), r, g.threads[r].phase.id, Refused, []);
  }

  // ---------- queued to a thread ----------

  /** `binder_select_thread_ilocked`: a thread taken off waiting_threads. */
  predicate CanPick(g: State, toProc: nat, s: nat) {
    Alive(g, s) && g.threads[s].proc == toProc && g.threads[s].phase == Waiting(true)
  }

  /** The thread the call is queued to: the caller found before, or a waiting thread. */
  predicate IsDestination(g: State, r: nat, s: nat)
    requires IsSent(g, r)
  {
    var target := g.threads[r].phase.target;
    && Alive(g, s) && s != r
    && (target == Some(s) || (target.None? && CanPick(g, g.txns[g.threads[r].phase.id].toProc, s)))
  }

  function Woken(th: Thread, id: nat): Thread {
    th.(todo := th.todo + [Call(id)], phase := if th.phase == Waiting(true) then Waiting(false) else th.phase)
  }

  function SubmitToThread(g: State, r: nat, s: nat): State
    requires Inv(g) && IsSent(g, r) && IsDestination(g, r, s)
  {
    var id := g.threads[r].phase.id;
    var g1 := LocalStep(g, r, Idle, g.threads[r].todo);
    Held(WithThread(g1, s, Woken(g.threads[s], id)), id, ThreadTodo(s))
  }

  /** A destination has no other call to handle: a waiting thread's list is empty, and a
      thread chosen for a nested call is doing nothing but waiting. */
  lemma DestinationIsQuiet(g: State, r: nat, s: nat)
    requires Inv(g) && IsSent(g, r) && IsDestination(g, r, s)
    ensures var th := g.threads[s]; var id := g.threads[r].phase.id;
            && th.proc == g.txns[id].toProc && NoCall(th.todo) && Serves(th.chain, g.txns[id])
            && (if th.chain == [] then th.phase == Waiting(true) && th.todo == [] else th.phase in {Idle, Reading(false)})
  {
    SentHere(g, r);
    var id := g.threads[r].phase.id;
    var th := g.threads[s];
    assert ThreadOk(g, s);
    if th.chain != [] {
      var w := th.chain[0].id;
      assert w in g.txns[id].above;
      forall x | x in g.txns && IsLeaf(g.txns, x) && w in g.txns[x].above
        ensures x == id
      {
        LeafUnique(g, w, x, id);
      }
      forall i | 0 <= i < |th.todo|
        ensures !th.todo[i].Call?
      {
        if th.todo[i].Call? {
          HeldIsLeaf(g, th.todo[i].id);
        }
      }
      if th.phase.Delivering? || th.phase.Replying? || th.phase.Sent? {
        HeldIsLeaf(g, th.phase.id);
        var c := ChildTowards(g, w, id);
      }
    }
  }

  lemma WokenThread(g: State, g': State, s: nat, id: nat)
    requires s in g.threads && ThreadOk(g, s) && !g.threads[s].dead && Moves(g, g', id) && s in g'.threads
    requires !g.txns[id].holder.Receiver? && g'.txns[id].holder == ThreadTodo(s)
    requires var th := g.threads[s];
             && NoCall(th.todo) && Serves(th.chain, g.txns[id])
             && (if th.chain == [] then th.phase == Waiting(true) && th.todo == [] else th.phase in {Idle, Reading(false)})
    requires g'.threads[s] == Woken(g.threads[s], id)
    ensures ThreadOk(g', s)
  {
    ChainMoved(g, g', id, s, g.threads[s].chain);
  }

  lemma SubmittedSender(g: State, g': State, r: nat, id: nat)
    requires r in g.threads && ThreadOk(g, r) && g.threads[r].phase.Sent? && !g.threads[r].dead && Moves(g, g', id) && r in g'.threads
    requires g.txns[id].holder == Sender(r) && g'.threads[r] == g.threads[r].(phase := Idle)
    ensures ThreadOk(g', r)
  {
    ChainMoved(g, g', id, r, g.threads[r].chain);
    forall i | 0 <= i < |g.threads[r].todo| && g.threads[r].todo[i].Call?
      ensures g'.txns[g.threads[r].todo[i].id] == g.txns[g.threads[r].todo[i].id]
    {
    }
  }

  lemma SubmittedPlace(g: State, r: nat, s: nat)
    requires Inv(g) && IsSent(g, r) && IsDestination(g, r, s)
    ensures var g' := SubmitToThread(g, r, s); var id := g.threads[r].phase.id;
            && Moves(g, g', id) && SenderOk(g', id) && HolderOk(g', id)
            && Retains(g.threads[r], g'.threads[r], id) && Retains(g.threads[s], g'.threads[s], id)
  {
    hide Inv, ThreadOk, TargetOk;
    SentHere(g, r);
    DestinationIsQuiet(g, r, s);
  }

  lemma SubmitToThreadKeepsInv(g: State, r: nat, s: nat)
    requires Inv(g) && IsSent(g, r) && IsDestination(g, r, s)
    ensures Inv(SubmitToThread(g, r, s))
  {
    hide Inv, ThreadOk, TargetOk, ProcsOk, SenderOk, HolderOk;
    var g' := SubmitToThread(g, r, s);
    var id := g.threads[r].phase.id;
    SentHere(g, r);
    DestinationIsQuiet(g, r, s);
    SubmittedPlace(g, r, s);
    InvThread(g, r);
    InvThread(g, s);
    WokenThread(g, g', s, id);
    SubmittedSender(g, g', r, id);
    SameChains(g, g');
    MovedProcs(g, g', id);
    MoveKeepsInv(g, g', id, {r, s});
  }

  // ---------- queued to the process ----------

  function SubmitToProc(g: State, r: nat): State
    requires Inv(g) && IsSent(g, r)
  {
    var id := g.threads[r].phase.id;
    var p := g.txns[id].toProc;
    var g1 := LocalStep(g, r, Idle, g.threads[r].todo);
    Held(g1.(procs := g.procs[p := g.procs[p].(todo := g.procs[p].todo + [Call(id)])]), id, ProcTodo(p))
  }

  lemma TailProcs(g: State, g': State, p: nat, t: nat)
    requires ProcsOk(g) && Moves(g, g', t) && p in g.procs && g.txns[t].holder.Sender? && g'.txns[t].holder == ProcTodo(p)
    requires g'.procs == g.procs[p := g.procs[p].(todo := g.procs[p].todo + [Call(t)])]
    ensures ProcsOk(g')
    ensures forall q :: q in g.procs ==> forall w :: w in g.procs[q].todo && w.Call? && w.id != t ==> w in g'.procs[q].todo
    ensures Call(t) in g'.procs[p].todo
  {
    forall q | q in g'.procs
      ensures TodoOk(g'.txns, g'.procs[q].todo, ProcTodo(q))
    {
      assert TodoOk(g.txns, g.procs[q].todo, ProcTodo(q));
      if q != p {
        ProcFrame(g, g', q);
      }
    }
    var todo := g.procs[p].todo;
    assert (todo + [Call(t)])[|todo|] == Call(t);
  }

  lemma SubmitToProcKeepsInv(g: State, r: nat)
    requires Inv(g) && IsSent(g, r)
    ensures Inv(SubmitToProc(g, r))
  {
    hide Inv, ThreadOk, TargetOk, ProcsOk;
    var g' := SubmitToProc(g, r);
    var id := g.threads[r].phase.id;
    SentHere(g, r);
    InvThread(g, r);
    assert Moves(g, g', id);
    TailProcs(g, g', g.txns[id].toProc, id);
    SubmittedSender(g, g', r, id);
    SameChains(g, g');
    MoveKeepsInv(g, g', id, {r});
  }
}
