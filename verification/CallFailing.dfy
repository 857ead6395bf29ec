/** How a call ends without an answer: `binder_pop_transaction_ilocked` and one iteration of
    `binder_send_failed_reply`.

    A BUG_ON of the code is an `assert` in the functions below: that they are well formed
    proves it unreachable in every state that satisfies the invariant. */
module CallFailing {
  import opened Common
  import opened CallGraph
  import opened CallFrames

  /** `binder_pop_transaction_ilocked` followed by freeing the call: it leaves its sender's
      stack, which happens to every call once. */
  function PopAndFree(g: State, s: nat, t: nat, how: Outcome, notice: seq<Work>): State
    requires Inv(g) && t in g.txns && g.txns[t].from == Some(s) && g.txns[t].holder.Failing?
  {
    HeldIsLeaf(g, t);
    LeafSilent(g, t, s);
    var th := g.threads[s];
    assert th.stack == Some(t);          // BUG_ON(target_thread->transaction_stack != t)
    assert g.txns[t].from == Some(s);    // BUG_ON(transaction_stack->from != target_thread)
    assert t !in g.left && t !in g.freed;
    g.(threads := g.threads[s := th.(stack := g.txns[t].fromParent, chain := th.chain[1..], todo := th.todo + notice)],
       txns := g.txns - {t},
       left := g.left[t := how],
       freed := g.freed + {t})
  }

  /** The stack below its top is well formed without the call on top. */
  lemma PoppedChain(txns: map<nat, Txn>, s: nat, t: nat, chain: seq<Link>)
    requires ChainOk(txns, s, chain) && chain != [] && chain[0] == Out(t)
    ensures ChainOk(txns - {t}, s, chain[1..]) && t in txns && txns[t].fromParent == Top(chain[1..])
  {
    assert LinkOk(txns, s, chain[0], chain[1..]);
    forall link | link in chain[1..]
      ensures link.id in txns && link.id < t
    {
      TopIsHighest(txns, s, chain[1..], link);
    }
    ChainSame(txns, txns - {t}, s, chain[1..]);
  }

  /** A thread that neither holds nor builds anything. */
  lemma QuietThread(g: State, r: nat)
    requires r in g.threads && !g.threads[r].dead && g.threads[r].proc in g.procs
    requires g.threads[r].stack == Top(g.threads[r].chain) && NoCall(g.threads[r].todo)
    requires g.threads[r].phase in {Idle, Reading(false)}
    requires ChainOk(g.txns, r, g.threads[r].chain)
    ensures ThreadOk(g, r)
  {
  }

  lemma PoppedThread(g: State, s: nat, t: nat, how: Outcome, notice: seq<Work>)
    requires Inv(g) && t in g.txns && g.txns[t].from == Some(s) && g.txns[t].holder.Failing? && NoCall(notice)
    ensures ThreadOk(PopAndFree(g, s, t, how, notice), s)
  {
    hide TxnOk, ProcsOk, OneChild, HistoryOk, FreshIds, QueuedOk, TodoOk;
    HeldIsLeaf(g, t);
    LeafSilent(g, t, s);
    assert ThreadOk(g, s);
    PoppedChain(g.txns, s, t, g.threads[s].chain);
    QuietThread(PopAndFree(g, s, t, how, notice), s);
  }

  lemma PoppedParent(g: State, g': State, t: nat, u: nat)
    requires TxnsOk(g) && t in g.txns && g.txns[t].holder.Failing? && g'.txns == g.txns - {t} && u in g'.txns
    ensures g.txns[u].fromParent.Some? ==>
              var p := g.txns[u].fromParent.value;
              p in g.txns && p in g'.txns && g'.txns[p] == g.txns[p]
  {
    assert TxnOk(g, u);
    HeldIsLeaf(g, t);
  }

  lemma PoppedTxn(g: State, g': State, s: nat, t: nat, u: nat)
    requires TxnsOk(g) && t in g.txns && g.txns[t].from == Some(s) && g.txns[t].holder.Failing?
    requires s in g.threads && g.threads[s].chain != [] && g.threads[s].chain[0] == Out(t) && NoCall(g.threads[s].todo)
    requires g.threads[s].phase in {Idle, Reading(false)}
    requires g'.txns == g.txns - {t} && Grows(g, g') && g'.procs == g.procs
    requires g'.threads == g.threads[s := g'.threads[s]] && g'.threads[s].chain == g.threads[s].chain[1..]
    requires u in g'.txns
    ensures TxnOk(g', u)
  {
    PoppedParent(g, g', t, u);
    assert TxnOk(g, u) && TxnOk(g, t);
    hide ParentOk;
    if g.txns[u].holder.Orphan? {
      KeepsChild(g.txns, g'.txns, u);
    }
    TxnFrame(g, g', u);
  }

  lemma PoppedThreads(g: State, s: nat, t: nat, how: Outcome, notice: seq<Work>)
    requires Inv(g) && t in g.txns && g.txns[t].from == Some(s) && g.txns[t].holder.Failing? && NoCall(notice)
    ensures ThreadsOk(PopAndFree(g, s, t, how, notice))
  {
    hide ThreadOk, TxnOk;
    var g' := PopAndFree(g, s, t, how, notice);
    HeldIsLeaf(g, t);
    LeafSilent(g, t, s);
    forall r | r in g'.threads
      ensures ThreadOk(g', r)
    {
      if r == s {
        PoppedThread(g, s, t, how, notice);
      } else {
        NobodyTargets(g, t, s, r);
        SendingUnused(g, r);
        ThreadFrame(g, g', r);
      }
    }
  }

  lemma PopKeepsInv(g: State, s: nat, t: nat, how: Outcome, notice: seq<Work>)
    requires Inv(g) && t in g.txns && g.txns[t].from == Some(s) && g.txns[t].holder.Failing? && NoCall(notice)
    ensures Inv(PopAndFree(g, s, t, how, notice))
  {
    hide ThreadOk, TxnOk;
    var g' := PopAndFree(g, s, t, how, notice);
    PoppedThreads(g, s, t, how, notice);
    HeldIsLeaf(g, t);
    LeafSilent(g, t, s);
    IdBounded(g, t);
    forall u | u in g'.txns
      ensures TxnOk(g', u)
    {
      PoppedTxn(g, g', s, t, u);
    }
  }

  // ---------- failing a call whose sender is gone ----------

  /** Freeing a call that nobody waits for any more; the call it is nested in is next. */
  function FreeAndClimb(g: State, t: nat): State
    requires Inv(g) && t in g.txns && g.txns[t].from.None? && g.txns[t].holder.Failing?
  {
    assert TxnOk(g, t);
    HeldIsLeaf(g, t);
    var g1 := g.(txns := g.txns - {t}, freed := g.freed + {t});
    if g.txns[t].fromParent.Some? then Held(g1, g.txns[t].fromParent.value, Failing) else g1
  }

  /** The table after a climb. */
  ghost predicate Climbs(g: State, g': State, t: nat) {
    && t in g.txns && g.txns[t].from.None? && IsLeaf(g.txns, t)
    && g' == g.(txns := g'.txns, freed := g.freed + {t})
    && g'.txns.Keys == g.txns.Keys - {t}
    && forall u :: u in g'.txns ==> g'.txns[u] == if g.txns[t].fromParent == Some(u) then g.txns[u].(holder := Failing) else g.txns[u]
  }

  /** Nobody but t is nested in what t is nested in. */
  lemma ClimbedParent(g: State, t: nat, u: nat)
    requires OneChild(g.txns) && t in g.txns && u in g.txns && u != t && g.txns[u].fromParent.Some?
    ensures g.txns[u].fromParent != g.txns[t].fromParent
  {
  }

  lemma ClimbedTxn(g: State, g': State, t: nat, u: nat)
    requires TxnsOk(g) && OneChild(g.txns) && Climbs(g, g', t) && u in g'.txns
    ensures TxnOk(g', u)
  {
    hide TxnOk, OneChild, IsLeaf;
    assert TxnOk(g, u);
    NotParent(g, t, u);
    if g.txns[u].fromParent.Some? {
      ClimbedParent(g, t, u);
    }
    if g.txns[t].fromParent != Some(u) {
      ClimbedOther(g, g', t, u);
    } else {
      ClimbedNext(g, g', t, u);
    }
  }

  lemma ClimbedNext(g: State, g': State, t: nat, u: nat)
    requires Climbs(g, g', t) && u in g'.txns && TxnOk(g, u) && g.txns[t].fromParent == Some(u)
    requires g.txns[u].fromParent.Some? ==> g.txns[u].fromParent != g.txns[t].fromParent && g.txns[u].fromParent != Some(t)
    ensures TxnOk(g', u)
  {
    hide IsLeaf;
  }

  lemma NotParent(g: State, t: nat, u: nat)
    requires t in g.txns && IsLeaf(g.txns, t) && u in g.txns
    ensures g.txns[u].fromParent != Some(t)
  {
  }

  lemma ClimbedOther(g: State, g': State, t: nat, u: nat)
    requires Climbs(g, g', t) && u in g'.txns && TxnOk(g, u) && g.txns[t].fromParent != Some(u)
    requires g.txns[u].fromParent.Some? ==> g.txns[u].fromParent != g.txns[t].fromParent
    ensures TxnOk(g', u)
  {
    if g.txns[u].holder.Orphan? {
      KeepsChild(g.txns, g'.txns, u);
    }
    if g.txns[u].fromParent.Some? {
      assert g.txns[u].fromParent != Some(t);
    }
    TxnFrame(g, g', u);
  }

  lemma ClimbedUndisturbed(g: State, g': State, t: nat, r: nat)
    requires TxnsOk(g) && Climbs(g, g', t) && g.txns[t].holder.Failing? && r in g.threads
    ensures Undisturbed(g, g', r)
  {
    assert TxnOk(g, t);
    hide TxnOk, IsLeaf;
  }

  lemma ClimbedThread(g: State, g': State, t: nat, r: nat)
    requires TxnsOk(g) && Climbs(g, g', t) && g.txns[t].holder.Failing? && r in g.threads && ThreadOk(g, r)
    ensures ThreadOk(g', r)
  {
    hide ThreadOk, Undisturbed, TxnsOk, TxnOk, IsLeaf;
    SendingUnused(g, r);
    ClimbedUndisturbed(g, g', t, r);
    ThreadFrame(g, g', r);
  }

  lemma ClimbKeepsInv(g: State, t: nat)
    requires Inv(g) && t in g.txns && g.txns[t].from.None? && g.txns[t].holder.Failing?
    ensures Inv(FreeAndClimb(g, t))
  {
    var g' := FreeAndClimb(g, t);
    assert TxnOk(g, t);
    hide ThreadOk, TxnOk;
    HeldIsLeaf(g, t);
    assert Climbs(g, g', t);
    forall r | r in g'.threads
      ensures ThreadOk(g', r)
    {
      ClimbedThread(g, g', t, r);
    }
    forall u | u in g'.txns
      ensures TxnOk(g', u)
    {
      ClimbedTxn(g, g', t, u);
    }
    ClimbKeepsProcs(g, g', t);
    ClimbKeepsTables(g, g', t);
  }

  lemma ClimbKeepsProcs(g: State, g': State, t: nat)
    requires TxnsOk(g) && ProcsOk(g) && Climbs(g, g', t) && g.txns[t].holder.Failing?
    ensures ProcsOk(g')
  {
    assert g.txns[t].fromParent.Some? ==> g.txns[g.txns[t].fromParent.value].holder == Orphan by {
      assert TxnOk(g, t);
    }
    hide TxnOk, TodoOk;
    forall p | p in g'.procs
      ensures TodoOk(g'.txns, g'.procs[p].todo, ProcTodo(p))
    {
      ProcFrame(g, g', p);
    }
  }

  lemma ClimbKeepsTables(g: State, g': State, t: nat)
    requires OneChild(g.txns) && HistoryOk(g) && FreshIds(g) && Climbs(g, g', t)
    ensures OneChild(g'.txns) && HistoryOk(g') && FreshIds(g')
  {
  }

  /** The caller is told of the failure, unless an earlier one has not been read to its end; then
      this one is dropped. */
  function ReportError(g: State, s: nat): State
    requires s in g.threads
  {
    var th := g.threads[s];
    if th.failed then g else WithThread(g, s, th.(todo := th.todo + [ReplyError], failed := true))
  }

  lemma ReportedThread(g: State, s: nat)
    requires s in g.threads && ThreadOk(g, s) && g.threads[s].phase in {Idle, Reading(false)}
    ensures ThreadOk(ReportError(g, s), s)
  {
  }

  lemma ReportErrorKeepsInv(g: State, s: nat)
    requires Inv(g) && s in g.threads && g.threads[s].phase in {Idle, Reading(false)}
    ensures Inv(ReportError(g, s))
  {
    hide ThreadOk, TxnsOk, ThreadsOk, OneChild, ProcsOk, HistoryOk;
    InvThread(g, s);
    ReportedThread(g, s);
    if !g.threads[s].failed {
      LocalKeepsInv(g, ReportError(g, s), s);
    }
  }

  /** One iteration of the loop in `binder_send_failed_reply`. */
  function FailOne(g: State, t: nat): State
    requires Inv(g) && t in g.txns && g.txns[t].holder.Failing?
  {
    hide Inv;
    match g.txns[t].from
    case Some(s) => SenderWaits(g, t, s); ReportError(PopAndFree(g, s, t, Failed, []), s)
    case None => FreeAndClimb(g, t)
  }

  lemma SenderWaits(g: State, t: nat, s: nat)
    requires Inv(g) && t in g.txns && g.txns[t].from == Some(s) && g.txns[t].holder.Failing?
    ensures s in g.threads && !g.threads[s].dead && g.threads[s].phase in {Idle, Reading(false)}
    ensures var g1 := PopAndFree(g, s, t, Failed, []);
            && g1.threads == g.threads[s := g1.threads[s]] && g1.threads[s].phase == g.threads[s].phase
            && g1.threads[s].failed == g.threads[s].failed && !g1.threads[s].dead && g1.threads[s].stack == g.txns[t].fromParent
            && g1.threads[s].todo == g.threads[s].todo
  {
    HeldIsLeaf(g, t);
    LeafSilent(g, t, s);
    hide Inv;
  }

  lemma FailKeepsInv(g: State, t: nat)
    requires Inv(g) && t in g.txns && g.txns[t].holder.Failing?
    ensures Inv(FailOne(g, t))
  {
    hide Inv, PopAndFree, ReportError, FreeAndClimb;
    match g.txns[t].from
    case Some(s) =>
      SenderWaits(g, t, s);
      PopKeepsInv(g, s, t, Failed, []);
      ReportErrorKeepsInv(PopAndFree(g, s, t, Failed, []), s);
    case None => ClimbKeepsInv(g, t);
  }
}
