/** Making calls: the other branch of `binder_transaction`, and `binder_proc_transaction`. */
module CallSending {
  import opened Common
  import opened CallGraph
  import opened CallFrames
  import opened CallFailing
  import opened CallReading
  import opened CallReplies

  // ---------- the choice of the target thread ----------

  /** The loop that looks for a thread of the target process among the callers the sender
      is working for.  It ends because ids decrease along `from_parent`. */
  function FindTarget(g: State, cur: Option<nat>, toProc: nat): Option<nat>
    requires TxnsOk(g) && (cur.Some? ==> cur.value in g.txns)
    decreases if cur.None? then 0 else cur.value + 1
  {
    if cur.None? then None
    else
      assert TxnOk(g, cur.value);
      var x := g.txns[cur.value];
      if x.from.Some? && g.threads[x.from.value].proc == toProc then x.from
      else FindTarget(g, x.fromParent, toProc)
  }

  /** Call x has a live sender, a thread of process p. */
  predicate IsFrom(g: State, x: nat, p: nat)
    requires x in g.txns
  {
    g.txns[x].from.Some? && g.txns[x].from.value in g.threads && g.threads[g.txns[x].from.value].proc == p
  }

  /** The call at which the search stopped. */
  lemma {:induction false} FoundFirst(g: State, cur: nat, toProc: nat) returns (w: nat)
    requires TxnsOk(g) && cur in g.txns && FindTarget(g, Some(cur), toProc).Some?
    ensures var f := FindTarget(g, Some(cur), toProc);
            && w in g.txns[cur].above + {cur} && w in g.txns && g.txns[w].from == f
            && f.value in g.threads && g.threads[f.value].proc == toProc
            && forall x :: x in g.txns[cur].above + {cur} && x > w ==> x in g.txns && !IsFrom(g, x, toProc)
    decreases cur
  {
    assert TxnOk(g, cur);
    var x := g.txns[cur];
    if x.from.Some? && g.threads[x.from.value].proc == toProc {
      w := cur;
      forall y | y in x.above
        ensures y < cur
      {
        var c := ChildTowards(g, y, cur);
      }
    } else {
      w := FoundFirst(g, x.fromParent.value, toProc);
    }
  }

  /** When the search finds nobody, no enclosing call has a live sender in the target process. */
  lemma {:induction false} NobodyFound(g: State, cur: nat, toProc: nat)
    requires TxnsOk(g) && cur in g.txns && FindTarget(g, Some(cur), toProc).None?
    ensures forall w :: w in g.txns[cur].above + {cur} ==> w in g.txns && !IsFrom(g, w, toProc)
    decreases cur
  {
    assert TxnOk(g, cur);
    var x := g.txns[cur];
    if x.fromParent.Some? {
      NobodyFound(g, x.fromParent.value, toProc);
    }
  }

  /** A thread found by the search is waiting for the very call at which it was found, so
      nothing can have been pushed above it. */
  lemma FoundWaits(g: State, r: nat, toProc: nat)
    requires Inv(g) && Alive(g, r) && g.threads[r].chain != [] && g.threads[r].chain[0].In? && toProc != g.threads[r].proc
    requires g.threads[r].chain[0].id in g.txns
    requires FindTarget(g, Some(g.threads[r].chain[0].id), toProc).Some?
    ensures var l := g.threads[r].chain[0].id; var f := FindTarget(g, Some(l), toProc).value;
            && Alive(g, f) && g.threads[f].proc == toProc && g.threads[f].chain != [] && g.threads[f].chain[0].Out?
            && g.threads[f].chain[0].id in g.txns[l].above + {l}
  {
    var l := g.threads[r].chain[0].id;
    var w := FoundFirst(g, l, toProc);
    var f := g.txns[w].from.value;
    assert ThreadOk(g, r) && ThreadOk(g, f) && TxnOk(g, w);
    hide ThreadsOk, HistoryOk, FreshIds, ProcsOk, OneChild;
    TopInIsLeaf(g, r);
    var chain := g.threads[f].chain;
    assert LinkOk(g.txns, r, g.threads[r].chain[0], g.threads[r].chain[1..]);
    if chain[0] != Out(w) {
      AboveOut(g, f, chain, w);
      var y := chain[0].id;
      assert LinkOk(g.txns, f, chain[0], chain[1..]);
      var c := ChildTowards(g, w, y);
      Linear(g, w, l, y);
      if chain[0].In? {
        TopInIsLeaf(g, f);
        if y in g.txns[l].above {
          var d := ChildTowards(g, y, l);
        }
      }
    }
  }

  // ---------- checks and construction ----------

  /** No BINDER_WORK_TRANSACTION at the head of the sender's list. */
  predicate HeadAllows(todo: seq<Work>) {
    todo == [] || todo[0].Other? || todo[0].ReplyError?
  }

  /** The checks a new two-way call passes. */
  predicate CanSend(g: State, r: nat, toProc: nat) {
    && IsIdle(g, r) && toProc in g.procs && toProc != g.threads[r].proc
    && HeadAllows(g.threads[r].todo)
    && (g.threads[r].stack.Some? ==>
          g.threads[r].stack.value in g.txns && g.txns[g.threads[r].stack.value].toThread == Some(r))
  }

  /** The two checks leave only threads without any queued call and with a received call,
      or nothing, on top. */
  lemma SenderIsQuiet(g: State, r: nat, toProc: nat)
    requires Inv(g) && CanSend(g, r, toProc)
    ensures var th := g.threads[r];
            && NoCall(th.todo) && th.stack == Top(th.chain)
            && (th.chain == [] || (th.chain[0].In? && th.chain[0].id in g.txns && th.chain[0].id < g.nextId))
  {
    var th := g.threads[r];
    assert ThreadOk(g, r);
    if th.chain != [] {
      ReplyToTop(g, r);
      assert TxnOk(g, th.chain[0].id);
    }
  }

  function BeginSend(g: State, r: nat, toProc: nat): State
    requires Inv(g) && CanSend(g, r, toProc)
  {
    WithThread(g, r, g.threads[r].(phase := Sending(g.nextId, toProc, FindTarget(g, g.threads[r].stack, toProc)))).(nextId := g.nextId + 1)
  }

  lemma BegunThread(g: State, r: nat, toProc: nat)
    requires Inv(g) && CanSend(g, r, toProc)
    ensures ThreadOk(BeginSend(g, r, toProc), r)
  {
    hide Inv, FindTarget, TargetOk;
    SenderIsQuiet(g, r, toProc);
    InvThread(g, r);
    NextIdUnused(g);
    BegunTarget(g, r, toProc);
    assert BeginSend(g, r, toProc).txns == g.txns;
  }

  lemma BegunTarget(g: State, r: nat, toProc: nat)
    requires Inv(g) && CanSend(g, r, toProc)
    ensures TargetOk(BeginSend(g, r, toProc), toProc, FindTarget(g, g.threads[r].stack, toProc), Within(g.txns, g.threads[r].chain))
  {
    hide ThreadsOk, TxnsOk, ProcsOk, OneChild, HistoryOk, FreshIds;
    SenderIsQuiet(g, r, toProc);
    if g.threads[r].chain != [] && FindTarget(g, g.threads[r].stack, toProc).Some? {
      FoundWaits(g, r, toProc);
    }
  }

  lemma NextIdUnused(g: State)
    requires Inv(g)
    ensures g.nextId !in g.txns && g.nextId !in g.left && g.nextId !in g.freed
  {
    assert g.nextId in g.txns ==> TxnOk(g, g.nextId);
  }

  lemma BeginSendKeepsInv(g: State, r: nat, toProc: nat)
    requires Inv(g) && CanSend(g, r, toProc)
    ensures Inv(BeginSend(g, r, toProc))
  {
    var g' := BeginSend(g, r, toProc);
    assert LocalChange(g, g', r) by {
      forall s | s in g.threads && g.threads[s].phase.Sending?
        ensures g.threads[s].phase.id < g.nextId
      {
        SendingUnused(g, s);
      }
    }
    hide Inv, ThreadOk, LocalChange;
    BegunThread(g, r, toProc);
    LocalKeepsInv(g, g', r);
  }

  /** The request fails before the call is pushed. */
  function AbortSend(g: State, r: nat): State
    requires Inv(g) && Alive(g, r) && g.threads[r].phase.Sending?
  {
    WithThread(g, r, g.threads[r].(phase := Idle, todo := g.threads[r].todo + [Other]))
  }

  lemma AbortSendKeepsInv(g: State, r: nat)
    requires Inv(g) && Alive(g, r) && g.threads[r].phase.Sending?
    ensures Inv(AbortSend(g, r))
  {
    hide Inv;
    LocalStepKeepsInv(g, r, Idle, g.threads[r].todo + [Other]);
  }

  // ---------- pushing the call ----------

  predicate IsSending(g: State, r: nat) {
    Alive(g, r) && g.threads[r].phase.Sending?
  }

  /** The call goes on its sender's stack; the notice of completion is deferred. */
  function Push(g: State, r: nat): State
    requires Inv(g) && IsSending(g, r)
  {
    var th := g.threads[r];
    var id := th.phase.id;
    var x := Txn(Some(r), th.stack, th.phase.toProc, th.phase.target, None, Sender(r), Within(g.txns, th.chain));
    WithTxn(WithThread(g, r, th.(phase := Sent(id, th.phase.target), stack := Some(id), chain := [Out(id)] + th.chain, todo := th.todo + [Other])), id, x)
  }

  /** What is known of a call about to be pushed. */
  lemma PushedHere(g: State, r: nat)
    requires Inv(g) && IsSending(g, r)
    ensures var th := g.threads[r]; var id := th.phase.id;
            && id !in g.txns && id !in g.left && id !in g.freed && id < g.nextId && NoCall(th.todo)
            && th.stack == Top(th.chain)
            && th.phase.toProc in g.procs && th.phase.toProc != th.proc
            && (th.chain != [] ==>
                  && th.chain[0].In? && th.chain[0].id in g.txns && th.chain[0].id < id
                  && g.txns[th.chain[0].id].holder == Receiver(r) && IsLeaf(g.txns, th.chain[0].id))
            && TargetOk(g, th.phase.toProc, th.phase.target, Within(g.txns, th.chain))
  {
    var th := g.threads[r];
    assert ThreadOk(g, r);
    if th.chain != [] {
      assert LinkOk(g.txns, r, th.chain[0], th.chain[1..]);
      TopInIsLeaf(g, r);
    }
  }

  lemma {:induction false} ChainWithMore(txns: map<nat, Txn>, txns': map<nat, Txn>, r: nat, chain: seq<Link>)
    requires ChainOk(txns, r, chain)
    requires forall t :: t in txns ==> t in txns' && txns'[t] == txns[t]
    ensures ChainOk(txns', r, chain)
  {
    if chain != [] {
      ChainWithMore(txns, txns', r, chain[1..]);
      assert LinkOk(txns, r, chain[0], chain[1..]);
    }
  }

  lemma PushedThread(g: State, r: nat)
    requires Inv(g) && IsSending(g, r)
    ensures ThreadOk(Push(g, r), r)
  {
    hide Inv;
    var g' := Push(g, r);
    var th := g.threads[r];
    InvThread(g, r);
    PushedHere(g, r);
    ChainWithMore(g.txns, g'.txns, r, th.chain);
    assert g'.threads[r].chain[1..] == th.chain;
  }

  lemma PushedTxns(g: State, r: nat, u: nat)
    requires Inv(g) && IsSending(g, r) && u in g.txns
    ensures TxnOk(Push(g, r), u)
  {
    hide Inv;
    var g' := Push(g, r);
    InvTxn(g, u);
    PushedHere(g, r);
    assert g'.threads[r].chain[1..] == g.threads[r].chain;
    if g.txns[u].holder.Orphan? {
      KeepsChild(g.txns, g'.txns, u);
    }
    TxnFrame(g, g', u);
  }

  lemma PushedCall(g: State, r: nat)
    requires Inv(g) && IsSending(g, r)
    ensures TxnOk(Push(g, r), g.threads[r].phase.id)
  {
    hide Inv;
    var g' := Push(g, r);
    PushedHere(g, r);
    assert g'.threads[r].chain[0] == Out(g.threads[r].phase.id);
  }

  lemma PushedTables(g: State, r: nat)
    requires Inv(g) && IsSending(g, r)
    ensures var g' := Push(g, r); OneChild(g'.txns) && HistoryOk(g') && FreshIds(g')
  {
    hide Inv, TargetOk, ProcsOk;
    InvTables(g);
    PushedHere(g, r);
  }

  lemma PushedProcs(g: State, r: nat)
    requires Inv(g) && IsSending(g, r)
    ensures ProcsOk(Push(g, r))
  {
    hide Inv, TargetOk, OneChild, HistoryOk, FreshIds, TodoOk;
    InvTables(g);
    PushedHere(g, r);
    var g' := Push(g, r);
    forall p | p in g'.procs
      ensures TodoOk(g'.txns, g'.procs[p].todo, ProcTodo(p))
    {
      ProcFrame(g, g', p);
    }
  }

  lemma IdsDiffer(g: State, r: nat, s: nat)
    requires Inv(g) && IsSending(g, r) && s in g.threads && s != r
    ensures UnusedId(g, g.threads[s].phase) && (g.threads[s].phase.Sending? ==> g.threads[s].phase.id != g.threads[r].phase.id)
  {
    hide ThreadOk, TxnsOk, ProcsOk, OneChild, HistoryOk;
    SendingUnused(g, s);
  }

  lemma PushedOthers(g: State, r: nat, s: nat)
    requires Inv(g) && IsSending(g, r) && s in g.threads && s != r
    ensures ThreadOk(Push(g, r), s)
  {
    hide Inv, ThreadOk, ProcsOk, TargetOk;
    var g' := Push(g, r);
    IdsDiffer(g, r, s);
    InvThread(g, s);
    PushedHere(g, r);
    NotWaiting(g, r, s);
    OthersTargets(g, g', r, s);
    ThreadFrame(g, g', s);
  }

  lemma PushKeepsInv(g: State, r: nat)
    requires Inv(g) && IsSending(g, r)
    ensures Inv(Push(g, r))
  {
    hide ThreadOk, TxnOk, ProcsOk, OneChild, HistoryOk, FreshIds;
    var g' := Push(g, r);
    forall s | s in g'.threads
      ensures ThreadOk(g', s)
    {
      if s == r {
        PushedThread(g, r);
      } else {
        PushedOthers(g, r, s);
      }
    }
    forall u | u in g'.txns
      ensures TxnOk(g', u)
    {
      if u in g.txns {
        PushedTxns(g, r, u);
      } else {
        PushedCall(g, r);
      }
    }
    PushedTables(g, r);
    PushedProcs(g, r);
  }
}
