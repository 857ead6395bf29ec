/** Answering calls: the reply branch of `binder_transaction`. */
module CallReplies {
  import opened Common
  import opened CallGraph
  import opened CallFrames
  import opened CallFailing
  import opened CallReading

  /** The two checks of a BC_REPLY: there is a stack, and its top is a call this thread
      received. */
  predicate CanReply(g: State, r: nat) {
    && IsIdle(g, r) && g.threads[r].stack.Some?
    && g.threads[r].stack.value in g.txns
    && g.txns[g.threads[r].stack.value].toThread == Some(r)
  }

  /** The check on `to_thread` tells received calls from sent ones. */
  lemma ReplyToTop(g: State, r: nat)
    requires Inv(g) && CanReply(g, r)
    ensures var th := g.threads[r]; var t := th.stack.value;
            && th.chain != [] && th.chain[0] == In(t) && g.txns[t].holder == Receiver(r)
            && IsLeaf(g.txns, t) && SenderOk(g, t) && HeldBy(g, t, r)
            && g.txns[t].toParent == Top(th.chain[1..]) && Serves(th.chain[1..], g.txns[t])
            && NoCall(th.todo)
  {
    var th := g.threads[r];
    var t := th.stack.value;
    assert ThreadOk(g, r) && TxnOk(g, t);
    assert LinkOk(g.txns, r, th.chain[0], th.chain[1..]);
    TopInIsLeaf(g, r);
  }

  /** A stack pointer never dangles. */
  lemma StackIsLive(g: State, r: nat)
    requires Inv(g) && Alive(g, r) && g.threads[r].stack.Some?
    ensures g.threads[r].stack.value in g.txns
  {
    assert ThreadOk(g, r);
    assert LinkOk(g.txns, r, g.threads[r].chain[0], g.threads[r].chain[1..]);
  }

  /** The caller of a received call waits with exactly that call on top of its stack: the
      error "reply transaction with bad target transaction stack" cannot happen. */
  lemma CallerWaits(g: State, t: nat, s: nat)
    requires Inv(g) && t in g.txns && g.txns[t].from == Some(s) && IsLeaf(g.txns, t)
    ensures s in g.threads && g.threads[s].stack == Some(t)
  {
    LeafSilent(g, t, s);
  }

  /** Taking the call off the receiver's stack and looking for the caller. */
  function BeginReply(g: State, r: nat): State
    requires Inv(g) && CanReply(g, r)
  {
    ReplyToTop(g, r);
    var th := g.threads[r];
    var t := th.stack.value;
    var popped := th.(stack := g.txns[t].toParent, chain := th.chain[1..]);
    match g.txns[t].from
    case None => Held(WithThread(g, r, popped), t, Failing)
    case Some(s) =>
      CallerWaits(g, t, s);
      assert g.threads[s].stack == Some(t);  // else "bad target transaction stack"
      Held(WithThread(g, r, popped.(phase := Replying(t, s))), t, Answer(r))
  }

  lemma AnsweredThread(g: State, g': State, r: nat, t: nat)
    requires r in g.threads && ThreadOk(g, r) && !g.threads[r].dead && Moves(g, g', t) && r in g'.threads
    requires g.threads[r].chain != [] && g.threads[r].chain[0] == In(t) && NoCall(g.threads[r].todo)
    requires Serves(g.threads[r].chain[1..], g.txns[t]) && g.txns[t].toParent == Top(g.threads[r].chain[1..])
    requires g'.threads[r] == g.threads[r].(stack := g.txns[t].toParent, chain := g.threads[r].chain[1..], phase := g'.threads[r].phase)
    requires g'.threads[r].phase == Idle
             || (g.txns[t].from.Some? && g.txns[t].from.value in g'.threads && g'.txns[t].holder == Answer(r)
                 && g'.threads[r].phase == Replying(t, g.txns[t].from.value))
    ensures ThreadOk(g', r)
  {
    var rest := g.threads[r].chain[1..];
    assert LinkOk(g.txns, r, g.threads[r].chain[0], rest);
    forall link | link in rest
      ensures link.id in g.txns && link.id < t
    {
      TopIsHighest(g.txns, r, rest, link);
    }
    ChainSame(g.txns, g'.txns, r, rest);
  }

  lemma AnsweredMoves(g: State, r: nat)
    requires Inv(g) && CanReply(g, r)
    ensures Moves(g, BeginReply(g, r), g.threads[r].stack.value)
  {
    hide Inv, ThreadOk, TxnOk;
    ReplyToTop(g, r);
    hide IsLeaf, SenderOk, HeldBy, Serves;
    var th := g.threads[r];
    assert th.chain == [th.chain[0]] + th.chain[1..];
  }

  lemma AnsweredHolder(g: State, r: nat)
    requires Inv(g) && CanReply(g, r)
    ensures var t := g.threads[r].stack.value; t in BeginReply(g, r).txns && HolderOk(BeginReply(g, r), t)
  {
    hide Inv, ThreadOk, TxnOk;
    ReplyToTop(g, r);
    hide IsLeaf, SenderOk, Serves;
    var th := g.threads[r];
    assert th.chain == [th.chain[0]] + th.chain[1..];
  }

  lemma AnsweredSender(g: State, r: nat)
    requires Inv(g) && CanReply(g, r)
    ensures var g' := BeginReply(g, r); var t := g.threads[r].stack.value;
            t in g'.txns && r in g'.threads && SenderOk(g', t) && Retains(g.threads[r], g'.threads[r], t)
  {
    hide Inv, ThreadOk, TxnOk;
    ReplyToTop(g, r);
    hide IsLeaf, HeldBy, Serves;
    var th := g.threads[r];
    assert th.chain == [th.chain[0]] + th.chain[1..];
    assert g.txns[th.stack.value].from.Some? ==> g.txns[th.stack.value].from.value != r;
  }

  lemma AnsweredPlace(g: State, r: nat)
    requires Inv(g) && CanReply(g, r)
    ensures var g' := BeginReply(g, r); var t := g.threads[r].stack.value;
            Moves(g, g', t) && SenderOk(g', t) && HolderOk(g', t) && Retains(g.threads[r], g'.threads[r], t)
  {
    hide Inv, ThreadOk, TxnOk, Moves, SenderOk, HolderOk, Retains, CanReply;
    AnsweredMoves(g, r);
    AnsweredHolder(g, r);
    AnsweredSender(g, r);
  }

  lemma BeginReplyKeepsInv(g: State, r: nat)
    requires Inv(g) && CanReply(g, r)
    ensures Inv(BeginReply(g, r))
  {
    hide Inv, ThreadOk, TxnOk, SenderOk, HolderOk, ProcsOk, TargetKept;
    var g' := BeginReply(g, r);
    var t := g.threads[r].stack.value;
    ReplyToTop(g, r);
    AnsweredPlace(g, r);
    InvThread(g, r);
    assert g.txns[t].from.Some? ==> g.txns[t].from.value in g.threads by {
      CallersExist(g, t);
    }
    AnsweredThread(g, g', r, t);
    forall s | s in g.threads && s != r
      ensures TargetKept(g, g', s)
    {
      NotWaiting(g, r, s);
      OthersTargets(g, g', r, s);
    }
    MovedProcs(g, g', t);
    MoveKeepsInv(g, g', t, {r});
  }

  lemma CallersExist(g: State, t: nat)
    requires t in g.txns && SenderOk(g, t)
    ensures g.txns[t].from.Some? ==> g.txns[t].from.value in g.threads
  {
  }

  /** A live thread whose top is not an outgoing call is nobody's target. */
  lemma NotWaiting(g: State, r: nat, s: nat)
    requires Inv(g) && Alive(g, r) && s in g.threads
    requires g.threads[r].chain == [] || g.threads[r].chain[0].In?
    ensures TargetOf(g.threads[s]) != Some(r)
  {
    assert ThreadOk(g, s);
  }

  predicate IsReplying(g: State, r: nat) {
    Alive(g, r) && g.threads[r].phase.Replying?
  }

  lemma RepliedHere(g: State, r: nat)
    requires Inv(g) && IsReplying(g, r)
    ensures var t := g.threads[r].phase.id; var s := g.threads[r].phase.caller;
            && t in g.txns && g.txns[t].holder == Answer(r) && IsLeaf(g.txns, t) && SenderOk(g, t) && s in g.threads
            && NoCall(g.threads[r].todo)
            && (g.txns[t].from == Some(s) || (g.txns[t].from == None && g.threads[s].dead))
            && (g.threads[s].dead ==> g.txns[t].from == None)
  {
    var t := g.threads[r].phase.id;
    assert ThreadOk(g, r) && TxnOk(g, t);
    HeldIsLeaf(g, t);
    assert ThreadOk(g, g.threads[r].phase.caller);
  }

  /** The reply cannot be built, or its target has died meanwhile: `in_reply_to` will be
      failed. */
  function DropReply(g: State, r: nat): State
    requires Inv(g) && IsReplying(g, r)
  {
    RepliedHere(g, r);
    Held(WithThread(g, r, g.threads[r].(phase := Idle, todo := g.threads[r].todo + [Other])), g.threads[r].phase.id, Failing)
  }

  lemma DroppedMove(g: State, r: nat)
    requires Inv(g) && IsReplying(g, r)
    ensures LocalMove(g, DropReply(g, r), g.threads[r].phase.id, r)
  {
    hide Inv, ThreadOk;
    RepliedHere(g, r);
  }

  lemma DroppedThread(g: State, g': State, r: nat)
    requires IsReplying(g, r) && ThreadOk(g, r) && LocalMove(g, g', g.threads[r].phase.id, r)
    requires g'.threads[r] == g.threads[r].(phase := Idle, todo := g.threads[r].todo + [Other])
    ensures ThreadOk(g', r)
  {
    ChainMoved(g, g', g.threads[r].phase.id, r, g.threads[r].chain);
  }

  lemma DropReplyKeepsInv(g: State, r: nat)
    requires Inv(g) && IsReplying(g, r)
    ensures Inv(DropReply(g, r))
  {
    hide Inv, ThreadOk, LocalMove;
    var g' := DropReply(g, r);
    InvThread(g, r);
    DroppedMove(g, r);
    DroppedThread(g, g', r);
    LocalMoveKeepsInv(g, g', g.threads[r].phase.id, r);
  }

  /** Handing the reply over: unless the caller has died, the call leaves its stack and is
      freed. */
  function FinishReply(g: State, r: nat): State
    requires Inv(g) && IsReplying(g, r)
  {
    RepliedHere(g, r);
    DropReplyKeepsInv(g, r);
    var t, s := g.threads[r].phase.id, g.threads[r].phase.caller;
    var g1 := DropReply(g, r);
    if g.threads[s].dead then g1 else PopAndFree(g1, s, t, Replied, [Reply(t)])
  }

  lemma FinishReplyKeepsInv(g: State, r: nat)
    requires Inv(g) && IsReplying(g, r)
    ensures Inv(FinishReply(g, r))
  {
    hide Inv, ThreadOk;
    RepliedHere(g, r);
    DropReplyKeepsInv(g, r);
    var t, s := g.threads[r].phase.id, g.threads[r].phase.caller;
    if !g.threads[s].dead {
      PopKeepsInv(DropReply(g, r), s, t, Replied, [Reply(t)]);
    }
  }
}
