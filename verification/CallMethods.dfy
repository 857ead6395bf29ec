/** The loops of the driver over stacks and lists, in place on the driver's state, each equal
    to a function of the state before. */
module CallMethods {
  import opened Common
  import opened CallGraph
  import opened CallFrames
  import opened CallFailing
  import opened CallReading
  import opened CallReplies
  import opened CallSending
  import opened CallRelease
  import opened CallRuns

  /** What `binder_send_failed_reply` comes to when no other section runs in between. */
  ghost function FailAll(g: State, t: nat): State
    requires Inv(g) && t in g.txns && g.txns[t].holder.Failing?
    decreases t
  {
    hide Inv;
    FailKeepsInv(g, t);
    InvTxn(g, t);
    var x := g.txns[t];
    if x.from.Some? || x.fromParent.None? then FailOne(g, t)
    else FailAll(FailOne(g, t), x.fromParent.value)
  }

  /** One failed iteration: the next call to fail is the one that t was nested in. */
  lemma ClimbFacts(g: State, t: nat)
    requires Inv(g) && t in g.txns && g.txns[t].holder.Failing? && g.txns[t].from.None? && g.txns[t].fromParent.Some?
    ensures var g' := FailOne(g, t); var p := g.txns[t].fromParent.value;
            && p in g.txns && p in g'.txns && p < t && g'.txns[p] == g.txns[p].(holder := Failing)
            && g.txns[t].above == g.txns[p].above + {p}
            && g'.left == g.left && g'.freed == g.freed + {t} && g'.threads == g.threads
            && (forall u :: u in g'.txns ==> u in g.txns && g'.txns[u].from == g.txns[u].from && g'.txns[u].fromParent == g.txns[u].fromParent)
  {
    hide Inv;
    InvTxn(g, t);
  }

  lemma PopFacts(g: State, t: nat)
    requires Inv(g) && t in g.txns && g.txns[t].holder.Failing? && g.txns[t].from.Some?
    ensures var g' := FailOne(g, t); var s := g.txns[t].from.value;
            && g'.left == g.left[t := Failed] && g'.freed == g.freed + {t}
            && s in g.threads && !g.threads[s].dead
            && g'.threads == g.threads[s := g'.threads[s]] && g'.threads[s].stack == g.txns[t].fromParent
  {
    hide Inv;
    InvTxn(g, t);
    HeldIsLeaf(g, t);
    LeafSilent(g, t, g.txns[t].from.value);
  }

  /** Where a failure stops: `last` is the first call from t upwards whose sender is alive,
      or the outermost one. */
  ghost predicate StopsAt(g: State, t: nat, last: nat)
    requires t in g.txns
  {
    && last in g.txns && last in g.txns[t].above + {t}
    && (g.txns[last].from.Some? || g.txns[last].fromParent.None?)
    && forall x :: x in g.txns[t].above + {t} && x > last ==> x in g.txns && g.txns[x].from.None?
  }

  lemma StopsHigher(g: State, g': State, t: nat, p: nat, last: nat)
    requires t in g.txns && p in g.txns && p < t && g.txns[t].above == g.txns[p].above + {p} && g.txns[t].from.None?
    requires forall u :: u in g'.txns ==> u in g.txns && g'.txns[u].from == g.txns[u].from && g'.txns[u].fromParent == g.txns[u].fromParent
    requires p in g'.txns && g'.txns[p].above == g.txns[p].above && StopsAt(g', p, last)
    ensures StopsAt(g, t, last)
  {
  }

  /** The error goes to the nearest caller that is still alive; every call up to and
      including that caller's is freed, and no other. */
  lemma {:induction false} FailAllReaches(g: State, t: nat) returns (last: nat)
    requires Inv(g) && t in g.txns && g.txns[t].holder.Failing?
    ensures var g' := FailAll(g, t);
            && Inv(g')
            && StopsAt(g, t, last) && last <= t
            && (forall x :: x in g'.freed <==> x in g.freed || (x in g.txns[t].above + {t} && last <= x))
            && (g.txns[last].from.Some? ==>
                  && g'.left == g.left[last := Failed]
                  && g.txns[last].from.value in g'.threads
                  && g'.threads[g.txns[last].from.value].stack == g.txns[last].fromParent)
            && (g.txns[last].from.None? ==> g'.left == g.left)
    decreases t
  {
    hide Inv, FailOne, TxnOk;
    FailKeepsInv(g, t);
    AboveFacts(g, t);
    if g.txns[t].from.Some? || g.txns[t].fromParent.None? {
      last := t;
      if g.txns[t].from.Some? {
        PopFacts(g, t);
      } else {
        RootFacts(g, t);
      }
    } else {
      ClimbFacts(g, t);
      var p := g.txns[t].fromParent.value;
      last := FailAllReaches(FailOne(g, t), p);
      StopsHigher(g, FailOne(g, t), t, p, last);
    }
  }

  lemma RootFacts(g: State, t: nat)
    requires Inv(g) && t in g.txns && g.txns[t].holder.Failing? && g.txns[t].from.None? && g.txns[t].fromParent.None?
    ensures FailOne(g, t) == g.(txns := g.txns - {t}, freed := g.freed + {t})
  {
  }

  lemma AboveFacts(g: State, t: nat)
    requires Inv(g) && t in g.txns
    ensures forall u :: u in g.txns[t].above ==> u < t
    ensures g.txns[t].fromParent.None? ==> g.txns[t].above == {}
  {
    AboveIsLower(g, t);
    hide Inv;
    InvTxn(g, t);
  }

  lemma AboveIsLower(g: State, t: nat)
    requires TxnsOk(g) && t in g.txns
    ensures forall u :: u in g.txns[t].above ==> u < t
  {
    forall u | u in g.txns[t].above
      ensures u < t
    {
      var c := ChildTowards(g, u, t);
    }
  }

  /** Failing a call does not touch a dead thread. */
  lemma {:induction false} FailAllSparesDead(g: State, t: nat, r: nat)
    requires Inv(g) && t in g.txns && g.txns[t].holder.Failing?
    requires r in g.threads && g.threads[r].dead
    ensures r in FailAll(g, t).threads && FailAll(g, t).threads[r] == g.threads[r]
    decreases t
  {
    hide Inv;
    FailKeepsInv(g, t);
    InvTxn(g, t);
    var x := g.txns[t];
    if x.from.Some? {
      HeldIsLeaf(g, t);
      LeafSilent(g, t, x.from.value);
    } else if x.fromParent.Some? {
      FailAllSparesDead(FailOne(g, t), x.fromParent.value, r);
    }
  }

  /** Failing a call takes back nothing that has left or was freed, and frees the call. */
  lemma {:induction false} FailAllGrows(g: State, t: nat)
    requires Inv(g) && t in g.txns && g.txns[t].holder.Failing?
    ensures HistoryGrows(g, FailAll(g, t)) && t in FailAll(g, t).freed
    decreases t
  {
    hide Inv;
    FailKeepsInv(g, t);
    InvTxn(g, t);
    var x := g.txns[t];
    if x.from.Some? {
      SenderWaits(g, t, x.from.value);
      PopGrows(g, x.from.value, t, Failed, []);
    } else if x.fromParent.Some? {
      FailAllGrows(FailOne(g, t), x.fromParent.value);
    }
  }

  /** What is recorded of the calls a dying thread had sent. */
  lemma SentHasLeft(g: State, r: nat)
    requires Inv(g) && IsIdle(g, r)
    ensures forall id :: Out(id) in g.threads[r].chain ==> id in Release(g, r).left && Release(g, r).left[id] == SenderDied
  {
    hide Inv;
    forall id | Out(id) in g.threads[r].chain
      ensures id in SentBy(g.txns, r)
    {
      StackIsChain(g, r);
      LinkFacts(g.txns, r, g.threads[r].chain, Out(id));
      LinkEnds(g, r, Out(id));
    }
  }

  lemma FailAllKeepsInv(g: State, t: nat)
    requires Inv(g) && t in g.txns && g.txns[t].holder.Failing?
    ensures Inv(FailAll(g, t))
  {
    hide Inv;
    var last := FailAllReaches(g, t);
  }

  datatype ReplyStart = NoStack | BadStack | Dead(inReplyTo: nat) | Started

  class Driver {
    var threads: map<nat, Thread>
    var procs: map<nat, Proc>
    var txns: map<nat, Txn>
    var nextId: nat
    ghost var left: map<nat, Outcome>
    ghost var freed: set<nat>

    ghost function Now(): State
      reads this
    {
      State(threads, procs, txns, nextId, left, freed)
    }

    constructor ()
      ensures Inv(Now()) && threads == map[] && procs == map[] && txns == map[]
    {
      threads, procs, txns, nextId := map[], map[], map[], 0;
      left, freed := map[], {};
    }

    /** `binder_pop_transaction_ilocked`. */
    method Pop(s: nat, t: nat, ghost how: Outcome, notice: seq<Work>)
      requires Inv(Now()) && t in txns && txns[t].from == Some(s) && txns[t].holder.Failing?
      modifies this`threads, this`txns, this`left, this`freed
      ensures Now() == PopAndFree(old(Now()), s, t, how, notice)
    {
      hide Inv;
      HeldIsLeafNow(t, s);
      var th := threads[s];
      assert th.stack == Some(t);        // the first BUG_ON
      assert txns[t].from == Some(s);    // the second
      threads := threads[s := th.(stack := txns[t].fromParent, chain := th.chain[1..], todo := th.todo + notice)];
      txns := txns - {t};
      left := left[t := how];
      freed := freed + {t};
    }

    /** The caller's error item, queued once. */
    method Report(s: nat)
      requires s in threads
      modifies this`threads
      ensures Now() == ReportError(old(Now()), s)
    {
      var th := threads[s];
      if !th.failed {
        threads := threads[s := th.(todo := th.todo + [ReplyError], failed := true)];
      }
    }

    lemma HeldIsLeafNow(t: nat, s: nat)
      requires Inv(Now()) && t in txns && txns[t].from == Some(s) && txns[t].holder.Failing?
      ensures s in threads && threads[s].stack == Some(t) && threads[s].chain != []
    {
      HeldIsLeaf(Now(), t);
      LeafSilent(Now(), t, s);
    }

    /** `binder_send_failed_reply`; ids decrease along `from_parent`, so the loop ends. */
    method SendFailedReply(first: nat)
      requires Inv(Now()) && first in txns && txns[first].holder.Failing?
      modifies this`threads, this`txns, this`left, this`freed
      ensures Inv(Now()) && Now() == FailAll(old(Now()), first)
    {
      hide Inv;
      var t := first;
      FailAllKeepsInv(Now(), first);
      while true
        invariant Inv(Now())
        invariant t in txns && txns[t].holder.Failing?
        invariant FailAll(Now(), t) == FailAll(old(Now()), first)
        decreases t
      {
        FailKeepsInv(Now(), t);
        InvTxn(Now(), t);
        var x := txns[t];
        if x.from.Some? {
          SenderWaits(Now(), t, x.from.value);
          Pop(x.from.value, t, Failed, []);
          Report(x.from.value);
          return;
        }
        var next := x.fromParent;
        txns := txns - {t};
        freed := freed + {t};
        if next.None? {
          return;
        }
        t := next.value;
        txns := txns[t := txns[t].(holder := Failing)];
      }
    }

    /** The search for the target thread of a nested call. */
    method FindTargetThread(r: nat, toProc: nat) returns (target: Option<nat>)
      requires Inv(Now()) && r in threads && (threads[r].stack.Some? ==> threads[r].stack.value in txns)
      requires TxnsOk(Now())
      ensures target == FindTarget(Now(), threads[r].stack, toProc)
    {
      hide Inv;
      var tmp := threads[r].stack;
      while tmp.Some?
        invariant tmp.Some? ==> tmp.value in txns
        invariant FindTarget(Now(), tmp, toProc) == FindTarget(Now(), threads[r].stack, toProc)
        decreases if tmp.None? then 0 else tmp.value + 1
      {
        assert TxnOk(Now(), tmp.value);
        var from := txns[tmp.value].from;
        if from.Some? && threads[from.value].proc == toProc {
          return from;
        }
        tmp := txns[tmp.value].fromParent;
      }
      return None;
    }

    /** The checks of a new two-way call, in the order of the code, and the choice of the
        target thread. */
    method StartCall(r: nat, toProc: nat) returns (ok: bool)
      requires Inv(Now()) && IsIdle(Now(), r) && toProc in procs
      modifies this`threads, this`nextId
      ensures ok <==> CanSend(old(Now()), r, toProc)
      ensures ok ==> Now() == BeginSend(old(Now()), r, toProc)
      ensures !ok ==> threads == old(threads)
      ensures Inv(Now())
    {
      hide Inv;
      var th := threads[r];
      if th.stack.Some? {
        StackIsLive(Now(), r);
      }
      if toProc == th.proc || (th.todo != [] && !th.todo[0].Other? && !th.todo[0].ReplyError?) || (th.stack.Some? && txns[th.stack.value].toThread != Some(r)) {
        BurnedId(Now());
        nextId := nextId + 1;
        return false;
      }
      BeginSendKeepsInv(Now(), r, toProc);
      TxnsNow();
      var target := FindTargetThread(r, toProc);
      threads := threads[r := th.(phase := Sending(nextId, toProc, target))];
      nextId := nextId + 1;
      return true;
    }

    lemma TxnsNow()
      requires Inv(Now())
      ensures TxnsOk(Now())
    {
    }

    /** The head of the reply branch. */
    method StartReply(r: nat) returns (how: ReplyStart)
      requires Inv(Now()) && IsIdle(Now(), r)
      modifies this`threads, this`txns
      ensures Inv(Now())
      ensures how.NoStack? <==> old(threads)[r].stack.None?
      ensures how.NoStack? || how.BadStack? ==> Now() == old(Now())
      ensures (how.Dead? || how.Started?) <==> CanReply(old(Now()), r)
      ensures how.Dead? || how.Started? ==> Now() == BeginReply(old(Now()), r)
      ensures how.Dead? ==> Some(how.inReplyTo) == old(threads)[r].stack && how.inReplyTo in txns && txns[how.inReplyTo].holder.Failing?
    {
      hide Inv;
      var th := threads[r];
      if th.stack.None? {
        return NoStack;
      }
      StackIsLive(Now(), r);
      var t := th.stack.value;
      if txns[t].toThread != Some(r) {
        return BadStack;
      }
      BeginReplyKeepsInv(Now(), r);
      ReplyToTop(Now(), r);
      var popped := th.(stack := txns[t].toParent, chain := th.chain[1..]);
      var from := txns[t].from;
      if from.None? {
        threads := threads[r := popped];
        txns := txns[t := txns[t].(holder := Failing)];
        return Dead(t);
      }
      CallerWaits(Now(), t, from.value);
      if threads[from.value].stack != Some(t) {
        assert false;  // "bad target transaction stack"
      }
      threads := threads[r := popped.(phase := Replying(t, from.value))];
      txns := txns[t := txns[t].(holder := Answer(r))];
      return Started;
    }

    /** One turn of the walk below: one transaction loses its end at thread r. */
    method DetachNext(ghost g: State, r: nat, t: nat, sendReply: Option<nat>, ghost done: seq<Link>, ghost rest: seq<Link>) returns (next: Option<nat>)
      requires Inv(g) && Alive(g, r) && rest != [] && t == rest[0].id && ChainOk(g.txns, r, rest) && g.threads[r].chain == done + rest
      requires forall l :: l in done ==> l.id > rest[0].id
      requires HalfDetached(g, txns, r, done)
      requires t in g.txns && g.txns[t].toThread == Some(r) ==> (sendReply == Some(t) <==> g.threads[r].stack == Some(t))
      modifies this`txns
      ensures next == Top(rest[1..]) && ChainOk(g.txns, r, rest[1..])
      ensures HalfDetached(g, txns, r, done + [rest[0]])
      ensures rest[1..] != [] ==> forall l :: l in done + [rest[0]] ==> l.id > rest[1..][0].id
    {
      hide Inv, HalfDetached, ChainOk;
      DetachOne(g, txns, r, done, rest);
      var x := txns[t];
      if x.toThread == Some(r) {
        txns := txns[t := x.(toThread := None, holder := if sendReply == Some(t) then Failing else Orphan)];
        next := x.toParent;
      } else if x.from == Some(r) {
        txns := txns[t := x.(from := None)];
        next := x.fromParent;
      } else {
        assert false;  // BUG()
      }
    }

    /** The walk over the stack in `binder_thread_release`; its BUG() is unreachable. */
    method DetachStack(r: nat, sendReply: Option<nat>)
      requires Inv(Now()) && IsIdle(Now(), r) && (sendReply.Some? ==> sendReply == threads[r].stack)
      requires threads[r].stack.Some? && threads[r].stack.value in txns && txns[threads[r].stack.value].toThread == Some(r) ==> sendReply.Some?
      modifies this`txns
      ensures txns == Release(old(Now()), r).txns
    {
      hide Inv, ThreadOk, HalfDetached, ChainOk;
      ghost var g := Now();
      var t := threads[r].stack;
      ghost var rest := threads[r].chain;
      ghost var done: seq<Link> := [];
      assert done + rest == threads[r].chain;
      StackIsChain(g, r);
      NoneDetached(g, r);
      while t.Some?
        invariant t == Top(rest) && ChainOk(g.txns, r, rest) && threads[r].chain == done + rest
        invariant rest != [] ==> forall l :: l in done ==> l.id > rest[0].id
        invariant HalfDetached(g, txns, r, done)
        decreases |rest|
      {
        t := DetachNext(g, r, t.value, sendReply, done, rest);
        done := done + [rest[0]];
        rest := rest[1..];
      }
      assert done == threads[r].chain;
      AllDetached(g, r, txns);
    }

    /** Taking a thread out of everything it is part of; returns the call to be failed. */
    method DetachThread(r: nat) returns (sendReply: Option<nat>)
      requires Inv(Now()) && IsIdle(Now(), r)
      modifies this`threads, this`txns, this`left
      ensures Now() == Release(old(Now()), r)
      ensures sendReply.Some? <==> old(threads)[r].stack.Some? && old(threads)[r].stack.value in old(txns) && old(txns)[old(threads)[r].stack.value].toThread == Some(r)
      ensures sendReply.Some? ==> sendReply == old(threads)[r].stack && sendReply.value in txns && txns[sendReply.value].holder.Failing?
      ensures sendReply.None? ==> forall t :: t in txns && txns[t].holder.Failing? ==> t in old(txns) && old(txns)[t].holder.Failing?
    {
      hide Inv;
      ghost var g := Now();
      var t := threads[r].stack;
      sendReply := None;
      if t.Some? {
        StackIsLive(g, r);
        TopHolder(g, r);
        if txns[t.value].toThread == Some(r) {
          sendReply := t;
        }
      }
      DetachStack(r, sendReply);
      threads := threads[r := threads[r].(dead := true, chain := [])];
      left := left + SentBy(g.txns, r);
    }

    /** `binder_thread_release`: the calls the thread had sent have left with their sender, the
        one it was serving and those on its list have been failed and freed, and its list is
        empty, so the BUG_ON in `binder_free_thread` cannot fire. */
    method ReleaseThread(r: nat)
      requires Inv(Now()) && IsIdle(Now(), r)
      modifies this`threads, this`txns, this`left, this`freed
      ensures Inv(Now()) && r in threads && threads[r].dead && threads[r].todo == []
      ensures HistoryGrows(old(Now()), Now())
      ensures forall id :: Out(id) in old(threads)[r].chain ==> id in left && left[id] == SenderDied
      ensures old(threads)[r].stack.Some? && old(threads)[r].chain[0].In? ==> old(threads)[r].stack.value in freed
      ensures forall w :: w in old(threads)[r].todo && w.Call? ==> w.id in freed
    {
      hide Inv;
      ReleaseKeepsInv(Now(), r);
      ReleaseGrows(Now(), r);
      SentHasLeft(Now(), r);
      ServedIsReceived(Now(), r);
      ghost var was := Now();
      var sendReply := DetachThread(r);
      ghost var released := Now();
      if sendReply.Some? {
        FailAllSparesDead(Now(), sendReply.value, r);
        FailAllGrows(Now(), sendReply.value);
        SendFailedReply(sendReply.value);
      }
      assert threads[r].todo == was.threads[r].todo;
      DrainList(r);
    }

    /** `binder_release_work` on the list of a dead thread. */
    method DrainList(r: nat)
      requires Inv(Now()) && r in threads && threads[r].dead
      modifies this`threads, this`txns, this`left, this`freed
      ensures Inv(Now()) && r in threads && threads[r].dead && threads[r].todo == []
      ensures HistoryGrows(old(Now()), Now())
      ensures forall w :: w in old(threads)[r].todo && w.Call? ==> w.id in freed
    {
      hide Inv;
      while threads[r].todo != []
        invariant Inv(Now()) && r in threads && threads[r].dead
        invariant HistoryGrows(old(Now()), Now())
        invariant forall w :: w in old(threads)[r].todo && w.Call? ==> w.id in freed || w in threads[r].todo
        decreases |threads[r].todo|
      {
        DrainFirst(r);
      }
    }

    method DrainFirst(r: nat)
      requires Inv(Now()) && r in threads && threads[r].dead && threads[r].todo != []
      modifies this`threads, this`txns, this`left, this`freed
      ensures Inv(Now()) && r in threads && threads[r].dead && threads[r].todo == old(threads)[r].todo[1..]
      ensures HistoryGrows(old(Now()), Now())
      ensures old(threads)[r].todo[0].Call? ==> old(threads)[r].todo[0].id in freed
    {
      hide Inv;
      var w := threads[r].todo[0];
      DeadIsIdle(Now(), r);
      if w.Call? {
        DrainThreadKeepsInv(Now(), r);
        QueuedHere(Now(), r, 0);
        ghost var drained := DrainThread(Now(), r);
        threads := threads[r := threads[r].(todo := threads[r].todo[1..])];
        txns := txns[w.id := txns[w.id].(holder := Failing)];
        assert Now() == drained;
        FailAllSparesDead(Now(), w.id, r);
        FailAllGrows(Now(), w.id);
        SendFailedReply(w.id);
      } else {
        LocalStepKeepsInv(Now(), r, Idle, threads[r].todo[1..]);
        threads := threads[r := threads[r].(todo := threads[r].todo[1..])];
      }
    }
  }

  /** The call a thread is serving is the one its release fails. */
  lemma ServedIsReceived(g: State, r: nat)
    requires Inv(g) && IsIdle(g, r)
    ensures g.threads[r].stack.Some? ==>
              && g.threads[r].chain != [] && g.threads[r].stack.value in g.txns
              && (g.threads[r].chain[0].In? ==> g.txns[g.threads[r].stack.value].toThread == Some(r))
  {
    hide Inv;
    StackIsChain(g, r);
    if g.threads[r].stack.Some? {
      LinkFacts(g.txns, r, g.threads[r].chain, g.threads[r].chain[0]);
    }
  }

  /** An id can be spent without a call. */
  lemma BurnedId(g: State)
    requires Inv(g)
    ensures Inv(g.(nextId := g.nextId + 1))
  {
    hide ThreadOk, TxnOk, ProcsOk, OneChild;
    var g' := g.(nextId := g.nextId + 1);
    InvTables(g);
    SameChains(g, g');
    forall s | s in g'.threads
      ensures ThreadOk(g', s)
    {
      SendingUnused(g, s);
      ThreadFrame(g, g', s);
    }
    forall u | u in g'.txns
      ensures TxnOk(g', u)
    {
      BurnedTxn(g, g', u);
    }
    assert ProcsOk(g') by {
      BurnedProcs(g, g');
    }
  }

  lemma BurnedTxn(g: State, g': State, u: nat)
    requires u in g.txns && TxnOk(g, u) && g' == g.(nextId := g.nextId + 1)
    ensures TxnOk(g', u)
  {
    TxnFrame(g, g', u);
  }

  lemma BurnedProcs(g: State, g': State)
    requires ProcsOk(g) && g'.procs == g.procs && g'.txns == g.txns
    ensures ProcsOk(g')
  {
  }

  lemma TopHolder(g: State, r: nat)
    requires Inv(g) && Alive(g, r) && g.threads[r].stack.Some?
    ensures var t := g.threads[r].stack.value;
            t in g.txns && (g.txns[t].toThread == Some(r) <==> g.txns[t].holder == Receiver(r))
  {
    var th := g.threads[r];
    assert ThreadOk(g, r);
    assert LinkOk(g.txns, r, th.chain[0], th.chain[1..]);
    assert TxnOk(g, th.chain[0].id);
  }

  /** The two ends of a link on the stack of r. */
  lemma LinkEnds(g: State, r: nat, link: Link)
    requires Inv(g) && Alive(g, r) && link in g.threads[r].chain && link.id in g.txns
    requires link.In? ==> g.txns[link.id].holder == Receiver(r) && g.txns[link.id].toThread == Some(r)
    requires link.Out? ==> g.txns[link.id].from == Some(r)
    ensures link.In? ==> g.txns[link.id].from != Some(r)
    ensures link.Out? ==> g.txns[link.id].toThread != Some(r) && g.txns[link.id].holder != Receiver(r)
  {
    assert TxnOk(g, link.id);
  }

  /** The entries in `done` have been taken apart, the others not yet. */
  ghost predicate HalfDetached(g: State, now: map<nat, Txn>, r: nat, done: seq<Link>)
    requires r in g.threads
  {
    && now.Keys == g.txns.Keys
    && forall u :: u in now ==>
        now[u] == if In(u) in done || Out(u) in done then Detached(g.txns[u], r, g.threads[r].stack == Some(u)) else g.txns[u]
  }

  lemma NoneDetached(g: State, r: nat)
    requires r in g.threads
    ensures HalfDetached(g, g.txns, r, [])
  {
  }

  lemma StackIsChain(g: State, r: nat)
    requires Inv(g) && Alive(g, r)
    ensures g.threads[r].stack == Top(g.threads[r].chain) && ChainOk(g.txns, r, g.threads[r].chain)
  {
    assert ThreadOk(g, r);
  }

  /** What the loop finds at the next entry, and what taking it apart does. */
  lemma DetachOne(g: State, now: map<nat, Txn>, r: nat, done: seq<Link>, rest: seq<Link>)
    requires Inv(g) && Alive(g, r) && rest != [] && ChainOk(g.txns, r, rest) && g.threads[r].chain == done + rest
    requires forall l :: l in done ==> l.id > rest[0].id
    requires HalfDetached(g, now, r, done)
    ensures var t := rest[0].id; var x := g.txns[t]; var isTop := g.threads[r].stack == Some(t);
            && t in g.txns && t in now && now[t] == x
            && (rest[0].In? <==> x.toThread == Some(r)) && (rest[0].Out? ==> x.from == Some(r))
            && (rest[0].In? ==>
                  && x.toParent == Top(rest[1..])
                  && HalfDetached(g, now[t := x.(toThread := None, holder := if isTop then Failing else Orphan)], r, done + [rest[0]]))
            && (rest[0].Out? ==>
                  && x.fromParent == Top(rest[1..])
                  && HalfDetached(g, now[t := x.(from := None)], r, done + [rest[0]]))
            && ChainOk(g.txns, r, rest[1..])
            && (rest[1..] != [] ==> forall l :: l in done + [rest[0]] ==> l.id > rest[1..][0].id)
  {
    hide Inv;
    var link := rest[0];
    assert LinkOk(g.txns, r, link, rest[1..]);
    assert link in g.threads[r].chain;
    LinkEnds(g, r, link);
    assert forall u :: In(u) in done + [link] <==> In(u) in done || link == In(u);
    assert forall u :: Out(u) in done + [link] <==> Out(u) in done || link == Out(u);
  }

  /** Everything linked to r was on its stack. */
  lemma AllDetached(g: State, r: nat, after: map<nat, Txn>)
    requires Inv(g) && IsIdle(g, r) && HalfDetached(g, after, r, g.threads[r].chain)
    ensures after == Release(g, r).txns
  {
    forall u | u in after
      ensures after[u] == Detached(g.txns[u], r, g.threads[r].stack == Some(u))
    {
      assert TxnOk(g, u);
    }
  }
}
