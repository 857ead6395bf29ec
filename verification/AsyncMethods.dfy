/** The one-way queue of the driver, updated in place. */
module AsyncMethods {
  import opened Common
  import opened AsyncQueue
  import opened AsyncSteps
  import opened AsyncRelease

  class Driver {
    var procs: map<nat, ProcState>
    var threads: map<nat, Thread>
    var nodes: map<nat, Node>
    var buffers: map<nat, Buffer>
    ghost var logs: map<nat, Log>
    ghost var nextId: nat

    ghost function Now(): State
      reads this
    {
      State(procs, threads, nodes, buffers, logs, nextId)
    }

    constructor ()
      ensures Inv(Now()) && procs == map[]
    {
      procs, threads, nodes, buffers, logs, nextId := map[], map[], map[], map[], map[], 0;
    }

    /** `binder_proc_transaction` for a one-way transaction; `waiting` is the first entry of the
        process's waiting threads. */
    method ProcTransaction(b: nat, waiting: Option<nat>) returns (ok: bool)
      requires Inv(Now()) && b in buffers && buffers[b].node in nodes
      requires CanSend(Now(), b, ProcTodo(nodes[buffers[b].node].owner))
      requires waiting.Some? ==> CanSend(Now(), b, ThreadTodo(waiting.value))
      modifies this`nodes, this`buffers, this`logs
      ensures Inv(Now())
      ensures ok <==> OwnerOf(old(Now()), b).Open?
      ensures Now() == Send(old(Now()), b, if waiting.Some? then ThreadTodo(waiting.value) else ProcTodo(old(nodes[buffers[b].node].owner)))
    {
      InvBuffer(Now(), b);
      ghost var to := if waiting.Some? then ThreadTodo(waiting.value) else ProcTodo(nodes[buffers[b].node].owner);
      SendKeepsInv(Now(), b, to);
      ghost var after := Send(Now(), b, to);
      hide Inv, LogOk, NodeOk, PhaseOk;
      var n := buffers[b].node;
      var proc := nodes[n].owner;
      var pendingAsync := nodes[n].hasAsync;
      if !pendingAsync {
        nodes := nodes[n := nodes[n].(hasAsync := true)];
      }
      if procs[proc] != Open {
        buffers := buffers[b := Buffer(n, Refused)];
        assert Now().nodes == after.nodes;
        return false;
      }
      logs := logs[n := logs[n].(sent := logs[n].sent + [b])];
      if !pendingAsync {
        buffers := buffers[b := Buffer(n, Runnable(if waiting.Some? then ThreadTodo(waiting.value) else ProcTodo(proc)))];
        logs := logs[n := logs[n].(slot := Some(b))];
      } else {
        buffers := buffers[b := Buffer(n, Waiting)];
        nodes := nodes[n := nodes[n].(todo := nodes[n].todo + [b])];
      }
      assert Now().nodes == after.nodes && Now().logs == after.logs;
      return true;
    }

    /** The queue part of `binder_free_buf`. */
    method FreeBuf(b: nat)
      requires Inv(Now()) && CanAdvance(Now(), b)
      modifies this`nodes, this`buffers, this`logs
      ensures Inv(Now()) && Now() == Advance(old(Now()), b)
    {
      hide Inv, NodeOk, PhaseOk;
      InvBuffer(Now(), b);
      InvTables(Now(), buffers[b].node);
      AdvanceKeepsInv(Now(), b);
      ghost var after := Advance(Now(), b);
      var n := buffers[b].node;
      buffers := buffers[b := Buffer(n, Finished)];
      logs := logs[n := logs[n].(finished := logs[n].finished + [b], slot := None)];
      if nodes[n].todo == [] {
        nodes := nodes[n := nodes[n].(hasAsync := false)];
      } else {
        var w := nodes[n].todo[0];
        nodes := nodes[n := nodes[n].(todo := nodes[n].todo[1..])];
        buffers := buffers[w := Buffer(n, Runnable(ProcTodo(nodes[n].owner)))];
        logs := logs[n := logs[n].(slot := Some(w))];
      }
      assert Now().nodes == after.nodes && Now().logs == after.logs;
    }

    /** The one-way part of `binder_node_release`: what waits is thrown away in order, then the
        node loses its process. */
    method NodeRelease(n: nat)
      requires Inv(Now()) && CanStage(Now(), n, Draining)
      modifies this`nodes, this`buffers, this`logs
      ensures Inv(Now()) && n in nodes && nodes[n].stage.Released? && nodes[n].todo == []
      ensures n in logs && n in old(logs) && logs[n].dropped == old(logs[n].dropped + nodes[n].todo)
      ensures logs[n].sent == old(logs[n].sent) && Started(logs[n]) == old(Started(logs[n]))
    {
      hide Inv, LogOk, StageOk;
      InvNode(Now(), n);
      Restage(n, Draining);
      while nodes[n].todo != []
        invariant Inv(Now()) && n in nodes && n in logs && nodes[n].owner in procs && procs[nodes[n].owner].Closing?
        invariant nodes[n].stage.Draining?
        invariant logs[n].dropped + nodes[n].todo == old(logs[n].dropped + nodes[n].todo)
        invariant logs[n].sent == old(logs[n].sent) && Started(logs[n]) == old(Started(logs[n]))
        decreases |nodes[n].todo|
      {
        DropHeadKeepsInv(Now(), n);
        ghost var after := DropHead(Now(), n);
        var w := nodes[n].todo[0];
        buffers := buffers[w := Buffer(n, Dropped)];
        logs := logs[n := logs[n].(dropped := logs[n].dropped + [w])];
        nodes := nodes[n := nodes[n].(todo := nodes[n].todo[1..])];
        assert Now() == after;
      }
      Restage(n, Emptied);
      Restage(n, Released);
    }

    method Restage(n: nat, stage: Stage)
      requires Inv(Now()) && CanStage(Now(), n, stage)
      modifies this`nodes
      ensures Inv(Now()) && Now() == SetStage(old(Now()), n, stage)
    {
      SetStageKeepsInv(Now(), n, stage);
      nodes := nodes[n := nodes[n].(stage := stage)];
    }

    /** `binder_free_proc`. */
    method FreeProcess(p: nat)
      requires Inv(Now()) && CanFreeProc(Now(), p)
      modifies this`procs, this`buffers
      ensures Inv(Now()) && Now() == FreeProc(old(Now()), p)
    {
      NoTransactionLeft(Now(), p);
      FreeProcKeepsInv(Now(), p);
      hide Inv, CanFreeProc, FreeProc;
      ghost var before := Now();
      ReleaseBuffers(p);
      procs := procs[p := Gone];
      FreedProc(before, p, Now());
    }

    /** The loop of `binder_alloc_deferred_release`: what is left is given back in any order. */
    method ReleaseBuffers(p: nat)
      requires forall b :: IsOf(Now(), b, p) ==> !buffers[b].phase.HasTransaction()
      modifies this`buffers
      ensures forall b :: b in buffers <==> b in old(buffers) && !IsOf(old(Now()), b, p)
      ensures forall b :: b in buffers ==> buffers[b] == old(buffers)[b]
    {
      ghost var before := Now();
      var left := set b | b in buffers && buffers[b].node in nodes && nodes[buffers[b].node].owner == p;
      assert forall b :: b in left <==> b in buffers && IsOf(before, b, p);
      hide IsOf;
      while left != {}
        invariant forall b :: b in left ==> b in buffers && IsOf(before, b, p)
        invariant forall b :: b in buffers <==> b in before.buffers && (IsOf(before, b, p) ==> b in left)
        invariant forall b :: b in buffers ==> buffers[b] == before.buffers[b]
        decreases |left|
      {
        var b :| b in left;
        assert !buffers[b].phase.HasTransaction();  // BUG_ON(buffer->transaction)
        buffers := buffers - {b};
        left := left - {b};
      }
    }
  }

  lemma FreedProc(s: State, p: nat, s': State)
    requires s' == s.(procs := s.procs[p := Gone], buffers := s'.buffers)
    requires forall b :: b in s'.buffers <==> b in s.buffers && !IsOf(s, b, p)
    requires forall b :: b in s'.buffers ==> s'.buffers[b] == s.buffers[b]
    ensures s' == FreeProc(s, p)
  {
    assert s'.buffers == FreeProc(s, p).buffers;
  }
}
