/** The death of a process with one-way transactions under way. */
module AsyncRelease {
  import opened Common
  import opened AsyncQueue
  import opened AsyncSteps

  // ---------- binder_node_release ----------

  predicate CanStage(s: State, n: nat, stage: Stage) {
    && n in s.nodes && s.nodes[n].owner in s.procs && s.procs[s.nodes[n].owner].Closing?
    && match s.nodes[n].stage
       case Serving => stage.Draining?
       case Draining => stage.Emptied? && s.nodes[n].todo == []
       case Emptied => stage.Released?
       case Released => false
  }

  function SetStage(s: State, n: nat, stage: Stage): State
    requires n in s.nodes
  {
    s.(nodes := s.nodes[n := s.nodes[n].(stage := stage)])
  }

  lemma SetStageKeepsInv(s: State, n: nat, stage: Stage)
    requires Inv(s) && CanStage(s, n, stage)
    ensures Inv(SetStage(s, n, stage))
  {
    InvNode(s, n);
    var s' := SetStage(s, n, stage);
    forall b | b in s'.buffers && s'.buffers[b].node == n
      ensures BufferOk(s', b)
    {
      assert BufferOk(s, b);
    }
    OneNodeKeepsInv(s, s', n);
  }

  predicate CanDrop(s: State, n: nat) {
    && n in s.nodes && s.nodes[n].owner in s.procs && s.procs[s.nodes[n].owner].Closing?
    && s.nodes[n].stage.Draining? && s.nodes[n].todo != []
  }

  /** One turn of `binder_release_work` on a node's `async_todo`. */
  function DropHead(s: State, n: nat): State
    requires Inv(s) && CanDrop(s, n)
  {
    InvNode(s, n);
    var w := s.nodes[n].todo[0];
    s.(nodes := s.nodes[n := s.nodes[n].(todo := s.nodes[n].todo[1..])],
       buffers := s.buffers[w := Buffer(n, Dropped)],
       logs := s.logs[n := s.logs[n].(dropped := s.logs[n].dropped + [w])])
  }

  lemma DroppedLog(node: Node, log: Log, next: nat)
    requires LogOk(node, log, next) && node.todo != []
    ensures LogOk(node.(todo := node.todo[1..]), log.(dropped := log.dropped + [node.todo[0]]), next)
    ensures node.todo[0] !in node.todo[1..]
    ensures log.slot.Some? ==> log.slot.value !in node.todo
  {
    hide NoDup;
    assert Started(log) + (log.dropped + [node.todo[0]]) + node.todo[1..] == log.sent;
    DistinctParts(Started(log) + log.dropped, node.todo);
    if log.slot.Some? {
      assert Started(log)[|log.finished|] == log.slot.value;
    }
  }

  lemma DropElsewhere(s: State, n: nat)
    requires Inv(s) && CanDrop(s, n)
    ensures SameElsewhere(s, DropHead(s, n), n)
  {
    hide Inv, NodeOk;
    InvTables(s, n);
  }

  lemma DroppedNode(s: State, n: nat)
    requires Inv(s) && CanDrop(s, n)
    ensures NodeOk(DropHead(s, n), n)
  {
    InvNode(s, n);
    DroppedLog(s.nodes[n], s.logs[n], s.nextId);
    hide Inv, LogOk;
  }

  lemma DroppedBuffer(s: State, n: nat, b: nat)
    requires Inv(s) && CanDrop(s, n) && b in DropHead(s, n).buffers && DropHead(s, n).buffers[b].node == n
    ensures BufferOk(DropHead(s, n), b)
  {
    InvTables(s, n);
    InvBuffer(s, b);
    hide Inv, LogOk;
  }

  lemma DropHeadKeepsInv(s: State, n: nat)
    requires Inv(s) && CanDrop(s, n)
    ensures Inv(DropHead(s, n))
  {
    hide Inv, NodeOk, DropHead;
    DroppedNode(s, n);
    DropElsewhere(s, n);
    var s' := DropHead(s, n);
    forall b | b in s'.buffers && s'.buffers[b].node == n
      ensures BufferOk(s', b)
    {
      DroppedBuffer(s, n, b);
    }
    OneNodeKeepsInv(s, s', n);
  }

  // ---------- binder_deferred_release and binder_free_proc ----------

  /** No thread of the process is inside an ioctl when its file is released. */
  predicate CanClose(s: State, p: nat) {
    && p in s.procs && s.procs[p].Open?
    && forall b :: b in s.buffers && s.buffers[b].node in s.nodes && s.nodes[s.buffers[b].node].owner == p ==> !s.buffers[b].phase.InIoctl()
  }

  function SetProc(s: State, p: nat, to: ProcState): State {
    s.(procs := s.procs[p := to])
  }

  /** Threads and nodes have been released and the last `binder_release_work` finds no work. */
  predicate CanSettle(s: State, p: nat) {
    && p in s.procs && s.procs[p].Closing?
    && (forall t :: t in s.threads ==> s.threads[t].proc != p)
    && (forall n :: n in s.nodes && s.nodes[n].owner == p ==> s.nodes[n].stage.Released?)
    && (forall b :: b in s.buffers ==> s.buffers[b].phase != Runnable(ProcTodo(p)))
  }

  lemma CloseKeepsInv(s: State, p: nat)
    requires Inv(s) && CanClose(s, p)
    ensures Inv(SetProc(s, p, Closing))
  {
    var s' := SetProc(s, p, Closing);
    forall n | n in s'.nodes
      ensures NodeOk(s', n)
    {
      assert NodeOk(s, n);
    }
    forall b | b in s'.buffers
      ensures BufferOk(s', b)
    {
      assert BufferOk(s, b);
    }
    assert forall t :: t in s.threads ==> ThreadOk(s, t);
  }

  lemma SettledBuffer(s: State, p: nat, b: nat)
    requires Inv(s) && CanSettle(s, p) && b in s.buffers
    ensures BufferOk(SetProc(s, p, Drained), b)
  {
    InvBuffer(s, b);
    var n := s.buffers[b].node;
    if s.nodes[n].owner == p {
      assert s.nodes[n].todo == [];
    }
  }

  lemma SettleKeepsInv(s: State, p: nat)
    requires Inv(s) && CanSettle(s, p)
    ensures Inv(SetProc(s, p, Drained))
  {
    var s' := SetProc(s, p, Drained);
    forall n | n in s'.nodes
      ensures NodeOk(s', n)
    {
      assert NodeOk(s, n);
    }
    forall b | b in s'.buffers
      ensures BufferOk(s', b)
    {
      SettledBuffer(s, p, b);
    }
    assert forall t :: t in s.threads ==> ThreadOk(s, t);
  }

  predicate IsOf(s: State, b: nat, p: nat) {
    b in s.buffers && s.buffers[b].node in s.nodes && s.nodes[s.buffers[b].node].owner == p
  }

  /** Senders at work hold a reference on the process. */
  predicate CanFreeProc(s: State, p: nat) {
    && p in s.procs && s.procs[p].Drained?
    && forall b :: b in s.buffers && IsOf(s, b, p) ==> !s.buffers[b].phase.Building? && !s.buffers[b].phase.Refused?
  }

  function FreeProc(s: State, p: nat): State {
    s.(procs := s.procs[p := Gone], buffers := map b | b in s.buffers && !IsOf(s, b, p) :: s.buffers[b])
  }

  /** When the allocator of a process is released, no buffer has a transaction: the BUG_ON of
      `binder_alloc_deferred_release` is unreachable, and so are those of `binder_free_proc`. */
  lemma NoTransactionLeft(s: State, p: nat)
    requires Inv(s) && CanFreeProc(s, p)
    ensures forall b :: IsOf(s, b, p) ==> !s.buffers[b].phase.HasTransaction()
    ensures forall b :: b in s.buffers ==> s.buffers[b].phase != Runnable(ProcTodo(p))
    ensures forall n :: n in s.nodes && s.nodes[n].owner == p ==> s.nodes[n].todo == []
    ensures forall t :: t in s.threads ==> s.threads[t].proc != p
  {
    forall n | n in s.nodes && s.nodes[n].owner == p
      ensures s.nodes[n].todo == []
    {
      InvNode(s, n);
    }
    forall t | t in s.threads
      ensures s.threads[t].proc != p
    {
      assert ThreadOk(s, t);
    }
    forall b | b in s.buffers
      ensures s.buffers[b].phase != Runnable(ProcTodo(p)) && (IsOf(s, b, p) ==> !s.buffers[b].phase.HasTransaction())
    {
      InvBuffer(s, b);
      hide Inv;
      if s.buffers[b].phase.Runnable? && s.buffers[b].phase.list.ThreadTodo? {
        assert s.threads[s.buffers[b].phase.list.thread].proc == s.nodes[s.buffers[b].node].owner;
      }
    }
  }

  lemma FreeProcKeepsInv(s: State, p: nat)
    requires Inv(s) && CanFreeProc(s, p)
    ensures Inv(FreeProc(s, p))
  {
    var s' := FreeProc(s, p);
    NoTransactionLeft(s, p);
    forall n | n in s'.nodes
      ensures NodeOk(s', n)
    {
      InvNode(s, n);
    }
    forall b | b in s'.buffers
      ensures BufferOk(s', b)
    {
      assert BufferOk(s, b);
    }
    forall t | t in s'.threads
      ensures ThreadOk(s', t)
    {
      assert ThreadOk(s, t);
    }
  }
}
