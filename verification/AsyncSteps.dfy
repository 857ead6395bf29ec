/** The sections that touch a one-way queue.  A BUG_ON of the code is an `assert` here. */
module AsyncSteps {
  import opened Common
  import opened AsyncQueue

  function OwnerOf(s: State, b: nat): ProcState
    requires Inv(s) && b in s.buffers
  {
    InvBuffer(s, b);
    s.procs[s.nodes[s.buffers[b].node].owner]
  }

  // ---------- binder_transaction, up to binder_proc_transaction ----------

  /** A sender may start on a node whose process has not let go of it. */
  predicate CanBegin(s: State, n: nat) {
    n in s.nodes && s.nodes[n].stage != Released
  }

  function Begin(s: State, n: nat): State
    requires CanBegin(s, n)
  {
    s.(buffers := s.buffers[s.nextId := Buffer(n, Building)], nextId := s.nextId + 1)
  }

  lemma NewIdUnused(s: State)
    requires Inv(s)
    ensures s.nextId !in s.buffers && forall n :: n in s.nodes ==> n in s.logs && s.nextId !in s.logs[n].sent
  {
    forall b | b in s.buffers
      ensures b < s.nextId
    {
      assert BufferOk(s, b);
    }
    forall n | n in s.nodes
      ensures n in s.logs && s.nextId !in s.logs[n].sent
    {
      assert NodeOk(s, n);
    }
  }

  lemma BeginKeepsInv(s: State, n: nat)
    requires Inv(s) && CanBegin(s, n)
    ensures Inv(Begin(s, n))
  {
    NewIdUnused(s);
    assert NodeOk(s, n);
    var s' := Begin(s, n);
    StrayKeepsInv(s, s', n, s.nextId);
  }

  // ---------- binder_proc_transaction ----------

  /** `to` is the todo list of the waiting thread the process has, or of the process. */
  predicate CanSend(s: State, b: nat, to: Todo) {
    && b in s.buffers && s.buffers[b].phase.Building? && s.buffers[b].node in s.nodes
    && match to
       case ThreadTodo(t) => t in s.threads && s.threads[t] == Thread(s.nodes[s.buffers[b].node].owner, true)
       case ProcTodo(p) => p == s.nodes[s.buffers[b].node].owner
  }

  function Send(s: State, b: nat, to: Todo): State
    requires Inv(s) && CanSend(s, b, to)
  {
    InvBuffer(s, b);
    var n := s.buffers[b].node;
    var node := s.nodes[n];
    var log := s.logs[n];
    if !s.procs[node.owner].Open? then
      s.(nodes := s.nodes[n := node.(hasAsync := true)], buffers := s.buffers[b := Buffer(n, Refused)])
    else if node.hasAsync then
      s.(nodes := s.nodes[n := node.(todo := node.todo + [b])], buffers := s.buffers[b := Buffer(n, Waiting)],
         logs := s.logs[n := log.(sent := log.sent + [b])])
    else
      s.(nodes := s.nodes[n := node.(hasAsync := true)], buffers := s.buffers[b := Buffer(n, Runnable(to))],
         logs := s.logs[n := log.(sent := log.sent + [b], slot := Some(b))])
  }

  lemma AcceptedLog(node: Node, log: Log, b: nat, next: nat)
    requires LogOk(node, log, next) && log.dropped == [] && b < next && b !in log.sent && (node.hasAsync <==> log.slot.Some?)
    ensures node.stage.Serving? && node.hasAsync ==>
              LogOk(node.(todo := node.todo + [b]), log.(sent := log.sent + [b]), next)
    ensures node.stage.Serving? && !node.hasAsync ==>
              LogOk(node.(hasAsync := true), log.(sent := log.sent + [b], slot := Some(b)), next)
  {
    assert Started(log) + log.dropped + (node.todo + [b]) == log.sent + [b];
  }

  /** What acceptance does to one node. */
  lemma AcceptedNode(s: State, b: nat, to: Todo)
    requires Inv(s) && CanSend(s, b, to) && OwnerOf(s, b).Open?
    ensures NodeOk(Send(s, b, to), s.buffers[b].node)
  {
    InvBuffer(s, b);
    var n := s.buffers[b].node;
    hide Inv;
    AcceptedLog(s.nodes[n], s.logs[n], b, s.nextId);
    hide LogOk;
  }

  lemma RefusedBuffer(s: State, b: nat, to: Todo)
    requires Inv(s) && CanSend(s, b, to) && !OwnerOf(s, b).Open?
    ensures BufferOk(Send(s, b, to), b)
  {
    InvBuffer(s, b);
  }

  lemma AcceptedBuffer(s: State, b: nat, to: Todo, x: nat)
    requires Inv(s) && CanSend(s, b, to) && OwnerOf(s, b).Open?
    requires x in s.buffers && s.buffers[x].node == s.buffers[b].node
    ensures BufferOk(Send(s, b, to), x)
  {
    InvBuffer(s, b);
    InvBuffer(s, x);
    hide Inv, NoDup;
  }

  lemma SendElsewhere(s: State, b: nat, to: Todo)
    requires Inv(s) && CanSend(s, b, to)
    ensures SameElsewhere(s, Send(s, b, to), s.buffers[b].node)
  {
    hide Inv, NodeOk, PhaseOk;
    InvBuffer(s, b);
  }

  lemma SendKeepsInv(s: State, b: nat, to: Todo)
    requires Inv(s) && CanSend(s, b, to)
    ensures Inv(Send(s, b, to))
  {
    hide Inv, LogOk, NodeOk, PhaseOk;
    InvBuffer(s, b);
    var n := s.buffers[b].node;
    var s' := Send(s, b, to);
    if !OwnerOf(s, b).Open? {
      RefusedBuffer(s, b, to);
      StrayKeepsInv(s, s', n, b);
    } else {
      AcceptedNode(s, b, to);
      SendElsewhere(s, b, to);
      forall x | x in s'.buffers && s'.buffers[x].node == n
        ensures BufferOk(s', x)
      {
        InvBuffer(s, x);
        AcceptedBuffer(s, b, to, x);
      }
      OneNodeKeepsInv(s, s', n);
    }
  }

  // ---------- the error path of binder_transaction; the last act of binder_free_buf ----------

  predicate CanDiscard(s: State, b: nat) {
    b in s.buffers && (s.buffers[b].phase.Building? || s.buffers[b].phase.Refused? || s.buffers[b].phase.Finished?)
  }

  /** `binder_alloc_free_buf` of a buffer that no queue knows. */
  function Discard(s: State, b: nat): State {
    s.(buffers := s.buffers - {b})
  }

  lemma DiscardKeepsInv(s: State, b: nat)
    requires Inv(s) && CanDiscard(s, b)
    ensures Inv(Discard(s, b))
  {
    InvBuffer(s, b);
    StrayKeepsInv(s, Discard(s, b), s.buffers[b].node, b);
  }

  // ---------- binder_thread_read ----------

  /** A live thread takes work from its own list or its process's. */
  predicate CanTake(s: State, b: nat, t: nat) {
    && b in s.buffers && s.buffers[b].phase.Runnable? && t in s.threads && s.threads[t].alive
    && s.threads[t].proc in s.procs && s.procs[s.threads[t].proc].Open?
    && match s.buffers[b].phase.list
       case ThreadTodo(r) => r == t
       case ProcTodo(p) => p == s.threads[t].proc
  }

  lemma TakeKeepsInv(s: State, b: nat, t: nat)
    requires Inv(s) && CanTake(s, b, t)
    ensures Inv(Put(s, b, Taken(t)))
  {
    InvBuffer(s, b);
    PutKeepsInv(s, b, Taken(t));
  }

  /** Delivered to user space; lost because the copy to user space faults, which cleans up the
      transaction but not the buffer; freed at once because its files cannot be installed. */
  predicate IsOutcome(ph: Phase) {
    ph.Delivered? || ph.Lost? || ph.Freeing?
  }

  lemma OutcomeKeepsInv(s: State, b: nat, ph: Phase)
    requires Inv(s) && b in s.buffers && s.buffers[b].phase.Taken? && IsOutcome(ph)
    ensures Inv(Put(s, b, ph))
  {
    InvBuffer(s, b);
    PutKeepsInv(s, b, ph);
  }

  // ---------- BC_FREE_BUFFER: binder_alloc_prepare_to_free, then binder_free_buf ----------

  predicate CanFree(s: State, b: nat)
    requires Inv(s)
  {
    b in s.buffers && s.buffers[b].phase.Delivered? && OwnerOf(s, b).Open?
  }

  lemma FreeKeepsInv(s: State, b: nat)
    requires Inv(s) && CanFree(s, b)
    ensures Inv(Put(s, b, Freeing))
  {
    InvBuffer(s, b);
    PutKeepsInv(s, b, Freeing);
  }

  predicate CanAdvance(s: State, b: nat) {
    b in s.buffers && s.buffers[b].phase.Freeing?
  }

  /** The section of `binder_free_buf` under the node's lock. */
  function Advance(s: State, b: nat): State
    requires Inv(s) && CanAdvance(s, b)
  {
    InvBuffer(s, b);
    var n := s.buffers[b].node;
    var node := s.nodes[n];
    var log := s.logs[n];
    assert node.hasAsync;                // BUG_ON(!buf_node->has_async_transaction)
    assert !node.stage.Released?;        // BUG_ON(buf_node->proc != proc)
    var s1 := s.(buffers := s.buffers[b := Buffer(n, Finished)]);
    if node.todo == [] then
      s1.(nodes := s.nodes[n := node.(hasAsync := false)],
          logs := s.logs[n := log.(finished := log.finished + [b], slot := None)])
    else
      var w := node.todo[0];
      s1.(nodes := s.nodes[n := node.(todo := node.todo[1..])],
          buffers := s1.buffers[w := Buffer(n, Runnable(ProcTodo(node.owner)))],
          logs := s.logs[n := log.(finished := log.finished + [b], slot := Some(w))])
  }

  lemma DistinctParts(q: seq<nat>, r: seq<nat>)
    requires NoDup(q + r)
    ensures forall x :: x in q ==> x !in r
    ensures r != [] ==> r[0] !in r[1..]
  {
    forall i, j | 0 <= i < |q| && 0 <= j < |r|
      ensures q[i] != r[j]
    {
      assert (q + r)[i] == q[i] && (q + r)[|q| + j] == r[j];
    }
    forall j | 0 < j < |r|
      ensures r[0] != r[j]
    {
      assert (q + r)[|q|] == r[0] && (q + r)[|q| + j] == r[j];
    }
  }

  lemma AdvancedLog(node: Node, log: Log, b: nat, next: nat)
    requires LogOk(node, log, next) && log.slot == Some(b) && log.dropped == []
    ensures node.todo == [] ==> LogOk(node.(hasAsync := false), log.(finished := log.finished + [b], slot := None), next)
    ensures node.todo != [] ==>
              LogOk(node.(todo := node.todo[1..]), log.(finished := log.finished + [b], slot := Some(node.todo[0])), next)
    ensures forall x :: x in log.finished + [b] ==> x !in node.todo
    ensures node.todo != [] ==> node.todo[0] !in node.todo[1..] && b != node.todo[0]
  {
    hide NoDup;
    assert log.sent == log.finished + [b] + node.todo;
    DistinctParts(log.finished + [b], node.todo);
    assert b in log.finished + [b];
    if node.todo != [] {
      assert log.finished + [b] + [node.todo[0]] + [] + node.todo[1..] == log.sent;
    }
  }

  lemma AdvancedNode(s: State, b: nat)
    requires Inv(s) && CanAdvance(s, b)
    ensures NodeOk(Advance(s, b), s.buffers[b].node)
  {
    InvBuffer(s, b);
    var n := s.buffers[b].node;
    AdvancedLog(s.nodes[n], s.logs[n], b, s.nextId);
  }

  lemma AdvancedFreed(s: State, b: nat)
    requires Inv(s) && CanAdvance(s, b)
    ensures BufferOk(Advance(s, b), b)
  {
    InvBuffer(s, b);
    var n := s.buffers[b].node;
    InvTables(s, n);
    hide Inv, LogOk, NodeOk;
    var log := s.logs[n];
    assert (log.finished + [b])[|log.finished|] == b;
  }

  lemma AdvancedHead(s: State, b: nat, n: nat)
    requires Inv(s) && CanAdvance(s, b) && s.buffers[b].node == n && n in s.nodes && s.nodes[n].todo != []
    ensures var w := s.nodes[n].todo[0]; w in s.buffers && BufferOk(Advance(s, b), w)
  {
    InvBuffer(s, b);
    InvTables(s, n);
    InvBuffer(s, s.nodes[n].todo[0]);
    hide Inv, LogOk, NodeOk, StageOk;
  }

  lemma AdvancedOther(s: State, b: nat, n: nat, x: nat)
    requires Inv(s) && CanAdvance(s, b) && s.buffers[b].node == n && n in s.nodes
    requires x in s.buffers && x != b && s.buffers[x].node == n
    requires s.nodes[n].todo != [] ==> x != s.nodes[n].todo[0]
    ensures BufferOk(Advance(s, b), x)
  {
    InvBuffer(s, b);
    InvBuffer(s, x);
    InvTables(s, n);
    hide Inv, LogOk, NodeOk;
    var todo := s.nodes[n].todo;
    var s' := Advance(s, b);
    assert todo != [] && x in todo ==> x in todo[1..];
    assert s.buffers[x].phase.Finished? ==> x in s'.logs[n].finished;
    assert s'.buffers[x] == s.buffers[x] && !s.buffers[x].phase.Outstanding();
  }

  lemma AdvancedBuffer(s: State, b: nat, n: nat, x: nat)
    requires Inv(s) && CanAdvance(s, b) && s.buffers[b].node == n && n in s.nodes
    requires x in s.buffers && s.buffers[x].node == n
    ensures BufferOk(Advance(s, b), x)
  {
    hide Inv, Advance, BufferOk;
    if x == b {
      AdvancedFreed(s, b);
    } else if s.nodes[n].todo != [] && x == s.nodes[n].todo[0] {
      AdvancedHead(s, b, n);
    } else {
      AdvancedOther(s, b, n, x);
    }
  }

  lemma AdvanceElsewhere(s: State, b: nat)
    requires Inv(s) && CanAdvance(s, b)
    ensures SameElsewhere(s, Advance(s, b), s.buffers[b].node)
  {
    hide Inv, NodeOk, PhaseOk;
    InvBuffer(s, b);
    InvTables(s, s.buffers[b].node);
  }

  lemma AdvanceKeepsInv(s: State, b: nat)
    requires Inv(s) && CanAdvance(s, b)
    ensures Inv(Advance(s, b))
  {
    hide Inv, LogOk, NodeOk, PhaseOk;
    InvBuffer(s, b);
    var n := s.buffers[b].node;
    var s' := Advance(s, b);
    AdvancedNode(s, b);
    AdvanceElsewhere(s, b);
    forall x | x in s'.buffers && s'.buffers[x].node == n
      ensures BufferOk(s', x)
    {
      AdvancedBuffer(s, b, n, x);
    }
    OneNodeKeepsInv(s, s', n);
  }

  // ---------- a thread leaves, with or without its process ----------

  predicate CanExit(s: State, t: nat) {
    t in s.threads && s.threads[t].alive && forall b :: b in s.buffers ==> s.buffers[b].phase != Taken(t)
  }

  function Exit(s: State, t: nat): State
    requires t in s.threads
  {
    s.(threads := s.threads[t := s.threads[t].(alive := false)])
  }

  predicate CanForget(s: State, t: nat) {
    t in s.threads && !s.threads[t].alive && forall b :: b in s.buffers ==> s.buffers[b].phase != Runnable(ThreadTodo(t))
  }

  function Forget(s: State, t: nat): State {
    s.(threads := s.threads - {t})
  }

  lemma ThreadsKeepInv(s: State, s': State)
    requires Inv(s) && s'.(threads := s.threads) == s
    requires forall t :: t in s'.threads ==> ThreadOk(s', t)
    requires forall b :: b in s.buffers ==> PhaseThread(s, s', s.buffers[b].phase)
    ensures Inv(s')
  {
    forall b | b in s'.buffers
      ensures BufferOk(s', b)
    {
      assert BufferOk(s, b) && PhaseThread(s, s', s.buffers[b].phase);
    }
    forall n | n in s'.nodes
      ensures NodeOk(s', n)
    {
      assert NodeOk(s, n);
    }
  }

  /** The thread a phase speaks of, if any, is still there, and as alive as the phase needs. */
  predicate PhaseThread(s: State, s': State, ph: Phase) {
    match ph
    case Runnable(ThreadTodo(t)) => t in s.threads ==> t in s'.threads && s'.threads[t].proc == s.threads[t].proc
    case Taken(t) => t in s.threads ==> t in s'.threads && s'.threads[t] == s.threads[t]
    case _ => true
  }

  lemma ExitKeepsInv(s: State, t: nat)
    requires Inv(s) && CanExit(s, t)
    ensures Inv(Exit(s, t))
  {
    assert forall r :: r in s.threads ==> ThreadOk(s, r);
    ThreadsKeepInv(s, Exit(s, t));
  }

  lemma ForgetKeepsInv(s: State, t: nat)
    requires Inv(s) && CanForget(s, t)
    ensures Inv(Forget(s, t))
  {
    assert forall r :: r in s.threads ==> ThreadOk(s, r);
    ThreadsKeepInv(s, Forget(s, t));
  }

  /** `binder_release_work` on the list of a dead thread, or of a dead process without threads. */
  predicate CanLose(s: State, b: nat) {
    && b in s.buffers && s.buffers[b].phase.Runnable?
    && match s.buffers[b].phase.list
       case ThreadTodo(t) => t in s.threads && !s.threads[t].alive
       case ProcTodo(p) => p in s.procs && s.procs[p].Closing? && forall t :: t in s.threads ==> s.threads[t].proc != p
  }

  lemma LoseKeepsInv(s: State, b: nat)
    requires Inv(s) && CanLose(s, b)
    ensures Inv(Put(s, b, Lost))
  {
    InvBuffer(s, b);
    PutKeepsInv(s, b, Lost);
  }
}
