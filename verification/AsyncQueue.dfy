/** One-way transactions: the queue of each node.  At most one one-way buffer of a node is
    outstanding at a time; later ones wait on the node's `async_todo` until it is freed.  Each
    step is one section under the node lock and the inner lock of the owning process. */
module AsyncQueue {
  import opened Common

  datatype Todo = ThreadTodo(thread: nat) | ProcTodo(proc: nat)

  /** The life of a one-way buffer.  Its transaction exists up to `Taken`; `Lost` and `Dropped`
      are buffers whose transaction was thrown away before user space saw it, from a thread's or
      process's list and from `async_todo`; `Finished` ones only wait to be given back to the
      allocator. */
  datatype Phase =
    | Building
    | Refused
    | Waiting
    | Runnable(list: Todo)
    | Taken(thread: nat)
    | Delivered
    | Lost
    | Freeing
    | Finished
    | Dropped
  {
    predicate Outstanding() {
      Runnable? || Taken? || Delivered? || Lost? || Freeing?
    }

    predicate HasTransaction() {
      Building? || Refused? || Waiting? || Runnable? || Taken?
    }

    /** Some thread of the owning process is inside an ioctl on the buffer. */
    predicate InIoctl() {
      Taken? || Freeing? || Finished?
    }
  }

  datatype Buffer = Buffer(node: nat, phase: Phase)

  /** How far `binder_node_release` has come with a node; a `Released` node has no process. */
  datatype Stage = Serving | Draining | Emptied | Released

  datatype Node = Node(owner: nat, stage: Stage, hasAsync: bool, todo: seq<nat>)

  datatype ProcState = Open | Closing | Drained | Gone

  datatype Thread = Thread(proc: nat, alive: bool)

  /** History of a node: what was accepted, what has been freed, the outstanding buffer, what
      the death of the process threw out of the queue. */
  datatype Log = Log(sent: seq<nat>, finished: seq<nat>, slot: Option<nat>, dropped: seq<nat>)

  datatype State = State(
    procs: map<nat, ProcState>,
    threads: map<nat, Thread>,
    nodes: map<nat, Node>,
    buffers: map<nat, Buffer>,
    logs: map<nat, Log>,
    nextId: nat)

  function SlotSeq(slot: Option<nat>): seq<nat> {
    if slot.Some? then [slot.value] else []
  }

  function Started(log: Log): seq<nat> {
    log.finished + SlotSeq(log.slot)
  }

  // ---------- invariant ----------

  /** Conservation for one node. */
  predicate LogOk(node: Node, log: Log, nextId: nat) {
    && log.sent == Started(log) + log.dropped + node.todo
    && NoDup(log.sent)
    && (forall b :: b in log.sent ==> b < nextId)
    && (log.slot.Some? ==> node.hasAsync)
    && (node.todo != [] ==> log.slot.Some?)
    && (node.stage.Emptied? || node.stage.Released? ==> node.todo == [])
  }

  predicate StageOk(node: Node, log: Log, owner: ProcState) {
    match owner
    case Open => node.stage.Serving? && log.dropped == [] && (node.hasAsync <==> log.slot.Some?)
    case Closing => true
    case Drained => node.stage.Released?
    case Gone => node.stage.Released?
  }

  predicate NodeOk(s: State, n: nat)
    requires n in s.nodes
  {
    var node := s.nodes[n];
    && n in s.logs && node.owner in s.procs
    && LogOk(node, s.logs[n], s.nextId)
    && StageOk(node, s.logs[n], s.procs[node.owner])
    && (s.procs[node.owner] != Gone && s.logs[n].slot.Some? ==>
          var b := s.logs[n].slot.value;
          b in s.buffers && s.buffers[b].node == n && s.buffers[b].phase.Outstanding())
    && (forall b :: b in node.todo ==> b in s.buffers && s.buffers[b] == Buffer(n, Waiting))
  }

  predicate PhaseOk(s: State, n: nat, b: nat, ph: Phase)
    requires n in s.nodes && n in s.logs && s.nodes[n].owner in s.procs
  {
    var p := s.nodes[n].owner;
    match ph
    case Building => b !in s.logs[n].sent
    case Refused => b !in s.logs[n].sent
    case Waiting => b in s.nodes[n].todo
    case Runnable(ThreadTodo(t)) => s.logs[n].slot == Some(b) && t in s.threads && s.threads[t].proc == p
    case Runnable(ProcTodo(q)) => s.logs[n].slot == Some(b) && q == p && (s.procs[p].Open? || s.procs[p].Closing?)
    case Taken(t) => s.logs[n].slot == Some(b) && s.procs[p].Open? && t in s.threads && s.threads[t] == Thread(p, true)
    case Delivered => s.logs[n].slot == Some(b)
    case Lost => s.logs[n].slot == Some(b)
    case Freeing => s.logs[n].slot == Some(b) && s.procs[p].Open?
    case Finished => s.procs[p].Open? && b in s.logs[n].finished
    case Dropped => !s.procs[p].Open?
  }

  predicate BufferOk(s: State, b: nat)
    requires b in s.buffers
  {
    var n := s.buffers[b].node;
    && b < s.nextId && n in s.nodes && n in s.logs && s.nodes[n].owner in s.procs
    && s.procs[s.nodes[n].owner] != Gone
    && PhaseOk(s, n, b, s.buffers[b].phase)
  }

  predicate ThreadOk(s: State, t: nat)
    requires t in s.threads
  {
    && s.threads[t].proc in s.procs
    && (s.procs[s.threads[t].proc].Open? || s.procs[s.threads[t].proc].Closing?)
  }

  predicate Inv(s: State) {
    && (forall n :: n in s.nodes ==> NodeOk(s, n))
    && (forall b :: b in s.buffers ==> BufferOk(s, b))
    && (forall t :: t in s.threads ==> ThreadOk(s, t))
  }

  lemma InvNode(s: State, n: nat)
    requires Inv(s) && n in s.nodes
    ensures NodeOk(s, n)
  {
  }

  lemma InvBuffer(s: State, b: nat)
    requires Inv(s) && b in s.buffers
    ensures BufferOk(s, b) && NodeOk(s, s.buffers[b].node)
  {
  }

  /** The tables a section at node `n` looks into. */
  lemma InvTables(s: State, n: nat)
    requires Inv(s) && n in s.nodes
    ensures n in s.logs && s.nodes[n].owner in s.procs
    ensures s.nodes[n].todo != [] ==> s.nodes[n].todo[0] in s.buffers && s.buffers[s.nodes[n].todo[0]] == Buffer(n, Waiting)
  {
    assert NodeOk(s, n);
  }

  // ---------- what a step at one node leaves alone ----------

  predicate SameElsewhere(s: State, s': State, n: nat) {
    && s'.procs == s.procs && s'.threads == s.threads && s'.nextId >= s.nextId
    && s'.nodes.Keys == s.nodes.Keys && n in s.nodes && n in s.logs && n in s'.logs
    && (forall m :: m in s.nodes && m != n ==> s'.nodes[m] == s.nodes[m])
    && s'.nodes[n].owner == s.nodes[n].owner
    && (forall m :: m in s.logs && m != n ==> m in s'.logs && s'.logs[m] == s.logs[m])
    && (forall b :: b in s.buffers && s.buffers[b].node != n ==> b in s'.buffers && s'.buffers[b] == s.buffers[b])
    && (forall b :: b in s'.buffers && s'.buffers[b].node != n ==> b in s.buffers && s'.buffers[b] == s.buffers[b])
  }

  lemma OneNodeKeepsInv(s: State, s': State, n: nat)
    requires Inv(s) && SameElsewhere(s, s', n) && NodeOk(s', n)
    requires forall b :: b in s'.buffers && s'.buffers[b].node == n ==> BufferOk(s', b)
    ensures Inv(s')
  {
    forall m | m in s'.nodes && m != n
      ensures NodeOk(s', m)
    {
      assert NodeOk(s, m);
    }
    forall b | b in s'.buffers && s'.buffers[b].node != n
      ensures BufferOk(s', b)
    {
      assert BufferOk(s, b);
    }
    forall t | t in s'.threads
      ensures ThreadOk(s', t)
    {
      assert ThreadOk(s, t);
    }
  }

  function Put(s: State, b: nat, ph: Phase): State
    requires b in s.buffers
  {
    s.(buffers := s.buffers[b := s.buffers[b].(phase := ph)])
  }

  /** An outstanding buffer goes on to another outstanding phase: the node does not notice. */
  lemma PutKeepsInv(s: State, b: nat, ph: Phase)
    requires Inv(s) && b in s.buffers && s.buffers[b].phase.Outstanding() && ph.Outstanding()
    requires BufferOk(Put(s, b, ph), b)
    ensures Inv(Put(s, b, ph))
  {
    var n := s.buffers[b].node;
    var s' := Put(s, b, ph);
    assert BufferOk(s, b) && NodeOk(s, n);
    forall x | x in s'.buffers && s'.buffers[x].node == n
      ensures BufferOk(s', x)
    {
      assert BufferOk(s, x);
    }
    OneNodeKeepsInv(s, s', n);
  }

  /** A buffer that is not on its node's books comes, goes or is refused. */
  lemma StrayKeepsInv(s: State, s': State, n: nat, b: nat)
    requires Inv(s) && SameElsewhere(s, s', n) && s.nodes[n].owner in s.procs && s'.nodes[n].(hasAsync := s.nodes[n].hasAsync) == s.nodes[n] && s'.logs[n] == s.logs[n]
    requires s'.nodes[n].hasAsync == s.nodes[n].hasAsync || (s'.nodes[n].hasAsync && !s.procs[s.nodes[n].owner].Open?)
    requires forall x :: x != b && x in s.buffers ==> x in s'.buffers && s'.buffers[x] == s.buffers[x]
    requires forall x :: x != b && x in s'.buffers ==> x in s.buffers
    requires b in s.buffers ==> s.buffers[b].node == n && !s.buffers[b].phase.Outstanding() && !s.buffers[b].phase.Waiting?
    requires b in s'.buffers ==> s'.buffers[b].node == n && BufferOk(s', b)
    ensures Inv(s')
  {
    assert NodeOk(s, n);
    forall x | x in s'.buffers && s'.buffers[x].node == n
      ensures BufferOk(s', x)
    {
      if x != b {
        assert BufferOk(s, x);
      }
    }
    OneNodeKeepsInv(s, s', n);
  }
}
