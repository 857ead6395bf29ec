/** What every step does to the history of a node and to every one-way buffer, said without the
    queues. */
module AsyncTable {
  import opened Common
  import opened AsyncQueue
  import opened AsyncSteps
  import opened AsyncRelease
  import opened AsyncRuns

  function PhaseOf(s: State, b: nat): Option<Phase> {
    if b in s.buffers then Some(s.buffers[b].phase) else None
  }

  predicate IsOn(s: State, b: nat, n: nat) {
    b in s.buffers && s.buffers[b].node == n
  }

  predicate Accepting(s: State, n: nat) {
    n in s.nodes && s.nodes[n].owner in s.procs && s.procs[s.nodes[n].owner].Open?
  }

  /** The earliest transaction accepted for a node that has neither been started nor thrown out. */
  function NextInLine(log: Log): Option<nat> {
    var k := |Started(log)| + |log.dropped|;
    if k < |log.sent| then Some(log.sent[k]) else None
  }

  /** The history of node n after a step. */
  function LogAfter(s: State, step: Step, n: nat): Log
    requires Inv(s) && Enabled(s, step) && n in s.logs
  {
    var log := s.logs[n];
    match step
    case Sends(b, _) =>
      if IsOn(s, b, n) && Accepting(s, n) then log.(sent := log.sent + [b], slot := if log.slot.None? then Some(b) else log.slot)
      else log
    case Advances(b) => if IsOn(s, b, n) then log.(finished := log.finished + [b], slot := NextInLine(log)) else log
    case Drops(m) => if m == n && NextInLine(log).Some? then log.(dropped := log.dropped + [NextInLine(log).value]) else log
    case _ => log
  }

  /** The life of buffer b after a step. */
  function PhaseAfter(s: State, step: Step, b: nat): Option<Phase>
    requires Inv(s) && Enabled(s, step)
  {
    var ph := PhaseOf(s, b);
    match step
    case Begins(_) => if b == s.nextId then Some(Building) else ph
    case Sends(x, to) =>
      if b != x then ph
      else
        var n := s.buffers[b].node;
        if !Accepting(s, n) then Some(Refused)
        else if n in s.logs && s.logs[n].slot.Some? then Some(Waiting)
        else Some(Runnable(to))
    case Discards(x) => if b == x then None else ph
    case Takes(x, t) => if b == x then Some(Taken(t)) else ph
    case Ends(x, outcome) => if b == x then Some(outcome) else ph
    case Frees(x) => if b == x then Some(Freeing) else ph
    case Advances(x) =>
      var n := s.buffers[x].node;
      if b == x then Some(Finished)
      else if n in s.logs && NextInLine(s.logs[n]) == Some(b) && n in s.nodes then Some(Runnable(ProcTodo(s.nodes[n].owner)))
      else ph
    case Loses(x) => if b == x then Some(Lost) else ph
    case Drops(n) => if n in s.logs && NextInLine(s.logs[n]) == Some(b) then Some(Dropped) else ph
    case ProcFreed(p) => if IsOf(s, b, p) then None else ph
    case _ => ph
  }

  /** The queue of a node is what is left of the accepted ones. */
  lemma QueueIsRest(node: Node, log: Log, next: nat)
    requires LogOk(node, log, next)
    ensures node.todo == log.sent[|Started(log)| + |log.dropped|..]
    ensures NextInLine(log) == if node.todo == [] then None else Some(node.todo[0])
  {
    hide NoDup, Started;
    assert log.sent == (Started(log) + log.dropped) + node.todo;
  }

  lemma SendTable(s: State, b: nat, to: Todo, n: nat, x: nat)
    requires Inv(s) && Enabled(s, Sends(b, to)) && n in s.logs
    ensures n in Next(s, Sends(b, to)).logs && Next(s, Sends(b, to)).logs[n] == LogAfter(s, Sends(b, to), n)
    ensures PhaseOf(Next(s, Sends(b, to)), x) == PhaseAfter(s, Sends(b, to), x)
  {
    InvBuffer(s, b);
    hide Inv, LogOk, PhaseOk;
  }

  lemma AdvanceTable(s: State, b: nat, n: nat, x: nat)
    requires Inv(s) && Enabled(s, Advances(b)) && n in s.logs
    ensures n in Next(s, Advances(b)).logs && Next(s, Advances(b)).logs[n] == LogAfter(s, Advances(b), n)
    ensures PhaseOf(Next(s, Advances(b)), x) == PhaseAfter(s, Advances(b), x)
  {
    InvBuffer(s, b);
    var m := s.buffers[b].node;
    QueueIsRest(s.nodes[m], s.logs[m], s.nextId);
    hide Inv, LogOk, NextInLine, StageOk, NoDup, Started;
    if s.nodes[m].todo != [] {
      assert s.nodes[m].todo[0] in s.nodes[m].todo;
    }
  }

  lemma DropTable(s: State, m: nat, n: nat, x: nat)
    requires Inv(s) && Enabled(s, Drops(m)) && n in s.logs
    ensures n in Next(s, Drops(m)).logs && Next(s, Drops(m)).logs[n] == LogAfter(s, Drops(m), n)
    ensures PhaseOf(Next(s, Drops(m)), x) == PhaseAfter(s, Drops(m), x)
  {
    InvNode(s, m);
    QueueIsRest(s.nodes[m], s.logs[m], s.nextId);
    hide Inv, LogOk, NextInLine;
  }

  lemma OtherTable(s: State, step: Step, n: nat, x: nat)
    requires Inv(s) && Enabled(s, step) && !step.Sends? && !step.Advances? && !step.Drops? && n in s.logs
    ensures n in Next(s, step).logs && Next(s, step).logs[n] == LogAfter(s, step, n)
    ensures PhaseOf(Next(s, step), x) == PhaseAfter(s, step, x)
  {
    hide Inv, NextInLine;
  }

  /** Every step changes the history of every node, and the life of every buffer, exactly so: in
      particular a transaction sent to an open process is accepted and started at once when
      nothing of its node is outstanding, and freeing an outstanding buffer starts the next in
      line. */
  lemma StepTable(s: State, step: Step, n: nat, b: nat)
    requires Inv(s) && Enabled(s, step) && n in s.logs
    ensures n in Next(s, step).logs && Next(s, step).logs[n] == LogAfter(s, step, n)
    ensures PhaseOf(Next(s, step), b) == PhaseAfter(s, step, b)
  {
    hide Inv, Enabled, Next, LogAfter, PhaseAfter;
    match step
    case Sends(x, to) => SendTable(s, x, to, n, b);
    case Advances(x) => AdvanceTable(s, x, n, b);
    case Drops(m) => DropTable(s, m, n, b);
    case _ => OtherTable(s, step, n, b);
  }
}
