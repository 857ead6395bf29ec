/** What user space hears of a node agrees with the node's flags. */
module RefHandshake {
  import opened Common
  import opened RefGraph
  import opened RefOps
  import opened RefBuffers
  import opened RefRuns
  import opened RefWork

  /** What user space takes the driver to hold on one of its objects. */
  datatype Belief = Belief(strong: bool, weak: bool)

  const NOTHING: Belief := Belief(false, false)

  /** A command in its place: references are announced when they are new and taken back when
      they had been announced, the weak one first and last. */
  predicate InPlace(u: Belief, c: Command) {
    match c
    case BrIncrefs => !u.weak && !u.strong
    case BrAcquire => !u.strong && u.weak
    case BrRelease => u.strong && u.weak
    case BrDecrefs => u.weak && !u.strong
  }

  function Hears(u: Belief, c: Command): Belief {
    match c
    case BrIncrefs => u.(weak := true)
    case BrAcquire => u.(strong := true)
    case BrRelease => u.(strong := false)
    case BrDecrefs => u.(weak := false)
  }

  function HearsAll(u: Belief, cs: seq<Command>): Belief
    decreases |cs|
  {
    if cs == [] then u else HearsAll(Hears(u, cs[0]), cs[1..])
  }

  predicate AllInPlace(u: Belief, cs: seq<Command>)
    decreases |cs|
  {
    cs == [] || (InPlace(u, cs[0]) && AllInPlace(Hears(u, cs[0]), cs[1..]))
  }

  /** The commands a step sends for node n. */
  ghost function Sent(s: System, step: Step, n: nat): seq<Command>
    requires SysInv(s) && Enabled(s, step)
  {
    if step == NodeWorkRead(n) then CommandsFor(s.graph.nodes[n]) else []
  }

  /** What user space believes after a step; making a node the context manager's is its own
      doing. */
  ghost function Believes(s: System, step: Step, n: nat, u: Belief): Belief
    requires SysInv(s) && Enabled(s, step)
  {
    if step == ManagerSet(n) then Belief(true, true) else HearsAll(u, Sent(s, step, n))
  }

  /** The node's flags; user space owns no node that has not been made or has been freed. */
  function Flags(s: System, n: nat): Belief {
    if Live(s.graph, n) then Belief(s.graph.nodes[n].hasStrong, s.graph.nodes[n].hasWeak) else NOTHING
  }

  lemma {:induction false} Unroll(u: Belief, cs: seq<Command>)
    requires |cs| <= 2
    ensures |cs| == 0 ==> HearsAll(u, cs) == u && AllInPlace(u, cs)
    ensures |cs| == 1 ==> HearsAll(u, cs) == Hears(u, cs[0]) && (AllInPlace(u, cs) <==> InPlace(u, cs[0]))
    ensures |cs| == 2 ==>
              && HearsAll(u, cs) == Hears(Hears(u, cs[0]), cs[1])
              && (AllInPlace(u, cs) <==> InPlace(u, cs[0]) && InPlace(Hears(u, cs[0]), cs[1]))
    decreases |cs|
  {
    if |cs| == 1 {
      assert cs[1..] == [];
    } else if |cs| == 2 {
      Unroll(Hears(u, cs[0]), cs[1..]);
    }
  }

  /** The commands for one node: all in place, and user space ends with what there is. */
  lemma CommandsAgree(x: Node)
    requires x.hasStrong ==> x.hasWeak
    ensures var u := Belief(x.hasStrong, x.hasWeak);
            AllInPlace(u, CommandsFor(x)) && HearsAll(u, CommandsFor(x)) == Belief(Strong(x), Weak(x))
  {
    Unroll(Belief(x.hasStrong, x.hasWeak), CommandsFor(x));
  }

  lemma ReadAgrees(s: System, n: nat)
    requires SysInv(s) && Enabled(s, NodeWorkRead(n))
    ensures var step := NodeWorkRead(n);
            && AllInPlace(Flags(s, n), Sent(s, step, n))
            && Flags(Next(s, step), n) == HearsAll(Flags(s, n), Sent(s, step, n))
  {
    SysGraph(s);
    InvNode(s.graph, n);
    CommandsAgree(s.graph.nodes[n]);
    NodeWorkExact(s.graph, n);
    hide SysInv, Inv, NodeWork, CommandsFor, HearsAll, AllInPlace;
  }

  lemma OthersAgree(s: System, step: Step, n: nat)
    requires SysInv(s) && Enabled(s, step) && step != NodeWorkRead(n)
    requires step != RefRuns.NodeDies(n)
    ensures Flags(Next(s, step), n) == if step == ManagerSet(n) then Belief(true, true) else Flags(s, n)
  {
    hide SysInv, Enabled, Next;
    if step == WorkThrownAway(n) {
      ThrowAgrees(s, n);
    } else if Takes(step, n) {
      TakenWork(s, step, n);
    } else {
      StepWorks(s, step, n);
    }
  }

  lemma ThrowAgrees(s: System, n: nat)
    requires SysInv(s) && Enabled(s, WorkThrownAway(n))
    ensures Flags(Next(s, WorkThrownAway(n)), n) == Flags(s, n)
  {
    hide SysInv, Inv;
  }

  /** One step: every command is in its place, and afterwards user space believes what the flags
      say. */
  lemma StepAgrees(s: System, step: Step, n: nat)
    requires SysInv(s) && Enabled(s, step) && step != RefRuns.NodeDies(n)
    ensures AllInPlace(Flags(s, n), Sent(s, step, n))
    ensures Flags(Next(s, step), n) == Believes(s, step, n, Flags(s, n))
  {
    hide SysInv, Enabled, Next, Flags;
    if step == NodeWorkRead(n) {
      ReadAgrees(s, n);
    } else {
      OthersAgree(s, step, n);
    }
  }

  /** What user space believes along a run, and whether every command came in its place. */
  ghost function BeliefAfter(s: System, steps: seq<Step>, n: nat, u: Belief): Belief
    requires SysInv(s) && IsRun(s, steps)
    decreases |steps|
  {
    hide SysInv, Enabled, Next;
    if steps == [] then u
    else
      RunParts(s, steps);
      BeliefAfter(Next(s, steps[0]), steps[1..], n, Believes(s, steps[0], n, u))
  }

  ghost predicate CommandsInPlace(s: System, steps: seq<Step>, n: nat, u: Belief)
    requires SysInv(s) && IsRun(s, steps)
    decreases |steps|
  {
    hide SysInv, Enabled, Next;
    steps == [] ||
    (RunParts(s, steps);
     AllInPlace(u, Sent(s, steps[0], n)) && CommandsInPlace(Next(s, steps[0]), steps[1..], n, Believes(s, steps[0], n, u)))
  }

  /** Over any run in which the node's process lives, every BR_INCREFS, BR_ACQUIRE, BR_RELEASE and
      BR_DECREFS for the node comes in its place, and what they leave user space believing is what
      the flags say; nothing, once the node is gone. */
  lemma {:induction false} UserSpaceAgrees(s: System, steps: seq<Step>, n: nat)
    requires SysInv(s) && IsRun(s, steps) && RefRuns.NodeDies(n) !in steps
    ensures CommandsInPlace(s, steps, n, Flags(s, n))
    ensures BeliefAfter(s, steps, n, Flags(s, n)) == Flags(End(s, steps), n)
    decreases |steps|
  {
    hide SysInv, Enabled, Next, Flags, Sent, Believes, AllInPlace;
    if steps != [] {
      RunParts(s, steps);
      StepAgrees(s, steps[0], n);
      assert steps == [steps[0]] + steps[1..];
      UserSpaceAgrees(Next(s, steps[0]), steps[1..], n);
    }
  }
}
