/** Giving counts back: `binder_transaction_buffer_release` object by object, and the death of
    processes.  Every count given back was there: what `RefOps` asks of its callers is proved
    here from the buffers. */
module RefTeardown {
  import opened Common
  import opened RefGraph
  import opened RefOps
  import opened RefCounts
  import opened RefUndo
  import opened RefEffects
  import opened RefBuffers
  import opened RefClaims
  import opened RefSystem

  /** What is given back to node n, if its process is gone by then. */
  function LateAfter(s: System, n: nat, strong: bool): Late
    requires n in s.graph.nodes
  {
    if s.graph.nodes[n].proc.Some? then s.late
    else if strong then s.late.(strong := s.late.strong + multiset{n})
    else s.late.(weak := s.late.weak + multiset{n})
  }

  lemma LateAfterShift(s: System, s': System, n: nat, strong: bool)
    requires n in s.graph.nodes && s'.late == LateAfter(s, n, strong)
    ensures LateShift(s, s', n, 0 - One(strong), 0 - One(!strong))
  {
  }

  // ---------- the head of binder_transaction_buffer_release ----------

  /** The sender fails, or the owner frees a delivered buffer. */
  predicate CanRelease(s: System, b: nat, how: Phase) {
    && b in s.buffers
    && match how
       case Aborting => s.buffers[b].phase.Building?
       case Freeing => s.buffers[b].phase.Delivered? && s.buffers[b].owner !in s.closing
       case _ => false
  }

  /** The node a buffer targets is there when its reference is given back. */
  lemma TargetIsDue(s: System, b: nat, how: Phase)
    requires SysInv(s) && CanRelease(s, b, how) && s.buffers[b].target.Some?
    ensures var n := s.buffers[b].target.value;
            n in s.graph.nodes && (Live(s.graph, n) ==> s.graph.dues.targets[n] > 0)
  {
    SysGraph(s);
    SysBuffer(s, b);
    var n := s.buffers[b].target.value;
    SysNode(s, n);
    TargetIsThere(s.buffers, b);
  }

  function Untargeted(x: Buffer, how: Phase): Buffer {
    x.(phase := how, target := None)
  }

  function Release(s: System, b: nat, how: Phase): System
    requires SysInv(s) && CanRelease(s, b, how)
  {
    match s.buffers[b].target
    case None => WithBuffer(s, b, Untargeted(s.buffers[b], how), s.graph, s.late)
    case Some(n) =>
      TargetIsDue(s, b, how);
      WithBuffer(s, b, Untargeted(s.buffers[b], how), DropTarget(s.graph, n), LateAfter(s, n, true))
  }

  lemma UntargetedOk(s: System, b: nat, how: Phase)
    requires SysInv(s) && CanRelease(s, b, how)
    ensures BufferOk(s.graph, s.closing, s.held, Untargeted(s.buffers[b], how))
  {
    SysBuffer(s, b);
  }

  lemma ReleaseClaims(s: System, b: nat, how: Phase)
    requires SysInv(s) && CanRelease(s, b, how) && s.buffers[b].target.Some?
    ensures ClaimsShift(s, Release(s, b, how), s.buffers[b].target.value, -1, 0, 0, 0)
  {
    hide SysInv, Naming, Targeting, Holders, DropTarget;
    var n := s.buffers[b].target.value;
    var x := Untargeted(s.buffers[b], how);
    forall m | m in s.graph.nodes
      ensures ClaimShift(s, Release(s, b, how), m, At(m, n, -1), 0, 0, 0)
    {
      TargetingChanged(s.buffers, b, x, m);
      if s.graph.nodes[m].proc.Some? {
        NamingKept(s.buffers, b, x, s.graph.nodes[m].proc.value, s.graph.nodes[m].ptr, true);
        NamingKept(s.buffers, b, x, s.graph.nodes[m].proc.value, s.graph.nodes[m].ptr, false);
      }
    }
  }

  lemma ReleaseKeepsInv(s: System, b: nat, how: Phase)
    requires SysInv(s) && CanRelease(s, b, how)
    ensures SysInv(Release(s, b, how))
  {
    hide SysInv, Effect, ClaimsShift, Inv, LateShift, BufferOk, DropTarget;
    SysGraph(s);
    UntargetedOk(s, b, how);
    var x := Untargeted(s.buffers[b], how);
    match s.buffers[b].target
    case None =>
      NoEffect(s.graph);
      SameBufferClaims(s, b, x, s.graph);
      SameLate(s, Release(s, b, how), 0);
      BufferKeepsInv(s, b, x, s.graph, s.late, 0, 0, 0, 0);
    case Some(n) =>
      TargetIsDue(s, b, how);
      DropTargetEffect(s.graph, n);
      ReleaseClaims(s, b, how);
      LateAfterShift(s, Release(s, b, how), n, true);
      BufferKeepsInv(s, b, x, DropTarget(s.graph, n), LateAfter(s, n, true), n, -1, 0, 0);
  }

  // ---------- one object after the other ----------

  /** The next object of a buffer being released, with no operation under way for it. */
  predicate HasNext(s: System, b: nat) {
    && b in s.buffers && (s.buffers[b].phase.Aborting? || s.buffers[b].phase.Freeing?) && s.buffers[b].at.None?
    && s.buffers[b].done < |s.buffers[b].objs|
  }

  function NextObject(s: System, b: nat): Object
    requires HasNext(s, b)
  {
    s.buffers[b].objs[s.buffers[b].done]
  }

  function Advanced(x: Buffer): Buffer {
    x.(done := x.done + 1, at := None)
  }

  lemma AdvancedOk(g: State, closing: set<nat>, held: map<nat, nat>, x: Buffer)
    requires BufferOk(g, closing, held, x) && (x.phase.Aborting? || x.phase.Freeing?) && x.done < |x.objs|
    ensures BufferOk(g, closing, held, Advanced(x))
  {
  }

  /** The object is not one that names a live node. */
  lemma AdvancedClaims(s: System, b: nat, g: State)
    requires b in s.buffers && s.buffers[b].done < |s.buffers[b].objs| && Inv(s.graph)
    requires var o := s.buffers[b].objs[s.buffers[b].done]; o.Binder? ==> (s.buffers[b].owner, o.ptr) !in s.graph.byPtr
    ensures ClaimsShift(s, WithBuffer(s, b, Advanced(s.buffers[b]), g, s.late), 0, 0, 0, 0, 0)
  {
    hide Naming, Targeting, Holders, Inv;
    var x := Advanced(s.buffers[b]);
    forall m | m in s.graph.nodes
      ensures ClaimShift(s, WithBuffer(s, b, x, g, s.late), m, 0, 0, 0, 0)
    {
      TargetingChanged(s.buffers, b, x, m);
      InvPtr(s.graph, m);
      if s.graph.nodes[m].proc.Some? {
        NamingAdvanced(s.buffers, b, x, s.graph.nodes[m].proc.value, s.graph.nodes[m].ptr, true);
        NamingAdvanced(s.buffers, b, x, s.graph.nodes[m].proc.value, s.graph.nodes[m].ptr, false);
      }
    }
  }

  lemma AdvanceKeepsInv(s: System, b: nat, g: State)
    requires SysInv(s) && HasNext(s, b) && Effect(s.graph, g, 0, 0, 0, 0, 0)
    requires NextObject(s, b).Binder? ==> (s.buffers[b].owner, NextObject(s, b).ptr) !in s.graph.byPtr
    ensures SysInv(WithBuffer(s, b, Advanced(s.buffers[b]), g, s.late))
  {
    hide SysInv, Effect, ClaimsShift, Inv, LateShift, BufferOk;
    SysGraph(s);
    SysBuffer(s, b);
    AdvancedOk(s.graph, s.closing, s.held, s.buffers[b]);
    AdvancedClaims(s, b, g);
    SameLate(s, WithBuffer(s, b, Advanced(s.buffers[b]), g, s.late), 0);
    BufferKeepsInv(s, b, Advanced(s.buffers[b]), g, s.late, 0, 0, 0, 0);
  }

  /** Objects that stand for a count of a ref, or for none. */
  predicate CanReleaseOther(s: System, b: nat) {
    HasNext(s, b) && !NextObject(s, b).Binder?
  }

  /** `binder_dec_ref_for_handle` with the handle in the object; a bad one is passed over. */
  function ReleaseOther(s: System, b: nat): System
    requires SysInv(s) && CanReleaseOther(s, b)
  {
    hide SysInv;
    SysGraph(s);
    var x := s.buffers[b];
    var g := match NextObject(s, b)
             case Handle(desc, strong) =>
               if FindRef(s.graph, x.owner, desc, strong).Some? then
                 RefIsThere(s, x.owner, desc, strong);
                 DecRef(s.graph, FindRef(s.graph, x.owner, desc, strong).value, strong)
               else s.graph
             case _ => s.graph;
    WithBuffer(s, b, Advanced(x), g, s.late)
  }

  lemma ReleaseOtherKeepsInv(s: System, b: nat)
    requires SysInv(s) && CanReleaseOther(s, b)
    ensures SysInv(ReleaseOther(s, b))
  {
    hide SysInv, Effect, Inv, DecRef, FindRef;
    SysGraph(s);
    NoEffect(s.graph);
    match NextObject(s, b)
    case Handle(desc, strong) =>
      var found := FindRef(s.graph, s.buffers[b].owner, desc, strong);
      if found.Some? {
        RefIsThere(s, s.buffers[b].owner, desc, strong);
        DecRefEffect(s.graph, found.value, strong);
        AdvanceKeepsInv(s, b, DecRef(s.graph, found.value, strong));
      } else {
        AdvanceKeepsInv(s, b, s.graph);
      }
    case _ => AdvanceKeepsInv(s, b, s.graph);
  }

  /** An object that names a node: first the node is looked up by the pointer in the object. */
  predicate CanLookup(s: System, b: nat, op: nat) {
    && HasNext(s, b) && NextObject(s, b).Binder? && op !in s.held
    && (s.buffers[b].owner, NextObject(s, b).ptr) in s.graph.byPtr
  }

  /** No such node: possible only when the buffer's owner is going. */
  predicate CanPassOver(s: System, b: nat) {
    HasNext(s, b) && NextObject(s, b).Binder? && (s.buffers[b].owner, NextObject(s, b).ptr) !in s.graph.byPtr
  }

  function PassOver(s: System, b: nat): System
    requires CanPassOver(s, b)
  {
    WithBuffer(s, b, Advanced(s.buffers[b]), s.graph, s.late)
  }

  lemma PassOverKeepsInv(s: System, b: nat)
    requires SysInv(s) && CanPassOver(s, b)
    ensures SysInv(PassOver(s, b))
    ensures s.buffers[b].owner in s.closing
  {
    SysGraph(s);
    SysBuffer(s, b);
    NoEffect(s.graph);
    AdvanceKeepsInv(s, b, s.graph);
  }

  function Lookup(s: System, b: nat, op: nat): System
    requires SysInv(s) && CanLookup(s, b, op)
  {
    NodeIsThere(s, s.buffers[b].owner, NextObject(s, b).ptr);
    Hold(s, op, s.graph.byPtr[(s.buffers[b].owner, NextObject(s, b).ptr)]).(buffers := s.buffers[b := s.buffers[b].(at := Some(op))])
  }

  lemma LookupKeepsInv(s: System, b: nat, op: nat)
    requires SysInv(s) && CanLookup(s, b, op)
    ensures SysInv(Lookup(s, b, op))
  {
    hide SysInv, Effect, ClaimsShift, Inv, LateShift;
    var n := s.graph.byPtr[(s.buffers[b].owner, NextObject(s, b).ptr)];
    NodeIsThere(s, s.buffers[b].owner, NextObject(s, b).ptr);
    HoldKeepsInv(s, op, n);
    var s1 := Hold(s, op, n);
    var x := s.buffers[b].(at := Some(op));
    SysGraph(s1);
    SysBuffer(s1, b);
    NoEffect(s1.graph);
    SameBufferClaims(s1, b, x, s1.graph);
    SameLate(s1, WithBuffer(s1, b, x, s1.graph, s1.late), 0);
    assert BufferOk(s1.graph, s1.closing, s1.held, x);
    hide BufferOk;
    BufferKeepsInv(s1, b, x, s1.graph, s1.late, 0, 0, 0, 0);
  }

  /** ... then its local count is given back, whatever has become of its process. */
  predicate CanGive(s: System, b: nat) {
    b in s.buffers && s.buffers[b].at.Some?
  }

  lemma GivenIsDue(s: System, b: nat)
    requires SysInv(s) && CanGive(s, b)
    ensures var x := s.buffers[b];
            && x.done < |x.objs| && x.objs[x.done].Binder? && x.at.value in s.held && (x.phase.Aborting? || x.phase.Freeing?)
            && var n := s.held[x.at.value]; var o := x.objs[x.done];
              && n in s.graph.nodes && s.graph.dues.temps[n] > 0
              && (Live(s.graph, n) ==> if o.strong then s.graph.dues.strongObjects[n] > 0 else s.graph.dues.weakObjects[n] > 0)
              && (Live(s.graph, n) ==> s.graph.nodes[n].proc == Some(x.owner) && s.graph.nodes[n].ptr == o.ptr)
              && (!Live(s.graph, n) ==> (x.owner, o.ptr) !in s.graph.byPtr)
  {
    SysGraph(s);
    SysBuffer(s, b);
    var x := s.buffers[b];
    var n := s.held[x.at.value];
    HeldIsDue(s, x.at.value);
    SysNode(s, n);
    InvPtr(s.graph, n);
    NamedIsThere(s.buffers, b, x.done);
  }

  function Give(s: System, b: nat): System
    requires SysInv(s) && CanGive(s, b)
  {
    GivenIsDue(s, b);
    var x := s.buffers[b];
    var n := s.held[x.at.value];
    var strong := x.objs[x.done].strong;
    WithBuffer(s, b, Advanced(x), DropObject(s.graph, n, strong), LateAfter(s, n, strong))
  }

  lemma GiveClaims(s: System, b: nat)
    requires SysInv(s) && CanGive(s, b)
    ensures var x := s.buffers[b];
            && x.at.value in s.held && x.done < |x.objs| && x.objs[x.done].Binder?
            && ClaimsShift(s, Give(s, b), s.held[x.at.value], 0, 0 - One(x.objs[x.done].strong), 0 - One(!x.objs[x.done].strong), 0)
  {
    hide SysInv, Naming, Targeting, Holders, Inv, DropObject, LateAfter;
    GivenIsDue(s, b);
    SysGraph(s);
    var x := s.buffers[b];
    var n := s.held[x.at.value];
    var o := x.objs[x.done];
    forall m | m in s.graph.nodes
      ensures ClaimShift(s, Give(s, b), m, 0, At(m, n, 0 - One(o.strong)), At(m, n, 0 - One(!o.strong)), 0)
    {
      GivenClaim(s, b, m);
    }
  }

  lemma GivenClaim(s: System, b: nat, m: nat)
    requires SysInv(s) && CanGive(s, b) && m in s.graph.nodes
    ensures var x := s.buffers[b];
            && x.at.value in s.held && x.done < |x.objs| && x.objs[x.done].Binder?
            && var n := s.held[x.at.value]; var o := x.objs[x.done];
              ClaimShift(s, Give(s, b), m, 0, At(m, n, 0 - One(o.strong)), At(m, n, 0 - One(!o.strong)), 0)
  {
    hide SysInv, Naming, Targeting, Holders, Inv, DropObject, LateAfter;
    GivenIsDue(s, b);
    SysGraph(s);
    var x := s.buffers[b];
    var n := s.held[x.at.value];
    TargetingChanged(s.buffers, b, Advanced(x), m);
    InvPtr(s.graph, m);
    if s.graph.nodes[m].proc.Some? {
      NamingAdvanced(s.buffers, b, Advanced(x), s.graph.nodes[m].proc.value, s.graph.nodes[m].ptr, true);
      NamingAdvanced(s.buffers, b, Advanced(x), s.graph.nodes[m].proc.value, s.graph.nodes[m].ptr, false);
      if s.graph.nodes[m].proc == Some(x.owner) && s.graph.nodes[m].ptr == x.objs[x.done].ptr {
        OneNodePerName(s.graph, m, n);
      }
    }
  }

  lemma GiveKeepsInv(s: System, b: nat)
    requires SysInv(s) && CanGive(s, b)
    ensures SysInv(Give(s, b))
  {
    hide SysInv, Effect, ClaimsShift, Inv, LateShift, BufferOk, DropObject, LateAfter;
    GivenIsDue(s, b);
    SysGraph(s);
    SysBuffer(s, b);
    var x := s.buffers[b];
    var n := s.held[x.at.value];
    var strong := x.objs[x.done].strong;
    DropObjectEffect(s.graph, n, strong);
    GiveClaims(s, b);
    AdvancedOk(s.graph, s.closing, s.held, x);
    LateAfterShift(s, Give(s, b), n, strong);
    BufferKeepsInv(s, b, Advanced(x), DropObject(s.graph, n, strong), LateAfter(s, n, strong), n, 0, 0 - One(strong), 0 - One(!strong));
  }

  predicate CanEnd(s: System, b: nat) {
    && b in s.buffers && (s.buffers[b].phase.Aborting? || s.buffers[b].phase.Freeing?)
    && s.buffers[b].at.None? && s.buffers[b].done == |s.buffers[b].objs|
  }

  /** `binder_alloc_free_buf`. */
  function EndRelease(s: System, b: nat): System {
    s.(buffers := s.buffers - {b})
  }

  lemma EndReleaseKeepsInv(s: System, b: nat)
    requires SysInv(s) && CanEnd(s, b)
    ensures SysInv(EndRelease(s, b))
  {
    hide SysInv, Effect, Inv, LateShift, BufferOk, Naming, Targeting, Holders;
    SysGraph(s);
    NoEffect(s.graph);
    var s' := EndRelease(s, b);
    assert s.buffers[b].target.None? by {
      ReleasedHasNoTarget(s, b);
    }
    forall m | m in s.graph.nodes
      ensures ClaimShift(s, s', m, 0, 0, 0, 0)
    {
      TargetingRemoved(s.buffers, b, m);
      if s.graph.nodes[m].proc.Some? {
        NamingRemoved(s.buffers, b, s.graph.nodes[m].proc.value, s.graph.nodes[m].ptr, true);
        NamingRemoved(s.buffers, b, s.graph.nodes[m].proc.value, s.graph.nodes[m].ptr, false);
      }
    }
    forall c | c in s'.buffers
      ensures BufferOk(s.graph, s.closing, s'.held, s'.buffers[c])
    {
      SysBuffer(s, c);
    }
    SameLate(s, s', 0);
    BalancedKeepsInv(s, s', 0, 0, 0, 0, 0);
  }

  lemma ReleasedHasNoTarget(s: System, b: nat)
    requires SysInv(s) && CanEnd(s, b)
    ensures s.buffers[b].target.None?
  {
    SysBuffer(s, b);
  }
}
