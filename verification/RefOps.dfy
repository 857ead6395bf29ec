/** The operations on nodes and refs, each one section under the locks. */
module RefOps {
  import opened Common
  import opened RefGraph

  const INITIAL: State := State(map[], map[], map[], map[], map[], None, 0, Dues(multiset{}, multiset{}, multiset{}, multiset{}, multiset{}))

  lemma InitialInv()
    ensures Inv(INITIAL)
  {
  }

  predicate IsCtx(s: State, n: nat) {
    s.ctx == Some(n)
  }

  predicate Live(s: State, n: nat) {
    n in s.nodes && s.nodes[n].proc.Some?
  }

  /** Storing the outcome of a decrement. */
  function Settle(s: State, n: nat, d: Dec, dues: Dues): State
    requires n in s.nodes
  {
    match d
    case Kept(x) => s.(nodes := s.nodes[n := x], dues := dues)
    case Gone => s.(nodes := s.nodes - {n}, byPtr := WithoutPtr(s, n), dues := dues)
  }

  /** A decrement never leaves a node that nothing keeps, and queues the work that tells user
      space about a last reference. */
  lemma DecNFacts(x: Node, strong: bool, internal: bool)
    requires strong && internal ==> x.internalStrong > 0
    requires x.proc.None? ==> x.work == Idle(false)
    requires x.proc.Some? ==> Announced(x) && (x.hasStrong ==> x.hasWeak)
    ensures var d := DecN(x, strong, internal);
            && (d.Kept? ==>
                  && d.node == x.(internalStrong := d.node.internalStrong, localStrong := d.node.localStrong, localWeak := d.node.localWeak, work := d.node.work)
                  && d.node.internalStrong == x.internalStrong - One(strong && internal)
                  && d.node.localStrong == x.localStrong - One(strong && !internal)
                  && d.node.localWeak == x.localWeak - One(!strong && !internal)
                  && (x.proc.Some? ==> Announced(d.node))
                  && (x.proc.None? ==> d.node.work == Idle(false)))
            && (d.Gone? ==>
                  && x.list == {} && x.temps == 0
                  && x.localStrong == One(strong && !internal) && x.localWeak == One(!strong && !internal)
                  && !(x.proc.Some? && (x.hasStrong || x.hasWeak)))
  {
  }

  // ---------- temporary references and local counts ----------

  /** The tail of `binder_get_node`: a temporary reference. */
  function TakeTemp(s: State, n: nat): State
    requires n in s.nodes
  {
    s.(nodes := s.nodes[n := s.nodes[n].(temps := s.nodes[n].temps + 1)], dues := s.dues.(temps := s.dues.temps + multiset{n}))
  }

  lemma TakeTempKeepsInv(s: State, n: nat)
    requires Inv(s) && n in s.nodes
    ensures Inv(TakeTemp(s, n))
  {
    hide Inv;
    InvNode(s, n);
    NodeKept(s, TakeTemp(s, n), n);
  }

  /** `binder_put_node`, that is `binder_dec_node_tmpref`; the BUG_ON is the requirement that
      the caller holds a temporary reference. */
  function DropTemp(s: State, n: nat): State
    requires n in s.nodes && s.dues.temps[n] > 0
  {
    var x := s.nodes[n].(temps := s.nodes[n].temps - 1);
    Settle(s, n, DecN(x, false, true), s.dues.(temps := s.dues.temps - multiset{n}))
  }

  lemma DropTempKeepsInv(s: State, n: nat)
    requires Inv(s) && n in s.nodes && s.dues.temps[n] > 0
    ensures Inv(DropTemp(s, n))
  {
    hide Inv;
    InvNode(s, n);
    CtxIsLocal(s, n);
    var d := DecN(s.nodes[n].(temps := s.nodes[n].temps - 1), false, true);
    if d.Gone? {
      NodeGone(s, DropTemp(s, n), n);
    } else {
      NodeKept(s, DropTemp(s, n), n);
    }
  }

  /** The node of the context manager holds a local reference on itself. */
  lemma CtxIsLocal(s: State, n: nat)
    requires Inv(s) && n in s.nodes
    ensures s.ctx == Some(n) ==> s.nodes[n].proc.Some? && s.nodes[n].localStrong > 0 && s.nodes[n].localWeak > 0
  {
    hide NodeOk;
    InvNode(s, n);
    InvTrees(s);
    if s.dues.managers[n] > 0 {
      CtxCounts(s, n);
    }
  }

  lemma CtxCounts(s: State, n: nat)
    requires n in s.nodes && NodeOk(s, n) && s.dues.managers[n] > 0
    ensures s.nodes[n].proc.Some? ==> s.nodes[n].localStrong > 0 && s.nodes[n].localWeak > 0
  {
  }

  function TakenDue(d: Dues, n: nat, strong: bool): Dues {
    if strong then d.(strongObjects := d.strongObjects + multiset{n}) else d.(weakObjects := d.weakObjects + multiset{n})
  }

  function DroppedDue(d: Dues, n: nat, strong: bool): Dues {
    if strong then d.(strongObjects := d.strongObjects - multiset{n}) else d.(weakObjects := d.weakObjects - multiset{n})
  }

  /** An object naming the receiver's own node: a local reference, whatever
      `binder_inc_node_nilocked` answers. */
  function AddObject(s: State, n: nat, strong: bool): State
    requires Live(s, n)
  {
    s.(nodes := s.nodes[n := IncN(s.nodes[n], IsCtx(s, n), strong, false, None).node], dues := TakenDue(s.dues, n, strong))
  }

  lemma AddObjectKeepsInv(s: State, n: nat, strong: bool)
    requires Inv(s) && Live(s, n)
    ensures Inv(AddObject(s, n, strong))
  {
    hide Inv;
    InvNode(s, n);
    NodeKept(s, AddObject(s, n, strong), n);
  }

  /** Releasing such an object, whose node may have lost its process since it was looked up. */
  function DropObject(s: State, n: nat, strong: bool): State
    requires n in s.nodes
  {
    Settle(s, n, DecN(s.nodes[n], strong, false), DroppedDue(s.dues, n, strong))
  }

  lemma DroppedDues(s: State, n: nat, strong: bool)
    requires Live(s, n) ==> if strong then s.dues.strongObjects[n] > 0 else s.dues.weakObjects[n] > 0
    ensures var d := DroppedDue(s.dues, n, strong);
            && OnlyDuesOf(s.dues, d, n) && d.managers == s.dues.managers && d.targets == s.dues.targets && d.temps == s.dues.temps
            && (Live(s, n) ==>
                  && d.strongObjects[n] == s.dues.strongObjects[n] - One(strong)
                  && d.weakObjects[n] == s.dues.weakObjects[n] - One(!strong))
  {
  }

  lemma DropObjectKeepsInv(s: State, n: nat, strong: bool)
    requires Inv(s) && n in s.nodes && s.dues.temps[n] > 0
    requires Live(s, n) ==> if strong then s.dues.strongObjects[n] > 0 else s.dues.weakObjects[n] > 0
    ensures Inv(DropObject(s, n, strong)) && n in DropObject(s, n, strong).nodes
  {
    hide Inv;
    InvNode(s, n);
    DecNFacts(s.nodes[n], strong, false);
    DroppedDues(s, n, strong);
    hide DecN, DroppedDue, OnlyDuesOf, Announced;
    NodeKept(s, DropObject(s, n, strong), n);
  }

  /** `binder_get_node_refs_for_txn`: a strong reference for the transaction and a temporary
      one while it is built. */
  function TakeTarget(s: State, n: nat): State
    requires Live(s, n)
  {
    var x := IncN(s.nodes[n], IsCtx(s, n), true, false, None).node;
    s.(nodes := s.nodes[n := x.(temps := x.temps + 1)],
       dues := s.dues.(targets := s.dues.targets + multiset{n}, temps := s.dues.temps + multiset{n}))
  }

  lemma TakeTargetKeepsInv(s: State, n: nat)
    requires Inv(s) && Live(s, n)
    ensures Inv(TakeTarget(s, n))
  {
    hide Inv;
    InvNode(s, n);
    NodeKept(s, TakeTarget(s, n), n);
  }

  /** The head of `binder_transaction_buffer_release`: the buffer's target loses its strong
      reference, and may go with it. */
  function DropTarget(s: State, n: nat): State
    requires n in s.nodes
  {
    Settle(s, n, DecN(s.nodes[n], true, false), s.dues.(targets := s.dues.targets - multiset{n}))
  }

  lemma DropTargetKeepsInv(s: State, n: nat)
    requires Inv(s) && n in s.nodes && (Live(s, n) ==> s.dues.targets[n] > 0)
    ensures Inv(DropTarget(s, n))
  {
    hide Inv;
    InvNode(s, n);
    CtxIsLocal(s, n);
    if DecN(s.nodes[n], true, false).Gone? {
      GoneIsUnused(s, n);
      NodeGone(s, DropTarget(s, n), n);
    } else {
      NodeKept(s, DropTarget(s, n), n);
    }
  }

  /** A node about to go is not the context manager's. */
  lemma GoneIsUnused(s: State, n: nat)
    requires Inv(s) && n in s.nodes && DecN(s.nodes[n], true, false).Gone? && (Live(s, n) ==> s.dues.targets[n] > 0)
    ensures s.ctx != Some(n) && s.dues.temps[n] == 0 && s.nodes[n].list == {}
  {
    hide Inv;
    InvNode(s, n);
    CtxIsLocal(s, n);
  }

  // ---------- the handshake with user space ----------

  /** The node work of `binder_thread_read`. */
  function WorkN(x: Node): Node {
    var strong, weak := Strong(x), Weak(x);
    var a := if weak && !x.hasWeak then x.(hasWeak := true, pendingWeak := true, localWeak := x.localWeak + 1) else x;
    var b := if strong && !x.hasStrong then a.(hasStrong := true, pendingStrong := true, localStrong := x.localStrong + 1) else a;
    var c := if !strong && x.hasStrong then b.(hasStrong := false) else b;
    var d := if !weak && x.hasWeak then c.(hasWeak := false) else c;
    d.(work := Idle(false))
  }

  /** What user space is sent for a node. */
  datatype Command = BrIncrefs | BrAcquire | BrRelease | BrDecrefs

  /** The commands that the node work writes, in order. */
  function CommandsFor(x: Node): seq<Command> {
    (if Weak(x) && !x.hasWeak then [BrIncrefs] else []) + (if Strong(x) && !x.hasStrong then [BrAcquire] else [])
    + (if !Strong(x) && x.hasStrong then [BrRelease] else []) + (if !Weak(x) && x.hasWeak then [BrDecrefs] else [])
  }

  /** After the read of a node's work, if the node survives it, user space knows of exactly the
      references there are; a count that answers for a reference user space has just been told
      of is pending, and nothing else about the node has changed. */
  lemma NodeWorkExact(s: State, n: nat)
    requires Live(s, n) && OnList(s.nodes[n])
    ensures n in NodeWork(s, n).nodes <==> Weak(s.nodes[n])
    ensures Weak(s.nodes[n]) ==>
              var x, y := s.nodes[n], NodeWork(s, n).nodes[n];
              && y.hasStrong == Strong(x) && y.hasWeak && y.work == Idle(false)
              && y.pendingStrong == (x.pendingStrong || (Strong(x) && !x.hasStrong))
              && y.pendingWeak == (x.pendingWeak || !x.hasWeak)
              && y.localStrong == x.localStrong + One(Strong(x) && !x.hasStrong)
              && y.localWeak == x.localWeak + One(!x.hasWeak)
              && y.proc == x.proc && y.ptr == x.ptr && y.cookie == x.cookie && y.list == x.list
              && y.internalStrong == x.internalStrong && y.temps == x.temps
    ensures forall m :: m in s.nodes && m != n ==> m in NodeWork(s, n).nodes && NodeWork(s, n).nodes[m] == s.nodes[m]
  {
  }

  function NodeWork(s: State, n: nat): State
    requires Live(s, n) && OnList(s.nodes[n])
  {
    Settle(s, n, if Weak(s.nodes[n]) then Kept(WorkN(s.nodes[n])) else Gone, s.dues)
  }

  lemma NodeWorkKeepsInv(s: State, n: nat)
    requires Inv(s) && Live(s, n) && OnList(s.nodes[n])
    ensures Inv(NodeWork(s, n))
  {
    hide Inv;
    InvNode(s, n);
    CtxIsLocal(s, n);
    if Weak(s.nodes[n]) {
      NodeKept(s, NodeWork(s, n), n);
    } else {
      NodeGone(s, NodeWork(s, n), n);
    }
  }

  /** A node's work item on the list of a thread that has left, in `binder_release_work`. */
  function ThrowWork(s: State, n: nat): State
    requires Live(s, n)
  {
    s.(nodes := s.nodes[n := s.nodes[n].(work := Idle(true))])
  }

  lemma ThrowWorkKeepsInv(s: State, n: nat)
    requires Inv(s) && Live(s, n)
    ensures Inv(ThrowWork(s, n))
  {
    hide Inv;
    InvNode(s, n);
    NodeKept(s, ThrowWork(s, n), n);
  }

  /** BC_ACQUIRE_DONE and BC_INCREFS_DONE, while the command holds a temporary reference: the
      warning about a freed node cannot fire. */
  function Done(s: State, n: nat, strong: bool): State
    requires Inv(s) && Live(s, n) && s.dues.temps[n] > 0
    requires if strong then s.nodes[n].pendingStrong else s.nodes[n].pendingWeak
  {
    InvNode(s, n);
    var x := if strong then s.nodes[n].(pendingStrong := false) else s.nodes[n].(pendingWeak := false);
    DecNFacts(s.nodes[n], strong, false);
    var d := DecN(x, strong, false);
    assert d.Kept?;  // WARN_ON(free_node)
    s.(nodes := s.nodes[n := d.node])
  }

  /** The answer takes the pending mark and the count that went with it, and nothing else, except
      that the work announcing a last reference may go on a list. */
  lemma DoneExact(s: State, n: nat, strong: bool)
    requires Inv(s) && Live(s, n) && s.dues.temps[n] > 0
    requires if strong then s.nodes[n].pendingStrong else s.nodes[n].pendingWeak
    ensures var s' := Done(s, n, strong); var x := s.nodes[n];
            && n in s'.nodes
            && s' == s.(nodes := s.nodes[n := s'.nodes[n]])
            && s'.nodes[n] == x.(pendingStrong := x.pendingStrong && !strong, pendingWeak := x.pendingWeak && strong,
                                 localStrong := x.localStrong - One(strong), localWeak := x.localWeak - One(!strong), work := s'.nodes[n].work)
            && (s'.nodes[n].work == x.work || (x.work.Idle? && s'.nodes[n].work == OnProc))
  {
    hide Inv;
    InvNode(s, n);
  }

  lemma DoneKeepsInv(s: State, n: nat, strong: bool)
    requires Inv(s) && Live(s, n) && s.dues.temps[n] > 0
    requires if strong then s.nodes[n].pendingStrong else s.nodes[n].pendingWeak
    ensures Inv(Done(s, n, strong))
  {
    hide Inv;
    InvNode(s, n);
    var x := if strong then s.nodes[n].(pendingStrong := false) else s.nodes[n].(pendingWeak := false);
    DecNFacts(x, strong, false);
    NodeKept(s, Done(s, n, strong), n);
  }

  // ---------- nodes come and go ----------

  /** `binder_init_node_ilocked` for a pointer that has no node yet. */
  function NewNode(s: State, p: nat, ptr: nat, cookie: nat): State {
    var x := Node(Some(p), ptr, cookie, 0, 0, 0, 1, false, false, false, false, {}, Idle(false));
    s.(nodes := s.nodes[s.nextId := x], byPtr := s.byPtr[(p, ptr) := s.nextId], nextId := s.nextId + 1,
       dues := s.dues.(temps := s.dues.temps + multiset{s.nextId}))
  }

  lemma NewIdIsNotDue(s: State)
    requires Inv(s)
    ensures !IsDue(s.dues, s.nextId)
  {
    hide Inv, NodesOk, RefsOk;
    InvTrees(s);
  }

  lemma NewNodeItself(s: State, p: nat, ptr: nat, cookie: nat)
    requires Inv(s)
    ensures NodeOk(NewNode(s, p, ptr, cookie), s.nextId)
  {
    hide Inv;
    NewIdIsNotDue(s);
    assert StrongRefs(s.refs, {}) == {};
  }

  lemma NewNodeOthers(s: State, p: nat, ptr: nat, cookie: nat, m: nat)
    requires (p, ptr) !in s.byPtr && m in s.nodes && NodeOk(s, m) && s.nextId !in s.nodes
    ensures NodeOk(NewNode(s, p, ptr, cookie), m)
  {
  }

  lemma NewNodeTrees(s: State, p: nat, ptr: nat, cookie: nat)
    requires TreesOk(s) && (p, ptr) !in s.byPtr && s.nextId !in s.nodes
    ensures TreesOk(NewNode(s, p, ptr, cookie))
  {
    var s' := NewNode(s, p, ptr, cookie);
    forall m | m in s'.dues.temps
      ensures m in s'.nodes
    {
      assert m == s.nextId || m in s.dues.temps;
    }
    forall m: nat | IsDue(s'.dues, m)
      ensures m < s'.nextId
    {
      assert m != s.nextId ==> IsDue(s.dues, m);
    }
  }

  lemma NewNodeRef(s: State, p: nat, ptr: nat, cookie: nat, r: nat)
    requires r in s.refs && RefOk(s, r) && s.nextId !in s.nodes
    ensures RefOk(NewNode(s, p, ptr, cookie), r)
  {
  }

  lemma NewNodeKeepsInv(s: State, p: nat, ptr: nat, cookie: nat)
    requires Inv(s) && (p, ptr) !in s.byPtr
    ensures Inv(NewNode(s, p, ptr, cookie))
  {
    hide NodeOk, TreesOk, RefOk;
    var s' := NewNode(s, p, ptr, cookie);
    NewIdUnused(s);
    NewNodeItself(s, p, ptr, cookie);
    NewNodeTrees(s, p, ptr, cookie);
    forall m | m in s'.nodes
      ensures NodeOk(s', m)
    {
      if m != s.nextId {
        NewNodeOthers(s, p, ptr, cookie, m);
      }
    }
    forall r | r in s'.refs
      ensures RefOk(s', r)
    {
      NewNodeRef(s, p, ptr, cookie, r);
    }
  }

  /** `binder_ioctl_set_ctx_mgr` once the node is there. */
  function SetCtx(s: State, n: nat): State
    requires Live(s, n) && s.ctx.None?
  {
    var x := s.nodes[n];
    s.(nodes := s.nodes[n := x.(localWeak := x.localWeak + 1, localStrong := x.localStrong + 1, hasStrong := true, hasWeak := true)],
       ctx := Some(n), dues := s.dues.(managers := s.dues.managers + multiset{n}))
  }

  lemma CtxChanged(s: State, s': State)
    requires Inv(s) && s' == s.(ctx := s'.ctx)
    requires s'.ctx.Some? ==> s'.ctx.value in s.nodes && s.nodes[s'.ctx.value].proc.Some? && s.dues.managers[s'.ctx.value] > 0
    ensures Inv(s')
  {
    hide NodeOk, RefOk;
    forall n | n in s'.nodes
      ensures NodeOk(s', n)
    {
      SameForNode(s, s', n);
    }
    forall r | r in s'.refs
      ensures RefOk(s', r)
    {
      SameForRef(s, s', r);
    }
  }

  lemma SameForNode(s: State, s': State, n: nat)
    requires n in s.nodes && NodeOk(s, n) && s' == s.(ctx := s'.ctx)
    ensures NodeOk(s', n)
  {
  }

  lemma SameForRef(s: State, s': State, r: nat)
    requires r in s.refs && RefOk(s, r) && s' == s.(ctx := s'.ctx)
    ensures RefOk(s', r)
  {
  }

  lemma SetCtxKeepsInv(s: State, n: nat)
    requires Inv(s) && Live(s, n) && s.ctx.None?
    ensures Inv(SetCtx(s, n))
  {
    hide Inv;
    InvNode(s, n);
    var s' := SetCtx(s, n);
    NodeKept(s, s'.(ctx := s.ctx), n);
    CtxChanged(s'.(ctx := s.ctx), s');
  }

  /** The head of `binder_deferred_release`: the context loses its manager. */
  lemma ClearCtxKeepsInv(s: State)
    requires Inv(s)
    ensures Inv(s.(ctx := None))
  {
    hide Inv;
    CtxChanged(s, s.(ctx := None));
  }

  /** `binder_node_release`, with the temporary reference that its caller takes and it gives
      back. */
  function NodeDies(s: State, n: nat): State
    requires Live(s, n)
  {
    var x := s.nodes[n];
    if x.list == {} && x.temps == 0 then s.(nodes := s.nodes - {n}, byPtr := WithoutPtr(s, n))
    else s.(nodes := s.nodes[n := x.(proc := None, localStrong := 0, localWeak := 0, work := Idle(false))], byPtr := WithoutPtr(s, n))
  }

  lemma DyingNode(s: State, n: nat)
    requires Live(s, n) && NodeOk(s, n) && n in NodeDies(s, n).nodes
    ensures NodeOk(NodeDies(s, n), n)
  {
  }

  lemma DyingTrees(s: State, n: nat)
    requires TreesOk(s) && Live(s, n) && NodeOk(s, n) && s.ctx != Some(n) && n in NodeDies(s, n).nodes
    ensures TreesOk(NodeDies(s, n))
    ensures forall k :: k in s.byPtr && s.byPtr[k] != n ==> k in NodeDies(s, n).byPtr && NodeDies(s, n).byPtr[k] == s.byPtr[k]
  {
    hide LocalOk, Announced;
  }

  lemma DyingRef(s: State, n: nat, r: nat)
    requires Live(s, n) && r in s.refs && RefOk(s, r) && n in NodeDies(s, n).nodes
    ensures RefOk(NodeDies(s, n), r)
  {
  }

  lemma NodeDiesKeepsInv(s: State, n: nat)
    requires Inv(s) && Live(s, n) && s.ctx != Some(n)
    ensures Inv(NodeDies(s, n))
  {
    hide NodeOk, RefOk, TreesOk;
    var s' := NodeDies(s, n);
    InvNode(s, n);
    if n !in s'.nodes {
      TempsAreDue(s, n);
      NodeGone(s, s', n);
    } else {
      DyingNode(s, n);
      DyingTrees(s, n);
      assert Local(s, s', n);
      forall m | m in s'.nodes
        ensures NodeOk(s', m)
      {
        if m != n {
          OtherNode(s, s', n, m);
        }
      }
      forall r | r in s'.refs
        ensures RefOk(s', r)
      {
        DyingRef(s, n, r);
      }
    }
  }

  lemma TempsAreDue(s: State, n: nat)
    requires n in s.nodes && NodeOk(s, n)
    ensures s.nodes[n].temps == s.dues.temps[n]
  {
  }

  // ---------- refs ----------

  /** `binder_get_ref_olocked`. */
  function FindRef(s: State, p: nat, desc: nat, needStrong: bool): Option<nat> {
    if (p, desc) !in s.byDesc then None
    else
      var r := s.byDesc[(p, desc)];
      if r in s.refs && needStrong && s.refs[r].strong == 0 then None else Some(r)
  }

  /** The handle a new ref gets: the least one from `start` that the process does not use. */
  function LeastFree(used: set<(nat, nat)>, p: nat, start: nat): nat
    decreases |used|
  {
    if (p, start) in used then LeastFree(used - {(p, start)}, p, start + 1) else start
  }

  lemma {:induction false} LeastFreeIsLeast(used: set<(nat, nat)>, p: nat, start: nat)
    ensures var d := LeastFree(used, p, start);
            d >= start && (p, d) !in used && forall e :: start <= e < d ==> (p, e) in used
    decreases |used|
  {
    if (p, start) in used {
      LeastFreeIsLeast(used - {(p, start)}, p, start + 1);
    }
  }

  function HandleFor(s: State, p: nat, n: nat): nat {
    LeastFree(s.byDesc.Keys, p, if s.ctx == Some(n) then 0 else 1)
  }

  /** The second half of `binder_get_ref_for_node_olocked`. */
  function AddRef(s: State, p: nat, n: nat): State
    requires n in s.nodes
  {
    var d := HandleFor(s, p, n);
    s.(refs := s.refs[s.nextId := Ref(p, n, d, 0, 0)], nextId := s.nextId + 1,
       nodes := s.nodes[n := s.nodes[n].(list := s.nodes[n].list + {s.nextId})],
       byDesc := s.byDesc[(p, d) := s.nextId], byNode := s.byNode[(p, n) := s.nextId])
  }

  lemma AddRefKeepsInv(s: State, p: nat, n: nat)
    requires Inv(s) && n in s.nodes && (p, n) !in s.byNode
    ensures Inv(AddRef(s, p, n))
    ensures s.nextId !in s.refs && (p, HandleFor(s, p, n)) !in s.byDesc
  {
    hide Inv;
    NewIdUnused(s);
    LeastFreeIsLeast(s.byDesc.Keys, p, if s.ctx == Some(n) then 0 else 1);
    RefAdded(s, AddRef(s, p, n), s.nextId);
  }

  datatype RefInc = RefInc(state: State, ok: bool)

  /** `binder_inc_ref_olocked`. */
  function IncRef(s: State, r: nat, strong: bool, todo: Option<nat>): RefInc
    requires r in s.refs && s.refs[r].node in s.nodes
  {
    var x := s.refs[r];
    var inc := IncN(s.nodes[x.node], IsCtx(s, x.node), strong, true, todo);
    var first := if strong then x.strong == 0 else x.weak == 0;
    if first && !inc.ok then RefInc(s, false)
    else
      var y := if strong then x.(strong := x.strong + 1) else x.(weak := x.weak + 1);
      RefInc(s.(refs := s.refs[r := y], nodes := if first then s.nodes[x.node := inc.node] else s.nodes), true)
  }

  lemma IncRefKeepsInv(s: State, r: nat, strong: bool, todo: Option<nat>)
    requires Inv(s) && r in s.refs && s.refs[r].node in s.nodes && (todo.Some? ==> Live(s, s.refs[r].node))
    ensures Inv(IncRef(s, r, strong, todo).state)
  {
    hide Inv;
    var s' := IncRef(s, r, strong, todo).state;
    var n := s.refs[r].node;
    InvRef(s, r);
    InvNode(s, n);
    if s' != s {
      IncNFacts(s.nodes[n], IsCtx(s, n), strong, todo);
      assert s'.nodes == s.nodes[n := s'.nodes[n]];
      RefChanged(s, s', n, r);
    }
  }

  lemma IncNFacts(x: Node, isCtx: bool, strong: bool, todo: Option<nat>)
    requires x.proc.None? ==> x.work == Idle(false) && todo.None?
    requires x.proc.Some? ==> Announced(x)
    ensures var y := IncN(x, isCtx, strong, true, todo);
            y.ok ==>
              && y.node == x.(internalStrong := x.internalStrong + One(strong), work := y.node.work)
              && (x.proc.Some? ==> Announced(y.node)) && (x.proc.None? ==> y.node.work == Idle(false))
  {
  }

  /** `binder_inc_ref_for_node`: a ref that the increment refuses stays, with both counts 0. */
  function IncRefForNode(s: State, p: nat, n: nat, strong: bool, todo: Option<nat>): RefInc
    requires Inv(s) && n in s.nodes
  {
    if (p, n) in s.byNode then
      InvTrees(s);
      IncRef(s, s.byNode[(p, n)], strong, todo)
    else
      IncRef(AddRef(s, p, n), s.nextId, strong, todo)
  }

  lemma IncRefForNodeKeepsInv(s: State, p: nat, n: nat, strong: bool, todo: Option<nat>)
    requires Inv(s) && n in s.nodes && (todo.Some? ==> Live(s, n))
    ensures Inv(IncRefForNode(s, p, n, strong, todo).state)
  {
    hide Inv;
    InvTrees(s);
    hide TreesOk;
    if (p, n) in s.byNode {
      ByNodeIsRef(s, p, n);
      IncRefKeepsInv(s, s.byNode[(p, n)], strong, todo);
    } else {
      AddRefKeepsInv(s, p, n);
      IncRefKeepsInv(AddRef(s, p, n), s.nextId, strong, todo);
    }
  }

  lemma ByNodeIsRef(s: State, p: nat, n: nat)
    requires Inv(s) && (p, n) in s.byNode
    ensures var r := s.byNode[(p, n)]; r in s.refs && s.refs[r].node == n && s.refs[r].proc == p && n in s.nodes
  {
    hide NodeOk, RefOk;
    InvRef(s, s.byNode[(p, n)]);
  }

  predicate Counted(s: State, r: nat)
    requires r in s.refs
  {
    var x := s.refs[r];
    && x.node in s.nodes && r in s.nodes[x.node].list
    && (x.strong > 0 ==> s.nodes[x.node].internalStrong > 0)
  }

  lemma StrongIsCounted(s: State, r: nat)
    requires Inv(s) && r in s.refs
    ensures Counted(s, r)
  {
    hide Inv;
    InvRef(s, r);
    var n := s.refs[r].node;
    InvNode(s, n);
    if s.refs[r].strong > 0 {
      assert r in StrongRefs(s.refs, s.nodes[n].list);
    }
  }

  /** Lowering the strong count of a ref; the last one is a decrement of the node, which
      cannot free it because the ref is still on its list. */
  function LowerStrong(s: State, r: nat, strong: nat): State
    requires r in s.refs && Counted(s, r) && strong < s.refs[r].strong
  {
    var x := s.refs[r];
    var s1 := s.(refs := s.refs[r := x.(strong := strong)]);
    if strong > 0 then s1
    else
      var d := DecN(s.nodes[x.node], true, true);
      assert d.Kept?;
      s1.(nodes := s.nodes[x.node := d.node])
  }

  lemma LowerStrongKeepsInv(s: State, r: nat, strong: nat)
    requires Inv(s) && r in s.refs && Counted(s, r) && strong < s.refs[r].strong
    ensures Inv(LowerStrong(s, r, strong))
  {
    hide Inv;
    StrongIsCounted(s, r);
    var n := s.refs[r].node;
    var s' := LowerStrong(s, r, strong);
    InvNode(s, n);
    DecNFacts(s.nodes[n], true, true);
    assert s'.nodes == s.nodes[n := s'.nodes[n]];
    RefChanged(s, s', n, r);
  }

  /** Taking a ref without strong count out of the trees and off the node's list, and its node
      with it if that was the last thing that kept it. */
  function TakeOut(s: State, r: nat): State
    requires r in s.refs && s.refs[r].node in s.nodes
  {
    var x := s.refs[r];
    var y := s.nodes[x.node].(list := s.nodes[x.node].list - {r});
    Settle(s.(refs := s.refs - {r}, byDesc := s.byDesc - {(x.proc, x.desc)}, byNode := s.byNode - {(x.proc, x.node)}), x.node, DecN(y, false, true), s.dues)
  }

  lemma TakeOutKeepsInv(s: State, r: nat)
    requires Inv(s) && r in s.refs && s.refs[r].node in s.nodes && s.refs[r].strong == 0
    ensures Inv(TakeOut(s, r)) && r !in TakeOut(s, r).refs
  {
    hide Inv;
    var x := s.refs[r];
    var n := x.node;
    InvNode(s, n);
    CtxIsLocal(s, n);
    var y := s.nodes[n].(list := s.nodes[n].list - {r});
    if DecN(y, false, true).Kept? {
      TakenOutNode(s, n, r);
      RefRemoved(s, TakeOut(s, r), n, r);
    } else {
      // first the ref, as if the node stayed, then the node
      var z := if y.proc.Some? then y.(work := OnProc, hasWeak := true) else y;
      var s1 := s.(refs := s.refs - {r}, byDesc := s.byDesc - {(x.proc, x.desc)}, byNode := s.byNode - {(x.proc, n)}, nodes := s.nodes[n := z]);
      RefRemoved(s, s1, n, r);
      assert TakeOut(s, r).nodes == s1.nodes - {n};
      NodeGone(s1, TakeOut(s, r), n);
    }
  }

  lemma TakenOutNode(s: State, n: nat, r: nat)
    requires n in s.nodes && NodeOk(s, n) && DecN(s.nodes[n].(list := s.nodes[n].list - {r}), false, true).Kept?
    ensures var y := s.nodes[n].(list := s.nodes[n].list - {r});
            var z := DecN(y, false, true).node;
            && z == y.(work := z.work)
            && (z.proc.Some? ==> Announced(z)) && (z.proc.None? ==> z.work == Idle(false))
  {
  }

  /** `binder_cleanup_ref_olocked` and `binder_free_ref`. */
  function Cleanup(s: State, r: nat): State
    requires Inv(s) && r in s.refs
  {
    hide Inv;
    InvRef(s, r);
    StrongIsCounted(s, r);
    if s.refs[r].strong > 0 then
      LowerStrongKeepsInv(s, r, 0);
      TakeOut(LowerStrong(s, r, 0), r)
    else TakeOut(s, r)
  }

  lemma CleanupKeepsInv(s: State, r: nat)
    requires Inv(s) && r in s.refs
    ensures Inv(Cleanup(s, r)) && r !in Cleanup(s, r).refs
  {
    hide Inv;
    InvRef(s, r);
    StrongIsCounted(s, r);
    if s.refs[r].strong > 0 {
      LowerStrongKeepsInv(s, r, 0);
      TakeOutKeepsInv(LowerStrong(s, r, 0), r);
    } else {
      TakeOutKeepsInv(s, r);
    }
  }

  /** `binder_dec_ref_olocked`, with the ref freed when both counts reach 0. */
  function DecRef(s: State, r: nat, strong: bool): State
    requires Inv(s) && r in s.refs
  {
    hide Inv;
    InvRef(s, r);
    StrongIsCounted(s, r);
    var x := s.refs[r];
    if (if strong then x.strong == 0 else x.weak == 0) then s
    else if strong then
      LowerStrongKeepsInv(s, r, x.strong - 1);
      var s1 := LowerStrong(s, r, x.strong - 1);
      if x.strong == 1 && x.weak == 0 then TakeOut(s1, r) else s1
    else
      var s1 := s.(refs := s.refs[r := x.(weak := x.weak - 1)]);
      if x.strong == 0 && x.weak == 1 then TakeOut(s1, r) else s1
  }

  lemma DecRefKeepsInv(s: State, r: nat, strong: bool)
    requires Inv(s) && r in s.refs
    ensures Inv(DecRef(s, r, strong))
  {
    hide Inv;
    InvRef(s, r);
    StrongIsCounted(s, r);
    var x := s.refs[r];
    if strong && x.strong > 0 {
      LowerStrongKeepsInv(s, r, x.strong - 1);
      var s1 := LowerStrong(s, r, x.strong - 1);
      if x.strong == 1 && x.weak == 0 {
        TakeOutKeepsInv(s1, r);
      }
    } else if !strong && x.weak > 0 {
      var s1 := s.(refs := s.refs[r := x.(weak := x.weak - 1)]);
      InvNode(s, x.node);
      assert s1.nodes == s1.nodes[x.node := s1.nodes[x.node]];
      RefChanged(s, s1, x.node, r);
      if x.strong == 0 && x.weak == 1 {
        TakeOutKeepsInv(s1, r);
      }
    }
  }

  /** No ref points to a freed node, the list of a node is exactly the refs that point to it,
      and its internal count is the number of strong ones among them. */
  lemma GraphExact(s: State, n: nat)
    requires Inv(s)
    ensures forall r :: r in s.refs ==> s.refs[r].node in s.nodes
    ensures n in s.nodes ==> s.nodes[n].list == (set r | r in s.refs && s.refs[r].node == n)
    ensures n in s.nodes ==> s.nodes[n].internalStrong == |set r | r in s.refs && s.refs[r].node == n && s.refs[r].strong > 0|
  {
    hide Inv;
    forall r | r in s.refs
      ensures s.refs[r].node in s.nodes && r in s.nodes[s.refs[r].node].list
    {
      InvRef(s, r);
    }
    if n in s.nodes {
      InvNode(s, n);
      assert StrongRefs(s.refs, s.nodes[n].list) == set r | r in s.refs && s.refs[r].node == n && s.refs[r].strong > 0;
    }
  }

  /** The two trees of a process hold the same refs: one per handle and one per node. */
  lemma TreesAgree(s: State, p: nat, r: nat)
    requires Inv(s)
    ensures (exists d :: (p, d) in s.byDesc && s.byDesc[(p, d)] == r) <==> r in s.refs && s.refs[r].proc == p
    ensures (exists n :: (p, n) in s.byNode && s.byNode[(p, n)] == r) <==> r in s.refs && s.refs[r].proc == p
  {
    hide Inv;
    InvTrees(s);
    hide NodesOk, NodeOk;
    if r in s.refs && s.refs[r].proc == p {
      InvRef(s, r);
      assert (p, s.refs[r].desc) in s.byDesc && (p, s.refs[r].node) in s.byNode;
    }
  }
}
