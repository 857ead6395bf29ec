/** Nodes, the references other processes hold on them, and the counts that keep a node alive. */
module RefGraph {
  import opened Common

  /** Where a node's work item is: on the list of a thread of its process, on that of the
      process, or on none.  `thrown` is history: the item was thrown away with the list of a
      thread that left, and has not been put on a list since. */
  datatype Work = Idle(thrown: bool) | OnThread(thread: nat) | OnProc

  /** `struct binder_node`.  `list` is the set of refs on the node's hlist. */
  datatype Node = Node(
    proc: Option<nat>,
    ptr: nat,
    cookie: nat,
    internalStrong: nat,
    localStrong: int,
    localWeak: int,
    temps: int,
    hasStrong: bool,
    pendingStrong: bool,
    hasWeak: bool,
    pendingWeak: bool,
    list: set<nat>,
    work: Work)

  /** `struct binder_ref`. */
  datatype Ref = Ref(proc: nat, node: nat, desc: nat, strong: nat, weak: nat)

  /** Specification only: who is entitled to which local or temporary count.  The context
      manager's own reference, transactions and buffers that target a node, flattened objects
      in live buffers that name it, and operations in progress. */
  datatype Dues = Dues(managers: multiset<nat>, targets: multiset<nat>, strongObjects: multiset<nat>, weakObjects: multiset<nat>, temps: multiset<nat>)

  /** The trees of all processes: refs by handle and by node, nodes by user pointer. */
  datatype State = State(
    nodes: map<nat, Node>,
    refs: map<nat, Ref>,
    byDesc: map<(nat, nat), nat>,
    byNode: map<(nat, nat), nat>,
    byPtr: map<(nat, nat), nat>,
    ctx: Option<nat>,
    nextId: nat,
    dues: Dues)

  // ---------- one node ----------

  function One(b: bool): nat {
    if b then 1 else 0
  }

  /** `strong` and `weak` as computed by the node work in `binder_thread_read`. */
  predicate Strong(x: Node) {
    x.internalStrong != 0 || x.localStrong != 0
  }

  predicate Weak(x: Node) {
    x.list != {} || x.localWeak != 0 || x.temps != 0 || Strong(x)
  }

  datatype Inc = Inc(node: Node, ok: bool)

  /** `binder_inc_node_nilocked`; `todo` is the thread whose list was passed, if one was. */
  function IncN(x: Node, isCtx: bool, strong: bool, internal: bool, todo: Option<nat>): Inc {
    if strong then
      if internal && todo.None? && x.internalStrong == 0 && !(x.proc.Some? && isCtx && x.hasStrong) then Inc(x, false)
      else
        var y := if internal then x.(internalStrong := x.internalStrong + 1) else x.(localStrong := x.localStrong + 1);
        Inc(if !y.hasStrong && todo.Some? then y.(work := OnThread(todo.value)) else y, true)
    else
      var y := if internal then x else x.(localWeak := x.localWeak + 1);
      if !y.hasWeak && y.work.Idle? then
        if todo.Some? then Inc(y.(work := OnThread(todo.value)), true) else Inc(y, false)
      else Inc(y, true)
  }

  datatype Dec = Gone | Kept(node: Node)

  /** `binder_dec_node_nilocked`; Gone when the caller has to free the node. */
  function DecN(x: Node, strong: bool, internal: bool): Dec
    requires strong && internal ==> x.internalStrong > 0
  {
    var y := if strong then
               if internal then x.(internalStrong := x.internalStrong - 1) else x.(localStrong := x.localStrong - 1)
             else if internal then x else x.(localWeak := x.localWeak - 1);
    if strong && (y.localStrong != 0 || y.internalStrong != 0) then Kept(y)
    else if !strong && (y.localWeak != 0 || y.temps != 0 || y.list != {}) then Kept(y)
    else if y.proc.Some? && (y.hasStrong || y.hasWeak) then Kept(if y.work.Idle? then y.(work := OnProc) else y)
    else if y.list == {} && y.localStrong == 0 && y.localWeak == 0 && y.temps == 0 then Gone
    else Kept(y)
  }

  // ---------- the invariant ----------

  ghost function StrongRefs(refs: map<nat, Ref>, list: set<nat>): set<nat> {
    set r | r in list && r in refs && refs[r].strong > 0
  }

  /** What the local counts of a live node are made of. */
  ghost predicate LocalOk(x: Node, n: nat, dues: Dues) {
    && x.localStrong == One(x.pendingStrong) + dues.managers[n] + dues.targets[n] + dues.strongObjects[n]
    && x.localWeak == One(x.pendingWeak) + dues.managers[n] + dues.weakObjects[n]
    && (x.pendingStrong ==> x.hasStrong) && (x.pendingWeak ==> x.hasWeak) && (x.hasStrong ==> x.hasWeak)
  }

  predicate OnList(x: Node) {
    !x.work.Idle?
  }

  /** The last strong or the last reference has gone and user space has not been told. */
  predicate Untold(x: Node) {
    (x.hasStrong && !Strong(x)) || !Weak(x)
  }

  /** Then the work item is on a list, unless it was thrown away; and user space knows of a node
      that nothing keeps, or whose work is on the process's list. */
  ghost predicate Announced(x: Node) {
    (Untold(x) ==> x.work != Idle(false)) && (!Weak(x) || x.work.OnProc? ==> x.hasStrong || x.hasWeak)
  }

  ghost predicate NodeOk(s: State, n: nat)
    requires n in s.nodes
  {
    var x := s.nodes[n];
    && n < s.nextId
    && (forall r :: r in x.list ==> r in s.refs && s.refs[r].node == n)
    && x.internalStrong == |StrongRefs(s.refs, x.list)|
    && x.temps == s.dues.temps[n]
    && (x.proc.Some? ==> LocalOk(x, n, s.dues) && Announced(x) && (x.proc.value, x.ptr) in s.byPtr && s.byPtr[(x.proc.value, x.ptr)] == n)
    && (x.proc.None? ==> x.work == Idle(false))
  }

  ghost predicate RefOk(s: State, r: nat)
    requires r in s.refs
  {
    var x := s.refs[r];
    && r < s.nextId
    && x.node in s.nodes && r in s.nodes[x.node].list
    && (x.proc, x.desc) in s.byDesc && s.byDesc[(x.proc, x.desc)] == r
    && (x.proc, x.node) in s.byNode && s.byNode[(x.proc, x.node)] == r
  }

  /** The trees hold nothing else. */
  ghost predicate TreesOk(s: State) {
    && (forall k :: k in s.byDesc ==> s.byDesc[k] in s.refs && s.refs[s.byDesc[k]].proc == k.0 && s.refs[s.byDesc[k]].desc == k.1)
    && (forall k :: k in s.byNode ==> s.byNode[k] in s.refs && s.refs[s.byNode[k]].proc == k.0 && s.refs[s.byNode[k]].node == k.1)
    && (forall k :: k in s.byPtr ==> s.byPtr[k] in s.nodes && s.nodes[s.byPtr[k]].proc == Some(k.0) && s.nodes[s.byPtr[k]].ptr == k.1)
    && (s.ctx.Some? ==> s.ctx.value in s.nodes && s.nodes[s.ctx.value].proc.Some? && s.dues.managers[s.ctx.value] > 0)
    && (forall n :: n in s.dues.temps ==> n in s.nodes)
    && (forall n: nat :: IsDue(s.dues, n) ==> n < s.nextId)
  }

  /** Somebody is or was entitled to a count on node n. */
  ghost predicate IsDue(d: Dues, n: nat) {
    d.managers[n] > 0 || d.targets[n] > 0 || d.strongObjects[n] > 0 || d.weakObjects[n] > 0 || d.temps[n] > 0
  }

  ghost predicate NodesOk(s: State) {
    forall n :: n in s.nodes ==> NodeOk(s, n)
  }

  ghost predicate RefsOk(s: State) {
    forall r :: r in s.refs ==> RefOk(s, r)
  }

  /** Ids above nextId are free. */
  ghost predicate Inv(s: State) {
    NodesOk(s) && RefsOk(s) && TreesOk(s)
  }

  lemma InvNode(s: State, n: nat)
    requires Inv(s) && n in s.nodes
    ensures NodeOk(s, n)
  {
  }

  lemma InvRef(s: State, r: nat)
    requires Inv(s) && r in s.refs
    ensures RefOk(s, r) && s.refs[r].node in s.nodes
  {
  }

  lemma InvTrees(s: State)
    requires Inv(s)
    ensures TreesOk(s) && NodesOk(s) && RefsOk(s)
  {
  }

  // ---------- changing one node and at most one ref on it ----------

  /** The dues of every node but n are the same. */
  ghost predicate OnlyDuesOf(d: Dues, d': Dues, n: nat) {
    forall m :: m != n ==>
      && d'.managers[m] == d.managers[m] && d'.targets[m] == d.targets[m] && d'.strongObjects[m] == d.strongObjects[m]
      && d'.weakObjects[m] == d.weakObjects[m] && d'.temps[m] == d.temps[m]
  }

  /** s' differs from s in node n, and in refs of that node only. */
  ghost predicate Local(s: State, s': State, n: nat) {
    && n in s.nodes && s.nextId <= s'.nextId
    && (forall m :: m != n ==> (m in s.nodes <==> m in s'.nodes))
    && (forall m :: m in s.nodes && m != n ==> s'.nodes[m] == s.nodes[m])
    && (forall r :: r in s.refs && s.refs[r].node != n ==> r in s'.refs && s'.refs[r] == s.refs[r])
    && (forall r :: r in s'.refs && s'.refs[r].node != n ==> r in s.refs && s'.refs[r] == s.refs[r])
    && OnlyDuesOf(s.dues, s'.dues, n)
  }

  lemma OtherNode(s: State, s': State, n: nat, m: nat)
    requires Local(s, s', n) && NodesOk(s) && RefsOk(s) && m in s.nodes && m != n
    requires forall k :: k in s.byPtr && s.byPtr[k] != n ==> k in s'.byPtr && s'.byPtr[k] == s.byPtr[k]
    ensures m in s'.nodes && NodeOk(s', m)
  {
    assert NodeOk(s, m);
    assert StrongRefs(s'.refs, s.nodes[m].list) == StrongRefs(s.refs, s.nodes[m].list);
  }

  ghost predicate SameNode(x: Node, y: Node) {
    y.list == x.list && y.proc == x.proc && y.ptr == x.ptr && y.internalStrong == x.internalStrong
  }

  lemma KeptNode(s: State, s': State, n: nat)
    requires n in s.nodes && NodeOk(s, n) && n in s'.nodes && SameNode(s.nodes[n], s'.nodes[n])
    requires s' == s.(nodes := s.nodes[n := s'.nodes[n]], dues := s'.dues) && s'.nodes[n].temps == s'.dues.temps[n]
    requires s'.nodes[n].proc.Some? ==> LocalOk(s'.nodes[n], n, s'.dues) && Announced(s'.nodes[n])
    requires s'.nodes[n].proc.None? ==> s'.nodes[n].work == Idle(false)
    ensures NodeOk(s', n)
  {
    hide LocalOk, Announced;
  }

  lemma KeptTrees(s: State, s': State, n: nat)
    requires TreesOk(s) && n in s.nodes && n in s'.nodes && SameNode(s.nodes[n], s'.nodes[n])
    requires s' == s.(nodes := s.nodes[n := s'.nodes[n]], dues := s'.dues) && OnlyDuesOf(s.dues, s'.dues, n)
    requires s'.dues.managers[n] >= s.dues.managers[n] && n < s.nextId
    ensures TreesOk(s')
  {
    forall m | m in s'.dues.temps
      ensures m in s'.nodes
    {
      assert m != n ==> m in s.dues.temps;
    }
    forall m: nat | IsDue(s'.dues, m)
      ensures m < s'.nextId
    {
      assert m != n ==> IsDue(s.dues, m);
    }
  }

  lemma IdBounded(s: State, n: nat)
    requires n in s.nodes && NodeOk(s, n)
    ensures n < s.nextId
  {
  }

  /** Changing the counts and flags of one node. */
  lemma NodeKept(s: State, s': State, n: nat)
    requires Inv(s) && n in s.nodes && n in s'.nodes && SameNode(s.nodes[n], s'.nodes[n])
    requires s' == s.(nodes := s.nodes[n := s'.nodes[n]], dues := s'.dues) && s'.nodes[n].temps == s'.dues.temps[n]
    requires s'.nodes[n].proc.Some? ==> LocalOk(s'.nodes[n], n, s'.dues) && Announced(s'.nodes[n])
    requires s'.nodes[n].proc.None? ==> s'.nodes[n].work == Idle(false)
    requires OnlyDuesOf(s.dues, s'.dues, n) && s'.dues.managers[n] >= s.dues.managers[n]
    ensures Inv(s')
  {
    hide NodeOk, RefOk, TreesOk, LocalOk, Announced;
    assert Local(s, s', n);
    KeptNode(s, s', n);
    IdBounded(s, n);
    KeptTrees(s, s', n);
    forall m | m in s'.nodes
      ensures NodeOk(s', m)
    {
      if m != n {
        OtherNode(s, s', n, m);
      }
    }
    forall r | r in s'.refs
      ensures RefOk(s', r)
    {
      KeptRef(s, s', n, r);
    }
  }

  lemma KeptRef(s: State, s': State, n: nat, r: nat)
    requires r in s.refs && RefOk(s, r) && n in s.nodes && n in s'.nodes && SameNode(s.nodes[n], s'.nodes[n])
    requires s' == s.(nodes := s.nodes[n := s'.nodes[n]], dues := s'.dues)
    ensures RefOk(s', r)
  {
  }

  function WithoutPtr(s: State, n: nat): map<(nat, nat), nat>
    requires n in s.nodes
  {
    match s.nodes[n].proc
    case None => s.byPtr
    case Some(p) => s.byPtr - {(p, s.nodes[n].ptr)}
  }

  ghost predicate GoneShape(s: State, s': State, n: nat) {
    && n in s.nodes && s.nodes[n].list == {} && s'.dues.temps[n] == 0 && s.ctx != Some(n)
    && s' == s.(nodes := s.nodes - {n}, byPtr := WithoutPtr(s, n), dues := s'.dues)
    && OnlyDuesOf(s.dues, s'.dues, n)
  }

  lemma GoneTrees(s: State, s': State, n: nat)
    requires TreesOk(s) && GoneShape(s, s', n) && NodeOk(s, n)
    ensures TreesOk(s')
    ensures forall k :: k in s.byPtr && s.byPtr[k] != n ==> k in s'.byPtr && s'.byPtr[k] == s.byPtr[k]
  {
    hide LocalOk, Announced;
    forall m | m in s'.dues.temps
      ensures m in s'.nodes
    {
      assert m != n;
      assert m in s.dues.temps;
    }
    forall m: nat | IsDue(s'.dues, m)
      ensures m < s'.nextId
    {
      assert m != n ==> IsDue(s.dues, m);
    }
  }

  lemma GoneRef(s: State, s': State, n: nat, r: nat)
    requires r in s.refs && RefOk(s, r) && GoneShape(s, s', n)
    ensures RefOk(s', r)
  {
  }

  /** Freeing a node that nothing keeps. */
  lemma NodeGone(s: State, s': State, n: nat)
    requires Inv(s) && GoneShape(s, s', n)
    ensures Inv(s')
  {
    hide NodeOk, RefOk, TreesOk;
    assert Local(s, s', n);
    InvNode(s, n);
    GoneTrees(s, s', n);
    forall m | m in s'.nodes
      ensures NodeOk(s', m)
    {
      OtherNode(s, s', n, m);
    }
    forall r | r in s'.refs
      ensures RefOk(s', r)
    {
      GoneRef(s, s', n, r);
    }
  }

  // ---------- changing one ref together with its node ----------

  lemma StrongDelta(refs: map<nat, Ref>, list: set<nat>, r: nat, y: Ref)
    requires r in refs && r in list
    ensures |StrongRefs(refs[r := y], list)| == |StrongRefs(refs, list)| + One(y.strong > 0) - One(refs[r].strong > 0)
  {
    var before, after := StrongRefs(refs, list), StrongRefs(refs[r := y], list);
    if y.strong > 0 {
      assert after == before + {r};
    } else {
      assert after == before - {r};
    }
  }

  ghost predicate RefShape(s: State, s': State, n: nat, r: nat) {
    && n in s.nodes && n in s'.nodes && r in s.refs && r in s'.refs && s.refs[r].node == n
    && s' == s.(nodes := s.nodes[n := s'.nodes[n]], refs := s.refs[r := s'.refs[r]])
    && s'.refs[r] == s.refs[r].(strong := s'.refs[r].strong, weak := s'.refs[r].weak)
    && s'.nodes[n] == s.nodes[n].(internalStrong := s'.nodes[n].internalStrong, work := s'.nodes[n].work)
    && s'.nodes[n].internalStrong == s.nodes[n].internalStrong + One(s'.refs[r].strong > 0) - One(s.refs[r].strong > 0)
    && (s'.nodes[n].proc.Some? ==> Announced(s'.nodes[n]))
    && (s'.nodes[n].proc.None? ==> s'.nodes[n].work == Idle(false))
  }

  lemma ChangedNode(s: State, s': State, n: nat, r: nat)
    requires RefShape(s, s', n, r) && NodeOk(s, n) && RefOk(s, r)
    ensures NodeOk(s', n)
  {
    hide Announced;
    StrongDelta(s.refs, s.nodes[n].list, r, s'.refs[r]);
  }

  lemma ChangedRef(s: State, s': State, n: nat, r: nat, q: nat)
    requires RefShape(s, s', n, r) && q in s.refs && RefOk(s, q)
    ensures RefOk(s', q)
  {
    hide Announced;
  }

  lemma ChangedTrees(s: State, s': State, n: nat, r: nat)
    requires RefShape(s, s', n, r) && TreesOk(s)
    ensures TreesOk(s')
  {
    hide Announced;
  }

  lemma RefChanged(s: State, s': State, n: nat, r: nat)
    requires Inv(s) && RefShape(s, s', n, r)
    ensures Inv(s')
  {
    hide NodeOk, RefOk, TreesOk, Announced;
    assert Local(s, s', n);
    ChangedTrees(s, s', n, r);
    ChangedNode(s, s', n, r);
    forall m | m in s'.nodes
      ensures NodeOk(s', m)
    {
      if m != n {
        OtherNode(s, s', n, m);
      }
    }
    forall q | q in s'.refs
      ensures RefOk(s', q)
    {
      ChangedRef(s, s', n, r, q);
    }
  }

  // ---------- a ref comes or goes ----------

  ghost predicate AddShape(s: State, s': State, r: nat) {
    && r == s.nextId && r in s'.refs
    && var x := s'.refs[r];
      && x.node in s.nodes && x.strong == 0 && x.weak == 0
      && (x.proc, x.desc) !in s.byDesc && (x.proc, x.node) !in s.byNode
      && s' == s.(refs := s.refs[r := x], nextId := r + 1,
                  nodes := s.nodes[x.node := s.nodes[x.node].(list := s.nodes[x.node].list + {r})],
                  byDesc := s.byDesc[(x.proc, x.desc) := r], byNode := s.byNode[(x.proc, x.node) := r])
  }

  lemma AddedNode(s: State, s': State, r: nat, m: nat)
    requires AddShape(s, s', r) && m in s.nodes && NodeOk(s, m) && r !in s.refs
    ensures NodeOk(s', m)
  {
    assert StrongRefs(s'.refs, s'.nodes[m].list) == StrongRefs(s.refs, s.nodes[m].list);
  }

  lemma AddedRef(s: State, s': State, r: nat, q: nat)
    requires AddShape(s, s', r) && r !in s.refs && q in s'.refs && (q in s.refs ==> RefOk(s, q))
    ensures RefOk(s', q)
  {
  }

  lemma AddedTrees(s: State, s': State, r: nat)
    requires AddShape(s, s', r) && r !in s.refs && TreesOk(s)
    ensures TreesOk(s')
  {
  }

  lemma NewIdUnused(s: State)
    requires Inv(s)
    ensures s.nextId !in s.refs && s.nextId !in s.nodes
  {
    hide TreesOk;
    assert s.nextId in s.refs ==> RefOk(s, s.nextId);
    assert s.nextId in s.nodes ==> NodeOk(s, s.nextId);
  }

  lemma RefAdded(s: State, s': State, r: nat)
    requires Inv(s) && AddShape(s, s', r)
    ensures Inv(s')
  {
    hide NodeOk, RefOk, TreesOk;
    NewIdUnused(s);
    AddedTrees(s, s', r);
    forall m | m in s'.nodes
      ensures NodeOk(s', m)
    {
      AddedNode(s, s', r, m);
    }
    forall q | q in s'.refs
      ensures RefOk(s', q)
    {
      AddedRef(s, s', r, q);
    }
  }

  /** Taking a ref without strong count out of everything. */
  ghost predicate RemoveShape(s: State, s': State, n: nat, r: nat) {
    && r in s.refs && s.refs[r].node == n && n in s.nodes && n in s'.nodes && s.refs[r].strong == 0
    && var x := s.refs[r];
      && s' == s.(refs := s.refs - {r}, nodes := s.nodes[n := s'.nodes[n]],
                  byDesc := s.byDesc - {(x.proc, x.desc)}, byNode := s.byNode - {(x.proc, n)})
      && s'.nodes[n] == s.nodes[n].(list := s.nodes[n].list - {r}, work := s'.nodes[n].work, hasWeak := s'.nodes[n].hasWeak)
      && (s.nodes[n].hasWeak ==> s'.nodes[n].hasWeak)
      && (s'.nodes[n].proc.Some? ==> Announced(s'.nodes[n]))
      && (s'.nodes[n].proc.None? ==> s'.nodes[n].work == Idle(false))
  }

  lemma RemovedNode(s: State, s': State, n: nat, r: nat)
    requires RemoveShape(s, s', n, r) && NodeOk(s, n)
    ensures NodeOk(s', n)
  {
    hide Announced;
    assert StrongRefs(s'.refs, s'.nodes[n].list) == StrongRefs(s.refs, s.nodes[n].list);
  }

  lemma RemovedRef(s: State, s': State, n: nat, r: nat, q: nat)
    requires RemoveShape(s, s', n, r) && q in s.refs && q != r && RefOk(s, q) && RefOk(s, r)
    ensures RefOk(s', q)
  {
    hide Announced;
  }

  lemma RemovedTrees(s: State, s': State, n: nat, r: nat)
    requires RemoveShape(s, s', n, r) && TreesOk(s) && RefOk(s, r)
    ensures TreesOk(s')
  {
    hide Announced;
  }

  lemma RefRemoved(s: State, s': State, n: nat, r: nat)
    requires Inv(s) && RemoveShape(s, s', n, r)
    ensures Inv(s')
  {
    hide NodeOk, RefOk, TreesOk, Announced;
    assert Local(s, s', n);
    InvRef(s, r);
    RemovedTrees(s, s', n, r);
    RemovedNode(s, s', n, r);
    forall m | m in s'.nodes
      ensures NodeOk(s', m)
    {
      if m != n {
        OtherNode(s, s', n, m);
      }
    }
    forall q | q in s'.refs
      ensures RefOk(s', q)
    {
      RemovedRef(s, s', n, r, q);
    }
  }
}
