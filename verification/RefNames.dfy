/** What an object arrives as: translation keeps the strength of every object and the node it
    names, and fails only for the reasons given. */
module RefNames {
  import opened Common
  import opened RefGraph
  import opened RefOps
  import opened RefCounts
  import opened RefUndo
  import opened RefRelease

  /** The node that an object names in the hands of process p. */
  function NodeNamed(s: State, p: nat, o: Object): Option<nat> {
    match o
    case Binder(ptr, _, _) => if (p, ptr) in s.byPtr then Some(s.byPtr[(p, ptr)]) else None
    case Handle(desc, _) =>
      if (p, desc) in s.byDesc && s.byDesc[(p, desc)] in s.refs then Some(s.refs[s.byDesc[(p, desc)]].node) else None
    case Inert => None
  }

  predicate SameIdentity(x: Node, y: Node) {
    y.proc == x.proc && y.ptr == x.ptr && y.cookie == x.cookie
  }

  /** Object o' in the hands of process `to` stands for object o in those of `from`. */
  ghost predicate SameThing(s: State, from: nat, to: nat, o: Object, o': Object) {
    if o.Inert? then o'.Inert?
    else
      && !o'.Inert? && o'.strong == o.strong
      && NodeNamed(s, to, o').Some? && NodeNamed(s, from, o) == NodeNamed(s, to, o')
      && var n := NodeNamed(s, to, o').value;
        && n in s.nodes && Firm(s, n)
        && (o.Binder? ==> o'.Handle? && s.nodes[n].proc == Some(from) && s.nodes[n].ptr == o.ptr && s.nodes[n].cookie == o.cookie)
        && (o.Handle? ==> (o'.Binder? <==> s.nodes[n].proc == Some(to)))
        && (o'.Binder? ==> o'.ptr == s.nodes[n].ptr && o'.cookie == s.nodes[n].cookie)
  }

  // ---------- nodes that something in a buffer keeps ----------

  /** A ref, or a translated object, keeps the node. */
  ghost predicate Firm(s: State, n: nat)
    requires n in s.nodes
  {
    s.nodes[n].list != {} || (s.nodes[n].proc.Some? && ObjectsOwed(s, n))
  }

  ghost predicate Firms(a: State, b: State) {
    && (forall n :: n in a.nodes && Firm(a, n) ==> n in b.nodes && Firm(b, n) && SameIdentity(a.nodes[n], b.nodes[n]))
    && (forall k :: k in a.byPtr && a.byPtr[k] in a.nodes && Firm(a, a.byPtr[k]) ==> k in b.byPtr && b.byPtr[k] == a.byPtr[k])
  }

  lemma FirmsThen(a: State, b: State, c: State)
    requires Firms(a, b) && Firms(b, c)
    ensures Firms(a, c)
  {
    hide Firm;
  }

  /** Nothing goes and lists and dues only grow. */
  lemma GrownFirms(a: State, b: State)
    requires forall n :: n in a.nodes ==> n in b.nodes && SameIdentity(a.nodes[n], b.nodes[n]) && a.nodes[n].list <= b.nodes[n].list
    requires forall k :: k in a.byPtr ==> k in b.byPtr && b.byPtr[k] == a.byPtr[k]
    requires forall n: nat :: ObjectsOwed(a, n) ==> ObjectsOwed(b, n)
    ensures Firms(a, b)
  {
    hide ObjectsOwed;
  }

  lemma FirmStays(s: State, n: nat)
    requires n in s.nodes && NodeOk(s, n) && Firm(s, n)
    ensures DecN(s.nodes[n].(temps := s.nodes[n].temps - 1), false, true).Kept?
  {
    hide Announced;
  }

  /** What giving a temporary reference back leaves as it is. */
  lemma DroppedTemp(s: State, n: nat)
    requires n in s.nodes && s.dues.temps[n] > 0
    ensures var s' := DropTemp(s, n);
            && (forall m :: m in s.nodes && m != n ==> m in s'.nodes && s'.nodes[m] == s.nodes[m])
            && (n in s'.nodes ==> SameIdentity(s.nodes[n], s'.nodes[n]) && s'.nodes[n].list == s.nodes[n].list && s'.byPtr == s.byPtr)
            && (n !in s'.nodes ==> s'.byPtr == WithoutPtr(s, n))
            && s'.dues.strongObjects == s.dues.strongObjects && s'.dues.weakObjects == s.dues.weakObjects
  {
    DecKeepsIdentity(s.nodes[n].(temps := s.nodes[n].temps - 1));
    hide DecN;
  }

  lemma FirmNodeStays(s: State, n: nat)
    requires n in s.nodes && s.dues.temps[n] > 0 && NodeOk(s, n) && Firm(s, n)
    ensures n in DropTemp(s, n).nodes
  {
    hide NodeOk;
    FirmStays(s, n);
    hide DecN;
  }

  lemma DropTempFirms(s: State, n: nat)
    requires Inv(s) && n in s.nodes && s.dues.temps[n] > 0
    ensures Firms(s, DropTemp(s, n))
    ensures Firm(s, n) ==> n in DropTemp(s, n).nodes && SameIdentity(s.nodes[n], DropTemp(s, n).nodes[n])
  {
    hide Inv, NodeOk, Firm, DropTemp, SameIdentity;
    InvNode(s, n);
    PtrBack(s, n);
    DroppedTemp(s, n);
    if Firm(s, n) {
      FirmNodeStays(s, n);
    }
    var s' := DropTemp(s, n);
    forall m | m in s.nodes && Firm(s, m)
      ensures m in s'.nodes && Firm(s', m) && SameIdentity(s.nodes[m], s'.nodes[m])
    {
      if m != n {
        SameNodeSameIdentity(s.nodes[m]);
        OtherFirm(s, s', m);
      } else {
        IdentityFacts(s.nodes[n], s'.nodes[n]);
        StillFirm(s, s', n);
      }
    }
  }

  lemma SameNodeSameIdentity(x: Node)
    ensures SameIdentity(x, x)
  {
  }

  lemma IdentityFacts(x: Node, y: Node)
    requires SameIdentity(x, y)
    ensures y.proc == x.proc
  {
  }

  lemma OtherFirm(s: State, s': State, m: nat)
    requires m in s.nodes && m in s'.nodes && s'.nodes[m] == s.nodes[m] && Firm(s, m)
    requires s'.dues.strongObjects == s.dues.strongObjects && s'.dues.weakObjects == s.dues.weakObjects
    ensures Firm(s', m)
  {
  }

  lemma DecKeepsIdentity(x: Node)
    ensures var d := DecN(x, false, true); d.Kept? ==> SameIdentity(x, d.node) && d.node.list == x.list
  {
  }

  lemma StillFirm(s: State, s': State, m: nat)
    requires m in s.nodes && m in s'.nodes && Firm(s, m)
    requires s'.nodes[m].list == s.nodes[m].list && s'.nodes[m].proc == s.nodes[m].proc
    requires s'.dues.strongObjects == s.dues.strongObjects && s'.dues.weakObjects == s.dues.weakObjects
    ensures Firm(s', m)
  {
  }

  lemma IncRefGrows(s: State, r: nat, strong: bool, todo: Option<nat>)
    requires r in s.refs && s.refs[r].node in s.nodes
    ensures var s' := IncRef(s, r, strong, todo).state;
            && (forall n :: n in s.nodes ==> n in s'.nodes && SameIdentity(s.nodes[n], s'.nodes[n]) && s.nodes[n].list == s'.nodes[n].list)
            && s'.byPtr == s.byPtr && s'.dues == s.dues
  {
  }

  lemma IncRefForNodeGrows(s: State, p: nat, n: nat, strong: bool, todo: Option<nat>)
    requires Inv(s) && n in s.nodes
    ensures var s' := IncRefForNode(s, p, n, strong, todo).state;
            && (forall m :: m in s.nodes ==> m in s'.nodes && SameIdentity(s.nodes[m], s'.nodes[m]) && s.nodes[m].list <= s'.nodes[m].list)
            && s'.byPtr == s.byPtr && s'.dues == s.dues && s'.nodes[n].list != {} && n in s'.nodes
  {
    hide Inv, IncRef;
    if (p, n) in s.byNode {
      ByNodeIsRef(s, p, n);
      InvRef(s, s.byNode[(p, n)]);
      IncRefGrows(s, s.byNode[(p, n)], strong, todo);
    } else {
      var s1 := AddRef(s, p, n);
      IncRefGrows(s1, s.nextId, strong, todo);
      assert s.nextId in s1.nodes[n].list;
    }
  }

  // ---------- when the increment of a ref is refused ----------

  /** A first reference that user space has not been told of needs a list for the work that
      tells it. */
  predicate CanTell(s: State, p: nat, n: nat, strong: bool, todo: Option<nat>)
    requires n in s.nodes
  {
    var x := s.nodes[n];
    || todo.Some?
    || ((p, n) in s.byNode && s.byNode[(p, n)] in s.refs
        && (if strong then s.refs[s.byNode[(p, n)]].strong else s.refs[s.byNode[(p, n)]].weak) > 0)
    || (if strong then x.internalStrong > 0 || (x.proc.Some? && IsCtx(s, n) && x.hasStrong) else x.hasWeak || OnList(x))
  }

  lemma IncRefForNodeOk(s: State, p: nat, n: nat, strong: bool, todo: Option<nat>)
    requires Inv(s) && n in s.nodes
    ensures IncRefForNode(s, p, n, strong, todo).ok <==> CanTell(s, p, n, strong, todo)
  {
    hide Inv;
    if (p, n) in s.byNode {
      ByNodeIsRef(s, p, n);
    }
  }

  // ---------- one object ----------

  lemma ToHandleNames(s: State, to: nat, n: nat, strong: bool, todo: Option<nat>, memory: bool)
    requires Inv(s) && n in s.nodes && s.dues.temps[n] > 0 && (todo.Some? ==> Live(s, n))
    ensures var t := ToHandle(s, to, n, strong, todo, memory);
            && Firms(s, t.state)
            && (t.obj.Some? <==> ((to, n) in s.byNode || memory) && CanTell(s, to, n, strong, todo))
            && (t.obj.Some? ==>
                  && t.obj.value.Handle? && t.obj.value.strong == strong && NodeNamed(t.state, to, t.obj.value) == Some(n)
                  && n in t.state.nodes && Firm(t.state, n) && SameIdentity(s.nodes[n], t.state.nodes[n]))
            && (forall k :: k in s.byPtr && s.byPtr[k] == n && t.obj.Some? ==> k in t.state.byPtr && t.state.byPtr[k] == n)
  {
    hide Inv, IncRefForNode, DropTemp, Firms, Firm, CanTell;
    if (to, n) !in s.byNode && !memory {
      DropTempFirms(s, n);
    } else {
      IncRefForNodeKeepsInv(s, to, n, strong, todo);
      IncRefForNodeFacts(s, to, n, strong, todo);
      IncRefForNodeGrows(s, to, n, strong, todo);
      IncRefForNodeOk(s, to, n, strong, todo);
      var s1 := IncRefForNode(s, to, n, strong, todo).state;
      SameOwed(s, s1);
      GrownFirms(s, s1);
      ListIsFirm(s1, n);
      DropTempFirms(s1, n);
      DropTempStable(s1, n);
      FirmsThen(s, s1, DropTemp(s1, n));
      FirmNode(s1, DropTemp(s1, n), n);
    }
  }

  lemma SameOwed(s: State, s': State)
    requires s'.dues == s.dues
    ensures forall n: nat :: ObjectsOwed(s, n) ==> ObjectsOwed(s', n)
  {
  }

  lemma ListIsFirm(s: State, n: nat)
    requires n in s.nodes && s.nodes[n].list != {}
    ensures Firm(s, n)
  {
  }

  lemma FirmNode(a: State, b: State, n: nat)
    requires Firms(a, b) && n in a.nodes && Firm(a, n)
    ensures n in b.nodes && Firm(b, n) && SameIdentity(a.nodes[n], b.nodes[n])
    ensures forall k :: k in a.byPtr && a.byPtr[k] == n ==> k in b.byPtr && b.byPtr[k] == n
  {
  }

  // ---------- an object that names the sender's node ----------

  /** The sender's own pointer goes over exactly when it has, or can be given, a node with this
      cookie, the transfer is allowed, and the receiver has, or can be given, a ref. */
  predicate BinderPasses(s: State, from: nat, to: nat, ptr: nat, cookie: nat, env: Env) {
    var known := (from, ptr) in s.byPtr && s.byPtr[(from, ptr)] in s.nodes;
    && (if known then s.nodes[s.byPtr[(from, ptr)]].cookie == cookie else env.nodeMemory)
    && env.permitted
    && (env.refMemory || (known && (to, s.byPtr[(from, ptr)]) in s.byNode))
  }

  lemma OwnNodeGrows(s: State, from: nat, ptr: nat, cookie: nat)
    requires Inv(s)
    ensures var s1 := WithOwnNode(s, from, ptr, cookie); var n := OwnNode(s, from, ptr);
            && Firms(s, s1) && n in s1.nodes
            && s1.nodes[n].proc == Some(from) && s1.nodes[n].ptr == ptr && (from, ptr) in s1.byPtr && s1.byPtr[(from, ptr)] == n
            && s1.nodes[n].cookie == (if (from, ptr) in s.byPtr && n in s.nodes then s.nodes[n].cookie else cookie)
            && s1.byNode == s.byNode
  {
    hide Inv, ObjectsOwed, Firms;
    var s1 := WithOwnNode(s, from, ptr, cookie);
    if (from, ptr) in s.byPtr {
      PtrIsLive(s, from, ptr);
    } else {
      NewIdUnused(s);
    }
    SameObjectsOwed(s, s1);
    GrownFirms(s, s1);
  }

  lemma SameObjectsOwed(s: State, s': State)
    requires s'.dues.strongObjects == s.dues.strongObjects && s'.dues.weakObjects == s.dues.weakObjects
    ensures forall n: nat :: ObjectsOwed(s, n) ==> ObjectsOwed(s', n)
  {
  }

  lemma NewNodeHasNoRef(s: State, p: nat)
    requires Inv(s)
    ensures (p, s.nextId) !in s.byNode
  {
    hide Inv;
    NewIdUnused(s);
    if (p, s.nextId) in s.byNode {
      ByNodeIsRef(s, p, s.nextId);
    }
  }

  lemma BinderNames(s: State, from: nat, to: nat, ptr: nat, cookie: nat, strong: bool, env: Env)
    requires Inv(s)
    ensures var t := TranslateBinder(s, from, to, ptr, cookie, strong, env);
            && Firms(s, t.state)
            && (t.obj.Some? <==> BinderPasses(s, from, to, ptr, cookie, env))
            && (t.obj.Some? ==> SameThing(t.state, from, to, Binder(ptr, cookie, strong), t.obj.value))
  {
    hide Inv, Firms, Firm, ToHandle, DropTemp, WithOwnNode, CanTell;
    FirmsSelf(s);
    if (from, ptr) in s.byPtr {
      PtrIsLive(s, from, ptr);
    } else {
      NewNodeHasNoRef(s, to);
    }
    if (from, ptr) in s.byPtr || env.nodeMemory {
      OwnNodeFacts(s, from, ptr, cookie);
      OwnNodeGrows(s, from, ptr, cookie);
      var n := OwnNode(s, from, ptr);
      var s1 := WithOwnNode(s, from, ptr, cookie);
      if cookie != s1.nodes[n].cookie || !env.permitted {
        DropTempFirms(s1, n);
        FirmsThen(s, s1, DropTemp(s1, n));
      } else {
        ToHandleNames(s1, to, n, strong, Some(env.thread), env.refMemory);
        ThreadCanTell(s1, to, n, strong, Some(env.thread));
        FirmsThen(s, s1, ToHandle(s1, to, n, strong, Some(env.thread), env.refMemory).state);
      }
    }
  }

  lemma ThreadCanTell(s: State, p: nat, n: nat, strong: bool, todo: Option<nat>)
    requires n in s.nodes && todo.Some?
    ensures CanTell(s, p, n, strong, todo)
  {
  }

  lemma FirmsSelf(s: State)
    ensures Firms(s, s)
  {
  }

  // ---------- an object that names a node through a handle ----------

  /** A handle goes over exactly when the sender has it, strongly for a strong object, the
      transfer is allowed, and the node is the receiver's own or the receiver has, or can be
      given, a ref that user space can be told of. */
  predicate HandlePasses(s: State, from: nat, to: nat, desc: nat, strong: bool, env: Env) {
    && (from, desc) in s.byDesc && s.byDesc[(from, desc)] in s.refs
    && var x := s.refs[s.byDesc[(from, desc)]];
      && (strong ==> x.strong > 0) && env.permitted
      && x.node in s.nodes
      && (s.nodes[x.node].proc == Some(to) || ((env.refMemory || (to, x.node) in s.byNode) && CanTell(s, to, x.node, strong, None)))
  }

  lemma TakeTempFirms(s: State, n: nat)
    requires n in s.nodes
    ensures Firms(s, TakeTemp(s, n)) && SameIdentity(s.nodes[n], TakeTemp(s, n).nodes[n])
  {
    hide Firms;
    SameObjectsOwed(s, TakeTemp(s, n));
    GrownFirms(s, TakeTemp(s, n));
  }

  lemma TempCanTell(s: State, p: nat, n: nat, strong: bool)
    requires n in s.nodes
    ensures CanTell(TakeTemp(s, n), p, n, strong, None) == CanTell(s, p, n, strong, None)
  {
  }

  lemma OwnObjectNames(s: State, n: nat, strong: bool)
    requires Inv(s) && Live(s, n) && s.dues.temps[n] > 0 && Inv(AddObject(s, n, strong))
    ensures var s' := DropTemp(AddObject(s, n, strong), n);
            Firms(s, s') && n in s'.nodes && Firm(s', n) && SameIdentity(s.nodes[n], s'.nodes[n])
    ensures var s' := DropTemp(AddObject(s, n, strong), n);
            forall k :: k in s.byPtr && s.byPtr[k] == n ==> k in s'.byPtr && s'.byPtr[k] == n
  {
    hide Inv, Firms, Firm, DropTemp, ObjectsOwed, AddObject;
    AddedObject(s, n, strong);
    var s1 := AddObject(s, n, strong);
    GrownFirms(s, s1);
    OwedIsFirm(s1, n);
    DropTempFirms(s1, n);
    FirmsThen(s, s1, DropTemp(s1, n));
    FirmNode(s1, DropTemp(s1, n), n);
  }

  lemma AddedObject(s: State, n: nat, strong: bool)
    requires Live(s, n)
    ensures var s' := AddObject(s, n, strong);
            && (forall m :: m in s.nodes ==> m in s'.nodes && SameIdentity(s.nodes[m], s'.nodes[m]) && s.nodes[m].list <= s'.nodes[m].list)
            && s'.byPtr == s.byPtr && s'.dues.temps == s.dues.temps
            && (forall m: nat :: ObjectsOwed(s, m) ==> ObjectsOwed(s', m)) && ObjectsOwed(s', n)
  {
  }

  lemma OwedIsFirm(s: State, n: nat)
    requires Live(s, n) && ObjectsOwed(s, n)
    ensures Firm(s, n)
  {
  }

  lemma HandleNames(s: State, from: nat, to: nat, desc: nat, strong: bool, env: Env)
    requires Inv(s)
    ensures var t := TranslateHandle(s, from, to, desc, strong, env);
            && Firms(s, t.state)
            && (t.obj.Some? <==> HandlePasses(s, from, to, desc, strong, env))
            && (t.obj.Some? ==> SameThing(t.state, from, to, Handle(desc, strong), t.obj.value))
  {
    hide Inv, Firms, Firm, ToHandle, DropTemp, AddObject, TakeTemp, CanTell, Stable, AddsToken;
    FirmsSelf(s);
    var found := FindRef(s, from, desc, strong);
    TranslateHandleWorks(s, from, to, desc, strong, env);
    if (from, desc) in s.byDesc {
      ByDescIsRef(s, from, desc);
    }
    if found.Some? {
      var n := s.refs[found.value].node;
      TakeTempKeepsInv(s, n);
      TakeTempFirms(s, n);
      TempIsDue(s, n);
      TempCanTell(s, to, n, strong);
      var s1 := TakeTemp(s, n);
      var t := TranslateHandle(s, from, to, desc, strong, env);
      StableRef(s, t.state, from, desc);
      if !env.permitted {
        DropTempFirms(s1, n);
        FirmsThen(s, s1, DropTemp(s1, n));
      } else if s.nodes[n].proc == Some(to) {
        AddObjectKeepsInv(s1, n, strong);
        OwnObjectNames(s1, n, strong);
        FirmsThen(s, s1, t.state);
        OwnPtr(s, n);
      } else {
        ToHandleNames(s1, to, n, strong, None, env.refMemory);
        FirmsThen(s, s1, t.state);
      }
    }
  }

  lemma TempIsDue(s: State, n: nat)
    requires n in s.nodes
    ensures var s1 := TakeTemp(s, n); n in s1.nodes && s1.dues.temps[n] > 0 && s1.byPtr == s.byPtr && s1.byNode == s.byNode
  {
  }

  lemma OwnPtr(s: State, n: nat)
    requires Inv(s) && Live(s, n)
    ensures (s.nodes[n].proc.value, s.nodes[n].ptr) in s.byPtr && s.byPtr[(s.nodes[n].proc.value, s.nodes[n].ptr)] == n
  {
    hide Inv, NodeOk;
    InvNode(s, n);
    PtrBack(s, n);
  }

  lemma StableRef(s: State, s': State, p: nat, desc: nat)
    requires Stable(s, s') && (p, desc) in s.byDesc && s.byDesc[(p, desc)] in s.refs
    ensures NodeNamed(s', p, Handle(desc, true)) == Some(s.refs[s.byDesc[(p, desc)]].node)
    ensures NodeNamed(s', p, Handle(desc, false)) == Some(s.refs[s.byDesc[(p, desc)]].node)
  {
  }

  // ---------- any object ----------

  predicate Passes(s: State, from: nat, to: nat, obj: Object, env: Env) {
    match obj
    case Binder(ptr, cookie, _) => BinderPasses(s, from, to, ptr, cookie, env)
    case Handle(desc, strong) => HandlePasses(s, from, to, desc, strong, env)
    case Inert => env.permitted
  }

  /** An object goes over exactly under the conditions above, and arrives as the same thing. */
  lemma TranslateNames(s: State, from: nat, to: nat, obj: Object, env: Env)
    requires Inv(s)
    ensures var t := Translate(s, from, to, obj, env);
            && Firms(s, t.state)
            && (t.obj.Some? <==> Passes(s, from, to, obj, env))
            && (t.obj.Some? ==> SameThing(t.state, from, to, obj, t.obj.value))
  {
    hide Inv, TranslateBinder, TranslateHandle, BinderPasses, HandlePasses, Firms, SameThing;
    match obj
    case Binder(ptr, cookie, strong) => BinderNames(s, from, to, ptr, cookie, strong, env);
    case Handle(desc, strong) => HandleNames(s, from, to, desc, strong, env);
    case Inert =>
      FirmsSelf(s);
      InertIsInert(s, from, to);
  }

  lemma InertIsInert(s: State, from: nat, to: nat)
    ensures SameThing(s, from, to, Inert, Inert)
  {
  }

  // ---------- all objects of a transaction ----------

  /** What has arrived stays the same thing while further objects are translated. */
  lemma SameThingStays(s: State, s': State, from: nat, to: nat, o: Object, o': Object)
    requires SameThing(s, from, to, o, o') && Firms(s, s') && Stable(s, s')
    ensures SameThing(s', from, to, o, o')
  {
    hide Firm, ObjectsOwed;
    if !o.Inert? {
      FirmNode(s, s', NodeNamed(s, to, o').value);
      NameStays(s, s', from, o);
      NameStays(s, s', to, o');
    }
  }

  lemma NameStays(s: State, s': State, p: nat, o: Object)
    requires Firms(s, s') && Stable(s, s') && NodeNamed(s, p, o).Some?
    requires NodeNamed(s, p, o).value in s.nodes && Firm(s, NodeNamed(s, p, o).value)
    ensures NodeNamed(s', p, o) == NodeNamed(s, p, o)
  {
    hide Firm, ObjectsOwed;
  }

  /** However far the loop gets, every object it has translated arrives as the same thing, in
      order; it completes exactly when it has translated all of them. */
  lemma {:induction false} TranslateAllNames(s: State, from: nat, to: nat, objs: seq<Object>, envs: seq<Env>)
    requires Inv(s) && |envs| == |objs|
    ensures var run := TranslateAll(s, from, to, objs, envs);
            && Inv(run.state) && Firms(s, run.state) && Stable(s, run.state)
            && |run.done| <= |objs| && (run.complete <==> |run.done| == |objs|)
            && (forall i :: 0 <= i < |run.done| ==> SameThing(run.state, from, to, objs[i], run.done[i]))
    decreases |objs|
  {
    hide Inv, Translate, Firms, Stable, SameThing, AddsToken, Passes;
    if objs == [] {
      FirmsSelf(s);
      StableSelf(s);
    } else {
      TranslateWorks(s, from, to, objs[0], envs[0]);
      TranslateNames(s, from, to, objs[0], envs[0]);
      var t := Translate(s, from, to, objs[0], envs[0]);
      if t.obj.Some? {
        TranslateAllNames(t.state, from, to, objs[1..], envs[1..]);
        var rest := TranslateAll(t.state, from, to, objs[1..], envs[1..]);
        FirmsThen(s, t.state, rest.state);
        StableTwice(s, t.state, rest.state);
        SameThingStays(t.state, rest.state, from, to, objs[0], t.obj.value);
      }
    }
  }
}
