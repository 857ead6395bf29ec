/** Translating the objects of a transaction and releasing them again. */
module RefUndo {
  import opened Common
  import opened RefGraph
  import opened RefOps
  import opened RefCounts

  /** A flattened object.  File descriptors, descriptor arrays and buffers hold no counts. */
  datatype Object = Binder(ptr: nat, cookie: nat, strong: bool) | Handle(desc: nat, strong: bool) | Inert

  /** What memory allocation and the security hook answer for one object, and the sending thread. */
  datatype Env = Env(nodeMemory: bool, refMemory: bool, permitted: bool, thread: nat)

  /** The count an object that has been translated stands for. */
  datatype Token = RefToken(node: nat, strong: bool) | ObjectToken(node: nat, strong: bool) | NoToken

  datatype Translated = Translated(state: State, obj: Option<Object>)

  // ---------- one object ----------

  /** The shared end of the cases that need a ref in the target process. */
  function ToHandle(s: State, to: nat, n: nat, strong: bool, todo: Option<nat>, memory: bool): Translated
    requires Inv(s) && n in s.nodes && s.dues.temps[n] > 0 && (todo.Some? ==> Live(s, n))
  {
    hide Inv;
    if (to, n) !in s.byNode && !memory then Translated(DropTemp(s, n), None)
    else
      IncRefForNodeKeepsInv(s, to, n, strong, todo);
      IncRefForNodeFacts(s, to, n, strong, todo);
      var inc := IncRefForNode(s, to, n, strong, todo);
      Translated(DropTemp(inc.state, n), if inc.ok then Some(Handle(inc.state.refs[inc.state.byNode[(to, n)]].desc, strong)) else None)
  }

  /** What an increment leaves in place. */
  ghost predicate OnlyGrows(s: State, s': State) {
    && s'.nodes.Keys == s.nodes.Keys && s'.dues == s.dues && s'.byPtr == s.byPtr
    && (forall m :: m in s.nodes ==> s'.nodes[m].proc == s.nodes[m].proc)
    && (forall k :: k in s.byDesc ==> k in s'.byDesc && s'.byDesc[k] == s.byDesc[k])
    && (forall r :: r in s.refs ==> r in s'.refs && s'.refs[r].node == s.refs[r].node)
  }

  ghost predicate HasHandle(s: State, p: nat, n: nat) {
    && (p, n) in s.byNode && s.byNode[(p, n)] in s.refs
    && var x := s.refs[s.byNode[(p, n)]];
      x.node == n && (p, x.desc) in s.byDesc && s.byDesc[(p, x.desc)] == s.byNode[(p, n)]
  }

  lemma IncRefFacts(s: State, r: nat, strong: bool, todo: Option<nat>)
    requires r in s.refs && s.refs[r].node in s.nodes && HasHandle(s, s.refs[r].proc, s.refs[r].node)
    ensures var s' := IncRef(s, r, strong, todo).state;
            OnlyGrows(s, s') && HasHandle(s', s.refs[r].proc, s.refs[r].node)
  {
  }

  lemma AddRefFacts(s: State, p: nat, n: nat)
    requires n in s.nodes && s.nextId !in s.refs && (p, HandleFor(s, p, n)) !in s.byDesc
    ensures OnlyGrows(s, AddRef(s, p, n)) && HasHandle(AddRef(s, p, n), p, n)
  {
  }

  lemma IncRefForNodeFacts(s: State, p: nat, n: nat, strong: bool, todo: Option<nat>)
    requires Inv(s) && n in s.nodes
    ensures var s' := IncRefForNode(s, p, n, strong, todo).state; OnlyGrows(s, s') && HasHandle(s', p, n)
  {
    hide Inv, IncRef, AddRef, OnlyGrows;
    if (p, n) in s.byNode {
      ByNodeIsRef(s, p, n);
      InvRef(s, s.byNode[(p, n)]);
      IncRefFacts(s, s.byNode[(p, n)], strong, todo);
    } else {
      AddRefKeepsInv(s, p, n);
      AddRefFacts(s, p, n);
      AddedIsThere(s, p, n);
      AddedByNode(s, p, n);
      IncRefFacts(AddRef(s, p, n), s.nextId, strong, todo);
      GrowsTwice(s, AddRef(s, p, n), IncRef(AddRef(s, p, n), s.nextId, strong, todo).state);
    }
  }

  lemma AddedByNode(s: State, p: nat, n: nat)
    requires n in s.nodes
    ensures (p, n) in AddRef(s, p, n).byNode && AddRef(s, p, n).byNode[(p, n)] == s.nextId
  {
  }

  lemma GrowsTwice(a: State, b: State, c: State)
    requires OnlyGrows(a, b) && OnlyGrows(b, c)
    ensures OnlyGrows(a, c)
  {
  }

  /** `binder_translate_binder`. */
  function TranslateBinder(s: State, from: nat, to: nat, ptr: nat, cookie: nat, strong: bool, env: Env): Translated
    requires Inv(s)
  {
    hide Inv;
    if (from, ptr) !in s.byPtr && !env.nodeMemory then Translated(s, None)
    else
      OwnNodeFacts(s, from, ptr, cookie);
      var n := OwnNode(s, from, ptr);
      var s1 := WithOwnNode(s, from, ptr, cookie);
      if cookie != s1.nodes[n].cookie || !env.permitted then Translated(DropTemp(s1, n), None)
      else ToHandle(s1, to, n, strong, Some(env.thread), env.refMemory)
  }

  function OwnNode(s: State, from: nat, ptr: nat): nat {
    if (from, ptr) in s.byPtr then s.byPtr[(from, ptr)] else s.nextId
  }

  /** `binder_get_node` or `binder_new_node`. */
  function WithOwnNode(s: State, from: nat, ptr: nat, cookie: nat): State
    requires Inv(s)
  {
    if (from, ptr) in s.byPtr then InvTrees(s); TakeTemp(s, s.byPtr[(from, ptr)]) else NewNode(s, from, ptr, cookie)
  }

  lemma PtrIsLive(s: State, p: nat, ptr: nat)
    requires Inv(s) && (p, ptr) in s.byPtr
    ensures var n := s.byPtr[(p, ptr)]; Live(s, n) && s.nodes[n].proc == Some(p) && s.nodes[n].ptr == ptr
  {
    hide NodeOk, RefOk;
  }

  lemma OwnNodeFacts(s: State, from: nat, ptr: nat, cookie: nat)
    requires Inv(s)
    ensures var n := OwnNode(s, from, ptr); var s1 := WithOwnNode(s, from, ptr, cookie);
            && Inv(s1) && Live(s1, n) && s1.dues.temps[n] > 0
            && s1.dues.strongObjects == s.dues.strongObjects && s1.dues.weakObjects == s.dues.weakObjects && s1.dues.targets == s.dues.targets
            && (forall m :: m in s.nodes ==> m in s1.nodes && s1.nodes[m].proc == s.nodes[m].proc)
            && (forall k :: k in s.byPtr ==> k in s1.byPtr && s1.byPtr[k] == s.byPtr[k])
            && s1.byDesc == s.byDesc && s1.refs == s.refs && s1.byNode == s.byNode
            && RefsShift(s, s1, 0, 0, 0, 0) && LocalsShift(s, s1, n, 0, 0, 1)
  {
    hide Inv, RefsShift, LocalsShift;
    if (from, ptr) in s.byPtr {
      PtrIsLive(s, from, ptr);
      TakeTempKeepsInv(s, s.byPtr[(from, ptr)]);
      TakeTempCounts(s, s.byPtr[(from, ptr)]);
    } else {
      NewIdUnused(s);
      NewNodeKeepsInv(s, from, ptr, cookie);
      NewNodeCounts(s, from, ptr, cookie);
    }
  }

  /** `binder_translate_handle`: the target's own node becomes an object that names it. */
  function TranslateHandle(s: State, from: nat, to: nat, desc: nat, strong: bool, env: Env): Translated
    requires Inv(s)
  {
    hide Inv;
    match FindRef(s, from, desc, strong)
    case None => Translated(s, None)
    case Some(r) =>
      ByDescIsRef(s, from, desc);
      var n := s.refs[r].node;
      TakeTempKeepsInv(s, n);
      var s1 := TakeTemp(s, n);
      var x := s.nodes[n];
      if !env.permitted then Translated(DropTemp(s1, n), None)
      else if x.proc == Some(to) then
        Translated(DropTemp(AddObject(s1, n, strong), n), Some(Binder(x.ptr, x.cookie, strong)))
      else ToHandle(s1, to, n, strong, None, env.refMemory)
  }

  lemma ByDescIsRef(s: State, p: nat, desc: nat)
    requires Inv(s) && (p, desc) in s.byDesc
    ensures var r := s.byDesc[(p, desc)]; r in s.refs && s.refs[r].node in s.nodes && s.refs[r].proc == p && s.refs[r].desc == desc
  {
    hide NodeOk;
    InvRef(s, s.byDesc[(p, desc)]);
  }

  function Translate(s: State, from: nat, to: nat, obj: Object, env: Env): Translated
    requires Inv(s)
  {
    match obj
    case Binder(ptr, cookie, strong) => TranslateBinder(s, from, to, ptr, cookie, strong, env)
    case Handle(desc, strong) => TranslateHandle(s, from, to, desc, strong, env)
    case Inert => Translated(s, if env.permitted then Some(Inert) else None)
  }

  // ---------- what is owed for translated objects ----------

  /** The token of an object in a buffer of process `to`. */
  function TokenOf(s: State, to: nat, obj: Object): Token {
    match obj
    case Binder(ptr, _, strong) => if (to, ptr) in s.byPtr then ObjectToken(s.byPtr[(to, ptr)], strong) else NoToken
    case Handle(desc, strong) =>
      if (to, desc) in s.byDesc && s.byDesc[(to, desc)] in s.refs then RefToken(s.refs[s.byDesc[(to, desc)]].node, strong) else NoToken
    case Inert => NoToken
  }

  /** Compared with `base`, state s has exactly the counts of the tokens on top. */
  ghost predicate Owes(base: State, s: State, to: nat, tokens: multiset<Token>) {
    OwesRefs(base, s, to, tokens) && OwesLocals(base, s, tokens) && OwesDues(s, tokens)
  }

  ghost predicate OwesRefs(base: State, s: State, to: nat, tokens: multiset<Token>) {
    forall q: nat, m: nat ::
      && StrongOf(s, q, m) == StrongOf(base, q, m) + (if q == to then tokens[RefToken(m, true)] else 0)
      && WeakOf(s, q, m) == WeakOf(base, q, m) + (if q == to then tokens[RefToken(m, false)] else 0)
  }

  ghost predicate OwesLocals(base: State, s: State, tokens: multiset<Token>) {
    forall m: nat ::
      && LocalStrongOf(s, m) == LocalStrongOf(base, m) + tokens[ObjectToken(m, true)]
      && LocalWeakOf(s, m) == LocalWeakOf(base, m) + tokens[ObjectToken(m, false)]
      && TempsOf(s, m) == TempsOf(base, m)
  }

  ghost predicate OwesDues(s: State, tokens: multiset<Token>) {
    forall m: nat ::
      s.dues.strongObjects[m] >= tokens[ObjectToken(m, true)] && s.dues.weakObjects[m] >= tokens[ObjectToken(m, false)]
  }

  ghost predicate DuesShift(s: State, s': State, n: nat, strong: int, weak: int) {
    forall m: nat ::
      && s'.dues.strongObjects[m] == s.dues.strongObjects[m] + (if m == n then strong else 0)
      && s'.dues.weakObjects[m] == s.dues.weakObjects[m] + (if m == n then weak else 0)
  }

  /** The step from s to s' adds the count that one token stands for. */
  ghost predicate AddsToken(s: State, s': State, to: nat, t: Token) {
    match t
    case RefToken(n, strong) =>
      RefsShift(s, s', to, n, One(strong), One(!strong)) && LocalsShift(s, s', 0, 0, 0, 0) && DuesShift(s, s', 0, 0, 0)
    case ObjectToken(n, strong) =>
      && RefsShift(s, s', 0, 0, 0, 0) && LocalsShift(s, s', n, One(strong), One(!strong), 0)
      && DuesShift(s, s', n, One(strong), One(!strong))
    case NoToken => RefsShift(s, s', 0, 0, 0, 0) && LocalsShift(s, s', 0, 0, 0, 0) && DuesShift(s, s', 0, 0, 0)
  }

  /** ... and this one takes it away again. */
  ghost predicate DropsToken(s: State, s': State, to: nat, t: Token) {
    match t
    case RefToken(n, strong) =>
      RefsShift(s, s', to, n, 0 - One(strong), 0 - One(!strong)) && LocalsShift(s, s', 0, 0, 0, 0) && DuesShift(s, s', 0, 0, 0)
    case ObjectToken(n, strong) =>
      && RefsShift(s, s', 0, 0, 0, 0) && LocalsShift(s, s', n, 0 - One(strong), 0 - One(!strong), 0)
      && DuesShift(s, s', n, 0 - One(strong), 0 - One(!strong))
    case NoToken => RefsShift(s, s', 0, 0, 0, 0) && LocalsShift(s, s', 0, 0, 0, 0) && DuesShift(s, s', 0, 0, 0)
  }

  lemma OwesMore(base: State, s: State, s': State, to: nat, tokens: multiset<Token>, t: Token)
    requires Owes(base, s, to, tokens) && AddsToken(s, s', to, t)
    ensures Owes(base, s', to, tokens + multiset{t})
  {
    assert OwesRefs(base, s', to, tokens + multiset{t});
    assert OwesLocals(base, s', tokens + multiset{t});
  }

  lemma OwesFewerRefs(base: State, s: State, s': State, to: nat, tokens: multiset<Token>, t: Token)
    requires OwesRefs(base, s, to, tokens) && DropsToken(s, s', to, t) && t in tokens
    ensures OwesRefs(base, s', to, tokens - multiset{t})
  {
    hide LocalsShift, DuesShift;
  }

  lemma OwesFewerLocals(base: State, s: State, s': State, to: nat, tokens: multiset<Token>, t: Token)
    requires OwesLocals(base, s, tokens) && OwesDues(s, tokens) && DropsToken(s, s', to, t) && t in tokens
    ensures OwesLocals(base, s', tokens - multiset{t}) && OwesDues(s', tokens - multiset{t})
  {
    hide RefsShift;
  }

  lemma OwesLess(base: State, s: State, s': State, to: nat, tokens: multiset<Token>, t: Token)
    requires Owes(base, s, to, tokens) && DropsToken(s, s', to, t) && t in tokens
    ensures Owes(base, s', to, tokens - multiset{t})
  {
    hide OwesRefs, OwesLocals, OwesDues;
    OwesFewerRefs(base, s, s', to, tokens, t);
    OwesFewerLocals(base, s, s', to, tokens, t);
  }

  // ---------- handles and names stay valid ----------

  /** Handles stay, and so do the names of nodes on which objects are still owed. */
  ghost predicate Stable(s: State, s': State) {
    && (forall k :: k in s.byDesc && s.byDesc[k] in s.refs ==>
          && k in s'.byDesc && s'.byDesc[k] == s.byDesc[k]
          && s.byDesc[k] in s'.refs && s'.refs[s.byDesc[k]].node == s.refs[s.byDesc[k]].node)
    && (forall k :: k in s.byPtr && ObjectsOwed(s, s.byPtr[k]) ==> k in s'.byPtr && s'.byPtr[k] == s.byPtr[k])
    && (forall m: nat :: ObjectsOwed(s, m) ==> ObjectsOwed(s', m))
    && s'.dues.targets == s.dues.targets
    && (forall m :: Live(s, m) && s.dues.targets[m] > 0 ==> m in s'.nodes && s'.nodes[m].proc == s.nodes[m].proc)
  }

  ghost predicate ObjectsOwed(s: State, m: nat) {
    s.dues.strongObjects[m] > 0 || s.dues.weakObjects[m] > 0
  }

  lemma StableTwice(a: State, b: State, c: State)
    requires Stable(a, b) && Stable(b, c)
    ensures Stable(a, c)
  {
  }

  lemma GoneIsNotOwed(s: State, n: nat)
    requires n in s.nodes && NodeOk(s, n) && s.nodes[n].proc.Some?
    requires DecN(s.nodes[n].(temps := s.nodes[n].temps - 1), false, true).Gone?
    ensures !ObjectsOwed(s, n) && s.dues.targets[n] == 0
  {
    hide Announced;
  }

  lemma DropTempStable(s: State, n: nat)
    requires Inv(s) && n in s.nodes && s.dues.temps[n] > 0
    ensures Stable(s, DropTemp(s, n)) && DuesShift(s, DropTemp(s, n), 0, 0, 0)
    ensures DropTemp(s, n).byDesc == s.byDesc && DropTemp(s, n).refs == s.refs && DropTemp(s, n).byNode == s.byNode
  {
    hide Inv, NodeOk, ObjectsOwed;
    InvNode(s, n);
    PtrBack(s, n);
    var d := DecN(s.nodes[n].(temps := s.nodes[n].temps - 1), false, true);
    if d.Gone? && s.nodes[n].proc.Some? {
      GoneIsNotOwed(s, n);
    }
    hide DecN;
    var s' := DropTemp(s, n);
    forall m: nat | ObjectsOwed(s, m)
      ensures ObjectsOwed(s', m)
    {
      SameDuesSameOwed(s, s', m);
    }
  }

  lemma SameDuesSameOwed(s: State, s': State, m: nat)
    requires s'.dues.strongObjects == s.dues.strongObjects && s'.dues.weakObjects == s.dues.weakObjects
    ensures ObjectsOwed(s', m) == ObjectsOwed(s, m)
  {
  }

  lemma PtrBack(s: State, n: nat)
    requires n in s.nodes && NodeOk(s, n)
    ensures s.nodes[n].proc.Some? ==> (s.nodes[n].proc.value, s.nodes[n].ptr) in s.byPtr && s.byPtr[(s.nodes[n].proc.value, s.nodes[n].ptr)] == n
  {
  }

  lemma GrowsStable(s: State, s': State)
    requires OnlyGrows(s, s')
    ensures Stable(s, s') && DuesShift(s, s', 0, 0, 0)
  {
  }

  // ---------- one translation adds one token ----------

  /** What a translation is proved to do. */
  ghost predicate Translates(s: State, to: nat, t: Translated) {
    && Inv(t.state) && Stable(s, t.state)
    && (t.obj.Some? ==> (TokenOf(t.state, to, t.obj.value).NoToken? <==> t.obj.value.Inert?))
    && AddsToken(s, t.state, to, if t.obj.Some? then TokenOf(t.state, to, t.obj.value) else NoToken)
  }

  /** The temporary reference taken on the way is given back. */
  lemma GiveBack(s0: State, s: State, n: nat, strong: int, weak: int)
    requires Inv(s) && n in s.nodes && s.dues.temps[n] > 0 && LocalsShift(s0, s, n, strong, weak, 1)
    ensures Inv(DropTemp(s, n)) && LocalsShift(s0, DropTemp(s, n), n, strong, weak, 0)
    ensures RefsShift(s, DropTemp(s, n), 0, 0, 0, 0)
  {
    hide Inv, LocalsShift, RefsShift, DropTemp;
    DropTempKeepsInv(s, n);
    DropTempCounts(s, n);
    LocalsSum(s0, s, DropTemp(s, n), n, strong, weak, 1, 0, 0, -1);
  }

  lemma NothingMoved(s: State, s': State, n: nat)
    requires LocalsShift(s, s', n, 0, 0, 0)
    ensures LocalsShift(s, s', 0, 0, 0, 0)
  {
  }

  /** Up to the temporary reference on n, state s is s0. */
  ghost predicate Holding(s0: State, s: State, n: nat) {
    && Inv(s) && n in s.nodes && s.dues.temps[n] > 0
    && Stable(s0, s) && RefsShift(s0, s, 0, 0, 0, 0) && LocalsShift(s0, s, n, 0, 0, 1) && DuesShift(s0, s, 0, 0, 0)
  }

  lemma DuesAdd(a: State, b: State, c: State, n: nat, strong: int, weak: int)
    requires DuesShift(a, b, 0, 0, 0) && DuesShift(b, c, n, strong, weak)
    ensures DuesShift(a, c, n, strong, weak)
  {
  }

  lemma DuesThen(a: State, b: State, c: State, n: nat, strong: int, weak: int)
    requires DuesShift(a, b, n, strong, weak) && DuesShift(b, c, 0, 0, 0)
    ensures DuesShift(a, c, n, strong, weak)
  {
  }

  lemma LocalsThen(a: State, b: State, c: State, n: nat, strong: int, weak: int, temps: int)
    requires LocalsShift(a, b, n, strong, weak, temps) && LocalsShift(b, c, 0, 0, 0, 0)
    ensures LocalsShift(a, c, n, strong, weak, temps)
  {
  }

  /** Giving up: nothing is owed. */
  lemma GivesUp(s0: State, s: State, to: nat, n: nat)
    requires Holding(s0, s, n)
    ensures Translates(s0, to, Translated(DropTemp(s, n), None))
  {
    hide Inv, Stable, RefsShift, LocalsShift, DuesShift, DropTemp;
    var s' := DropTemp(s, n);
    DropTempStable(s, n);
    StableTwice(s0, s, s');
    GiveBack(s0, s, n, 0, 0);
    NothingMoved(s0, s', n);
    RefsAdd(s0, s, s', 0, 0, 0, 0);
    DuesAdd(s0, s, s', 0, 0, 0);
  }

  /** A ref in the target process: one count on it is owed, or nothing if it is refused. */
  lemma ToHandleTranslates(s0: State, s: State, to: nat, n: nat, strong: bool, todo: Option<nat>, memory: bool)
    requires Holding(s0, s, n) && (todo.Some? ==> Live(s, n))
    ensures Translates(s0, to, ToHandle(s, to, n, strong, todo, memory))
  {
    hide Inv, Stable, RefsShift, LocalsShift, DuesShift, DropTemp, OnlyGrows, HasHandle, IncRefForNode;
    if (to, n) !in s.byNode && !memory {
      GivesUp(s0, s, to, n);
    } else {
      IncRefForNodeKeepsInv(s, to, n, strong, todo);
      IncRefForNodeFacts(s, to, n, strong, todo);
      IncRefForNodeCounts(s, to, n, strong, todo);
      var inc := IncRefForNode(s, to, n, strong, todo);
      var s1 := inc.state;
      GrowsStable(s, s1);
      GrowsNodes(s, s1, n);
      StableTwice(s0, s, s1);
      LocalsThen(s0, s, s1, n, 0, 0, 1);
      DuesAdd(s0, s, s1, 0, 0, 0);
      if !inc.ok {
        RefsAdd(s0, s, s1, 0, 0, 0, 0);
        GivesUp(s0, s1, to, n);
      } else {
        RefsAdd(s0, s, s1, to, n, One(strong), One(!strong));
        HandleToken(s0, s1, to, n, strong);
      }
    }
  }

  lemma GrowsNodes(s: State, s': State, n: nat)
    requires OnlyGrows(s, s') && n in s.nodes
    ensures n in s'.nodes && s'.dues == s.dues
  {
  }

  lemma HandleToken(s0: State, s1: State, to: nat, n: nat, strong: bool)
    requires Inv(s1) && n in s1.nodes && s1.dues.temps[n] > 0 && HasHandle(s1, to, n)
    requires Stable(s0, s1) && RefsShift(s0, s1, to, n, One(strong), One(!strong)) && LocalsShift(s0, s1, n, 0, 0, 1) && DuesShift(s0, s1, 0, 0, 0)
    ensures (to, n) in s1.byNode && s1.byNode[(to, n)] in s1.refs
    ensures Translates(s0, to, Translated(DropTemp(s1, n), Some(Handle(s1.refs[s1.byNode[(to, n)]].desc, strong))))
  {
    hide Inv, Stable, RefsShift, LocalsShift, DuesShift, DropTemp;
    var s2 := DropTemp(s1, n);
    DropTempStable(s1, n);
    StableTwice(s0, s1, s2);
    GiveBack(s0, s1, n, 0, 0);
    NothingMoved(s0, s2, n);
    RefsThen(s0, s1, s2, to, n, One(strong), One(!strong));
    DuesThen(s0, s1, s2, 0, 0, 0);
  }

  lemma HoldingTemp(s: State, n: nat)
    requires Inv(s) && n in s.nodes
    ensures Holding(s, TakeTemp(s, n), n)
  {
    hide Inv, RefsShift, LocalsShift;
    TakeTempKeepsInv(s, n);
    TakeTempCounts(s, n);
  }

  lemma HoldingOwn(s: State, from: nat, ptr: nat, cookie: nat)
    requires Inv(s)
    ensures Holding(s, WithOwnNode(s, from, ptr, cookie), OwnNode(s, from, ptr))
    ensures Live(WithOwnNode(s, from, ptr, cookie), OwnNode(s, from, ptr))
  {
    hide Inv, RefsShift, LocalsShift, WithOwnNode;
    OwnNodeFacts(s, from, ptr, cookie);
  }

  lemma Unchanged(s: State, to: nat)
    requires Inv(s)
    ensures Translates(s, to, Translated(s, None)) && Translates(s, to, Translated(s, Some(Inert)))
  {
    hide Inv;
  }

  lemma TranslateBinderWorks(s: State, from: nat, to: nat, ptr: nat, cookie: nat, strong: bool, env: Env)
    requires Inv(s)
    ensures Translates(s, to, TranslateBinder(s, from, to, ptr, cookie, strong, env))
  {
    hide Inv, Translates, Holding, ToHandle, DropTemp, WithOwnNode;
    Unchanged(s, to);
    if !((from, ptr) !in s.byPtr && !env.nodeMemory) {
      OwnNodeFacts(s, from, ptr, cookie);
      HoldingOwn(s, from, ptr, cookie);
      GivesUp(s, WithOwnNode(s, from, ptr, cookie), to, OwnNode(s, from, ptr));
      ToHandleTranslates(s, WithOwnNode(s, from, ptr, cookie), to, OwnNode(s, from, ptr), strong, Some(env.thread), env.refMemory);
    }
  }

  /** The target's own node: one local count on it is owed. */
  lemma OwnNodeToken(s: State, to: nat, n: nat, strong: bool)
    requires Inv(s) && Live(s, n) && s.nodes[n].proc == Some(to)
    ensures var s1 := TakeTemp(s, n);
            && Live(s1, n) && Inv(s1)
            && var s2 := AddObject(s1, n, strong);
              && n in s2.nodes && s2.dues.temps[n] > 0
              && Translates(s, to, Translated(DropTemp(s2, n), Some(Binder(s.nodes[n].ptr, s.nodes[n].cookie, strong))))
  {
    hide Inv, Stable, RefsShift, LocalsShift, DuesShift, DropTemp, NodeOk;
    HoldingTemp(s, n);
    var s1 := TakeTemp(s, n);
    AddObjectKeepsInv(s1, n, strong);
    AddObjectCounts(s1, n, strong);
    var s2 := AddObject(s1, n, strong);
    var s3 := DropTemp(s2, n);
    AddObjectStable(s1, n, strong);
    DropTempStable(s2, n);
    StableTwice(s, s1, s2);
    StableTwice(s, s2, s3);
    LocalsSum(s, s1, s2, n, 0, 0, 1, One(strong), One(!strong), 0);
    GiveBack(s, s2, n, One(strong), One(!strong));
    RefsAdd(s, s1, s2, 0, 0, 0, 0);
    RefsAdd(s, s2, s3, 0, 0, 0, 0);
    DuesAdd(s, s1, s2, n, One(strong), One(!strong));
    DuesThen(s, s2, s3, n, One(strong), One(!strong));
    InvNode(s, n);
    PtrBack(s, n);
    StillNamed(s2, s3, to, s.nodes[n].ptr, n);
  }

  lemma AddObjectStable(s: State, n: nat, strong: bool)
    requires Live(s, n)
    ensures var s' := AddObject(s, n, strong);
            && Stable(s, s') && DuesShift(s, s', n, One(strong), One(!strong)) && s'.byPtr == s.byPtr && ObjectsOwed(s', n)
            && n in s'.nodes && s'.dues.temps == s.dues.temps
  {
  }

  lemma StillNamed(s: State, s': State, p: nat, ptr: nat, n: nat)
    requires Stable(s, s') && (p, ptr) in s.byPtr && s.byPtr[(p, ptr)] == n && ObjectsOwed(s, n)
    ensures (p, ptr) in s'.byPtr && s'.byPtr[(p, ptr)] == n
  {
  }

  lemma TranslateHandleWorks(s: State, from: nat, to: nat, desc: nat, strong: bool, env: Env)
    requires Inv(s)
    ensures Translates(s, to, TranslateHandle(s, from, to, desc, strong, env))
  {
    hide Inv, Translates, Holding, ToHandle, DropTemp;
    Unchanged(s, to);
    var found := FindRef(s, from, desc, strong);
    if found.Some? {
      ByDescIsRef(s, from, desc);
      var n := s.refs[found.value].node;
      HoldingTemp(s, n);
      TakeTempKeepsInv(s, n);
      GivesUp(s, TakeTemp(s, n), to, n);
      if s.nodes[n].proc == Some(to) {
        OwnNodeToken(s, to, n, strong);
      } else {
        ToHandleTranslates(s, TakeTemp(s, n), to, n, strong, None, env.refMemory);
      }
    }
  }

  /** Every translation leaves exactly one count behind, the one the translated object names;
      a failed one leaves none. */
  lemma TranslateWorks(s: State, from: nat, to: nat, obj: Object, env: Env)
    requires Inv(s)
    ensures Translates(s, to, Translate(s, from, to, obj, env))
  {
    hide Inv, Translates;
    match obj
    case Binder(ptr, cookie, strong) => TranslateBinderWorks(s, from, to, ptr, cookie, strong, env);
    case Handle(desc, strong) => TranslateHandleWorks(s, from, to, desc, strong, env);
    case Inert => Unchanged(s, to);
  }
}
