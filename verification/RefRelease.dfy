/** `binder_transaction_buffer_release`, and why it undoes the translation. */
module RefRelease {
  import opened Common
  import opened RefGraph
  import opened RefOps
  import opened RefCounts
  import opened RefUndo

  /** The count that a named object stands for is there to be given back. */
  predicate CanRelease(s: State, to: nat, obj: Object) {
    obj.Binder? && (to, obj.ptr) in s.byPtr ==>
      var n := s.byPtr[(to, obj.ptr)];
      if obj.strong then s.dues.strongObjects[n] > 0 else s.dues.weakObjects[n] > 0
  }

  /** Releasing one object of a buffer of process `to`. */
  function ReleaseOne(s: State, to: nat, obj: Object): State
    requires Inv(s) && CanRelease(s, to, obj)
  {
    hide Inv;
    match obj
    case Binder(ptr, _, strong) =>
      if (to, ptr) !in s.byPtr then s
      else
        PtrIsLive(s, to, ptr);
        var n := s.byPtr[(to, ptr)];
        TakeTempKeepsInv(s, n);
        var s1 := TakeTemp(s, n);
        DropObjectKeepsInv(s1, n, strong);
        DropTemp(DropObject(s1, n, strong), n)
    case Handle(desc, strong) =>
      var found := FindRef(s, to, desc, strong);
      if found.None? then s
      else
        ByDescIsRef(s, to, desc);
        DecRef(s, found.value, strong)
    case Inert => s
  }

  /** Refs and names only disappear, and the names of nodes with owed objects do not. */
  ghost predicate Shrinks(s: State, s': State) {
    && (forall r :: r in s'.refs ==> r in s.refs && s'.refs[r].proc == s.refs[r].proc && s'.refs[r].node == s.refs[r].node && s'.refs[r].desc == s.refs[r].desc)
    && (forall k :: k in s.byPtr && ObjectsOwed(s', s.byPtr[k]) ==> k in s'.byPtr && s'.byPtr[k] == s.byPtr[k])
  }

  /** A token that is still owed after the step is found under the same handle or name. */
  lemma TokenSurvives(s: State, s': State, to: nat, obj: Object)
    requires Inv(s) && Inv(s') && Shrinks(s, s')
    requires match TokenOf(s, to, obj)
             case RefToken(m, strong) => StrongOf(s', to, m) > 0 || WeakOf(s', to, m) > 0
             case ObjectToken(m, strong) => ObjectsOwed(s', m)
             case NoToken => obj.Inert?
    ensures TokenOf(s', to, obj) == TokenOf(s, to, obj)
  {
    hide Inv, ObjectsOwed;
    match obj
    case Inert =>
    case Binder(_, _, _) =>
    case Handle(desc, strong) =>
      InvByNode(s);
      ByDescIsRef(s, to, desc);
      var m := s.refs[s.byDesc[(to, desc)]].node;
      ByNodeIsRef(s', to, m);
      InvRef(s', s'.byNode[(to, m)]);
  }

  lemma DropObjectFacts(s: State, n: nat, strong: bool)
    requires Inv(s) && Live(s, n) && s.dues.temps[n] > 0
    requires if strong then s.dues.strongObjects[n] > 0 else s.dues.weakObjects[n] > 0
    ensures var s' := DropObject(s, n, strong);
            && DuesShift(s, s', n, 0 - One(strong), 0 - One(!strong))
            && s'.refs == s.refs && s'.byPtr == s.byPtr && n in s'.nodes && s'.dues.temps == s.dues.temps
  {
    hide Inv, DecN;
    DropObjectKeepsInv(s, n, strong);
  }

  lemma DropTempShrinks(s: State, n: nat)
    requires Inv(s) && n in s.nodes && s.dues.temps[n] > 0
    ensures Shrinks(s, DropTemp(s, n))
  {
    hide Inv;
    DropTempStable(s, n);
    var s' := DropTemp(s, n);
    forall k | k in s.byPtr && ObjectsOwed(s', s.byPtr[k])
      ensures ObjectsOwed(s, s.byPtr[k])
    {
    }
  }

  lemma ReleaseBinder(s: State, to: nat, ptr: nat, cookie: nat, strong: bool)
    requires Inv(s) && CanRelease(s, to, Binder(ptr, cookie, strong)) && (to, ptr) in s.byPtr
    ensures var s' := ReleaseOne(s, to, Binder(ptr, cookie, strong));
            Inv(s') && DropsToken(s, s', to, ObjectToken(s.byPtr[(to, ptr)], strong)) && Shrinks(s, s')
  {
    hide Inv, RefsShift, LocalsShift, DuesShift, DropTemp, DropObject, Shrinks;
    PtrIsLive(s, to, ptr);
    var n := s.byPtr[(to, ptr)];
    TakeTempKeepsInv(s, n);
    TakeTempCounts(s, n);
    var s1 := TakeTemp(s, n);
    DropObjectKeepsInv(s1, n, strong);
    DropObjectCounts(s1, n, strong);
    DropObjectFacts(s1, n, strong);
    var s2 := DropObject(s1, n, strong);
    var s3 := DropTemp(s2, n);
    DropTempKeepsInv(s2, n);
    DropTempCounts(s2, n);
    DropTempStable(s2, n);
    DropTempShrinks(s2, n);
    RefsAdd(s, s1, s2, 0, 0, 0, 0);
    RefsAdd(s, s2, s3, 0, 0, 0, 0);
    LocalsSum(s, s1, s2, n, 0, 0, 1, 0 - One(strong), 0 - One(!strong), 0);
    LocalsSum(s, s2, s3, n, 0 - One(strong), 0 - One(!strong), 1, 0, 0, -1);
    SameDuesShift(s, s1);
    DuesAdd(s, s1, s2, n, 0 - One(strong), 0 - One(!strong));
    DuesThen(s, s2, s3, n, 0 - One(strong), 0 - One(!strong));
    ShrinksFrom(s, s2, s3);
  }

  lemma SameDuesShift(s: State, s': State)
    requires s'.dues.strongObjects == s.dues.strongObjects && s'.dues.weakObjects == s.dues.weakObjects
    ensures DuesShift(s, s', 0, 0, 0)
  {
  }

  lemma ShrinksFrom(a: State, b: State, c: State)
    requires Shrinks(b, c) && b.refs == a.refs && b.byPtr == a.byPtr
    ensures Shrinks(a, c)
  {
  }

  lemma DecRefFacts(s: State, r: nat, strong: bool)
    requires Inv(s) && r in s.refs
    ensures Shrinks(s, DecRef(s, r, strong)) && DecRef(s, r, strong).dues == s.dues
  {
    hide Inv;
    InvRef(s, r);
    StrongIsCounted(s, r);
    var x := s.refs[r];
    if strong && x.strong > 0 {
      LowerStrongKeepsInv(s, r, x.strong - 1);
      LoweredRef(s, r, x.strong - 1);
      LowerStrongFacts(s, r, x.strong - 1);
      var s1 := LowerStrong(s, r, x.strong - 1);
      hide LowerStrong;
      if x.strong == 1 && x.weak == 0 {
        TakeOutFacts(s1, r);
      }
    } else if !strong && x.weak > 0 {
      var s1 := s.(refs := s.refs[r := x.(weak := x.weak - 1)]);
      if x.strong == 0 && x.weak == 1 {
        LowerWeakKeepsInv(s, r);
        TakeOutFacts(s1, r);
      }
    }
  }

  lemma LowerStrongFacts(s: State, r: nat, strong: nat)
    requires r in s.refs && Counted(s, r) && strong < s.refs[r].strong
    ensures var s1 := LowerStrong(s, r, strong); Shrinks(s, s1) && s1.dues == s.dues && s1.byPtr == s.byPtr
  {
  }

  lemma GoneNotOwed(s: State, n: nat, y: Node)
    requires n in s.nodes && NodeOk(s, n) && s.nodes[n].proc.Some? && y == s.nodes[n].(list := y.list)
    requires DecN(y, false, true).Gone?
    ensures !ObjectsOwed(s, n)
  {
    hide Announced;
  }

  /** Refs taken away and a node settled: names go only with the node. */
  lemma SettleShrinks(s: State, s1: State, n: nat, d: Dec)
    requires n in s.nodes && s1.nodes == s.nodes && s1.byPtr == s.byPtr && s1.dues == s.dues
    requires forall r :: r in s1.refs ==> r in s.refs && s1.refs[r] == s.refs[r]
    requires s.nodes[n].proc.Some? ==> (s.nodes[n].proc.value, s.nodes[n].ptr) in s.byPtr && s.byPtr[(s.nodes[n].proc.value, s.nodes[n].ptr)] == n
    requires d.Gone? && s.nodes[n].proc.Some? ==> !ObjectsOwed(s, n)
    ensures Shrinks(s, Settle(s1, n, d, s.dues))
  {
    hide ObjectsOwed;
    var s' := Settle(s1, n, d, s.dues);
    forall m: nat
      ensures ObjectsOwed(s', m) == ObjectsOwed(s, m)
    {
      SameDuesSameOwed(s, s', m);
    }
  }

  lemma TakeOutFacts(s: State, r: nat)
    requires Inv(s) && r in s.refs && s.refs[r].node in s.nodes
    ensures Shrinks(s, TakeOut(s, r)) && TakeOut(s, r).dues == s.dues
  {
    hide Inv, NodeOk, ObjectsOwed, Shrinks;
    var x := s.refs[r];
    var n := x.node;
    InvNode(s, n);
    PtrBack(s, n);
    var y := s.nodes[n].(list := s.nodes[n].list - {r});
    if DecN(y, false, true).Gone? && s.nodes[n].proc.Some? {
      GoneNotOwed(s, n, y);
    }
    hide DecN;
    SettleShrinks(s, s.(refs := s.refs - {r}, byDesc := s.byDesc - {(x.proc, x.desc)}, byNode := s.byNode - {(x.proc, x.node)}), n, DecN(y, false, true));
  }

  lemma ReleaseHandle(s: State, to: nat, desc: nat, strong: bool)
    requires Inv(s) && (to, desc) in s.byDesc
    ensures var r := s.byDesc[(to, desc)];
            && r in s.refs
            && var m := s.refs[r].node; var s' := ReleaseOne(s, to, Handle(desc, strong));
              && Inv(s') && Shrinks(s, s')
              && ((if strong then StrongOf(s, to, m) else WeakOf(s, to, m)) > 0 ==> DropsToken(s, s', to, RefToken(m, strong)))
  {
    hide Inv, RefsShift, LocalsShift, Shrinks, DecRef;
    ByDescIsRef(s, to, desc);
    InvByNode(s);
    var r := s.byDesc[(to, desc)];
    DecRefKeepsInv(s, r, strong);
    DecRefCounts(s, r, strong);
    DecRefFacts(s, r, strong);
    SameDuesShift(s, DecRef(s, r, strong));
    NoShrink(s);
  }

  lemma NoShrink(s: State)
    ensures Shrinks(s, s)
  {
  }

  // ---------- all objects ----------

  ghost predicate HasTokens(s: State, to: nat, objs: seq<Object>, tokens: seq<Token>) {
    && |objs| == |tokens|
    && (forall i :: 0 <= i < |objs| ==> TokenOf(s, to, objs[i]) == tokens[i])
    && (forall i :: 0 <= i < |objs| ==> (tokens[i].NoToken? <==> objs[i].Inert?))
  }

  /** What is still owed is enough for every remaining object. */
  lemma OwedIsThere(base: State, s: State, to: nat, tokens: seq<Token>, i: nat)
    requires Owes(base, s, to, multiset(tokens)) && i < |tokens|
    ensures match tokens[i]
            case RefToken(m, strong) => (if strong then StrongOf(s, to, m) else WeakOf(s, to, m)) > 0
            case ObjectToken(m, strong) => if strong then s.dues.strongObjects[m] > 0 else s.dues.weakObjects[m] > 0
            case NoToken => true
  {
    assert tokens[i] in multiset(tokens);
  }

  lemma StillHasTokens(base: State, s: State, s': State, to: nat, objs: seq<Object>, tokens: seq<Token>)
    requires Inv(s) && Inv(s') && Shrinks(s, s') && HasTokens(s, to, objs, tokens) && Owes(base, s', to, multiset(tokens))
    ensures HasTokens(s', to, objs, tokens)
  {
    hide Inv, Shrinks, Owes;
    forall i | 0 <= i < |objs|
      ensures TokenOf(s', to, objs[i]) == tokens[i]
    {
      OwedIsThere(base, s', to, tokens, i);
      TokenSurvives(s, s', to, objs[i]);
    }
  }

  lemma ReleaseOneWorks(base: State, s: State, to: nat, objs: seq<Object>, tokens: seq<Token>)
    requires Inv(s) && objs != [] && HasTokens(s, to, objs, tokens) && Owes(base, s, to, multiset(tokens))
    ensures CanRelease(s, to, objs[0])
    ensures var s' := ReleaseOne(s, to, objs[0]);
            Inv(s') && HasTokens(s', to, objs[1..], tokens[1..]) && Owes(base, s', to, multiset(tokens[1..]))
  {
    hide Inv, Shrinks, Owes, ReleaseOne, DropsToken;
    OwedIsThere(base, s, to, tokens, 0);
    var s' := ReleaseOne(s, to, objs[0]);
    match objs[0] {
      case Inert => NothingReleased(s, to);
      case Binder(ptr, cookie, strong) => ReleaseBinder(s, to, ptr, cookie, strong);
      case Handle(desc, strong) => ReleaseHandle(s, to, desc, strong);
    }
    assert tokens == [tokens[0]] + tokens[1..];
    OwesLess(base, s, s', to, multiset(tokens), tokens[0]);
    assert multiset(tokens) - multiset{tokens[0]} == multiset(tokens[1..]);
    StillHasTokens(base, s, s', to, objs[1..], tokens[1..]);
  }

  lemma NothingReleased(s: State, to: nat)
    requires Inv(s)
    ensures var s' := ReleaseOne(s, to, Inert); Inv(s') && Shrinks(s, s') && DropsToken(s, s', to, NoToken)
  {
    hide Inv;
  }

  /** The release loop over the objects in order. */
  ghost predicate Releasable(s: State, to: nat, objs: seq<Object>)
    requires Inv(s)
    decreases |objs|
  {
    hide Inv, ReleaseOne;
    objs == [] ||
    (CanRelease(s, to, objs[0]) && Inv(ReleaseOne(s, to, objs[0])) && Releasable(ReleaseOne(s, to, objs[0]), to, objs[1..]))
  }

  ghost function ReleaseAll(s: State, to: nat, objs: seq<Object>): State
    requires Inv(s) && Releasable(s, to, objs)
    decreases |objs|
  {
    hide Inv, ReleaseOne, CanRelease;
    if objs == [] then s else ReleaseAll(ReleaseOne(s, to, objs[0]), to, objs[1..])
  }

  /** Releasing what is owed leaves the counts of the base. */
  lemma {:induction false} ReleaseAllWorks(base: State, s: State, to: nat, objs: seq<Object>, tokens: seq<Token>)
    requires Inv(s) && HasTokens(s, to, objs, tokens) && Owes(base, s, to, multiset(tokens))
    ensures Releasable(s, to, objs) && Inv(ReleaseAll(s, to, objs)) && SameCounts(base, ReleaseAll(s, to, objs))
    decreases |objs|
  {
    hide Inv, HasTokens, Owes, ReleaseOne, SameCounts;
    if objs == [] {
      NoTokens(s, to, objs, tokens);
      NothingOwed(base, s, to);
    } else {
      SomeTokens(s, to, objs, tokens);
      ReleaseOneWorks(base, s, to, objs, tokens);
      ReleaseAllWorks(base, ReleaseOne(s, to, objs[0]), to, objs[1..], tokens[1..]);
    }
  }

  lemma NoTokens(s: State, to: nat, objs: seq<Object>, tokens: seq<Token>)
    requires HasTokens(s, to, objs, tokens) && objs == []
    ensures multiset(tokens) == multiset{}
  {
    assert tokens == [];
  }

  lemma SomeTokens(s: State, to: nat, objs: seq<Object>, tokens: seq<Token>)
    requires HasTokens(s, to, objs, tokens)
    ensures |tokens| == |objs|
  {
  }

  lemma NothingOwed(base: State, s: State, to: nat)
    requires Owes(base, s, to, multiset{})
    ensures SameCounts(base, s)
  {
  }

  // ---------- the translation loop ----------

  datatype Run = Run(state: State, done: seq<Object>, complete: bool)

  /** The offsets loop of `binder_transaction`, as far as it gets. */
  ghost function TranslateAll(s: State, from: nat, to: nat, objs: seq<Object>, envs: seq<Env>): Run
    requires Inv(s) && |envs| == |objs|
    decreases |objs|
  {
    hide Inv, Translate;
    if objs == [] then Run(s, [], true)
    else
      TranslateWorks(s, from, to, objs[0], envs[0]);
      var t := Translate(s, from, to, objs[0], envs[0]);
      if t.obj.None? then Run(t.state, [], false)
      else
        var rest := TranslateAll(t.state, from, to, objs[1..], envs[1..]);
        Run(rest.state, [t.obj.value] + rest.done, rest.complete)
  }

  /** A token found before a translation is found after it. */
  lemma TokenStable(s: State, s': State, to: nat, obj: Object)
    requires Stable(s, s')
    requires match TokenOf(s, to, obj)
             case ObjectToken(m, _) => ObjectsOwed(s, m)
             case RefToken(_, _) => true
             case NoToken => obj.Inert?
    ensures TokenOf(s', to, obj) == TokenOf(s, to, obj)
  {
  }

  lemma KeepsTokens(base: State, s: State, s': State, to: nat, objs: seq<Object>, tokens: seq<Token>)
    requires Stable(s, s') && HasTokens(s, to, objs, tokens) && Owes(base, s, to, multiset(tokens))
    ensures HasTokens(s', to, objs, tokens)
  {
    hide Stable, Owes;
    forall i | 0 <= i < |objs|
      ensures TokenOf(s', to, objs[i]) == tokens[i]
    {
      OwedIsThere(base, s, to, tokens, i);
      TokenStable(s, s', to, objs[i]);
    }
  }

  lemma OneMoreToken(s: State, to: nat, objs: seq<Object>, tokens: seq<Token>, obj: Object, t: Token)
    requires HasTokens(s, to, objs, tokens) && TokenOf(s, to, obj) == t && (t.NoToken? <==> obj.Inert?)
    ensures HasTokens(s, to, objs + [obj], tokens + [t])
  {
  }

  lemma {:induction false} TranslateAllWorks(base: State, s: State, from: nat, to: nat, objs: seq<Object>, envs: seq<Env>, pre: seq<Object>, tokens: seq<Token>) returns (all: seq<Token>)
    requires Inv(s) && |envs| == |objs| && HasTokens(s, to, pre, tokens) && Owes(base, s, to, multiset(tokens))
    ensures var run := TranslateAll(s, from, to, objs, envs);
            Inv(run.state) && Stable(s, run.state) && HasTokens(run.state, to, pre + run.done, all) && Owes(base, run.state, to, multiset(all))
    decreases |objs|
  {
    hide Inv, HasTokens, Owes, Translate, Stable, AddsToken;
    if objs == [] {
      all := tokens;
      StableSelf(s);
      assert pre + [] == pre;
    } else {
      TranslateWorks(s, from, to, objs[0], envs[0]);
      var t := Translate(s, from, to, objs[0], envs[0]);
      KeepsTokens(base, s, t.state, to, pre, tokens);
      var run := TranslateAll(s, from, to, objs, envs);
      if t.obj.None? {
        OwesMore(base, s, t.state, to, multiset(tokens), NoToken);
        OwesWithout(base, t.state, to, multiset(tokens));
        all := tokens;
        assert pre + [] == pre;
      } else {
        var token := TokenOf(t.state, to, t.obj.value);
        OwesMore(base, s, t.state, to, multiset(tokens), token);
        OneMoreToken(t.state, to, pre, tokens, t.obj.value, token);
        assert multiset(tokens + [token]) == multiset(tokens) + multiset{token};
        all := TranslateAllWorks(base, t.state, from, to, objs[1..], envs[1..], pre + [t.obj.value], tokens + [token]);
        var rest := TranslateAll(t.state, from, to, objs[1..], envs[1..]);
        assert pre + ([t.obj.value] + rest.done) == (pre + [t.obj.value]) + rest.done;
        StableTwice(s, t.state, rest.state);
      }
    }
  }

  lemma StableSelf(s: State)
    ensures Stable(s, s)
  {
  }

  lemma OwesWithout(base: State, s: State, to: nat, tokens: multiset<Token>)
    requires Owes(base, s, to, tokens + multiset{NoToken})
    ensures Owes(base, s, to, tokens)
  {
    assert forall m: nat, b :: (tokens + multiset{NoToken})[RefToken(m, b)] == tokens[RefToken(m, b)];
    assert forall m: nat, b :: (tokens + multiset{NoToken})[ObjectToken(m, b)] == tokens[ObjectToken(m, b)];
  }

  lemma OwesNothingYet(s: State, to: nat)
    ensures Owes(s, s, to, multiset([])) && HasTokens(s, to, [], [])
  {
  }

  /** Release undoes translation: wherever the loop stops, and also when it completes,
      releasing the objects done so far leaves every count as it was. */
  lemma ReleaseUndoesTranslation(s: State, from: nat, to: nat, objs: seq<Object>, envs: seq<Env>)
    requires Inv(s) && |envs| == |objs|
    ensures var run := TranslateAll(s, from, to, objs, envs);
            && Inv(run.state) && Releasable(run.state, to, run.done)
            && var s' := ReleaseAll(run.state, to, run.done);
              Inv(s') && SameCounts(s, s')
  {
    hide Inv, Owes, HasTokens, Stable, SameCounts;
    OwesNothingYet(s, to);
    var all := TranslateAllWorks(s, s, from, to, objs, envs, [], []);
    var run := TranslateAll(s, from, to, objs, envs);
    assert [] + run.done == run.done;
    ReleaseAllWorks(s, run.state, to, run.done, all);
  }

  // ---------- with the target node of a new transaction ----------

  lemma OwesShifted(a: State, b: State, a': State, b': State, to: nat, tokens: multiset<Token>, n: nat, strong: int, temps: int)
    requires Owes(a, b, to, tokens)
    requires RefsShift(a, a', 0, 0, 0, 0) && LocalsShift(a, a', n, strong, 0, temps)
    requires RefsShift(b, b', 0, 0, 0, 0) && LocalsShift(b, b', n, strong, 0, temps) && DuesShift(b, b', 0, 0, 0)
    ensures Owes(a', b', to, tokens)
  {
    assert OwesRefs(a', b', to, tokens);
    assert OwesLocals(a', b', tokens);
  }

  /** The target is still there after the translation. */
  lemma TargetStays(base: State, s: State, to: nat, tokens: multiset<Token>, n: nat)
    requires Inv(s) && Owes(base, s, to, tokens) && TempsOf(base, n) > 0
    ensures n in s.nodes && s.dues.temps[n] > 0
  {
    hide Inv;
    assert n in s.nodes;
    InvNode(s, n);
  }

  lemma DropTargetStable(s: State, n: nat)
    requires Inv(s) && Live(s, n) && s.dues.temps[n] > 0 && s.dues.targets[n] > 0
    ensures var s' := DropTarget(s, n);
            && Inv(s') && DuesShift(s, s', 0, 0, 0) && n in s'.nodes
            && s'.byDesc == s.byDesc && s'.refs == s.refs && s'.byPtr == s.byPtr
  {
    hide Inv;
    InvNode(s, n);
    DropTargetKeepsInv(s, n);
    DecNFacts(s.nodes[n], true, false);
  }

  lemma SameTokens(s: State, s': State, to: nat, objs: seq<Object>, tokens: seq<Token>)
    requires HasTokens(s, to, objs, tokens) && s'.byDesc == s.byDesc && s'.refs == s.refs && s'.byPtr == s.byPtr
    ensures HasTokens(s', to, objs, tokens)
  {
    assert forall obj :: TokenOf(s', to, obj) == TokenOf(s, to, obj);
  }

  /** Aborting a new transaction to node n at any object: the strong reference of the target
      goes first, then the objects, then the temporary reference; every count is as before. */
  lemma AbortUndoesTransaction(s: State, from: nat, to: nat, n: nat, objs: seq<Object>, envs: seq<Env>)
    requires Inv(s) && Live(s, n) && |envs| == |objs|
    ensures var s1 := TakeTarget(s, n);
            && Inv(s1)
            && var run := TranslateAll(s1, from, to, objs, envs);
              && Inv(run.state) && Live(run.state, n)
              && var s2 := DropTarget(run.state, n);
                && Inv(s2) && Releasable(s2, to, run.done)
                && var s3 := ReleaseAll(s2, to, run.done);
                  && Inv(s3) && n in s3.nodes && s3.dues.temps[n] > 0
                  && SameCounts(s, DropTemp(s3, n)) && Inv(DropTemp(s3, n))
  {
    hide Inv, Owes, HasTokens, Stable, RefsShift, LocalsShift, DuesShift, TakeTarget, DropTarget, DropTemp;
    TakeTargetKeepsInv(s, n);
    TakeTargetCounts(s, n);
    var s1 := TakeTarget(s, n);
    TakenTarget(s, n);
    OwesNothingYet(s1, to);
    var all := TranslateAllWorks(s1, s1, from, to, objs, envs, [], []);
    var run := TranslateAll(s1, from, to, objs, envs);
    assert [] + run.done == run.done;
    TargetStays(s1, run.state, to, multiset(all), n);
    TargetLives(s1, run.state, n);
    DropTargetStable(run.state, n);
    DropTargetCounts(run.state, n);
    DropTargetCounts(s1, n);
    var s2 := DropTarget(run.state, n);
    SameTokens(run.state, s2, to, run.done, all);
    var base := DropTarget(s1, n);
    OwesShifted(s1, run.state, base, s2, to, multiset(all), n, -1, 0);
    ReleaseAllWorks(base, s2, to, run.done, all);
    var s3 := ReleaseAll(s2, to, run.done);
    LocalsSum(s, s1, base, n, 1, 0, 1, -1, 0, 0);
    RefsAdd(s, s1, base, 0, 0, 0, 0);
    RefsAdd(s, base, s3, 0, 0, 0, 0);
    LocalsThen(s, base, s3, n, 0, 0, 1);
    TempIsHeld(s, s3, n);
    GiveBack(s, s3, n, 0, 0);
    NothingMoved(s, DropTemp(s3, n), n);
    RefsAdd(s, s3, DropTemp(s3, n), 0, 0, 0, 0);
  }

  lemma DropTargetShrinks(s: State, n: nat)
    requires Inv(s) && Live(s, n) && s.dues.targets[n] > 0
    ensures Inv(DropTarget(s, n)) && Shrinks(s, DropTarget(s, n)) && DuesShift(s, DropTarget(s, n), 0, 0, 0)
  {
    hide Inv, NodeOk, ObjectsOwed;
    InvNode(s, n);
    PtrBack(s, n);
    DropTargetKeepsInv(s, n);
    if DecN(s.nodes[n], true, false).Gone? {
      TargetWasLast(s, n);
    }
    hide DecN;
    var s' := DropTarget(s, n);
    forall m: nat
      ensures ObjectsOwed(s', m) == ObjectsOwed(s, m)
    {
      SameDuesSameOwed(s, s', m);
    }
  }

  lemma TargetWasLast(s: State, n: nat)
    requires Live(s, n) && NodeOk(s, n) && s.dues.targets[n] > 0 && DecN(s.nodes[n], true, false).Gone?
    ensures !ObjectsOwed(s, n)
  {
    hide Announced;
  }

  /** The two references on the target taken and given back in the order of a transaction that
      succeeds: first the temporary one. */
  lemma TargetHeldAndGiven(s: State, n: nat)
    requires Inv(s) && Live(s, n)
    ensures var s1 := TakeTarget(s, n);
            && Inv(s1) && s1.dues.temps[n] > 0
            && var s2 := DropTemp(s1, n);
              && Inv(s2) && Live(s2, n) && s2.dues.targets[n] > 0
              && RefsShift(s1, s2, 0, 0, 0, 0) && LocalsShift(s1, s2, n, 0, 0, -1)
              && var s3 := DropTarget(s2, n);
                RefsShift(s2, s3, 0, 0, 0, 0) && LocalsShift(s2, s3, n, -1, 0, 0) && SameCounts(s, s3)
  {
    hide Inv, Stable, RefsShift, LocalsShift, DuesShift, TakeTarget, DropTarget, DropTemp;
    TakeTargetKeepsInv(s, n);
    TakeTargetCounts(s, n);
    TakenTarget(s, n);
    var s1 := TakeTarget(s, n);
    InvNode(s1, n);
    TempsAreDue(s1, n);
    var s2 := DropTemp(s1, n);
    DropTempKeepsInv(s1, n);
    DropTempCounts(s1, n);
    DropTempStable(s1, n);
    TargetLives(s1, s2, n);
    var s3 := DropTarget(s2, n);
    DropTargetCounts(s2, n);
    RefsAdd(s, s1, s2, 0, 0, 0, 0);
    RefsAdd(s, s2, s3, 0, 0, 0, 0);
    LocalsSum(s, s1, s2, n, 1, 0, 1, 0, 0, -1);
    LocalsSum(s, s2, s3, n, 1, 0, 0, -1, 0, 0);
    NothingMoved(s, s3, n);
  }

  /** A transaction that succeeds: its temporary reference goes at once, the strong one and the
      objects when its buffer is freed; every count is as before. */
  lemma FreeingUndoesTransaction(s: State, from: nat, to: nat, n: nat, objs: seq<Object>, envs: seq<Env>)
    requires Inv(s) && Live(s, n) && |envs| == |objs|
    ensures var s1 := TakeTarget(s, n);
            && Inv(s1)
            && var run := TranslateAll(s1, from, to, objs, envs);
              && Inv(run.state) && n in run.state.nodes && run.state.dues.temps[n] > 0
              && var s2 := DropTemp(run.state, n);
                && Inv(s2) && Live(s2, n) && s2.dues.targets[n] > 0
                && var s3 := DropTarget(s2, n);
                  && Inv(s3) && Releasable(s3, to, run.done)
                  && Inv(ReleaseAll(s3, to, run.done)) && SameCounts(s, ReleaseAll(s3, to, run.done))
  {
    hide Inv, Owes, HasTokens, Stable, Shrinks, RefsShift, LocalsShift, DuesShift, TakeTarget, DropTarget, DropTemp;
    TargetHeldAndGiven(s, n);
    TakenTarget(s, n);
    var s1 := TakeTarget(s, n);
    var base := DropTarget(DropTemp(s1, n), n);
    OwesNothingYet(s1, to);
    var all := TranslateAllWorks(s1, s1, from, to, objs, envs, [], []);
    var run := TranslateAll(s1, from, to, objs, envs);
    assert [] + run.done == run.done;
    TargetStays(s1, run.state, to, multiset(all), n);
    TargetLives(s1, run.state, n);
    var s2 := DropTemp(run.state, n);
    DropTempKeepsInv(run.state, n);
    DropTempCounts(run.state, n);
    DropTempStable(run.state, n);
    TargetLives(run.state, s2, n);
    KeepsTokens(s1, run.state, s2, to, run.done, all);
    OwesShifted(s1, run.state, DropTemp(s1, n), s2, to, multiset(all), n, 0, -1);
    var s3 := DropTarget(s2, n);
    DropTargetShrinks(s2, n);
    DropTargetCounts(s2, n);
    OwesShifted(DropTemp(s1, n), s2, base, s3, to, multiset(all), n, -1, 0);
    StillHasTokens(base, s2, s3, to, run.done, all);
    ReleaseAllWorks(base, s3, to, run.done, all);
    var s4 := ReleaseAll(s3, to, run.done);
    RefsAdd(s, base, s4, 0, 0, 0, 0);
    LocalsAdd(s, base, s4, 0, 0, 0, 0);
  }

  lemma TakenTarget(s: State, n: nat)
    requires Inv(s) && Live(s, n)
    ensures var s1 := TakeTarget(s, n); Live(s1, n) && s1.dues.targets[n] > 0 && TempsOf(s1, n) > 0
  {
    hide Inv;
    InvNode(s, n);
  }

  lemma TargetLives(s: State, s': State, n: nat)
    requires Stable(s, s') && Live(s, n) && s.dues.targets[n] > 0
    ensures Live(s', n) && s'.dues.targets[n] > 0
  {
  }

  lemma TempIsHeld(s: State, s': State, n: nat)
    requires Inv(s) && Inv(s') && n in s.nodes && LocalsShift(s, s', n, 0, 0, 1)
    ensures n in s'.nodes && s'.dues.temps[n] > 0
  {
    hide Inv;
    InvNode(s, n);
    assert TempsOf(s', n) > 0;
    InvNode(s', n);
  }
}
