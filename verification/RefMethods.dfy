/** The driver's operations on nodes and refs, in place on the trees and lists of a binder
    context, each equal to a function of the state before. */
module RefMethods {
  import opened Common
  import opened RefGraph
  import opened RefOps
  import opened RefCounts
  import opened RefUndo
  import opened RefRelease

  ghost predicate Ascending(s: seq<nat>) {
    forall i, j :: 0 <= i < j < |s| ==> s[i] < s[j]
  }

  lemma LeastIsUnique(used: set<(nat, nat)>, p: nat, start: nat, d: nat)
    requires d >= start && (p, d) !in used && forall e :: start <= e < d ==> (p, e) in used
    ensures LeastFree(used, p, start) == d
  {
    LeastFreeIsLeast(used, p, start);
  }

  method Least(s: set<nat>) returns (least: nat)
    requires s != {}
    ensures least in s && forall x :: x in s ==> least <= x
  {
    least :| least in s;
    var left := s - {least};
    while left != {}
      invariant least in s && left <= s && forall x :: x in s ==> x in left || least <= x
      decreases |left|
    {
      var x :| x in left;
      least := if x < least then x else least;
      left := left - {x};
    }
  }

  lemma KeysOf(used: set<(nat, nat)>, p: nat, left: set<nat>)
    requires left == set k | k in used && k.0 == p :: k.1
    ensures forall d :: (p, d) in used <==> d in left
  {
    forall d | (p, d) in used
      ensures d in left
    {
      assert (p, d).0 == p && (p, d).1 == d;
    }
  }

  class Context {
    var nodes: map<nat, Node>
    var refs: map<nat, Ref>
    var byDesc: map<(nat, nat), nat>
    var byNode: map<(nat, nat), nat>
    var byPtr: map<(nat, nat), nat>
    var manager: Option<nat>
    var nextId: nat
    ghost var dues: Dues

    ghost function Now(): State
      reads this
    {
      State(nodes, refs, byDesc, byNode, byPtr, manager, nextId, dues)
    }

    constructor ()
      ensures Inv(Now()) && nodes == map[] && refs == map[]
    {
      nodes, refs, byDesc, byNode, byPtr, manager, nextId := map[], map[], map[], map[], map[], None, 0;
      dues := INITIAL.dues;
    }

    // ---------- one node ----------

    /** `binder_inc_node_nilocked`. */
    method IncNode(n: nat, strong: bool, internal: bool, todo: Option<nat>) returns (ok: bool)
      requires n in nodes
      modifies this`nodes
      ensures var inc := IncN(old(nodes)[n], old(manager) == Some(n), strong, internal, todo);
              nodes == old(nodes)[n := inc.node] && ok == inc.ok
    {
      var x := nodes[n];
      if strong {
        if internal {
          if todo.None? && x.internalStrong == 0 && !(x.proc.Some? && manager == Some(n) && x.hasStrong) {
            return false;
          }
          x := x.(internalStrong := x.internalStrong + 1);
        } else {
          x := x.(localStrong := x.localStrong + 1);
        }
        if !x.hasStrong && todo.Some? {
          x := x.(work := OnThread(todo.value));
        }
      } else {
        if !internal {
          x := x.(localWeak := x.localWeak + 1);
        }
        if !x.hasWeak && x.work.Idle? {
          if todo.None? {
            nodes := nodes[n := x];
            return false;
          }
          x := x.(work := OnThread(todo.value));
        }
      }
      nodes := nodes[n := x];
      return true;
    }

    /** `binder_dec_node_nilocked`, and `binder_free_node` when it says so. */
    method DecNode(n: nat, strong: bool, internal: bool)
      requires n in nodes && (strong && internal ==> nodes[n].internalStrong > 0)
      modifies this`nodes, this`byPtr
      ensures Now() == Settle(old(Now()), n, DecN(old(nodes)[n], strong, internal), dues)
    {
      var x := nodes[n];
      ghost var d := DecN(x, strong, internal);
      var keep: bool;
      if strong {
        x := if internal then x.(internalStrong := x.internalStrong - 1) else x.(localStrong := x.localStrong - 1);
        keep := x.localStrong != 0 || x.internalStrong != 0;
      } else {
        x := if internal then x else x.(localWeak := x.localWeak - 1);
        keep := x.localWeak != 0 || x.temps != 0 || x.list != {};
      }
      if !keep && x.proc.Some? && (x.hasStrong || x.hasWeak) {
        if x.work.Idle? {
          x := x.(work := OnProc);
        }
        keep := true;
      }
      var unused := !keep && x.list == {} && x.localStrong == 0 && x.localWeak == 0 && x.temps == 0;
      assert d == if unused then Gone else Kept(x);
      hide DecN;
      if unused {
        if x.proc.Some? {
          byPtr := byPtr - {(x.proc.value, x.ptr)};
        }
        nodes := nodes - {n};
      } else {
        nodes := nodes[n := x];
      }
    }

    /** `binder_inc_node_tmpref_ilocked`. */
    method HoldNode(n: nat)
      requires n in nodes
      modifies this`nodes, this`dues
      ensures Now() == TakeTemp(old(Now()), n)
    {
      nodes := nodes[n := nodes[n].(temps := nodes[n].temps + 1)];
      dues := dues.(temps := dues.temps + multiset{n});
    }

    /** `binder_put_node`. */
    method PutNode(n: nat)
      requires Inv(Now()) && n in nodes && dues.temps[n] > 0
      modifies this`nodes, this`byPtr, this`dues
      ensures Now() == DropTemp(old(Now()), n) && Inv(Now())
    {
      DropTempKeepsInv(Now(), n);
      TempsAreHeld(Now(), n);
      hide Inv;
      nodes := nodes[n := nodes[n].(temps := nodes[n].temps - 1)];
      assert nodes[n].temps >= 0;  // BUG_ON(node->tmp_refs < 0)
      dues := dues.(temps := dues.temps - multiset{n});
      ghost var y := nodes[n];
      DecNode(n, false, true);
      SettledTwice(old(Now()), n, y, DecN(y, false, true), dues);
    }

    /** `binder_node_release`. */
    method ReleaseNode(n: nat)
      requires Inv(Now()) && Live(Now(), n) && manager != Some(n)
      modifies this`nodes, this`byPtr
      ensures Inv(Now()) && Now() == NodeDies(old(Now()), n)
    {
      hide Inv;
      NodeDiesKeepsInv(Now(), n);
      ghost var after := NodeDies(Now(), n);
      var x := nodes[n];
      byPtr := byPtr - {(x.proc.value, x.ptr)};
      if x.list == {} && x.temps == 0 {
        nodes := nodes - {n};
      } else {
        nodes := nodes[n := x.(proc := None, localStrong := 0, localWeak := 0, work := Idle(false))];
      }
      assert Now() == after;
    }

    // ---------- refs ----------

    /** The walk over the handle tree of a process, in order. */
    method Handles(p: nat) returns (handles: seq<nat>)
      ensures Ascending(handles) && forall d :: d in handles <==> (p, d) in byDesc
    {
      var left := set k | k in byDesc && k.0 == p :: k.1;
      handles := [];
      KeysOf(byDesc.Keys, p, left);
      while left != {}
        invariant Ascending(handles)
        invariant forall d :: (p, d) in byDesc <==> d in handles || d in left
        invariant forall i, d :: 0 <= i < |handles| && d in left ==> handles[i] < d
        decreases |left|
      {
        var d := Least(left);
        handles := handles + [d];
        left := left - {d};
      }
    }

    /** The search for a free handle. */
    method LeastHandle(p: nat, start: nat) returns (desc: nat)
      requires start <= 1
      ensures desc == LeastFree(byDesc.Keys, p, start)
    {
      var handles := Handles(p);
      desc := start;
      var i := 0;
      while i < |handles| && handles[i] <= desc
        invariant 0 <= i <= |handles| && start <= desc
        invariant i == 0 ==> desc == start
        invariant i > 0 ==> desc == handles[i - 1] + 1
        invariant forall e :: start <= e < desc ==> e in handles[..i]
      {
        assert handles[..i + 1] == handles[..i] + [handles[i]];
        desc := handles[i] + 1;
        i := i + 1;
      }
      assert desc !in handles;
      assert forall d :: d in handles[..i] ==> d in handles;
      LeastIsUnique(byDesc.Keys, p, start, desc);
    }

    /** `binder_get_ref_for_node_olocked`: the BUG() on a handle in use is unreachable. */
    method GetRefForNode(p: nat, n: nat) returns (r: nat)
      requires Inv(Now()) && n in nodes
      modifies this`nodes, this`refs, this`byDesc, this`byNode, this`nextId
      ensures Inv(Now()) && (p, n) in byNode && byNode[(p, n)] == r && r in refs && refs[r].node == n && n in nodes
      ensures Now() == if (p, n) in old(byNode) then old(Now()) else AddRef(old(Now()), p, n)
    {
      hide Inv;
      if (p, n) in byNode {
        ByNodeIsRef(Now(), p, n);
        return byNode[(p, n)];
      }
      AddRefKeepsInv(Now(), p, n);
      r := nextId;
      nextId := nextId + 1;
      var desc := LeastHandle(p, if manager == Some(n) then 0 else 1);
      if (p, desc) in byDesc {
        assert false;  // BUG()
      }
      refs := refs[r := Ref(p, n, desc, 0, 0)];
      byNode := byNode[(p, n) := r];
      byDesc := byDesc[(p, desc) := r];
      nodes := nodes[n := nodes[n].(list := nodes[n].list + {r})];
    }

    /** `binder_inc_ref_olocked`. */
    method IncCount(r: nat, strong: bool, todo: Option<nat>) returns (ok: bool)
      requires r in refs && refs[r].node in nodes
      modifies this`nodes, this`refs
      ensures var inc := IncRef(old(Now()), r, strong, todo); Now() == inc.state && ok == inc.ok
    {
      var x := refs[r];
      if strong {
        if x.strong == 0 {
          ghost var was := nodes;
          ok := IncNode(x.node, true, true, todo);
          if !ok {
            assert nodes == was;
            return;
          }
        }
        refs := refs[r := x.(strong := x.strong + 1)];
      } else {
        if x.weak == 0 {
          ghost var was := nodes;
          ok := IncNode(x.node, false, true, todo);
          if !ok {
            assert nodes == was;
            return;
          }
        }
        refs := refs[r := x.(weak := x.weak + 1)];
      }
      ok := true;
    }

    /** `binder_inc_ref_for_node`. */
    method IncForNode(p: nat, n: nat, strong: bool, todo: Option<nat>) returns (ok: bool, r: nat)
      requires Inv(Now()) && n in nodes && (todo.Some? ==> Live(Now(), n))
      modifies this`nodes, this`refs, this`byDesc, this`byNode, this`nextId
      ensures var inc := IncRefForNode(old(Now()), p, n, strong, todo);
              Now() == inc.state && ok == inc.ok && Inv(Now())
      ensures (p, n) in byNode && byNode[(p, n)] == r && r in refs
    {
      hide Inv, AddRef, IncRef;
      IncRefForNodeKeepsInv(Now(), p, n, strong, todo);
      IncRefForNodeFacts(Now(), p, n, strong, todo);
      NewRefIsNext(Now(), p, n);
      ghost var was := Now();
      r := GetRefForNode(p, n);
      ghost var got := Now();
      ok := IncCount(r, strong, todo);
      SameByNode(got, r, strong, todo);
    }

    /** The last part of `binder_cleanup_ref_olocked`: out of the trees, off the node's list. */
    method Unlink(r: nat)
      requires r in refs && refs[r].node in nodes
      modifies this`nodes, this`refs, this`byDesc, this`byNode, this`byPtr
      ensures Now() == TakeOut(old(Now()), r)
    {
      var x := refs[r];
      ghost var was := Now();
      byDesc := byDesc - {(x.proc, x.desc)};
      byNode := byNode - {(x.proc, x.node)};
      nodes := nodes[x.node := nodes[x.node].(list := nodes[x.node].list - {r})];
      refs := refs - {r};
      ghost var y := nodes[x.node];
      DecNode(x.node, false, true);
      SettledTwice(was.(refs := refs, byDesc := byDesc, byNode := byNode), x.node, y, DecN(y, false, true), dues);
    }

    /** `binder_cleanup_ref_olocked` and `binder_free_ref`. */
    method CleanUp(r: nat)
      requires Inv(Now()) && r in refs
      modifies this`nodes, this`refs, this`byDesc, this`byNode, this`byPtr
      ensures Inv(Now()) && Now() == Cleanup(old(Now()), r)
    {
      hide Inv, TakeOut;
      CleanupKeepsInv(Now(), r);
      InvRef(Now(), r);
      StrongIsCounted(Now(), r);
      ghost var after := Cleanup(Now(), r);
      if refs[r].strong > 0 {
        LoweredRef(Now(), r, 0);
        ghost var lowered := LowerStrong(Now(), r, 0);
        Lower(r, 0);
        assert Now() == lowered;
      }
      Unlink(r);
      assert Now() == after;
    }

    /** The strong count of a ref goes down, and with its last one the node's internal count. */
    method Lower(r: nat, strong: nat)
      requires r in refs && Counted(Now(), r) && strong < refs[r].strong
      modifies this`nodes, this`refs, this`byPtr
      ensures Now() == LowerStrong(old(Now()), r, strong)
    {
      var x := refs[r];
      refs := refs[r := x.(strong := strong)];
      if strong == 0 {
        DecNode(x.node, true, true);
      }
    }

    /** `binder_dec_ref_olocked`; a count that is 0 already is a user error. */
    method DecCount(r: nat, strong: bool)
      requires Inv(Now()) && r in refs
      modifies this`nodes, this`refs, this`byDesc, this`byNode, this`byPtr
      ensures Inv(Now()) && Now() == DecRef(old(Now()), r, strong)
    {
      hide Inv, TakeOut, LowerStrong;
      DecRefKeepsInv(Now(), r, strong);
      InvRef(Now(), r);
      StrongIsCounted(Now(), r);
      var x := refs[r];
      if (if strong then x.strong else x.weak) == 0 {
        return;
      }
      if strong {
        LoweredRef(Now(), r, x.strong - 1);
        Lower(r, x.strong - 1);
      } else {
        refs := refs[r := x.(weak := x.weak - 1)];
      }
      if refs[r].strong == 0 && refs[r].weak == 0 {
        Unlink(r);
      }
    }

    // ---------- objects ----------

    /** `binder_new_node`. */
    method CreateNode(p: nat, ptr: nat, cookie: nat) returns (n: nat)
      modifies this`nodes, this`byPtr, this`nextId, this`dues
      ensures n == old(nextId) && Now() == NewNode(old(Now()), p, ptr, cookie)
    {
      n := nextId;
      nodes := nodes[n := Node(Some(p), ptr, cookie, 0, 0, 0, 1, false, false, false, false, {}, Idle(false))];
      byPtr := byPtr[(p, ptr) := n];
      nextId := n + 1;
      dues := dues.(temps := dues.temps + multiset{n});
    }

    /** The end of a translation that needs a ref in the target process; gives the node back. */
    method GiveHandle(to: nat, n: nat, strong: bool, todo: Option<nat>, memory: bool) returns (obj: Option<Object>)
      requires Inv(Now()) && n in nodes && dues.temps[n] > 0 && (todo.Some? ==> Live(Now(), n))
      modifies this
      ensures Inv(Now())
      ensures var t := ToHandle(old(Now()), to, n, strong, todo, memory); Now() == t.state && obj == t.obj
    {
      hide Inv, IncRefForNode, DropTemp;
      ghost var was := Now();
      if (to, n) !in byNode && !memory {
        PutNode(n);
        return None;
      }
      IncRefForNodeFacts(was, to, n, strong, todo);
      var ok, r := IncForNode(to, n, strong, todo);
      obj := if ok then Some(Handle(refs[r].desc, strong)) else None;
      PutNode(n);
    }

    /** `binder_translate_binder`. */
    method TranslateBinderObject(from: nat, to: nat, ptr: nat, cookie: nat, strong: bool, env: Env) returns (obj: Option<Object>)
      requires Inv(Now())
      modifies this
      ensures Inv(Now())
      ensures var t := TranslateBinder(old(Now()), from, to, ptr, cookie, strong, env); Now() == t.state && obj == t.obj
    {
      hide Inv, ToHandle, TakeTemp, NewNode, DropTemp;
      var n: nat;
      if (from, ptr) in byPtr {
        OwnNodeFacts(Now(), from, ptr, cookie);
        PtrIsLive(Now(), from, ptr);
        n := byPtr[(from, ptr)];
        HoldNode(n);
      } else {
        if !env.nodeMemory {
          return None;
        }
        OwnNodeFacts(Now(), from, ptr, cookie);
        n := CreateNode(from, ptr, cookie);
      }
      if cookie != nodes[n].cookie || !env.permitted {
        PutNode(n);
        return None;
      }
      obj := GiveHandle(to, n, strong, Some(env.thread), env.refMemory);
    }

    /** `binder_translate_handle`. */
    method TranslateHandleObject(from: nat, to: nat, desc: nat, strong: bool, env: Env) returns (obj: Option<Object>)
      requires Inv(Now())
      modifies this
      ensures Inv(Now())
      ensures var t := TranslateHandle(old(Now()), from, to, desc, strong, env); Now() == t.state && obj == t.obj
    {
      hide Inv, ToHandle, DropTemp;
      if (from, desc) !in byDesc {
        return None;
      }
      ByDescIsRef(Now(), from, desc);
      var r := byDesc[(from, desc)];
      if strong && refs[r].strong == 0 {
        return None;
      }
      var n := refs[r].node;
      TakeTempKeepsInv(Now(), n);
      HoldNode(n);
      if !env.permitted {
        PutNode(n);
        return None;
      }
      if nodes[n].proc == Some(to) {
        obj := Some(Binder(nodes[n].ptr, nodes[n].cookie, strong));
        NameNode(n, strong);
        PutNode(n);
      } else {
        obj := GiveHandle(to, n, strong, None, env.refMemory);
      }
    }

    /** The local count an object of the node's own process stands for. */
    method NameNode(n: nat, strong: bool)
      requires Inv(Now()) && Live(Now(), n)
      modifies this`nodes, this`dues
      ensures Inv(Now()) && Now() == AddObject(old(Now()), n, strong)
    {
      hide Inv, IncN;
      AddObjectKeepsInv(Now(), n, strong);
      var ignored := IncNode(n, strong, false, None);
      dues := TakenDue(dues, n, strong);
    }

    method TranslateObject(from: nat, to: nat, o: Object, env: Env) returns (obj: Option<Object>)
      requires Inv(Now())
      modifies this
      ensures Inv(Now())
      ensures var t := Translate(old(Now()), from, to, o, env); Now() == t.state && obj == t.obj
    {
      hide Inv, TranslateBinder, TranslateHandle;
      match o {
        case Binder(ptr, cookie, strong) => obj := TranslateBinderObject(from, to, ptr, cookie, strong, env);
        case Handle(desc, strong) => obj := TranslateHandleObject(from, to, desc, strong, env);
        case Inert => obj := if env.permitted then Some(Inert) else None;
      }
    }

    /** The offsets loop: object after object until one fails. */
    method TranslateObjects(from: nat, to: nat, objs: seq<Object>, envs: seq<Env>) returns (done: seq<Object>)
      requires Inv(Now()) && |envs| == |objs|
      modifies this
      ensures var run := TranslateAll(old(Now()), from, to, objs, envs); Now() == run.state && done == run.done && Inv(Now())
    {
      hide Inv, Translate;
      done := [];
      var i := 0;
      ghost var run := TranslateAll(Now(), from, to, objs, envs);
      assert objs[0..] == objs && envs[0..] == envs;
      while i < |objs|
        invariant 0 <= i <= |objs| && Inv(Now())
        invariant var rest := TranslateAll(Now(), from, to, objs[i..], envs[i..]);
                  run.state == rest.state && run.done == done + rest.done
      {
        assert objs[i..][0] == objs[i] && envs[i..][0] == envs[i];
        assert objs[i..][1..] == objs[i + 1..] && envs[i..][1..] == envs[i + 1..];
        var obj := TranslateObject(from, to, objs[i], envs[i]);
        if obj.None? {
          return;
        }
        done := done + [obj.value];
        i := i + 1;
      }
    }

    /** One object of `binder_transaction_buffer_release`. */
    method ReleaseObject(to: nat, o: Object)
      requires Inv(Now()) && CanRelease(Now(), to, o)
      modifies this
      ensures Inv(Now()) && Now() == ReleaseOne(old(Now()), to, o)
    {
      hide Inv, DropTemp, DropObject, DecRef;
      match o {
        case Binder(ptr, _, strong) =>
          if (to, ptr) in byPtr {
            PtrIsLive(Now(), to, ptr);
            var n := byPtr[(to, ptr)];
            TakeTempKeepsInv(Now(), n);
            HoldNode(n);
            UnnameNode(n, strong);
            PutNode(n);
          }
        case Handle(desc, strong) =>
          if (to, desc) in byDesc {
            ByDescIsRef(Now(), to, desc);
            var r := byDesc[(to, desc)];
            if !strong || refs[r].strong > 0 {
              DecCount(r, strong);
            }
          }
        case Inert =>
      }
    }

    /** `binder_dec_node` for such an object. */
    method UnnameNode(n: nat, strong: bool)
      requires Inv(Now()) && n in nodes && dues.temps[n] > 0
      requires Live(Now(), n) ==> if strong then dues.strongObjects[n] > 0 else dues.weakObjects[n] > 0
      modifies this`nodes, this`byPtr, this`dues
      ensures Inv(Now()) && Now() == DropObject(old(Now()), n, strong) && n in nodes && dues.temps == old(dues).temps
    {
      hide Inv, DecN;
      DropObjectKeepsInv(Now(), n, strong);
      dues := DroppedDue(dues, n, strong);
      DecNode(n, strong, false);
    }

    /** The release loop. */
    method ReleaseObjects(to: nat, objs: seq<Object>)
      requires Inv(Now()) && Releasable(Now(), to, objs)
      modifies this
      ensures Now() == ReleaseAll(old(Now()), to, objs)
    {
      hide Inv, ReleaseOne, CanRelease;
      var i := 0;
      ghost var end := ReleaseAll(Now(), to, objs);
      assert objs[0..] == objs;
      while i < |objs|
        invariant 0 <= i <= |objs| && Inv(Now())
        invariant Releasable(Now(), to, objs[i..]) && ReleaseAll(Now(), to, objs[i..]) == end
      {
        assert objs[i..][0] == objs[i] && objs[i..][1..] == objs[i + 1..];
        ReleaseObject(to, objs[i]);
        i := i + 1;
      }
    }

    /** `binder_get_node_refs_for_txn`. */
    method HoldTarget(n: nat)
      requires Inv(Now()) && Live(Now(), n)
      modifies this`nodes, this`dues
      ensures Inv(Now()) && Now() == TakeTarget(old(Now()), n)
    {
      hide Inv, IncN;
      TakeTargetKeepsInv(Now(), n);
      ghost var after := TakeTarget(Now(), n);
      var ignored := IncNode(n, true, false, None);
      nodes := nodes[n := nodes[n].(temps := nodes[n].temps + 1)];
      dues := dues.(targets := dues.targets + multiset{n}, temps := dues.temps + multiset{n});
      assert nodes == after.nodes;
    }

    /** The head of `binder_transaction_buffer_release`. */
    method GiveTargetBack(n: nat)
      requires Inv(Now()) && n in nodes && (Live(Now(), n) ==> dues.targets[n] > 0)
      modifies this`nodes, this`byPtr, this`dues
      ensures Inv(Now()) && Now() == DropTarget(old(Now()), n)
    {
      hide Inv, DecN;
      DropTargetKeepsInv(Now(), n);
      dues := dues.(targets := dues.targets - multiset{n});
      DecNode(n, true, false);
    }

    /** A new transaction to node n that fails at some object, or succeeds and is freed
        untouched, each in its order: all counts are as before. */
    method TransactAndRelease(from: nat, to: nat, n: nat, objs: seq<Object>, envs: seq<Env>)
      requires Inv(Now()) && Live(Now(), n) && |envs| == |objs|
      modifies this
      ensures Inv(Now()) && SameCounts(old(Now()), Now())
    {
      hide Inv, TakeTarget, DropTarget, DropTemp, SameCounts;
      ghost var was := Now();
      HoldTarget(n);
      var done := TranslateObjects(from, to, objs, envs);
      if |done| < |objs| {
        AbortUndoesTransaction(was, from, to, n, objs, envs);
        TargetStillDue(was, from, to, n, objs, envs);
        GiveTargetBack(n);
        ReleaseObjects(to, done);
        PutNode(n);
      } else {
        FreeingUndoesTransaction(was, from, to, n, objs, envs);
        PutNode(n);
        GiveTargetBack(n);
        ReleaseObjects(to, done);
      }
    }

    // ---------- a thread leaves, a process dies ----------

    /** The node work on the list of a thread that leaves, in `binder_release_work`: exactly that
        is thrown away, and nothing else changes. */
    method ThrowThreadWork(p: nat, t: nat)
      requires Inv(Now())
      modifies this`nodes
      ensures Inv(Now()) && Now() == old(Now()).(nodes := nodes) && nodes.Keys == old(nodes).Keys
      ensures forall n :: n in nodes ==>
                nodes[n] == if OnListOf(old(nodes)[n], p, t) then old(nodes)[n].(work := Idle(true)) else old(nodes)[n]
    {
      hide Inv;
      var left := set n | n in nodes && OnListOf(nodes[n], p, t);
      while left != {}
        invariant Inv(Now()) && Now() == old(Now()).(nodes := nodes) && nodes.Keys == old(nodes).Keys
        invariant forall n :: n in left <==> n in nodes && OnListOf(nodes[n], p, t)
        invariant forall n :: n in nodes ==>
                    nodes[n] == if OnListOf(old(nodes)[n], p, t) && n !in left then old(nodes)[n].(work := Idle(true)) else old(nodes)[n]
        decreases |left|
      {
        SomeElement(left);
        var n :| n in left;
        ThrowWorkKeepsInv(Now(), n);
        nodes := nodes[n := nodes[n].(work := Idle(true))];
        left := left - {n};
      }
    }

    /** The nodes of a dying process, in `binder_deferred_release`. */
    method ReleaseNodes(p: nat)
      requires Inv(Now()) && (manager.Some? ==> manager.value in nodes && nodes[manager.value].proc != Some(p))
      modifies this`nodes, this`byPtr
      ensures Inv(Now()) && forall n :: n in nodes ==> nodes[n].proc != Some(p)
      ensures forall n :: n in old(nodes) && old(nodes)[n].proc != Some(p) ==> n in nodes && nodes[n] == old(nodes)[n]
      ensures forall n :: n in old(nodes) && old(nodes)[n].proc == Some(p) ==>
                (n in nodes <==> old(nodes)[n].list != {} || old(nodes)[n].temps != 0)
      ensures forall n :: n in nodes ==> n in old(nodes) && nodes[n].list == old(nodes)[n].list && nodes[n].temps == old(nodes)[n].temps
    {
      hide Inv, NodeDies;
      var left := set n | n in nodes && nodes[n].proc == Some(p);
      while left != {}
        invariant Inv(Now())
        invariant forall n :: n in left ==> n in nodes && nodes[n].proc == Some(p)
        invariant forall n :: n in nodes && nodes[n].proc == Some(p) ==> n in left
        invariant manager.Some? ==> manager.value !in left
        invariant forall n :: n in left ==> n in old(nodes)
        invariant forall n :: n in old(nodes) && (old(nodes)[n].proc != Some(p) || n in left) ==> n in nodes && nodes[n] == old(nodes)[n]
        invariant forall n :: n in old(nodes) && old(nodes)[n].proc == Some(p) && n !in left ==>
                    (n in nodes <==> old(nodes)[n].list != {} || old(nodes)[n].temps != 0)
        invariant forall n :: n in nodes ==> n in old(nodes) && nodes[n].list == old(nodes)[n].list && nodes[n].temps == old(nodes)[n].temps
        decreases |left|
      {
        SomeElement(left);
        var n :| n in left;
        DeadNode(Now(), n);
        ReleaseNode(n);
        left := left - {n};
      }
    }

    /** The refs of a dying process whose nodes are gone already. */
    method ReleaseRefs(p: nat)
      requires Inv(Now()) && forall n :: n in nodes ==> nodes[n].proc != Some(p)
      modifies this`nodes, this`refs, this`byDesc, this`byNode, this`byPtr
      ensures Inv(Now())
      ensures (forall n :: n in nodes ==> nodes[n].proc != Some(p)) && (forall r :: r in refs ==> refs[r].proc != p)
      ensures forall r :: r in old(refs) && old(refs)[r].proc != p ==> r in refs && refs[r] == old(refs)[r]
    {
      hide Inv, Cleanup;
      var left := set r | r in refs && refs[r].proc == p;
      while left != {}
        invariant Inv(Now()) && forall n :: n in nodes ==> nodes[n].proc != Some(p)
        invariant forall r :: r in left ==> r in refs && refs[r].proc == p
        invariant forall r :: r in refs && refs[r].proc == p ==> r in left
        invariant forall r :: r in old(refs) && old(refs)[r].proc != p ==> r in refs && refs[r] == old(refs)[r]
        decreases |left|
      {
        SomeElement(left);
        var r :| r in left;
        CleanupFacts(Now(), r);
        CleanUp(r);
        left := left - {r};
      }
    }

    /** `binder_deferred_release`, as far as nodes and refs go: afterwards the process owns
        neither, and no ref of another process has changed. */
    method ReleaseProcess(p: nat)
      requires Inv(Now())
      modifies this
      ensures Inv(Now())
      ensures (forall n :: n in nodes ==> nodes[n].proc != Some(p)) && (forall r :: r in refs ==> refs[r].proc != p)
      ensures forall r :: r in old(refs) && old(refs)[r].proc != p ==> r in refs && refs[r] == old(refs)[r]
    {
      hide Inv, Cleanup;
      ManagerIsThere(Now());
      if manager.Some? && nodes[manager.value].proc == Some(p) {
        ClearCtxKeepsInv(Now());
        manager := None;
      }
      ReleaseNodes(p);
      ReleaseRefs(p);
    }
  }

  predicate OnListOf(x: Node, p: nat, t: nat) {
    x.proc == Some(p) && x.work == OnThread(t)
  }

  /** The target of a transaction is still owed its reference when the objects are done. */
  lemma TargetStillDue(s: State, from: nat, to: nat, n: nat, objs: seq<Object>, envs: seq<Env>)
    requires Inv(s) && Live(s, n) && |envs| == |objs|
    ensures Inv(TakeTarget(s, n))
    ensures var run := TranslateAll(TakeTarget(s, n), from, to, objs, envs); Live(run.state, n) && run.state.dues.targets[n] > 0
  {
    hide Inv, TakeTarget, HasTokens, Owes;
    TakeTargetKeepsInv(s, n);
    TakenTarget(s, n);
    var s1 := TakeTarget(s, n);
    OwesNothingYet(s1, to);
    var all := TranslateAllWorks(s1, s1, from, to, objs, envs, [], []);
    TargetLives(s1, TranslateAll(s1, from, to, objs, envs).state, n);
  }

  lemma SomeElement(s: set<nat>)
    requires s != {}
    ensures exists x :: x in s
  {
  }

  lemma ManagerIsThere(s: State)
    requires Inv(s)
    ensures s.ctx.Some? ==> s.ctx.value in s.nodes
  {
  }

  lemma DeadNode(s: State, n: nat)
    requires Live(s, n)
    ensures var s' := NodeDies(s, n);
            && s'.refs == s.refs && s'.ctx == s.ctx
            && (forall m :: m in s.nodes && m != n ==> m in s'.nodes && s'.nodes[m] == s.nodes[m])
            && (forall m :: m in s'.nodes ==> m in s.nodes)
            && (n in s'.nodes <==> s.nodes[n].list != {} || s.nodes[n].temps != 0)
            && (n in s'.nodes ==> s'.nodes[n].proc.None? && s'.nodes[n].list == s.nodes[n].list && s'.nodes[n].temps == s.nodes[n].temps)
  {
  }

  lemma CleanupFacts(s: State, r: nat)
    requires Inv(s) && r in s.refs
    ensures var s' := Cleanup(s, r);
            && (forall q :: q in s.refs && q != r ==> q in s'.refs && s'.refs[q] == s.refs[q])
            && (forall q :: q in s'.refs ==> q in s.refs && q != r && s'.refs[q].proc == s.refs[q].proc)
            && (forall n :: n in s'.nodes ==> n in s.nodes && s'.nodes[n].proc == s.nodes[n].proc)
  {
    hide Inv;
    InvRef(s, r);
    StrongIsCounted(s, r);
    if s.refs[r].strong > 0 {
      LoweredRef(s, r, 0);
      LowerStrongKeepsInv(s, r, 0);
    }
  }

  lemma TempsAreHeld(s: State, n: nat)
    requires Inv(s) && n in s.nodes
    ensures s.nodes[n].temps == s.dues.temps[n]
  {
    InvNode(s, n);
  }

  lemma NewRefIsNext(s: State, p: nat, n: nat)
    requires n in s.nodes
    ensures (p, n) in AddRef(s, p, n).byNode && AddRef(s, p, n).byNode[(p, n)] == s.nextId
  {
  }

  lemma SameByNode(s: State, r: nat, strong: bool, todo: Option<nat>)
    requires r in s.refs && s.refs[r].node in s.nodes
    ensures IncRef(s, r, strong, todo).state.byNode == s.byNode && r in IncRef(s, r, strong, todo).state.refs
  {
  }

  /** Changing a node and then storing the outcome of its decrement. */
  lemma SettledTwice(s: State, n: nat, y: Node, d: Dec, dues: Dues)
    requires n in s.nodes && y.proc == s.nodes[n].proc && y.ptr == s.nodes[n].ptr
    ensures Settle(s.(nodes := s.nodes[n := y], dues := dues), n, d, dues) == Settle(s, n, d, dues)
  {
    assert s.nodes[n := y] - {n} == s.nodes - {n};
    if d.Kept? {
      assert s.nodes[n := y][n := d.node] == s.nodes[n := d.node];
    }
  }
}
