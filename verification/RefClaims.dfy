/** How claims change when one operation or one buffer changes. */
module RefClaims {
  import opened Common
  import opened RefGraph
  import opened RefUndo
  import opened RefEffects
  import opened RefBuffers

  lemma HoldingAdded(held: map<nat, nat>, op: nat, n: nat, m: nat)
    requires op !in held
    ensures |Holders(held[op := n], m)| == |Holders(held, m)| + At(m, n, 1)
  {
    if m == n {
      assert Holders(held[op := n], m) == Holders(held, m) + {op};
    } else {
      assert Holders(held[op := n], m) == Holders(held, m);
    }
  }

  lemma HoldingRemoved(held: map<nat, nat>, op: nat, m: nat)
    requires op in held
    ensures |Holders(held - {op}, m)| == |Holders(held, m)| + At(m, held[op], -1)
  {
    assert Holders(held - {op}, m) == Holders(held, m) - {op};
  }

  predicate Targets(buffers: map<nat, Buffer>, b: nat, m: nat) {
    b in buffers && buffers[b].target == Some(m)
  }

  lemma TargetingChanged(buffers: map<nat, Buffer>, b: nat, x: Buffer, m: nat)
    ensures |Targeting(buffers[b := x], m)| == |Targeting(buffers, m)| - One(Targets(buffers, b, m)) + One(x.target == Some(m))
  {
    var before, after := Targeting(buffers, m), Targeting(buffers[b := x], m);
    if x.target == Some(m) {
      assert after == before + {b};
    } else {
      assert after == before - {b};
    }
  }

  lemma TargetingRemoved(buffers: map<nat, Buffer>, b: nat, m: nat)
    requires b in buffers && buffers[b].target.None?
    ensures Targeting(buffers - {b}, m) == Targeting(buffers, m)
  {
  }

  /** A buffer without objects to release, or with the same ones. */
  lemma NamingKept(buffers: map<nat, Buffer>, b: nat, x: Buffer, p: nat, ptr: nat, strong: bool)
    requires if b in buffers then x.owner == buffers[b].owner && x.objs == buffers[b].objs && x.done == buffers[b].done else x.done == |x.objs|
    ensures Naming(buffers[b := x], p, ptr, strong) == Naming(buffers, p, ptr, strong)
  {
  }

  lemma NamingRemoved(buffers: map<nat, Buffer>, b: nat, p: nat, ptr: nat, strong: bool)
    requires b in buffers && buffers[b].done == |buffers[b].objs|
    ensures Naming(buffers - {b}, p, ptr, strong) == Naming(buffers, p, ptr, strong)
  {
  }

  predicate Owed(x: Buffer, i: nat, p: nat, ptr: nat, strong: bool) {
    x.owner == p && x.done <= i < |x.objs| && Names(x.objs[i], ptr, strong)
  }

  lemma IsOwed(buffers: map<nat, Buffer>, p: nat, ptr: nat, strong: bool, b: nat, i: nat)
    ensures (b, i) in Naming(buffers, p, ptr, strong) <==> b in buffers && Owed(buffers[b], i, p, ptr, strong)
  {
  }

  lemma OwedAppended(x: Buffer, o: Object, i: nat, p: nat, ptr: nat, strong: bool)
    requires x.done <= |x.objs|
    ensures Owed(x.(objs := x.objs + [o]), i, p, ptr, strong)
            <==> Owed(x, i, p, ptr, strong) || (i == |x.objs| && x.owner == p && Names(o, ptr, strong))
  {
  }

  lemma NamingAppended(buffers: map<nat, Buffer>, b: nat, x: Buffer, o: Object, p: nat, ptr: nat, strong: bool)
    requires b in buffers && buffers[b].done <= |buffers[b].objs| && x == buffers[b].(objs := buffers[b].objs + [o])
    ensures |Naming(buffers[b := x], p, ptr, strong)| == |Naming(buffers, p, ptr, strong)| + One(x.owner == p && Names(o, ptr, strong))
  {
    hide Naming;
    var before, after := Naming(buffers, p, ptr, strong), Naming(buffers[b := x], p, ptr, strong);
    var last := (b, |buffers[b].objs|);
    forall e: (nat, nat)
      ensures e in after <==> e in before || (e == last && x.owner == p && Names(o, ptr, strong))
    {
      IsOwed(buffers, p, ptr, strong, e.0, e.1);
      IsOwed(buffers[b := x], p, ptr, strong, e.0, e.1);
      OwedAppended(buffers[b], o, e.1, p, ptr, strong);
      assert e == (e.0, e.1);
      hide Owed, Names;
    }
    IsOwed(buffers, p, ptr, strong, last.0, last.1);
    hide Names;
    if x.owner == p && Names(o, ptr, strong) {
      assert after == before + {last};
    } else {
      assert after == before;
    }
  }

  lemma NamingAdvanced(buffers: map<nat, Buffer>, b: nat, x: Buffer, p: nat, ptr: nat, strong: bool)
    requires b in buffers && buffers[b].done < |buffers[b].objs|
    requires x.owner == buffers[b].owner && x.objs == buffers[b].objs && x.done == buffers[b].done + 1
    ensures |Naming(buffers[b := x], p, ptr, strong)|
            == |Naming(buffers, p, ptr, strong)| - One(x.owner == p && Names(x.objs[buffers[b].done], ptr, strong))
  {
    var before, after := Naming(buffers, p, ptr, strong), Naming(buffers[b := x], p, ptr, strong);
    assert after == before - {(b, buffers[b].done)};
  }

  /** Two live nodes never have the same name. */
  lemma OneNodePerName(g: State, m: nat, n: nat)
    requires Inv(g) && m in g.nodes && n in g.nodes && g.nodes[m].proc.Some?
    requires g.nodes[m].proc == g.nodes[n].proc && g.nodes[m].ptr == g.nodes[n].ptr
    ensures m == n
  {
    InvPtr(g, m);
    InvPtr(g, n);
  }
}
