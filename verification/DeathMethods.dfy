/** The loops over death records, in place on the driver's state. */
module DeathMethods {
  import opened Common
  import opened DeathGraph
  import opened Death

  class Notifier {
    var nodes: map<nat, NodeState>
    var refs: map<nat, Ref>
    var threads: map<nat, nat>
    var records: map<nat, Record>
    var lists: map<ListId, seq<nat>>
    var nextId: nat
    ghost var told: set<nat>
    ghost var freed: set<nat>

    ghost function Now(): State
      reads this
    {
      State(nodes, refs, threads, records, lists, nextId, told, freed)
    }

    function Entries(l: ListId): seq<nat>
      reads this
    {
      if l in lists then lists[l] else []
    }

    constructor ()
      ensures Inv(Now()) && records == map[]
    {
      nodes, refs, threads, records, lists, nextId := map[], map[], map[], map[], map[], 0;
      told, freed := {}, {};
    }

    /** The search of BC_DEAD_BINDER_DONE: the first delivered record with the cookie. */
    method FindDelivered(p: nat, cookie: nat) returns (found: Option<nat>)
      requires Inv(Now())
      ensures found.Some? ==> found.value in Entries(Delivered(p)) && found.value in records && records[found.value].cookie == cookie
      ensures found.None? ==> forall d :: d in Entries(Delivered(p)) ==> d in records && records[d].cookie != cookie
    {
      var q := Entries(Delivered(p));
      var i := 0;
      while i < |q|
        invariant 0 <= i <= |q|
        invariant forall j :: 0 <= j < i ==> q[j] in records && records[q[j]].cookie != cookie
      {
        assert q[i] in ListOf(Now(), Delivered(p));
        if records[q[i]].cookie == cookie {
          return Some(q[i]);
        }
        i := i + 1;
      }
      return None;
    }

    /** BC_DEAD_BINDER_DONE. */
    method DeadBinderDone(p: nat, cookie: nat, report: ListId) returns (found: Option<nat>)
      requires Inv(Now()) && IsReportList(Now(), p, report)
      modifies this`records, this`lists
      ensures Inv(Now())
      ensures found.None? ==> Now() == old(Now()) && forall d :: d in Entries(Delivered(p)) ==> d in records && records[d].cookie != cookie
      ensures found.Some? ==> found.value in old(records) && old(records)[found.value].cookie == cookie
      ensures found.Some? ==> found.value in ListOf(old(Now()), Delivered(p)) && Now() == Finish(old(Now()), p, found.value, report)
    {
      found := FindDelivered(p, cookie);
      if found.Some? {
        var d := found.value;
        hide Inv;
        FinishKeepsInv(Now(), p, d, report);
        OnListIsRecord(Now(), Delivered(p), d);
        var x := records[d];
        var without := lists[Delivered(p) := Remove(Entries(Delivered(p)), d)];
        ghost var after := Finish(Now(), p, d, report);
        if x.kind.DeadBinderAndClear? {
          lists := without[report := (if report in without then without[report] else []) + [d]];
          records := records[d := x.(kind := ClearNotification, place := Some(report))];
        } else {
          lists := without;
          records := records[d := x.(place := None)];
        }
        assert Now() == after;
      }
    }

    /** `binder_release_work` for death records: exactly those on the list are freed, and it is
        empty afterwards, so the BUG_ONs of `binder_free_proc` and `binder_free_thread` on their
        lists cannot fire. */
    method ReleaseWork(l: ListId)
      requires Inv(Now()) && (Entries(l) != [] ==> CanRelease(Now(), l))
      modifies this`records, this`lists, this`freed, this`refs
      ensures Inv(Now()) && Entries(l) == [] && refs == old(refs)
      ensures forall d :: d in freed <==> d in old(freed) || d in old(Entries(l))
      ensures forall d :: d in records <==> d in old(records) && d !in old(Entries(l))
      ensures forall d :: d in records ==> records[d] == old(records)[d]
    {
      hide Inv;
      OnListAreRecords(Now(), l);
      while Entries(l) != []
        invariant Inv(Now()) && (Entries(l) != [] ==> CanRelease(Now(), l)) && refs == old(refs)
        invariant forall d :: d in Entries(l) ==> d in old(Entries(l))
        invariant forall d :: d in freed <==> d in old(freed) || (d in old(Entries(l)) && d !in Entries(l))
        invariant forall d :: d in records <==> d in old(records) && (d in old(Entries(l)) ==> d in Entries(l))
        invariant forall d :: d in records ==> records[d] == old(records)[d]
        decreases |Entries(l)|
      {
        ReleaseHeadKeepsInv(Now(), l);
        HeadFacts(Now(), l);
        ReleasedIsCleared(Now(), l);
        HeadIsNotBehind(Now(), l);
        var q := Entries(l);
        ghost var after := ReleaseHead(Now(), l);
        var d := q[0];
        if records[d].kind != DeadBinderAndClear && records[d].kind != ClearNotification {
          assert false;  // "unexpected work type"
        }
        lists := lists[l := q[1..]];
        records := records - {d};
        freed := freed + {d};
        assert Now() == after;
      }
    }

    /** One turn of the loop below; the BUG_ON on the record is proved in `Visit`. */
    method Tell(r: nat, left: set<nat>)
      requires Inv(Now()) && CanVisit(Now(), r) && left == nodes[refs[r].node].left - {r}
      modifies this`nodes, this`records, this`lists
      ensures Inv(Now()) && Now() == Visit(old(Now()), r)
      ensures nodes == old(nodes)[refs[r].node := Dying(left)]
    {
      hide Inv, Visit;
      VisitKeepsInv(Now(), r);
      VisitParts(Now(), r);
      ghost var after := Visit(Now(), r);
      nodes := nodes[refs[r].node := Dying(left)];
      if refs[r].death.Some? {
        var d := refs[r].death.value;
        var x := records[d];
        var todo := ProcTodo(x.proc);
        lists := lists[todo := Entries(todo) + [d]];
        records := records[d := x.(kind := DeadBinder, place := Some(todo))];
      }
      assert Now() == after;
    }

    /** The loop of `binder_node_release` over the refs of a dying node. */
    method NodeRelease(n: nat)
      requires Inv(Now()) && n in nodes && nodes[n].Alive?
      modifies this`nodes, this`records, this`lists
      ensures Inv(Now()) && n in nodes && nodes[n].Dead? && refs == old(refs)
      ensures forall r :: r in refs && refs[r].node == n && refs[r].death.Some? ==>
                refs[r].death.value in told || refs[r].death.value in Entries(ProcTodo(refs[r].proc))
    {
      hide Inv, Visit;
      NodeDiesKeepsInv(Now(), n);
      var left := set r | r in refs && refs[r].node == n;
      nodes := nodes[n := Dying(left)];
      while left != {}
        invariant Inv(Now()) && n in nodes && nodes[n] == Dying(left) && refs == old(refs)
        invariant forall r :: r in left ==> r in refs && refs[r].node == n
        decreases |left|
      {
        SomeElement(left);
        var r :| r in left;
        Tell(r, left - {r});
        left := left - {r};
      }
      NodeDeadKeepsInv(Now(), n);
      nodes := nodes[n := Dead];
      forall r | r in refs && refs[r].node == n && refs[r].death.Some?
        ensures refs[r].death.value in told || refs[r].death.value in Entries(ProcTodo(refs[r].proc))
      {
        DeadIsAnnounced(Now(), r);
      }
    }
  }

  lemma SomeElement(s: set<nat>)
    requires s != {}
    ensures exists x :: x in s
  {
  }

  lemma OnListAreRecords(s: State, l: ListId)
    requires Inv(s)
    ensures forall d :: d in ListOf(s, l) ==> d in s.records && d !in s.freed
  {
    forall d | d in ListOf(s, l)
      ensures d in s.records && d !in s.freed
    {
      OnListIsRecord(s, l, d);
      assert RecordOk(s, d);
    }
  }

  /** No record is on a list twice. */
  lemma HeadIsNotBehind(s: State, l: ListId)
    requires Inv(s) && ListOf(s, l) != []
    ensures ListOf(s, l)[0] !in ListOf(s, l)[1..]
  {
    assert l in s.lists && NoDup(s.lists[l]);
  }

  lemma ReleasedIsCleared(s: State, l: ListId)
    requires Inv(s) && CanRelease(s, l)
    ensures var d := ListOf(s, l)[0];
            && d in s.records && s.records[d].kind in {DeadBinderAndClear, ClearNotification} && s.records[d].owner.None?
            && s.records[d].place == Some(l) && l in s.lists
            && ReleaseHead(s, l) == s.(records := s.records - {d}, lists := s.lists[l := s.lists[l][1..]], freed := s.freed + {d})
  {
    HeadFacts(s, l);
  }

  lemma VisitParts(s: State, r: nat)
    requires Inv(s) && CanVisit(s, r)
    ensures var n := s.refs[r].node; var left := s.nodes[n].left - {r};
            match s.refs[r].death
            case None => Visit(s, r) == s.(nodes := s.nodes[n := Dying(left)])
            case Some(d) =>
              && d in s.records
              && var x := s.records[d];
                Visit(s, r) == s.(nodes := s.nodes[n := Dying(left)],
                                  records := s.records[d := x.(kind := DeadBinder, place := Some(ProcTodo(x.proc)))],
                                  lists := s.lists[ProcTodo(x.proc) := ListOf(s, ProcTodo(x.proc)) + [d]])
  {
    if s.refs[r].death.Some? {
      assert RecordOk(s, s.refs[r].death.value);
    }
  }

  lemma DeadIsAnnounced(s: State, r: nat)
    requires Inv(s) && r in s.refs && s.refs[r].death.Some? && s.refs[r].node in s.nodes && s.nodes[s.refs[r].node].Dead?
    ensures s.refs[r].death.value in s.told || s.refs[r].death.value in ListOf(s, ProcTodo(s.refs[r].proc))
  {
    assert RecordOk(s, s.refs[r].death.value);
  }
}
