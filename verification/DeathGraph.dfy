/** Death notifications: the record a process leaves with its ref, and the work lists it
    travels through. */
module DeathGraph {
  import opened Common

  /** A work list, as far as it holds death records. */
  datatype ListId = ThreadTodo(thread: nat) | ProcTodo(proc: nat) | Delivered(proc: nat)

  /** `work.type` of a record. */
  datatype Kind = Unset | DeadBinder | DeadBinderAndClear | ClearNotification

  /** `struct binder_ref_death`; place is None when its list entry is empty.  `owner` and
      `proc` are specification only. */
  datatype Record = Record(cookie: nat, kind: Kind, place: Option<ListId>, owner: Option<nat>, proc: nat)

  datatype Ref = Ref(proc: nat, node: nat, death: Option<nat>)

  /** A node dies under its lock, ref after ref; `left` are those not visited yet. */
  datatype NodeState = Alive | Dying(left: set<nat>) | Dead

  /** `told` and `freed` are history: the records a BR_DEAD_BINDER was sent for, and those
      that were freed. */
  datatype State = State(
    nodes: map<nat, NodeState>,
    refs: map<nat, Ref>,
    threads: map<nat, nat>,
    records: map<nat, Record>,
    lists: map<ListId, seq<nat>>,
    nextId: nat,
    told: set<nat>,
    freed: set<nat>)

  function ListOf(s: State, l: ListId): seq<nat> {
    if l in s.lists then s.lists[l] else []
  }

  /** The node of a ref has not announced its death to the ref yet. */
  predicate Unannounced(s: State, r: nat) {
    r in s.refs && s.refs[r].node in s.nodes &&
    match s.nodes[s.refs[r].node]
    case Alive => true
    case Dying(left) => r in left
    case Dead => false
  }

  /** Where a record is and what it says, while its ref owns it and afterwards. */
  ghost predicate RecordOk(s: State, d: nat)
    requires d in s.records
  {
    var x := s.records[d];
    && d < s.nextId && d !in s.freed
    && (x.place.Some? ==> d in ListOf(s, x.place.value))
    && (x.place.Some? ==> match x.place.value
          case ThreadTodo(t) => t in s.threads && s.threads[t] == x.proc
          case ProcTodo(p) => p == x.proc
          case Delivered(p) => p == x.proc)
    && match x.owner
      case Some(r) =>
        && r in s.refs && s.refs[r].death == Some(d) && s.refs[r].proc == x.proc
        && (if Unannounced(s, r) then x.kind == Unset && x.place == None && d !in s.told
            else x.kind == DeadBinder && !(x.place.Some? && x.place.value.ThreadTodo?)
                 && (d in s.told <==> x.place != Some(ProcTodo(x.proc))))
      case None =>
        && x.place.Some?
        && match x.kind
          case DeadBinderAndClear => !x.place.value.ThreadTodo? && (d in s.told <==> x.place.value.Delivered?)
          case ClearNotification => !x.place.value.Delivered?
          case _ => false
  }

  ghost predicate ListsOk(s: State) {
    && (forall l :: l in s.lists ==> NoDup(s.lists[l]))
    && (forall l, d :: l in s.lists && d in s.lists[l] ==> d in s.records && s.records[d].place == Some(l))
  }

  ghost predicate RefsOk(s: State) {
    && (forall r :: r in s.refs ==> s.refs[r].node in s.nodes)
    && (forall r :: r in s.refs && s.refs[r].death.Some? ==>
          s.refs[r].death.value in s.records && s.records[s.refs[r].death.value].owner == Some(r))
  }

  ghost predicate HistoryOk(s: State) {
    (forall d :: d in s.told || d in s.freed ==> d < s.nextId)
  }

  ghost predicate RecordsOk(s: State) {
    forall d :: d in s.records ==> RecordOk(s, d)
  }

  ghost predicate Inv(s: State) {
    RecordsOk(s) && ListsOk(s) && RefsOk(s) && HistoryOk(s)
  }

  // ---------- lists ----------

  function Push(s: State, l: ListId, d: nat): map<ListId, seq<nat>> {
    s.lists[l := ListOf(s, l) + [d]]
  }

  function Pull(s: State, d: nat): map<ListId, seq<nat>>
    requires d in s.records
  {
    match s.records[d].place
    case None => s.lists
    case Some(l) => s.lists[l := Remove(ListOf(s, l), d)]
  }

  // ---------- one record changes ----------

  /** Only record d, the list it was on, the list it is on now, its owner and the history
      change. */
  ghost predicate OneRecord(s: State, s': State, d: nat) {
    && d in s.records && d in s'.records && s'.records == s.records[d := s'.records[d]]
    && s'.nodes == s.nodes && s'.threads == s.threads && s'.nextId == s.nextId && s'.freed == s.freed
    && s'.refs.Keys == s.refs.Keys
    && (forall r :: r in s.refs && s.records[d].owner != Some(r) ==> s'.refs[r] == s.refs[r])
    && (forall r :: r in s.refs ==> s'.refs[r].proc == s.refs[r].proc && s'.refs[r].node == s.refs[r].node)
    && (forall x :: x != d ==> (x in s'.told <==> x in s.told))
    && s'.records[d].proc == s.records[d].proc && s'.records[d].cookie == s.records[d].cookie
    && (forall l, x :: x != d ==> (x in ListOf(s', l) <==> x in ListOf(s, l)))
    && (forall l :: d in ListOf(s', l) <==> s'.records[d].place == Some(l))
    && (forall l :: l in s'.lists ==> NoDup(s'.lists[l]))
  }

  lemma OthersOk(s: State, s': State, d: nat, x: nat)
    requires OneRecord(s, s', d) && RefsOk(s) && x in s.records && x != d && RecordOk(s, x) && (s.records[d].owner.Some? ==> s.records[x].owner != s.records[d].owner)
    ensures RecordOk(s', x)
  {
  }

  /** Two records never have the same owner. */
  lemma OwnersDiffer(s: State, d: nat, x: nat)
    requires Inv(s) && d in s.records && x in s.records && d != x && s.records[d].owner.Some?
    ensures s.records[x].owner != s.records[d].owner
  {
    assert RecordOk(s, d) && RecordOk(s, x);
  }

  lemma OneRecordKeepsInv(s: State, s': State, d: nat)
    requires Inv(s) && OneRecord(s, s', d) && RecordOk(s', d)
    requires forall r :: r in s.refs && s.records[d].owner == Some(r) ==>
               s'.refs[r].death == if s'.records[d].owner == Some(r) then Some(d) else None
    requires s'.records[d].owner == s.records[d].owner || s'.records[d].owner == None
    requires d in s'.told ==> d < s.nextId
    ensures Inv(s')
  {
    hide RecordOk;
    forall x | x in s'.records
      ensures RecordOk(s', x)
    {
      if x != d {
        if s.records[d].owner.Some? {
          OwnersDiffer(s, d, x);
        }
        OthersOk(s, s', d, x);
      }
    }
    assert ListsOk(s') by {
      forall l, x | l in s'.lists && x in s'.lists[l]
        ensures x in s'.records && s'.records[x].place == Some(l)
      {
        if x != d {
          assert x in ListOf(s, l);
        } else {
          assert d in ListOf(s', l);
        }
      }
    }
    assert RefsOk(s') by {
      forall r | r in s'.refs && s'.refs[r].death.Some?
        ensures s'.refs[r].death.value in s'.records && s'.records[s'.refs[r].death.value].owner == Some(r)
      {
        if s.records[d].owner != Some(r) {
          assert s'.refs[r] == s.refs[r];
          assert s.refs[r].death.value != d;
        }
      }
    }
  }

  /** Taking a record off its list and putting it on another (or none). */
  function MovedLists(s: State, d: nat, to: Option<ListId>): map<ListId, seq<nat>>
    requires d in s.records
  {
    var s1 := s.(lists := Pull(s, d));
    match to
    case None => s1.lists
    case Some(l) => Push(s1, l, d)
  }

  /** d is on exactly the list `to`, every other record where it was. */
  ghost predicate ListsMove(s: State, lists: map<ListId, seq<nat>>, d: nat, to: Option<ListId>) {
    && (forall l, x :: x != d ==> (x in ListOf(s.(lists := lists), l) <==> x in ListOf(s, l)))
    && (forall l :: d in ListOf(s.(lists := lists), l) <==> to == Some(l))
    && (forall l :: l in lists ==> NoDup(lists[l]))
  }

  lemma PullMoves(s: State, d: nat)
    requires ListsOk(s) && d in s.records
    ensures ListsMove(s, Pull(s, d), d, None)
  {
    if s.records[d].place.Some? {
      RemoveFacts(ListOf(s, s.records[d].place.value), d);
    }
  }

  lemma PushMoves(s: State, lists: map<ListId, seq<nat>>, d: nat, l: ListId)
    requires ListsMove(s, lists, d, None)
    ensures ListsMove(s, Push(s.(lists := lists), l, d), d, Some(l))
  {
  }

  lemma MovedListsFacts(s: State, d: nat, to: Option<ListId>)
    requires ListsOk(s) && d in s.records
    ensures ListsMove(s, MovedLists(s, d, to), d, to)
  {
    hide ListsMove;
    PullMoves(s, d);
    if to.Some? {
      PushMoves(s, Pull(s, d), d, to.value);
    }
  }

  // ---------- a record goes ----------

  /** Record d is freed, together with the ref that owned it if there was one. */
  function FreeRecord(s: State, d: nat): State
    requires d in s.records
  {
    s.(records := s.records - {d}, lists := Pull(s, d), freed := s.freed + {d},
       refs := match s.records[d].owner case None => s.refs case Some(r) => s.refs - {r})
  }

  lemma FreedOthers(s: State, d: nat, x: nat)
    requires d in s.records && x in s.records && x != d && RecordOk(s, x) && ListsMove(s, Pull(s, d), d, None)
    requires s.records[d].owner.Some? ==> s.records[d].owner != s.records[x].owner
    ensures RecordOk(FreeRecord(s, d), x)
  {
    hide Pull;
    var s' := FreeRecord(s, d);
    assert forall l :: x in ListOf(s', l) <==> x in ListOf(s.(lists := Pull(s, d)), l);
  }

  lemma FreedLists(s: State, d: nat)
    requires ListsOk(s) && d in s.records && ListsMove(s, Pull(s, d), d, None)
    ensures ListsOk(FreeRecord(s, d))
  {
    hide Pull;
    var s' := FreeRecord(s, d);
    forall l, x | l in s'.lists && x in s'.lists[l]
      ensures x in s'.records && s'.records[x].place == Some(l)
    {
      assert x in ListOf(s.(lists := Pull(s, d)), l);
      assert x != d;
      assert x in ListOf(s, l);
    }
  }

  lemma FreeKeepsInv(s: State, d: nat)
    requires Inv(s) && d in s.records
    ensures Inv(FreeRecord(s, d))
  {
    hide RecordOk, Pull;
    PullMoves(s, d);
    FreedLists(s, d);
    var s' := FreeRecord(s, d);
    forall x | x in s'.records
      ensures RecordOk(s', x)
    {
      if s.records[d].owner.Some? {
        OwnersDiffer(s, d, x);
      }
      FreedOthers(s, d, x);
    }
    FreedRest(s, d);
  }

  lemma FreedRest(s: State, d: nat)
    requires Inv(s) && d in s.records
    ensures RefsOk(FreeRecord(s, d)) && HistoryOk(FreeRecord(s, d))
  {
    assert RecordOk(s, d);
  }

  lemma InvParts(s: State, d: nat)
    requires Inv(s) && d in s.records
    ensures RecordOk(s, d) && ListsOk(s) && RefsOk(s) && HistoryOk(s)
    ensures forall l :: d in ListOf(s, l) <==> s.records[d].place == Some(l)
  {
    hide HistoryOk, RefsOk;
    assert RecordOk(s, d);
  }

  /** Moving a record and changing what it says, its ref and the history as required. */
  lemma MovedKeepsInv(s: State, s': State, d: nat, x: Record, to: Option<ListId>)
    requires Inv(s) && d in s.records && ListsMove(s, s'.lists, d, to) && x.place == to
    requires x.proc == s.records[d].proc && x.cookie == s.records[d].cookie && (x.owner == s.records[d].owner || x.owner == None)
    requires s' == s.(records := s.records[d := x], refs := s'.refs, lists := s'.lists, told := s'.told)
    requires s'.told == s.told || s'.told == s.told + {d}
    requires match s.records[d].owner
             case None => s'.refs == s.refs
             case Some(r) =>
               r in s.refs && s'.refs == if x.owner == None then s.refs[r := s.refs[r].(death := None)] else s.refs
    requires RecordOk(s', d)
    ensures Inv(s')
  {
    InvParts(s, d);
    hide Inv, RecordOk, ListsOk, RefsOk, HistoryOk;
    assert forall l, y :: y in ListOf(s', l) <==> y in ListOf(s.(lists := s'.lists), l);
    assert OneRecord(s, s', d) by {
      hide ListOf;
    }
    IdBounded(s, d);
    OwnerHolds(s, d);
    hide OneRecord;
    OneRecordKeepsInv(s, s', d);
  }

  lemma IdBounded(s: State, d: nat)
    requires d in s.records && RecordOk(s, d)
    ensures d < s.nextId
  {
  }

  lemma OwnerHolds(s: State, d: nat)
    requires d in s.records && RecordOk(s, d)
    ensures forall r :: s.records[d].owner == Some(r) ==> r in s.refs && s.refs[r].death == Some(d)
  {
  }

  /** A record that stays on its list. */
  lemma StaysMoves(s: State, d: nat)
    requires Inv(s) && d in s.records
    ensures ListsMove(s, s.lists, d, s.records[d].place)
  {
    InvParts(s, d);
    hide Inv, RecordOk;
  }
}
