/** The sections that handle death notifications.  A BUG_ON of the code is an `assert` here. */
module Death {
  import opened Common
  import opened DeathGraph

  /** Where a cleared notification is reported: to the thread itself if it is a looper, else to
      its process. */
  predicate IsReportList(s: State, p: nat, to: ListId) {
    match to
    case ThreadTodo(t) => t in s.threads && s.threads[t] == p
    case ProcTodo(q) => q == p
    case Delivered(_) => false
  }

  predicate Settled(s: State, n: nat) {
    n in s.nodes && !s.nodes[n].Dying?
  }

  // ---------- BC_REQUEST_DEATH_NOTIFICATION ----------

  predicate CanRequest(s: State, r: nat) {
    r in s.refs && Settled(s, s.refs[r].node) && s.refs[r].death.None?
  }

  function Request(s: State, r: nat, cookie: nat): State
    requires CanRequest(s, r)
  {
    var d := s.nextId;
    var ref := s.refs[r];
    var dead := s.nodes[ref.node].Dead?;
    var x := Record(cookie, if dead then DeadBinder else Unset, if dead then Some(ProcTodo(ref.proc)) else None, Some(r), ref.proc);
    s.(records := s.records[d := x], refs := s.refs[r := ref.(death := Some(d))], nextId := d + 1,
       lists := if dead then Push(s, ProcTodo(ref.proc), d) else s.lists)
  }

  lemma NewIdUnused(s: State)
    requires Inv(s)
    ensures s.nextId !in s.records && s.nextId !in s.told && s.nextId !in s.freed && forall l :: s.nextId !in ListOf(s, l)
  {
    forall d | d in s.records
      ensures d < s.nextId
    {
      IdBounded(s, d);
    }
  }

  lemma RequestedRecord(s: State, r: nat, cookie: nat, x: nat)
    requires Inv(s) && CanRequest(s, r) && x in Request(s, r, cookie).records && s.nextId !in s.records && s.nextId !in s.told && s.nextId !in s.freed
    ensures RecordOk(Request(s, r, cookie), x)
  {
    if x in s.records {
      assert RecordOk(s, x);
    }
  }

  lemma RequestedLists(s: State, r: nat, cookie: nat)
    requires ListsOk(s) && CanRequest(s, r) && s.nextId !in s.records && forall l :: s.nextId !in ListOf(s, l)
    ensures ListsOk(Request(s, r, cookie))
  {
    var s' := Request(s, r, cookie);
    var p := ProcTodo(s.refs[r].proc);
    assert forall l :: l in s'.lists ==> s'.lists[l] == ListOf(s, l) || (l == p && s'.lists[l] == ListOf(s, l) + [s.nextId]);
  }

  lemma RequestKeepsInv(s: State, r: nat, cookie: nat)
    requires Inv(s) && CanRequest(s, r)
    ensures Inv(Request(s, r, cookie))
  {
    NewIdUnused(s);
    RequestedLists(s, r, cookie);
    forall x | x in Request(s, r, cookie).records
      ensures RecordOk(Request(s, r, cookie), x)
    {
      RequestedRecord(s, r, cookie, x);
    }
  }

  // ---------- BC_CLEAR_DEATH_NOTIFICATION ----------

  predicate CanClear(s: State, r: nat, cookie: nat, to: ListId) {
    && r in s.refs && Settled(s, s.refs[r].node) && s.refs[r].death.Some?
    && s.refs[r].death.value in s.records && s.records[s.refs[r].death.value].cookie == cookie
    && IsReportList(s, s.refs[r].proc, to)
  }

  function Clear(s: State, r: nat, cookie: nat, to: ListId): State
    requires Inv(s) && CanClear(s, r, cookie, to)
  {
    var d := s.refs[r].death.value;
    var x := s.records[d];
    var s1 := s.(refs := s.refs[r := s.refs[r].(death := None)]);
    if x.place.None? then
      s1.(records := s.records[d := x.(owner := None, kind := ClearNotification, place := Some(to))], lists := MovedLists(s, d, Some(to)))
    else
      assert RecordOk(s, d);
      assert x.kind == DeadBinder;  // BUG_ON(death->work.type != BINDER_WORK_DEAD_BINDER)
      s1.(records := s.records[d := x.(owner := None, kind := DeadBinderAndClear)])
  }

  lemma ClearKeepsInv(s: State, r: nat, cookie: nat, to: ListId)
    requires Inv(s) && CanClear(s, r, cookie, to)
    ensures Inv(Clear(s, r, cookie, to))
  {
    hide Inv, MovedLists, ListsOk;
    var d := s.refs[r].death.value;
    var s' := Clear(s, r, cookie, to);
    InvParts(s, d);
    MovedListsFacts(s, d, Some(to));
    StaysMoves(s, d);
    MovedKeepsInv(s, s', d, s'.records[d], s'.records[d].place);
  }

  lemma SameLists(s: State, d: nat)
    requires ListsOk(s) && RecordsOk(s) && d in s.records
    ensures forall l :: d in ListOf(s, l) <==> s.records[d].place == Some(l)
  {
    assert RecordOk(s, d);
  }

  // ---------- a node dies ----------

  function NodeDies(s: State, n: nat): State
    requires n in s.nodes && s.nodes[n].Alive?
  {
    s.(nodes := s.nodes[n := Dying(set r | r in s.refs && s.refs[r].node == n)])
  }

  lemma NodesChanged(s: State, s': State)
    requires Inv(s) && s' == s.(nodes := s'.nodes) && s.nodes.Keys <= s'.nodes.Keys
    requires forall r :: r in s.refs ==> Unannounced(s', r) == Unannounced(s, r)
    ensures Inv(s')
  {
    forall x | x in s'.records
      ensures RecordOk(s', x)
    {
      assert RecordOk(s, x);
    }
  }

  lemma NodeDiesKeepsInv(s: State, n: nat)
    requires Inv(s) && n in s.nodes && s.nodes[n].Alive?
    ensures Inv(NodeDies(s, n))
  {
    NodesChanged(s, NodeDies(s, n));
  }

  predicate CanVisit(s: State, r: nat) {
    r in s.refs && s.refs[r].node in s.nodes && s.nodes[s.refs[r].node].Dying? && r in s.nodes[s.refs[r].node].left
  }

  /** One iteration of the loop in `binder_node_release`. */
  function Visit(s: State, r: nat): State
    requires Inv(s) && CanVisit(s, r)
  {
    var n := s.refs[r].node;
    var s1 := s.(nodes := s.nodes[n := Dying(s.nodes[n].left - {r})]);
    match s.refs[r].death
    case None => s1
    case Some(d) =>
      assert RecordOk(s, d);
      var x := s.records[d];
      assert x.place.None?;  // BUG_ON(!list_empty(&ref->death->work.entry))
      s1.(records := s.records[d := x.(kind := DeadBinder, place := Some(ProcTodo(x.proc)))],
          lists := Push(s, ProcTodo(x.proc), d))
  }

  lemma VisitedOther(s: State, r: nat, x: nat)
    requires Inv(s) && CanVisit(s, r) && x in s.records && s.refs[r].death != Some(x)
    ensures RecordOk(Visit(s, r), x)
  {
    assert RecordOk(s, x);
    if s.refs[r].death.Some? {
      assert RecordOk(s, s.refs[r].death.value);
    }
  }

  lemma VisitedOne(s: State, r: nat)
    requires Inv(s) && CanVisit(s, r) && s.refs[r].death.Some?
    ensures s.refs[r].death.value in s.records && RecordOk(Visit(s, r), s.refs[r].death.value)
  {
    assert RecordOk(s, s.refs[r].death.value);
  }

  lemma VisitedRest(s: State, r: nat)
    requires Inv(s) && CanVisit(s, r)
    ensures ListsOk(Visit(s, r)) && RefsOk(Visit(s, r)) && HistoryOk(Visit(s, r))
  {
    if s.refs[r].death.Some? {
      var d := s.refs[r].death.value;
      assert RecordOk(s, d);
      SameLists(s, d);
      var s' := Visit(s, r);
      var p := ProcTodo(s.records[d].proc);
      assert forall l :: l in s'.lists ==> s'.lists[l] == ListOf(s, l) || (l == p && s'.lists[l] == ListOf(s, l) + [d]);
    }
  }

  lemma VisitKeepsInv(s: State, r: nat)
    requires Inv(s) && CanVisit(s, r)
    ensures Inv(Visit(s, r))
  {
    hide RecordOk;
    VisitedRest(s, r);
    forall x | x in Visit(s, r).records
      ensures RecordOk(Visit(s, r), x)
    {
      if s.refs[r].death == Some(x) {
        VisitedOne(s, r);
      } else {
        VisitedOther(s, r, x);
      }
    }
  }

  function NodeDead(s: State, n: nat): State
    requires n in s.nodes && s.nodes[n] == Dying({})
  {
    s.(nodes := s.nodes[n := Dead])
  }

  lemma NodeDeadKeepsInv(s: State, n: nat)
    requires Inv(s) && n in s.nodes && s.nodes[n] == Dying({})
    ensures Inv(NodeDead(s, n))
  {
    NodesChanged(s, NodeDead(s, n));
  }

  // ---------- the reader ----------

  predicate CanRead(s: State, l: ListId) {
    !l.Delivered? && ListOf(s, l) != []
  }

  /** `binder_thread_read`: a death is announced once, a cleared notification is the end. */
  function Read(s: State, l: ListId): State
    requires Inv(s) && CanRead(s, l)
  {
    var d := ListOf(s, l)[0];
    assert d in ListOf(s, l);
    var x := s.records[d];
    assert RecordOk(s, d);
    if x.kind.ClearNotification? then FreeRecord(s, d)
    else
      assert d !in s.told;
      s.(records := s.records[d := x.(place := Some(Delivered(x.proc)))], lists := MovedLists(s, d, Some(Delivered(x.proc))), told := s.told + {d})
  }

  lemma HeadFacts(s: State, l: ListId)
    requires Inv(s) && ListOf(s, l) != []
    ensures var d := ListOf(s, l)[0]; d in s.records && RecordOk(s, d) && s.records[d].place == Some(l)
  {
    assert ListOf(s, l)[0] in ListOf(s, l);
  }

  lemma ReadKeepsInv(s: State, l: ListId)
    requires Inv(s) && CanRead(s, l)
    ensures Inv(Read(s, l))
  {
    hide Inv, MovedLists, ListsOk;
    HeadFacts(s, l);
    var d := ListOf(s, l)[0];
    var x := s.records[d];
    if x.kind.ClearNotification? {
      FreeKeepsInv(s, d);
    } else {
      InvParts(s, d);
      MovedListsFacts(s, d, Some(Delivered(x.proc)));
      var s' := Read(s, l);
      MovedKeepsInv(s, s', d, s'.records[d], s'.records[d].place);
    }
  }

  // ---------- BC_DEAD_BINDER_DONE ----------

  predicate CanFinish(s: State, p: nat, d: nat, to: ListId) {
    d in ListOf(s, Delivered(p)) && IsReportList(s, p, to)
  }

  function Finish(s: State, p: nat, d: nat, to: ListId): State
    requires Inv(s) && CanFinish(s, p, d, to)
  {
    var x := s.records[d];
    if x.kind.DeadBinderAndClear? then
      s.(records := s.records[d := x.(kind := ClearNotification, place := Some(to))], lists := MovedLists(s, d, Some(to)))
    else s.(records := s.records[d := x.(place := None)], lists := MovedLists(s, d, None))
  }

  lemma FinishKeepsInv(s: State, p: nat, d: nat, to: ListId)
    requires Inv(s) && CanFinish(s, p, d, to)
    ensures Inv(Finish(s, p, d, to))
  {
    hide Inv, MovedLists, ListsOk;
    OnListIsRecord(s, Delivered(p), d);
    InvParts(s, d);
    var x := s.records[d];
    MovedListsFacts(s, d, if x.kind.DeadBinderAndClear? then Some(to) else None);
    var s' := Finish(s, p, d, to);
    MovedKeepsInv(s, s', d, s'.records[d], s'.records[d].place);
  }

  lemma OnListIsRecord(s: State, l: ListId, d: nat)
    requires Inv(s) && d in ListOf(s, l)
    ensures d in s.records && s.records[d].place == Some(l)
  {
  }

  // ---------- refs, threads and processes go ----------

  predicate CanDrop(s: State, r: nat) {
    r in s.refs && Settled(s, s.refs[r].node)
  }

  /** `binder_cleanup_ref_olocked` and `binder_free_ref`: the record goes with its ref, from
      whatever list it is on. */
  function DropRef(s: State, r: nat): State
    requires Inv(s) && CanDrop(s, r)
  {
    match s.refs[r].death
    case None => s.(refs := s.refs - {r})
    case Some(d) => FreeRecord(s, d)
  }

  lemma DropRefKeepsInv(s: State, r: nat)
    requires Inv(s) && CanDrop(s, r)
    ensures Inv(DropRef(s, r)) && r !in DropRef(s, r).refs
  {
    match s.refs[r].death
    case None =>
      forall x | x in s.records
        ensures RecordOk(DropRef(s, r), x)
      {
        assert RecordOk(s, x);
      }
    case Some(d) => FreeKeepsInv(s, d);
  }

  /** A list is emptied because its thread exits, or its process without any ref left. */
  predicate CanRelease(s: State, l: ListId) {
    && ListOf(s, l) != []
    && match l
      case ThreadTodo(_) => true
      case ProcTodo(p) => forall r :: r in s.refs ==> s.refs[r].proc != p
      case Delivered(p) => forall r :: r in s.refs ==> s.refs[r].proc != p
  }

  /** One iteration of `binder_release_work`: the branch "unexpected work type" is never
      taken for a death record. */
  function ReleaseHead(s: State, l: ListId): State
    requires Inv(s) && CanRelease(s, l)
  {
    var d := ListOf(s, l)[0];
    HeadFacts(s, l);
    assert s.records[d].kind in {DeadBinderAndClear, ClearNotification};  // else not freed
    FreeRecord(s, d)
  }

  lemma ReleaseHeadKeepsInv(s: State, l: ListId)
    requires Inv(s) && CanRelease(s, l)
    ensures Inv(ReleaseHead(s, l))
  {
    HeadFacts(s, l);
    FreeKeepsInv(s, ListOf(s, l)[0]);
  }

  // ---------- any interleaving ----------

  datatype Step =
    | NewNode(node: nat)
    | NewRef(ref: nat, proc: nat, node: nat)
    | NewThread(thread: nat, proc: nat)
    | Requests(ref: nat, cookie: nat)
    | Clears(ref: nat, cookie: nat, report: ListId)
    | StartsDying(node: nat)
    | Visits(ref: nat)
    | IsDead(node: nat)
    | Reads(list: ListId)
    | Finishes(proc: nat, record: nat, report: ListId)
    | Drops(ref: nat)
    | Releases(list: ListId)

  predicate Enabled(s: State, step: Step) {
    match step
    case NewNode(n) => n !in s.nodes
    case NewRef(r, _, n) => r !in s.refs && Settled(s, n)
    case NewThread(t, _) => t !in s.threads
    case Requests(r, _) => CanRequest(s, r)
    case Clears(r, cookie, to) => CanClear(s, r, cookie, to)
    case StartsDying(n) => n in s.nodes && s.nodes[n].Alive?
    case Visits(r) => CanVisit(s, r)
    case IsDead(n) => n in s.nodes && s.nodes[n] == Dying({})
    case Reads(l) => CanRead(s, l)
    case Finishes(p, d, to) => CanFinish(s, p, d, to)
    case Drops(r) => CanDrop(s, r)
    case Releases(l) => CanRelease(s, l)
  }

  function Next(s: State, step: Step): State
    requires Inv(s) && Enabled(s, step)
  {
    match step
    case NewNode(n) => s.(nodes := s.nodes[n := Alive])
    case NewRef(r, p, n) => s.(refs := s.refs[r := Ref(p, n, None)])
    case NewThread(t, p) => s.(threads := s.threads[t := p])
    case Requests(r, cookie) => Request(s, r, cookie)
    case Clears(r, cookie, to) => Clear(s, r, cookie, to)
    case StartsDying(n) => NodeDies(s, n)
    case Visits(r) => Visit(s, r)
    case IsDead(n) => NodeDead(s, n)
    case Reads(l) => Read(s, l)
    case Finishes(p, d, to) => Finish(s, p, d, to)
    case Drops(r) => DropRef(s, r)
    case Releases(l) => ReleaseHead(s, l)
  }

  lemma NewThingsKeepInv(s: State, step: Step)
    requires Inv(s) && Enabled(s, step) && (step.NewNode? || step.NewRef? || step.NewThread?)
    ensures Inv(Next(s, step))
  {
    var s' := Next(s, step);
    forall x | x in s'.records
      ensures RecordOk(s', x)
    {
      assert RecordOk(s, x);
    }
  }

  lemma StepKeepsInv(s: State, step: Step)
    requires Inv(s) && Enabled(s, step)
    ensures Inv(Next(s, step))
  {
    hide Inv;
    match step
    case NewNode(_) => NewThingsKeepInv(s, step);
    case NewRef(_, _, _) => NewThingsKeepInv(s, step);
    case NewThread(_, _) => NewThingsKeepInv(s, step);
    case Requests(r, cookie) => RequestKeepsInv(s, r, cookie);
    case Clears(r, cookie, to) => ClearKeepsInv(s, r, cookie, to);
    case StartsDying(n) => NodeDiesKeepsInv(s, n);
    case Visits(r) => VisitKeepsInv(s, r);
    case IsDead(n) => NodeDeadKeepsInv(s, n);
    case Reads(l) => ReadKeepsInv(s, l);
    case Finishes(p, d, to) => FinishKeepsInv(s, p, d, to);
    case Drops(r) => DropRefKeepsInv(s, r);
    case Releases(l) => ReleaseHeadKeepsInv(s, l);
  }

  const INITIAL: State := State(map[], map[], map[], map[], map[], 0, {}, {})

  ghost predicate IsRun(s: State, steps: seq<Step>)
    requires Inv(s)
    decreases |steps|
  {
    hide Inv, Enabled, Next;
    steps == [] || (Enabled(s, steps[0]) && (StepKeepsInv(s, steps[0]); IsRun(Next(s, steps[0]), steps[1..])))
  }

  ghost function End(s: State, steps: seq<Step>): (s': State)
    requires Inv(s) && IsRun(s, steps)
    ensures Inv(s')
    decreases |steps|
  {
    hide Inv, Enabled, Next;
    if steps == [] then s
    else
      StepKeepsInv(s, steps[0]);
      End(Next(s, steps[0]), steps[1..])
  }

  lemma InitialInv()
    ensures Inv(INITIAL)
  {
  }

  ghost predicate Reachable(s: State) {
    InitialInv();
    exists steps :: IsRun(INITIAL, steps) && s == End(INITIAL, steps)
  }

  lemma ReachableInv(s: State)
    requires Reachable(s)
    ensures Inv(s)
  {
    hide Inv;
    InitialInv();
    var steps :| IsRun(INITIAL, steps) && s == End(INITIAL, steps);
  }

  /** A record has exactly one owner: its ref, and no other ref, while it has not been cleared;
      afterwards the one list it is on. */
  lemma OneOwner(s: State, d: nat)
    requires Reachable(s) && d in s.records
    ensures match s.records[d].owner
            case Some(r) => r in s.refs && s.refs[r].death == Some(d) && forall q :: q in s.refs && s.refs[q].death == Some(d) ==> q == r
            case None =>
              && (forall q :: q in s.refs ==> s.refs[q].death != Some(d))
              && s.records[d].place.Some? && d in ListOf(s, s.records[d].place.value)
    ensures forall l :: d in ListOf(s, l) ==> s.records[d].place == Some(l)
    ensures d !in s.freed
  {
    hide Reachable;
    ReachableInv(s);
    assert RecordOk(s, d);
  }

  /** A death that the record's node has announced is never lost: it is on its way to the
      process, or the process has been told. */
  lemma DeathsArrive(s: State, r: nat)
    requires Reachable(s) && r in s.refs && s.refs[r].death.Some? && s.nodes[s.refs[r].node].Dead?
    requires s.refs[r].node in s.nodes
    ensures s.refs[r].death.value in s.told || s.refs[r].death.value in ListOf(s, ProcTodo(s.refs[r].proc))
  {
    hide Reachable;
    ReachableInv(s);
    assert RecordOk(s, s.refs[r].death.value);
  }

  /** A BR_DEAD_BINDER goes out: the record it is for. */
  function Tells(s: State, step: Step): Option<nat>
    requires Inv(s) && Enabled(s, step)
  {
    if !step.Reads? then None
    else
      var d := ListOf(s, step.list)[0];
      HeadFacts(s, step.list);
      if s.records[d].kind.ClearNotification? then None else Some(d)
  }

  /** The records for which a BR_DEAD_BINDER goes out along a run, in order. */
  function Announcements(s: State, steps: seq<Step>): seq<nat>
    requires Inv(s) && IsRun(s, steps)
    decreases |steps|
  {
    if steps == [] then []
    else
      StepKeepsInv(s, steps[0]);
      var first := Tells(s, steps[0]);
      (if first.Some? then [first.value] else []) + Announcements(Next(s, steps[0]), steps[1..])
  }

  /** Along any run a record is announced at most once, and not at all when it was before. */
  lemma {:induction false} AnnouncedOnce(s: State, steps: seq<Step>)
    requires Inv(s) && IsRun(s, steps)
    ensures NoDup(Announcements(s, steps))
    ensures forall d :: d in Announcements(s, steps) ==> d !in s.told && d in End(s, steps).told
    decreases |steps|
  {
    hide Inv, Enabled, Next, Tells;
    if steps != [] {
      StepKeepsInv(s, steps[0]);
      StepGrows(s, steps[0]);
      AnnouncedOnce(Next(s, steps[0]), steps[1..]);
      ToldAndFreedOnce(Next(s, steps[0]), steps[1..]);
    }
  }

  /** What has been told or freed stays so, over any run, and a freed record is gone for good. */
  lemma {:induction false} ToldAndFreedOnce(s: State, steps: seq<Step>)
    requires Inv(s) && IsRun(s, steps)
    ensures s.told <= End(s, steps).told && s.freed <= End(s, steps).freed
    ensures forall d :: d in s.freed ==> d !in End(s, steps).records
    decreases |steps|
  {
    hide Inv, Enabled, Next;
    FreedAreGone(End(s, steps));
    if steps != [] {
      StepKeepsInv(s, steps[0]);
      StepGrows(s, steps[0]);
      ToldAndFreedOnce(Next(s, steps[0]), steps[1..]);
    }
  }

  lemma FreedAreGone(s: State)
    requires Inv(s)
    ensures forall d :: d in s.freed ==> d !in s.records
  {
    forall d | d in s.records
      ensures d !in s.freed
    {
      assert RecordOk(s, d);
    }
  }

  lemma ToldGrows(s: State, step: Step)
    requires Inv(s) && Enabled(s, step)
    ensures Next(s, step).told == match Tells(s, step) case None => s.told case Some(d) => s.told + {d}
    ensures Tells(s, step).Some? ==> Tells(s, step).value !in s.told
  {
    if step.Reads? {
      HeadFacts(s, step.list);
    }
    hide Inv, MovedLists, Pull, Push, Remove;
  }

  lemma FreedGrows(s: State, step: Step)
    requires Inv(s) && Enabled(s, step)
    ensures s.freed <= Next(s, step).freed
    ensures forall d :: d in s.records && d !in Next(s, step).records ==> d !in s.freed && d in Next(s, step).freed
  {
    FreedAreGone(s);
    hide Inv, RecordOk, MovedLists, Pull, Push, Remove;
  }

  lemma StepGrows(s: State, step: Step)
    requires Inv(s) && Enabled(s, step)
    ensures s.told <= Next(s, step).told && s.freed <= Next(s, step).freed
    ensures forall d :: d in s.records && d !in Next(s, step).records ==> d !in s.freed && d in Next(s, step).freed
    ensures forall d :: d in Next(s, step).told - s.told <==> Tells(s, step) == Some(d)
    ensures Tells(s, step).Some? ==> Tells(s, step).value !in s.told
  {
    hide Inv, Enabled, Next, Tells;
    ToldGrows(s, step);
    FreedGrows(s, step);
  }

  lemma RecordIsSomewhere(s: State, d: nat)
    requires Inv(s) && d in s.records
    ensures s.refs != map[] || exists l :: ListOf(s, l) != []
  {
    assert RecordOk(s, d);
    if s.records[d].place.Some? {
      assert ListOf(s, s.records[d].place.value) != [];
    }
  }

  /** When all refs of all processes are gone and the lists are empty, every record has been
      freed. */
  lemma NothingLeaks(s: State)
    requires Reachable(s) && s.refs == map[] && forall l :: ListOf(s, l) == []
    ensures s.records == map[]
  {
    hide Inv, Reachable;
    ReachableInv(s);
    if d :| d in s.records {
      RecordIsSomewhere(s, d);
    }
  }
}
