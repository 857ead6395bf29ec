/** What a process hears about the deaths it asked to be told of: for each record, which messages
    come, in which order, and with which cookie. */
module DeathMessages {
  import opened Common
  import opened DeathGraph
  import opened Death

  /** What can happen to a record: BR_DEAD_BINDER goes out, BC_DEAD_BINDER_DONE and
      BC_CLEAR_DEATH_NOTIFICATION come in, BR_CLEAR_DEATH_NOTIFICATION_DONE goes out; or it is
      freed without a word, with its ref or with the list of a thread or process that goes. */
  datatype Event = TellsDead | Acknowledged | Cleared | ClearDone | Dropped

  /** What is to be reported to which process with which cookie. */
  datatype Message = Message(proc: nat, cookie: nat, event: Event)

  /** The record a step is about, if any, and what happens to it. */
  function Happens(s: State, step: Step, d: nat): Option<Event>
    requires Inv(s) && Enabled(s, step)
  {
    match step
    case Reads(l) =>
      if ListOf(s, l)[0] != d then None
      else HeadFacts(s, l); Some(if s.records[d].kind.ClearNotification? then ClearDone else TellsDead)
    case Finishes(_, x, _) => if x == d then Some(Acknowledged) else None
    case Clears(r, _, _) => if s.refs[r].death == Some(d) then Some(Cleared) else None
    case Drops(r) => if s.refs[r].death == Some(d) then Some(Dropped) else None
    case Releases(l) => if ListOf(s, l)[0] == d then Some(Dropped) else None
    case _ => None
  }

  // ---------- the order of events ----------

  /** How far a record has got, as its process sees it. */
  datatype Life = Life(told: bool, acknowledged: bool, cleared: bool, over: bool)

  /** A death is told once, at any time before the end; it is acknowledged once, and a cleared
      record is confirmed only when its death is not told or has been acknowledged. */
  predicate InPlace(u: Life, e: Event) {
    && !u.over
    && match e
       case TellsDead => !u.told
       case Acknowledged => u.told && !u.acknowledged
       case Cleared => !u.cleared
       case ClearDone => u.cleared && (u.told ==> u.acknowledged)
       case Dropped => true
  }

  function After(u: Life, e: Event): Life {
    match e
    case TellsDead => u.(told := true)
    case Acknowledged => u.(acknowledged := true)
    case Cleared => u.(cleared := true)
    case ClearDone => u.(over := true)
    case Dropped => u.(over := true)
  }

  /** The same, from the record itself. */
  function LifeOf(s: State, d: nat): Life
    requires d in s.records
  {
    var x := s.records[d];
    var told := d in s.told;
    Life(told, told && !(x.place.Some? && x.place.value.Delivered?), x.owner.None?, false)
  }

  lemma ReadLife(s: State, l: ListId)
    requires Inv(s) && CanRead(s, l)
    ensures var d := ListOf(s, l)[0]; var s' := Read(s, l);
            && d in s.records
            && var e := if s.records[d].kind.ClearNotification? then ClearDone else TellsDead;
              && InPlace(LifeOf(s, d), e)
              && (if e.ClearDone? then d !in s'.records else d in s'.records && LifeOf(s', d) == After(LifeOf(s, d), e))
              && (forall x :: x in s.records && x != d ==> x in s'.records && LifeOf(s', x) == LifeOf(s, x))
  {
    HeadFacts(s, l);
    hide Inv, Pull, Push, MovedLists;
  }

  lemma FinishLife(s: State, p: nat, d: nat, to: ListId)
    requires Inv(s) && CanFinish(s, p, d, to)
    ensures d in s.records && InPlace(LifeOf(s, d), Acknowledged)
    ensures var s' := Finish(s, p, d, to);
            && d in s'.records && LifeOf(s', d) == After(LifeOf(s, d), Acknowledged)
            && (forall x :: x in s.records && x != d ==> x in s'.records && LifeOf(s', x) == LifeOf(s, x))
  {
    OnListIsRecord(s, Delivered(p), d);
    InvParts(s, d);
    hide Inv, Pull, Push, MovedLists;
  }

  lemma ClearLife(s: State, r: nat, cookie: nat, to: ListId)
    requires Inv(s) && CanClear(s, r, cookie, to)
    ensures var d := s.refs[r].death.value; var s' := Clear(s, r, cookie, to);
            && InPlace(LifeOf(s, d), Cleared) && d in s'.records && LifeOf(s', d) == After(LifeOf(s, d), Cleared)
            && (forall x :: x in s.records && x != d ==> x in s'.records && LifeOf(s', x) == LifeOf(s, x))
  {
    hide Inv, Pull, Push, MovedLists, ListsOk, RefsOk, HistoryOk, ListOf;
    OwnRecord(s, r);
  }

  /** A ref's record. */
  lemma OwnRecord(s: State, r: nat)
    requires Inv(s) && r in s.refs && s.refs[r].death.Some?
    ensures s.refs[r].death.value in s.records && RecordOk(s, s.refs[r].death.value) && s.records[s.refs[r].death.value].owner == Some(r)
  {
    hide RecordOk;
    InvParts(s, s.refs[r].death.value);
  }

  lemma FreedLife(s: State, d: nat)
    requires d in s.records
    ensures var s' := FreeRecord(s, d);
            d !in s'.records && forall x :: x in s.records && x != d ==> x in s'.records && LifeOf(s', x) == LifeOf(s, x)
  {
  }

  /** Nothing about record d that its process sees. */
  lemma SameLife(s: State, s': State, d: nat)
    requires d in s.records && d in s'.records && s'.told == s.told
    requires s'.records[d].place == s.records[d].place && s'.records[d].owner == s.records[d].owner
    ensures LifeOf(s', d) == LifeOf(s, d)
  {
  }

  lemma VisitLife(s: State, r: nat, d: nat)
    requires Inv(s) && CanVisit(s, r) && d in s.records
    ensures d in Visit(s, r).records && LifeOf(Visit(s, r), d) == LifeOf(s, d)
  {
    hide Inv, Push, ListsOk, RefsOk, HistoryOk, ListOf;
    if s.refs[r].death.Some? {
      OwnRecord(s, r);
    }
  }

  lemma RequestLife(s: State, r: nat, cookie: nat, d: nat)
    requires Inv(s) && CanRequest(s, r) && d in s.records
    ensures d in Request(s, r, cookie).records && LifeOf(Request(s, r, cookie), d) == LifeOf(s, d)
  {
    hide Inv, Push;
    NewIdUnused(s);
  }

  lemma OtherLife(s: State, step: Step, d: nat)
    requires Inv(s) && Enabled(s, step) && d in s.records
    requires !step.Reads? && !step.Finishes? && !step.Clears? && !step.Drops? && !step.Releases?
    ensures d in Next(s, step).records && LifeOf(Next(s, step), d) == LifeOf(s, d)
  {
    hide Inv, Visit, Request, LifeOf;
    if step.Requests? {
      RequestLife(s, step.ref, step.cookie, d);
    } else if step.Visits? {
      VisitLife(s, step.ref, d);
    } else {
      SameLife(s, Next(s, step), d);
    }
  }

  /** One step: what happens to a record is in its place, and nothing else changes how far it
      has got. */
  lemma StepLife(s: State, step: Step, d: nat)
    requires Inv(s) && Enabled(s, step) && d in s.records
    ensures match Happens(s, step, d)
            case None => d in Next(s, step).records && LifeOf(Next(s, step), d) == LifeOf(s, d)
            case Some(e) =>
              && InPlace(LifeOf(s, d), e)
              && (d in Next(s, step).records <==> !After(LifeOf(s, d), e).over)
              && (d in Next(s, step).records ==> LifeOf(Next(s, step), d) == After(LifeOf(s, d), e))
  {
    hide Inv, LifeOf, Read, Finish, Clear, FreeRecord;
    match step
    case Reads(l) => ReadLife(s, l);
    case Finishes(p, x, to) => FinishLife(s, p, x, to);
    case Clears(r, cookie, to) => ClearLife(s, r, cookie, to);
    case Drops(r) => DropLife(s, r, d);
    case Releases(l) => HeadFacts(s, l); FreedLife(s, ListOf(s, l)[0]); NotOver(s, d);
    case _ => OtherLife(s, step, d);
  }

  lemma NotOver(s: State, d: nat)
    requires d in s.records
    ensures !LifeOf(s, d).over
  {
  }

  lemma DropLife(s: State, r: nat, d: nat)
    requires Inv(s) && CanDrop(s, r) && d in s.records
    ensures var s' := DropRef(s, r);
            && InPlace(LifeOf(s, d), Dropped)
            && (if s.refs[r].death == Some(d) then d !in s'.records else d in s'.records && LifeOf(s', d) == LifeOf(s, d))
  {
    if s.refs[r].death.Some? {
      FreedLife(s, s.refs[r].death.value);
    }
  }

  // ---------- cookies ----------

  /** Records keep their cookie and their process, and none is new. */
  predicate SameCookies(s: State, s': State) {
    forall d :: d in s'.records ==> d in s.records && s'.records[d].cookie == s.records[d].cookie && s'.records[d].proc == s.records[d].proc
  }

  lemma ReadCookies(s: State, l: ListId)
    requires Inv(s) && CanRead(s, l)
    ensures SameCookies(s, Read(s, l))
  {
    HeadFacts(s, l);
    hide Inv, RecordOk, Pull, MovedLists;
  }

  lemma FinishCookies(s: State, p: nat, d: nat, to: ListId)
    requires Inv(s) && CanFinish(s, p, d, to)
    ensures SameCookies(s, Finish(s, p, d, to))
  {
    OnListIsRecord(s, Delivered(p), d);
    hide Inv, MovedLists;
  }

  lemma ClearCookies(s: State, r: nat, cookie: nat, to: ListId)
    requires Inv(s) && CanClear(s, r, cookie, to)
    ensures SameCookies(s, Clear(s, r, cookie, to))
  {
    hide Inv, MovedLists;
  }

  lemma VisitCookies(s: State, r: nat)
    requires Inv(s) && CanVisit(s, r)
    ensures SameCookies(s, Visit(s, r))
  {
    if s.refs[r].death.Some? {
      VisitedOne(s, r);
    }
    hide Inv, Push;
  }

  lemma FreedCookies(s: State, step: Step)
    requires Inv(s) && Enabled(s, step) && (step.Drops? || step.Releases?)
    ensures SameCookies(s, Next(s, step))
  {
    hide Inv, Pull;
  }

  /** A record is made by a request, says what was asked and by whom, and never says anything
      else. */
  lemma StepCookies(s: State, step: Step, d: nat)
    requires Inv(s) && Enabled(s, step) && d in Next(s, step).records
    ensures if d in s.records then
              Next(s, step).records[d].cookie == s.records[d].cookie && Next(s, step).records[d].proc == s.records[d].proc
            else
              && d == s.nextId && step.Requests? && Next(s, step).records[d].cookie == step.cookie
              && Next(s, step).records[d].proc == s.refs[step.ref].proc && LifeOf(Next(s, step), d) == Life(false, false, false, false)
  {
    hide Inv, Push, Read, Finish, Clear, Visit, DropRef, ReleaseHead;
    match step
    case Requests(_, _) => NewIdUnused(s);
    case Reads(l) => ReadCookies(s, l);
    case Finishes(p, x, to) => FinishCookies(s, p, x, to);
    case Clears(r, cookie, to) => ClearCookies(s, r, cookie, to);
    case Visits(r) => VisitCookies(s, r);
    case Drops(_) => FreedCookies(s, step);
    case Releases(_) => FreedCookies(s, step);
    case _ =>
  }

  /** The message a step sends about record d. */
  function Sends(s: State, step: Step, d: nat): Option<Message>
    requires Inv(s) && Enabled(s, step) && d in s.records
  {
    match Happens(s, step, d)
    case Some(e) => if e.TellsDead? || e.ClearDone? then Some(Message(s.records[d].proc, s.records[d].cookie, e)) else None
    case None => None
  }

  /** It goes to a list of the process that asked. */
  lemma SentToAsker(s: State, l: ListId, d: nat)
    requires Inv(s) && CanRead(s, l) && ListOf(s, l)[0] == d
    ensures d in s.records
    ensures match l
            case ProcTodo(p) => p == s.records[d].proc
            case ThreadTodo(t) => t in s.threads && s.threads[t] == s.records[d].proc
            case Delivered(_) => false
  {
    HeadFacts(s, l);
  }

  // ---------- runs ----------

  /** Along a run every event on record d comes in its place and every message on it carries the
      asker's cookie, starting from life u. */
  ghost predicate Proper(s: State, steps: seq<Step>, d: nat, u: Life, proc: nat, cookie: nat)
    requires Inv(s) && IsRun(s, steps)
    decreases |steps|
  {
    hide Inv, Enabled, Next;
    steps == [] ||
    (StepKeepsInv(s, steps[0]);
     if d !in s.records then
       u.over && Proper(Next(s, steps[0]), steps[1..], d, u, proc, cookie)
     else
       && (Sends(s, steps[0], d).Some? ==> Sends(s, steps[0], d).value.proc == proc && Sends(s, steps[0], d).value.cookie == cookie)
       && match Happens(s, steps[0], d)
          case None => Proper(Next(s, steps[0]), steps[1..], d, u, proc, cookie)
          case Some(e) => InPlace(u, e) && Proper(Next(s, steps[0]), steps[1..], d, After(u, e), proc, cookie))
  }

  /** How far the record is, or was when it went. */
  predicate IsLife(s: State, d: nat, u: Life, proc: nat, cookie: nat) {
    if d in s.records then u == LifeOf(s, d) && s.records[d].proc == proc && s.records[d].cookie == cookie
    else u.over && d < s.nextId
  }

  lemma NextIdGrows(s: State, step: Step)
    requires Inv(s) && Enabled(s, step)
    ensures s.nextId <= Next(s, step).nextId
  {
    hide Inv, RecordOk, Pull, Push, MovedLists;
    if step.Reads? {
      HeadFacts(s, step.list);
    }
  }

  lemma {:induction false} AlwaysProper(s: State, steps: seq<Step>, d: nat, u: Life, proc: nat, cookie: nat)
    requires Inv(s) && IsRun(s, steps) && IsLife(s, d, u, proc, cookie)
    ensures Proper(s, steps, d, u, proc, cookie)
    decreases |steps|
  {
    hide Inv, Enabled, Next, Happens, LifeOf, InPlace, After;
    if steps != [] {
      var step := steps[0];
      StepKeepsInv(s, step);
      NextIdGrows(s, step);
      var s' := Next(s, step);
      if d in s'.records {
        StepCookies(s, step, d);
      }
      if d in s.records {
        BoundedId(s, d);
        StepLife(s, step, d);
        NotOver(s, d);
        if Happens(s, step, d).Some? {
          AlwaysProper(s', steps[1..], d, After(u, Happens(s, step, d).value), proc, cookie);
        } else {
          AlwaysProper(s', steps[1..], d, u, proc, cookie);
        }
      } else {
        AlwaysProper(s', steps[1..], d, u, proc, cookie);
      }
    }
  }

  lemma BoundedId(s: State, d: nat)
    requires Inv(s) && d in s.records
    ensures d < s.nextId
  {
    InvParts(s, d);
    IdBounded(s, d);
  }

  /** From the request on, over any run: its process is told of the death at most once, the
      clearing is confirmed at most once, after it was asked for and not between the
      announcement and its acknowledgement, and nothing comes after that; every message goes to
      the process that asked, with the cookie it gave. */
  lemma RequestIsProper(s: State, r: nat, cookie: nat, steps: seq<Step>)
    requires Inv(s) && CanRequest(s, r) && Inv(Request(s, r, cookie)) && IsRun(Request(s, r, cookie), steps)
    ensures Proper(Request(s, r, cookie), steps, s.nextId, Life(false, false, false, false), s.refs[r].proc, cookie)
  {
    hide Inv;
    StepCookies(s, Requests(r, cookie), s.nextId);
    NewIdUnused(s);
    AlwaysProper(Request(s, r, cookie), steps, s.nextId, Life(false, false, false, false), s.refs[r].proc, cookie);
  }

  // ---------- lists ----------

  function PlaceOf(s: State, d: nat): Option<ListId> {
    if d in s.records then s.records[d].place else None
  }

  /** What a list is when record d may have moved: d is off the list it was on and the last of the
      one it is put on; the others keep their order. */
  function ListAfter(s: State, s': State, d: nat, l: ListId): seq<nat> {
    if PlaceOf(s', d) == PlaceOf(s, d) then ListOf(s, l)
    else (if PlaceOf(s, d) == Some(l) then Remove(ListOf(s, l), d) else ListOf(s, l)) + (if PlaceOf(s', d) == Some(l) then [d] else [])
  }

  ghost predicate ListsAfter(s: State, s': State, d: nat) {
    forall l :: ListOf(s', l) == ListAfter(s, s', d, l)
  }

  /** The record a step may move. */
  function Mover(s: State, step: Step): Option<nat>
    requires Inv(s) && Enabled(s, step)
  {
    match step
    case Requests(_, _) => Some(s.nextId)
    case Reads(l) => Some(ListOf(s, l)[0])
    case Releases(l) => Some(ListOf(s, l)[0])
    case Finishes(_, d, _) => Some(d)
    case Clears(r, _, _) => s.refs[r].death
    case Visits(r) => s.refs[r].death
    case Drops(r) => s.refs[r].death
    case _ => None
  }

  lemma MovedAt(s: State, s': State, d: nat, to: Option<ListId>)
    requires d in s.records && s'.lists == MovedLists(s, d, to) && PlaceOf(s', d) == to && PlaceOf(s, d) != to
    ensures ListsAfter(s, s', d)
  {
  }

  lemma PulledAt(s: State, s': State, d: nat)
    requires d in s.records && s'.lists == Pull(s, d) && d !in s'.records && (forall l :: d in ListOf(s, l) ==> s.records[d].place == Some(l))
    ensures ListsAfter(s, s', d)
  {
  }

  lemma PushedAt(s: State, s': State, d: nat, l: ListId)
    requires s'.lists == Push(s, l, d) && PlaceOf(s, d) == None && PlaceOf(s', d) == Some(l)
    ensures ListsAfter(s, s', d)
  {
  }

  lemma ReadLists(s: State, l: ListId)
    requires Inv(s) && CanRead(s, l)
    ensures ListsAfter(s, Read(s, l), ListOf(s, l)[0])
  {
    var d := ListOf(s, l)[0];
    HeadFacts(s, l);
    InvParts(s, d);
    hide Inv, RecordOk, Pull, Push, MovedLists, ListsAfter;
    if s.records[d].kind.ClearNotification? {
      PulledAt(s, Read(s, l), d);
    } else {
      MovedAt(s, Read(s, l), d, Some(Delivered(s.records[d].proc)));
    }
  }

  lemma FinishLists(s: State, p: nat, d: nat, to: ListId)
    requires Inv(s) && CanFinish(s, p, d, to)
    ensures ListsAfter(s, Finish(s, p, d, to), d)
  {
    OnListIsRecord(s, Delivered(p), d);
    hide Inv, Pull, Push, MovedLists, ListsAfter;
    MovedAt(s, Finish(s, p, d, to), d, if s.records[d].kind.DeadBinderAndClear? then Some(to) else None);
  }

  lemma ClearLists(s: State, r: nat, cookie: nat, to: ListId)
    requires Inv(s) && CanClear(s, r, cookie, to)
    ensures ListsAfter(s, Clear(s, r, cookie, to), s.refs[r].death.value)
  {
    var d := s.refs[r].death.value;
    hide Inv, Pull, Push, MovedLists;
    if s.records[d].place.None? {
      MovedAt(s, Clear(s, r, cookie, to), d, Some(to));
    }
  }

  lemma VisitLists(s: State, r: nat)
    requires Inv(s) && CanVisit(s, r)
    ensures if s.refs[r].death.Some? then ListsAfter(s, Visit(s, r), s.refs[r].death.value) else Visit(s, r).lists == s.lists
  {
    if s.refs[r].death.Some? {
      var d := s.refs[r].death.value;
      InvParts(s, d);
      hide Inv, Pull, Push, ListsAfter;
      PushedAt(s, Visit(s, r), d, ProcTodo(s.records[d].proc));
    }
  }

  lemma RequestLists(s: State, r: nat, cookie: nat)
    requires Inv(s) && CanRequest(s, r)
    ensures ListsAfter(s, Request(s, r, cookie), s.nextId)
  {
    NewIdUnused(s);
    hide Inv;
  }

  lemma FreedLists(s: State, d: nat)
    requires Inv(s) && d in s.records
    ensures ListsAfter(s, FreeRecord(s, d), d)
  {
    InvParts(s, d);
    hide Inv, RecordOk, Pull, ListsAfter;
    PulledAt(s, FreeRecord(s, d), d);
  }

  lemma DropLists(s: State, r: nat)
    requires Inv(s) && CanDrop(s, r)
    ensures if s.refs[r].death.Some? then ListsAfter(s, DropRef(s, r), s.refs[r].death.value) else DropRef(s, r).lists == s.lists
  {
    if s.refs[r].death.Some? {
      FreedLists(s, s.refs[r].death.value);
    }
    hide Inv, FreeRecord, ListsAfter;
  }

  /** Every list after every step: first in, first out, whatever is taken out of the middle. */
  lemma StepLists(s: State, step: Step)
    requires Inv(s) && Enabled(s, step)
    ensures match Mover(s, step)
            case None => forall l :: ListOf(Next(s, step), l) == ListOf(s, l)
            case Some(d) => ListsAfter(s, Next(s, step), d)
  {
    hide Inv, Push, Pull, Read, Finish, Clear, Visit, DropRef, FreeRecord, Request, ListsAfter;
    match step
    case Requests(r, cookie) => RequestLists(s, r, cookie);
    case Reads(l) => ReadLists(s, l);
    case Finishes(p, x, to) => FinishLists(s, p, x, to);
    case Clears(r, cookie, to) => ClearLists(s, r, cookie, to);
    case Visits(r) => VisitLists(s, r);
    case Drops(r) => DropLists(s, r);
    case Releases(l) => HeadFacts(s, l); FreedLists(s, ListOf(s, l)[0]);
    case _ =>
  }

  /** Where the record of a step is afterwards: with its process until it has been told, then
      among the delivered, then, once cleared, where the thread asked for the report; on no list
      while there is nothing to say. */
  lemma StepPlaces(s: State, step: Step, d: nat)
    requires Inv(s) && Enabled(s, step) && Mover(s, step) == Some(d) && d in Next(s, step).records
    ensures var x := Next(s, step).records[d]; var u := LifeOf(Next(s, step), d);
            x.place == match step
                       case Requests(r, _) => if s.nodes[s.refs[r].node].Dead? then Some(ProcTodo(x.proc)) else None
                       case Visits(_) => Some(ProcTodo(x.proc))
                       case Reads(_) => Some(Delivered(x.proc))
                       case Finishes(_, _, to) => if u.cleared then Some(to) else None
                       case Clears(_, _, to) => if PlaceOf(s, d) == None then Some(to) else PlaceOf(s, d)
                       case _ => None
  {
    hide Inv, Push, Pull, MovedLists, ListsOk, RefsOk, HistoryOk;
    MoverIsRecord(s, step, d);
    if d in s.records {
      IsOk(s, d);
    }
    if step.Finishes? {
      OnListIsRecord(s, Delivered(step.proc), d);
    }
  }

  lemma MoverIsRecord(s: State, step: Step, d: nat)
    requires Inv(s) && Enabled(s, step) && Mover(s, step) == Some(d)
    ensures d in s.records || step.Requests?
  {
    hide RecordOk, ListOf;
    match step
    case Reads(l) => HeadFacts(s, l);
    case Releases(l) => HeadFacts(s, l);
    case Finishes(p, x, _) => OnListIsRecord(s, Delivered(p), x);
    case Clears(r, _, _) => OwnRecord(s, r);
    case Visits(r) => OwnRecord(s, r);
    case Drops(r) => OwnRecord(s, r);
    case _ =>
  }

  lemma IsOk(s: State, d: nat)
    requires Inv(s) && d in s.records
    ensures RecordOk(s, d)
  {
    hide RecordOk;
    InvParts(s, d);
  }
}
