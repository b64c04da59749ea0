/**
 * The life of an account: suspension, reactivation, reset, kind changes, deletion on request and
 * the daily purge.
 *
 * The people handlers read and check an account, then write it in a second statement; the purge
 * lists the due accounts, then deletes them one by one. Both are two steps here, with anything in
 * between. A deletion request is one transaction, and one step.
 */
module Accounts {
  import opened Common
  import opened People

  datatype Account = Account(kind: Kind, status: Status, deleteAfter: Option<int>)

  type Users = map<string, Account>

  const GRACE_MS := 7 * 24 * 60 * 60 * 1000

  datatype Action = Suspend | Reactivate | Reset | SetKind(kind: Kind)

  datatype Refusal = InvalidKind | NotFound | NotYourself | OwnerProtected | FactorRequired

  datatype Deletion = Scheduled(graceUntil: int) | LastOwner | Gone

  predicate IsActiveOwner(a: Account) { a.kind.Owner? && a.status.Active? }

  ghost predicate HasActiveOwner(users: Users) {
    exists id :: id in users && IsActiveOwner(users[id])
  }

  /** An active owner other than this one. */
  ghost predicate OtherOwner(users: Users, id: string) {
    exists other :: other in users && other != id && IsActiveOwner(users[other])
  }

  ghost function Decide(users: Users, id: string, now: int): Deletion {
    if id !in users || !users[id].status.Active? then Gone
    else if users[id].kind.Owner? && !OtherOwner(users, id) then LastOwner
    else Scheduled(now + GRACE_MS)
  }

  ghost function Requested(users: Users, id: string, now: int): Users {
    var d := Decide(users, id, now);
    if d.Scheduled? then users[id := users[id].(status := Suspended, deleteAfter := Some(d.graceUntil))] else users
  }

  predicate IsDue(a: Account, now: int) {
    a.status.Suspended? && a.deleteAfter.Some? && a.deleteAfter.value <= now
  }

  function DueAt(users: Users, now: int): set<string> {
    set id | id in users && IsDue(users[id], now)
  }

  function Purged(users: Users, id: string, now: int): Users {
    if id in users && IsDue(users[id], now) then users - {id} else users
  }

  /** The checks before a people action; `factor`: the target holds a verified second factor. */
  function Check(users: Users, actor: string, id: string, action: Action, factor: bool): Option<Refusal> {
    if action.SetKind? then
      if action.kind.Owner? then Some(InvalidKind)
      else if id !in users then Some(NotFound)
      else if users[id].kind.Owner? then Some(OwnerProtected)
      else if action.kind.Admin? && !factor then Some(FactorRequired)
      else None
    else
      if id !in users then Some(NotFound)
      else if id == actor then Some(NotYourself)
      else if users[id].kind.Owner? then Some(OwnerProtected)
      else None
  }

  function Changed(a: Account, action: Action): Account {
    match action
    case Suspend => a.(status := Suspended)
    case Reactivate => a.(status := Active, deleteAfter := None)
    case Reset => a
    case SetKind(k) => a.(kind := k)
  }

  /** An update by id fails, and changes nothing, when the row is gone. */
  function Written(users: Users, id: string, action: Action): Users {
    if id in users then users[id := Changed(users[id], action)] else users
  }

  /** Which people actions are allowed: nobody touches an owner, makes one, or makes an admin without a factor. */
  lemma AllowedActions(users: Users, actor: string, id: string, action: Action, factor: bool)
    ensures Check(users, actor, id, action, factor).None?
      <==> id in users && !users[id].kind.Owner?
           && (if action.SetKind? then !action.kind.Owner? && (action.kind.Admin? ==> factor) else id != actor)
  {
  }

  /** Why an action is refused: the first of the checks it fails. */
  lemma RefusalsAreTrue(users: Users, actor: string, id: string, action: Action, factor: bool)
    ensures var r := Check(users, actor, id, action, factor);
      && (r == Some(InvalidKind) <==> action == SetKind(Owner))
      && (r == Some(NotFound) <==> id !in users && action != SetKind(Owner))
      && (r == Some(NotYourself) <==> id in users && id == actor && !action.SetKind?)
      && (r == Some(FactorRequired) <==>
            id in users && !users[id].kind.Owner? && action == SetKind(Admin) && !factor)
      && (r == Some(OwnerProtected) <==>
            id in users && users[id].kind.Owner? && action != SetKind(Owner) && (id == actor ==> action.SetKind?))
  {
  }

  // ---- runs ----

  datatype Pending = Pending(id: string, action: Action)

  datatype Job = Job(now: int, ids: set<string>)

  datatype World = World(users: Users, used: set<string>, pending: map<nat, Pending>, jobs: map<nat, Job>)

  datatype Imported = Imported(admin: bool, suspended: bool)

  datatype Event =
    | RequestDeletion(id: string, now: int)
    | ListDue(job: nat, now: int)
    | PurgeOne(job: nat, id: string)
    | Begin(request: nat, actor: string, id: string, action: Action, factor: bool)
    | Finish(request: nat)
    | Enrol(id: string)
    | Join(id: string)
    | Import(people: map<string, Imported>)

  function KindOf(admin: bool): Kind { if admin then Admin else Guest }

  /** An import decides the kind of everybody but the owner, and the status of nobody it finds. */
  function ImportedAccount(was: Option<Account>, p: Imported): Account {
    match was
    case None => Account(KindOf(p.admin), if p.suspended then Suspended else Invited, None)
    case Some(a) => if a.kind.Owner? then a else a.(kind := KindOf(p.admin))
  }

  function Imports(users: Users, people: map<string, Imported>): Users {
    users + map id | id in people :: ImportedAccount(if id in users then Some(users[id]) else None, people[id])
  }

  /** An event that cannot happen in this state leaves it alone. */
  ghost function Step(w: World, e: Event): World {
    match e
    case RequestDeletion(id, now) => w.(users := Requested(w.users, id, now))
    case ListDue(job, now) => w.(jobs := w.jobs[job := Job(now, DueAt(w.users, now))])
    case PurgeOne(job, id) =>
      if job in w.jobs && id in w.jobs[job].ids then w.(users := Purged(w.users, id, w.jobs[job].now)) else w
    case Begin(request, actor, id, action, factor) =>
      if request !in w.pending && Check(w.users, actor, id, action, factor).None?
      then w.(pending := w.pending[request := Pending(id, action)]) else w
    case Finish(request) =>
      if request in w.pending
      then w.(users := Written(w.users, w.pending[request].id, w.pending[request].action),
          pending := w.pending - {request})
      else w
    case Enrol(id) =>
      if id in w.users then w.(users := w.users[id := w.users[id].(status := Active)]) else w
    case Join(id) =>
      if id in w.used then w else w.(users := w.users[id := Account(Guest, Active, None)], used := w.used + {id})
    case Import(people) =>
      if forall id :: id in people && id in w.used ==> id in w.users
      then w.(users := Imports(w.users, people), used := w.used + people.Keys) else w
  }

  ghost function StateAfter(start: World, events: seq<Event>): World {
    if events == [] then start
    else Step(StateAfter(start, events[..|events| - 1]), events[|events| - 1])
  }

  /** What the two-step handlers rely on: an account that passed the owner check does not become an owner. */
  ghost predicate Sane(w: World) {
    && w.users.Keys <= w.used
    && (forall r :: r in w.pending ==> Harmless(w, w.pending[r]))
  }

  predicate Harmless(w: World, p: Pending) {
    && p.id in w.used
    && (p.action.SetKind? ==> !p.action.kind.Owner?)
    && (p.id in w.users ==> !w.users[p.id].kind.Owner?)
  }

  /** Nobody becomes an owner, and used ids stay used. */
  ghost predicate NoNewOwners(w: World, v: World) {
    && w.used <= v.used
    && (forall id :: id in v.users && v.users[id].kind.Owner? ==> id in w.users && w.users[id].kind.Owner?)
  }

  lemma StepMakesNoOwners(w: World, e: Event)
    requires Sane(w)
    ensures NoNewOwners(w, Step(w, e))
  {
    match e
    case Finish(request) =>
      if request in w.pending {
        assert Harmless(w, w.pending[request]);
      }
    case _ =>
  }

  lemma StepKeepsIds(w: World, e: Event)
    requires Sane(w)
    ensures Step(w, e).users.Keys <= Step(w, e).used
  {
  }

  /** An id that is in use but not in the table is not given out again. */
  lemma StepRevivesNobody(w: World, e: Event, id: string)
    requires Sane(w) && id in w.used && id !in w.users
    ensures id !in Step(w, e).users
  {
  }

  lemma StepIsSane(w: World, e: Event)
    requires Sane(w)
    ensures Sane(Step(w, e))
  {
    StepMakesNoOwners(w, e);
    StepKeepsIds(w, e);
    var v := Step(w, e);
    forall r | r in v.pending ensures Harmless(v, v.pending[r]) {
      if r in w.pending {
        var p := w.pending[r];
        assert Harmless(w, p);
        if p.id !in w.users {
          StepRevivesNobody(w, e, p.id);
        }
      }
    }
  }

  lemma StepKeepsAnOwner(w: World, e: Event)
    requires Sane(w) && HasActiveOwner(w.users)
    ensures HasActiveOwner(Step(w, e).users)
  {
    var o :| o in w.users && IsActiveOwner(w.users[o]);
    match e
    case RequestDeletion(id, now) =>
      if id == o && Decide(w.users, id, now).Scheduled? {
        var other :| other in w.users && other != id && IsActiveOwner(w.users[other]);
        assert other in Step(w, e).users && IsActiveOwner(Step(w, e).users[other]);
      } else {
        assert o in Step(w, e).users && IsActiveOwner(Step(w, e).users[o]);
      }
    case Finish(request) =>
      if request in w.pending {
        assert Harmless(w, w.pending[request]);
      }
      assert o in Step(w, e).users && IsActiveOwner(Step(w, e).users[o]);
    case _ =>
      assert o in Step(w, e).users && IsActiveOwner(Step(w, e).users[o]);
  }

  /** The last-owner guarantee, whatever is interleaved with whatever. */
  lemma {:induction false} NeverOwnerless(start: World, events: seq<Event>)
    requires Sane(start) && HasActiveOwner(start.users)
    ensures Sane(StateAfter(start, events)) && HasActiveOwner(StateAfter(start, events).users)
  {
    if events == [] {
    } else {
      var init := events[..|events| - 1];
      NeverOwnerless(start, init);
      StepIsSane(StateAfter(start, init), events[|events| - 1]);
      StepKeepsAnOwner(StateAfter(start, init), events[|events| - 1]);
    }
  }

  // ---- who is purged ----

  /** This event writes a reactivation of the account. */
  predicate Reactivates(w: World, e: Event, id: string) {
    e.Finish? && e.request in w.pending && w.pending[e.request] == Pending(id, Reactivate)
  }

  ghost predicate RequestedAt(start: World, events: seq<Event>, i: nat, id: string, d: int) {
    && i < |events| && events[i].RequestDeletion? && events[i].id == id && d == events[i].now + GRACE_MS
    && Decide(StateAfter(start, events[..i]).users, id, events[i].now) == Scheduled(d)
  }

  ghost predicate NotReactivatedSince(start: World, events: seq<Event>, i: nat, id: string) {
    forall j :: i < j < |events| ==> !Reactivates(StateAfter(start, events[..j]), events[j], id)
  }

  /** A deletion date appears only by request and goes only by reactivation. */
  lemma DateComesFrom(w: World, e: Event, id: string)
    requires id in Step(w, e).users && Step(w, e).users[id].deleteAfter.Some?
    ensures var d := Step(w, e).users[id].deleteAfter.value;
      || (e.RequestDeletion? && e.id == id && Decide(w.users, id, e.now) == Scheduled(d))
      || (id in w.users && w.users[id].deleteAfter == Some(d) && !Reactivates(w, e, id))
  {
  }

  lemma OnlyReactivationClears(w: World, e: Event, id: string)
    requires Sane(w) && id in w.users && w.users[id].deleteAfter.Some? && id in Step(w, e).users
    ensures Step(w, e).users[id].deleteAfter.None? <==> Reactivates(w, e, id)
  {
  }

  lemma {:induction false} DateWasRequested(start: World, events: seq<Event>, id: string) returns (i: nat)
    requires forall x :: x in start.users ==> start.users[x].deleteAfter.None?
    requires id in StateAfter(start, events).users && StateAfter(start, events).users[id].deleteAfter.Some?
    ensures RequestedAt(start, events, i, id, StateAfter(start, events).users[id].deleteAfter.value)
    ensures NotReactivatedSince(start, events, i, id)
  {
    i := 0;
    if events != [] {
      var init, e := events[..|events| - 1], events[|events| - 1];
      var w := StateAfter(start, init);
      DateComesFrom(w, e, id);
      var d := Step(w, e).users[id].deleteAfter.value;
      if e.RequestDeletion? && e.id == id && Decide(w.users, id, e.now) == Scheduled(d) {
        i := |events| - 1;
      } else {
        i := DateWasRequested(start, init, id);
        RequestStays(start, events, i, id, d);
      }
    }
  }

  lemma RequestStays(start: World, events: seq<Event>, i: nat, id: string, d: int)
    requires |events| > 0
    requires RequestedAt(start, events[..|events| - 1], i, id, d)
    requires NotReactivatedSince(start, events[..|events| - 1], i, id)
    requires !Reactivates(StateAfter(start, events[..|events| - 1]), events[|events| - 1], id)
    ensures RequestedAt(start, events, i, id, d) && NotReactivatedSince(start, events, i, id)
  {
    var init := events[..|events| - 1];
    assert init[..i] == events[..i];
    forall j | i < j < |events| ensures !Reactivates(StateAfter(start, events[..j]), events[j], id) {
      if j < |init| {
        assert init[..j] == events[..j];
      }
    }
  }

  /** A purge job was listed at the time it judges by. */
  lemma {:induction false} JobWasListed(start: World, events: seq<Event>, job: nat) returns (l: nat)
    requires start.jobs == map[] && job in StateAfter(start, events).jobs
    ensures l < |events| && events[l] == ListDue(job, StateAfter(start, events).jobs[job].now)
  {
    l := 0;
    if events != [] {
      var init, e := events[..|events| - 1], events[|events| - 1];
      if e.ListDue? && e.job == job {
        l := |events| - 1;
      } else {
        l := JobWasListed(start, init, job);
      }
    }
  }

  /** Requests and listings read one clock, which does not go back. */
  ghost predicate OneClock(events: seq<Event>) {
    forall j, k :: 0 <= j < k < |events| && Reads(events[j]) && Reads(events[k]) ==> events[j].now <= events[k].now
  }

  predicate Reads(e: Event) { e.RequestDeletion? || e.ListDue? }

  /**
   * Who is purged. Whenever a run deletes an account, its owner asked for that at least seven days
   * before the purge was listed, and no admin reactivated it since, not even between the purge's
   * list and its delete. On one clock the request also came before the listing.
   */
  lemma PurgedOnlyAfterGrace(start: World, events: seq<Event>, id: string) returns (i: nat, l: nat)
    requires start.jobs == map[] && forall x :: x in start.users ==> start.users[x].deleteAfter.None?
    requires |events| > 0
    requires id in StateAfter(start, events[..|events| - 1]).users && id !in StateAfter(start, events).users
    ensures i < |events| - 1 && l < |events| - 1
    ensures events[|events| - 1].PurgeOne? && events[|events| - 1].id == id
    ensures events[i].RequestDeletion? && events[i].id == id
    ensures events[l].ListDue? && events[l].job == events[|events| - 1].job && events[l].now - events[i].now >= GRACE_MS
    ensures NotReactivatedSince(start, events[..|events| - 1], i, id)
    ensures OneClock(events) ==> i < l
  {
    var init, e := events[..|events| - 1], events[|events| - 1];
    var w := StateAfter(start, init);
    OnlyPurgeRemoves(w, e, id);
    i := DateWasRequested(start, init, id);
    l := JobWasListed(start, init, e.job);
  }

  lemma OnlyPurgeRemoves(w: World, e: Event, id: string)
    requires id in w.users && id !in Step(w, e).users
    ensures e.PurgeOne? && e.id == id && e.job in w.jobs && IsDue(w.users[id], w.jobs[e.job].now)
  {
  }

  // ---- what each event does to one account ----

  /** This event writes this action on the account. */
  predicate Writes(w: World, e: Event, id: string, action: Action) {
    e.Finish? && e.request in w.pending && w.pending[e.request] == Pending(id, action)
  }

  ghost predicate Deletes(w: World, e: Event, id: string) {
    e.RequestDeletion? && e.id == id && Decide(w.users, id, e.now).Scheduled?
  }

  predicate Joins(w: World, e: Event, id: string) {
    e.Join? && e.id == id && id !in w.used
  }

  /** The status of every account, by what happened: nothing else activates or suspends anybody. */
  lemma StatusComesFrom(w: World, e: Event, id: string)
    requires Sane(w) && id in w.users && id in Step(w, e).users
    ensures var was, now := w.users[id].status, Step(w, e).users[id].status;
      && (now.Active? <==>
            || Writes(w, e, id, Reactivate) || e == Enrol(id)
            || (was.Active? && !Writes(w, e, id, Suspend) && !Deletes(w, e, id)))
      && (now.Suspended? <==>
            || Writes(w, e, id, Suspend) || Deletes(w, e, id)
            || (was.Suspended? && !Writes(w, e, id, Reactivate) && e != Enrol(id)))
  {
  }

  /** The kind of every account: set by an admin, decided by an import, and otherwise as it was. */
  lemma KindComesFrom(w: World, e: Event, id: string)
    requires Sane(w) && id in w.users && id in Step(w, e).users
    ensures var was, now := w.users[id].kind, Step(w, e).users[id].kind;
      && (forall k :: Writes(w, e, id, SetKind(k)) ==> now == k)
      && (now != was ==>
            || Writes(w, e, id, SetKind(now))
            || (e.Import? && id in e.people && now == if e.people[id].admin then Admin else Guest))
      && (e.Import? && id in e.people && !was.Owner? && Step(w, e) != w ==>
            (now.Admin? <==> e.people[id].admin))
  {
  }

  /** Who is new is a guest who joined, or somebody an import made, who is not active. */
  lemma NewcomersComeFrom(w: World, e: Event, id: string)
    requires Sane(w) && id !in w.users
    ensures id in Step(w, e).users ==>
      || (Joins(w, e, id) && Step(w, e).users[id] == Account(Guest, Active, None))
      || (e.Import? && id in e.people && !Step(w, e).users[id].status.Active? && !Step(w, e).users[id].kind.Owner?)
    ensures Joins(w, e, id) ==> id in Step(w, e).users
  {
  }

  /** A request is granted exactly to an active account that would not leave the instance without an owner. */
  lemma DeletionIsGranted(users: Users, id: string, now: int)
    ensures Decide(users, id, now).Scheduled? <==>
      && id in users && users[id].status.Active?
      && (users[id].kind.Owner? ==> exists other :: other in users && other != id && IsActiveOwner(users[other]))
    ensures Decide(users, id, now) == LastOwner ==> HasActiveOwner(users) && !HasActiveOwner(users - {id})
  {
    if Decide(users, id, now) == LastOwner {
      assert IsActiveOwner(users[id]);
      forall other | other in users - {id} ensures !IsActiveOwner((users - {id})[other]) {
        assert other in users && other != id;
      }
    }
  }

  /** Reactivating undoes a deletion request, and a suspension, of an active account that had no date. */
  lemma ReactivationUndoes(users: Users, id: string, now: int)
    requires id in users && users[id].status.Active? && users[id].deleteAfter.None?
    ensures Written(Requested(users, id, now), id, Reactivate) == users
    ensures Written(Written(users, id, Suspend), id, Reactivate) == users
    ensures Written(users, id, Reset) == users
  {
    var a := users[id];
    assert users[id := a.(status := Suspended)][id := a] == users[id := a] == users;
  }

  /** Nothing here reactivates or re-enrols the account. */
  ghost predicate LeftAlone(start: World, more: seq<Event>, id: string) {
    forall j :: 0 <= j < |more| ==>
      !Reactivates(StateAfter(start, more[..j]), more[j], id) && more[j] != Enrol(id)
  }

  /** An account awaiting its deletion. */
  predicate Awaits(w: World, id: string, d: int) {
    id in w.users && w.users[id].status.Suspended? && w.users[id].deleteAfter == Some(d)
  }

  lemma StillAwaits(w: World, e: Event, id: string, d: int)
    requires Sane(w) && Awaits(w, id, d) && !Reactivates(w, e, id) && e != Enrol(id)
    ensures id !in Step(w, e).users || Awaits(Step(w, e), id, d)
  {
    if id in Step(w, e).users {
      StatusComesFrom(w, e, id);
      OnlyReactivationClears(w, e, id);
      DateComesFrom(w, e, id);
    }
  }

  lemma {:induction false} StillAwaitsAfter(start: World, more: seq<Event>, id: string, d: int)
    requires Sane(start) && Awaits(start, id, d) && LeftAlone(start, more, id)
    ensures var w := StateAfter(start, more); Sane(w) && id in w.used && (id !in w.users || Awaits(w, id, d))
  {
    if more != [] {
      var init, e := more[..|more| - 1], more[|more| - 1];
      forall j | 0 <= j < |init|
        ensures !Reactivates(StateAfter(start, init[..j]), init[j], id) && init[j] != Enrol(id)
      {
        assert init[..j] == more[..j];
      }
      StillAwaitsAfter(start, init, id, d);
      var w := StateAfter(start, init);
      StepIsSane(w, e);
      if id in w.users {
        StillAwaits(w, e, id, d);
      } else {
        StepRevivesNobody(w, e, id);
      }
    }
  }

  /**
   A granted request is carried out. Whatever else happens, unless the account is reactivated or
   re-enrolled, a purge that lists it deletes it exactly if seven days have passed since the request,
   or it is gone already.
   */
  lemma RequestIsCarriedOut(start: World, id: string, now: int, more: seq<Event>, job: nat, listed: int)
    requires Sane(start) && Decide(start.users, id, now).Scheduled?
    requires LeftAlone(Step(start, RequestDeletion(id, now)), more, id)
    ensures var w := StateAfter(Step(start, RequestDeletion(id, now)), more);
      id in Step(Step(w, ListDue(job, listed)), PurgeOne(job, id)).users
      <==> id in w.users && listed < now + 7 * 24 * 60 * 60 * 1000
  {
    var asked := Step(start, RequestDeletion(id, now));
    StepIsSane(start, RequestDeletion(id, now));
    StillAwaitsAfter(asked, more, id, now + GRACE_MS);
    var w := StateAfter(asked, more);
    assert id in DueAt(w.users, listed) <==> id in w.users && now + GRACE_MS <= listed;
  }

  /**
   * Re-enrolling does not cancel a deletion: accepting a reset link makes the account active and
   * leaves its date. Once that date has passed, a suspension hands the account to the next purge.
   */
  lemma EnrolLeavesTheDate(w: World, actor: string, id: string, now: int)
    requires id in w.users && w.users[id].deleteAfter.Some? && w.users[id].deleteAfter.value <= now
    requires !w.users[id].kind.Owner? && actor != id && 0 !in w.pending
    ensures id in Step(w, Enrol(id)).users && Step(w, Enrol(id)).users[id].status.Active?
    ensures id !in DueAt(Step(w, Enrol(id)).users, now)
    ensures var suspended := Step(Step(Step(w, Enrol(id)), Begin(0, actor, id, Suspend, false)), Finish(0));
      id !in Step(Step(suspended, ListDue(0, now)), PurgeOne(0, id)).users
  {
    var enrolled := Step(w, Enrol(id));
    var begun := Step(enrolled, Begin(0, actor, id, Suspend, false));
    assert begun.pending[0] == Pending(id, Suspend);
    var suspended := Step(begun, Finish(0));
    assert suspended.users[id] == Account(w.users[id].kind, Suspended, w.users[id].deleteAfter);
    ListedIsPurged(suspended, id, now);
  }

  lemma ListedIsPurged(w: World, id: string, now: int)
    requires id in w.users && IsDue(w.users[id], now)
    ensures id !in Step(Step(w, ListDue(0, now)), PurgeOne(0, id)).users
  {
    assert id in DueAt(w.users, now);
  }
}

/** The import of the administrative state, seen as a step of account life. */
module AccountImports {
  import opened Common
  import Accounts
  import State = AdminState
  import Plan = ImportPlan

  function AccountOf(p: State.Person, date: Option<int>): Accounts.Account {
    Accounts.Account(p.kind, p.status, date)
  }

  function ImportedOf(p: State.Person): Accounts.Imported {
    Accounts.Imported(p.kind.Admin?, p.status.Suspended?)
  }

  /**
   * The account table of an instance: `emails` is its email column, by account id, and `dates` the
   * deletion dates some accounts carry.
   */
  function AccountsOf(
        people: map<string, State.Person>, emails: map<string, string>, dates: map<string, int>): Accounts.Users {
    map i | i in emails && emails[i] in people ::
      AccountOf(people[emails[i]], if i in dates then Some(dates[i]) else None)
  }

  /** Who an import named, as the account step sees them. */
  function NamedBy(
        after: map<string, State.Person>, listed: set<string>,
        emails: map<string, string>): map<string, Accounts.Imported> {
    map i | i in emails && emails[i] in listed && emails[i] in after :: ImportedOf(after[emails[i]])
  }

  /**
   * What an import may do to one person: nothing if it does not list them, and never make or unmake
   * an owner, change a status, or create somebody active.
   */
  ghost predicate Moves(was: Option<State.Person>, now: State.Person, listed: bool) {
    && (now.kind.Owner? <==> was.Some? && was.value.kind.Owner?)
    && (if was.Some? then now.status == was.value.status else !now.status.Active?)
    && (!listed ==> was == Some(now))
  }

  lemma ImportMoves(s: State.Instance, f: State.File, e: string)
    requires e in State.Import(s, f).people
    ensures Moves(State.Lookup(s.people, e), State.Import(s, f).people[e], e in Plan.Emails(f.people))
  {
    Plan.PeopleKeys(s, f);
    Plan.NoPrivilegeRaise(s, f, e);
    Plan.UnnamedRowsAreUntouched(s, f, e);
  }

  /** That is what the account step does to them. */
  lemma OnePerson(was: Option<State.Person>, now: State.Person, listed: bool, date: Option<int>)
    requires Moves(was, now, listed) && (was.Some? || date.None?)
    ensures var account := if was.Some? then Some(AccountOf(was.value, date)) else None;
      && (listed ==> AccountOf(now, date) == Accounts.ImportedAccount(account, ImportedOf(now)))
      && (!listed ==> Some(AccountOf(now, date)) == account)
  {
  }

  lemma TablesAgree(
        before: map<string, State.Person>, after: map<string, State.Person>, listed: set<string>,
        emails: map<string, string>, dates: map<string, int>)
    requires after.Keys == before.Keys + listed
    requires forall e :: e in after ==> Moves(State.Lookup(before, e), after[e], e in listed)
    requires forall i :: i in dates ==> i in emails && emails[i] in before
    ensures AccountsOf(after, emails, dates)
      == Accounts.Imports(AccountsOf(before, emails, dates), NamedBy(after, listed, emails))
  {
    forall i | i in emails && emails[i] in after
      ensures AccountsOf(after, emails, dates)[i]
        == Accounts.Imports(AccountsOf(before, emails, dates), NamedBy(after, listed, emails))[i]
    {
      var e := emails[i];
      OnePerson(State.Lookup(before, e), after[e], e in listed, if i in dates then Some(dates[i]) else None);
    }
  }

  /**
   * Every import of every file is an import step of `Accounts`, whatever the ids: what is proved of
   * all runs covers it. People the file invents get ids that no account had before.
   */
  lemma ImportIsAnAccountStep(
        w: Accounts.World, s: State.Instance, f: State.File, emails: map<string, string>, dates: map<string, int>)
    requires w.users == AccountsOf(s.people, emails, dates)
    requires forall i :: i in dates ==> i in emails && emails[i] in s.people
    requires forall i :: i in emails && emails[i] !in s.people ==> i !in w.used
    ensures var after := State.Import(s, f).people;
      var named := NamedBy(after, State.Elements(Plan.Emails(f.people)), emails);
      Accounts.Step(w, Accounts.Import(named)).users == AccountsOf(after, emails, dates)
  {
    var after, listed := State.Import(s, f).people, State.Elements(Plan.Emails(f.people));
    Plan.PeopleKeys(s, f);
    forall e | e in after ensures Moves(State.Lookup(s.people, e), after[e], e in listed) {
      ImportMoves(s, f, e);
    }
    TablesAgree(s.people, after, listed, emails, dates);
    var named := NamedBy(after, listed, emails);
    forall i | i in named && i in w.used ensures i in w.users {
      assert emails[i] in s.people;
    }
  }
}

/** The user table, updated in place. */
module AccountStores {
  import opened Common
  import opened People
  import opened Accounts

  class AccountStore {
    var users: Users
    var purgedIds: seq<string>

    constructor (users: Users)
      ensures this.users == users && purgedIds == []
    {
      this.users, purgedIds := users, [];
    }

    /** `ids` lists the table; the count of other owners is one pass over it. */
    method OtherActiveOwners(id: string, ids: seq<string>) returns (n: nat)
      requires forall x :: x in users <==> x in ids
      ensures n > 0 <==> OtherOwner(users, id)
    {
      n := 0;
      for k := 0 to |ids|
        invariant n > 0 <==> exists j :: 0 <= j < k && ids[j] != id && IsActiveOwner(users[ids[j]])
      {
        if ids[k] != id && IsActiveOwner(users[ids[k]]) {
          n := n + 1;
        }
      }
      if n > 0 {
        var j :| 0 <= j < |ids| && ids[j] != id && IsActiveOwner(users[ids[j]]);
        assert ids[j] in users;
      }
      if OtherOwner(users, id) {
        var other :| other in users && other != id && IsActiveOwner(users[other]);
        assert other in ids;
      }
    }

    method RequestDeletion(id: string, now: int, ids: seq<string>) returns (d: Deletion)
      requires forall x :: x in users <==> x in ids
      modifies this`users
      ensures users == Requested(old(users), id, now) && d == Decide(old(users), id, now)
    {
      if id !in users || !users[id].status.Active? {
        return Gone;
      }
      if users[id].kind.Owner? {
        var others := OtherActiveOwners(id, ids);
        if others == 0 {
          return LastOwner;
        }
      }
      users := users[id := users[id].(status := Suspended, deleteAfter := Some(now + GRACE_MS))];
      d := Scheduled(now + GRACE_MS);
    }

    /** One conditional delete of the purge, with its audit row. */
    method PurgeOne(id: string, now: int) returns (gone: bool)
      modifies this
      ensures users == Purged(old(users), id, now)
      ensures gone == (id in old(users) && IsDue(old(users)[id], now))
      ensures purgedIds == if gone then old(purgedIds) + [id] else old(purgedIds)
    {
      gone := false;
      if id in users && IsDue(users[id], now) {
        users := users - {id};
        purgedIds := purgedIds + [id];
        gone := true;
      }
    }

    /** The daily purge over the list it read: exactly the due accounts go, each with one audit row. */
    method PurgeDeletedAccounts(due: seq<string>, now: int) returns (purged: nat)
      requires forall i, j :: 0 <= i < j < |due| ==> due[i] != due[j]
      requires forall x :: x in due <==> x in DueAt(users, now)
      modifies this
      ensures users == old(users) - DueAt(old(users), now)
      ensures DueAt(users, now) == {}
      ensures purged == |due| && purgedIds == old(purgedIds) + due
    {
      purged := 0;
      for k := 0 to |due|
        invariant purged == k && purgedIds == old(purgedIds) + due[..k]
        invariant users == old(users) - Among(due, k)
      {
        assert due[k] in due && due[k] !in Among(due, k);
        var gone := PurgeOne(due[k], now);
        purged := purged + 1;
        assert due[..k + 1] == due[..k] + [due[k]];
        assert Among(due, k + 1) == Among(due, k) + {due[k]};
      }
      assert due[..|due|] == due;
      assert Among(due, |due|) == DueAt(old(users), now);
    }

    method Act(actor: string, id: string, action: Action, factor: bool) returns (refused: Option<Refusal>)
      modifies this`users
      ensures refused == Check(old(users), actor, id, action, factor)
      ensures users == if refused.None? then Written(old(users), id, action) else old(users)
    {
      if action == SetKind(Owner) {
        return Some(InvalidKind);
      }
      if id !in users {
        return Some(NotFound);
      }
      if !action.SetKind? && id == actor {
        return Some(NotYourself);
      }
      var found := users[id];
      if found.kind.Owner? {
        return Some(OwnerProtected);
      }
      if action == SetKind(Admin) && !factor {
        return Some(FactorRequired);
      }
      match action {
        case Suspend => users := users[id := found.(status := Suspended)];
        case Reactivate => users := users[id := found.(status := Active, deleteAfter := None)];
        case Reset =>
        case SetKind(k) => users := users[id := found.(kind := k)];
      }
      refused := None;
    }
  }

  function Among(ids: seq<string>, k: nat): set<string>
    requires k <= |ids|
  {
    set x | x in ids[..k]
  }
}
