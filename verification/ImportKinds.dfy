/**
 What an import makes of people, said by the tables and the file alone: which kinds it grants, which
 it refuses, and that the plan lists exactly the refusals.
 */
module ImportKinds {
  import opened Common
  import opened People
  import opened AdminState
  import opened ImportIdempotence
  import opened ImportPlan

  predicate OwnerNow(people: map<string, Person>, email: string) {
    email in people && people[email].kind == Owner
  }

  /** Anybody may be a guest; an admin is somebody who is here and holds a verified factor. */
  predicate MayBe(people: map<string, Person>, email: string, kind: Kind) {
    kind == Guest || (kind == Admin && email in people && people[email].factors > 0)
  }

  /** When an entry of this kind draws this refusal. */
  ghost predicate Refuses(people: map<string, Person>, email: string, kind: Kind, p: Problem) {
    match p
    case OwnerHere(_) => OwnerNow(people, email) && kind != Owner
    case OwnerInFile(_) => !OwnerNow(people, email) && kind == Owner
    case AdminWithoutFactor(_) => !OwnerNow(people, email) && kind == Admin && !MayBe(people, email, Admin)
    case _ => false
  }

  function ProblemOf(people: map<string, Person>, e: PersonEntry): Option<Problem> {
    KindProblem(Lookup(people, e.email), e)
  }

  lemma RefusalOf(people: map<string, Person>, e: PersonEntry, p: Problem)
    requires p.OwnerHere? || p.OwnerInFile? || p.AdminWithoutFactor?
    ensures ProblemOf(people, e) == Some(p) <==> e.email == p.email && Refuses(people, e.email, e.kind, p)
  {
  }

  lemma {:induction false} RefusalsExactly(people: map<string, Person>, es: seq<PersonEntry>, p: Problem)
    requires p.OwnerHere? || p.OwnerInFile? || p.AdminWithoutFactor?
    ensures p in KindProblems(people, es)
      <==> exists i :: 0 <= i < |es| && es[i].email == p.email && Refuses(people, p.email, es[i].kind, p)
  {
    if es != [] {
      var front, e := es[..|es| - 1], es[|es| - 1];
      RefusalsExactly(people, front, p);
      RefusalOf(people, e, p);
      var before := KindProblems(people, front);
      assert p in KindProblems(people, es) <==> p in before || ProblemOf(people, e) == Some(p);
      if i :| 0 <= i < |front| && front[i].email == p.email && Refuses(people, p.email, front[i].kind, p) {
        assert es[i] == front[i];
      }
    }
  }

  /** A plan lists a kind problem exactly for an entry that asks the kind in question of that person. */
  lemma PlannedRefusals(s: Instance, f: File, p: Problem)
    requires p.OwnerHere? || p.OwnerInFile? || p.AdminWithoutFactor?
    ensures p in PlanOf(s, f).problems <==> var es := f.people;
      exists i :: 0 <= i < |es| && es[i].email == p.email && Refuses(s.people, p.email, es[i].kind, p)
  {
    var apps, known := Elements(AppIds(f.apps)) + s.apps.Keys, s.people.Keys + Elements(Emails(f.people));
    InProblems(s, f, p);
    RefusalsExactly(s.people, f.people, p);
    PresetProblemsAreReal(f.apps, p);
    if p in PeopleProblems(f.people, apps) { PersonProblemsAreReal(f.people, apps, p); }
    if p in GroupProblems(f.groups, known, apps) { GroupProblemsAreReal(f.groups, known, apps, p); }
  }

  /** The last entry that asks this person a kind they may be. */
  ghost predicate LastGrantable(people: map<string, Person>, es: seq<PersonEntry>, i: nat, email: string) {
    && i < |es| && es[i].email == email && MayBe(people, email, es[i].kind)
    && forall j :: i < j < |es| && es[j].email == email ==> !MayBe(people, email, es[j].kind)
  }

  /** An owner, or somebody no entry asks a kind of that they may be. */
  ghost predicate NothingGranted(people: map<string, Person>, es: seq<PersonEntry>, email: string) {
    OwnerNow(people, email) || forall i :: 0 <= i < |es| ==> !LastGrantable(people, es, i, email)
  }

  /** Somebody who is no owner gets the kind asked by the last entry whose kind they may be. */
  lemma {:induction false} GrantedKind(people: map<string, Person>, es: seq<PersonEntry>, i: nat, email: string)
    requires !OwnerNow(people, email) && LastGrantable(people, es, i, email)
    ensures Lookup(DecideKinds(people, es), email) == Some(es[i].kind)
  {
    var front := es[..|es| - 1];
    if i < |front| {
      assert LastGrantable(people, front, i, email);
      GrantedKind(people, front, i, email);
      if es[|es| - 1].email == email && email !in people {
        assert es[i].kind == Guest;
      }
    }
  }

  /** Without such an entry a person who is here keeps their kind, and one who is not becomes a guest. */
  lemma {:induction false} NoGrantedKind(people: map<string, Person>, es: seq<PersonEntry>, email: string)
    requires NothingGranted(people, es, email)
    ensures var kind := Lookup(DecideKinds(people, es), email);
      kind == if email !in people && Named(es, email) then Some(Guest) else None
  {
    KindsAreDecided(people, es, email);
    KindForCases(Lookup(people, email), es, email);
    if !OwnerNow(people, email) && email in people {
      NobodyGrantable(people, es, email);
      NothingDecided(people, es, email);
    }
  }

  /** If no entry is the last grantable one, none is grantable at all. */
  lemma {:induction false} NobodyGrantable(people: map<string, Person>, es: seq<PersonEntry>, email: string)
    requires forall i :: 0 <= i < |es| ==> !LastGrantable(people, es, i, email)
    ensures forall i :: 0 <= i < |es| && es[i].email == email ==> !MayBe(people, email, es[i].kind)
  {
    if i :| 0 <= i < |es| && es[i].email == email && MayBe(people, email, es[i].kind) {
      GrantableHasLast(people, es, i, email);
    }
  }

  lemma {:induction false} GrantableHasLast(people: map<string, Person>, es: seq<PersonEntry>, i: nat, email: string)
    requires i < |es| && es[i].email == email && MayBe(people, email, es[i].kind)
    ensures exists k :: 0 <= k < |es| && LastGrantable(people, es, k, email)
    decreases |es| - i
  {
    if !LastGrantable(people, es, i, email) {
      var j :| i < j < |es| && es[j].email == email && MayBe(people, email, es[j].kind);
      GrantableHasLast(people, es, j, email);
    }
  }

  lemma {:induction false} NothingDecided(people: map<string, Person>, es: seq<PersonEntry>, email: string)
    requires email in people
    requires forall i :: 0 <= i < |es| && es[i].email == email ==> !MayBe(people, email, es[i].kind)
    ensures Lookup(DecideKinds(people, es), email) == None
  {
    if es != [] {
      NothingDecided(people, es[..|es| - 1], email);
      assert es[|es| - 1].email == email ==> !MayBe(people, email, es[|es| - 1].kind);
    }
  }

  // ---------------------------------------------------------------- over a whole import

  /**
   The kind everybody ends with: the one asked by the last entry whose kind they may be, and without
   such an entry, or for an owner, the one they had; somebody new is a guest.
   */
  lemma KindAfterImport(s: Instance, f: File, email: string)
    requires email in Import(s, f).people
    ensures !OwnerNow(s.people, email) ==>
      forall i :: 0 <= i < |f.people| && LastGrantable(s.people, f.people, i, email) ==>
        Import(s, f).people[email].kind == f.people[i].kind
    ensures NothingGranted(s.people, f.people, email) ==>
      Import(s, f).people[email].kind == if email in s.people then s.people[email].kind else Guest
  {
    KindsAreAsPlanned(s, f, email);
    if !OwnerNow(s.people, email) {
      forall i | 0 <= i < |f.people| && LastGrantable(s.people, f.people, i, email)
        ensures Lookup(DecideKinds(s.people, f.people), email) == Some(f.people[i].kind)
      {
        GrantedKind(s.people, f.people, i, email);
      }
    }
    if NothingGranted(s.people, f.people, email) {
      NoGrantedKind(s.people, f.people, email);
    }
  }

  predicate Refused(plan: Plan, email: string) {
    || OwnerHere(email) in plan.problems
    || OwnerInFile(email) in plan.problems
    || AdminWithoutFactor(email) in plan.problems
  }

  predicate LastNaming(es: seq<PersonEntry>, i: nat, email: string) {
    i < |es| && es[i].email == email && forall j :: i < j < |es| ==> es[j].email != email
  }

  /** Nobody is refused in silence: whom the plan lists no kind problem for has the kind their last entry asks. */
  lemma UnrefusedKindsAreGranted(s: Instance, f: File, email: string, i: nat)
    requires LastNaming(f.people, i, email) && !Refused(PlanOf(s, f), email)
    ensures email in Import(s, f).people && Import(s, f).people[email].kind == f.people[i].kind
  {
    var e := f.people[i];
    PeopleKeys(s, f);
    assert Emails(f.people)[i] == email;
    KindAfterImport(s, f, email);
    var problem := if OwnerNow(s.people, email) then OwnerHere(email)
      else if e.kind == Owner then OwnerInFile(email) else AdminWithoutFactor(email);
    PlannedRefusals(s, f, problem);
    if !OwnerNow(s.people, email) {
      assert MayBe(s.people, email, e.kind);
      assert LastGrantable(s.people, f.people, i, email);
    }
  }

  /** A guest here with a factor, whom the file makes an admin, is one afterwards; without a factor, still a guest. */
  lemma AdminByImport(s: Instance, f: File, e: PersonEntry)
    requires f == File([], [e], []) && e.kind == Admin && e.email in s.people && s.people[e.email].kind == Guest
    ensures var kind := Import(s, f).people[e.email].kind;
      kind == if s.people[e.email].factors > 0 then Admin else Guest
    ensures AdminWithoutFactor(e.email) in PlanOf(s, f).problems <==> s.people[e.email].factors == 0
  {
    PeopleKeys(s, f);
    assert Emails(f.people)[0] == e.email;
    KindAfterImport(s, f, e.email);
    PlannedRefusals(s, f, AdminWithoutFactor(e.email));
    assert LastGrantable(s.people, f.people, 0, e.email) <==> s.people[e.email].factors > 0;
  }
}
