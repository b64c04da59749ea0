/**
 The plan an operator is shown before an import, what the import may never do, and that the plan
 and the import agree about every person, app and group.
 */
module ImportPlan {
  import opened Common
  import opened People
  import opened AdminState
  import opened ImportIdempotence

  datatype Holder = APerson(email: string) | AGroup(name: string)

  datatype Problem =
    | PresetUnknown(clientId: string, key: string)
    | OwnerHere(email: string)
    | OwnerInFile(email: string)
    | AdminWithoutFactor(email: string)
    | GrantUnknown(holder: Holder, clientId: string)
    | MemberUnknown(name: string, email: string)

  datatype Split = Split(create: seq<string>, update: seq<string>)

  datatype Plan = Plan(
    apps: Split, people: Split, groups: Split, secretPending: seq<string>, needsReEnrolment: seq<string>,
    problems: seq<Problem>, kinds: map<string, Kind>)

  /** The presets this version can build a paste sheet from. */
  const PRESETS: set<string> := {"bindery", "constellation", "immich"}

  function AppIds(es: seq<AppEntry>): (r: seq<string>) { seq(|es|, i requires 0 <= i < |es| => es[i].clientId) }
  function Emails(es: seq<PersonEntry>): (r: seq<string>) { seq(|es|, i requires 0 <= i < |es| => es[i].email) }
  function GroupNames(es: seq<GroupEntry>): (r: seq<string>) { seq(|es|, i requires 0 <= i < |es| => es[i].name) }

  /** The keys of a file's entries that are, or are not, already here. */
  function Those(keys: seq<string>, here: set<string>, present: bool): (r: seq<string>)
    ensures forall k :: k in r <==> k in keys && (k in here) == present
  {
    if keys == [] then []
    else
      var front, last := keys[..|keys| - 1], keys[|keys| - 1];
      assert forall k :: k in keys <==> k in front || k == last;
      Those(front, here, present) + if (last in here) == present then [last] else []
  }

  function SplitBy(keys: seq<string>, here: set<string>): Split {
    Split(Those(keys, here, false), Those(keys, here, true))
  }

  function GrantProblems(holder: Holder, es: seq<GrantEntry>, apps: set<string>): (r: seq<Problem>)
    ensures forall p ::
      p in r <==> exists i :: 0 <= i < |es| && es[i].clientId !in apps && p == GrantUnknown(holder, es[i].clientId)
  {
    if es == [] then []
    else
      var front, last := es[..|es| - 1], es[|es| - 1];
      var mine := if last.clientId in apps then [] else [GrantUnknown(holder, last.clientId)];
      var r := GrantProblems(holder, front, apps) + mine;
      assert forall i :: 0 <= i < |front| ==> front[i] == es[i];
      r
  }

  function MemberProblems(name: string, members: seq<string>, known: set<string>): (r: seq<Problem>)
    ensures forall p :: p in r <==> exists m :: m in members && m !in known && p == MemberUnknown(name, m)
  {
    if members == [] then []
    else
      var front, last := members[..|members| - 1], members[|members| - 1];
      assert forall m :: m in members <==> m in front || m == last;
      MemberProblems(name, front, known) + if last in known then [] else [MemberUnknown(name, last)]
  }

  function PeopleProblems(es: seq<PersonEntry>, apps: set<string>): seq<Problem> {
    if es == [] then []
    else
      var e := es[|es| - 1];
      PeopleProblems(es[..|es| - 1], apps) + GrantProblems(APerson(e.email), e.grants, apps)
  }

  function GroupProblems(es: seq<GroupEntry>, known: set<string>, apps: set<string>): seq<Problem> {
    if es == [] then []
    else
      var e := es[|es| - 1];
      GroupProblems(es[..|es| - 1], known, apps)
      + MemberProblems(e.name, e.members, known) + GrantProblems(AGroup(e.name), e.grants, apps)
  }

  function KindProblem(current: Option<Person>, e: PersonEntry): Option<Problem> {
    if current.Some? && current.value.kind == Owner then if e.kind != Owner then Some(OwnerHere(e.email)) else None
    else if e.kind == Owner then Some(OwnerInFile(e.email))
    else if e.kind == Admin && (current.None? || current.value.factors == 0) then Some(AdminWithoutFactor(e.email))
    else None
  }

  function KindProblems(people: map<string, Person>, es: seq<PersonEntry>): seq<Problem> {
    if es == [] then []
    else
      var e := es[|es| - 1];
      var p := KindProblem(Lookup(people, e.email), e);
      KindProblems(people, es[..|es| - 1]) + if p.Some? then [p.value] else []
  }

  function SecretPending(apps: map<string, App>, es: seq<AppEntry>): seq<string> {
    if es == [] then []
    else
      var e := es[|es| - 1];
      var hashed := e.clientId in apps && apps[e.clientId].secretHash.Some?;
      var pending := e.profile.clientType == ConfidentialWeb && !hashed;
      SecretPending(apps, es[..|es| - 1]) + if pending then [e.clientId] else []
  }

  function PresetProblems(es: seq<AppEntry>): seq<Problem> {
    if es == [] then []
    else
      var e := es[|es| - 1];
      var unknown := e.preset.Some? && e.preset.value.key !in PRESETS;
      PresetProblems(es[..|es| - 1]) + if unknown then [PresetUnknown(e.clientId, e.preset.value.key)] else []
  }

  /** Everybody in the file who has nothing here to sign in with. */
  function ReEnrolments(people: map<string, Person>, es: seq<PersonEntry>): seq<string> {
    if es == [] then []
    else
      var e := es[|es| - 1];
      var able := e.email in people && people[e.email].credentials;
      ReEnrolments(people, es[..|es| - 1]) + if able then [] else [e.email]
  }

  function PlanOf(s: Instance, f: File): Plan {
    var apps := Elements(AppIds(f.apps)) + s.apps.Keys;
    var known := s.people.Keys + Elements(Emails(f.people));
    Plan(SplitBy(AppIds(f.apps), s.apps.Keys), SplitBy(Emails(f.people), s.people.Keys),
         SplitBy(GroupNames(f.groups), s.groups.Keys),
         SecretPending(s.apps, f.apps), ReEnrolments(s.people, f.people),
         PresetProblems(f.apps) + PeopleProblems(f.people, apps)
         + GroupProblems(f.groups, known, apps) + KindProblems(s.people, f.people),
         DecideKinds(s.people, f.people))
  }

  // ---------------------------------------------------------------- which rows exist afterwards

  lemma {:induction false} AppsOnlyGrow(apps: map<string, App>, es: seq<AppEntry>)
    ensures ImportApps(apps, es).Keys == apps.Keys + Elements(AppIds(es))
  {
    if es != [] {
      AppsOnlyGrow(apps, es[..|es| - 1]);
      assert AppIds(es) == AppIds(es[..|es| - 1]) + [es[|es| - 1].clientId];
    }
  }

  lemma {:induction false} GroupsOnlyGrow(
        groups: map<string, Group>, apps: map<string, App>, known: set<string>, es: seq<GroupEntry>)
    ensures ImportGroups(groups, apps, known, es).Keys == groups.Keys + Elements(GroupNames(es))
  {
    if es != [] {
      GroupsOnlyGrow(groups, apps, known, es[..|es| - 1]);
      assert GroupNames(es) == GroupNames(es[..|es| - 1]) + [es[|es| - 1].name];
    }
  }

  lemma PeopleKeys(s: Instance, f: File)
    ensures Import(s, f).people.Keys == s.people.Keys + Elements(Emails(f.people))
  {
    PeopleOnlyGrow(s.people, Import(s, f).apps, DecideKinds(s.people, f.people), f.people);
    var es := f.people;
    assert forall i :: 0 <= i < |es| ==> Emails(es)[i] == es[i].email;
    assert (set i | 0 <= i < |es| :: es[i].email) == Elements(Emails(es));
  }

  /** Nothing is removed, and the rows that appear are exactly the ones the plan lists as created. */
  lemma CreatesWhatThePlanSays(s: Instance, f: File)
    ensures var plan, t := PlanOf(s, f), Import(s, f);
      && t.apps.Keys == s.apps.Keys + Elements(plan.apps.create) && s.apps.Keys !! Elements(plan.apps.create)
      && t.people.Keys == s.people.Keys + Elements(plan.people.create) && s.people.Keys !! Elements(plan.people.create)
      && t.groups.Keys == s.groups.Keys + Elements(plan.groups.create) && s.groups.Keys !! Elements(plan.groups.create)
  {
    var t := Import(s, f);
    AppsOnlyGrow(s.apps, f.apps);
    PeopleKeys(s, f);
    GroupsOnlyGrow(s.groups, t.apps, t.people.Keys, f.groups);
  }

  /** Every row the file names is listed as created or as updated, by whether it is here already. */
  lemma ListsEveryNamedRow(s: Instance, f: File, key: string)
    ensures var plan := PlanOf(s, f);
      && (key in plan.apps.create <==> key in AppIds(f.apps) && key !in s.apps)
      && (key in plan.apps.update <==> key in AppIds(f.apps) && key in s.apps)
      && (key in plan.people.create <==> key in Emails(f.people) && key !in s.people)
      && (key in plan.people.update <==> key in Emails(f.people) && key in s.people)
      && (key in plan.groups.create <==> key in GroupNames(f.groups) && key !in s.groups)
      && (key in plan.groups.update <==> key in GroupNames(f.groups) && key in s.groups)
  {
  }

  lemma NamedMeansListed(es: seq<PersonEntry>, email: string)
    ensures Named(es, email) <==> email in Emails(es)
  {
    if Named(es, email) {
      var i :| 0 <= i < |es| && es[i].email == email;
      assert Emails(es)[i] == email;
    }
    if email in Emails(es) {
      var i :| 0 <= i < |es| && Emails(es)[i] == email;
    }
  }

  /** Everybody ends with exactly the kind the plan reported, and with the kind they had if it reported none. */
  lemma KindsAreAsPlanned(s: Instance, f: File, email: string)
    requires email in Import(s, f).people
    ensures var plan, t := PlanOf(s, f), Import(s, f);
      if email in plan.kinds then t.people[email].kind == plan.kinds[email]
      else email in s.people && t.people[email].kind == s.people[email].kind
  {
    var kinds := DecideKinds(s.people, f.people);
    PeopleArePatched(s.people, Import(s, f).apps, kinds, f.people, email);
    KindsAreDecided(s.people, f.people, email);
    KindForCases(Lookup(s.people, email), f.people, email);
    if !Named(f.people, email) {
      KindForUnnamed(Lookup(s.people, email), f.people, email);
    }
  }

  // ---------------------------------------------------------------- what a file can never do

  /**
   An import makes nobody an owner or stops them being one, makes an admin only of somebody who was
   one or holds a verified factor here, never changes a status, and activates nobody.
   */
  lemma NoPrivilegeRaise(s: Instance, f: File, email: string)
    requires email in Import(s, f).people
    ensures var t := Import(s, f).people[email];
      && (t.kind == Owner <==> email in s.people && s.people[email].kind == Owner)
      && (t.kind == Admin ==> email in s.people && (s.people[email].kind == Admin || s.people[email].factors > 0))
      && (email in s.people ==> t.status == s.people[email].status && t.factors == s.people[email].factors)
      && (email !in s.people ==> t.status != Active && t.kind == Guest && t.factors == 0)
  {
    var apps, kinds := Import(s, f).apps, DecideKinds(s.people, f.people);
    PeopleArePatched(s.people, apps, kinds, f.people, email);
    KindsAreDecided(s.people, f.people, email);
    KindForCases(Lookup(s.people, email), f.people, email);
    PatchStatus(apps, f.people, email, Lookup(kinds, email));
  }

  lemma {:induction false} PatchStatus(apps: map<string, App>, es: seq<PersonEntry>, email: string, kind: Option<Kind>)
    ensures var p := PersonPatches(apps, es, email, kind); p.Some? ==> p.value.status != Active
  {
    if es != [] { PatchStatus(apps, es[..|es| - 1], email, kind); }
  }

  /** Rows the file does not name are left exactly as they were. */
  lemma UnnamedRowsAreUntouched(s: Instance, f: File, key: string)
    ensures var t := Import(s, f);
      && (key !in AppIds(f.apps) ==> Lookup(t.apps, key) == Lookup(s.apps, key))
      && (key !in Emails(f.people) ==> Lookup(t.people, key) == Lookup(s.people, key))
      && (key !in GroupNames(f.groups) ==> Lookup(t.groups, key) == Lookup(s.groups, key))
  {
    var t := Import(s, f);
    var kinds := DecideKinds(s.people, f.people);
    AppsArePatched(s.apps, f.apps, key);
    PeopleArePatched(s.people, t.apps, kinds, f.people, key);
    GroupsArePatched(s.groups, t.apps, t.people.Keys, f.groups, key);
    NamedMeansListed(f.people, key);
    AppPatchNamed(f.apps, key);
    GroupPatchNamed(t.apps, t.people.Keys, f.groups, key);
  }

  lemma {:induction false} AppPatchNamed(es: seq<AppEntry>, id: string)
    ensures AppPatches(es, id).Some? <==> id in AppIds(es)
  {
    if es != [] {
      AppPatchNamed(es[..|es| - 1], id);
      assert AppIds(es) == AppIds(es[..|es| - 1]) + [es[|es| - 1].clientId];
    }
  }

  lemma {:induction false} GroupPatchNamed(
        apps: map<string, App>, known: set<string>, es: seq<GroupEntry>, name: string)
    ensures GroupPatches(apps, known, es, name).Some? <==> name in GroupNames(es)
  {
    if es != [] {
      GroupPatchNamed(apps, known, es[..|es| - 1], name);
      assert GroupNames(es) == GroupNames(es[..|es| - 1]) + [es[|es| - 1].name];
    }
  }

  // ---------------------------------------------------------------- references

  ghost predicate GrantsFit(grants: Grants, apps: map<string, App>) {
    forall id :: id in grants ==> id in apps && grants[id] <= apps[id].roles.Keys
  }

  ghost predicate PeopleFit(people: map<string, Person>, apps: map<string, App>) {
    forall email :: email in people ==> GrantsFit(people[email].grants, apps)
  }

  ghost predicate GroupsFit(groups: map<string, Group>, apps: map<string, App>, known: set<string>) {
    forall name :: name in groups ==> GrantsFit(groups[name].grants, apps) && groups[name].members <= known
  }

  /** Every grant names an app here and roles that app declares; every member is somebody here. */
  ghost predicate Consistent(s: Instance) {
    PeopleFit(s.people, s.apps) && GroupsFit(s.groups, s.apps, s.people.Keys)
  }

  ghost predicate AppsGrow(before: map<string, App>, after: map<string, App>) {
    forall id :: id in before ==> id in after && before[id].roles.Keys <= after[id].roles.Keys
  }

  lemma ImportGrowsApps(apps: map<string, App>, es: seq<AppEntry>)
    ensures AppsGrow(apps, ImportApps(apps, es))
  {
    forall id | id in apps
      ensures id in ImportApps(apps, es) && apps[id].roles.Keys <= ImportApps(apps, es)[id].roles.Keys
    {
      AppsArePatched(apps, es, id);
    }
  }

  /** Of the grants a list names, those held afterwards are the ones whose app exists. */
  ghost predicate HeldIfKnown(grants: Grants, apps: map<string, App>, es: seq<GrantEntry>) {
    forall i :: 0 <= i < |es| ==> (es[i].clientId in grants <==> es[i].clientId in apps)
  }

  lemma {:induction false} GrantKeys(grants: Grants, apps: map<string, App>, es: seq<GrantEntry>)
    requires GrantsFit(grants, apps)
    ensures var r := ImportGrants(grants, apps, es);
      GrantsFit(r, apps) && grants.Keys <= r.Keys && HeldIfKnown(r, apps, es)
  {
    if es != [] {
      GrantKeys(grants, apps, es[..|es| - 1]);
      assert forall i :: 0 <= i < |es| - 1 ==> es[i] == es[..|es| - 1][i];
    }
  }

  lemma PersonFits(was: Option<Person>, apps: map<string, App>, e: PersonEntry, kind: Option<Kind>)
    requires was.Some? ==> GrantsFit(was.value.grants, apps)
    ensures var r := ImportedPerson(was, apps, e, kind).grants; GrantsFit(r, apps) && HeldIfKnown(r, apps, e.grants)
    ensures was.Some? ==> was.value.grants.Keys <= ImportedPerson(was, apps, e, kind).grants.Keys
  {
    GrantKeys(if was.Some? then was.value.grants else map[], apps, e.grants);
  }

  lemma {:induction false} PeopleStayConsistent(
        people: map<string, Person>, apps: map<string, App>, kinds: map<string, Kind>, es: seq<PersonEntry>)
    requires PeopleFit(people, apps)
    ensures PeopleFit(ImportPeople(people, apps, kinds, es), apps)
  {
    if es != [] {
      var front, e := es[..|es| - 1], es[|es| - 1];
      PeopleStayConsistent(people, apps, kinds, front);
      PersonFits(Lookup(ImportPeople(people, apps, kinds, front), e.email), apps, e, Lookup(kinds, e.email));
    }
  }

  lemma {:induction false} PersonGrantsHeld(
        people: map<string, Person>, apps: map<string, App>, kinds: map<string, Kind>, es: seq<PersonEntry>, i: nat)
    requires PeopleFit(people, apps) && i < |es|
    ensures var r := ImportPeople(people, apps, kinds, es);
      es[i].email in r && HeldIfKnown(r[es[i].email].grants, apps, es[i].grants)
  {
    var front, e := es[..|es| - 1], es[|es| - 1];
    var before := ImportPeople(people, apps, kinds, front);
    PeopleStayConsistent(people, apps, kinds, front);
    PersonFits(Lookup(before, e.email), apps, e, Lookup(kinds, e.email));
    if i < |es| - 1 {
      PersonGrantsHeld(people, apps, kinds, front, i);
      PeopleStayConsistent(people, apps, kinds, es);
    }
  }

  lemma {:induction false} GroupsStayConsistent(
        groups: map<string, Group>, apps: map<string, App>, known: set<string>, es: seq<GroupEntry>)
    requires GroupsFit(groups, apps, known)
    ensures GroupsFit(ImportGroups(groups, apps, known, es), apps, known)
  {
    if es != [] {
      var front, e := es[..|es| - 1], es[|es| - 1];
      GroupsStayConsistent(groups, apps, known, front);
      var before := ImportGroups(groups, apps, known, front);
      GrantKeys(if Lookup(before, e.name).Some? then before[e.name].grants else map[], apps, e.grants);
    }
  }

  lemma FitsGrown(grants: Grants, before: map<string, App>, after: map<string, App>)
    requires GrantsFit(grants, before) && AppsGrow(before, after)
    ensures GrantsFit(grants, after)
  {
  }

  lemma ReferencesGrown(s: Instance, f: File)
    requires Consistent(s)
    ensures var t := Import(s, f); PeopleFit(s.people, t.apps) && GroupsFit(s.groups, t.apps, t.people.Keys)
  {
    var t := Import(s, f);
    ImportGrowsApps(s.apps, f.apps);
    PeopleKeys(s, f);
    forall email | email in s.people ensures GrantsFit(s.people[email].grants, t.apps) {
      FitsGrown(s.people[email].grants, s.apps, t.apps);
    }
    forall name | name in s.groups ensures GrantsFit(s.groups[name].grants, t.apps) {
      FitsGrown(s.groups[name].grants, s.apps, t.apps);
    }
  }

  /** An import leaves no dangling grant, role or member behind, whatever the file names. */
  lemma ImportStaysConsistent(s: Instance, f: File)
    requires Consistent(s)
    ensures Consistent(Import(s, f))
  {
    var t := Import(s, f);
    ReferencesGrown(s, f);
    PeopleStayConsistent(s.people, t.apps, DecideKinds(s.people, f.people), f.people);
    GroupsStayConsistent(s.groups, t.apps, t.people.Keys, f.groups);
  }

  // ---------------------------------------------------------------- problems

  lemma {:induction false} PersonProblemListed(es: seq<PersonEntry>, apps: set<string>, i: nat, j: nat)
    requires i < |es| && j < |es[i].grants|
    ensures GrantUnknown(APerson(es[i].email), es[i].grants[j].clientId) in PeopleProblems(es, apps)
      <==> es[i].grants[j].clientId !in apps
  {
    var front, e := es[..|es| - 1], es[|es| - 1];
    var p := GrantUnknown(APerson(es[i].email), es[i].grants[j].clientId);
    if p in PeopleProblems(es, apps) { PersonProblemsAreReal(es, apps, p); }
    if es[i].grants[j].clientId !in apps {
      if i == |es| - 1 {
        assert p in GrantProblems(APerson(e.email), e.grants, apps);
      } else {
        PersonProblemListed(front, apps, i, j);
      }
    }
  }

  lemma InProblems(s: Instance, f: File, p: Problem)
    ensures var apps, known := Elements(AppIds(f.apps)) + s.apps.Keys, s.people.Keys + Elements(Emails(f.people));
      p in PlanOf(s, f).problems
      <==> (p in PresetProblems(f.apps) || p in PeopleProblems(f.people, apps)
            || p in GroupProblems(f.groups, known, apps) || p in KindProblems(s.people, f.people))
  {
  }

  lemma {:induction false} PresetProblemsAreReal(es: seq<AppEntry>, p: Problem)
    ensures p in PresetProblems(es) ==> p.PresetUnknown? && p.key !in PRESETS && p.clientId in AppIds(es)
  {
    if es != [] {
      var front := es[..|es| - 1];
      PresetProblemsAreReal(front, p);
      assert AppIds(es) == AppIds(front) + [es[|es| - 1].clientId];
    }
  }

  lemma {:induction false} PresetsListed(es: seq<AppEntry>, id: string, key: string)
    ensures PresetUnknown(id, key) in PresetProblems(es)
      <==> key !in PRESETS && exists i :: 0 <= i < |es| && BuiltBy(es[i], id, key)
  {
    if es != [] {
      var front, e := es[..|es| - 1], es[|es| - 1];
      PresetsListed(front, id, key);
      if i :| 0 <= i < |front| && BuiltBy(front[i], id, key) { assert BuiltBy(es[i], id, key); }
      if i :| 0 <= i < |es| && BuiltBy(es[i], id, key) { assert BuiltBy(e, id, key) || BuiltBy(front[i], id, key); }
    }
  }

  predicate BuiltBy(e: AppEntry, id: string, key: string) {
    e.clientId == id && e.preset.Some? && e.preset.value.key == key
  }

  /** The plan lists every app built by a preset this version does not know, and no other. */
  lemma UnknownPresetsAreListed(s: Instance, f: File, id: string, key: string)
    ensures PresetUnknown(id, key) in PlanOf(s, f).problems
      <==> key !in PRESETS && exists i :: 0 <= i < |f.apps| && BuiltBy(f.apps[i], id, key)
  {
    var p := PresetUnknown(id, key);
    var apps, known := Elements(AppIds(f.apps)) + s.apps.Keys, s.people.Keys + Elements(Emails(f.people));
    InProblems(s, f, p);
    PresetsListed(f.apps, id, key);
    if p in PeopleProblems(f.people, apps) { PersonProblemsAreReal(f.people, apps, p); }
    if p in GroupProblems(f.groups, known, apps) { GroupProblemsAreReal(f.groups, known, apps, p); }
    if p in KindProblems(s.people, f.people) { KindProblemsAreReal(s.people, f.people, p); }
  }

  lemma {:induction false} PersonProblemsAreReal(es: seq<PersonEntry>, apps: set<string>, p: Problem)
    requires p in PeopleProblems(es, apps)
    ensures p.GrantUnknown? && p.holder.APerson? && p.clientId !in apps
  {
    var front := es[..|es| - 1];
    if p in PeopleProblems(front, apps) { PersonProblemsAreReal(front, apps, p); }
  }

  lemma {:induction false} GroupProblemsAreReal(es: seq<GroupEntry>, known: set<string>, apps: set<string>, p: Problem)
    requires p in GroupProblems(es, known, apps)
    ensures (p.GrantUnknown? && p.holder.AGroup? && p.clientId !in apps) || (p.MemberUnknown? && p.email !in known)
  {
    var front := es[..|es| - 1];
    if p in GroupProblems(front, known, apps) { GroupProblemsAreReal(front, known, apps, p); }
  }

  lemma {:induction false} KindProblemsAreReal(people: map<string, Person>, es: seq<PersonEntry>, p: Problem)
    requires p in KindProblems(people, es)
    ensures p.OwnerHere? || p.OwnerInFile? || p.AdminWithoutFactor?
  {
    var front := es[..|es| - 1];
    if p in KindProblems(people, front) { KindProblemsAreReal(people, front, p); }
  }

  /** A person's grant in the file is missing after the import exactly when the plan said it would be. */
  lemma SkippedGrantsAreReported(s: Instance, f: File, i: nat, j: nat)
    requires Consistent(s) && i < |f.people| && j < |f.people[i].grants|
    ensures var plan, t, e := PlanOf(s, f), Import(s, f), f.people[i];
      && e.email in t.people
      && var client := e.grants[j].clientId;
         GrantUnknown(APerson(e.email), client) in plan.problems <==> client !in t.people[e.email].grants
  {
    var t, e := Import(s, f), f.people[i];
    var apps := Elements(AppIds(f.apps)) + s.apps.Keys;
    var known := s.people.Keys + Elements(Emails(f.people));
    var p := GrantUnknown(APerson(e.email), e.grants[j].clientId);
    AppsOnlyGrow(s.apps, f.apps);
    ReferencesGrown(s, f);
    PersonGrantsHeld(s.people, t.apps, DecideKinds(s.people, f.people), f.people, i);
    PersonProblemListed(f.people, apps, i, j);
    InProblems(s, f, p);
    PresetProblemsAreReal(f.apps, p);
    if p in GroupProblems(f.groups, known, apps) { GroupProblemsAreReal(f.groups, known, apps, p); }
    if p in KindProblems(s.people, f.people) { KindProblemsAreReal(s.people, f.people, p); }
  }

  lemma {:induction false} MemberProblemListed(
        es: seq<GroupEntry>, known: set<string>, apps: set<string>, i: nat, m: string)
    requires i < |es| && m in es[i].members && m !in known
    ensures MemberUnknown(es[i].name, m) in GroupProblems(es, known, apps)
  {
    var e := es[|es| - 1];
    if i == |es| - 1 {
      assert MemberUnknown(e.name, m) in MemberProblems(e.name, e.members, known);
    } else {
      MemberProblemListed(es[..|es| - 1], known, apps, i, m);
    }
  }

  /** The entry of a group that decides who is in it. */
  function LastGroup(es: seq<GroupEntry>, name: string): Option<GroupEntry> {
    if es == [] then None
    else
      var e := es[|es| - 1];
      if e.name == name then Some(e) else LastGroup(es[..|es| - 1], name)
  }

  lemma {:induction false} LastGroupIsThere(es: seq<GroupEntry>, name: string) returns (i: nat)
    requires LastGroup(es, name).Some?
    ensures i < |es| && es[i] == LastGroup(es, name).value && es[i].name == name
  {
    i := |es| - 1;
    if es[i].name != name {
      i := LastGroupIsThere(es[..i], name);
    }
  }

  predicate IsMember(groups: map<string, Group>, name: string, m: string) {
    name in groups && m in groups[name].members
  }

  lemma {:induction false} MemberAfter(
      groups: map<string, Group>, apps: map<string, App>, known: set<string>, es: seq<GroupEntry>, name: string,
      m: string)
    ensures var said := LastGroup(es, name);
      IsMember(ImportGroups(groups, apps, known, es), name, m)
      <==> if said.Some? then m in known && m in said.value.members else IsMember(groups, name, m)
  {
    if es != [] {
      MemberAfter(groups, apps, known, es[..|es| - 1], name, m);
    }
  }

  /** A member the deciding entry lists is left out of the group exactly when the plan said so. */
  lemma SkippedMembersAreReported(s: Instance, f: File, name: string, m: string)
    requires LastGroup(f.groups, name).Some? && m in LastGroup(f.groups, name).value.members
    ensures MemberUnknown(name, m) in PlanOf(s, f).problems <==> !IsMember(Import(s, f).groups, name, m)
  {
    var t := Import(s, f);
    var apps := Elements(AppIds(f.apps)) + s.apps.Keys;
    var known := s.people.Keys + Elements(Emails(f.people));
    var p := MemberUnknown(name, m);
    PeopleKeys(s, f);
    MemberAfter(s.groups, t.apps, t.people.Keys, f.groups, name, m);
    InProblems(s, f, p);
    PresetProblemsAreReal(f.apps, p);
    if p in PeopleProblems(f.people, apps) { PersonProblemsAreReal(f.people, apps, p); }
    if p in KindProblems(s.people, f.people) { KindProblemsAreReal(s.people, f.people, p); }
    if p in GroupProblems(f.groups, known, apps) { GroupProblemsAreReal(f.groups, known, apps, p); }
    if m !in known {
      var i := LastGroupIsThere(f.groups, name);
      MemberProblemListed(f.groups, known, apps, i, m);
    }
  }

  lemma {:induction false} GroupGrantsHeld(
        groups: map<string, Group>, apps: map<string, App>, known: set<string>, es: seq<GroupEntry>, i: nat)
    requires GroupsFit(groups, apps, known) && i < |es|
    ensures var r := ImportGroups(groups, apps, known, es);
      es[i].name in r && HeldIfKnown(r[es[i].name].grants, apps, es[i].grants)
  {
    var front, e := es[..|es| - 1], es[|es| - 1];
    var before := ImportGroups(groups, apps, known, front);
    GroupsStayConsistent(groups, apps, known, front);
    GrantKeys(if Lookup(before, e.name).Some? then before[e.name].grants else map[], apps, e.grants);
    if i < |es| - 1 {
      GroupGrantsHeld(groups, apps, known, front, i);
      GroupsStayConsistent(groups, apps, known, es);
    }
  }

  lemma {:induction false} GroupProblemListed(
        es: seq<GroupEntry>, known: set<string>, apps: set<string>, i: nat, j: nat)
    requires i < |es| && j < |es[i].grants| && es[i].grants[j].clientId !in apps
    ensures GrantUnknown(AGroup(es[i].name), es[i].grants[j].clientId) in GroupProblems(es, known, apps)
  {
    var e := es[|es| - 1];
    if i == |es| - 1 {
      assert GrantUnknown(AGroup(e.name), e.grants[j].clientId) in GrantProblems(AGroup(e.name), e.grants, apps);
    } else {
      GroupProblemListed(es[..|es| - 1], known, apps, i, j);
    }
  }

  /** A group's grant in the file is missing after the import exactly when the plan said it would be. */
  lemma SkippedGroupGrantsAreReported(s: Instance, f: File, i: nat, j: nat)
    requires Consistent(s) && i < |f.groups| && j < |f.groups[i].grants|
    ensures var plan, t, e := PlanOf(s, f), Import(s, f), f.groups[i];
      && e.name in t.groups
      && var client := e.grants[j].clientId;
         GrantUnknown(AGroup(e.name), client) in plan.problems <==> client !in t.groups[e.name].grants
  {
    var t, e := Import(s, f), f.groups[i];
    var apps := Elements(AppIds(f.apps)) + s.apps.Keys;
    var known := s.people.Keys + Elements(Emails(f.people));
    var p := GrantUnknown(AGroup(e.name), e.grants[j].clientId);
    AppsOnlyGrow(s.apps, f.apps);
    ReferencesGrown(s, f);
    GroupGrantsHeld(s.groups, t.apps, t.people.Keys, f.groups, i);
    InProblems(s, f, p);
    PresetProblemsAreReal(f.apps, p);
    if p in PeopleProblems(f.people, apps) { PersonProblemsAreReal(f.people, apps, p); }
    if p in KindProblems(s.people, f.people) { KindProblemsAreReal(s.people, f.people, p); }
    if p in GroupProblems(f.groups, known, apps) { GroupProblemsAreReal(f.groups, known, apps, p); }
    if e.grants[j].clientId !in apps { GroupProblemListed(f.groups, known, apps, i, j); }
  }

  // ---------------------------------------------------------------- secrets

  lemma {:induction false} SecretsListed(apps: map<string, App>, es: seq<AppEntry>, id: string)
    ensures id in SecretPending(apps, es) <==>
      && (exists i :: 0 <= i < |es| && es[i].clientId == id && es[i].profile.clientType == ConfidentialWeb)
      && !(id in apps && apps[id].secretHash.Some?)
  {
    if es != [] {
      SecretsListed(apps, es[..|es| - 1], id);
      assert forall i :: 0 <= i < |es| - 1 ==> es[i] == es[..|es| - 1][i];
    }
  }

  /** An imported app carries the profile of some entry that names it. */
  lemma {:induction false} ProfileFromFile(es: seq<AppEntry>, id: string)
    requires AppPatches(es, id).Some?
    ensures exists i :: 0 <= i < |es| && es[i].clientId == id && es[i].profile == AppPatches(es, id).value.profile
  {
    var front, e := es[..|es| - 1], es[|es| - 1];
    if e.clientId != id {
      ProfileFromFile(front, id);
      var i :| 0 <= i < |front| && front[i].clientId == id && front[i].profile == AppPatches(front, id).value.profile;
      assert es[i] == front[i];
    }
  }

  /** The entry of an app that decides its profile. */
  function LastApp(es: seq<AppEntry>, id: string): Option<AppEntry> {
    if es == [] then None
    else
      var e := es[|es| - 1];
      if e.clientId == id then Some(e) else LastApp(es[..|es| - 1], id)
  }

  lemma {:induction false} ProfileAfter(apps: map<string, App>, es: seq<AppEntry>, id: string)
    ensures LastApp(es, id).Some? <==> id in AppIds(es)
    ensures var said, now := LastApp(es, id), Lookup(ImportApps(apps, es), id);
      if said.None? then now == Lookup(apps, id) else now.Some? && now.value.profile == said.value.profile
  {
    if es != [] {
      var front := es[..|es| - 1];
      ProfileAfter(apps, front, id);
      assert AppIds(es) == AppIds(front) + [es[|es| - 1].clientId];
    }
  }

  lemma {:induction false} LastAppIsThere(es: seq<AppEntry>, id: string) returns (i: nat)
    requires LastApp(es, id).Some?
    ensures i < |es| && es[i] == LastApp(es, id).value && es[i].clientId == id
  {
    i := |es| - 1;
    if es[i].clientId != id {
      i := LastAppIsThere(es[..i], id);
    }
  }

  predicate NeedsSecret(a: App) { a.profile.clientType == ConfidentialWeb && a.secretHash == None }

  /**
   * No secret is carried over or lost, and the plan lists the apps that will need one. An imported
   * app ends without a secret it needs exactly when it is listed and the last entry that names it is
   * confidential; so a listed app needs none exactly when its last entry makes it public.
   */
  lemma SecretPendingIsHonest(s: Instance, f: File, id: string)
    requires id in AppIds(f.apps)
    ensures id in Import(s, f).apps && LastApp(f.apps, id).Some?
    ensures Import(s, f).apps[id].secretHash == (if id in s.apps then s.apps[id].secretHash else None)
    ensures id in PlanOf(s, f).secretPending ==> Import(s, f).apps[id].secretHash == None
    ensures var last := LastApp(f.apps, id).value;
      NeedsSecret(Import(s, f).apps[id])
      <==> (id in PlanOf(s, f).secretPending && last.profile.clientType == ConfidentialWeb)
  {
    ProfileAfter(s.apps, f.apps, id);
    SecretsListed(s.apps, f.apps, id);
    var i := LastAppIsThere(f.apps, id);
    AppsArePatched(s.apps, f.apps, id);
  }

  lemma {:induction false} ReEnrolmentsListed(people: map<string, Person>, es: seq<PersonEntry>, email: string)
    ensures email in ReEnrolments(people, es)
      <==> (email in Emails(es) && !(email in people && people[email].credentials))
  {
    if es != [] {
      var front := es[..|es| - 1];
      ReEnrolmentsListed(people, front, email);
      assert Emails(es) == Emails(front) + [es[|es| - 1].email];
    }
  }

  /** Of everybody in the file, exactly those listed cannot sign in once it is imported. */
  lemma ReEnrolmentIsHonest(s: Instance, f: File, email: string)
    requires email in Emails(f.people)
    ensures email in Import(s, f).people
    ensures email in PlanOf(s, f).needsReEnrolment <==> !Import(s, f).people[email].credentials
  {
    PeopleKeys(s, f);
    ReEnrolmentsListed(s.people, f.people, email);
    PeopleArePatched(s.people, Import(s, f).apps, DecideKinds(s.people, f.people), f.people, email);
  }
}
