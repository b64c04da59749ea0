/**
 Importing a file twice leaves what importing it once left. The entries of a file that name one
 row amount to a single patch on that row, and applying a patch a second time changes nothing.
 */
module ImportIdempotence {
  import opened Common
  import opened People
  import opened AdminState

  // ---------------------------------------------------------------- roles

  /** The roles a list of entries writes, whatever was there before. */
  function RolePatch(entries: seq<RoleEntry>, total: nat): map<string, Role>
    requires |entries| <= total
  {
    PutRoles(map[], entries, total)
  }

  lemma {:induction false} PutRolesIsOverride(roles: map<string, Role>, entries: seq<RoleEntry>, total: nat)
    requires |entries| <= total
    ensures PutRoles(roles, entries, total) == roles + RolePatch(entries, total)
  {
    if entries != [] {
      PutRolesIsOverride(roles, entries[..|entries| - 1], total);
    }
  }

  // ---------------------------------------------------------------- apps

  datatype AppPatch = AppPatch(
    profile: Profile, homeUrl: Option<string>, preset: Option<Preset>, keep: set<string>, add: set<string>,
    roles: map<string, Role>)

  function OrElse<T>(a: Option<T>, b: Option<T>): Option<T> { if a.Some? then a else b }

  function PatchApp(was: Option<App>, p: AppPatch): App {
    match was
    case None => App(p.profile, p.homeUrl, p.preset, None, p.add, p.roles)
    case Some(a) =>
      App(p.profile, OrElse(p.homeUrl, a.homeUrl), OrElse(p.preset, a.preset), a.secretHash,
          a.redirectUris * p.keep + p.add, a.roles + p.roles)
  }

  function AppPatchOf(e: AppEntry): AppPatch {
    AppPatch(e.profile, e.homeUrl, e.preset, KeptUris(e.redirectUris), Elements(e.redirectUris),
      RolePatch(e.roles, |e.roles|))
  }

  function ThenApp(p: AppPatch, q: AppPatch): AppPatch {
    AppPatch(q.profile, OrElse(q.homeUrl, p.homeUrl), OrElse(q.preset, p.preset), p.keep * q.keep,
      p.add * q.keep + q.add, p.roles + q.roles)
  }

  function Patched<P, R>(was: Option<R>, p: Option<P>, apply: (Option<R>, P) -> R): Option<R> {
    if p.None? then was else Some(apply(was, p.value))
  }

  /** Every entry naming this app, as one patch. */
  function AppPatches(es: seq<AppEntry>, id: string): Option<AppPatch> {
    if es == [] then None
    else
      var before, e := AppPatches(es[..|es| - 1], id), es[|es| - 1];
      if e.clientId != id then before
      else Some(if before.None? then AppPatchOf(e) else ThenApp(before.value, AppPatchOf(e)))
  }

  lemma ImportedAppIsPatched(was: Option<App>, e: AppEntry)
    ensures ImportedApp(was, e) == PatchApp(was, AppPatchOf(e))
  {
    if was.Some? { PutRolesIsOverride(was.value.roles, e.roles, |e.roles|); }
  }

  lemma PatchAppComposes(was: Option<App>, p: AppPatch, q: AppPatch)
    ensures PatchApp(Some(PatchApp(was, p)), q) == PatchApp(was, ThenApp(p, q))
  {
    var both := PatchApp(Some(PatchApp(was, p)), q);
    if was.Some? {
      var a := was.value;
      assert both.redirectUris == (a.redirectUris * p.keep + p.add) * q.keep + q.add;
      assert both.redirectUris == a.redirectUris * (p.keep * q.keep) + (p.add * q.keep + q.add);
      assert (a.roles + p.roles) + q.roles == a.roles + (p.roles + q.roles);
    }
  }

  lemma PatchAppTwice(was: Option<App>, p: AppPatch)
    ensures PatchApp(Some(PatchApp(was, p)), p) == PatchApp(was, p)
  {
    var once := PatchApp(was, p);
    assert once.roles + p.roles == once.roles;
    assert once.redirectUris * p.keep + p.add == once.redirectUris by {
      if was.Some? {
        var u := was.value.redirectUris;
        assert (u * p.keep + p.add) * p.keep + p.add == u * p.keep + p.add;
      }
    }
  }

  lemma {:induction false} AppsArePatched(apps: map<string, App>, es: seq<AppEntry>, id: string)
    ensures Lookup(ImportApps(apps, es), id) == Patched(Lookup(apps, id), AppPatches(es, id), PatchApp)
  {
    if es != [] {
      var front, e := es[..|es| - 1], es[|es| - 1];
      AppsArePatched(apps, front, id);
      if e.clientId == id {
        ImportedAppIsPatched(Lookup(ImportApps(apps, front), id), e);
        if AppPatches(front, id).Some? {
          PatchAppComposes(Lookup(apps, id), AppPatches(front, id).value, AppPatchOf(e));
        }
      }
    }
  }

  lemma SameMap<V>(a: map<string, V>, b: map<string, V>)
    requires forall k :: Lookup(a, k) == Lookup(b, k)
    ensures a == b
  {
    forall k ensures (k in a <==> k in b) && (k in a ==> a[k] == b[k]) {
      assert Lookup(a, k) == Lookup(b, k);
    }
  }

  lemma AppsTwice(apps: map<string, App>, es: seq<AppEntry>)
    ensures ImportApps(ImportApps(apps, es), es) == ImportApps(apps, es)
  {
    var once := ImportApps(apps, es);
    forall id ensures Lookup(ImportApps(once, es), id) == Lookup(once, id) {
      AppsArePatched(apps, es, id);
      AppsArePatched(once, es, id);
      if AppPatches(es, id).Some? { PatchAppTwice(Lookup(apps, id), AppPatches(es, id).value); }
    }
    SameMap(ImportApps(once, es), once);
  }

  // ---------------------------------------------------------------- grants

  lemma {:induction false} GrantsAreOverride(grants: Grants, apps: map<string, App>, es: seq<GrantEntry>)
    ensures ImportGrants(grants, apps, es) == grants + ImportGrants(map[], apps, es)
  {
    if es != [] {
      GrantsAreOverride(grants, apps, es[..|es| - 1]);
    }
  }

  // ---------------------------------------------------------------- people

  /** `status` is only used on creation, so it is the first entry's. */
  datatype PersonPatch = PersonPatch(username: string, displayName: string, kind: Option<Kind>, status: Status,
    grants: Grants)

  function PatchPerson(was: Option<Person>, p: PersonPatch): Person {
    match was
    case None =>
      Person(p.username, p.displayName, if p.kind.Some? then p.kind.value else Guest, p.status, 0, false, p.grants)
    case Some(x) =>
      x.(username := p.username, displayName := p.displayName, kind := if p.kind.Some? then p.kind.value else x.kind,
         grants := x.grants + p.grants)
  }

  function PersonPatchOf(apps: map<string, App>, e: PersonEntry, kind: Option<Kind>): PersonPatch {
    PersonPatch(e.username, e.displayName, kind, if e.status == Suspended then Suspended else Invited,
      ImportGrants(map[], apps, e.grants))
  }

  function ThenPerson(p: PersonPatch, q: PersonPatch): PersonPatch {
    PersonPatch(q.username, q.displayName, OrElse(q.kind, p.kind), p.status, p.grants + q.grants)
  }

  function PersonPatches(
        apps: map<string, App>, es: seq<PersonEntry>, email: string, kind: Option<Kind>): (r: Option<PersonPatch>)
    ensures r.Some? ==> r.value.kind == kind
    ensures r.Some? <==> exists i :: 0 <= i < |es| && es[i].email == email
  {
    if es == [] then None
    else
      var before, e := PersonPatches(apps, es[..|es| - 1], email, kind), es[|es| - 1];
      assert before.Some? ==> exists i :: 0 <= i < |es| - 1 && es[..|es| - 1][i].email == email && es[i].email == email;
      if e.email != email then before
      else Some(
        if before.None? then PersonPatchOf(apps, e, kind) else ThenPerson(before.value, PersonPatchOf(apps, e, kind)))
  }

  lemma ImportedPersonIsPatched(was: Option<Person>, apps: map<string, App>, e: PersonEntry, kind: Option<Kind>)
    ensures ImportedPerson(was, apps, e, kind) == PatchPerson(was, PersonPatchOf(apps, e, kind))
  {
    if was.Some? { GrantsAreOverride(was.value.grants, apps, e.grants); }
  }

  lemma PatchPersonComposes(was: Option<Person>, p: PersonPatch, q: PersonPatch)
    ensures PatchPerson(Some(PatchPerson(was, p)), q) == PatchPerson(was, ThenPerson(p, q))
  {
    if was.Some? {
      assert (was.value.grants + p.grants) + q.grants == was.value.grants + (p.grants + q.grants);
    }
  }

  lemma {:induction false} PeopleArePatched(
        people: map<string, Person>, apps: map<string, App>, kinds: map<string, Kind>, es: seq<PersonEntry>,
        email: string)
    ensures Lookup(ImportPeople(people, apps, kinds, es), email)
      == Patched(Lookup(people, email), PersonPatches(apps, es, email, Lookup(kinds, email)), PatchPerson)
  {
    if es != [] {
      var front, e := es[..|es| - 1], es[|es| - 1];
      PeopleArePatched(people, apps, kinds, front, email);
      if e.email == email {
        var kind := Lookup(kinds, email);
        ImportedPersonIsPatched(Lookup(ImportPeople(people, apps, kinds, front), email), apps, e, kind);
        if PersonPatches(apps, front, email, kind).Some? {
          PatchPersonComposes(Lookup(people, email), PersonPatches(apps, front, email, kind).value,
            PersonPatchOf(apps, e, kind));
        }
      }
    }
  }

  /** Patches that differ only in the kind they set. */
  lemma {:induction false} PatchesDifferInKind(
        apps: map<string, App>, es: seq<PersonEntry>, email: string, a: Option<Kind>, b: Option<Kind>)
    ensures var p, q := PersonPatches(apps, es, email, a), PersonPatches(apps, es, email, b);
      p.Some? == q.Some? && (p.Some? ==> q.value == p.value.(kind := b))
  {
    if es != [] {
      PatchesDifferInKind(apps, es[..|es| - 1], email, a, b);
    }
  }

  /** The last entry naming this person that decides anything decides their kind. */
  function KindFor(current: Option<Person>, es: seq<PersonEntry>, email: string): Option<Kind> {
    if es == [] then None
    else
      var e := es[|es| - 1];
      OrElse(if e.email == email then Verdict(current, e.kind) else None, KindFor(current, es[..|es| - 1], email))
  }

  lemma {:induction false} KindsAreDecided(people: map<string, Person>, es: seq<PersonEntry>, email: string)
    ensures Lookup(DecideKinds(people, es), email) == KindFor(Lookup(people, email), es, email)
  {
    if es != [] {
      KindsAreDecided(people, es[..|es| - 1], email);
    }
  }

  ghost predicate Named(es: seq<PersonEntry>, email: string) {
    exists i :: 0 <= i < |es| && es[i].email == email
  }

  lemma {:induction false} KindForUnnamed(current: Option<Person>, es: seq<PersonEntry>, email: string)
    requires !Named(es, email)
    ensures KindFor(current, es, email) == None
  {
    if es != [] {
      assert es[|es| - 1].email != email;
      assert !Named(es[..|es| - 1], email);
      KindForUnnamed(current, es[..|es| - 1], email);
    }
  }

  /** How a decision depends on the person it is about. */
  lemma {:induction false} KindForCases(current: Option<Person>, es: seq<PersonEntry>, email: string)
    ensures var k := KindFor(current, es, email);
      && (current.None? ==> if Named(es, email) then k == Some(Guest) else k == None)
      && (current.Some? && current.value.kind == Owner ==> k == None)
      && (k == Some(Admin) ==> current.Some? && current.value.factors > 0)
      && k != Some(Owner)
  {
    if es != [] {
      var front, e := es[..|es| - 1], es[|es| - 1];
      KindForCases(current, front, email);
      if Named(front, email) {
        var i :| 0 <= i < |front| && front[i].email == email;
        assert es[i].email == email;
      }
      if Named(es, email) && e.email != email {
        var i :| 0 <= i < |es| && es[i].email == email;
        assert front[i].email == email;
      }
    }
  }

  lemma {:induction false} SameVerdicts(a: Option<Person>, b: Option<Person>, es: seq<PersonEntry>, email: string)
    requires a.Some? && b.Some? && (a.value.kind == Owner <==> b.value.kind == Owner)
      && a.value.factors == b.value.factors
    ensures KindFor(a, es, email) == KindFor(b, es, email)
  {
    if es != [] {
      SameVerdicts(a, b, es[..|es| - 1], email);
    }
  }

  /** Somebody a file creates is a guest with no factor, and no entry can decide otherwise afterwards. */
  lemma {:induction false} CreatedStaysGuest(current: Option<Person>, es: seq<PersonEntry>, email: string)
    requires current.Some? && current.value.kind == Guest && current.value.factors == 0
    ensures KindFor(current, es, email) in {None, Some(Guest)}
  {
    if es != [] {
      CreatedStaysGuest(current, es[..|es| - 1], email);
    }
  }

  /** A second import decides nothing about anybody that the first did not already do. */
  lemma KindsSettle(people: map<string, Person>, apps: map<string, App>, es: seq<PersonEntry>, email: string)
    ensures var once := ImportPeople(people, apps, DecideKinds(people, es), es);
      var again := Lookup(DecideKinds(once, es), email);
      again.Some? ==> email in once && once[email].kind == again.value
  {
    var kinds := DecideKinds(people, es);
    var once := ImportPeople(people, apps, kinds, es);
    var current := Lookup(people, email);
    KindsAreDecided(people, es, email);
    KindsAreDecided(once, es, email);
    PeopleArePatched(people, apps, kinds, es, email);
    KindForCases(current, es, email);
    if !Named(es, email) {
      KindForUnnamed(Lookup(once, email), es, email);
    } else if current.None? {
      CreatedStaysGuest(Lookup(once, email), es, email);
    } else {
      SameVerdicts(current, Lookup(once, email), es, email);
    }
  }

  lemma PeopleTwice(people: map<string, Person>, apps: map<string, App>, es: seq<PersonEntry>)
    ensures var once := ImportPeople(people, apps, DecideKinds(people, es), es);
      ImportPeople(once, apps, DecideKinds(once, es), es) == once
  {
    var kinds := DecideKinds(people, es);
    var once := ImportPeople(people, apps, kinds, es);
    var twice := ImportPeople(once, apps, DecideKinds(once, es), es);
    forall email ensures Lookup(twice, email) == Lookup(once, email) {
      PersonTwice(people, apps, es, email);
    }
    SameMap(twice, once);
  }

  lemma PersonTwice(people: map<string, Person>, apps: map<string, App>, es: seq<PersonEntry>, email: string)
    ensures var once := ImportPeople(people, apps, DecideKinds(people, es), es);
      Lookup(ImportPeople(once, apps, DecideKinds(once, es), es), email) == Lookup(once, email)
  {
    var kinds := DecideKinds(people, es);
    var once := ImportPeople(people, apps, kinds, es);
    var a, b := Lookup(kinds, email), Lookup(DecideKinds(once, es), email);
    PeopleArePatched(people, apps, kinds, es, email);
    PeopleArePatched(once, apps, DecideKinds(once, es), es, email);
    PatchesDifferInKind(apps, es, email, a, b);
    KindsSettle(people, apps, es, email);
    var p := PersonPatches(apps, es, email, a);
    if p.Some? {
      assert once[email].grants + p.value.grants == once[email].grants;
    }
  }

  // ---------------------------------------------------------------- groups

  datatype GroupPatch = GroupPatch(description: string, members: set<string>, grants: Grants)

  function PatchGroup(was: Option<Group>, p: GroupPatch): Group {
    Group(p.description, p.members, (if was.Some? then was.value.grants else map[]) + p.grants)
  }

  function GroupPatchOf(apps: map<string, App>, known: set<string>, e: GroupEntry): GroupPatch {
    GroupPatch(e.description, (set m | m in known && m in e.members), ImportGrants(map[], apps, e.grants))
  }

  function GroupPatches(
        apps: map<string, App>, known: set<string>, es: seq<GroupEntry>, name: string): Option<GroupPatch> {
    if es == [] then None
    else
      var before, e := GroupPatches(apps, known, es[..|es| - 1], name), es[|es| - 1];
      if e.name != name then before
      else
        var q := GroupPatchOf(apps, known, e);
        Some(if before.None? then q else q.(grants := before.value.grants + q.grants))
  }

  lemma {:induction false} GroupsArePatched(
        groups: map<string, Group>, apps: map<string, App>, known: set<string>, es: seq<GroupEntry>, name: string)
    ensures Lookup(ImportGroups(groups, apps, known, es), name)
      == Patched(Lookup(groups, name), GroupPatches(apps, known, es, name), PatchGroup)
  {
    if es != [] {
      var front, e := es[..|es| - 1], es[|es| - 1];
      GroupsArePatched(groups, apps, known, front, name);
      if e.name == name {
        var was := Lookup(ImportGroups(groups, apps, known, front), name);
        GrantsAreOverride(if was.Some? then was.value.grants else map[], apps, e.grants);
        var first := if name in groups then groups[name].grants else map[];
        if GroupPatches(apps, known, front, name).Some? {
          var p, q := GroupPatches(apps, known, front, name).value, GroupPatchOf(apps, known, e);
          assert (first + p.grants) + q.grants == first + (p.grants + q.grants);
        }
      }
    }
  }

  lemma GroupsTwice(groups: map<string, Group>, apps: map<string, App>, known: set<string>, es: seq<GroupEntry>)
    ensures var once := ImportGroups(groups, apps, known, es); ImportGroups(once, apps, known, es) == once
  {
    var once := ImportGroups(groups, apps, known, es);
    forall name ensures Lookup(ImportGroups(once, apps, known, es), name) == Lookup(once, name) {
      GroupsArePatched(groups, apps, known, es, name);
      GroupsArePatched(once, apps, known, es, name);
      var p := GroupPatches(apps, known, es, name);
      if p.Some? {
        assert once[name].grants + p.value.grants == once[name].grants;
      }
    }
    SameMap(ImportGroups(once, apps, known, es), once);
  }

  // ---------------------------------------------------------------- the whole import

  lemma {:induction false} PeopleOnlyGrow(
        people: map<string, Person>, apps: map<string, App>, kinds: map<string, Kind>, es: seq<PersonEntry>)
    ensures ImportPeople(people, apps, kinds, es).Keys == people.Keys + set i | 0 <= i < |es| :: es[i].email
  {
    if es != [] {
      var front := es[..|es| - 1];
      PeopleOnlyGrow(people, apps, kinds, front);
      EmailsOf(front, es[|es| - 1]);
      assert front + [es[|es| - 1]] == es;
    }
  }

  lemma EmailsOf(front: seq<PersonEntry>, last: PersonEntry)
    ensures var es := front + [last];
      (set i | 0 <= i < |es| :: es[i].email) == (set i | 0 <= i < |front| :: front[i].email) + {last.email}
  {
    var es := front + [last];
    assert forall i :: 0 <= i < |front| ==> front[i] == es[i];
    assert es[|front|] == last;
  }

  /** Importing the same file twice is importing it once, whatever the file repeats or misnames. */
  lemma ImportTwice(s: Instance, f: File)
    ensures Import(Import(s, f), f) == Import(s, f)
  {
    var once := Import(s, f);
    AppsTwice(s.apps, f.apps);
    PeopleTwice(s.people, once.apps, f.people);
    GroupsTwice(s.groups, once.apps, once.people.Keys, f.groups);
  }
}
