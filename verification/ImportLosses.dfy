/**
 What an import takes away. It removes no row, but it replaces the redirect URIs of every app it
 names, the members of every group it names, and the roles of every grant it names. Each theorem
 says of one stored fact exactly when the file takes it, by the last entry that speaks of it.
 */
module ImportLosses {
  import opened Common
  import opened People
  import opened AdminState
  import opened ImportIdempotence
  import opened ImportPlan

  // ---------------------------------------------------------------- the entry that decides

  /** The last entry of an app that decides about a URI: an empty list is read as the list of one empty string. */
  function LastUris(es: seq<AppEntry>, id: string, u: string): Option<AppEntry> {
    if es == [] then None
    else
      var e := es[|es| - 1];
      if e.clientId == id && (u != "" || e.redirectUris != []) then Some(e) else LastUris(es[..|es| - 1], id, u)
  }

  function LastGrant(es: seq<GrantEntry>, client: string): Option<GrantEntry> {
    if es == [] then None
    else
      var e := es[|es| - 1];
      if e.clientId == client then Some(e) else LastGrant(es[..|es| - 1], client)
  }

  /** The last grant of this app in any entry of this person, and of this group. */
  function LastPersonGrant(es: seq<PersonEntry>, email: string, client: string): Option<GrantEntry> {
    if es == [] then None
    else
      var e, before := es[|es| - 1], LastPersonGrant(es[..|es| - 1], email, client);
      if e.email == email && LastGrant(e.grants, client).Some? then LastGrant(e.grants, client) else before
  }

  function LastGroupGrant(es: seq<GroupEntry>, name: string, client: string): Option<GrantEntry> {
    if es == [] then None
    else
      var e, before := es[|es| - 1], LastGroupGrant(es[..|es| - 1], name, client);
      if e.name == name && LastGrant(e.grants, client).Some? then LastGrant(e.grants, client) else before
  }

  /** The roles a grant entry leaves, where it decides; otherwise what was there. */
  function GrantAfter(was: Option<set<string>>, apps: map<string, App>, said: Option<GrantEntry>): Option<set<string>> {
    if said.None? || said.value.clientId !in apps then was
    else Some(set key | key in apps[said.value.clientId].roles && key in said.value.roles)
  }

  predicate HasUri(apps: map<string, App>, id: string, u: string) {
    id in apps && u in apps[id].redirectUris
  }

  function PersonGrant(people: map<string, Person>, email: string, client: string): Option<set<string>> {
    if email in people then Lookup(people[email].grants, client) else None
  }

  function GroupGrant(groups: map<string, Group>, name: string, client: string): Option<set<string>> {
    if name in groups then Lookup(groups[name].grants, client) else None
  }

  // ---------------------------------------------------------------- what each stored fact becomes

  lemma {:induction false} UriAfter(apps: map<string, App>, es: seq<AppEntry>, id: string, u: string)
    ensures var said := LastUris(es, id, u);
      HasUri(ImportApps(apps, es), id, u)
      <==> if said.Some? then u in said.value.redirectUris else HasUri(apps, id, u)
  {
    if es != [] {
      UriAfter(apps, es[..|es| - 1], id, u);
    }
  }

  lemma {:induction false} GrantsAfter(grants: Grants, apps: map<string, App>, es: seq<GrantEntry>, client: string)
    ensures LastGrant(es, client).Some? ==> LastGrant(es, client).value.clientId == client
    ensures Lookup(ImportGrants(grants, apps, es), client)
      == GrantAfter(Lookup(grants, client), apps, LastGrant(es, client))
  {
    if es != [] {
      GrantsAfter(grants, apps, es[..|es| - 1], client);
    }
  }

  lemma {:induction false} PersonGrantAfter(
      people: map<string, Person>, apps: map<string, App>, kinds: map<string, Kind>, es: seq<PersonEntry>,
      email: string, client: string)
    ensures var said := LastPersonGrant(es, email, client); said.Some? ==> said.value.clientId == client
    ensures PersonGrant(ImportPeople(people, apps, kinds, es), email, client)
      == GrantAfter(PersonGrant(people, email, client), apps, LastPersonGrant(es, email, client))
  {
    if es != [] {
      var init, e := es[..|es| - 1], es[|es| - 1];
      PersonGrantAfter(people, apps, kinds, init, email, client);
      if e.email == email {
        var before := ImportPeople(people, apps, kinds, init);
        GrantsAfter(if email in before then before[email].grants else map[], apps, e.grants, client);
      }
    }
  }

  lemma {:induction false} GroupGrantAfter(
      groups: map<string, Group>, apps: map<string, App>, known: set<string>, es: seq<GroupEntry>,
      name: string, client: string)
    ensures var said := LastGroupGrant(es, name, client); said.Some? ==> said.value.clientId == client
    ensures GroupGrant(ImportGroups(groups, apps, known, es), name, client)
      == GrantAfter(GroupGrant(groups, name, client), apps, LastGroupGrant(es, name, client))
  {
    if es != [] {
      var init, e := es[..|es| - 1], es[|es| - 1];
      GroupGrantAfter(groups, apps, known, init, name, client);
      if e.name == name {
        var before := ImportGroups(groups, apps, known, init);
        GrantsAfter(if name in before then before[name].grants else map[], apps, e.grants, client);
      }
    }
  }

  // ---------------------------------------------------------------- what is taken

  /** A redirect URI goes exactly when the last entry that decides about it does not list it. */
  lemma UrisTaken(s: Instance, f: File, id: string, u: string)
    requires HasUri(s.apps, id, u)
    ensures !HasUri(Import(s, f).apps, id, u)
      <==> LastUris(f.apps, id, u).Some? && u !in LastUris(f.apps, id, u).value.redirectUris
  {
    UriAfter(s.apps, f.apps, id, u);
  }

  /** An app stops being told of sign-outs exactly when the last entry that names it has no address for them. */
  lemma BackchannelTaken(s: Instance, f: File, id: string)
    requires id in s.apps && s.apps[id].profile.backchannel.Some?
    ensures id in Import(s, f).apps
    ensures Import(s, f).apps[id].profile.backchannel.None?
      <==> LastApp(f.apps, id).Some? && LastApp(f.apps, id).value.profile.backchannel.None?
  {
    ProfileAfter(s.apps, f.apps, id);
  }

  /** A member goes exactly when the last entry of the group does not list them. */
  lemma MembersTaken(s: Instance, f: File, name: string, m: string)
    requires Consistent(s) && IsMember(s.groups, name, m)
    ensures !IsMember(Import(s, f).groups, name, m)
      <==> LastGroup(f.groups, name).Some? && m !in LastGroup(f.groups, name).value.members
  {
    PeopleKeys(s, f);
    MemberAfter(s.groups, Import(s, f).apps, Import(s, f).people.Keys, f.groups, name, m);
  }

  predicate Held(grant: Option<set<string>>, role: string) { grant.Some? && role in grant.value }

  /** A role in a person's grant goes exactly when the last entry of that grant does not list it. */
  lemma PersonRolesTaken(s: Instance, f: File, email: string, client: string, role: string)
    requires Consistent(s) && Held(PersonGrant(s.people, email, client), role)
    ensures var said := LastPersonGrant(f.people, email, client);
      !Held(PersonGrant(Import(s, f).people, email, client), role) <==> said.Some? && role !in said.value.roles
  {
    ImportGrowsApps(s.apps, f.apps);
    PersonGrantAfter(s.people, Import(s, f).apps, DecideKinds(s.people, f.people), f.people, email, client);
  }

  /** And so does a role in a group's grant. */
  lemma GroupRolesTaken(s: Instance, f: File, name: string, client: string, role: string)
    requires Consistent(s) && Held(GroupGrant(s.groups, name, client), role)
    ensures var said := LastGroupGrant(f.groups, name, client);
      !Held(GroupGrant(Import(s, f).groups, name, client), role) <==> said.Some? && role !in said.value.roles
  {
    ImportGrowsApps(s.apps, f.apps);
    GroupGrantAfter(s.groups, Import(s, f).apps, Import(s, f).people.Keys, f.groups, name, client);
  }

  /** Nothing else goes: no row, no declared role, and no grant, though its roles may all be taken. */
  lemma NothingElseTaken(s: Instance, f: File)
    ensures var t := Import(s, f);
      && s.apps.Keys <= t.apps.Keys && s.people.Keys <= t.people.Keys && s.groups.Keys <= t.groups.Keys
      && (forall id :: id in s.apps ==> s.apps[id].roles.Keys <= t.apps[id].roles.Keys)
    ensures forall email, client ::
      PersonGrant(s.people, email, client).Some? ==> PersonGrant(Import(s, f).people, email, client).Some?
    ensures forall name, client ::
      GroupGrant(s.groups, name, client).Some? ==> GroupGrant(Import(s, f).groups, name, client).Some?
  {
    var t := Import(s, f);
    CreatesWhatThePlanSays(s, f);
    ImportGrowsApps(s.apps, f.apps);
    forall email, client | PersonGrant(s.people, email, client).Some?
      ensures PersonGrant(t.people, email, client).Some?
    {
      PersonGrantAfter(s.people, t.apps, DecideKinds(s.people, f.people), f.people, email, client);
    }
    forall name, client | GroupGrant(s.groups, name, client).Some?
      ensures GroupGrant(t.groups, name, client).Some?
    {
      GroupGrantAfter(s.groups, t.apps, t.people.Keys, f.groups, name, client);
    }
  }

  /** One import that takes a URI, a member, a person's role and a group's role at once. */
  lemma ImportRemoves() returns (s: Instance, f: File)
    ensures Consistent(s)
    ensures HasUri(s.apps, "app", "old") && !HasUri(Import(s, f).apps, "app", "old")
    ensures IsMember(s.groups, "staff", "ann") && !IsMember(Import(s, f).groups, "staff", "ann")
    ensures Held(PersonGrant(s.people, "ann", "app"), "admin")
      && !Held(PersonGrant(Import(s, f).people, "ann", "app"), "admin")
    ensures Held(GroupGrant(s.groups, "staff", "app"), "admin")
      && !Held(GroupGrant(Import(s, f).groups, "staff", "app"), "admin")
  {
    var profile := Profile("App", "", PublicNative, [], None, "roles", true);
    var app := App(profile, None, None, None, {"old"}, map["admin" := Role("Admin", "", 1, false)]);
    var ann := Person("ann", "Ann", Guest, Active, 0, true, map["app" := {"admin"}]);
    s := Instance(map["app" := app], map["ann" := ann], map["staff" := Group("", {"ann"}, map["app" := {"admin"}])]);
    var appEntry := AppEntry("app", profile, None, None, ["new"], []);
    var annEntry := PersonEntry("ann", "ann", "Ann", Guest, Active, [GrantEntry("app", [])]);
    var staffEntry := GroupEntry("staff", "", [], [GrantEntry("app", [])]);
    f := File([appEntry], [annEntry], [staffEntry]);
    assert LastUris(f.apps, "app", "old") == Some(appEntry);
    assert LastGroup(f.groups, "staff") == Some(staffEntry);
    assert LastPersonGrant(f.people, "ann", "app") == Some(GrantEntry("app", []));
    assert LastGroupGrant(f.groups, "staff", "app") == Some(GrantEntry("app", []));
    UrisTaken(s, f, "app", "old");
    MembersTaken(s, f, "staff", "ann");
    PersonRolesTaken(s, f, "ann", "app", "admin");
    GroupRolesTaken(s, f, "staff", "app", "admin");
  }

  // ---------------------------------------------------------------- what is dropped without a word

  /** Some entry of the file declares this role for the app, or it is already declared here. */
  predicate Declared(apps: map<string, App>, es: seq<AppEntry>, client: string, role: string) {
    || (client in apps && role in apps[client].roles)
    || exists i, j :: 0 <= i < |es| && es[i].clientId == client && 0 <= j < |es[i].roles| && es[i].roles[j].key == role
  }

  lemma {:induction false} RolePut(roles: map<string, Role>, es: seq<RoleEntry>, total: nat, role: string)
    requires |es| <= total
    ensures role in PutRoles(roles, es, total) <==> role in roles || exists j :: 0 <= j < |es| && es[j].key == role
  {
    if es != [] {
      var front := es[..|es| - 1];
      RolePut(roles, front, total, role);
      assert forall j :: 0 <= j < |front| ==> front[j] == es[j];
    }
  }

  predicate DeclaredIn(e: AppEntry, client: string, role: string) {
    e.clientId == client && exists j :: 0 <= j < |e.roles| && e.roles[j].key == role
  }

  lemma {:induction false} DeclaredAfter(apps: map<string, App>, es: seq<AppEntry>, client: string, role: string)
    ensures (client in ImportApps(apps, es) && role in ImportApps(apps, es)[client].roles)
      <==> Declared(apps, es, client, role)
  {
    if es != [] {
      var front, e := es[..|es| - 1], es[|es| - 1];
      DeclaredAfter(apps, front, client, role);
      MoreDeclared(apps, front, e, client, role);
      assert front + [e] == es;
      var before := ImportApps(apps, front);
      if e.clientId == client {
        RolePut(if client in before then before[client].roles else map[], e.roles, |e.roles|, role);
      }
    }
  }

  lemma MoreDeclared(apps: map<string, App>, front: seq<AppEntry>, e: AppEntry, client: string, role: string)
    ensures Declared(apps, front + [e], client, role)
      <==> (Declared(apps, front, client, role) || DeclaredIn(e, client, role))
  {
    var es := front + [e];
    assert forall i :: 0 <= i < |front| ==> es[i] == front[i];
    assert es[|front|] == e;
  }

  /** The app of a grant is here or in the file. */
  predicate Known(apps: map<string, App>, es: seq<AppEntry>, client: string) {
    client in apps || client in AppIds(es)
  }

  /**
   * The plan promises to list whatever the file asks for that cannot be done. Of the roles the
   * deciding entry of a person's grant lists, one is lost without being listed exactly when the app
   * is known and declares no such role, neither here nor anywhere in the file.
   */
  lemma PersonRolesDroppedSilently(s: Instance, f: File, email: string, client: string, role: string)
    requires Consistent(s)
    requires LastPersonGrant(f.people, email, client).Some?
    requires role in LastPersonGrant(f.people, email, client).value.roles
    ensures (!Held(PersonGrant(Import(s, f).people, email, client), role)
             && GrantUnknown(APerson(email), client) !in PlanOf(s, f).problems)
      <==> (Known(s.apps, f.apps, client) && !Declared(s.apps, f.apps, client, role))
  {
    var t := Import(s, f);
    AppsOnlyGrow(s.apps, f.apps);
    DeclaredAfter(s.apps, f.apps, client, role);
    PersonGrantAfter(s.people, t.apps, DecideKinds(s.people, f.people), f.people, email, client);
    var i, j := PersonGrantIsThere(f.people, email, client);
    SkippedGrantsAreReported(s, f, i, j);
  }

  lemma {:induction false} GrantIsThere(es: seq<GrantEntry>, client: string) returns (j: nat)
    requires LastGrant(es, client).Some?
    ensures j < |es| && es[j].clientId == client
  {
    j := |es| - 1;
    if es[j].clientId != client {
      j := GrantIsThere(es[..j], client);
    }
  }

  lemma {:induction false} PersonGrantIsThere(es: seq<PersonEntry>, email: string, client: string)
      returns (i: nat, j: nat)
    requires LastPersonGrant(es, email, client).Some?
    ensures i < |es| && es[i].email == email && j < |es[i].grants| && es[i].grants[j].clientId == client
  {
    i := |es| - 1;
    if es[i].email == email && LastGrant(es[i].grants, client).Some? {
      j := GrantIsThere(es[i].grants, client);
    } else {
      i, j := PersonGrantIsThere(es[..i], email, client);
    }
  }

  lemma {:induction false} GroupGrantIsThere(es: seq<GroupEntry>, name: string, client: string) returns (i: nat, j: nat)
    requires LastGroupGrant(es, name, client).Some?
    ensures i < |es| && es[i].name == name && j < |es[i].grants| && es[i].grants[j].clientId == client
  {
    i := |es| - 1;
    if es[i].name == name && LastGrant(es[i].grants, client).Some? {
      j := GrantIsThere(es[i].grants, client);
    } else {
      i, j := GroupGrantIsThere(es[..i], name, client);
    }
  }

  /** And the same of a group's grant. */
  lemma GroupRolesDroppedSilently(s: Instance, f: File, name: string, client: string, role: string)
    requires Consistent(s)
    requires LastGroupGrant(f.groups, name, client).Some?
    requires role in LastGroupGrant(f.groups, name, client).value.roles
    ensures (!Held(GroupGrant(Import(s, f).groups, name, client), role)
             && GrantUnknown(AGroup(name), client) !in PlanOf(s, f).problems)
      <==> (Known(s.apps, f.apps, client) && !Declared(s.apps, f.apps, client, role))
  {
    var t := Import(s, f);
    AppsOnlyGrow(s.apps, f.apps);
    DeclaredAfter(s.apps, f.apps, client, role);
    GroupGrantAfter(s.groups, t.apps, t.people.Keys, f.groups, name, client);
    var i, j := GroupGrantIsThere(f.groups, name, client);
    SkippedGroupGrantsAreReported(s, f, i, j);
  }

  lemma OnlyGrant(es: seq<PersonEntry>)
    requires |es| == 1 && |es[0].grants| == 1
    ensures LastPersonGrant(es, es[0].email, es[0].grants[0].clientId) == Some(es[0].grants[0])
  {
  }

  lemma NothingToReport(f: File, grant: GrantEntry)
    requires |f.apps| == |f.people| == 1 && f.groups == [] && f.apps[0].preset.None?
    requires f.people[0].grants == [grant] && grant.clientId in AppIds(f.apps) && f.people[0].kind == Guest
    ensures PlanOf(Empty, f).problems == []
  {
    var apps := Elements(AppIds(f.apps)) + Empty.apps.Keys;
    var known := Empty.people.Keys + Elements(Emails(f.people));
    assert f.apps[..0] == [] && f.people[..0] == [];
    assert f.people[0].grants[..0] == [];
    assert GrantProblems(APerson(f.people[0].email), [grant], apps) == [];
    assert PeopleProblems(f.people, apps) == [];
    assert GroupProblems(f.groups, known, apps) == [];
    assert PresetProblems(f.apps) == [];
    assert KindProblems(Empty.people, f.people) == [];
  }

  /** An import with nothing at all to report that drops a role its file grants. */
  lemma DroppedInSilence() returns (f: File)
    ensures PlanOf(Empty, f).problems == []
    ensures LastPersonGrant(f.people, "ann", "app") == Some(GrantEntry("app", ["boss"]))
    ensures !Held(PersonGrant(Import(Empty, f).people, "ann", "app"), "boss")
  {
    var profile := Profile("App", "", PublicNative, [], None, "roles", true);
    var app, grant := AppEntry("app", profile, None, None, [], []), GrantEntry("app", ["boss"]);
    f := File([app], [PersonEntry("ann", "ann", "Ann", Guest, Invited, [grant])], []);
    OnlyGrant(f.people);
    assert f.apps[0].clientId == AppIds(f.apps)[0] == "app";
    NothingToReport(f, grant);
    assert !Declared(Empty.apps, f.apps, "app", "boss");
    PersonRolesDroppedSilently(Empty, f, "ann", "app", "boss");
  }
}
