/**
 Exporting an instance, importing the file into an empty one, and exporting again. Queries without
 an ordering may answer in any order, so an export is any file that lists the instance's rows, and
 what is proved holds of every one.
 */
module ExportRoundTrip {
  import opened Common
  import opened People
  import opened AdminState
  import opened ImportPlan
  import ImportIdempotence

  /** The elements of a set, each once, in an order that depends only on the set. */
  ghost function Listing(s: set<string>): (r: seq<string>)
    ensures Distinct(r) && forall x :: x in r <==> x in s
  {
    if s == {} then []
    else
      var x :| x in s;
      var rest := Listing(s - {x});
      [x] + rest
  }

  ghost predicate Distinct(s: seq<string>) {
    forall i, j :: 0 <= i < j < |s| ==> s[i] != s[j]
  }

  /** `value ? {...} : {}`: an empty string is treated as absent. */
  function Truthy(v: Option<string>): Option<string> {
    if v == Some("") then None else v
  }

  ghost predicate IsTop(roles: map<string, Role>, k: string) {
    k in roles && forall j :: j in roles ==> roles[j].sortOrder <= roles[k].sortOrder
  }

  lemma TopExists(roles: map<string, Role>)
    requires roles != map[]
    ensures exists k :: IsTop(roles, k)
  {
    var k :| k in roles;
    var rest := roles - {k};
    if rest == map[] {
      assert forall j :: j in roles ==> j == k || j in rest;
      assert IsTop(roles, k);
    } else {
      TopExists(rest);
      var t :| IsTop(rest, t);
      assert forall j :: j in roles ==> j == k || j in rest;
      assert IsTop(roles, if roles[t].sortOrder < roles[k].sortOrder then k else t);
    }
  }

  /** Role keys by sort order, highest first. */
  ghost function RolesInOrder(roles: map<string, Role>): (r: seq<string>)
    ensures forall k :: k in r <==> k in roles
    ensures |r| == |roles|
  {
    if roles == map[] then []
    else
      TopExists(roles);
      var k :| IsTop(roles, k);
      assert roles.Keys == {k} + (roles - {k}).Keys;
      [k] + RolesInOrder(roles - {k})
  }

  // ---------------------------------------------------------------- what an export is

  /** Exactly these, each once, in some order. */
  ghost predicate Lists(s: seq<string>, of: set<string>) {
    Distinct(s) && forall x :: x in s <==> x in of
  }

  function RoleKeys(es: seq<RoleEntry>): seq<string> { seq(|es|, i requires 0 <= i < |es| => es[i].key) }

  function GrantIds(es: seq<GrantEntry>): seq<string> { seq(|es|, i requires 0 <= i < |es| => es[i].clientId) }

  function RoleEntryOf(key: string, r: Role): RoleEntry { RoleEntry(key, r.display, r.description, r.isDefault) }

  ghost predicate HighestFirst(keys: seq<string>, roles: map<string, Role>) {
    forall i, j :: 0 <= i < j < |keys| && keys[i] in roles && keys[j] in roles ==>
      roles[keys[i]].sortOrder >= roles[keys[j]].sortOrder
  }

  /** The roles of an app, none before one of a higher sort order. */
  ghost predicate RolesExported(es: seq<RoleEntry>, roles: map<string, Role>) {
    && Lists(RoleKeys(es), roles.Keys)
    && (forall i :: 0 <= i < |es| ==> es[i].key in roles && es[i] == RoleEntryOf(es[i].key, roles[es[i].key]))
    && HighestFirst(RoleKeys(es), roles)
  }

  function ExportedProfile(a: App): Profile { a.profile.(backchannel := Truthy(a.profile.backchannel)) }

  function ExportedPreset(a: App): Option<Preset> {
    if a.preset.Some? && a.preset.value.key == "" then None else a.preset
  }

  ghost predicate AppExported(e: AppEntry, a: App) {
    && e.profile == ExportedProfile(a) && e.homeUrl == Truthy(a.homeUrl) && e.preset == ExportedPreset(a)
    && Lists(e.redirectUris, a.redirectUris) && RolesExported(e.roles, a.roles)
  }

  ghost predicate GrantsExported(es: seq<GrantEntry>, grants: Grants) {
    && Lists(GrantIds(es), grants.Keys)
    && (forall i :: 0 <= i < |es| ==> es[i].clientId in grants && Lists(es[i].roles, grants[es[i].clientId]))
  }

  ghost predicate PersonExported(e: PersonEntry, p: Person) {
    && (e.username, e.displayName, e.kind, e.status) == (p.username, p.displayName, p.kind, p.status)
    && GrantsExported(e.grants, p.grants)
  }

  ghost predicate GroupExported(e: GroupEntry, g: Group) {
    e.description == g.description && Lists(e.members, g.members) && GrantsExported(e.grants, g.grants)
  }

  ghost predicate AppsExported(es: seq<AppEntry>, apps: map<string, App>) {
    && Lists(AppIds(es), apps.Keys)
    && (forall i :: 0 <= i < |es| ==> es[i].clientId in apps && AppExported(es[i], apps[es[i].clientId]))
  }

  ghost predicate PeopleExported(es: seq<PersonEntry>, people: map<string, Person>) {
    && Lists(Emails(es), people.Keys)
    && (forall i :: 0 <= i < |es| ==> es[i].email in people && PersonExported(es[i], people[es[i].email]))
  }

  ghost predicate GroupsExported(es: seq<GroupEntry>, groups: map<string, Group>) {
    && Lists(GroupNames(es), groups.Keys)
    && (forall i :: 0 <= i < |es| ==> es[i].name in groups && GroupExported(es[i], groups[es[i].name]))
  }

  /** A file the export may answer with, whatever order rows come back in. */
  ghost predicate IsExport(s: Instance, f: File) {
    AppsExported(f.apps, s.apps) && PeopleExported(f.people, s.people) && GroupsExported(f.groups, s.groups)
  }

  // ---------------------------------------------------------------- there is one

  ghost function ExportedRoles(roles: map<string, Role>): seq<RoleEntry> {
    var order := RolesInOrder(roles);
    seq(|order|, i requires 0 <= i < |order| =>
      RoleEntry(order[i], roles[order[i]].display, roles[order[i]].description, roles[order[i]].isDefault))
  }

  ghost function ExportedApp(id: string, a: App): AppEntry {
    AppEntry(id, a.profile.(backchannel := Truthy(a.profile.backchannel)), Truthy(a.homeUrl),
             if a.preset.Some? && a.preset.value.key == "" then None else a.preset,
             Listing(a.redirectUris), ExportedRoles(a.roles))
  }

  ghost function ExportedGrants(grants: Grants): seq<GrantEntry> {
    var ids := Listing(grants.Keys);
    seq(|ids|, i requires 0 <= i < |ids| => GrantEntry(ids[i], Listing(grants[ids[i]])))
  }

  ghost function ExportedPerson(email: string, p: Person): PersonEntry {
    PersonEntry(email, p.username, p.displayName, p.kind, p.status, ExportedGrants(p.grants))
  }

  ghost function ExportedGroup(name: string, g: Group): GroupEntry {
    GroupEntry(name, g.description, Listing(g.members), ExportedGrants(g.grants))
  }

  ghost function ExportedApps(apps: map<string, App>): seq<AppEntry> {
    var ids := Listing(apps.Keys);
    seq(|ids|, i requires 0 <= i < |ids| => ExportedApp(ids[i], apps[ids[i]]))
  }

  ghost function ExportedPeople(people: map<string, Person>): seq<PersonEntry> {
    var emails := Listing(people.Keys);
    seq(|emails|, i requires 0 <= i < |emails| => ExportedPerson(emails[i], people[emails[i]]))
  }

  ghost function ExportedGroups(groups: map<string, Group>): seq<GroupEntry> {
    var names := Listing(groups.Keys);
    seq(|names|, i requires 0 <= i < |names| => ExportedGroup(names[i], groups[names[i]]))
  }

  ghost function Export(s: Instance): File {
    File(ExportedApps(s.apps), ExportedPeople(s.people), ExportedGroups(s.groups))
  }

  lemma RolesAreExported(roles: map<string, Role>)
    ensures RolesExported(ExportedRoles(roles), roles)
  {
    OrderIsDistinct(roles);
    OrderDescends(roles);
    EntriesAreExported(RolesInOrder(roles), ExportedRoles(roles), roles);
  }

  lemma EntriesAreExported(order: seq<string>, es: seq<RoleEntry>, roles: map<string, Role>)
    requires Lists(order, roles.Keys) && HighestFirst(order, roles) && |es| == |order|
    requires forall i :: 0 <= i < |es| ==> order[i] in roles && es[i] == RoleEntryOf(order[i], roles[order[i]])
    ensures RolesExported(es, roles)
  {
    assert RoleKeys(es) == order;
  }

  lemma GrantsAreExported(grants: Grants)
    ensures GrantsExported(ExportedGrants(grants), grants)
  {
    var ids, es := Listing(grants.Keys), ExportedGrants(grants);
    assert GrantIds(es) == ids;
    forall i | 0 <= i < |es| ensures es[i].clientId in grants { assert ids[i] in ids; }
  }

  lemma AppsAreExported(apps: map<string, App>)
    ensures AppsExported(ExportedApps(apps), apps)
  {
    var ids, es := Listing(apps.Keys), ExportedApps(apps);
    assert AppIds(es) == ids;
    forall i | 0 <= i < |es| ensures es[i].clientId in apps && AppExported(es[i], apps[es[i].clientId]) {
      assert ids[i] in ids;
      RolesAreExported(apps[ids[i]].roles);
    }
  }

  lemma PeopleAreExported(people: map<string, Person>)
    ensures PeopleExported(ExportedPeople(people), people)
  {
    var emails, es := Listing(people.Keys), ExportedPeople(people);
    assert Emails(es) == emails;
    forall i | 0 <= i < |es| ensures es[i].email in people && PersonExported(es[i], people[es[i].email]) {
      assert emails[i] in emails;
      GrantsAreExported(people[emails[i]].grants);
    }
  }

  lemma GroupsAreExported(groups: map<string, Group>)
    ensures GroupsExported(ExportedGroups(groups), groups)
  {
    var names, es := Listing(groups.Keys), ExportedGroups(groups);
    assert GroupNames(es) == names;
    forall i | 0 <= i < |es| ensures es[i].name in groups && GroupExported(es[i], groups[es[i].name]) {
      assert names[i] in names;
      GrantsAreExported(groups[names[i]].grants);
    }
  }

  /** Every instance can be exported. */
  lemma ExportExists(s: Instance)
    ensures IsExport(s, Export(s))
  {
    AppsAreExported(s.apps);
    PeopleAreExported(s.people);
    GroupsAreExported(s.groups);
  }

  // ---------------------------------------------------------------- roles

  lemma {:induction false} PutRolesAt(entries: seq<RoleEntry>, total: nat, i: nat)
    requires i < |entries| <= total && forall j :: i < j < |entries| ==> entries[j].key != entries[i].key
    ensures var r := PutRoles(map[], entries, total);
      entries[i].key in r && r[entries[i].key]
        == Role(entries[i].display, entries[i].description, total - i, entries[i].isDefault)
  {
    if i < |entries| - 1 {
      PutRolesAt(entries[..|entries| - 1], total, i);
    }
  }

  lemma {:induction false} PutRolesKeys(entries: seq<RoleEntry>, total: nat, k: string)
    requires |entries| <= total
    ensures k in PutRoles(map[], entries, total) <==> exists i :: 0 <= i < |entries| && entries[i].key == k
  {
    if entries != [] {
      var front := entries[..|entries| - 1];
      PutRolesKeys(front, total, k);
      assert forall i :: 0 <= i < |front| ==> front[i] == entries[i];
    }
  }

  lemma {:induction false} OrderIsDistinct(roles: map<string, Role>)
    ensures Distinct(RolesInOrder(roles))
  {
    if roles != map[] {
      var order := RolesInOrder(roles);
      var k := order[0];
      assert order[1..] == RolesInOrder(roles - {k});
      OrderIsDistinct(roles - {k});
      forall i, j | 0 <= i < j < |order| ensures order[i] != order[j] {
        assert order[j] == order[1..][j - 1];
        if i > 0 { assert order[i] == order[1..][i - 1]; } else { assert order[j] in order[1..]; }
      }
    }
  }

  lemma {:induction false} OrderDescends(roles: map<string, Role>)
    ensures HighestFirst(RolesInOrder(roles), roles)
  {
    if roles != map[] {
      var order := RolesInOrder(roles);
      var k := order[0];
      assert order[1..] == RolesInOrder(roles - {k});
      OrderDescends(roles - {k});
      OrderIsDistinct(roles);
      forall i, j | 0 <= i < j < |order| && order[i] in roles && order[j] in roles
        ensures roles[order[i]].sortOrder >= roles[order[j]].sortOrder
      {
        if i > 0 {
          assert order[1..][i - 1] == order[i] && order[1..][j - 1] == order[j];
          assert order[1..][i - 1] in order[1..] && order[1..][j - 1] in order[1..];
        } else {
          assert IsTop(roles, k);
        }
      }
    }
  }

  /** A listing of exactly these roles, strictly descending by sort order. */
  ghost predicate Descends(roles: map<string, Role>, order: seq<string>) {
    && (forall k :: k in order <==> k in roles)
    && (forall i, j :: 0 <= i < j < |order| ==> roles[order[i]].sortOrder > roles[order[j]].sortOrder)
  }

  ghost predicate IsOnlyTop(roles: map<string, Role>, k: string) {
    k in roles && forall j :: j in roles && j != k ==> roles[j].sortOrder < roles[k].sortOrder
  }

  /** The same, read off one role at a time. */
  ghost predicate PicksTops(roles: map<string, Role>, order: seq<string>) {
    if order == [] then roles == map[]
    else IsOnlyTop(roles, order[0]) && PicksTops(roles - {order[0]}, order[1..])
  }

  lemma FirstIsOnlyTop(roles: map<string, Role>, order: seq<string>)
    requires Descends(roles, order) && order != []
    ensures IsOnlyTop(roles, order[0])
  {
    assert order[0] in order;
    forall j | j in roles && j != order[0] ensures roles[j].sortOrder < roles[order[0]].sortOrder {
      assert j in order;
      var i :| 0 <= i < |order| && order[i] == j;
    }
  }

  lemma RestDescends(roles: map<string, Role>, order: seq<string>)
    requires Descends(roles, order) && order != []
    ensures order[0] in roles && Descends(roles - {order[0]}, order[1..])
  {
    var k, rest := order[0], order[1..];
    assert k in order;
    forall x ensures x in rest <==> x in roles - {k} {
      if x in rest {
        var i :| 0 <= i < |rest| && rest[i] == x;
        assert order[i + 1] == x && x in order;
      }
      if x in roles - {k} {
        assert x in order;
        var i :| 0 <= i < |order| && order[i] == x;
        assert rest[i - 1] == x;
      }
    }
    forall i, j | 0 <= i < j < |rest| ensures (roles - {k})[rest[i]].sortOrder > (roles - {k})[rest[j]].sortOrder {
      assert rest[i] == order[i + 1] && rest[j] == order[j + 1] && rest[i] in rest && rest[j] in rest;
    }
  }

  lemma {:induction false} DescendingPicksTops(roles: map<string, Role>, order: seq<string>)
    requires Descends(roles, order)
    ensures PicksTops(roles, order)
    decreases |order|
  {
    if order == [] {
      assert forall k :: k !in roles;
    } else {
      FirstIsOnlyTop(roles, order);
      RestDescends(roles, order);
      DescendingPicksTops(roles - {order[0]}, order[1..]);
    }
  }

  /** A strictly descending listing of the roles is the order they are exported in. */
  lemma {:induction false} OrderIsUnique(roles: map<string, Role>, order: seq<string>)
    requires PicksTops(roles, order)
    ensures RolesInOrder(roles) == order
  {
    if order != [] {
      var r := RolesInOrder(roles);
      assert IsTop(roles, r[0]);
      assert r[0] == order[0];
      OrderIsUnique(roles - {order[0]}, order[1..]);
    }
  }

  /** Roles as an import into nothing writes them: numbered from the number of roles down to one. */
  function Renumbered(es: seq<RoleEntry>): map<string, Role> { PutRoles(map[], es, |es|) }

  lemma RenumberedAt(es: seq<RoleEntry>, roles: map<string, Role>, i: nat)
    requires RolesExported(es, roles) && i < |es|
    ensures es[i].key in Renumbered(es) && es[i].key in roles
    ensures Renumbered(es)[es[i].key] == roles[es[i].key].(sortOrder := |es| - i)
  {
    forall j | i < j < |es| ensures es[j].key != es[i].key {
      assert RoleKeys(es)[i] != RoleKeys(es)[j];
    }
    PutRolesAt(es, |es|, i);
  }

  lemma RenumberedKeys(es: seq<RoleEntry>, roles: map<string, Role>)
    requires RolesExported(es, roles)
    ensures Renumbered(es).Keys == roles.Keys
  {
    forall k ensures k in Renumbered(es) <==> k in RoleKeys(es) {
      PutRolesKeys(es, |es|, k);
      if i :| 0 <= i < |es| && es[i].key == k { assert RoleKeys(es)[i] == k; }
    }
  }

  lemma RenumberedDescends(es: seq<RoleEntry>, roles: map<string, Role>)
    requires RolesExported(es, roles)
    ensures Descends(Renumbered(es), RoleKeys(es))
  {
    RenumberedKeys(es, roles);
    forall i, j | 0 <= i < j < |es|
      ensures Renumbered(es)[es[i].key].sortOrder > Renumbered(es)[es[j].key].sortOrder
    {
      RenumberedAt(es, roles, i);
      RenumberedAt(es, roles, j);
    }
  }

  /** With distinct sort orders there is one order to list roles in. */
  lemma StrictOrderIsUnique(roles: map<string, Role>, a: seq<string>, b: seq<string>)
    requires Descends(roles, a) && Descends(roles, b)
    ensures a == b
  {
    DescendingPicksTops(roles, a);
    DescendingPicksTops(roles, b);
    OrderIsUnique(roles, a);
    OrderIsUnique(roles, b);
  }

  ghost predicate DistinctOrders(roles: map<string, Role>) {
    forall j, k :: j in roles && k in roles && roles[j].sortOrder == roles[k].sortOrder ==> j == k
  }

  lemma ExportDescends(es: seq<RoleEntry>, roles: map<string, Role>)
    requires RolesExported(es, roles) && DistinctOrders(roles)
    ensures Descends(roles, RoleKeys(es))
  {
    forall i, j | 0 <= i < j < |es| ensures roles[es[i].key].sortOrder > roles[es[j].key].sortOrder {
      assert RoleKeys(es)[i] != RoleKeys(es)[j];
    }
  }

  /** Two exports of the same roles, if their sort orders are distinct, list them alike. */
  lemma RoleListIsDetermined(roles: map<string, Role>, es: seq<RoleEntry>, gs: seq<RoleEntry>)
    requires DistinctOrders(roles) && RolesExported(es, roles) && RolesExported(gs, roles)
    ensures es == gs
  {
    ExportDescends(es, roles);
    ExportDescends(gs, roles);
    StrictOrderIsUnique(roles, RoleKeys(es), RoleKeys(gs));
    SameKeysSameEntries(roles, es, gs);
  }

  lemma SameKeysSameEntries(roles: map<string, Role>, es: seq<RoleEntry>, gs: seq<RoleEntry>)
    requires RolesExported(es, roles) && RolesExported(gs, roles) && RoleKeys(es) == RoleKeys(gs)
    ensures es == gs
  {
    assert |es| == |RoleKeys(es)| == |RoleKeys(gs)| == |gs|;
    forall i | 0 <= i < |es| ensures es[i] == gs[i] {
      assert es[i].key == RoleKeys(es)[i] == RoleKeys(gs)[i] == gs[i].key;
    }
  }

  lemma RenumberedExported(es: seq<RoleEntry>, roles: map<string, Role>)
    requires RolesExported(es, roles)
    ensures RolesExported(es, Renumbered(es))
  {
    RenumberedKeys(es, roles);
    RenumberedDescends(es, roles);
    forall i | 0 <= i < |es|
      ensures es[i].key in Renumbered(es) && es[i] == RoleEntryOf(es[i].key, Renumbered(es)[es[i].key])
    {
      RenumberedAt(es, roles, i);
    }
    EntriesAreExported(RoleKeys(es), es, Renumbered(es));
  }

  /**
   * Renumbering keeps the order, the texts and the default flags: the roles an export lists are what
   * the next export lists, and nothing else is.
   */
  lemma RenumberedKeeps(es: seq<RoleEntry>, roles: map<string, Role>, gs: seq<RoleEntry>)
    requires RolesExported(es, roles)
    ensures RolesExported(gs, Renumbered(es)) <==> gs == es
  {
    RenumberedExported(es, roles);
    if RolesExported(gs, Renumbered(es)) {
      RenumberedDistinct(es, roles);
      RoleListIsDetermined(Renumbered(es), es, gs);
    }
  }

  lemma RenumberedDistinct(es: seq<RoleEntry>, roles: map<string, Role>)
    requires RolesExported(es, roles)
    ensures DistinctOrders(Renumbered(es))
  {
    RenumberedKeys(es, roles);
    var r := Renumbered(es);
    forall j, k | j in r && k in r && r[j].sortOrder == r[k].sortOrder ensures j == k
    {
      assert j in RoleKeys(es) && k in RoleKeys(es);
      var x :| 0 <= x < |es| && RoleKeys(es)[x] == j;
      var y :| 0 <= y < |es| && RoleKeys(es)[y] == k;
      RenumberedAt(es, roles, x);
      RenumberedAt(es, roles, y);
    }
  }

  // ---------------------------------------------------------------- what the move to an empty instance leaves

  /** The roles a file lists for this app. */
  function RolesOf(es: seq<AppEntry>, id: string): seq<RoleEntry> {
    if es == [] then []
    else if es[|es| - 1].clientId == id then es[|es| - 1].roles
    else RolesOf(es[..|es| - 1], id)
  }

  function MovedApp(a: App, listed: seq<RoleEntry>): App {
    App(ExportedProfile(a), Truthy(a.homeUrl), ExportedPreset(a), None, a.redirectUris, Renumbered(listed))
  }

  /** Nobody can sign in after the move, and nobody is powerful. */
  function MovedPerson(p: Person): Person {
    p.(kind := Guest, status := if p.status == Suspended then Suspended else Invited,
       factors := 0, credentials := false)
  }

  function MovedApps(apps: map<string, App>, f: seq<AppEntry>): map<string, App> {
    map id | id in apps :: MovedApp(apps[id], RolesOf(f, id))
  }

  function MovedPeople(people: map<string, Person>): map<string, Person> {
    map e | e in people :: MovedPerson(people[e])
  }

  /** Apps with their roles numbered as this export lists them, people without power or sign-in, and the same groups. */
  function Moved(s: Instance, f: File): Instance {
    Instance(MovedApps(s.apps, f.apps), MovedPeople(s.people), s.groups)
  }

  // ---------------------------------------------------------------- importing each kind of row from nothing

  lemma {:induction false} AppsFromNothing(es: seq<AppEntry>, i: nat)
    requires i < |es| && forall j, k :: 0 <= j < k < |es| ==> es[j].clientId != es[k].clientId
    ensures Lookup(ImportApps(map[], es), es[i].clientId) == Some(ImportedApp(None, es[i]))
  {
    var front, e := es[..|es| - 1], es[|es| - 1];
    if i < |front| {
      AppsFromNothing(front, i);
    } else {
      AppsOnlyGrow(map[], front);
      assert e.clientId !in AppIds(front);
    }
  }

  lemma {:induction false} GrantsFromNothing(apps: map<string, App>, es: seq<GrantEntry>, i: nat)
    requires i < |es| && es[i].clientId in apps && forall j, k :: 0 <= j < k < |es| ==> es[j].clientId != es[k].clientId
    ensures Lookup(ImportGrants(map[], apps, es), es[i].clientId)
      == Some(set key | key in apps[es[i].clientId].roles && key in es[i].roles)
  {
    if i < |es| - 1 {
      GrantsFromNothing(apps, es[..|es| - 1], i);
    }
  }

  lemma {:induction false} GrantsFromNowhere(apps: map<string, App>, es: seq<GrantEntry>, id: string)
    requires id in ImportGrants(map[], apps, es)
    ensures exists i :: 0 <= i < |es| && es[i].clientId == id
  {
    var front := es[..|es| - 1];
    if id in ImportGrants(map[], apps, front) {
      GrantsFromNowhere(apps, front, id);
      var i :| 0 <= i < |front| && front[i].clientId == id;
      assert es[i] == front[i];
    }
  }

  lemma {:induction false} PeopleFromNothing(
        apps: map<string, App>, kinds: map<string, Kind>, es: seq<PersonEntry>, i: nat)
    requires i < |es| && forall j, k :: 0 <= j < k < |es| ==> es[j].email != es[k].email
    ensures Lookup(ImportPeople(map[], apps, kinds, es), es[i].email)
      == Some(ImportedPerson(None, apps, es[i], Lookup(kinds, es[i].email)))
  {
    var front, e := es[..|es| - 1], es[|es| - 1];
    if i < |front| {
      PeopleFromNothing(apps, kinds, front, i);
    } else {
      ImportIdempotence.PeopleOnlyGrow(map[], apps, kinds, front);
    }
  }

  lemma {:induction false} GroupsFromNothing(apps: map<string, App>, known: set<string>, es: seq<GroupEntry>, i: nat)
    requires i < |es| && forall j, k :: 0 <= j < k < |es| ==> es[j].name != es[k].name
    ensures Lookup(ImportGroups(map[], apps, known, es), es[i].name) == Some(ImportedGroup(None, apps, known, es[i]))
  {
    var front, e := es[..|es| - 1], es[|es| - 1];
    if i < |front| {
      GroupsFromNothing(apps, known, front, i);
    } else {
      GroupsOnlyGrow(map[], apps, known, front);
      assert e.name !in GroupNames(front);
    }
  }

  // ---------------------------------------------------------------- the round trip

  lemma {:induction false} RolesOfEntry(es: seq<AppEntry>, i: nat)
    requires i < |es| && forall j :: i < j < |es| ==> es[j].clientId != es[i].clientId
    ensures RolesOf(es, es[i].clientId) == es[i].roles
  {
    if i < |es| - 1 {
      RolesOfEntry(es[..|es| - 1], i);
    }
  }

  /** Where an app is in an export of it. */
  lemma AppEntryOf(es: seq<AppEntry>, apps: map<string, App>, id: string) returns (i: nat)
    requires AppsExported(es, apps) && id in apps
    ensures i < |es| && es[i].clientId == id && AppExported(es[i], apps[id]) && RolesOf(es, id) == es[i].roles
    ensures forall j, k :: 0 <= j < k < |es| ==> es[j].clientId != es[k].clientId
  {
    assert id in AppIds(es);
    i :| 0 <= i < |es| && AppIds(es)[i] == id;
    forall j, k | 0 <= j < k < |es| ensures es[j].clientId != es[k].clientId {
      assert AppIds(es)[j] != AppIds(es)[k];
    }
    RolesOfEntry(es, i);
  }

  lemma AppMoves(es: seq<AppEntry>, apps: map<string, App>, id: string)
    requires AppsExported(es, apps) && id in apps
    ensures Lookup(ImportApps(map[], es), id) == Some(MovedApp(apps[id], RolesOf(es, id)))
  {
    var i := AppEntryOf(es, apps, id);
    AppsFromNothing(es, i);
    assert Elements(es[i].redirectUris) == apps[id].redirectUris;
  }

  lemma AppsMove(es: seq<AppEntry>, apps: map<string, App>)
    requires AppsExported(es, apps)
    ensures ImportApps(map[], es) == MovedApps(apps, es)
  {
    AppsOnlyGrow(map[], es);
    var t := ImportApps(map[], es);
    forall id ensures Lookup(t, id) == Lookup(MovedApps(apps, es), id) {
      if id in apps { AppMoves(es, apps, id); }
    }
    ImportIdempotence.SameMap(t, MovedApps(apps, es));
  }

  lemma MovedAppsFit(es: seq<AppEntry>, apps: map<string, App>, grants: Grants)
    requires AppsExported(es, apps) && GrantsFit(grants, apps)
    ensures GrantsFit(grants, MovedApps(apps, es))
  {
    forall id | id in grants ensures grants[id] <= MovedApp(apps[id], RolesOf(es, id)).roles.Keys {
      var i := AppEntryOf(es, apps, id);
      RenumberedKeys(es[i].roles, apps[id].roles);
    }
  }

  /** Grants that fit the apps come back unchanged. */
  lemma GrantsRoundTrip(es: seq<GrantEntry>, grants: Grants, apps: map<string, App>)
    requires GrantsExported(es, grants) && GrantsFit(grants, apps)
    ensures ImportGrants(map[], apps, es) == grants
  {
    var r := ImportGrants(map[], apps, es);
    forall j, k | 0 <= j < k < |es| ensures es[j].clientId != es[k].clientId {
      assert GrantIds(es)[j] != GrantIds(es)[k];
    }
    forall id | id in grants ensures id in r && r[id] == grants[id] {
      assert id in GrantIds(es);
      var i :| 0 <= i < |es| && GrantIds(es)[i] == id;
      GrantsFromNothing(apps, es, i);
      assert (set key | key in apps[id].roles && key in es[i].roles) == grants[id];
    }
    forall id | id in r ensures id in grants {
      GrantsFromNowhere(apps, es, id);
    }
  }

  lemma EverybodyArrivesAsGuest(es: seq<PersonEntry>, i: nat)
    requires i < |es|
    ensures Lookup(DecideKinds(map[], es), es[i].email) == Some(Guest)
  {
    ImportIdempotence.KindsAreDecided(map[], es, es[i].email);
    ImportIdempotence.KindForCases(None, es, es[i].email);
  }

  lemma PersonMoves(es: seq<PersonEntry>, people: map<string, Person>, apps: map<string, App>, email: string)
    requires PeopleExported(es, people) && email in people && GrantsFit(people[email].grants, apps)
    ensures Lookup(ImportPeople(map[], apps, DecideKinds(map[], es), es), email) == Some(MovedPerson(people[email]))
  {
    assert email in Emails(es);
    var i :| 0 <= i < |es| && Emails(es)[i] == email;
    forall j, k | 0 <= j < k < |es| ensures es[j].email != es[k].email {
      assert Emails(es)[j] != Emails(es)[k];
    }
    PeopleFromNothing(apps, DecideKinds(map[], es), es, i);
    EverybodyArrivesAsGuest(es, i);
    GrantsRoundTrip(es[i].grants, people[email].grants, apps);
  }

  lemma PeopleMove(es: seq<PersonEntry>, people: map<string, Person>, apps: map<string, App>)
    requires PeopleExported(es, people) && PeopleFit(people, apps)
    ensures ImportPeople(map[], apps, DecideKinds(map[], es), es) == MovedPeople(people)
  {
    var t := ImportPeople(map[], apps, DecideKinds(map[], es), es);
    ImportIdempotence.PeopleOnlyGrow(map[], apps, DecideKinds(map[], es), es);
    forall email ensures email in t <==> email in Emails(es) {
      if i :| 0 <= i < |es| && es[i].email == email { assert Emails(es)[i] == email; }
    }
    forall email ensures Lookup(t, email) == Lookup(MovedPeople(people), email) {
      if email in people { PersonMoves(es, people, apps, email); }
    }
    ImportIdempotence.SameMap(t, MovedPeople(people));
  }

  lemma GroupMoves(
        es: seq<GroupEntry>, groups: map<string, Group>, apps: map<string, App>, known: set<string>, name: string)
    requires GroupsExported(es, groups) && name in groups && GroupsFit(groups, apps, known)
    ensures Lookup(ImportGroups(map[], apps, known, es), name) == Some(groups[name])
  {
    assert name in GroupNames(es);
    var i :| 0 <= i < |es| && GroupNames(es)[i] == name;
    forall j, k | 0 <= j < k < |es| ensures es[j].name != es[k].name {
      assert GroupNames(es)[j] != GroupNames(es)[k];
    }
    GroupsFromNothing(apps, known, es, i);
    GrantsRoundTrip(es[i].grants, groups[name].grants, apps);
    assert (set m | m in known && m in es[i].members) == groups[name].members;
  }

  lemma GroupsMove(es: seq<GroupEntry>, groups: map<string, Group>, apps: map<string, App>, known: set<string>)
    requires GroupsExported(es, groups) && GroupsFit(groups, apps, known)
    ensures ImportGroups(map[], apps, known, es) == groups
  {
    GroupsOnlyGrow(map[], apps, known, es);
    var t := ImportGroups(map[], apps, known, es);
    forall name ensures Lookup(t, name) == Lookup(groups, name) {
      if name in groups { GroupMoves(es, groups, apps, known, name); }
    }
    ImportIdempotence.SameMap(t, groups);
  }

  lemma MovedAppsFitAll(s: Instance, f: File)
    requires Consistent(s) && AppsExported(f.apps, s.apps)
    ensures PeopleFit(s.people, MovedApps(s.apps, f.apps))
    ensures GroupsFit(s.groups, MovedApps(s.apps, f.apps), s.people.Keys)
  {
    forall email | email in s.people ensures GrantsFit(s.people[email].grants, MovedApps(s.apps, f.apps)) {
      MovedAppsFit(f.apps, s.apps, s.people[email].grants);
    }
    forall name | name in s.groups ensures GrantsFit(s.groups[name].grants, MovedApps(s.apps, f.apps)) {
      MovedAppsFit(f.apps, s.apps, s.groups[name].grants);
    }
  }

  /** Importing any export into an empty instance gives the same instance, without its secrets, kinds and sign-ins. */
  lemma ImportOfExport(s: Instance, f: File)
    requires Consistent(s) && IsExport(s, f)
    ensures Import(Empty, f) == Moved(s, f)
  {
    AppsMove(f.apps, s.apps);
    MovedAppsFitAll(s, f);
    var apps := MovedApps(s.apps, f.apps);
    PeopleMove(f.people, s.people, apps);
    assert MovedPeople(s.people).Keys == s.people.Keys;
    GroupsMove(f.groups, s.groups, apps, s.people.Keys);
  }

  /** Two app lists agree on the roles of every app, in the same order. */
  ghost predicate SameRoleLists(a: seq<AppEntry>, b: seq<AppEntry>) {
    forall i, j :: 0 <= i < |a| && 0 <= j < |b| && a[i].clientId == b[j].clientId ==> a[i].roles == b[j].roles
  }

  lemma MovedAppExported(e: AppEntry, a: App, listed: seq<RoleEntry>)
    requires RolesExported(listed, a.roles) && AppExported(e, MovedApp(a, listed))
    ensures AppExported(e, a) && e.roles == listed
  {
    RenumberedKeeps(listed, a.roles, e.roles);
  }

  lemma MovedAppsExported(f: seq<AppEntry>, apps: map<string, App>, g: seq<AppEntry>)
    requires AppsExported(f, apps) && AppsExported(g, MovedApps(apps, f))
    ensures AppsExported(g, apps) && SameRoleLists(f, g)
  {
    forall j | 0 <= j < |g|
      ensures g[j].clientId in apps && AppExported(g[j], apps[g[j].clientId]) && g[j].roles == RolesOf(f, g[j].clientId)
    {
      var i := AppEntryOf(f, apps, g[j].clientId);
      MovedAppExported(g[j], apps[g[j].clientId], f[i].roles);
    }
    forall i, j | 0 <= i < |f| && 0 <= j < |g| && f[i].clientId == g[j].clientId ensures f[i].roles == g[j].roles {
      var x := AppEntryOf(f, apps, f[i].clientId);
      assert x == i;
    }
  }

  /**
   * And any export of that is an export of the original but for the people: the same apps with the
   * same role lists in the same order, the same groups and members, the same grants everywhere. People
   * differ in kind, now guest, and status, now invited unless suspended, and in nothing else.
   */
  lemma ExportOfImportOfExport(s: Instance, f: File, g: File)
    requires Consistent(s) && IsExport(s, f) && IsExport(Import(Empty, f), g)
    ensures AppsExported(g.apps, s.apps) && SameRoleLists(f.apps, g.apps)
    ensures GroupsExported(g.groups, s.groups)
    ensures PeopleExported(g.people, MovedPeople(s.people))
  {
    ImportOfExport(s, f);
    MovedAppsExported(f.apps, s.apps, g.apps);
  }
}
