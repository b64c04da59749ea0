/**
 The administrative state of an instance, the file that carries it, and what importing a file
 does: a fold of upserts over apps, people and groups. Rows are keyed by the natural keys the
 upserts use: client id, email and group name, taken to be normalised.
 */
module AdminState {
  import opened Common
  import opened People

  datatype ClientType = ConfidentialWeb | PublicNative

  datatype Role = Role(display: string, description: string, sortOrder: int, isDefault: bool)

  /** The scalar columns every import of an app overwrites. */
  datatype Profile = Profile(
    name: string, description: string, clientType: ClientType, postLogout: seq<string>,
    backchannel: Option<string>, rolesClaim: string, enabled: bool)

  datatype Preset = Preset(key: string, inputs: map<string, string>)

  datatype App = App(
    profile: Profile, homeUrl: Option<string>, preset: Option<Preset>, secretHash: Option<string>,
    redirectUris: set<string>, roles: map<string, Role>)

  type Grants = map<string, set<string>>

  /**
   `factors` counts verified factors, and `credentials` says whether there is a password or a
   passkey to sign in with; which rows make one is not part of this model.
   */
  datatype Person = Person(username: string, displayName: string, kind: Kind, status: Status, factors: nat,
    credentials: bool, grants: Grants)

  datatype Group = Group(description: string, members: set<string>, grants: Grants)

  datatype Instance = Instance(apps: map<string, App>, people: map<string, Person>, groups: map<string, Group>)

  const Empty := Instance(map[], map[], map[])

  // ---------------------------------------------------------------- the file

  datatype RoleEntry = RoleEntry(key: string, display: string, description: string, isDefault: bool)

  datatype AppEntry = AppEntry(
    clientId: string, profile: Profile, homeUrl: Option<string>, preset: Option<Preset>,
    redirectUris: seq<string>, roles: seq<RoleEntry>)

  datatype GrantEntry = GrantEntry(clientId: string, roles: seq<string>)

  datatype PersonEntry = PersonEntry(
    email: string, username: string, displayName: string, kind: Kind, status: Status, grants: seq<GrantEntry>)

  datatype GroupEntry = GroupEntry(name: string, description: string, members: seq<string>, grants: seq<GrantEntry>)

  datatype File = File(apps: seq<AppEntry>, people: seq<PersonEntry>, groups: seq<GroupEntry>)

  function Lookup<V>(m: map<string, V>, k: string): Option<V> {
    if k in m then Some(m[k]) else None
  }

  function Elements<T(==, !new)>(s: seq<T>): (r: set<T>)
    ensures forall x :: x in r <==> x in s
  {
    set x | x in s
  }

  // ---------------------------------------------------------------- importing

  /** Roles are added or overwritten, the first in the file sorting highest; none is removed. */
  function PutRoles(roles: map<string, Role>, entries: seq<RoleEntry>, total: nat): map<string, Role>
    requires |entries| <= total
  {
    if entries == [] then roles
    else
      var i := |entries| - 1;
      var e := entries[i];
      PutRoles(roles, entries[..i], total)[e.key := Role(e.display, e.description, total - i, e.isDefault)]
  }

  /** The URIs an import leaves in place: an empty list is read as the list of one empty string. */
  function KeptUris(uris: seq<string>): set<string> {
    Elements(if uris == [] then [""] else uris)
  }

  function ImportedApp(was: Option<App>, e: AppEntry): App {
    match was
    case None =>
      App(e.profile, e.homeUrl, e.preset, None, Elements(e.redirectUris), PutRoles(map[], e.roles, |e.roles|))
    case Some(a) =>
      App(e.profile,
          if e.homeUrl.Some? then e.homeUrl else a.homeUrl,
          if e.preset.Some? then e.preset else a.preset,
          a.secretHash,
          a.redirectUris * KeptUris(e.redirectUris) + Elements(e.redirectUris),
          PutRoles(a.roles, e.roles, |e.roles|))
  }

  function ImportApps(apps: map<string, App>, es: seq<AppEntry>): map<string, App> {
    if es == [] then apps
    else
      var before, e := ImportApps(apps, es[..|es| - 1]), es[|es| - 1];
      before[e.clientId := ImportedApp(Lookup(before, e.clientId), e)]
  }

  /** A named grant ends with exactly the listed roles the app declares; an unknown app is skipped. */
  function ImportGrants(grants: Grants, apps: map<string, App>, es: seq<GrantEntry>): Grants {
    if es == [] then grants
    else
      var before, e := ImportGrants(grants, apps, es[..|es| - 1]), es[|es| - 1];
      if e.clientId !in apps then before
      else before[e.clientId := set key | key in apps[e.clientId].roles && key in e.roles]
  }

  function ImportedPerson(was: Option<Person>, apps: map<string, App>, e: PersonEntry, kind: Option<Kind>): Person {
    match was
    case None =>
      Person(e.username, e.displayName, if kind.Some? then kind.value else Guest,
             if e.status == Suspended then Suspended else Invited, 0, false, ImportGrants(map[], apps, e.grants))
    case Some(p) =>
      p.(username := e.username, displayName := e.displayName, kind := if kind.Some? then kind.value else p.kind,
         grants := ImportGrants(p.grants, apps, e.grants))
  }

  function ImportPeople(
        people: map<string, Person>, apps: map<string, App>, kinds: map<string, Kind>,
        es: seq<PersonEntry>): map<string, Person> {
    if es == [] then people
    else
      var before, e := ImportPeople(people, apps, kinds, es[..|es| - 1]), es[|es| - 1];
      before[e.email := ImportedPerson(Lookup(before, e.email), apps, e, Lookup(kinds, e.email))]
  }

  function ImportedGroup(was: Option<Group>, apps: map<string, App>, known: set<string>, e: GroupEntry): Group {
    var members := set m | m in known && m in e.members;
    var grants := if was.Some? then was.value.grants else map[];
    Group(e.description, members, ImportGrants(grants, apps, e.grants))
  }

  function ImportGroups(
        groups: map<string, Group>, apps: map<string, App>, known: set<string>,
        es: seq<GroupEntry>): map<string, Group> {
    if es == [] then groups
    else
      var before, e := ImportGroups(groups, apps, known, es[..|es| - 1]), es[|es| - 1];
      before[e.name := ImportedGroup(Lookup(before, e.name), apps, known, e)]
  }

  /** What one entry of the file decides about one person's kind; None leaves it as it is. */
  function Verdict(current: Option<Person>, asked: Kind): Option<Kind> {
    if current.Some? && current.value.kind == Owner then None
    else if asked == Owner || (asked == Admin && (current.None? || current.value.factors == 0)) then
      if current.None? then Some(Guest) else None
    else Some(asked)
  }

  /** The kind every person will end up with, decided against the state before the import. */
  function DecideKinds(people: map<string, Person>, es: seq<PersonEntry>): map<string, Kind> {
    if es == [] then map[]
    else
      var before, e := DecideKinds(people, es[..|es| - 1]), es[|es| - 1];
      var verdict := Verdict(Lookup(people, e.email), e.kind);
      if verdict.None? then before else before[e.email := verdict.value]
  }

  function Import(s: Instance, f: File): Instance {
    var kinds := DecideKinds(s.people, f.people);
    var apps := ImportApps(s.apps, f.apps);
    var people := ImportPeople(s.people, apps, kinds, f.people);
    Instance(apps, people, ImportGroups(s.groups, apps, people.Keys, f.groups))
  }
}
