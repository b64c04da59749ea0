/**
 Who may reach which app, what the provider has issued to whom, and every operation that can take
 access away. Access is a direct grant or a grant of a group the person is in, and the app must be
 enabled. What was issued is a family per provider grant, and the artefacts that carry its id.
 */
module Access {
  import opened Common

  /** Roles by key, with their sort order. */
  datatype App = App(enabled: bool, roles: map<string, int>)

  datatype Group = Group(members: set<string>, grants: map<string, set<string>>)

  datatype Family = Family(accountId: string, clientId: string)

  /** A code or token: the provider grant it belongs to, and the client named in its payload. */
  datatype Artefact = Artefact(grantId: Option<string>, clientId: Option<string>)

  type DirectGrants = map<(string, string), set<string>>

  /** The tables access is decided from. */
  datatype Directory = Directory(apps: map<string, App>, users: set<string>, grants: DirectGrants,
    groups: map<string, Group>)

  /** The provider's payload table, its grants apart from everything else. */
  datatype Issued = Issued(families: map<string, Family>, artefacts: map<string, Artefact>)

  datatype State = State(dir: Directory, out: Issued)

  const CONSOLE_CLIENT_ID := "d3auth-console"

  // ---------------------------------------------------------------- deciding access

  predicate ViaGroup(d: Directory, g: string, user: string, client: string) {
    g in d.groups && user in d.groups[g].members && client in d.groups[g].grants
  }

  predicate HasGrant(d: Directory, user: string, client: string) {
    || client == CONSOLE_CLIENT_ID
    || (&& client in d.apps && d.apps[client].enabled
        && ((user, client) in d.grants || exists g :: g in d.groups && ViaGroup(d, g, user, client)))
  }

  /** The role keys somebody holds in an app: direct ones and those of every group they are in. */
  function HeldRoles(d: Directory, user: string, client: string): set<string> {
    if client == CONSOLE_CLIENT_ID || !HasGrant(d, user, client) then {}
    else
      (if (user, client) in d.grants then d.grants[(user, client)] else {})
      + set g, k | g in d.groups && ViaGroup(d, g, user, client) && k in d.groups[g].grants[client] :: k
  }

  // ---------------------------------------------------------------- taking tokens back

  function FamiliesOf(out: Issued, user: string, client: string): set<string> {
    set id | id in out.families && out.families[id] == Family(user, client)
  }

  predicate Under(a: Artefact, ids: set<string>) { a.grantId.Some? && a.grantId.value in ids }

  function Destroy(out: Issued, ids: set<string>): Issued {
    Issued(out.families - ids,
           map a | a in out.artefacts && !Under(out.artefacts[a], ids) :: out.artefacts[a])
  }

  function RevokeTokens(out: Issued, user: string, client: string): Issued {
    Destroy(out, FamiliesOf(out, user, client))
  }

  function RevokeIfNoAccess(d: Directory, out: Issued, user: string, client: string): Issued {
    if HasGrant(d, user, client) then out else RevokeTokens(out, user, client)
  }

  /** Every reported pair the change left without access loses its families. */
  function LostFamilies(d: Directory, out: Issued, users: set<string>, clients: set<string>): set<string> {
    set id | id in out.families && out.families[id].accountId in users && out.families[id].clientId in clients
             && !HasGrant(d, out.families[id].accountId, out.families[id].clientId)
  }

  /** Deletes every payload row naming this client, whatever its kind. */
  function RevokeClient(out: Issued, client: string): Issued {
    Issued(map id | id in out.families && out.families[id].clientId != client :: out.families[id],
           map a | a in out.artefacts && out.artefacts[a].clientId != Some(client) :: out.artefacts[a])
  }

  // ---------------------------------------------------------------- operations

  datatype Op =
    | Mint(user: string, client: string, reuse: Option<string>, id: string)
    | Issue(artefact: string, grantId: string)
    | SetGrant(user: string, client: string, roles: set<string>)
    | RevokeGrant(user: string, client: string)
    | CreateGroup(group: string)
    | RemoveGroup(group: string)
    | SetMembers(group: string, members: seq<string>)
    | SetGroupGrant(group: string, client: string, roles: set<string>)
    | RevokeGroupGrant(group: string, client: string)
    | Register(client: string, declared: map<string, int>)
    | Update(client: string, declared: map<string, int>, confirm: bool)
    | SetEnabled(client: string, enabled: bool)
    | RemoveApp(client: string)

  /** New ids are new, no app takes the console's client id, and tokens are only issued under a live provider grant. */
  predicate Allowed(s: State, op: Op) {
    match op
    case Mint(_, _, _, id) => id !in s.out.families
    case Issue(a, g) => a !in s.out.artefacts && g in s.out.families
    case Register(client, _) => client != CONSOLE_CLIENT_ID
    case _ => true
  }

  function PutGroup(d: Directory, g: string, group: Group): Directory {
    d.(groups := d.groups[g := group])
  }

  /** Roles that leave the app's manifest leave every grant, direct or through a group. */
  function WithRoles(d: Directory, client: string, declared: map<string, int>): Directory
    requires client in d.apps
  {
    d.(apps := d.apps[client := d.apps[client].(roles := declared)],
       grants := map p | p in d.grants :: if p.1 == client then d.grants[p] * declared.Keys else d.grants[p],
       groups := map g | g in d.groups :: if client in d.groups[g].grants
         then d.groups[g].(grants := d.groups[g].grants[client := d.groups[g].grants[client] * declared.Keys])
         else d.groups[g])
  }

  /** A removed role that some direct grant holds stops an update nobody confirmed. */
  predicate Blocked(d: Directory, client: string, declared: map<string, int>) {
    exists p :: p in d.grants && p.1 == client && client in d.apps
      && d.grants[p] * (d.apps[client].roles.Keys - declared.Keys) != {}
  }

  function WithoutApp(d: Directory, client: string): Directory {
    d.(apps := d.apps - {client},
       grants := map p | p in d.grants && p.1 != client :: d.grants[p],
       groups := map g | g in d.groups :: d.groups[g].(grants := d.groups[g].grants - {client}))
  }

  /** What an operation does to the directory; an operation the code refuses changes nothing. */
  function Directed(d: Directory, op: Op): Directory {
    match op
    case SetGrant(u, c, roles) =>
      if c !in d.apps || u !in d.users || !(roles <= d.apps[c].roles.Keys) then d
      else d.(grants := d.grants[(u, c) := roles])
    case RevokeGrant(u, c) => if c !in d.apps then d else d.(grants := d.grants - {(u, c)})
    case CreateGroup(g) => if g in d.groups then d else PutGroup(d, g, Group({}, map[]))
    case RemoveGroup(g) => d.(groups := d.groups - {g})
    case SetMembers(g, members) =>
      if g !in d.groups || !((set m | m in members) <= d.users) then d
      else PutGroup(d, g, d.groups[g].(members := set m | m in members))
    case SetGroupGrant(g, c, roles) =>
      if g !in d.groups || c !in d.apps || !(roles <= d.apps[c].roles.Keys) then d
      else PutGroup(d, g, d.groups[g].(grants := d.groups[g].grants[c := roles]))
    case RevokeGroupGrant(g, c) =>
      if g !in d.groups || c !in d.apps then d
      else PutGroup(d, g, d.groups[g].(grants := d.groups[g].grants - {c}))
    case Register(c, declared) => if c in d.apps then d else d.(apps := d.apps[c := App(true, declared)])
    case Update(c, declared, confirm) =>
      if c !in d.apps || (Blocked(d, c, declared) && !confirm) then d else WithRoles(d, c, declared)
    case SetEnabled(c, enabled) => if c !in d.apps then d else d.(apps := d.apps[c := d.apps[c].(enabled := enabled)])
    case RemoveApp(c) => if c !in d.apps then d else WithoutApp(d, c)
    case _ => d
  }

  /** Everybody and every app a group operation reports as changed, read before or after it as the code does. */
  function Reported(d: Directory, op: Op): (set<string>, set<string>) {
    match op
    case RemoveGroup(g) => if g !in d.groups then ({}, {}) else (d.groups[g].members, d.groups[g].grants.Keys)
    case SetMembers(g, members) =>
      if g !in d.groups || !((set m | m in members) <= d.users) then ({}, {})
      else (d.groups[g].members + (set m | m in members), d.groups[g].grants.Keys)
    case SetGroupGrant(g, c, roles) =>
      if g !in d.groups || c !in d.apps || !(roles <= d.apps[c].roles.Keys) then ({}, {})
      else (d.groups[g].members, {c})
    case RevokeGroupGrant(g, c) =>
      if g !in d.groups || c !in d.apps || c !in d.groups[g].grants then ({}, {}) else (d.groups[g].members, {c})
    case _ => ({}, {})
  }

  predicate IsGroupChange(op: Op) {
    op.RemoveGroup? || op.SetMembers? || op.SetGroupGrant? || op.RevokeGroupGrant?
  }

  function Step(s: State, op: Op): State
    requires Allowed(s, op)
  {
    var d := Directed(s.dir, op);
    match op
    case Mint(u, c, reuse, id) =>
      if !HasGrant(s.dir, u, c) || (reuse.Some? && reuse.value in s.out.families) then s
      else s.(out := s.out.(families := s.out.families[id := Family(u, c)]))
    case Issue(a, g) =>
      s.(out := s.out.(artefacts := s.out.artefacts[a := Artefact(Some(g), Some(s.out.families[g].clientId))]))
    case RevokeGrant(u, c) =>
      State(d, if c in s.dir.apps && (u, c) in s.dir.grants then RevokeTokens(s.out, u, c) else s.out)
    case SetEnabled(c, enabled) => State(d, if c in s.dir.apps && !enabled then RevokeClient(s.out, c) else s.out)
    case RemoveApp(c) => State(d, if c in s.dir.apps then RevokeClient(s.out, c) else s.out)
    case _ =>
      var (users, clients) := Reported(s.dir, op);
      State(d, Destroy(s.out, LostFamilies(d, s.out, users, clients)))
  }

  // ---------------------------------------------------------------- issued tokens never outlive access

  /**
   * Every live family's pair has access, and every artefact under a provider grant is of a live family and
   * its client.
   */
  ghost predicate Safe(s: State) {
    && (forall id :: id in s.out.families ==>
          HasGrant(s.dir, s.out.families[id].accountId, s.out.families[id].clientId))
    && (forall a :: a in s.out.artefacts && s.out.artefacts[a].grantId.Some? ==>
          && s.out.artefacts[a].grantId.value in s.out.families
          && s.out.artefacts[a].clientId == Some(s.out.families[s.out.artefacts[a].grantId.value].clientId))
    && CONSOLE_CLIENT_ID !in s.dir.apps
  }

  /** How far an operation can reach: the pairs whose access or roles may differ afterwards. */
  ghost predicate Touches(d: Directory, op: Op, user: string, client: string) {
    match op
    case SetGrant(u, c, _) => u == user && c == client
    case RevokeGrant(u, c) => u == user && c == client
    case Update(c, _, _) => c == client
    case Register(c, _) => c == client
    case SetEnabled(c, _) => c == client
    case RemoveApp(c) => c == client
    case _ => user in Reported(d, op).0 && client in Reported(d, op).1
  }

  lemma GroupsSayTheSame(d: Directory, e: Directory, user: string, client: string)
    requires client in d.apps <==> client in e.apps
    requires client in d.apps ==> d.apps[client].enabled == e.apps[client].enabled
    requires (user, client) in d.grants <==> (user, client) in e.grants
    requires (user, client) in d.grants ==> d.grants[(user, client)] == e.grants[(user, client)]
    requires forall g :: ViaGroup(d, g, user, client) <==> ViaGroup(e, g, user, client)
    requires forall g :: ViaGroup(d, g, user, client) && ViaGroup(e, g, user, client) ==>
      d.groups[g].grants[client] == e.groups[g].grants[client]
    ensures HasGrant(d, user, client) == HasGrant(e, user, client)
    ensures HeldRoles(d, user, client) == HeldRoles(e, user, client)
  {
    if HasGrant(d, user, client) && client != CONSOLE_CLIENT_ID && (user, client) !in d.grants {
      var g :| g in d.groups && ViaGroup(d, g, user, client);
      assert ViaGroup(e, g, user, client);
    }
    if HasGrant(e, user, client) && client != CONSOLE_CLIENT_ID && (user, client) !in e.grants {
      var g :| g in e.groups && ViaGroup(e, g, user, client);
      assert ViaGroup(d, g, user, client);
    }
    forall k ensures k in HeldRoles(d, user, client) <==> k in HeldRoles(e, user, client) {
      if k in HeldRoles(d, user, client) && !((user, client) in d.grants && k in d.grants[(user, client)]) {
        var g :| g in d.groups && ViaGroup(d, g, user, client) && k in d.groups[g].grants[client];
        assert ViaGroup(e, g, user, client);
      }
      if k in HeldRoles(e, user, client) && !((user, client) in e.grants && k in e.grants[(user, client)]) {
        var g :| g in e.groups && ViaGroup(e, g, user, client) && k in e.groups[g].grants[client];
        assert ViaGroup(d, g, user, client);
      }
    }
  }

  /** Outside the pairs an operation names or reports, everybody keeps exactly the access and roles they had. */
  lemma ChangesStayWhereReported(d: Directory, op: Op, user: string, client: string)
    requires !Touches(d, op, user, client)
    ensures HasGrant(Directed(d, op), user, client) == HasGrant(d, user, client)
    ensures HeldRoles(Directed(d, op), user, client) == HeldRoles(d, user, client)
  {
    var e := Directed(d, op);
    forall g ensures ViaGroup(d, g, user, client) <==> ViaGroup(e, g, user, client) {}
    GroupsSayTheSame(d, e, user, client);
  }

  /** The pairs a group operation reports, each of which is notified. */
  function ReportedPairs(d: Directory, op: Op): set<(string, string)> {
    var (users, clients) := Reported(d, op);
    set u, c | u in users && c in clients :: (u, c)
  }

  /** Nobody's access or roles change through a group change without their app being told. */
  lemma ChangedPairsAreReported(d: Directory, op: Op, user: string, client: string)
    requires IsGroupChange(op)
    requires var e := Directed(d, op);
      HasGrant(e, user, client) != HasGrant(d, user, client) || HeldRoles(e, user, client) != HeldRoles(d, user, client)
    ensures (user, client) in ReportedPairs(d, op)
  {
    if !Touches(d, op, user, client) {
      ChangesStayWhereReported(d, op, user, client);
    }
  }

  /** An update removes roles, never access. */
  lemma UpdateKeepsAccess(
        d: Directory, c: string, declared: map<string, int>, confirm: bool, user: string, client: string)
    ensures HasGrant(Directed(d, Update(c, declared, confirm)), user, client) == HasGrant(d, user, client)
  {
    var e := Directed(d, Update(c, declared, confirm));
    forall g ensures ViaGroup(d, g, user, client) <==> ViaGroup(e, g, user, client) {}
    if HasGrant(d, user, client) && client != CONSOLE_CLIENT_ID && (user, client) !in d.grants {
      var g :| g in d.groups && ViaGroup(d, g, user, client);
      assert ViaGroup(e, g, user, client);
    }
    if HasGrant(e, user, client) && client != CONSOLE_CLIENT_ID && (user, client) !in e.grants {
      var g :| g in e.groups && ViaGroup(e, g, user, client);
      assert ViaGroup(d, g, user, client);
    }
  }

  /** Operations that only give: whoever had access keeps it. */
  lemma GivingKeepsAccess(d: Directory, op: Op, user: string, client: string)
    requires op.SetGrant? || op.Register? || (op.SetEnabled? && op.enabled)
    requires HasGrant(d, user, client)
    ensures HasGrant(Directed(d, op), user, client)
  {
    var e := Directed(d, op);
    if client != CONSOLE_CLIENT_ID && (user, client) !in d.grants {
      var g :| g in d.groups && ViaGroup(d, g, user, client);
      assert ViaGroup(e, g, user, client);
    }
  }

  lemma FamilyKeepsAccess(s: State, op: Op, id: string)
    requires Safe(s) && Allowed(s, op) && id in s.out.families && id in Step(s, op).out.families
    ensures var f := s.out.families[id];
      Step(s, op).out.families[id] == f && HasGrant(Step(s, op).dir, f.accountId, f.clientId)
  {
    var f := s.out.families[id];
    if !Touches(s.dir, op, f.accountId, f.clientId) {
      ChangesStayWhereReported(s.dir, op, f.accountId, f.clientId);
    } else {
      match op
      case Update(c, declared, confirm) => UpdateKeepsAccess(s.dir, c, declared, confirm, f.accountId, f.clientId);
      case SetGrant(_, _, _) => GivingKeepsAccess(s.dir, op, f.accountId, f.clientId);
      case Register(_, _) => GivingKeepsAccess(s.dir, op, f.accountId, f.clientId);
      case SetEnabled(_, enabled) => if enabled { GivingKeepsAccess(s.dir, op, f.accountId, f.clientId); }
      case _ =>
    }
  }

  lemma ArtefactsFollow(s: State, op: Op)
    requires Safe(s) && Allowed(s, op)
    ensures var out := Step(s, op).out;
      forall a :: a in out.artefacts && out.artefacts[a].grantId.Some? ==>
        && out.artefacts[a].grantId.value in out.families
        && out.artefacts[a].clientId == Some(out.families[out.artefacts[a].grantId.value].clientId)
  {
  }

  /** One operation keeps the promise, whichever it is. */
  lemma StepIsSafe(s: State, op: Op)
    requires Safe(s) && Allowed(s, op)
    ensures Safe(Step(s, op))
  {
    var t := Step(s, op);
    forall id | id in t.out.families
      ensures HasGrant(t.dir, t.out.families[id].accountId, t.out.families[id].clientId)
    {
      if id in s.out.families { FamilyKeepsAccess(s, op, id); }
    }
    ArtefactsFollow(s, op);
  }

  ghost predicate Legal(s: State, ops: seq<Op>)
    decreases |ops|
  {
    ops == [] || (Allowed(s, ops[0]) && Legal(Step(s, ops[0]), ops[1..]))
  }

  ghost function Run(s: State, ops: seq<Op>): State
    requires Legal(s, ops)
    decreases |ops|
  {
    if ops == [] then s else Run(Step(s, ops[0]), ops[1..])
  }

  /** Over any run, no token outlives the access it was issued for. */
  lemma {:induction false} TokensNeverOutliveAccess(s: State, ops: seq<Op>)
    requires Safe(s) && Legal(s, ops)
    ensures Safe(Run(s, ops))
    decreases |ops|
  {
    if ops != [] {
      StepIsSafe(s, ops[0]);
      TokensNeverOutliveAccess(Step(s, ops[0]), ops[1..]);
    }
  }

  /** A group change takes exactly the families whose pair it left without access, and nothing of anybody else's. */
  lemma GroupChangeTakesExactlyTheLost(s: State, op: Op)
    requires Safe(s) && Allowed(s, op) && IsGroupChange(op)
    ensures var t := Step(s, op);
      && (forall id :: id in t.out.families <==>
            id in s.out.families && HasGrant(t.dir, s.out.families[id].accountId, s.out.families[id].clientId))
      && (forall a :: a in t.out.artefacts <==>
            && a in s.out.artefacts
            && (s.out.artefacts[a].grantId.Some? ==> s.out.artefacts[a].grantId.value in t.out.families))
  {
    var t := Step(s, op);
    forall id | id in s.out.families
      ensures id in t.out.families <==> HasGrant(t.dir, s.out.families[id].accountId, s.out.families[id].clientId)
    {
      if id in t.out.families { FamilyKeepsAccess(s, op, id); }
    }
  }

  // ---------------------------------------------------------------- updates and direct grants

  /** Whether any group grant holds a role the new manifest drops; the code never asks. */
  ghost predicate GroupsHoldRemoved(d: Directory, client: string, declared: map<string, int>) {
    exists g :: g in d.groups && client in d.groups[g].grants && !(d.groups[g].grants[client] <= declared.Keys)
  }

  /** Grants name only roles the app declares, as the foreign keys require. */
  ghost predicate RolesDeclared(d: Directory, client: string) {
    && (forall p :: p in d.grants && p.1 == client ==> client in d.apps && d.grants[p] <= d.apps[client].roles.Keys)
    && (forall g :: g in d.groups && client in d.groups[g].grants ==>
          client in d.apps && d.groups[g].grants[client] <= d.apps[client].roles.Keys)
  }

  /**
   * An unconfirmed update changes no direct grant's roles; it leaves every group's too exactly when it is
   * refused or none holds a dropped role.
   */
  lemma UnconfirmedUpdate(d: Directory, client: string, declared: map<string, int>)
    requires client in d.apps && RolesDeclared(d, client)
    ensures var e := Directed(d, Update(client, declared, false));
      && e.grants == d.grants
      && (e.groups == d.groups <==> Blocked(d, client, declared) || !GroupsHoldRemoved(d, client, declared))
  {
    var e := Directed(d, Update(client, declared, false));
    if !Blocked(d, client, declared) {
      forall p | p in d.grants ensures e.grants[p] == d.grants[p] {
        if p.1 == client {
          assert d.grants[p] * (d.apps[client].roles.Keys - declared.Keys) == {};
          forall k | k in d.grants[p] ensures k in declared {
            assert k !in d.grants[p] * (d.apps[client].roles.Keys - declared.Keys);
          }
        }
      }
      forall g | g in d.groups && client in d.groups[g].grants
        ensures e.groups[g] == d.groups[g] <==> d.groups[g].grants[client] <= declared.Keys
      {
        var was := d.groups[g].grants;
        assert e.groups[g].grants[client] == was[client] * declared.Keys;
        if was[client] <= declared.Keys {
          assert was[client] * declared.Keys == was[client];
          assert was[client := was[client] * declared.Keys] == was;
        }
      }
    }
  }

  /** A group member loses a role to an update nobody had to confirm. */
  lemma GroupRolesGoUnasked() returns (d: Directory)
    ensures var e := Directed(d, Update("app", map["member" := 1], false));
      HeldRoles(d, "ann", "app") == {"admin"} && HeldRoles(e, "ann", "app") == {}
  {
    d := Directory(map["app" := App(true, map["admin" := 2, "member" := 1])], {"ann"}, map[],
                   map["staff" := Group({"ann"}, map["app" := {"admin"}])]);
    var e := Directed(d, Update("app", map["member" := 1], false));
    OnlyGroup(d, "staff", "ann", "app");
    OnlyGroup(e, "staff", "ann", "app");
    assert e.groups["staff"].grants["app"] == {};
  }

  /** Where one group is all there is, its roles are the roles held. */
  lemma OnlyGroup(d: Directory, g: string, user: string, client: string)
    requires d.groups.Keys == {g} && ViaGroup(d, g, user, client) && (user, client) !in d.grants
    requires client != CONSOLE_CLIENT_ID && client in d.apps && d.apps[client].enabled
    ensures HeldRoles(d, user, client) == d.groups[g].grants[client]
  {
    assert HasGrant(d, user, client);
  }

  /** Some group gives the pair what its direct grant gives. */
  ghost predicate Linked(d: Directory, user: string, client: string) {
    client in d.apps && d.apps[client].enabled && exists g :: g in d.groups && ViaGroup(d, g, user, client)
  }

  /**
   * Tokens that go although access stays. That happens to a family exactly when its own direct
   * grant is revoked while a group still lets the person in; every other operation, on every other
   * pair, takes tokens only from those it leaves without access.
   */
  lemma OnlyDirectRevocationIsBlunt(s: State, op: Op, id: string)
    requires Safe(s) && Allowed(s, op) && id in s.out.families
    ensures var f := s.out.families[id];
      id !in Step(s, op).out.families && HasGrant(Step(s, op).dir, f.accountId, f.clientId)
      <==> op == RevokeGrant(f.accountId, f.clientId)
           && (f.accountId, f.clientId) in s.dir.grants && Linked(s.dir, f.accountId, f.clientId)
  {
    var f := s.out.families[id];
    var e := Step(s, op).dir;
    if op == RevokeGrant(f.accountId, f.clientId) {
      forall g ensures ViaGroup(s.dir, g, f.accountId, f.clientId) <==> ViaGroup(e, g, f.accountId, f.clientId) {}
      if Linked(s.dir, f.accountId, f.clientId) {
        var g :| g in s.dir.groups && ViaGroup(s.dir, g, f.accountId, f.clientId);
        assert ViaGroup(e, g, f.accountId, f.clientId);
      }
    }
  }

  /** Somebody a group lets in loses the tokens of a direct grant they did not need. */
  lemma TokensGoAccessStays() returns (s: State)
    ensures Safe(s)
    ensures var t := Step(s, RevokeGrant("ann", "app"));
      "fam" in s.out.families && "fam" !in t.out.families && HasGrant(t.dir, "ann", "app")
  {
    var d := Directory(map["app" := App(true, map[])], {"ann"}, map[("ann", "app") := {}],
                       map["staff" := Group({"ann"}, map["app" := {}])]);
    s := State(d, Issued(map["fam" := Family("ann", "app")], map[]));
    assert ViaGroup(d, "staff", "ann", "app");
    OnlyDirectRevocationIsBlunt(s, RevokeGrant("ann", "app"), "fam");
  }
}
