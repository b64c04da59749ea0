/**
 What each operation gives and takes, pair by pair: who has access afterwards, with which roles, and
 which families are still there. Everything is said by the tables before the operation and by what it
 was asked.
 */
module AccessChanges {
  import opened Common
  import opened Access

  // ---------------------------------------------------------------- one group

  /** What lets the pair in when this group is left out of account, and the roles that gives. */
  ghost predicate OtherwiseLinked(d: Directory, g: string, user: string, client: string) {
    (user, client) in d.grants || exists h :: h in d.groups && h != g && ViaGroup(d, h, user, client)
  }

  ghost function OtherRoles(d: Directory, g: string, user: string, client: string): set<string> {
    (if (user, client) in d.grants then d.grants[(user, client)] else {})
    + set h, k | h in d.groups && h != g && ViaGroup(d, h, user, client) && k in d.groups[h].grants[client] :: k
  }

  ghost predicate Enabled(d: Directory, client: string) {
    client in d.apps && d.apps[client].enabled
  }

  /** The two directories differ in one group at most. */
  ghost predicate OnlyGroupDiffers(d: Directory, e: Directory, g: string) {
    && e.apps == d.apps && e.users == d.users && e.grants == d.grants
    && e.groups.Keys - {g} == d.groups.Keys - {g}
    && forall h :: h in d.groups && h != g ==> h in e.groups && e.groups[h] == d.groups[h]
  }

  /** Then access and roles are what they are without the group, and what the group now gives. */
  lemma AccessByGroup(d: Directory, e: Directory, g: string, user: string, client: string)
    requires OnlyGroupDiffers(d, e, g)
    ensures HasGrant(e, user, client) <==>
      client == CONSOLE_CLIENT_ID
      || (Enabled(d, client) && (OtherwiseLinked(d, g, user, client) || ViaGroup(e, g, user, client)))
    ensures client != CONSOLE_CLIENT_ID && HasGrant(e, user, client) ==>
      HeldRoles(e, user, client) == OtherRoles(d, g, user, client)
        + (if ViaGroup(e, g, user, client) then e.groups[g].grants[client] else {})
  {
    forall h | h != g ensures ViaGroup(e, h, user, client) <==> ViaGroup(d, h, user, client) {
      assert h in e.groups.Keys - {g} <==> h in d.groups.Keys - {g};
    }
    if OtherwiseLinked(d, g, user, client) && (user, client) !in d.grants {
      var h :| h in d.groups && h != g && ViaGroup(d, h, user, client);
      assert ViaGroup(e, h, user, client);
    }
  }

  predicate AllKnown(d: Directory, members: seq<string>) { forall m :: m in members ==> m in d.users }

  /** The members of a group are replaced: those listed are in it, and nobody else is. */
  lemma MembersAreReplaced(d: Directory, g: string, members: seq<string>)
    ensures var e := Directed(d, SetMembers(g, members));
      if g in d.groups && AllKnown(d, members) then
        && OnlyGroupDiffers(d, e, g) && g in e.groups && e.groups[g].grants == d.groups[g].grants
        && (forall u :: u in e.groups[g].members <==> u in members)
      else e == d
  {
  }

  /**
   After a change of members the pair has access exactly through something other than the group, or
   through the group as one of the people listed.
   */
  lemma AccessAfterSetMembers(d: Directory, g: string, members: seq<string>, user: string, client: string)
    requires g in d.groups && AllKnown(d, members) && client != CONSOLE_CLIENT_ID
    ensures var e := Directed(d, SetMembers(g, members));
      HasGrant(e, user, client) <==>
        && Enabled(d, client)
        && (OtherwiseLinked(d, g, user, client) || (user in members && client in d.groups[g].grants))
    ensures var e := Directed(d, SetMembers(g, members));
      HasGrant(e, user, client) ==>
        HeldRoles(e, user, client) == OtherRoles(d, g, user, client)
        + (if user in members && client in d.groups[g].grants then d.groups[g].grants[client] else {})
  {
    MembersAreReplaced(d, g, members);
    AccessByGroup(d, Directed(d, SetMembers(g, members)), g, user, client);
  }

  /** Somebody left out keeps an app, and every token for it, exactly through a direct grant or another group. */
  lemma LeftOutKeepExactly(s: State, g: string, members: seq<string>, id: string)
    requires Safe(s) && id in s.out.families && g in s.dir.groups && AllKnown(s.dir, members)
    requires s.out.families[id].accountId !in members && s.out.families[id].clientId != CONSOLE_CLIENT_ID
    ensures var f := s.out.families[id];
      id in Step(s, SetMembers(g, members)).out.families
      <==> OtherwiseLinked(s.dir, g, f.accountId, f.clientId)
  {
    var f := s.out.families[id];
    AccessAfterSetMembers(s.dir, g, members, f.accountId, f.clientId);
    GroupChangeTakesExactlyTheLost(s, SetMembers(g, members));
    assert HasGrant(s.dir, f.accountId, f.clientId);
  }

  /** A group that is removed gives nothing any more, and nothing else changes. */
  lemma AccessAfterRemoveGroup(d: Directory, g: string, user: string, client: string)
    requires client != CONSOLE_CLIENT_ID
    ensures var e := Directed(d, RemoveGroup(g));
      && OnlyGroupDiffers(d, e, g) && g !in e.groups
      && (HasGrant(e, user, client) <==> Enabled(d, client) && OtherwiseLinked(d, g, user, client))
      && (HasGrant(e, user, client) ==> HeldRoles(e, user, client) == OtherRoles(d, g, user, client))
  {
    AccessByGroup(d, Directed(d, RemoveGroup(g)), g, user, client);
  }

  /** A group that is created, under a name not in use, lets nobody in. */
  lemma AccessAfterCreateGroup(d: Directory, g: string, user: string, client: string)
    ensures var e := Directed(d, CreateGroup(g));
      && g in e.groups && OnlyGroupDiffers(d, e, g)
      && HasGrant(e, user, client) == HasGrant(d, user, client)
      && (g in d.groups ==> e == d)
      && (g !in d.groups ==> e.groups[g].members == {} && e.groups[g].grants == map[])
  {
    var e := Directed(d, CreateGroup(g));
    AccessByGroup(d, e, g, user, client);
    AccessByGroup(d, d, g, user, client);
  }

  predicate Grantable(d: Directory, client: string, roles: set<string>) {
    client in d.apps && forall k :: k in roles ==> k in d.apps[client].roles
  }

  /** One app of a group ends with exactly the roles asked for, its other apps and its members as they were. */
  lemma AccessAfterSetGroupGrant(
      d: Directory, g: string, c: string, roles: set<string>, user: string, client: string)
    requires g in d.groups && Grantable(d, c, roles) && client != CONSOLE_CLIENT_ID
    ensures var e := Directed(d, SetGroupGrant(g, c, roles));
      && OnlyGroupDiffers(d, e, g) && g in e.groups && e.groups[g].members == d.groups[g].members
      && e.groups[g].grants == d.groups[g].grants[c := roles]
    ensures var e := Directed(d, SetGroupGrant(g, c, roles)); user in d.groups[g].members && client == c ==>
      && (HasGrant(e, user, c) <==> Enabled(d, c))
      && (HasGrant(e, user, c) ==> HeldRoles(e, user, c) == OtherRoles(d, g, user, c) + roles)
  {
    AccessByGroup(d, Directed(d, SetGroupGrant(g, c, roles)), g, user, client);
  }

  /** A group that loses an app lets nobody into it, and gives its other apps to the same people as before. */
  lemma AccessAfterRevokeGroupGrant(d: Directory, g: string, c: string, user: string, client: string)
    requires g in d.groups && c in d.apps && client != CONSOLE_CLIENT_ID
    ensures var e := Directed(d, RevokeGroupGrant(g, c));
      && OnlyGroupDiffers(d, e, g) && g in e.groups && e.groups[g].members == d.groups[g].members
      && e.groups[g].grants == d.groups[g].grants - {c}
    ensures var e := Directed(d, RevokeGroupGrant(g, c)); client == c ==>
      && (HasGrant(e, user, c) <==> Enabled(d, c) && OtherwiseLinked(d, g, user, c))
      && (HasGrant(e, user, c) ==> HeldRoles(e, user, c) == OtherRoles(d, g, user, c))
  {
    AccessByGroup(d, Directed(d, RevokeGroupGrant(g, c)), g, user, client);
  }

  /** A group operation is refused exactly for an unknown group, person, app or role, and then changes nothing. */
  lemma RefusedGroupChanges(d: Directory, g: string, members: seq<string>, c: string, roles: set<string>)
    ensures g !in d.groups || !AllKnown(d, members) ==> Directed(d, SetMembers(g, members)) == d
    ensures g !in d.groups || !Grantable(d, c, roles) ==> Directed(d, SetGroupGrant(g, c, roles)) == d
    ensures g !in d.groups || c !in d.apps ==> Directed(d, RevokeGroupGrant(g, c)) == d
    ensures g !in d.groups ==> Directed(d, RemoveGroup(g)) == d
  {
    assert g !in d.groups ==> d.groups - {g} == d.groups;
  }

  /** Whether a group change speaks of this app: one of a group's apps, or all of them. */
  predicate Concerns(op: Op, client: string) {
    match op
    case SetGroupGrant(_, c, _) => c == client
    case RevokeGroupGrant(_, c) => c == client
    case _ => true
  }

  /** The pairs told of a group change are those the group links before it or after it, and no others. */
  lemma ReportsExactly(d: Directory, op: Op, user: string, client: string)
    requires IsGroupChange(op) && Directed(d, op) != d
    ensures var e := Directed(d, op);
      (user, client) in ReportedPairs(d, op)
      <==> Concerns(op, client) && (ViaGroup(d, op.group, user, client) || ViaGroup(e, op.group, user, client))
  {
  }

  // ---------------------------------------------------------------- direct grants

  ghost predicate ViaSomeGroup(d: Directory, user: string, client: string) {
    exists g :: g in d.groups && ViaGroup(d, g, user, client)
  }

  ghost function GroupRoles(d: Directory, user: string, client: string): set<string> {
    set g, k | g in d.groups && ViaGroup(d, g, user, client) && k in d.groups[g].grants[client] :: k
  }

  /** A direct grant lets its pair in with exactly these roles beside those of groups, if the app is enabled. */
  lemma AccessAfterSetGrant(d: Directory, user: string, client: string, roles: set<string>)
    requires client != CONSOLE_CLIENT_ID
    ensures var e := Directed(d, SetGrant(user, client, roles));
      if user in d.users && Grantable(d, client, roles) then
        && (HasGrant(e, user, client) <==> Enabled(d, client))
        && (Enabled(d, client) ==> HeldRoles(e, user, client) == roles + GroupRoles(d, user, client))
        && e.grants == d.grants[(user, client) := roles]
        && e.groups == d.groups && e.apps == d.apps && e.users == d.users
      else e == d
  {
    var e := Directed(d, SetGrant(user, client, roles));
    forall g ensures ViaGroup(e, g, user, client) <==> ViaGroup(d, g, user, client) {}
    if HasGrant(e, user, client) && user in d.users && Grantable(d, client, roles) {
      assert GroupRoles(e, user, client) == GroupRoles(d, user, client);
    }
  }

  /** Without its direct grant the pair has exactly what groups give it. */
  lemma AccessAfterRevokeGrant(d: Directory, user: string, client: string)
    requires client != CONSOLE_CLIENT_ID && client in d.apps
    ensures var e := Directed(d, RevokeGrant(user, client));
      && (HasGrant(e, user, client) <==> Enabled(d, client) && ViaSomeGroup(d, user, client))
      && (HasGrant(e, user, client) ==> HeldRoles(e, user, client) == GroupRoles(d, user, client))
      && (forall p :: p in e.grants <==> p in d.grants && p != (user, client))
      && (forall p :: p in e.grants ==> e.grants[p] == d.grants[p])
      && e.groups == d.groups && e.apps == d.apps && e.users == d.users
  {
    var e := Directed(d, RevokeGrant(user, client));
    forall g ensures ViaGroup(e, g, user, client) <==> ViaGroup(d, g, user, client) {}
    if ViaSomeGroup(d, user, client) {
      var g :| g in d.groups && ViaGroup(d, g, user, client);
      assert ViaGroup(e, g, user, client);
    }
  }

  // ---------------------------------------------------------------- apps

  /** A disabled app lets nobody in; enabled again, it lets in whoever its grants do. */
  lemma AccessAfterSetEnabled(d: Directory, client: string, enabled: bool, user: string)
    requires client != CONSOLE_CLIENT_ID && client in d.apps
    ensures var e := Directed(d, SetEnabled(client, enabled));
      && (HasGrant(e, user, client) <==> enabled && ((user, client) in d.grants || ViaSomeGroup(d, user, client)))
      && e.grants == d.grants && e.groups == d.groups && e.apps[client].roles == d.apps[client].roles
  {
    var e := Directed(d, SetEnabled(client, enabled));
    forall g ensures ViaGroup(e, g, user, client) <==> ViaGroup(d, g, user, client) {}
    if ViaSomeGroup(d, user, client) {
      var g :| g in d.groups && ViaGroup(d, g, user, client);
      assert ViaGroup(e, g, user, client);
    }
  }

  /** Switched off and on again, an app has the access and roles it had, for everybody; its tokens are gone. */
  lemma OffAndOn(s: State, client: string, user: string)
    requires Safe(s) && client in s.dir.apps && s.dir.apps[client].enabled
    ensures var t := Step(Step(s, SetEnabled(client, false)), SetEnabled(client, true));
      && t.dir == s.dir
      && (forall id :: id in t.out.families <==> id in s.out.families && s.out.families[id].clientId != client)
  {
    var off := Step(s, SetEnabled(client, false));
    var t := Step(off, SetEnabled(client, true));
    assert t.dir.apps == s.dir.apps;
    assert LostFamilies(t.dir, off.out, {}, {}) == {};
  }

  /** An app registered again under the id of a removed one starts with nobody let in. */
  lemma RemovedAppStartsAnew(d: Directory, client: string, declared: map<string, int>, user: string)
    requires client != CONSOLE_CLIENT_ID && client in d.apps
    ensures var gone := Directed(d, RemoveApp(client));
      && client !in gone.apps && !HasGrant(gone, user, client)
      && var e := Directed(gone, Register(client, declared));
         Enabled(e, client) && e.apps[client].roles == declared && !HasGrant(e, user, client)
  {
    var gone := Directed(d, RemoveApp(client));
    var e := Directed(gone, Register(client, declared));
    forall g ensures !ViaGroup(e, g, user, client) {}
  }

  /** An id in use is not registered over; a new app is enabled, declares its roles, and nothing else changes. */
  lemma RegistersExactly(d: Directory, client: string, declared: map<string, int>)
    ensures var e := Directed(d, Register(client, declared));
      if client in d.apps then e == d
      else e == d.(apps := e.apps) && e.apps == d.apps[client := App(true, declared)]
  {
  }

  /** Grants name registered apps and roles they declare, and people and members are people there are. */
  ghost predicate Referential(d: Directory) {
    && (forall p :: p in d.grants ==> p.0 in d.users && p.1 in d.apps && d.grants[p] <= d.apps[p.1].roles.Keys)
    && (forall g :: g in d.groups ==> d.groups[g].members <= d.users)
    && (forall g, c :: g in d.groups && c in d.groups[g].grants ==>
          c in d.apps && d.groups[g].grants[c] <= d.apps[c].roles.Keys)
  }

  lemma DirectedIsReferential(d: Directory, op: Op)
    requires Referential(d)
    ensures Referential(Directed(d, op))
  {
    if IsGroupChange(op) || op.CreateGroup? { GroupChangeIsReferential(d, op); }
  }

  lemma GroupChangeIsReferential(d: Directory, op: Op)
    requires Referential(d) && (IsGroupChange(op) || op.CreateGroup?)
    ensures Referential(Directed(d, op))
  {
    var e := Directed(d, op);
    forall h | h in e.groups && h != op.group ensures h in d.groups && e.groups[h] == d.groups[h] {}
  }

  /** In every run no grant outlives its app or a role it names, and whatever anybody holds is declared. */
  lemma {:induction false} HeldRolesAreDeclared(s: State, ops: seq<Op>, user: string, client: string)
    requires Referential(s.dir) && Legal(s, ops)
    ensures var d := Run(s, ops).dir;
      && Referential(d)
      && (forall k :: k in HeldRoles(d, user, client) ==> client in d.apps && k in d.apps[client].roles)
    decreases |ops|
  {
    if ops != [] {
      DirectedIsReferential(s.dir, ops[0]);
      HeldRolesAreDeclared(Step(s, ops[0]), ops[1..], user, client);
    }
  }

  /** An update leaves every holder the roles that are still declared, and everybody their access. */
  lemma RolesAfterUpdate(
      d: Directory, client: string, declared: map<string, int>, confirm: bool, user: string)
    requires client != CONSOLE_CLIENT_ID && client in d.apps && (confirm || !Blocked(d, client, declared))
    ensures var e := Directed(d, Update(client, declared, confirm));
      && HeldRoles(e, user, client) == HeldRoles(d, user, client) * declared.Keys
      && e.apps[client].roles == declared && e.apps[client].enabled == d.apps[client].enabled
  {
    var e := Directed(d, Update(client, declared, confirm));
    UpdateKeepsAccess(d, client, declared, confirm, user, client);
    forall g ensures ViaGroup(d, g, user, client) <==> ViaGroup(e, g, user, client) {}
    forall k ensures k in HeldRoles(e, user, client) <==> k in HeldRoles(d, user, client) && k in declared {
      RoleAfterUpdate(d, e, user, client, declared, k);
    }
  }

  lemma RoleAfterUpdate(
      d: Directory, e: Directory, user: string, client: string, declared: map<string, int>, k: string)
    requires client != CONSOLE_CLIENT_ID && client in d.apps && e == WithRoles(d, client, declared)
    requires HasGrant(d, user, client) == HasGrant(e, user, client)
    ensures k in HeldRoles(e, user, client) <==> k in HeldRoles(d, user, client) && k in declared
  {
    if g :| g in d.groups && ViaGroup(d, g, user, client) && k in d.groups[g].grants[client] && k in declared {
      assert ViaGroup(e, g, user, client) && k in e.groups[g].grants[client];
    }
    if g :| g in e.groups && ViaGroup(e, g, user, client) && k in e.groups[g].grants[client] {
      assert ViaGroup(d, g, user, client) && k in d.groups[g].grants[client] && k in declared;
    }
  }

  // ---------------------------------------------------------------- what is issued, and what goes

  /** This operation closes the whole app. */
  predicate Closes(s: State, op: Op, client: string) {
    client in s.dir.apps && (op == SetEnabled(client, false) || op == RemoveApp(client))
  }

  /** What is issued belongs to the family it was issued under, and names that family's client. */
  lemma IssuesExactly(s: State, a: string, g: string)
    requires Allowed(s, Issue(a, g))
    ensures var t := Step(s, Issue(a, g));
      && t.dir == s.dir && t.out.families == s.out.families
      && t.out.artefacts == s.out.artefacts[a := Artefact(Some(g), Some(s.out.families[g].clientId))]
  {
  }

  /** A code or token goes exactly with its family or when its client's app is closed, and by no other operation. */
  lemma ArtefactsGoExactly(s: State, op: Op, a: string)
    requires Safe(s) && Allowed(s, op) && a in s.out.artefacts
    ensures var row, t := s.out.artefacts[a], Step(s, op);
      && (a in t.out.artefacts <==>
            && (row.grantId.Some? ==> row.grantId.value in t.out.families)
            && !(row.clientId.Some? && Closes(s, op, row.clientId.value)))
      && (a in t.out.artefacts ==> t.out.artefacts[a] == row)
  {
  }

  /** Closing an app leaves no row that names it, and takes no other. */
  lemma ClosedAppHasNothing(s: State, op: Op, client: string)
    requires Safe(s) && Allowed(s, op) && Closes(s, op, client)
    ensures var t := Step(s, op);
      && (forall id :: id in t.out.families <==> id in s.out.families && s.out.families[id].clientId != client)
      && (forall a :: a in t.out.artefacts <==> a in s.out.artefacts && s.out.artefacts[a].clientId != Some(client))
  {
  }

  // ---------------------------------------------------------------- minting, and the console

  /** A mint with a new id makes a family exactly for a pair that has access and no live family to reuse. */
  lemma MintsExactly(s: State, user: string, client: string, reuse: Option<string>, id: string)
    requires id !in s.out.families
    ensures var t := Step(s, Mint(user, client, reuse, id));
      && t.dir == s.dir && t.out.artefacts == s.out.artefacts
      && (id in t.out.families
          <==> HasGrant(s.dir, user, client) && !(reuse.Some? && reuse.value in s.out.families))
      && (id in t.out.families ==> t.out.families == s.out.families[id := Family(user, client)])
      && (id !in t.out.families ==> t.out.families == s.out.families)
  {
  }

  /** Everybody can always sign in to their own account page, with no roles in it. */
  lemma ConsoleIsOpen(s: State, user: string, id: string)
    requires Safe(s) && id !in s.out.families
    ensures var t := Step(s, Mint(user, CONSOLE_CLIENT_ID, None, id));
      && id in t.out.families && t.out.families[id] == Family(user, CONSOLE_CLIENT_ID)
      && HeldRoles(s.dir, user, CONSOLE_CLIENT_ID) == {}
  {
    MintsExactly(s, user, CONSOLE_CLIENT_ID, None, id);
  }

  /** No operation takes a family of the console. */
  lemma ConsoleIsSpared(s: State, op: Op, id: string)
    requires Safe(s) && Allowed(s, op)
    requires id in s.out.families && s.out.families[id].clientId == CONSOLE_CLIENT_ID
    ensures id in Step(s, op).out.families && Step(s, op).out.families[id] == s.out.families[id]
  {
  }

  /** Nor does any run: who was signed in to the console stays signed in, and who was not can still be. */
  lemma {:induction false} ConsoleOverRuns(s: State, ops: seq<Op>, id: string)
    requires Safe(s) && Legal(s, ops)
    requires id in s.out.families && s.out.families[id].clientId == CONSOLE_CLIENT_ID
    ensures id in Run(s, ops).out.families && Run(s, ops).out.families[id] == s.out.families[id]
    decreases |ops|
  {
    if ops != [] {
      ConsoleIsSpared(s, ops[0], id);
      StepIsSafe(s, ops[0]);
      ConsoleOverRuns(Step(s, ops[0]), ops[1..], id);
    }
  }

  /** In every reachable state a mint for the console's own client succeeds, for anybody. */
  lemma ConsoleStaysOpen(s: State, ops: seq<Op>, user: string, id: string)
    requires Safe(s) && Legal(s, ops) && id !in Run(s, ops).out.families
    ensures var t := Step(Run(s, ops), Mint(user, CONSOLE_CLIENT_ID, None, id));
      id in t.out.families && t.out.families[id] == Family(user, CONSOLE_CLIENT_ID)
  {
    TokensNeverOutliveAccess(s, ops);
    ConsoleIsOpen(Run(s, ops), user, id);
  }
}
