/** Access and issued tokens as one object: the mutations an administrator makes, with the hooks they call. */
module AccessStores {
  import opened Common
  import opened Access
  import opened RoleOrder

  datatype AccessError = NoSuchGroup | NoSuchUser | NoSuchApp | UnknownRoles

  /** Destroying twice is destroying both. */
  lemma DestroyBoth(out: Issued, a: set<string>, b: set<string>)
    ensures Destroy(Destroy(out, a), b) == Destroy(out, a + b)
  {
  }

  /** The families of these pairs that a change left without access. */
  function LostOf(d: Directory, out: Issued, pairs: set<(string, string)>): set<string> {
    set id | id in out.families && (out.families[id].accountId, out.families[id].clientId) in pairs
             && !HasGrant(d, out.families[id].accountId, out.families[id].clientId)
  }

  lemma LoseOneMore(d: Directory, out: Issued, pairs: set<(string, string)>, user: string, client: string)
    ensures RevokeIfNoAccess(d, Destroy(out, LostOf(d, out, pairs)), user, client)
      == Destroy(out, LostOf(d, out, pairs + {(user, client)}))
  {
    var lost := LostOf(d, out, pairs);
    if HasGrant(d, user, client) {
      assert LostOf(d, out, pairs + {(user, client)}) == lost;
    } else {
      var more := FamiliesOf(Destroy(out, lost), user, client);
      DestroyBoth(out, lost, more);
      assert lost + more == LostOf(d, out, pairs + {(user, client)});
    }
  }

  /** The rows give exactly these keys, each with the app's own sort order. */
  ghost predicate RowsSay(rows: seq<RoleRow>, order: map<string, int>, keys: set<string>) {
    keys <= order.Keys && forall k :: Highest(rows, k) == if k in keys then Some(order[k]) else None
  }

  lemma OneRowMore(rows: seq<RoleRow>, order: map<string, int>, keys: set<string>, k: string)
    requires RowsSay(rows, order, keys) && k in order
    ensures RowsSay(rows + [RoleRow(k, order[k])], order, keys + {k})
  {
    assert (rows + [RoleRow(k, order[k])])[..|rows|] == rows;
  }

  /** One grant's role rows, in whatever order they come back. */
  method AddRows(
        before: seq<RoleRow>, order: map<string, int>, ghost keys: set<string>, more: set<string>)
    returns (rows: seq<RoleRow>)
    requires RowsSay(before, order, keys) && more <= order.Keys
    ensures RowsSay(rows, order, keys + more)
  {
    rows := before;
    var left := more;
    while left != {}
      invariant left <= more && RowsSay(rows, order, keys + (more - left))
    {
      var k :| k in left;
      OneRowMore(rows, order, keys + (more - left), k);
      assert keys + (more - left) + {k} == keys + (more - (left - {k}));
      rows := rows + [RoleRow(k, order[k])];
      left := left - {k};
    }
    assert keys + (more - left) == keys + more;
  }

  /** The roles these groups give the pair. */
  ghost function Through(d: Directory, gs: set<string>, user: string, client: string): set<string>
    requires gs <= d.groups.Keys
  {
    set g, k | g in gs && ViaGroup(d, g, user, client) && k in d.groups[g].grants[client] :: k
  }

  lemma OneGroupMore(d: Directory, gs: set<string>, g: string, user: string, client: string)
    requires gs <= d.groups.Keys && g in d.groups
    ensures Through(d, gs + {g}, user, client)
      == Through(d, gs, user, client) + if ViaGroup(d, g, user, client) then d.groups[g].grants[client] else {}
  {
  }

  /** An enabled app, and not the console's own client. */
  predicate Usable(d: Directory, client: string) {
    client != CONSOLE_CLIENT_ID && client in d.apps && d.apps[client].enabled
  }

  lemma NoneFound(d: Directory, groups: set<string>, user: string, client: string)
    requires groups == set g | g in d.groups && ViaGroup(d, g, user, client)
    ensures groups == {} <==> !exists g :: g in d.groups && ViaGroup(d, g, user, client)
  {
    if g :| g in d.groups && ViaGroup(d, g, user, client) {
      assert g in groups;
    }
  }

  lemma HeldIsThrough(d: Directory, user: string, client: string)
    requires client != CONSOLE_CLIENT_ID && HasGrant(d, user, client)
    ensures HeldRoles(d, user, client)
      == (if (user, client) in d.grants then d.grants[(user, client)] else {}) + Through(d, d.groups.Keys, user, client)
  {
  }

  ghost predicate HighestFirst(order: map<string, int>, keys: seq<string>) {
    forall i, j :: 0 <= i < j < |keys| && keys[i] in order && keys[j] in order ==> order[keys[i]] >= order[keys[j]]
  }

  /** The notices sent since `before`, in any order, are for exactly these pairs. */
  ghost predicate Told(before: seq<(string, string)>, after: seq<(string, string)>, pairs: set<(string, string)>) {
    before <= after && (set n | n in after[|before|..]) == pairs
  }

  /** How many payload rows there are; deleting them answers with the difference. */
  function Rows(out: Issued): nat { |out.families| + |out.artefacts| }

  class AccessStore {
    var dir: Directory
    var out: Issued
    /** Every (person, app) pair a back-channel logout was sent for, in order. */
    var notices: seq<(string, string)>

    function Contents(): State reads this { State(dir, out) }

    constructor (dir: Directory)
      ensures this.dir == dir && out == Issued(map[], map[]) && notices == []
      ensures CONSOLE_CLIENT_ID !in dir.apps ==> Safe(Contents())
    {
      this.dir, out, notices := dir, Issued(map[], map[]), [];
    }

    /**
     * What this person may do in this app, and where that comes from: the direct grant, and every group
     * that has one.
     */
    method EffectiveAccess(user: string, client: string)
      returns (hasGrant: bool, roles: set<string>, direct: bool, groups: set<string>)
      ensures hasGrant == HasGrant(dir, user, client) && roles == HeldRoles(dir, user, client)
      ensures client == CONSOLE_CLIENT_ID ==> hasGrant && roles == {}
      ensures direct == (Usable(dir, client) && (user, client) in dir.grants)
      ensures groups == if Usable(dir, client) then set g | g in dir.groups && ViaGroup(dir, g, user, client) else {}
    {
      if client == CONSOLE_CLIENT_ID { return true, {}, false, {}; }
      if client !in dir.apps || !dir.apps[client].enabled { return false, {}, false, {}; }
      direct := (user, client) in dir.grants;
      roles := if direct then dir.grants[(user, client)] else {};
      groups := {};
      var left := dir.groups.Keys;
      while left != {}
        invariant left <= dir.groups.Keys
        invariant groups == set g | g in dir.groups.Keys - left && ViaGroup(dir, g, user, client)
        invariant roles == (if direct then dir.grants[(user, client)] else {})
          + Through(dir, dir.groups.Keys - left, user, client)
      {
        var g :| g in left;
        OneGroupMore(dir, dir.groups.Keys - left, g, user, client);
        assert dir.groups.Keys - left + {g} == dir.groups.Keys - (left - {g});
        if user in dir.groups[g].members && client in dir.groups[g].grants {
          groups := groups + {g};
          roles := roles + dir.groups[g].grants[client];
        }
        left := left - {g};
      }
      hasGrant := direct || groups != {};
      assert dir.groups.Keys - left == dir.groups.Keys;
      NoneFound(dir, groups, user, client);
      if hasGrant {
        HeldIsThrough(dir, user, client);
      }
    }

    /** The role rows of every group that links the pair, after those of the direct grant. */
    method GroupRows(
          user: string, client: string, before: seq<RoleRow>, ghost keys: set<string>) returns (rows: seq<RoleRow>)
      requires client in dir.apps && RolesDeclared(dir, client) && RowsSay(before, dir.apps[client].roles, keys)
      ensures RowsSay(rows, dir.apps[client].roles, keys + Through(dir, dir.groups.Keys, user, client))
    {
      rows := before;
      var left := dir.groups.Keys;
      assert Through(dir, {}, user, client) == {};
      while left != {}
        invariant left <= dir.groups.Keys
        invariant RowsSay(rows, dir.apps[client].roles, keys + Through(dir, dir.groups.Keys - left, user, client))
      {
        var g :| g in left;
        ghost var seen := Through(dir, dir.groups.Keys - left, user, client);
        OneGroupMore(dir, dir.groups.Keys - left, g, user, client);
        assert dir.groups.Keys - left + {g} == dir.groups.Keys - (left - {g});
        if user in dir.groups[g].members && client in dir.groups[g].grants {
          rows := AddRows(rows, dir.apps[client].roles, keys + seen, dir.groups[g].grants[client]);
          assert keys + seen + dir.groups[g].grants[client] == keys + (seen + dir.groups[g].grants[client]);
        }
        left := left - {g};
      }
      assert dir.groups.Keys - left == dir.groups.Keys;
    }

    /** The roles an app is told of: those held, each once, highest in the app's manifest first. */
    method EffectiveRoles(user: string, client: string) returns (keys: seq<string>)
      requires RolesDeclared(dir, client)
      ensures forall k :: k in keys <==> k in HeldRoles(dir, user, client)
      ensures forall i, j :: 0 <= i < j < |keys| ==> keys[i] != keys[j]
      ensures client in dir.apps ==> HighestFirst(dir.apps[client].roles, keys)
    {
      var hasGrant, _, _, _ := EffectiveAccess(user, client);
      if !hasGrant || client == CONSOLE_CLIENT_ID { return []; }
      var order := dir.apps[client].roles;
      var rows := [];
      ghost var direct := {};
      if (user, client) in dir.grants {
        direct := dir.grants[(user, client)];
        rows := AddRows(rows, order, {}, dir.grants[(user, client)]);
        assert {} + direct == direct;
      }
      rows := GroupRows(user, client, rows, direct);
      HeldIsThrough(dir, user, client);
      keys := OrderedKeys(rows);
    }

    method RevokeTokensIfNoAccess(user: string, client: string)
      modifies this`out
      ensures out == RevokeIfNoAccess(dir, old(out), user, client)
    {
      var hasGrant, _, _, _ := EffectiveAccess(user, client);
      if !hasGrant { out := RevokeTokens(out, user, client); }
    }

    static function Pairs(users: seq<string>, clients: seq<string>): set<(string, string)> {
      set u, c | u in users && c in clients :: (u, c)
    }

    /** The hook a group change calls: every reported pair is told, and loses its tokens if it lost its access. */
    method OnAccessChanged(users: seq<string>, clients: seq<string>)
      modifies this`out, this`notices
      ensures out == Destroy(old(out), LostOf(dir, old(out), Pairs(users, clients)))
      ensures |notices| == |old(notices)| + |users| * |clients|
      ensures Told(old(notices), notices, Pairs(users, clients))
    {
      ghost var done: set<(string, string)> := {};
      ghost var first := |notices|;
      assert LostOf(dir, out, {}) == {};
      assert Destroy(out, {}) == out;
      for i := 0 to |users|
        invariant done == Pairs(users[..i], clients)
        invariant out == Destroy(old(out), LostOf(dir, old(out), done))
        invariant |notices| == first + i * |clients| && old(notices) <= notices
        invariant (set n | n in notices[first..]) == done
      {
        OnPersonChanged(users[i], clients, done, old(out), first);
        assert Pairs(users[..i + 1], clients) == done + Pairs([users[i]], clients);
        done := done + Pairs([users[i]], clients);
        assert (i + 1) * |clients| == i * |clients| + |clients|;
      }
      assert users[..|users|] == users;
    }

    /** The inner loop: one person, every app. */
    method OnPersonChanged(
          user: string, clients: seq<string>, ghost before: set<(string, string)>, ghost start: Issued,
          ghost first: nat)
      requires out == Destroy(start, LostOf(dir, start, before))
      requires first <= |notices| && (set n | n in notices[first..]) == before
      modifies this`out, this`notices
      ensures out == Destroy(start, LostOf(dir, start, before + Pairs([user], clients)))
      ensures |notices| == |old(notices)| + |clients| && old(notices) <= notices
      ensures (set n | n in notices[first..]) == before + Pairs([user], clients)
    {
      ghost var done := before;
      for j := 0 to |clients|
        invariant done == before + Pairs([user], clients[..j])
        invariant out == Destroy(start, LostOf(dir, start, done))
        invariant |notices| == |old(notices)| + j && old(notices) <= notices
        invariant (set n | n in notices[first..]) == done
      {
        LoseOneMore(dir, start, done, user, clients[j]);
        assert (notices + [(user, clients[j])])[first..] == notices[first..] + [(user, clients[j])];
        notices := notices + [(user, clients[j])];
        RevokeTokensIfNoAccess(user, clients[j]);
        assert Pairs([user], clients[..j + 1]) == Pairs([user], clients[..j]) + {(user, clients[j])};
        done := done + {(user, clients[j])};
      }
      assert clients[..|clients|] == clients;
    }

    /** A set as the list a query answers with. */
    static method Listed(s: set<string>) returns (r: seq<string>)
      ensures forall x :: x in r <==> x in s
      ensures |r| == |s|
    {
      var left := s;
      r := [];
      while left != {}
        invariant left <= s && forall x :: x in r <==> x in s - left
        invariant |r| + |left| == |s|
      {
        var x :| x in left;
        r, left := r + [x], left - {x};
      }
    }

    lemma LostAsReported(
          d: Directory, out: Issued, users: seq<string>, clients: seq<string>, us: set<string>, cs: set<string>)
      requires (forall u :: u in users <==> u in us) && (forall c :: c in clients <==> c in cs)
      ensures LostOf(d, out, Pairs(users, clients)) == LostFamilies(d, out, us, cs)
      ensures Pairs(users, clients) == set u, c | u in us && c in cs :: (u, c)
    {
    }

    /** A change that reports nobody leaves tokens and notices alone. */
    static lemma NobodyReported(d: Directory, out: Issued)
      ensures Destroy(out, LostFamilies(d, out, {}, {})) == out
      ensures (set u: string, c: string | u in {} && c in {} :: (u, c)) == {}
    {
      assert LostFamilies(d, out, {}, {}) == {};
    }

    // -------------------------------------------------------------- groups

    static lemma NothingToRemove(s: State, g: string)
      ensures g !in s.dir.groups ==> Step(s, Op.RemoveGroup(g)) == s
    {
      if g !in s.dir.groups {
        assert s.dir.groups - {g} == s.dir.groups;
        assert LostFamilies(s.dir, s.out, {}, {}) == {};
        assert Destroy(s.out, {}) == s.out;
      }
    }

    method RemoveGroup(g: string) returns (removed: bool)
      modifies this
      ensures Contents() == Step(old(Contents()), Op.RemoveGroup(g))
      ensures Told(old(notices), notices, ReportedPairs(old(dir), Op.RemoveGroup(g)))
      ensures removed == (g in old(dir).groups)
    {
      NothingToRemove(Contents(), g);
      if g !in dir.groups { return false; }
      var users := Listed(dir.groups[g].members);
      var clients := Listed(dir.groups[g].grants.Keys);
      ghost var us, cs := dir.groups[g].members, dir.groups[g].grants.Keys;
      dir := dir.(groups := dir.groups - {g});
      LostAsReported(dir, out, users, clients, us, cs);
      OnAccessChanged(users, clients);
      removed := true;
    }

    method SetMembers(g: string, members: seq<string>) returns (r: Result<(), AccessError>)
      modifies this
      ensures Contents() == Step(old(Contents()), Op.SetMembers(g, members))
      ensures r.Success? ==> g in dir.groups && forall u :: u in dir.groups[g].members <==> u in members
      ensures Told(old(notices), notices, ReportedPairs(old(dir), Op.SetMembers(g, members)))
      ensures r == if g !in old(dir).groups then Failure(NoSuchGroup)
        else if (set m | m in members) <= old(dir).users then Success(()) else Failure(NoSuchUser)
    {
      NobodyReported(dir, out);
      if g !in dir.groups { return Failure(NoSuchGroup); }
      var wanted := set m | m in members;
      if !(wanted <= dir.users) { return Failure(NoSuchUser); }
      var before := dir.groups[g].members;
      var clients := Listed(dir.groups[g].grants.Keys);
      ghost var cs := dir.groups[g].grants.Keys;
      dir := PutGroup(dir, g, dir.groups[g].(members := wanted));
      var users := Listed(before + wanted);
      LostAsReported(dir, out, users, clients, before + wanted, cs);
      OnAccessChanged(users, clients);
      r := Success(());
    }

    method SetGroupGrant(g: string, client: string, roles: set<string>) returns (r: Result<(), AccessError>)
      modifies this
      ensures Contents() == Step(old(Contents()), Op.SetGroupGrant(g, client, roles))
      ensures Told(old(notices), notices, ReportedPairs(old(dir), Op.SetGroupGrant(g, client, roles)))
      ensures r == if g !in old(dir).groups then Failure(NoSuchGroup)
        else if client !in old(dir).apps then Failure(NoSuchApp)
        else if roles <= old(dir).apps[client].roles.Keys then Success(()) else Failure(UnknownRoles)
    {
      NobodyReported(dir, out);
      if g !in dir.groups { return Failure(NoSuchGroup); }
      if client !in dir.apps { return Failure(NoSuchApp); }
      if !(roles <= dir.apps[client].roles.Keys) { return Failure(UnknownRoles); }
      dir := PutGroup(dir, g, dir.groups[g].(grants := dir.groups[g].grants[client := roles]));
      var users := Listed(dir.groups[g].members);
      LostAsReported(dir, out, users, [client], dir.groups[g].members, {client});
      OnAccessChanged(users, [client]);
      r := Success(());
    }

    method RevokeGroupGrant(g: string, client: string) returns (r: Result<bool, AccessError>)
      modifies this
      ensures Contents() == Step(old(Contents()), Op.RevokeGroupGrant(g, client))
      ensures Told(old(notices), notices, ReportedPairs(old(dir), Op.RevokeGroupGrant(g, client)))
      ensures r == if client !in old(dir).apps then Failure(NoSuchApp)
                   else Success(g in old(dir).groups && client in old(dir).groups[g].grants)
    {
      NobodyReported(dir, out);
      if client !in dir.apps { return Failure(NoSuchApp); }
      if g !in dir.groups { return Success(false); }
      if client !in dir.groups[g].grants {
        assert dir.groups[g].grants - {client} == dir.groups[g].grants;
        assert dir.groups[g := dir.groups[g].(grants := dir.groups[g].grants - {client})] == dir.groups;
        return Success(false);
      }
      var users := Listed(dir.groups[g].members);
      dir := PutGroup(dir, g, dir.groups[g].(grants := dir.groups[g].grants - {client}));
      LostAsReported(dir, out, users, [client], dir.groups[g].members, {client});
      OnAccessChanged(users, [client]);
      r := Success(true);
    }

    // -------------------------------------------------------------- direct grants and apps

    method SetGrant(user: string, client: string, roles: set<string>) returns (r: Result<(), AccessError>)
      modifies this
      ensures Contents() == Step(old(Contents()), Op.SetGrant(user, client, roles))
      ensures r == if client !in old(dir).apps then Failure(NoSuchApp)
        else if user !in old(dir).users then Failure(NoSuchUser)
        else if roles <= old(dir).apps[client].roles.Keys then Success(()) else Failure(UnknownRoles)
      ensures notices == if r.Success? then old(notices) + [(user, client)] else old(notices)
    {
      NobodyReported(Directed(dir, Op.SetGrant(user, client, roles)), out);
      if client !in dir.apps { return Failure(NoSuchApp); }
      if user !in dir.users { return Failure(NoSuchUser); }
      if !(roles <= dir.apps[client].roles.Keys) { return Failure(UnknownRoles); }
      dir := dir.(grants := dir.grants[(user, client) := roles]);
      notices := notices + [(user, client)];
      r := Success(());
    }

    method RevokeGrant(user: string, client: string) returns (r: Result<bool, AccessError>)
      modifies this
      ensures Contents() == Step(old(Contents()), Op.RevokeGrant(user, client))
      ensures r == if client !in old(dir).apps then Failure(NoSuchApp) else Success((user, client) in old(dir).grants)
      ensures notices == if r == Success(true) then old(notices) + [(user, client)] else old(notices)
    {
      if client !in dir.apps { return Failure(NoSuchApp); }
      if (user, client) !in dir.grants {
        assert dir.grants - {(user, client)} == dir.grants;
        return Success(false);
      }
      dir := dir.(grants := dir.grants - {(user, client)});
      notices := notices + [(user, client)];
      out := RevokeTokens(out, user, client);
      r := Success(true);
    }

    /** Answers with the number of payload rows deleted. */
    method SetEnabled(client: string, enabled: bool) returns (r: Result<int, AccessError>)
      modifies this
      ensures Contents() == Step(old(Contents()), Op.SetEnabled(client, enabled)) && notices == old(notices)
      ensures r == if client in old(dir).apps then Success(Rows(old(out)) - Rows(out)) else Failure(NoSuchApp)
    {
      if client !in dir.apps { return Failure(NoSuchApp); }
      dir := dir.(apps := dir.apps[client := dir.apps[client].(enabled := enabled)]);
      var before := Rows(out);
      if !enabled { out := RevokeClient(out, client); }
      r := Success(before - Rows(out));
    }

    method RemoveApp(client: string) returns (r: Result<int, AccessError>)
      modifies this
      ensures Contents() == Step(old(Contents()), Op.RemoveApp(client)) && notices == old(notices)
      ensures r == if client in old(dir).apps then Success(Rows(old(out)) - Rows(out)) else Failure(NoSuchApp)
    {
      if client !in dir.apps { return Failure(NoSuchApp); }
      var before := Rows(out);
      out := RevokeClient(out, client);
      dir := WithoutApp(dir, client);
      r := Success(before - Rows(out));
    }

    /** The only place a provider grant is made: denied unless the pair has access at that moment. */
    method GrantAndFinish(user: string, client: string, reuse: Option<string>, id: string) returns (r: Option<string>)
      requires id !in out.families
      modifies this
      ensures Contents() == Step(old(Contents()), Mint(user, client, reuse, id))
      ensures r.Some? <==> HasGrant(dir, user, client)
      ensures r.Some? ==> r.value in out.families
    {
      var hasGrant, _, _, _ := EffectiveAccess(user, client);
      if !hasGrant { return None; }
      if reuse.Some? && reuse.value in out.families { return reuse; }
      out := out.(families := out.families[id := Family(user, client)]);
      r := Some(id);
    }
  }
}
