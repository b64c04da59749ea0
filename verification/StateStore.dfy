/** The administrative tables as an object: planning reads them, importing upserts into them row by row. */
module StateStores {
  import opened Common
  import opened People
  import opened AdminState
  import opened ImportPlan
  import opened ImportKinds

  class StateStore {
    var apps: map<string, App>
    var people: map<string, Person>
    var groups: map<string, Group>

    function Contents(): Instance reads this { Instance(apps, people, groups) }

    constructor ()
      ensures Contents() == Empty
    {
      apps, people, groups := map[], map[], map[];
    }

    // ---------------------------------------------------------------- planning

    method GrantChecks(
          holder: Holder, grants: seq<GrantEntry>, known: set<string>, before: seq<Problem>)
      returns (problems: seq<Problem>)
      ensures problems == before + GrantProblems(holder, grants, known)
    {
      problems := before;
      for i := 0 to |grants|
        invariant problems == before + GrantProblems(holder, grants[..i], known)
      {
        assert grants[..i + 1][..i] == grants[..i];
        if grants[i].clientId !in known { problems := problems + [GrantUnknown(holder, grants[i].clientId)]; }
      }
      assert grants[..|grants|] == grants;
    }

    method PeopleChecks(es: seq<PersonEntry>, known: set<string>) returns (problems: seq<Problem>)
      ensures problems == PeopleProblems(es, known)
    {
      problems := [];
      for i := 0 to |es|
        invariant problems == PeopleProblems(es[..i], known)
      {
        assert es[..i + 1][..i] == es[..i];
        problems := GrantChecks(APerson(es[i].email), es[i].grants, known, problems);
      }
      assert es[..|es|] == es;
    }

    method MemberChecks(
          name: string, members: seq<string>, known: set<string>, before: seq<Problem>) returns (problems: seq<Problem>)
      ensures problems == before + MemberProblems(name, members, known)
    {
      problems := before;
      for i := 0 to |members|
        invariant problems == before + MemberProblems(name, members[..i], known)
      {
        assert members[..i + 1][..i] == members[..i];
        if members[i] !in known { problems := problems + [MemberUnknown(name, members[i])]; }
      }
      assert members[..|members|] == members;
    }

    method GroupChecks(es: seq<GroupEntry>, emails: set<string>, known: set<string>) returns (problems: seq<Problem>)
      ensures problems == GroupProblems(es, emails, known)
    {
      problems := [];
      for i := 0 to |es|
        invariant problems == GroupProblems(es[..i], emails, known)
      {
        assert es[..i + 1][..i] == es[..i];
        problems := MemberChecks(es[i].name, es[i].members, emails, problems);
        problems := GrantChecks(AGroup(es[i].name), es[i].grants, known, problems);
      }
      assert es[..|es|] == es;
    }

    /** Who an import may make powerful, and what it will refuse to do. */
    method KindsFor(es: seq<PersonEntry>) returns (kinds: map<string, Kind>, problems: seq<Problem>)
      ensures kinds == DecideKinds(people, es) && problems == KindProblems(people, es)
      ensures forall i: nat, email :: !OwnerNow(people, email) && LastGrantable(people, es, i, email) ==>
          Lookup(kinds, email) == Some(es[i].kind)
    {
      kinds, problems := map[], [];
      for i := 0 to |es|
        invariant kinds == DecideKinds(people, es[..i]) && problems == KindProblems(people, es[..i])
      {
        assert es[..i + 1][..i] == es[..i];
        var e := es[i];
        var current := Lookup(people, e.email);
        if current.Some? && current.value.kind == Owner {
          if e.kind != Owner { problems := problems + [OwnerHere(e.email)]; }
          continue;
        }
        if e.kind == Owner {
          problems := problems + [OwnerInFile(e.email)];
          if current.None? { kinds := kinds[e.email := Guest]; }
          continue;
        }
        if e.kind == Admin {
          var factors := if current.Some? then current.value.factors else 0;
          if factors == 0 {
            problems := problems + [AdminWithoutFactor(e.email)];
            if current.None? { kinds := kinds[e.email := Guest]; }
            continue;
          }
        }
        kinds := kinds[e.email := e.kind];
      }
      assert es[..|es|] == es;
      forall i: nat, email | !OwnerNow(people, email) && LastGrantable(people, es, i, email)
        ensures Lookup(kinds, email) == Some(es[i].kind)
      {
        GrantedKind(people, es, i, email);
      }
    }

    method PresetChecks(es: seq<AppEntry>) returns (problems: seq<Problem>)
      ensures problems == PresetProblems(es)
    {
      problems := [];
      for i := 0 to |es|
        invariant problems == PresetProblems(es[..i])
      {
        assert es[..i + 1][..i] == es[..i];
        var preset := es[i].preset;
        if preset.Some? && preset.value.key !in PRESETS {
          problems := problems + [PresetUnknown(es[i].clientId, preset.value.key)];
        }
      }
      assert es[..|es|] == es;
    }

    method PlanImport(f: File) returns (plan: Plan)
      ensures plan == PlanOf(Contents(), f)
    {
      var known := Elements(AppIds(f.apps)) + apps.Keys;
      var emails := people.Keys + Elements(Emails(f.people));
      var presets := PresetChecks(f.apps);
      var problems := PeopleChecks(f.people, known);
      var more := GroupChecks(f.groups, emails, known);
      var kinds, last := KindsFor(f.people);
      plan := Plan(SplitBy(AppIds(f.apps), apps.Keys), SplitBy(Emails(f.people), people.Keys),
                   SplitBy(GroupNames(f.groups), groups.Keys),
                   SecretPending(apps, f.apps), ReEnrolments(people, f.people),
                   presets + problems + more + last, kinds);
    }

    // ---------------------------------------------------------------- importing

    method UpsertApp(e: AppEntry)
      modifies this`apps
      ensures apps == old(apps)[e.clientId := ImportedApp(Lookup(old(apps), e.clientId), e)]
    {
      var was := Lookup(apps, e.clientId);
      var saved := match was
        case None => App(e.profile, e.homeUrl, e.preset, None, {}, map[])
        case Some(a) =>
          App(e.profile, if e.homeUrl.Some? then e.homeUrl else a.homeUrl,
              if e.preset.Some? then e.preset else a.preset,
              a.secretHash, a.redirectUris, a.roles);
      var uris := saved.redirectUris * KeptUris(e.redirectUris);
      for i := 0 to |e.redirectUris|
        invariant uris == saved.redirectUris * KeptUris(e.redirectUris) + Elements(e.redirectUris[..i])
      {
        uris := uris + {e.redirectUris[i]};
      }
      assert e.redirectUris[..|e.redirectUris|] == e.redirectUris;
      assert was.None? ==> uris == Elements(e.redirectUris);
      var roles := saved.roles;
      for i := 0 to |e.roles|
        invariant roles == PutRoles(saved.roles, e.roles[..i], |e.roles|)
      {
        assert e.roles[..i + 1][..i] == e.roles[..i];
        var r := e.roles[i];
        roles := roles[r.key := Role(r.display, r.description, |e.roles| - i, r.isDefault)];
      }
      assert e.roles[..|e.roles|] == e.roles;
      apps := apps[e.clientId := saved.(redirectUris := uris, roles := roles)];
    }

    method UpsertGrants(before: Grants, es: seq<GrantEntry>) returns (grants: Grants)
      ensures grants == ImportGrants(before, apps, es)
    {
      grants := before;
      for i := 0 to |es|
        invariant grants == ImportGrants(before, apps, es[..i])
      {
        assert es[..i + 1][..i] == es[..i];
        if es[i].clientId !in apps { continue; }
        grants := grants[es[i].clientId := set key | key in apps[es[i].clientId].roles && key in es[i].roles];
      }
      assert es[..|es|] == es;
    }

    method UpsertPerson(e: PersonEntry, kind: Option<Kind>)
      modifies this`people
      ensures people == old(people)[e.email := ImportedPerson(Lookup(old(people), e.email), apps, e, kind)]
    {
      var saved := match Lookup(people, e.email)
        case None =>
          Person(e.username, e.displayName, if kind.Some? then kind.value else Guest,
                 if e.status == Suspended then Suspended else Invited, 0, false, map[])
        case Some(p) => p.(username := e.username, displayName := e.displayName,
            kind := if kind.Some? then kind.value else p.kind);
      var grants := UpsertGrants(saved.grants, e.grants);
      people := people[e.email := saved.(grants := grants)];
    }

    method UpsertGroup(e: GroupEntry)
      modifies this`groups
      ensures groups == old(groups)[e.name := ImportedGroup(Lookup(old(groups), e.name), apps, people.Keys, e)]
    {
      var members := set m | m in people.Keys && m in e.members;
      var grants := UpsertGrants(if e.name in groups then groups[e.name].grants else map[], e.grants);
      groups := groups[e.name := Group(e.description, members, grants)];
    }

    method ApplyApps(es: seq<AppEntry>)
      modifies this`apps
      ensures apps == ImportApps(old(apps), es)
    {
      for i := 0 to |es|
        invariant apps == ImportApps(old(apps), es[..i])
      {
        assert es[..i + 1][..i] == es[..i];
        UpsertApp(es[i]);
      }
      assert es[..|es|] == es;
    }

    method ApplyPeople(es: seq<PersonEntry>, kinds: map<string, Kind>)
      modifies this`people
      ensures people == ImportPeople(old(people), apps, kinds, es)
    {
      for i := 0 to |es|
        invariant people == ImportPeople(old(people), apps, kinds, es[..i])
      {
        assert es[..i + 1][..i] == es[..i];
        UpsertPerson(es[i], Lookup(kinds, es[i].email));
      }
      assert es[..|es|] == es;
    }

    method ApplyGroups(es: seq<GroupEntry>)
      modifies this`groups
      ensures groups == ImportGroups(old(groups), apps, people.Keys, es)
    {
      for i := 0 to |es|
        invariant groups == ImportGroups(old(groups), apps, people.Keys, es[..i])
      {
        assert es[..i + 1][..i] == es[..i];
        UpsertGroup(es[i]);
      }
      assert es[..|es|] == es;
    }

    /** Applies the file, unless this is a dry run; either way the answer is the plan made beforehand. */
    method ImportState(f: File, dryRun: bool) returns (plan: Plan)
      modifies this
      ensures plan == PlanOf(old(Contents()), f)
      ensures Contents() == if dryRun then old(Contents()) else Import(old(Contents()), f)
    {
      plan := PlanImport(f);
      if dryRun { return; }
      ApplyApps(f.apps);
      ApplyPeople(f.people, plan.kinds);
      ApplyGroups(f.groups);
    }
  }
}
