/**
 * Registering an app from its manifest: what the diff reports, what applying writes, and how the
 * two agree.
 */
module Manifests {
  import opened Common
  import RoleOrder

  datatype ManifestRole = ManifestRole(key: string, display: string, description: string, isDefault: bool)

  datatype Manifest = Manifest(
    name: string, description: string, clientType: string, redirectUris: seq<string>, postLogout: seq<string>,
    backchannel: Option<string>, home: Option<string>, roles: seq<ManifestRole>)

  datatype Role = Role(display: string, description: string, sortOrder: int, isDefault: bool)

  /** The app row with its redirect URI and role rows, and which grant holds which role. */
  datatype App = App(
    name: string, description: string, clientType: string, backchannel: Option<string>, home: Option<string>,
    postLogout: seq<string>, uris: set<string>, roles: map<string, Role>, held: set<(string, string)>)

  /** What the manifest parser guarantees: no role declared twice, no empty address. */
  ghost predicate Parsed(m: Manifest) {
    && (forall i, j :: 0 <= i < j < |m.roles| ==> m.roles[i].key != m.roles[j].key)
    && m.backchannel != Some("") && m.home != Some("")
  }

  /** Only roles of the app are held. */
  ghost predicate WellFormed(a: App) {
    && (forall h :: h in a.held ==> h.1 in a.roles)
    && a.backchannel != Some("") && a.home != Some("")
  }

  function OrEmpty(s: Option<string>): string { if s.Some? then s.value else "" }

  function Join(parts: seq<string>): string {
    if parts == [] then "" else if |parts| == 1 then parts[0] else parts[0] + " " + Join(parts[1..])
  }

  predicate Declares(m: Manifest, key: string) {
    exists i :: 0 <= i < |m.roles| && m.roles[i].key == key
  }

  predicate IsHeld(a: App, key: string) {
    exists h :: h in a.held && h.1 == key
  }

  // ---- applying ----

  /** The first role in the manifest sorts highest. */
  function RoleAt(m: Manifest, i: nat): Role
    requires i < |m.roles|
  {
    Role(m.roles[i].display, m.roles[i].description, |m.roles| - i, m.roles[i].isDefault)
  }

  function RolesUpTo(m: Manifest, n: nat): map<string, Role>
    requires n <= |m.roles|
  {
    if n == 0 then map[] else RolesUpTo(m, n - 1)[m.roles[n - 1].key := RoleAt(m, n - 1)]
  }

  function Applied(a: App, m: Manifest): App {
    App(m.name, m.description, m.clientType, m.backchannel, m.home, m.postLogout,
      (set u | u in m.redirectUris), RolesUpTo(m, |m.roles|), set h | h in a.held && Declares(m, h.1))
  }

  lemma {:induction false} RolesAreTheManifests(m: Manifest, n: nat)
    requires Parsed(m) && n <= |m.roles|
    ensures forall i :: 0 <= i < n ==>
        m.roles[i].key in RolesUpTo(m, n) && RolesUpTo(m, n)[m.roles[i].key] == RoleAt(m, i)
    ensures forall k :: k in RolesUpTo(m, n) ==> exists i :: 0 <= i < n && m.roles[i].key == k
  {
    if n > 0 {
      RolesAreTheManifests(m, n - 1);
    }
  }

  /** The app row of the server, updated by the loops of one transaction. */
  class AppRow {
    var app: App

    constructor (app: App)
      ensures this.app == app
    {
      this.app := app;
    }

    method ReplaceUris(m: Manifest)
      modifies this
      ensures app == old(app).(uris := set u | u in m.redirectUris)
    {
      app := app.(uris := set u | u in app.uris && u in m.redirectUris);
      ghost var kept := app.uris;
      for i := 0 to |m.redirectUris|
        invariant app == old(app).(uris := kept + set k | 0 <= k < i :: m.redirectUris[k])
      {
        app := app.(uris := app.uris + {m.redirectUris[i]});
      }
      assert app.uris == set u | u in m.redirectUris;
    }

    method ReplaceRoles(m: Manifest)
      modifies this
      ensures app == old(app).(roles := RolesUpTo(m, |m.roles|), held := set h | h in old(app).held && Declares(m, h.1))
    {
      app := app.(roles := map k | k in app.roles && Declares(m, k) :: app.roles[k],
                  held := set h | h in app.held && Declares(m, h.1));
      ghost var kept, held := app.roles, app.held;
      for i := 0 to |m.roles|
        invariant app == old(app).(roles := kept + RolesUpTo(m, i), held := held)
      {
        app := app.(roles := app.roles[m.roles[i].key := RoleAt(m, i)]);
      }
      AllIsOverwritten(m, kept);
    }

    method Apply(m: Manifest)
      modifies this
      ensures app == Applied(old(app), m)
    {
      app := app.(name := m.name, description := m.description, clientType := m.clientType,
        backchannel := m.backchannel, home := m.home, postLogout := m.postLogout);
      ReplaceUris(m);
      ReplaceRoles(m);
    }

    /** An update is refused, and changes nothing, when it would take a role somebody holds unconfirmed. */
    method Update(m: Manifest, confirmRoleRemoval: bool) returns (updated: bool)
      requires WellFormed(app)
      modifies this
      ensures updated <==> confirmRoleRemoval || DiffOf(m, old(app)).blocking == {}
      ensures app == if updated then Applied(old(app), m) else old(app)
      ensures !confirmRoleRemoval ==> app.held == old(app).held
    {
      var diff := DiffOf(m, app);
      if diff.blocking != {} && !confirmRoleRemoval {
        return false;
      }
      BlockingIsWhatWouldBeLost(app, m);
      Apply(m);
      updated := true;
    }
  }

  lemma {:induction false} EveryKeyIsWritten(m: Manifest, n: nat)
    requires n <= |m.roles|
    ensures forall i :: 0 <= i < n ==> m.roles[i].key in RolesUpTo(m, n)
  {
    if n > 0 {
      EveryKeyIsWritten(m, n - 1);
    }
  }

  lemma AllIsOverwritten(m: Manifest, kept: map<string, Role>)
    requires forall k :: k in kept ==> Declares(m, k)
    ensures kept + RolesUpTo(m, |m.roles|) == RolesUpTo(m, |m.roles|)
  {
    EveryKeyIsWritten(m, |m.roles|);
  }

  // ---- the diff ----

  datatype Change = Change(field: string, before: string, after: string)

  datatype Diff = Diff(
    changed: seq<Change>, urisAdded: set<string>, urisRemoved: set<string>,
    rolesAdded: set<string>, rolesRemoved: set<string>, rolesChanged: set<string>, blocking: set<string>)

  function Compare(field: string, before: string, after: string): seq<Change> {
    if before != after then [Change(field, before, after)] else []
  }

  predicate RoleDiffers(a: App, r: ManifestRole) {
    r.key in a.roles && (a.roles[r.key].display != r.display || a.roles[r.key].description != r.description)
  }

  function DiffOf(m: Manifest, a: App): Diff {
    var removed := set k | k in a.roles && !Declares(m, k);
    Diff(
      Compare("name", a.name, m.name) + Compare("description", a.description, m.description)
        + Compare("client_type", a.clientType, m.clientType)
        + Compare("backchannel_logout_uri", OrEmpty(a.backchannel), OrEmpty(m.backchannel))
        + Compare("home_url", OrEmpty(a.home), OrEmpty(m.home))
        + Compare("post_logout_redirect_uris", Join(a.postLogout), Join(m.postLogout)),
      (set u | u in m.redirectUris && u !in a.uris), (set u | u in a.uris && u !in m.redirectUris),
      (set r | r in m.roles && r.key !in a.roles :: r.key), removed,
      (set r | r in m.roles && RoleDiffers(a, r) :: r.key), set k | k in removed && IsHeld(a, k))
  }

  const NO_CHANGE := Diff([], {}, {}, {}, {}, {}, {})

  method Push(changed: seq<Change>, field: string, before: string, after: string) returns (r: seq<Change>)
    ensures r == changed + Compare(field, before, after)
  {
    r := changed;
    if before != after {
      r := r + [Change(field, before, after)];
    }
  }

  /** The comparison of the plain fields, as the source builds its list. */
  method CompareFields(m: Manifest, a: App) returns (changed: seq<Change>)
    ensures changed == DiffOf(m, a).changed
  {
    changed := Push([], "name", a.name, m.name);
    changed := Push(changed, "description", a.description, m.description);
    changed := Push(changed, "client_type", a.clientType, m.clientType);
    changed := Push(changed, "backchannel_logout_uri", OrEmpty(a.backchannel), OrEmpty(m.backchannel));
    changed := Push(changed, "home_url", OrEmpty(a.home), OrEmpty(m.home));
    changed := Push(changed, "post_logout_redirect_uris", Join(a.postLogout), Join(m.postLogout));
  }

  /** An app that looks, to the diff, like the manifest. */
  ghost predicate LooksLike(a: App, m: Manifest) {
    && SameFields(a, m)
    && a.uris == (set u | u in m.redirectUris)
    && (forall k :: k in a.roles <==> Declares(m, k))
    && (forall i :: 0 <= i < |m.roles| && m.roles[i].key in a.roles ==> !RoleDiffers(a, m.roles[i]))
  }

  ghost predicate SameFields(a: App, m: Manifest) {
    && a.name == m.name && a.description == m.description && a.clientType == m.clientType
    && OrEmpty(a.backchannel) == OrEmpty(m.backchannel) && OrEmpty(a.home) == OrEmpty(m.home)
    && Join(a.postLogout) == Join(m.postLogout)
  }

  lemma FieldsCompareEqual(m: Manifest, a: App)
    ensures DiffOf(m, a).changed == [] <==> SameFields(a, m)
  {
  }

  lemma RolesCompareEqual(m: Manifest, a: App)
    ensures DiffOf(m, a).rolesAdded == DiffOf(m, a).rolesRemoved == DiffOf(m, a).rolesChanged == {}
      <==> (forall k :: k in a.roles <==> Declares(m, k))
           && (forall i :: 0 <= i < |m.roles| && m.roles[i].key in a.roles ==> !RoleDiffers(a, m.roles[i]))
  {
    var d := DiffOf(m, a);
    forall i | 0 <= i < |m.roles|
      ensures (m.roles[i].key !in a.roles ==> m.roles[i].key in d.rolesAdded)
        && (RoleDiffers(a, m.roles[i]) ==> m.roles[i].key in d.rolesChanged)
    {
      assert m.roles[i] in m.roles;
    }
    forall k | k in a.roles && !Declares(m, k) ensures k in d.rolesRemoved {}
    if (forall k :: k in a.roles <==> Declares(m, k))
      && (forall i :: 0 <= i < |m.roles| && m.roles[i].key in a.roles ==> !RoleDiffers(a, m.roles[i])) {
      forall r | r in m.roles ensures r.key in a.roles && !RoleDiffers(a, r) {
        var i :| 0 <= i < |m.roles| && m.roles[i] == r;
        assert Declares(m, r.key);
      }
    }
  }

  /** The diff reports nothing exactly when the stored app looks like the manifest. */
  lemma EmptyDiffMeans(m: Manifest, a: App)
    ensures DiffOf(m, a) == NO_CHANGE <==> LooksLike(a, m)
  {
    FieldsCompareEqual(m, a);
    RolesCompareEqual(m, a);
    var d := DiffOf(m, a);
    assert d.urisAdded == d.urisRemoved == {} <==> a.uris == (set u | u in m.redirectUris) by {
      forall u ensures (u in a.uris <==> u in m.redirectUris) <==> u !in d.urisRemoved && u !in d.urisAdded {}
    }
    assert d.rolesRemoved == {} ==> d.blocking == {};
  }

  /** What was applied is what the diff then sees: nothing left to report. */
  lemma NothingLeftToReport(a: App, m: Manifest)
    requires Parsed(m)
    ensures DiffOf(m, Applied(a, m)) == NO_CHANGE
  {
    var b := Applied(a, m);
    RolesAreTheManifests(m, |m.roles|);
    EmptyDiffMeans(m, b);
  }

  /** What applying changes and the diff does not show: order, defaults, and lists that join alike. */
  ghost predicate SameUnseen(a: App, m: Manifest) {
    && a.postLogout == m.postLogout
    && (forall i :: 0 <= i < |m.roles| && m.roles[i].key in a.roles ==>
          a.roles[m.roles[i].key].sortOrder == |m.roles| - i
            && a.roles[m.roles[i].key].isDefault == m.roles[i].isDefault)
  }

  /**
   * Exactly when applying changes nothing: an empty diff is necessary and not sufficient. The roles
   * must also be stored in manifest order with the manifest's defaults, and the post-logout lists
   * must be equal, not merely read the same once joined by spaces.
   */
  lemma NoOpExactly(a: App, m: Manifest)
    requires Parsed(m) && WellFormed(a)
    ensures Applied(a, m) == a <==> DiffOf(m, a) == NO_CHANGE && SameUnseen(a, m)
  {
    EmptyDiffMeans(m, a);
    if Applied(a, m) == a {
      UnchangedLooksLike(a, m);
    }
    if LooksLike(a, m) && SameUnseen(a, m) {
      RolesAreTheManifests(m, |m.roles|);
      SameRoles(a, m, RolesUpTo(m, |m.roles|));
      SameRest(a, m);
    }
  }

  lemma UnchangedLooksLike(a: App, m: Manifest)
    requires Parsed(m) && Applied(a, m) == a
    ensures DiffOf(m, a) == NO_CHANGE && SameUnseen(a, m)
  {
    NothingLeftToReport(a, m);
    RolesAreTheManifests(m, |m.roles|);
  }

  lemma SameRest(a: App, m: Manifest)
    requires Parsed(m) && WellFormed(a) && LooksLike(a, m) && SameUnseen(a, m)
    ensures Applied(a, m) == a.(roles := RolesUpTo(m, |m.roles|))
  {
    assert a.held == set h | h in a.held && Declares(m, h.1);
  }

  lemma SameRoles(a: App, m: Manifest, b: map<string, Role>)
    requires RolesAre(m, b) && LooksLike(a, m) && SameUnseen(a, m)
    ensures b == a.roles
  {
    forall k | k in b ensures k in a.roles && a.roles[k] == b[k] {
      var i := PositionOf(m, b, k);
      assert Declares(m, k);
      assert !RoleDiffers(a, m.roles[i]);
    }
    forall k | k in a.roles ensures k in b {
      assert Declares(m, k);
    }
  }

  /** An empty diff, and an apply that still changes the app: the same roles in the other order. */
  lemma ReorderIsUnseen() returns (a: App, m: Manifest)
    ensures Parsed(m) && WellFormed(a)
    ensures DiffOf(m, a) == NO_CHANGE && Applied(a, m) != a
  {
    var x, y := ManifestRole("x", "X", "", false), ManifestRole("y", "Y", "", false);
    m := Manifest("n", "", "t", [], [], None, None, [y, x]);
    a := App("n", "", "t", None, None, [], {}, map["x" := Role("X", "", 2, false), "y" := Role("Y", "", 1, false)], {});
    assert m.roles[0].key == "y" && m.roles[1].key == "x";
    assert !SameUnseen(a, m);
    EmptyDiffMeans(m, a);
    NoOpExactly(a, m);
  }

  /** The same for two post-logout lists that read alike once joined by spaces. */
  lemma JoinedAlike() returns (a: App, m: Manifest)
    ensures Parsed(m) && WellFormed(a)
    ensures DiffOf(m, a) == NO_CHANGE && Applied(a, m).postLogout != a.postLogout
  {
    var one, two := ["https://a/ https://b/"], ["https://a/", "https://b/"];
    assert |one| != |two|;
    assert two[1..] == ["https://b/"];
    assert Join(one) == Join(two);
    m := Manifest("n", "", "t", [], two, None, None, []);
    a := App("n", "", "t", None, None, one, {}, map[], {});
    EmptyDiffMeans(m, a);
  }

  lemma ApplyTwice(a: App, m: Manifest)
    requires Parsed(m)
    ensures Applied(Applied(a, m), m) == Applied(a, m)
  {
  }

  /** Nobody's role is taken by an update that needed no confirmation, and the blocking list says which would be. */
  lemma BlockingIsWhatWouldBeLost(a: App, m: Manifest)
    requires WellFormed(a)
    ensures forall k :: k in DiffOf(m, a).blocking <==> exists h :: h in a.held && h.1 == k && h !in Applied(a, m).held
    ensures DiffOf(m, a).blocking == {} <==> Applied(a, m).held == a.held
  {
    var d, b := DiffOf(m, a), Applied(a, m);
    forall k ensures k in d.blocking <==> exists h :: h in a.held && h.1 == k && h !in b.held {
      if k in d.blocking {
        var h :| h in a.held && h.1 == k;
        assert h !in b.held;
      }
    }
    forall h | h in a.held ensures h in b.held <==> h.1 !in d.blocking {}
  }

  // ---- the diff is what an apply does ----

  const FIELDS: seq<string> :=
    ["name", "description", "client_type", "backchannel_logout_uri", "home_url", "post_logout_redirect_uris"]

  /** A field of the app row as the diff prints it. */
  function FieldOf(a: App, field: string): string {
    if field == "name" then a.name
    else if field == "description" then a.description
    else if field == "client_type" then a.clientType
    else if field == "backchannel_logout_uri" then OrEmpty(a.backchannel)
    else if field == "home_url" then OrEmpty(a.home)
    else Join(a.postLogout)
  }

  predicate Differs(a: App, b: App, field: string) { FieldOf(a, field) != FieldOf(b, field) }

  lemma InConcat<T>(a: seq<T>, b: seq<T>, x: T)
    ensures x in a + b <==> x in a || x in b
  {
  }

  /** Each field that an apply would change is listed, from what it is to what it will be, and no other. */
  lemma ChangesAreWhatApplyDoes(a: App, m: Manifest, c: Change)
    ensures c in DiffOf(m, a).changed
      <==> c.field in FIELDS && c.before == FieldOf(a, c.field) && c.after == FieldOf(Applied(a, m), c.field)
           && c.before != c.after
  {
    var first := Compare("name", a.name, m.name) + Compare("description", a.description, m.description);
    var second := Compare("client_type", a.clientType, m.clientType);
    var third := Compare("backchannel_logout_uri", OrEmpty(a.backchannel), OrEmpty(m.backchannel));
    var fourth := Compare("home_url", OrEmpty(a.home), OrEmpty(m.home));
    var fifth := Compare("post_logout_redirect_uris", Join(a.postLogout), Join(m.postLogout));
    InConcat(first + second + third + fourth, fifth, c);
    InConcat(first + second + third, fourth, c);
    InConcat(first + second, third, c);
    InConcat(first, second, c);
  }

  /** A role an apply leaves with another name or description than it had. */
  predicate Renamed(a: App, b: App, k: string) {
    k in a.roles && k in b.roles
    && (a.roles[k].display != b.roles[k].display || a.roles[k].description != b.roles[k].description)
  }

  lemma DeclaredAreApplied(a: App, m: Manifest, k: string)
    requires Parsed(m)
    ensures k in Applied(a, m).roles <==> Declares(m, k)
    ensures k in Applied(a, m).roles <==> exists r :: r in m.roles && r.key == k
  {
    RolesAreTheManifests(m, |m.roles|);
    if Declares(m, k) {
      var i :| 0 <= i < |m.roles| && m.roles[i].key == k;
      assert m.roles[i] in m.roles;
    }
    if r :| r in m.roles && r.key == k {
      var i :| 0 <= i < |m.roles| && m.roles[i] == r;
      assert m.roles[i].key == k;
    }
  }

  /** Added is what an apply adds, removed is what it takes, and changed is what it renames: URIs and roles alike. */
  lemma DiffIsWhatApplyDoes(a: App, m: Manifest, x: string)
    requires Parsed(m)
    ensures var d, b := DiffOf(m, a), Applied(a, m);
      && (x in d.urisAdded <==> x in b.uris && x !in a.uris)
      && (x in d.urisRemoved <==> x in a.uris && x !in b.uris)
      && (x in d.rolesAdded <==> x in b.roles && x !in a.roles)
      && (x in d.rolesRemoved <==> x in a.roles && x !in b.roles)
      && (x in d.rolesChanged <==> Renamed(a, b, x))
  {
    DeclaredAreApplied(a, m, x);
    RolesAreTheManifests(m, |m.roles|);
    var d, b := DiffOf(m, a), Applied(a, m);
    if x in b.roles {
      var i :| 0 <= i < |m.roles| && m.roles[i].key == x;
      assert b.roles[x] == RoleAt(m, i) && m.roles[i] in m.roles;
      forall r | r in m.roles && r.key == x ensures r == m.roles[i] {
        var j :| 0 <= j < |m.roles| && m.roles[j] == r;
      }
    }
  }

  // ---- reading the roles back ----

  /** How the roles of an app are read: every key once, highest sort order first. */
  ghost predicate ReadsAs(roles: map<string, Role>, keys: seq<string>) {
    && (forall k :: k in keys <==> k in roles)
    && (forall i, j :: 0 <= i < j < |keys| ==> keys[i] != keys[j])
    && (forall i, j :: 0 <= i < j < |keys| && keys[i] in roles && keys[j] in roles
          ==> roles[keys[i]].sortOrder >= roles[keys[j]].sortOrder)
  }

  function KeysOf(m: Manifest): seq<string> {
    seq(|m.roles|, i requires 0 <= i < |m.roles| => m.roles[i].key)
  }

  /** The position of each role on reading is its position in the manifest. */
  lemma RolesReadBackInOrder(a: App, m: Manifest, keys: seq<string>)
    requires Parsed(m) && ReadsAs(Applied(a, m).roles, keys)
    ensures keys == KeysOf(m)
  {
    var roles := Applied(a, m).roles;
    RolesAreTheManifests(m, |m.roles|);
    assert RolesAre(m, roles);
    SameKeys(m, roles, keys);
    RoleOrder.SameLength(keys, KeysOf(m));
    forall i | 0 <= i < |keys| ensures keys[i] == KeysOf(m)[i] {
      PlacedAt(m, roles, keys, i);
    }
  }

  lemma PlacedAt(m: Manifest, roles: map<string, Role>, keys: seq<string>, i: nat)
    requires Parsed(m) && RolesAre(m, roles) && ReadsAs(roles, keys) && i < |keys| == |m.roles|
    ensures keys[i] == m.roles[i].key
  {
    NoHigherThan(m, roles, keys, i);
    NoLowerThan(m, roles, keys, i);
    var j := PositionOf(m, roles, keys[i]);
  }

  /** The stored roles are the manifest's, numbered from the top. */
  ghost predicate RolesAre(m: Manifest, roles: map<string, Role>) {
    && (forall i :: 0 <= i < |m.roles| ==> m.roles[i].key in roles && roles[m.roles[i].key] == RoleAt(m, i))
    && (forall k :: k in roles ==> exists i :: 0 <= i < |m.roles| && m.roles[i].key == k)
  }

  lemma SameKeys(m: Manifest, roles: map<string, Role>, keys: seq<string>)
    requires RolesAre(m, roles) && ReadsAs(roles, keys)
    ensures forall k :: k in keys <==> k in KeysOf(m)
  {
    forall k | k in roles ensures k in KeysOf(m) {
      var i := PositionOf(m, roles, k);
      assert KeysOf(m)[i] == k;
    }
    forall k | k in KeysOf(m) ensures k in roles {
      var i :| 0 <= i < |m.roles| && KeysOf(m)[i] == k;
      assert m.roles[i].key == k;
    }
  }

  lemma PositionOf(m: Manifest, roles: map<string, Role>, k: string) returns (i: nat)
    requires RolesAre(m, roles) && k in roles
    ensures i < |m.roles| && m.roles[i].key == k && roles[k].sortOrder == |m.roles| - i
  {
    i :| 0 <= i < |m.roles| && m.roles[i].key == k;
  }

  lemma OrdersDiffer(m: Manifest, roles: map<string, Role>, keys: seq<string>, i: nat, j: nat)
    requires Parsed(m) && RolesAre(m, roles) && ReadsAs(roles, keys) && i < j < |keys|
    ensures roles[keys[i]].sortOrder > roles[keys[j]].sortOrder
  {
    var x := PositionOf(m, roles, keys[i]);
    var y := PositionOf(m, roles, keys[j]);
  }

  lemma {:induction false} NoHigherThan(m: Manifest, roles: map<string, Role>, keys: seq<string>, i: nat)
    requires Parsed(m) && RolesAre(m, roles) && ReadsAs(roles, keys) && i < |keys|
    ensures roles[keys[i]].sortOrder <= |m.roles| - i
  {
    if i == 0 {
      var x := PositionOf(m, roles, keys[i]);
    } else {
      NoHigherThan(m, roles, keys, i - 1);
      OrdersDiffer(m, roles, keys, i - 1, i);
    }
  }

  lemma {:induction false} NoLowerThan(m: Manifest, roles: map<string, Role>, keys: seq<string>, i: nat)
    requires Parsed(m) && RolesAre(m, roles) && ReadsAs(roles, keys) && i < |keys|
    ensures roles[keys[i]].sortOrder >= |keys| - i
    decreases |keys| - i
  {
    if i == |keys| - 1 {
      var x := PositionOf(m, roles, keys[i]);
    } else {
      NoLowerThan(m, roles, keys, i + 1);
      OrdersDiffer(m, roles, keys, i, i + 1);
    }
  }
}
