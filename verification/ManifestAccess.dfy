/** An app row and the access directory are two views of the same tables, and an update keeps them so. */
module ManifestAccess {
  import Access
  import Manifests

  function OrdersOf(roles: map<string, Manifests.Role>): map<string, int> {
    map k | k in roles :: roles[k].sortOrder
  }

  /** The directory shows the roles the row declares, and the direct grants it counts as holding them. */
  ghost predicate Shows(d: Access.Directory, client: string, a: Manifests.App) {
    && client in d.apps && d.apps[client].roles == OrdersOf(a.roles)
    && (forall u, k :: (u, k) in a.held <==> (u, client) in d.grants && k in d.grants[(u, client)])
  }

  function DeclaredBy(m: Manifests.Manifest): map<string, int> {
    OrdersOf(Manifests.RolesUpTo(m, |m.roles|))
  }

  lemma DeclaredKeys(m: Manifests.Manifest, k: string)
    requires Manifests.Parsed(m)
    ensures k in DeclaredBy(m) <==> Manifests.Declares(m, k)
  {
    Manifests.RolesAreTheManifests(m, |m.roles|);
  }

  /** The diff blocks exactly the updates that the access component refuses unconfirmed. */
  lemma BlockedIsTheDiffs(d: Access.Directory, client: string, a: Manifests.App, m: Manifests.Manifest)
    requires Manifests.Parsed(m) && Manifests.WellFormed(a) && Shows(d, client, a)
    ensures Access.Blocked(d, client, DeclaredBy(m)) <==> Manifests.DiffOf(m, a).blocking != {}
  {
    forall k ensures k in DeclaredBy(m) <==> Manifests.Declares(m, k) { DeclaredKeys(m, k); }
    var blocking := Manifests.DiffOf(m, a).blocking;
    if p :| p in d.grants && p.1 == client && d.grants[p] * (d.apps[client].roles.Keys - DeclaredBy(m).Keys) != {} {
      var k :| k in d.grants[p] * (d.apps[client].roles.Keys - DeclaredBy(m).Keys);
      assert (p.0, k) in a.held;
      assert k in blocking;
    }
    if k :| k in blocking {
      var h :| h in a.held && h.1 == k;
      var p := (h.0, client);
      assert (h.0, k) in a.held;
      assert k in d.grants[p] * (d.apps[client].roles.Keys - DeclaredBy(m).Keys);
    }
  }

  /** Updating the row and updating the directory keep showing the same thing. */
  lemma UpdatesAgree(d: Access.Directory, client: string, a: Manifests.App, m: Manifests.Manifest, confirm: bool)
    requires Manifests.Parsed(m) && Manifests.WellFormed(a) && Shows(d, client, a)
    ensures Shows(Access.Directed(d, Access.Update(client, DeclaredBy(m), confirm)), client,
      if confirm || Manifests.DiffOf(m, a).blocking == {} then Manifests.Applied(a, m) else a)
  {
    BlockedIsTheDiffs(d, client, a, m);
    forall k ensures k in DeclaredBy(m) <==> Manifests.Declares(m, k) { DeclaredKeys(m, k); }
  }
}
