/** The signing-key table as an object: each method is proved against the call it implements. */
module KeyStores {
  import opened Common
  import opened Keys = SigningKeys

  class KeyStore {
    var rows: Table
    var audit: seq<AuditEvent>

    /** The table is well formed, and the audit trail alone tells every key's status. */
    ghost predicate Valid() reads this { Wf(rows) && Replay(audit) == Statuses(rows) }

    constructor ()
      ensures Valid() && rows == map[] && audit == []
    {
      rows, audit := map[], [];
    }

    method FindFirst(alg: Alg, status: Status) returns (r: Option<string>)
      requires AtMostOne(rows, alg, status)
      ensures r == Keys.FindFirst(rows, alg, status)
    {
      var left := rows.Keys;
      while left != {}
        invariant left <= rows.Keys
        invariant forall k :: k in rows.Keys - left ==> !Matches(rows, k, alg, status)
      {
        var k :| k in left;
        if rows[k].alg == alg && rows[k].status == status {
          assert Matches(rows, k, alg, status);
          return Some(k);
        }
        left := left - {k};
      }
      r := None;
    }

    /** One row written and one event logged that says so. */
    method Write(kid: string, row: KeyRow, event: AuditEvent)
      requires Replay(audit) == Statuses(rows)
      requires ReplayOne(Statuses(rows), event) == Statuses(rows)[kid := row.status]
      modifies this
      ensures rows == old(rows)[kid := row] && audit == old(audit) + [event]
      ensures Replay(audit) == Statuses(rows)
    {
      ReplayAppend(audit, event);
      assert Statuses(rows[kid := row]) == Statuses(rows)[kid := row.status];
      rows := rows[kid := row];
      audit := audit + [event];
    }

    method GenerateNext(alg: Alg, kid: string, now: int) returns (r: Result<KeyRow, KeyError>)
      requires Valid() && kid !in rows
      modifies this
      ensures Valid() && Forward(old(rows), rows)
      ensures r == Failure(AlreadyPending) <==> exists k :: Matches(old(rows), k, alg, Next)
      ensures match Keys.GenerateNext(old(rows), alg, kid, now)
        case Refused(e) => r == Failure(e) && rows == old(rows) && audit == old(audit)
        case Done(after) => r == Success(after[kid]) && rows == after && audit == old(audit) + [KeyGenerated(kid, Next)]
    {
      var pending := FindFirst(alg, Next);
      if pending.Some? { return Failure(AlreadyPending); }
      GenerateKeeps(rows, alg, kid, now);
      var created := KeyRow(alg, Next, now, None);
      Write(kid, created, KeyGenerated(kid, Next));
      r := Success(created);
    }

    /** The kid promoted, and the kid it pushed into retiring, if any. */
    method PromoteNext(alg: Alg, force: bool, now: int) returns (r: Result<(string, Option<string>), KeyError>)
      requires Valid()
      modifies this
      ensures Valid() && Forward(old(rows), rows)
      ensures match Keys.PromoteNext(old(rows), alg, force, now)
        case Refused(e) => r == Failure(e) && rows == old(rows) && audit == old(audit)
        case Done(after) =>
          && r == Success((Keys.FindFirst(old(rows), alg, Next).value, Keys.FindFirst(old(rows), alg, Current)))
          && rows == after && audit == old(audit) + [KeyPromoted(r.value.0, r.value.1, force)]
    {
      var next := FindFirst(alg, Next);
      if next.None? { return Failure(NoNextKey); }
      var readyAt := rows[next.value].createdAt + MINIMUM_OVERLAP_MS;
      if !force && readyAt > now { return Failure(TooSoon); }
      PromoteKeeps(rows, alg, force, now);
      PromoteStatuses(rows, alg, force, now);
      var current := FindFirst(alg, Current);
      if current.Some? {
        var k := current.value;
        rows := rows[k := rows[k].(status := Retiring, retireAfter := Some(now + MINIMUM_OVERLAP_MS))];
      }
      rows := rows[next.value := rows[next.value].(status := Current)];
      ReplayAppend(audit, KeyPromoted(next.value, current, force));
      audit := audit + [KeyPromoted(next.value, current, force)];
      r := Success((next.value, current));
    }

    /** The kids retired, in the order their updates and audit events were written. */
    method Retire(kid: Option<string>, force: bool, now: int) returns (r: Result<seq<string>, KeyError>)
      requires Valid()
      modifies this
      ensures Valid() && Forward(old(rows), rows)
      ensures match Keys.Retire(old(rows), kid, force, now)
        case Refused(e) => r == Failure(e) && rows == old(rows) && audit == old(audit)
        case Done(after) =>
          && r.Success? && (set k | k in r.value) == Due(old(rows), kid, force, now)
          && rows == after && audit == old(audit) + Retirements(r.value, force)
    {
      if Candidates(rows, kid) == {} { return Failure(NothingToRetire); }
      var due := Due(rows, kid, force, now);
      if due == {} { return Failure(TooSoon); }
      RetireKeeps(rows, kid, force, now);
      var order := RetireEach(due, force);
      r := Success(order);
    }

    static lemma RetireOne(rows: Table, done: set<string>, k: string, order: seq<string>, force: bool)
      requires k in rows && k !in done
      ensures RetireAll(rows, done)[k := rows[k].(status := Retired)] == RetireAll(rows, done + {k})
      ensures Retirements(order + [k], force) == Retirements(order, force) + [KeyRetired(k, force)]
    {
    }

    static function Retirements(order: seq<string>, force: bool): seq<AuditEvent> {
      seq(|order|, i requires 0 <= i < |order| => KeyRetired(order[i], force))
    }

    method RetireEach(due: set<string>, force: bool) returns (order: seq<string>)
      requires Replay(audit) == Statuses(rows) && due <= rows.Keys
      modifies this
      ensures Replay(audit) == Statuses(rows) && rows == RetireAll(old(rows), due)
      ensures (set k | k in order) == due && audit == old(audit) + Retirements(order, force)
    {
      var done := {};
      order := [];
      while due - done != {}
        invariant done <= due && forall k :: k in order <==> k in done
        invariant rows == RetireAll(old(rows), done)
        invariant Replay(audit) == Statuses(rows)
        invariant audit == old(audit) + Retirements(order, force)
        decreases due - done
      {
        var k :| k in due - done;
        RetireOne(old(rows), done, k, order, force);
        Write(k, rows[k].(status := Retired), KeyRetired(k, force));
        done, order := done + {k}, order + [k];
      }
      assert done == due;
    }

    /** Boot: mint what is missing, then hand over the published keys, current first. */
    method LoadSigningKeys(minted: Alg -> string, now: int) returns (loaded: seq<string>)
      requires Valid() && FreshKids(rows, minted)
      modifies this
      ensures Valid() && Keeps(old(rows), rows) && HasCurrent(rows)
      ensures rows == Bootstrapped(old(rows), minted, now)
      ensures IsLoaded(rows, loaded)
      ensures forall a: Alg :: Signer(rows, loaded, a) == Keys.FindFirst(rows, a, Current)
    {
      BootstrapKeeps(rows, minted, now);
      for i := 0 to |SIGNING_ALGS|
        invariant Valid()
        invariant rows == if i == 0 then old(rows) else if i == 1 then Ensured(old(rows), ES256, minted(ES256), now)
                          else Bootstrapped(old(rows), minted, now)
        invariant i < 2 ==> minted(SIGNING_ALGS[i]) !in rows
      {
        EnsureCurrent(SIGNING_ALGS[i], minted(SIGNING_ALGS[i]), now);
      }
      loaded := DecryptPublishedKeys();
      forall a: Alg ensures Signer(rows, loaded, a) == Keys.FindFirst(rows, a, Current) {
        SignsWithCurrent(rows, loaded, a);
      }
    }

    /** One turn of the bootstrap loop. */
    method EnsureCurrent(alg: Alg, kid: string, now: int)
      requires Valid() && kid !in rows
      modifies this
      ensures Valid() && rows == Ensured(old(rows), alg, kid, now)
      ensures forall k :: k in rows && k !in old(rows) ==> k == kid
    {
      var existing := FindFirst(alg, Current);
      if existing.Some? { return; }
      EnsuredKeeps(rows, alg, kid, now);
      Write(kid, KeyRow(alg, Current, now, None), KeyGenerated(kid, Current));
    }

    /** Every published key, current first; generates nothing. */
    method DecryptPublishedKeys() returns (loaded: seq<string>)
      ensures IsLoaded(rows, loaded)
    {
      var current := AllOf(Current);
      var next := AllOf(Next);
      var retiring := AllOf(Retiring);
      loaded := current + next + retiring;
    }

    method AllOf(status: Status) returns (r: seq<string>)
      ensures forall k :: k in r <==> k in rows && rows[k].status == status
      ensures forall i, j :: 0 <= i < j < |r| ==> r[i] != r[j]
    {
      var left := rows.Keys;
      r := [];
      while left != {}
        invariant left <= rows.Keys
        invariant forall k :: k in r <==> k in rows.Keys - left && rows[k].status == status
        invariant forall i, j :: 0 <= i < j < |r| ==> r[i] != r[j]
      {
        var k :| k in left;
        if rows[k].status == status { r := r + [k]; }
        left := left - {k};
      }
    }
  }
}
