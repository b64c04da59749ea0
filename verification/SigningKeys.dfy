/**
 The signing-key table and the calls that move a key through `next`, `current`, `retiring` and
 `retired`. The table is a map from kid, its primary key; a query without an ordering may answer
 in any order, so what depends on order is stated for every order. Each call is one step: its
 reads and its transaction are not interleaved with another call's.
 */
module SigningKeys {
  import opened Common

  datatype Alg = ES256 | RS256

  datatype Status = Next | Current | Retiring | Retired

  datatype KeyRow = KeyRow(alg: Alg, status: Status, createdAt: int, retireAfter: Option<int>)

  type Table = map<string, KeyRow>

  datatype KeyError = NoNextKey | TooSoon | AlreadyPending | NothingToRetire

  /** What a call does: refuse and leave everything alone, or replace the table. */
  datatype Effect = Refused(error: KeyError) | Done(rows: Table)

  const SIGNING_ALGS: seq<Alg> := [ES256, RS256]

  /** An hour of consumer cache plus an hour of token life, in milliseconds. */
  const MINIMUM_OVERLAP_MS: nat := 2 * 60 * 60 * 1000

  // ---------------------------------------------------------------- the calls

  ghost predicate Matches(rows: Table, kid: string, alg: Alg, status: Status) {
    kid in rows && rows[kid].alg == alg && rows[kid].status == status
  }

  /** The kid a `findFirst` on algorithm and status answers with. */
  ghost function FindFirst(rows: Table, alg: Alg, status: Status): (r: Option<string>)
    ensures r.Some? ==> Matches(rows, r.value, alg, status)
    ensures r.None? ==> forall kid :: !Matches(rows, kid, alg, status)
  {
    if kid :| Matches(rows, kid, alg, status) then Some(kid) else None
  }

  ghost function GenerateNext(rows: Table, alg: Alg, kid: string, now: int): Effect {
    if FindFirst(rows, alg, Next).Some? then Refused(AlreadyPending)
    else Done(rows[kid := KeyRow(alg, Next, now, None)])
  }

  ghost function PromoteNext(rows: Table, alg: Alg, force: bool, now: int): Effect {
    match FindFirst(rows, alg, Next)
    case None => Refused(NoNextKey)
    case Some(next) =>
      if !force && rows[next].createdAt + MINIMUM_OVERLAP_MS > now then Refused(TooSoon)
      else
        var current := FindFirst(rows, alg, Current);
        var demoted := if current.None? then rows
          else rows[current.value :=
            rows[current.value].(status := Retiring, retireAfter := Some(now + MINIMUM_OVERLAP_MS))];
        Done(demoted[next := demoted[next].(status := Current)])
  }

  /** The retiring keys a call may act on, and those of them whose wait has passed. */
  function Candidates(rows: Table, kid: Option<string>): set<string> {
    set k | k in rows && rows[k].status == Retiring && (kid.Some? ==> k == kid.value)
  }

  function Due(rows: Table, kid: Option<string>, force: bool, now: int): set<string> {
    set k | k in Candidates(rows, kid) && (force || (rows[k].retireAfter.Some? && rows[k].retireAfter.value <= now))
  }

  function RetireAll(rows: Table, due: set<string>): Table {
    map k | k in rows :: if k in due then rows[k].(status := Retired) else rows[k]
  }

  function Retire(rows: Table, kid: Option<string>, force: bool, now: int): Effect {
    if Candidates(rows, kid) == {} then Refused(NothingToRetire)
    else if Due(rows, kid, force, now) == {} then Refused(TooSoon)
    else Done(RetireAll(rows, Due(rows, kid, force, now)))
  }

  /** One algorithm's turn of the bootstrap: a `current` key where there is none. */
  ghost function Ensured(rows: Table, alg: Alg, kid: string, now: int): Table {
    if FindFirst(rows, alg, Current).Some? then rows else rows[kid := KeyRow(alg, Current, now, None)]
  }

  ghost function Bootstrapped(rows: Table, minted: Alg -> string, now: int): Table {
    Ensured(Ensured(rows, ES256, minted(ES256), now), RS256, minted(RS256), now)
  }

  function Rank(status: Status): nat {
    match status case Current => 0 case Next => 1 case Retiring => 2 case Retired => 3
  }

  /** The published keys of this table, each once, by status rank: current, then next, then retiring. */
  ghost predicate IsLoaded(rows: Table, loaded: seq<string>) {
    && (forall k :: k in loaded <==> k in rows && rows[k].status != Retired)
    && (forall i, j :: 0 <= i < j < |loaded| ==>
          loaded[i] != loaded[j] && Rank(rows[loaded[i]].status) <= Rank(rows[loaded[j]].status))
  }

  /** The kids the key-set endpoint answers with. */
  function Published(rows: Table): set<string> {
    set k | k in rows && rows[k].status in {Current, Next, Retiring}
  }

  /** The key a process signs this algorithm with: the first one it loaded. */
  function Signer(rows: Table, loaded: seq<string>, alg: Alg): (r: Option<string>)
    requires forall k :: k in loaded ==> k in rows
    ensures r.Some? ==> r.value in loaded && rows[r.value].alg == alg
    ensures r.None? ==> forall k :: k in loaded ==> rows[k].alg != alg
  {
    if loaded == [] then None
    else if rows[loaded[0]].alg == alg then Some(loaded[0])
    else
      assert forall k :: k in loaded <==> k == loaded[0] || k in loaded[1..];
      Signer(rows, loaded[1..], alg)
  }

  /** Some current key is not among those the process loaded. */
  predicate RestartRequired(rows: Table, loaded: seq<string>) {
    exists k :: k in rows && rows[k].status == Current && k !in loaded
  }

  datatype Summary = Summary(ready: bool, readyAt: Option<int>)

  function Summarise(row: KeyRow, now: int): Summary {
    var readyAt := match row.status
      case Next => Some(row.createdAt + MINIMUM_OVERLAP_MS)
      case Retiring => row.retireAfter
      case _ => None;
    Summary(readyAt.Some? && readyAt.value <= now, readyAt)
  }

  // ---------------------------------------------------------------- what every call keeps

  ghost predicate AtMostOne(rows: Table, alg: Alg, status: Status) {
    forall j, k :: Matches(rows, j, alg, status) && Matches(rows, k, alg, status) ==> j == k
  }

  /** At most one next and at most one current key per algorithm; a retiring key knows its wait. */
  ghost predicate Wf(rows: Table) {
    && (forall a: Alg :: AtMostOne(rows, a, Next) && AtMostOne(rows, a, Current))
    && (forall k :: k in rows && rows[k].status == Retiring ==> rows[k].retireAfter.Some?)
  }

  ghost predicate HasCurrent(rows: Table) {
    forall a: Alg :: FindFirst(rows, a, Current).Some?
  }

  function Progress(status: Status): nat {
    match status case Next => 0 case Current => 1 case Retiring => 2 case Retired => 3
  }

  /** No row is lost or changes identity, and no status moves backwards. */
  ghost predicate Forward(before: Table, after: Table) {
    forall k :: k in before ==>
      && k in after && after[k].alg == before[k].alg && after[k].createdAt == before[k].createdAt
      && Progress(before[k].status) <= Progress(after[k].status)
  }

  ghost predicate Keeps(before: Table, after: Table) {
    Wf(after) && Forward(before, after) && (HasCurrent(before) ==> HasCurrent(after))
  }

  /** If every match afterwards was a match before, there is still at most one. */
  lemma StillAtMostOne(before: Table, was: Status, after: Table, now: Status, alg: Alg)
    requires AtMostOne(before, alg, was)
    requires forall k :: Matches(after, k, alg, now) ==> Matches(before, k, alg, was)
    ensures AtMostOne(after, alg, now)
  {
  }

  lemma GenerateKeeps(rows: Table, alg: Alg, kid: string, now: int)
    requires Wf(rows) && kid !in rows
    ensures var e := GenerateNext(rows, alg, kid, now); e.Done? ==> Keeps(rows, e.rows)
  {
    var e := GenerateNext(rows, alg, kid, now);
    if e.Done? {
      forall a: Alg ensures AtMostOne(e.rows, a, Next) && AtMostOne(e.rows, a, Current) {
        assert AtMostOne(rows, a, Next) && AtMostOne(rows, a, Current);
        StillAtMostOne(rows, Current, e.rows, Current, a);
        if a != alg { StillAtMostOne(rows, Next, e.rows, Next, a); }
        assert forall k :: k != kid && Matches(e.rows, k, alg, Next) ==> Matches(rows, k, alg, Next);
      }
      forall a: Alg | FindFirst(rows, a, Current).Some? ensures FindFirst(e.rows, a, Current).Some? {
        assert Matches(e.rows, FindFirst(rows, a, Current).value, a, Current);
      }
    }
  }

  /** A new key is refused exactly while one of its own algorithm waits; otherwise it is the one row added. */
  lemma GenerateExactly(rows: Table, alg: Alg, kid: string, now: int)
    ensures var e := GenerateNext(rows, alg, kid, now);
      && (e.Done? <==> forall k :: k in rows && rows[k].alg == alg ==> rows[k].status != Next)
      && (e.Refused? ==> e.error == AlreadyPending)
      && (e.Done? ==> e.rows.Keys == rows.Keys + {kid} && e.rows[kid] == KeyRow(alg, Next, now, None))
      && (e.Done? ==> forall k :: k in rows && k != kid ==> e.rows[k] == rows[k])
  {
    assert forall k :: k in rows && rows[k].alg == alg && rows[k].status == Next ==> Matches(rows, k, alg, Next);
  }

  /** A promotion is refused exactly without a waiting key, or unforced before its overlap is over. */
  lemma PromoteExactly(rows: Table, alg: Alg, force: bool, now: int)
    requires Wf(rows)
    ensures PromoteNext(rows, alg, force, now).Done?
      <==> exists k :: Matches(rows, k, alg, Next) && (force || rows[k].createdAt + MINIMUM_OVERLAP_MS <= now)
    ensures PromoteNext(rows, alg, force, now) == Refused(NoNextKey) <==> forall k :: !Matches(rows, k, alg, Next)
  {
    assert AtMostOne(rows, alg, Next);
  }

  /** What promotion makes of one row: next moves up, current moves down, nothing else moves. */
  function PromotedRow(row: KeyRow, alg: Alg, now: int): KeyRow {
    if row.alg != alg then row
    else match row.status
      case Next => row.(status := Current)
      case Current => row.(status := Retiring, retireAfter := Some(now + MINIMUM_OVERLAP_MS))
      case _ => row
  }

  lemma PromoteMoves(rows: Table, alg: Alg, force: bool, now: int)
    requires Wf(rows) && PromoteNext(rows, alg, force, now).Done?
    ensures PromoteNext(rows, alg, force, now).rows == map k | k in rows :: PromotedRow(rows[k], alg, now)
  {
    var after := PromoteNext(rows, alg, force, now).rows;
    var next, current := FindFirst(rows, alg, Next), FindFirst(rows, alg, Current);
    assert AtMostOne(rows, alg, Next) && AtMostOne(rows, alg, Current);
    forall k | k in rows ensures k in after && after[k] == PromotedRow(rows[k], alg, now) {
      if rows[k].alg == alg && rows[k].status == Next {
        assert Matches(rows, k, alg, Next) && Matches(rows, next.value, alg, Next);
      }
      if rows[k].alg == alg && rows[k].status == Current {
        assert Matches(rows, k, alg, Current) && Matches(rows, current.value, alg, Current);
      }
    }
  }

  lemma PromoteKeeps(rows: Table, alg: Alg, force: bool, now: int)
    requires Wf(rows) && PromoteNext(rows, alg, force, now).Done?
    ensures Keeps(rows, PromoteNext(rows, alg, force, now).rows)
  {
    PromoteMoves(rows, alg, force, now);
    var after := PromoteNext(rows, alg, force, now).rows;
    forall a: Alg ensures AtMostOne(after, a, Next) && AtMostOne(after, a, Current) {
      assert AtMostOne(rows, a, Next) && AtMostOne(rows, a, Current);
      StillAtMostOne(rows, Next, after, Next, a);
      StillAtMostOne(rows, if a == alg then Next else Current, after, Current, a);
    }
    if HasCurrent(rows) {
      forall a: Alg ensures FindFirst(after, a, Current).Some? {
        var k := FindFirst(rows, a, if a == alg then Next else Current).value;
        assert Matches(after, k, a, Current);
      }
    }
  }

  lemma RetireKeeps(rows: Table, kid: Option<string>, force: bool, now: int)
    requires Wf(rows) && Retire(rows, kid, force, now).Done?
    ensures Keeps(rows, Retire(rows, kid, force, now).rows)
  {
    var after := Retire(rows, kid, force, now).rows;
    forall a: Alg ensures AtMostOne(after, a, Next) && AtMostOne(after, a, Current) {
      assert AtMostOne(rows, a, Next) && AtMostOne(rows, a, Current);
      StillAtMostOne(rows, Next, after, Next, a);
      StillAtMostOne(rows, Current, after, Current, a);
    }
    if HasCurrent(rows) {
      forall a: Alg ensures FindFirst(after, a, Current).Some? {
        assert Matches(after, FindFirst(rows, a, Current).value, a, Current);
      }
    }
  }

  /** The retirement this call asks for covers this key, and its wait is over or does not matter. */
  ghost predicate Leaves(rows: Table, k: string, kid: Option<string>, force: bool, now: int) {
    && k in rows && rows[k].status == Retiring && kid in {None, Some(k)}
    && (force || (rows[k].retireAfter.Some? && rows[k].retireAfter.value <= now))
  }

  /** Key by key, which retirements are refused and why, and what one that is not does. */
  lemma RetireExactly(rows: Table, kid: Option<string>, force: bool, now: int)
    ensures var e := Retire(rows, kid, force, now);
      && (e.Done? <==> exists k :: Leaves(rows, k, kid, force, now))
      && (e == Refused(NothingToRetire) <==> forall k :: !Leaves(rows, k, kid, true, now))
      && (e.Done? ==> e.rows.Keys == rows.Keys)
      && (e.Done? ==> forall k :: k in rows ==>
            e.rows[k] == if Leaves(rows, k, kid, force, now) then rows[k].(status := Retired) else rows[k])
  {
    forall k ensures Leaves(rows, k, kid, true, now) <==> k in Candidates(rows, kid) {}
    forall k ensures Leaves(rows, k, kid, force, now) <==> k in Due(rows, kid, force, now) {}
  }

  /** Kids to mint: new to the table and different for each algorithm. */
  ghost predicate FreshKids(rows: Table, minted: Alg -> string) {
    minted(ES256) != minted(RS256) && forall a: Alg :: minted(a) !in rows
  }

  lemma EnsuredKeeps(rows: Table, alg: Alg, kid: string, now: int)
    requires Wf(rows) && kid !in rows
    ensures var after := Ensured(rows, alg, kid, now);
      && Keeps(rows, after) && FindFirst(after, alg, Current).Some?
      && (forall k :: k in rows ==> k in after && after[k] == rows[k])
      && (forall k :: k in after && k !in rows ==> k == kid && after[k] == KeyRow(alg, Current, now, None))
  {
    var after := Ensured(rows, alg, kid, now);
    if after != rows {
      assert Matches(after, kid, alg, Current);
      forall a: Alg ensures AtMostOne(after, a, Next) && AtMostOne(after, a, Current) {
        assert AtMostOne(rows, a, Next) && AtMostOne(rows, a, Current);
        StillAtMostOne(rows, Next, after, Next, a);
        if a != alg { StillAtMostOne(rows, Current, after, Current, a); }
        assert forall k :: k != kid && Matches(after, k, alg, Current) ==> Matches(rows, k, alg, Current);
      }
      forall a: Alg | FindFirst(rows, a, Current).Some? ensures FindFirst(after, a, Current).Some? {
        assert Matches(after, FindFirst(rows, a, Current).value, a, Current);
      }
    }
  }

  /** After bootstrap every algorithm has exactly one current key; no existing row was touched. */
  lemma BootstrapKeeps(rows: Table, minted: Alg -> string, now: int)
    requires Wf(rows) && FreshKids(rows, minted)
    ensures var after := Bootstrapped(rows, minted, now);
      && Keeps(rows, after) && HasCurrent(after)
      && (forall k :: k in rows ==> after[k] == rows[k])
      && (forall k :: k in after && k !in rows ==> after[k] == KeyRow(after[k].alg, Current, now, None))
      && (HasCurrent(rows) ==> after == rows)
  {
    EnsuredKeeps(rows, ES256, minted(ES256), now);
    var one := Ensured(rows, ES256, minted(ES256), now);
    EnsuredKeeps(one, RS256, minted(RS256), now);
    var two := Ensured(one, RS256, minted(RS256), now);
    assert Matches(two, FindFirst(one, ES256, Current).value, ES256, Current);
    forall a: Alg ensures FindFirst(two, a, Current).Some? {
      assert a == ES256 || a == RS256;
    }
    assert forall k :: k in two && k !in rows ==> k in one || k !in one;
  }

  /** Bootstrapping twice is bootstrapping once, whatever the second run would have minted. */
  lemma BootstrapIsIdempotent(rows: Table, minted: Alg -> string, now: int, again: Alg -> string, later: int)
    requires Wf(rows) && FreshKids(rows, minted)
    requires FreshKids(Bootstrapped(rows, minted, now), again)
    ensures var after := Bootstrapped(rows, minted, now); Bootstrapped(after, again, later) == after
  {
    BootstrapKeeps(rows, minted, now);
    BootstrapKeeps(Bootstrapped(rows, minted, now), again, later);
  }

  /** The first loaded key of an algorithm comes before every other loaded key of it. */
  lemma {:induction false} SignerIsFirst(rows: Table, loaded: seq<string>, alg: Alg, i: nat)
    requires forall k :: k in loaded ==> k in rows
    requires i < |loaded| && rows[loaded[i]].alg == alg
    ensures exists j :: 0 <= j <= i && Signer(rows, loaded, alg) == Some(loaded[j])
  {
    if rows[loaded[0]].alg != alg {
      assert forall k :: k in loaded[1..] ==> k in loaded;
      SignerIsFirst(rows, loaded[1..], alg, i - 1);
      var j :| 0 <= j <= i - 1 && Signer(rows, loaded[1..], alg) == Some(loaded[1..][j]);
      assert loaded[1..][j] == loaded[j + 1];
    } else {
      assert Signer(rows, loaded, alg) == Some(loaded[0]);
    }
  }

  /** Whatever order the rows came back in, the process signs each algorithm with its current key. */
  lemma SignsWithCurrent(rows: Table, loaded: seq<string>, alg: Alg)
    requires Wf(rows) && HasCurrent(rows) && IsLoaded(rows, loaded)
    ensures Signer(rows, loaded, alg) == FindFirst(rows, alg, Current)
  {
    var current := FindFirst(rows, alg, Current).value;
    assert current in loaded;
    var i :| 0 <= i < |loaded| && loaded[i] == current;
    SignerIsFirst(rows, loaded, alg, i);
    var j :| 0 <= j <= i && Signer(rows, loaded, alg) == Some(loaded[j]);
    assert loaded[j] in loaded && Matches(rows, loaded[j], alg, Current);
    assert AtMostOne(rows, alg, Current);
  }

  /** Every published key is handed over, in three parts: the current ones, those waiting, those retiring. */
  lemma LoadedInThreeParts(rows: Table, loaded: seq<string>) returns (a: nat, b: nat)
    requires IsLoaded(rows, loaded)
    ensures a <= b <= |loaded| && (set k | k in loaded) == Published(rows)
    ensures forall i :: 0 <= i < |loaded| ==> loaded[i] in rows
    ensures forall i :: 0 <= i < |loaded| ==>
        rows[loaded[i]].status == if i < a then Current else if i < b then Next else Retiring
  {
    a := 0;
    while a < |loaded| && rows[loaded[a]].status == Current
      invariant a <= |loaded|
      invariant forall i :: 0 <= i < a ==> rows[loaded[i]].status == Current
    {
      a := a + 1;
    }
    b := a;
    while b < |loaded| && rows[loaded[b]].status == Next
      invariant a <= b <= |loaded|
      invariant forall i :: a <= i < b ==> rows[loaded[i]].status == Next
    {
      b := b + 1;
    }
    assert forall i :: 0 <= i < |loaded| ==> loaded[i] in loaded && rows[loaded[i]].status != Retired;
    forall i | b <= i < |loaded| ensures rows[loaded[i]].status == Retiring {
      assert Rank(rows[loaded[b]].status) <= Rank(rows[loaded[i]].status);
    }
  }

  /** The console's `ready` flag says exactly whether the unforced step would be allowed. */
  lemma ReadyMeansAllowed(rows: Table, kid: string, now: int)
    requires Wf(rows) && kid in rows
    ensures var row := rows[kid]; var ready := Summarise(row, now).ready;
      && (row.status == Next ==> (ready <==> PromoteNext(rows, row.alg, false, now).Done?))
      && (row.status == Retiring ==> (ready <==> Retire(rows, Some(kid), false, now).Done?))
      && (row.status in {Current, Retired} ==> !ready)
  {
    var row := rows[kid];
    if row.status == Next {
      assert Matches(rows, kid, row.alg, Next) && AtMostOne(rows, row.alg, Next);
    } else if row.status == Retiring {
      assert kid in Candidates(rows, Some(kid));
      assert Summarise(row, now).ready <==> kid in Due(rows, Some(kid), false, now);
      assert forall k :: k in Due(rows, Some(kid), false, now) ==> k == kid;
    }
  }

  /** The time the console shows is the first at which that step will be allowed, if it shows one. */
  lemma ReadyAtIsTheMoment(rows: Table, kid: string, now: int, later: int)
    requires Wf(rows) && kid in rows
    ensures var row := rows[kid]; var readyAt := Summarise(row, now).readyAt;
      && (readyAt.Some? <==> row.status in {Next, Retiring})
      && (row.status == Next ==> (readyAt.value <= later <==> PromoteNext(rows, row.alg, false, later).Done?))
      && (row.status == Retiring ==> (readyAt.value <= later <==> Retire(rows, Some(kid), false, later).Done?))
  {
    ReadyMeansAllowed(rows, kid, later);
  }

  // ---------------------------------------------------------------- the audit trail explains the table

  datatype AuditEvent =
    | KeyGenerated(kid: string, status: Status)
    | KeyPromoted(kid: string, retiring: Option<string>, forced: bool)
    | KeyRetired(kid: string, forced: bool)

  function ReplayOne(before: map<string, Status>, event: AuditEvent): map<string, Status> {
    match event
    case KeyGenerated(kid, status) => before[kid := status]
    case KeyPromoted(kid, retiring, _) =>
      (if retiring.Some? then before[retiring.value := Retiring] else before)[kid := Current]
    case KeyRetired(kid, _) => before[kid := Retired]
  }

  /** Reads every key's status back from the audit events alone. */
  function Replay(events: seq<AuditEvent>): map<string, Status> {
    if events == [] then map[] else ReplayOne(Replay(events[..|events| - 1]), events[|events| - 1])
  }

  lemma ReplayAppend(events: seq<AuditEvent>, e: AuditEvent)
    ensures Replay(events + [e]) == ReplayOne(Replay(events), e)
  {
    assert (events + [e])[..|events|] == events;
  }

  function Statuses(rows: Table): map<string, Status> {
    map k | k in rows :: rows[k].status
  }

  /** One promotion event says what both updates of a promotion did. */
  lemma PromoteStatuses(rows: Table, alg: Alg, force: bool, now: int)
    requires PromoteNext(rows, alg, force, now).Done?
    ensures var event := KeyPromoted(FindFirst(rows, alg, Next).value, FindFirst(rows, alg, Current), force);
      Statuses(PromoteNext(rows, alg, force, now).rows) == ReplayOne(Statuses(rows), event)
  {
  }
}
