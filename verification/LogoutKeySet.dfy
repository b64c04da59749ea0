/**
 * The Python receiver's cache of the provider's keys: refetched when a token cannot be verified,
 * but not again within the cooldown.
 *
 * A fetch takes time: the clock is read before it (`gate`) and after it (`done`). A `reply` of
 * `None` is a fetch that raised.
 */
module LogoutKeySets {
  import opened Common

  /** A downloaded key set; `serial` tells two downloads of the same keys apart. */
  datatype Fetched = Fetched(serial: nat, kids: set<string>)

  datatype Moment = Moment(gate: int, done: int, reply: Option<set<string>>)

  datatype Attempt = Attempt(gate: int, done: int, ok: bool)

  /** `sound`: the signature is genuine and the algorithm and expiry acceptable. */
  datatype Signed = Signed(kid: Option<string>, signer: string, sound: bool)

  datatype Verdict = Decoded | Rejected | FetchFailed

  datatype Cache = Cache(keys: Option<Fetched>, fetchedAt: int, attempts: seq<Attempt>)

  const EMPTY := Cache(None, 0, [])

  predicate Decodes(keys: Fetched, t: Signed) {
    t.sound && t.signer in keys.kids && (t.kid.None? || t.kid.value == t.signer)
  }

  function Refreshed(c: Cache, m: Moment): Cache {
    match m.reply
    case None => c.(attempts := c.attempts + [Attempt(m.gate, m.done, false)])
    case Some(kids) => Cache(Some(Fetched(|c.attempts|, kids)), m.done, c.attempts + [Attempt(m.gate, m.done, true)])
  }

  predicate Cooling(c: Cache, min: nat, now: int) {
    c.keys.Some? && now - c.fetchedAt < min
  }

  function RefreshedIfStale(c: Cache, min: nat, m: Moment): Cache {
    if Cooling(c, min, m.gate) then c else Refreshed(c, m)
  }

  /** The fetch that the call made, if it made one, succeeded. */
  predicate Went(before: Cache, after: Cache) {
    |after.attempts| > |before.attempts| ==> after.attempts[|after.attempts| - 1].ok
  }

  function First(c: Cache, m: Moment): Cache {
    if c.keys.None? then Refreshed(c, m) else c
  }

  /** `keys(kid)`: the cached keys, refetched once when the token names one they do not hold. */
  function KeysFor(c: Cache, min: nat, kid: Option<string>, m0: Moment, m1: Moment): Cache {
    var c0 := First(c, m0);
    if c0.keys.None? || kid.None? || kid.value in c0.keys.value.kids then c0 else RefreshedIfStale(c0, min, m1)
  }

  predicate KeysRaise(c: Cache, min: nat, kid: Option<string>, m0: Moment, m1: Moment) {
    var c0 := First(c, m0);
    c0.keys.None? || (kid.Some? && kid.value !in c0.keys.value.kids && !Went(c0, RefreshedIfStale(c0, min, m1)))
  }

  /** The signature half of `verify_logout_token`: one decode, and one more against newly fetched keys. */
  function Checked(c: Cache, min: nat, t: Signed, m0: Moment, m1: Moment, m2: Moment): (r: (Cache, Verdict))
  {
    var c1 := KeysFor(c, min, t.kid, m0, m1);
    if KeysRaise(c, min, t.kid, m0, m1) || c1.keys.None? then (c1, FetchFailed)
    else if Decodes(c1.keys.value, t) then (c1, Decoded)
    else
      var c2 := RefreshedIfStale(c1, min, m2);
      if !Went(c1, c2) || c2.keys.None? then (c2, FetchFailed)
      else if c2.keys == c1.keys then (c2, Rejected)
      else if Decodes(c2.keys.value, t) then (c2, Decoded)
      else (c2, Rejected)
  }

  // ---- the cooldown, over every run ----

  predicate InOrder(now: int, m0: Moment, m1: Moment, m2: Moment) {
    now <= m0.gate <= m0.done <= m1.gate <= m1.done <= m2.gate <= m2.done
  }

  ghost predicate Limited(attempts: seq<Attempt>, min: nat) {
    && (forall i, j :: 0 <= i < j < |attempts| && attempts[i].ok ==> attempts[j].gate >= attempts[i].done + min)
    && (forall i :: 0 <= i < |attempts| ==> attempts[i].gate <= attempts[i].done)
  }

  /** Nothing was asked within `min` of a completed fetch, and the cache shows the newest one. */
  ghost predicate Valid(c: Cache, min: nat, now: int) {
    && Limited(c.attempts, min)
    && (forall i :: 0 <= i < |c.attempts| ==> c.attempts[i].done <= now)
    && (forall i :: 0 <= i < |c.attempts| && c.attempts[i].ok ==> c.keys.Some? && c.attempts[i].done <= c.fetchedAt)
    && (c.keys.Some? ==> c.keys.value.serial < |c.attempts|)
  }

  lemma RefreshKeeps(c: Cache, min: nat, now: int, m: Moment)
    requires Valid(c, min, now) && now <= m.gate <= m.done && !Cooling(c, min, m.gate)
    ensures Valid(Refreshed(c, m), min, m.done)
  {
  }

  lemma WaitKeeps(c: Cache, min: nat, now: int, later: int)
    requires Valid(c, min, now) && now <= later
    ensures Valid(c, min, later)
  {
  }

  lemma RefreshIfStaleKeeps(c: Cache, min: nat, now: int, m: Moment)
    requires Valid(c, min, now) && now <= m.gate <= m.done
    ensures Valid(RefreshedIfStale(c, min, m), min, m.done)
  {
    if Cooling(c, min, m.gate) {
      WaitKeeps(c, min, now, m.done);
    } else {
      RefreshKeeps(c, min, now, m);
    }
  }

  lemma KeysKeeps(c: Cache, min: nat, now: int, kid: Option<string>, m0: Moment, m1: Moment)
    requires Valid(c, min, now) && now <= m0.gate <= m0.done <= m1.gate <= m1.done
    ensures Valid(KeysFor(c, min, kid, m0, m1), min, m1.done)
  {
    var c0 := First(c, m0);
    if c.keys.None? {
      RefreshKeeps(c, min, now, m0);
    } else {
      WaitKeeps(c, min, now, m0.done);
    }
    RefreshIfStaleKeeps(c0, min, m0.done, m1);
    WaitKeeps(c0, min, m0.done, m1.done);
  }

  lemma CheckedKeeps(c: Cache, min: nat, now: int, t: Signed, m0: Moment, m1: Moment, m2: Moment)
    requires Valid(c, min, now) && InOrder(now, m0, m1, m2)
    ensures Valid(Checked(c, min, t, m0, m1, m2).0, min, m2.done)
  {
    KeysKeeps(c, min, now, t.kid, m0, m1);
    var c1 := KeysFor(c, min, t.kid, m0, m1);
    WaitKeeps(c1, min, m1.done, m2.done);
    RefreshIfStaleKeeps(c1, min, m1.done, m2);
  }

  datatype Check = Check(token: Signed, m0: Moment, m1: Moment, m2: Moment)

  function RunChecks(min: nat, checks: seq<Check>): Cache {
    if checks == [] then EMPTY
    else
      var k := checks[|checks| - 1];
      Checked(RunChecks(min, checks[..|checks| - 1]), min, k.token, k.m0, k.m1, k.m2).0
  }

  /** A single clock across the whole run. */
  ghost predicate OneClock(checks: seq<Check>) {
    && (forall i :: 0 <= i < |checks| ==> InOrder(checks[i].m0.gate, checks[i].m0, checks[i].m1, checks[i].m2))
    && (forall i :: 0 < i < |checks| ==> checks[i - 1].m2.done <= checks[i].m0.gate)
  }

  function EndOf(checks: seq<Check>): int { if checks == [] then 0 else checks[|checks| - 1].m2.done }

  lemma {:induction false} ReachableIsValid(min: nat, checks: seq<Check>)
    requires OneClock(checks)
    ensures Valid(RunChecks(min, checks), min, EndOf(checks))
  {
    if checks == [] {
    } else {
      var init, k := checks[..|checks| - 1], checks[|checks| - 1];
      ReachableIsValid(min, init);
      if init == [] {
        assert Valid(EMPTY, min, k.m0.gate);
        CheckedKeeps(EMPTY, min, k.m0.gate, k.token, k.m0, k.m1, k.m2);
      } else {
        CheckedKeeps(RunChecks(min, init), min, EndOf(init), k.token, k.m0, k.m1, k.m2);
      }
    }
  }

  function Completed(attempts: seq<Attempt>): (r: seq<Attempt>)
    ensures forall a :: a in r ==> a in attempts && a.ok
  {
    if attempts == [] then []
    else
      var a, rest := attempts[|attempts| - 1], Completed(attempts[..|attempts| - 1]);
      if a.ok then rest + [a] else rest
  }

  ghost predicate Gapped(r: seq<Attempt>, min: nat) {
    forall i, j :: 0 <= i < j < |r| && j == i + 1 ==> r[j].done - r[i].done >= min
  }

  lemma {:induction false} CompletedAreSpaced(attempts: seq<Attempt>, min: nat)
    requires Limited(attempts, min)
    ensures Gapped(Completed(attempts), min)
  {
    if attempts != [] {
      var init, a := attempts[..|attempts| - 1], attempts[|attempts| - 1];
      CompletedAreSpaced(init, min);
      var r := Completed(init);
      if r != [] && a.ok {
        assert r[|r| - 1] in init && r[|r| - 1].ok;
        var k :| 0 <= k < |init| && init[k] == r[|r| - 1];
        assert attempts[k] == r[|r| - 1];
        assert a.done >= a.gate >= attempts[k].done + min;
      }
    }
  }

  lemma {:induction false} GapsAddUp(r: seq<Attempt>, min: nat, i: nat, j: nat)
    requires Gapped(r, min)
    requires i <= j < |r|
    ensures (j - i) * min <= r[j].done - r[i].done
  {
    if i < j {
      GapsAddUp(r, min, i, j - 1);
      assert (j - i) * min == (j - 1 - i) * min + min;
    }
  }

  /**
   * The rate limit: whatever mixture of forged and good tokens arrives, `n` completed fetches span
   * at least `(n - 1) * min` seconds, whichever `n` in a row are looked at.
   */
  lemma FetchesAreRateLimited(min: nat, checks: seq<Check>, i: nat, j: nat)
    requires OneClock(checks)
    requires i <= j < |Completed(RunChecks(min, checks).attempts)|
    ensures var r := Completed(RunChecks(min, checks).attempts); (j - i) * min <= r[j].done - r[i].done
  {
    var c := RunChecks(min, checks);
    ReachableIsValid(min, checks);
    CompletedAreSpaced(c.attempts, min);
    GapsAddUp(Completed(c.attempts), min, i, j);
  }

  /** Requests closer together than the cooldown happen only after a request that failed. */
  lemma ShortGapsFollowFailures(min: nat, checks: seq<Check>, i: nat, j: nat)
    requires OneClock(checks)
    requires i < j < |RunChecks(min, checks).attempts|
    ensures var a := RunChecks(min, checks).attempts; a[j].gate < a[i].done + min ==> !a[i].ok
  {
    ReachableIsValid(min, checks);
  }

  /**
   * Exactly a failed fetch leaves the gate open: within the cooldown after a request, the next
   * check makes another if and only if that one failed.
   */
  lemma OnlyFailuresReopenTheGate(c: Cache, min: nat, now: int, m: Moment, n: Moment)
    requires Valid(c, min, now) && now <= m.gate <= m.done && !Cooling(c, min, m.gate)
    requires m.done <= n.gate < m.done + min
    ensures RefreshedIfStale(Refreshed(c, m), min, n) != Refreshed(c, m) <==> m.reply.None?
  {
    var after := Refreshed(c, m);
    if m.reply.None? {
      assert !Cooling(after, min, n.gate);
      assert |Refreshed(after, n).attempts| == |after.attempts| + 1;
    }
  }

  /** `n` tokens that arrive in one instant while the provider does not answer. */
  function Outage(n: nat): (r: seq<Check>)
    ensures |r| == n
  {
    var m := Moment(0, 0, None);
    seq(n, k => Check(Signed(None, "", true), m, m, m))
  }

  /** The cooldown limits completed fetches only: during an outage every token costs a request. */
  lemma {:induction false} OutageIsNotRateLimited(min: nat, n: nat)
    ensures OneClock(Outage(n))
    ensures |RunChecks(min, Outage(n)).attempts| == n && RunChecks(min, Outage(n)).keys.None?
  {
    if n > 0 {
      OutageIsNotRateLimited(min, n - 1);
      assert Outage(n)[..n - 1] == Outage(n - 1);
    }
  }

  /**
   * When a good token gets through. While the provider answers and publishes its signer, it
   * verifies exactly when the cache is empty, already holds the signer, or is older than the
   * cooldown by the time of the retry.
   */
  lemma GoodTokenVerifies(
        c: Cache, min: nat, now: int, t: Signed, published: set<string>, m0: Moment, m1: Moment, m2: Moment)
    requires Valid(c, min, now) && InOrder(now, m0, m1, m2)
    requires t.sound && t.signer in published && (t.kid.None? || t.kid.value == t.signer)
    requires m0.reply == m1.reply == m2.reply == Some(published)
    ensures Checked(c, min, t, m0, m1, m2).1.Decoded?
      <==> c.keys.None? || t.signer in c.keys.value.kids || m2.gate - c.fetchedAt >= min
  {
  }

  /** Refetching is no reason to trust: what decodes is signed by a key in the set now held. */
  lemma DecodedMeansHeld(c: Cache, min: nat, t: Signed, m0: Moment, m1: Moment, m2: Moment)
    requires Checked(c, min, t, m0, m1, m2).1.Decoded?
    ensures var after := Checked(c, min, t, m0, m1, m2).0;
      t.sound && after.keys.Some? && t.signer in after.keys.value.kids
  {
  }

  /** A token that names another key than its signer's, or is not sound, never decodes, whatever is fetched. */
  lemma BadTokenNeverDecodes(c: Cache, min: nat, t: Signed, m0: Moment, m1: Moment, m2: Moment)
    requires !t.sound || (t.kid.Some? && t.kid.value != t.signer)
    ensures !Checked(c, min, t, m0, m1, m2).1.Decoded?
  {
  }

  /** The caller is told that fetching failed exactly if this check made a request and its last one failed. */
  lemma FailureIsTheLastFetch(c: Cache, min: nat, t: Signed, m0: Moment, m1: Moment, m2: Moment)
    ensures var (after, v) := Checked(c, min, t, m0, m1, m2);
      && c.attempts <= after.attempts
      && (v.FetchFailed? <==> |after.attempts| > |c.attempts| && !after.attempts[|after.attempts| - 1].ok)
  {
  }

  /** The object the receiver keeps. */
  class KeySet {
    var keys: Option<Fetched>
    var fetchedAt: int
    var attempts: seq<Attempt>
    const minRefetchSeconds: nat

    constructor (minRefetchSeconds: nat)
      ensures Contents() == EMPTY && this.minRefetchSeconds == minRefetchSeconds
    {
      keys, fetchedAt, attempts := None, 0, [];
      this.minRefetchSeconds := minRefetchSeconds;
    }

    ghost function Contents(): Cache
      reads this
    {
      Cache(keys, fetchedAt, attempts)
    }

    /** `ok` is false when the fetch raised. */
    method Refresh(m: Moment) returns (ok: bool)
      modifies this
      ensures Contents() == Refreshed(old(Contents()), m)
      ensures ok == m.reply.Some? && (ok ==> keys.Some?)
    {
      ok := m.reply.Some?;
      if ok {
        keys := Some(Fetched(|attempts|, m.reply.value));
        fetchedAt := m.done;
      }
      attempts := attempts + [Attempt(m.gate, m.done, ok)];
    }

    method RefreshIfStale(m: Moment) returns (ok: bool)
      modifies this
      ensures Contents() == RefreshedIfStale(old(Contents()), minRefetchSeconds, m)
      ensures ok == Went(old(Contents()), Contents()) && (ok ==> keys.Some?)
    {
      if keys.Some? && m.gate - fetchedAt < minRefetchSeconds {
        return true;
      }
      ok := Refresh(m);
    }

    method Keys(kid: Option<string>, m0: Moment, m1: Moment) returns (ok: bool)
      modifies this
      ensures Contents() == KeysFor(old(Contents()), minRefetchSeconds, kid, m0, m1)
      ensures ok == !KeysRaise(old(Contents()), minRefetchSeconds, kid, m0, m1) && (ok ==> keys.Some?)
    {
      ok := true;
      if keys.None? {
        ok := Refresh(m0);
      }
      if ok && kid.Some? && kid.value !in keys.value.kids {
        ok := RefreshIfStale(m1);
      }
    }

    method Verify(t: Signed, m0: Moment, m1: Moment, m2: Moment) returns (v: Verdict)
      modifies this
      ensures (Contents(), v) == Checked(old(Contents()), minRefetchSeconds, t, m0, m1, m2)
    {
      var ok := Keys(t.kid, m0, m1);
      if !ok {
        return FetchFailed;
      }
      var resolved := keys.value;
      if Decodes(resolved, t) {
        return Decoded;
      }
      ok := RefreshIfStale(m2);
      if !ok {
        return FetchFailed;
      }
      v := if keys.value != resolved && Decodes(keys.value, t) then Decoded else Rejected;
    }
  }
}
