/**
 * The provider's sender: up to three posts of a logout token, a pause before the second and third,
 * and one audit row that says how it went.
 *
 * What the network does to each post is a parameter, and so are the random `jti`s.
 */
module LogoutSenders {
  import opened Common
  import opened LogoutTokens

  const ATTEMPTS := 3
  const TIMEOUT_MS := 2500

  function Backoff(attempt: nat): nat {
    if attempt == 1 then 250 else if attempt == 2 then 1000 else 0
  }

  /**
   * Either the request never got there, or it did after `arrives` ms, and the app's answer came
   * `takes` ms after it was sent. `live` is the verdict of the app's JWT library on the token when it
   * arrives: signed with a key it knows, and not expired by its clock.
   */
  datatype Post = Unreached(takes: nat) | Reached(arrives: nat, live: bool, status: nat, takes: nat)

  /** The abort signal ends every post after `TIMEOUT_MS`. */
  function Spent(p: Post): nat { if p.takes < TIMEOUT_MS then p.takes else TIMEOUT_MS }

  predicate Acknowledged(p: Post) {
    p.Reached? && p.takes < TIMEOUT_MS && (p.status == 200 || p.status == 204)
  }

  datatype Client = Client(clientId: string, logoutUri: Option<string>, sessionRequired: bool)

  /** A logout token as it left, and the time it was signed and sent. */
  datatype Sent = Sent(clientId: string, sub: string, sid: Option<string>, jti: Json, at: nat)

  datatype Row =
    | Delivered(clientId: string, userId: string, reason: string, attempt: nat)
    | Failed(clientId: string, userId: string, reason: string, attempts: nat)
    | PrivateEndpoint(clientId: string, userId: string, reason: string)
    | SlowRevoke(clientId: string, userId: string, reason: string)

  /** The first acknowledged attempt is the last one made. */
  ghost predicate StopsAt(posts: seq<Post>, n: nat) {
    && 1 <= n <= ATTEMPTS <= |posts|
    && (forall k :: 0 <= k < n - 1 ==> !Acknowledged(posts[k]))
    && (n < ATTEMPTS ==> Acknowledged(posts[n - 1]))
  }

  /** Pauses and posts of the first `n` attempts, in milliseconds. */
  function Elapsed(posts: seq<Post>, n: nat): nat
    requires n <= |posts|
  {
    if n == 0 then 0 else Elapsed(posts, n - 1) + Backoff(n - 1) + Spent(posts[n - 1])
  }

  /** When attempt `k` of a delivery that began at `t0` sends its token. */
  function SendTime(posts: seq<Post>, t0: nat, k: nat): nat
    requires k <= |posts|
  {
    t0 + Elapsed(posts, k) + Backoff(k)
  }

  function TokenFor(c: Client, userId: string, sid: Option<string>, jti: Json, at: nat): Sent {
    Sent(c.clientId, userId, if c.sessionRequired && sid != Some("") then sid else None, jti, at)
  }

  /** What the first `n` attempts send. */
  function TokensFor(
      c: Client, userId: string, sid: Option<string>, jtis: seq<Json>, posts: seq<Post>, t0: nat,
      n: nat): (r: seq<Sent>)
    requires n <= |jtis| && n <= |posts|
    ensures |r| == n
    ensures forall k :: 0 <= k < n ==> r[k] == TokenFor(c, userId, sid, jtis[k], SendTime(posts, t0, k))
  {
    seq(n, k requires 0 <= k < n => TokenFor(c, userId, sid, jtis[k], SendTime(posts, t0, k)))
  }

  lemma {:induction false} AttemptsTakeAtMost(posts: seq<Post>, n: nat)
    requires n <= |posts| && n <= ATTEMPTS
    ensures Elapsed(posts, n) <= n * TIMEOUT_MS + (if n > 2 then 1250 else if n > 1 then 250 else 0)
  {
    if n > 0 {
      AttemptsTakeAtMost(posts, n - 1);
    }
  }

  /** A delivery never holds its caller for more than 8.75 seconds, and three silent posts take exactly that. */
  lemma DeliveryIsBounded(posts: seq<Post>, n: nat)
    requires StopsAt(posts, n)
    ensures Elapsed(posts, n) <= 8750
    ensures Elapsed(posts, n) == 8750 <==> n == 3 && forall k :: 0 <= k < 3 ==> posts[k].takes >= TIMEOUT_MS
  {
    AttemptsTakeAtMost(posts, n);
    if n == 3 {
      assert Elapsed(posts, 3) == Elapsed(posts, 2) + 1000 + Spent(posts[2]);
      assert Elapsed(posts, 2) == Elapsed(posts, 1) + 250 + Spent(posts[1]);
      assert Elapsed(posts, 1) == Elapsed(posts, 0) + Spent(posts[0]);
    }
  }

  /** Tokens are signed and sent after the pause: 250 ms after the first post is over, a second after the second. */
  lemma SendsAreSpaced(posts: seq<Post>, t0: nat)
    requires |posts| >= 3
    ensures SendTime(posts, t0, 0) == t0
    ensures SendTime(posts, t0, 1) - SendTime(posts, t0, 0) == Spent(posts[0]) + 250
    ensures SendTime(posts, t0, 2) - SendTime(posts, t0, 1) == Spent(posts[1]) + 1000
  {
    assert Elapsed(posts, 2) == Elapsed(posts, 1) + 250 + Spent(posts[1]);
  }

  /** Where the sending stops is fixed by what the network does. */
  lemma StopIsDetermined(posts: seq<Post>, n: nat, m: nat)
    requires StopsAt(posts, n) && StopsAt(posts, m)
    ensures n == m
  {
  }

  /** The number of attempts one delivery makes. */
  ghost function StopOf(posts: seq<Post>): (n: nat)
    requires |posts| == ATTEMPTS
    ensures StopsAt(posts, n)
  {
    if Acknowledged(posts[0]) then 1 else if Acknowledged(posts[1]) then 2 else 3
  }

  /** One notification to make, and what will happen to it. */
  datatype Target = Target(
    clientId: string, client: Option<Client>, sid: Option<string>, refused: bool, posts: seq<Post>, jtis: seq<Json>)
  {
    ghost predicate Complete() {
      |posts| == ATTEMPTS && |jtis| == ATTEMPTS && (client.Some? ==> client.value.clientId == clientId)
    }
  }

  /** The row one notification writes. */
  ghost function RowFor(t: Target, userId: string, reason: string): Row
    requires t.Complete()
  {
    var n := StopOf(t.posts);
    if t.client.None? || t.client.value.logoutUri.None? then SlowRevoke(t.clientId, userId, reason)
    else if t.refused then PrivateEndpoint(t.clientId, userId, reason)
    else if Acknowledged(t.posts[n - 1]) then Delivered(t.clientId, userId, reason, n)
    else Failed(t.clientId, userId, reason, n)
  }

  /** An app answered this post with one of the two statuses for success before the sender gave up. */
  predicate AnsweredWell(p: Post) {
    p.Reached? && p.takes < 2500 && p.status in {200, 204}
  }

  /**
   What the one row says. A delivery is recorded at the attempt whose answer was the first good one,
   as a failure when none of three was; and without an attempt, why there was none.
   */
  lemma RowSaysExactly(t: Target, userId: string, reason: string)
    requires t.Complete()
    ensures var row := RowFor(t, userId, reason);
      var told := t.client.Some? && t.client.value.logoutUri.Some?;
      && row.clientId == t.clientId && row.userId == userId && row.reason == reason
      && (row.SlowRevoke? <==> !told)
      && (row.PrivateEndpoint? <==> told && t.refused)
      && (row.Failed? <==> told && !t.refused && forall k :: 0 <= k < 3 ==> !AnsweredWell(t.posts[k]))
      && (row.Failed? ==> row.attempts == 3)
      && (row.Delivered? ==> 1 <= row.attempt <= 3 && AnsweredWell(t.posts[row.attempt - 1]))
      && (row.Delivered? ==> forall k :: 0 <= k < row.attempt - 1 ==> !AnsweredWell(t.posts[k]))
  {
    forall p: Post ensures Acknowledged(p) <==> AnsweredWell(p) {}
  }

  /** A token names the person always, and the session exactly for an app that requires it. */
  lemma TokenNames(c: Client, userId: string, sid: Option<string>, jti: Json, at: nat)
    ensures var s := TokenFor(c, userId, sid, jti, at);
      && s.clientId == c.clientId && s.sub == userId && s.jti == jti && s.at == at
      && (s.sid.Some? <==> c.sessionRequired && sid.Some? && sid.value != "")
      && (s.sid.Some? ==> s.sid == sid)
  {
  }

  class Backchannel {
    var rows: seq<Row>
    var sent: seq<Sent>
    var clock: nat

    constructor ()
      ensures rows == [] && sent == [] && clock == 0
    {
      rows, sent, clock := [], [], 0;
    }

    method PostOnce(c: Client, userId: string, sid: Option<string>, jti: Json, p: Post) returns (ok: bool)
      modifies this
      ensures rows == old(rows) && clock == old(clock) + Spent(p)
      ensures sent == old(sent) + [TokenFor(c, userId, sid, jti, old(clock))]
      ensures ok == Acknowledged(p)
    {
      sent := sent + [TokenFor(c, userId, sid, jti, clock)];
      clock := clock + Spent(p);
      ok := Acknowledged(p);
    }

    /** `refused`: a private destination, on an issuer that may not post to one. */
    method Deliver(c: Client, userId: string, sid: Option<string>, reason: string,
        refused: bool, posts: seq<Post>, jtis: seq<Json>)
      returns (ok: bool, ghost n: nat)
      requires |posts| == ATTEMPTS && |jtis| == ATTEMPTS
      modifies this
      ensures refused ==> !ok && n == 0 && rows == old(rows) + [PrivateEndpoint(c.clientId, userId, reason)]
      ensures !refused ==> StopsAt(posts, n) && ok == Acknowledged(posts[n - 1])
      ensures !refused ==> rows == old(rows) + [
        if ok then Delivered(c.clientId, userId, reason, n) else Failed(c.clientId, userId, reason, n)]
      ensures n <= ATTEMPTS && sent == old(sent) + TokensFor(c, userId, sid, jtis, posts, old(clock), n)
      ensures clock == old(clock) + Elapsed(posts, n)
    {
      n := 0;
      if refused {
        rows := rows + [PrivateEndpoint(c.clientId, userId, reason)];
        return false, 0;
      }
      var attempt: nat := 0;
      while attempt < ATTEMPTS
        invariant attempt == n <= ATTEMPTS
        invariant forall k :: 0 <= k < n ==> !Acknowledged(posts[k])
        invariant rows == old(rows) && clock == old(clock) + Elapsed(posts, n)
        invariant sent == old(sent) + TokensFor(c, userId, sid, jtis, posts, old(clock), n)
      {
        clock := clock + Backoff(attempt);
        ok := PostOnce(c, userId, sid, jtis[attempt], posts[attempt]);
        n := n + 1;
        assert TokensFor(c, userId, sid, jtis, posts, old(clock), n)
            == TokensFor(c, userId, sid, jtis, posts, old(clock), n - 1)
               + [TokenFor(c, userId, sid, jtis[n - 1], SendTime(posts, old(clock), n - 1))];
        if ok {
          rows := rows + [Delivered(c.clientId, userId, reason, attempt + 1)];
          return;
        }
        attempt := attempt + 1;
      }
      rows := rows + [Failed(c.clientId, userId, reason, ATTEMPTS)];
      ok := false;
    }

    /** At most three posts within 8.75 seconds, and exactly one row, which agrees with the result. */
    method Notify(t: Target, userId: string, reason: string) returns (ok: bool)
      requires t.Complete()
      modifies this
      ensures rows == old(rows) + [RowFor(t, userId, reason)]
      ensures ok == RowFor(t, userId, reason).Delivered?
      ensures old(clock) <= clock <= old(clock) + 8750
      ensures old(sent) <= sent && |sent| - |old(sent)| <= ATTEMPTS
      ensures sent != old(sent) <==> RowFor(t, userId, reason).Delivered? || RowFor(t, userId, reason).Failed?
    {
      if t.client.None? || t.client.value.logoutUri.None? {
        rows := rows + [SlowRevoke(t.clientId, userId, reason)];
        return false;
      }
      ghost var n;
      ok, n := Deliver(t.client.value, userId, t.sid, reason, t.refused, t.posts, t.jtis);
      if !t.refused {
        DeliveryIsBounded(t.posts, n);
        StopIsDetermined(t.posts, n, StopOf(t.posts));
      }
    }

    /** Signing out one session tells every app it was used with: one row for each, in the list's order. */
    method NotifySession(targets: seq<Target>, userId: string, reason: string)
      requires forall k :: 0 <= k < |targets| ==> targets[k].Complete()
      modifies this
      ensures |rows| == |old(rows)| + |targets| && old(rows) <= rows
      ensures old(sent) <= sent && |sent| - |old(sent)| <= ATTEMPTS * |targets|
      ensures forall k :: 0 <= k < |targets| ==> rows[|old(rows)| + k] == RowFor(targets[k], userId, reason)
    {
      for i := 0 to |targets|
        invariant |rows| == |old(rows)| + i && old(rows) <= rows
        invariant old(sent) <= sent && |sent| - |old(sent)| <= ATTEMPTS * i
        invariant forall k :: 0 <= k < i ==> rows[|old(rows)| + k] == RowFor(targets[k], userId, reason)
      {
        var _ := Notify(targets[i], userId, reason);
      }
    }
  }
}

/** The sender composed with a receiver: how often one notification ends a session. */
module LogoutDelivery {
  import opened Common
  import opened LogoutTokens
  import opened LogoutHandlers
  import opened LogoutReceivers
  import opened LogoutSenders

  /** The provider's token for what the sender posts, as the app's library finds it; `iat` is in whole seconds. */
  function TokenOf(s: Sent, live: bool, issuer: string): Token {
    Token(live, LOGOUT_TYP, issuer, [s.clientId], false, true, Integer(s.at / 1000), Text(s.sub),
          if s.sid.Some? then Text(s.sid.value) else Missing, s.jti)
  }

  /** The receiver's clock, `skew` ms from the provider's, when this request comes in. */
  function ArrivalTime(s: Sent, p: Post, skew: int): real
    requires p.Reached?
  {
    (s.at + p.arrives + skew) as real / 1000.0
  }

  function DeliveryOf(s: Sent, p: Post, issuer: string, skew: int): Delivery
    requires p.Reached?
  {
    Delivery(TokenOf(s, p.live, issuer), ArrivalTime(s, p, skew))
  }

  /** What the app receives of the first `n` tokens sent. */
  function Deliveries(sent: seq<Sent>, posts: seq<Post>, issuer: string, skew: int, n: nat): seq<Delivery>
    requires n <= |sent| && n <= |posts|
  {
    if n == 0 then []
    else
      var before := Deliveries(sent, posts, issuer, skew, n - 1);
      if posts[n - 1].Unreached? then before
      else before + [DeliveryOf(sent[n - 1], posts[n - 1], issuer, skew)]
  }

  /** The request got there, its token still good to the app's library and no older than the receiver allows. */
  predicate Counts(r: Receiver, s: Sent, p: Post, maxAge: nat, skew: int) {
    p.Reached? && p.live && Clock(r, ArrivalTime(s, p, skew)) - (s.at / 1000) as real <= maxAge as real
  }

  function CountOf(r: Receiver, sent: seq<Sent>, posts: seq<Post>, maxAge: nat, skew: int, n: nat): nat
    requires n <= |sent| && n <= |posts|
  {
    if n == 0 then 0
    else
      var last := if Counts(r, sent[n - 1], posts[n - 1], maxAge, skew) then 1 else 0;
      CountOf(r, sent, posts, maxAge, skew, n - 1) + last
  }

  function ReachedCount(posts: seq<Post>, n: nat): nat
    requires n <= |posts|
  {
    if n == 0 then 0 else ReachedCount(posts, n - 1) + (if posts[n - 1].Reached? then 1 else 0)
  }

  /** Every attempt carries its own random `jti`, new to the receiver. */
  ghost predicate FreshIds(seen: seq<Json>, jtis: seq<Json>) {
    && (forall k :: 0 <= k < |jtis| ==> jtis[k] !in seen && jtis[k].Text? && jtis[k].text != "")
    && (forall i, j :: 0 <= i < j < |jtis| ==> jtis[i] != jtis[j])
  }

  /** The tokens sent are for this app, about somebody, and signed after the epoch's first second. */
  ghost predicate Sendable(sent: seq<Sent>, jtis: seq<Json>, o: Options) {
    |sent| <= |jtis| && forall k :: 0 <= k < |sent| ==>
      && sent[k].clientId == o.clientId && sent[k].sub != "" && sent[k].sid != Some("")
      && sent[k].jti == jtis[k] && sent[k].at >= 1000
  }

  lemma AddedIsOldOrNew(r: Receiver, seen: seq<Json>, limit: nat, jti: Json, x: Json)
    requires x in Add(r, seen, limit, jti)
    ensures x in seen || x == jti
  {
    if r.TypeScript? {
      if |seen| >= limit && seen != [] {
        InSuffix(seen, 1, x);
      }
    } else {
      var all := if jti in seen then seen else seen + [jti];
      if |all| > limit {
        InSuffix(all, |all| - limit, x);
      }
    }
  }

  lemma InSuffix(s: seq<Json>, k: nat, x: Json)
    requires k <= |s|
    ensures x in s[k..] ==> x in s
  {
  }

  lemma StillFresh(r: Receiver, seen: seq<Json>, limit: nat, jtis: seq<Json>, n: nat)
    requires 0 < n <= |jtis| && forall k :: n - 1 <= k < |jtis| ==> jtis[k] !in seen
    requires forall i, j :: 0 <= i < j < |jtis| ==> jtis[i] != jtis[j]
    ensures forall k :: n <= k < |jtis| ==> jtis[k] !in Add(r, seen, limit, jtis[n - 1])
  {
    forall k | n <= k < |jtis| ensures jtis[k] !in Add(r, seen, limit, jtis[n - 1]) {
      if jtis[k] in Add(r, seen, limit, jtis[n - 1]) {
        AddedIsOldOrNew(r, seen, limit, jtis[n - 1], jtis[k]);
      }
    }
  }

  /** A sent token that arrives is verified and ends a session exactly when it counts. */
  lemma OneArrives(r: Receiver, h: Handler, limit: nat, o: Options, s: Sent, p: Post, skew: int)
    requires p.Reached? && s.jti !in h.seen && s.jti.Text? && s.jti.text != ""
    requires s.clientId == o.clientId && s.sub != "" && s.sid != Some("") && s.at >= 1000
    ensures var after := Received(r, h, limit, o, DeliveryOf(s, p, o.issuer, skew));
      if Counts(r, s, p, o.maxAge, skew)
      then |after.ended| == |h.ended| + 1 && after.seen == Add(r, h.seen, limit, s.jti)
      else after == h
  {
    if p.live {
      MintedIsAccepted(r, TokenOf(s, true, o.issuer), o, ArrivalTime(s, p, skew));
    }
  }

  lemma {:induction false} EachArrivalEnds(
      r: Receiver, limit: nat, o: Options, before: seq<Delivery>, sent: seq<Sent>, posts: seq<Post>, jtis: seq<Json>,
      skew: int, n: nat)
    requires n <= |sent| <= |posts| && Sendable(sent, jtis, o)
    requires FreshIds(ReceiveAll(r, limit, o, before).seen, jtis)
    ensures var after := ReceiveAll(r, limit, o, before + Deliveries(sent, posts, o.issuer, skew, n));
      && |after.ended| == |ReceiveAll(r, limit, o, before).ended| + CountOf(r, sent, posts, o.maxAge, skew, n)
      && (forall k :: n <= k < |jtis| ==> jtis[k] !in after.seen)
  {
    if n == 0 {
      assert before + [] == before;
    } else {
      EachArrivalEnds(r, limit, o, before, sent, posts, jtis, skew, n - 1);
      var earlier := before + Deliveries(sent, posts, o.issuer, skew, n - 1);
      var h, s, p := ReceiveAll(r, limit, o, earlier), sent[n - 1], posts[n - 1];
      if p.Reached? {
        var d := DeliveryOf(s, p, o.issuer, skew);
        assert before + Deliveries(sent, posts, o.issuer, skew, n) == earlier + [d];
        ReceivedExtended(r, limit, o, earlier, d);
        OneArrives(r, h, limit, o, s, p, skew);
        StillFresh(r, h.seen, limit, jtis, n);
      }
    }
  }

  /** One delivery: the client and person, the network and the random ids it meets, and when it starts. */
  datatype Attempted = Attempted(
    client: Client, userId: string, sid: Option<string>, posts: seq<Post>, jtis: seq<Json>, start: nat)
  {
    /** The tokens `Backchannel.Deliver` sends in its first `n` attempts. */
    function Sends(n: nat): seq<Sent>
      requires n <= |jtis| && n <= |posts|
    {
      TokensFor(client, userId, sid, jtis, posts, start, n)
    }

    /** `n` attempts are made, for the app and issuer these options name. */
    ghost predicate Stops(n: nat, o: Options) {
      && StopsAt(posts, n) && |posts| == |jtis| == ATTEMPTS
      && client.clientId == o.clientId && userId != "" && start >= 1000
    }
  }

  /** Everything this receiver has been sent once a delivery of `n` attempts is over. */
  function Afterwards(
      r: Receiver, limit: nat, o: Options, before: seq<Delivery>, a: Attempted, skew: int, n: nat): Handler
    requires n <= |a.jtis| && n <= |a.posts|
  {
    ReceiveAll(r, limit, o, before + Deliveries(a.Sends(n), a.posts, o.issuer, skew, n))
  }

  /**
   * Idempotence per `jti` is not idempotence per notification. After any earlier posts, one delivery
   * ends the session once for every attempt whose token reached the app while its library still found
   * it good and it was young enough, for any offset between the two clocks, hence at most three times.
   * Whether the sender was told that it succeeded plays no part.
   */
  lemma EndsOncePerAttempt(
      r: Receiver, limit: nat, o: Options, before: seq<Delivery>, a: Attempted, skew: int, n: nat)
    requires a.Stops(n, o) && FreshIds(ReceiveAll(r, limit, o, before).seen, a.jtis)
    ensures |Afterwards(r, limit, o, before, a, skew, n).ended| - |ReceiveAll(r, limit, o, before).ended|
      == CountOf(r, a.Sends(n), a.posts, o.maxAge, skew, n)
    ensures CountOf(r, a.Sends(n), a.posts, o.maxAge, skew, n) <= ReachedCount(a.posts, n) <= n <= 3
  {
    assert Sendable(a.Sends(n), a.jtis, o);
    EachArrivalEnds(r, limit, o, before, a.Sends(n), a.posts, a.jtis, skew, n);
    CountIsBounded(r, a.Sends(n), a.posts, o.maxAge, skew, n);
  }

  lemma {:induction false} CountIsBounded(
        r: Receiver, sent: seq<Sent>, posts: seq<Post>, maxAge: nat, skew: int, n: nat)
    requires n <= |sent| && n <= |posts|
    ensures CountOf(r, sent, posts, maxAge, skew, n) <= ReachedCount(posts, n) <= n
    ensures (forall k :: 0 <= k < n && posts[k].Reached? ==> Counts(r, sent[k], posts[k], maxAge, skew))
      ==> CountOf(r, sent, posts, maxAge, skew, n) == ReachedCount(posts, n)
  {
    if n > 0 {
      CountIsBounded(r, sent, posts, maxAge, skew, n - 1);
    }
  }

  /** A request that arrives before the sender gives up on it, on a clock that agrees, is young enough. */
  lemma PromptCounts(r: Receiver, s: Sent, p: Post, maxAge: nat)
    requires p.Reached? && p.live && p.arrives <= TIMEOUT_MS && maxAge >= 4
    ensures Counts(r, s, p, maxAge, 0)
  {
    var now := ArrivalTime(s, p, 0);
    assert now * 1000.0 == (s.at + p.arrives) as real;
    assert s.at < (s.at / 1000) * 1000 + 1000;
    assert now < (s.at / 1000) as real + 4.0;
    assert Clock(r, now) <= now;
  }

  /**
   * With agreeing clocks, tokens the library finds good, and a receiver that allows at least four
   * seconds, every attempt that got through counts: the session is ended more than once exactly when
   * two attempts got through, at all exactly when one did, and at least once when the sender was told.
   */
  lemma PromptAttemptsAllEnd(r: Receiver, limit: nat, o: Options, before: seq<Delivery>, a: Attempted, n: nat)
    requires a.Stops(n, o) && FreshIds(ReceiveAll(r, limit, o, before).seen, a.jtis)
    requires o.maxAge >= 4
    requires forall k :: 0 <= k < n && a.posts[k].Reached? ==> a.posts[k].live && a.posts[k].arrives <= TIMEOUT_MS
    ensures var calls := |Afterwards(r, limit, o, before, a, 0, n).ended| - |ReceiveAll(r, limit, o, before).ended|;
      && calls == ReachedCount(a.posts, n)
      && (calls > 1 <==> exists i, j :: 0 <= i < j < n && a.posts[i].Reached? && a.posts[j].Reached?)
      && (calls > 0 <==> exists i :: 0 <= i < n && a.posts[i].Reached?)
      && (Acknowledged(a.posts[n - 1]) ==> calls >= 1)
  {
    forall k | 0 <= k < n && a.posts[k].Reached? ensures Counts(r, a.Sends(n)[k], a.posts[k], o.maxAge, 0) {
      PromptCounts(r, a.Sends(n)[k], a.posts[k], o.maxAge);
    }
    EndsOncePerAttempt(r, limit, o, before, a, 0, n);
    CountIsBounded(r, a.Sends(n), a.posts, o.maxAge, 0, n);
    ReachedUpTo3(a.posts, n);
  }

  lemma ReachedUpTo3(posts: seq<Post>, n: nat)
    requires 1 <= n <= 3 <= |posts|
    ensures ReachedCount(posts, n) > 1 <==> exists i, j :: 0 <= i < j < n && posts[i].Reached? && posts[j].Reached?
    ensures ReachedCount(posts, n) > 0 <==> exists i :: 0 <= i < n && posts[i].Reached?
  {
    var a, b, c := posts[0].Reached?, posts[1].Reached?, posts[2].Reached?;
    assert ReachedCount(posts, 1) == if a then 1 else 0;
    assert ReachedCount(posts, 2) == ReachedCount(posts, 1) + if b then 1 else 0;
    assert ReachedCount(posts, 3) == ReachedCount(posts, 2) + if c then 1 else 0;
  }

  /** The app ends the session, its reply is lost, and the retry ends the next one: the sender reports success. */
  lemma LostReply(r: Receiver, limit: nat, o: Options) returns (a: Attempted)
    requires o.maxAge >= 4
    ensures a.Stops(2, o) && Acknowledged(a.posts[1])
    ensures |Afterwards(r, limit, o, [], a, 0, 2).ended| == 2
  {
    var posts := [Reached(40, true, 200, 9000), Reached(2, true, 200, 5), Unreached(0)];
    var jtis := [Text("a"), Text("b"), Text("c")];
    a := Attempted(Client(o.clientId, Some("https://app/logout"), false), "ann", None, posts, jtis, 1000);
    assert posts[0].Reached? && posts[1].Reached?;
    PromptAttemptsAllEnd(r, limit, o, [], a, 2);
    assert ReachedCount(posts, 1) == 1 && ReachedCount(posts, 2) == 2;
  }
}
