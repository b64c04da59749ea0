/**
 * The two receiving libraries as the objects an app mounts, and what holds of a whole run of
 * tokens sent to them.
 */
module LogoutReceivers {
  import opened Common
  import opened LogoutTokens
  import opened LogoutHandlers

  /** One post to the back-channel endpoint, and the receiver's clock in seconds when it came. */
  datatype Delivery = Delivery(token: Token, now: real)

  datatype Outcome = Ended | Repeated | Refused(reason: Reason)

  function ArrivalOf(r: Receiver, d: Delivery): Arrival
    requires IsNumber(d.token.iat)
  {
    Arrival(d.token.jti, Number(d.token.iat), Clock(r, d.now))
  }

  /** What one delivery does to the handler: refused tokens leave it alone. */
  function Received(r: Receiver, h: Handler, limit: nat, o: Options, d: Delivery): Handler {
    if Verify(r, d.token, o, d.now).Failure? then h else Handle(r, h, limit, ArrivalOf(r, d))
  }

  function Replied(r: Receiver, h: Handler, o: Options, d: Delivery): Outcome {
    var v := Verify(r, d.token, o, d.now);
    if v.Failure? then Refused(v.error) else if d.token.jti in h.seen then Repeated else Ended
  }

  function ReceiveAll(r: Receiver, limit: nat, o: Options, ds: seq<Delivery>): Handler {
    if ds == [] then Handler([], [])
    else Received(r, ReceiveAll(r, limit, o, ds[..|ds| - 1]), limit, o, ds[|ds| - 1])
  }

  lemma ReceivedExtended(r: Receiver, limit: nat, o: Options, ds: seq<Delivery>, d: Delivery)
    ensures ReceiveAll(r, limit, o, ds + [d]) == Received(r, ReceiveAll(r, limit, o, ds), limit, o, d)
  {
    assert (ds + [d])[..|ds|] == ds;
  }

  /** The accepted tokens of a run. */
  function Accepted(r: Receiver, o: Options, ds: seq<Delivery>): seq<Arrival> {
    if ds == [] then []
    else
      var rest, d := Accepted(r, o, ds[..|ds| - 1]), ds[|ds| - 1];
      if Verify(r, d.token, o, d.now).Success? then rest + [ArrivalOf(r, d)] else rest
  }

  lemma {:induction false} OnlyAcceptedCount(r: Receiver, limit: nat, o: Options, ds: seq<Delivery>)
    ensures ReceiveAll(r, limit, o, ds) == Run(r, limit, Accepted(r, o, ds))
  {
    if ds == [] {
    } else {
      var init, d := ds[..|ds| - 1], ds[|ds| - 1];
      OnlyAcceptedCount(r, limit, o, init);
      if Verify(r, d.token, o, d.now).Success? {
        RunExtended(r, limit, Accepted(r, o, init), ArrivalOf(r, d));
      }
    }
  }

  /**
   * What the app is answered is what happened: ended exactly if this post ended one session more, refused
   * exactly if its token is not accepted, and repeated exactly if an accepted token's `jti` was still known.
   */
  lemma RepliesAreTrue(r: Receiver, h: Handler, limit: nat, o: Options, d: Delivery)
    ensures var reply, after := Replied(r, h, o, d), Received(r, h, limit, o, d);
      && (reply.Ended? <==> |after.ended| == |h.ended| + 1)
      && (reply.Refused? <==> Verify(r, d.token, o, d.now).Failure?)
      && (reply.Repeated? <==> Verify(r, d.token, o, d.now).Success? && d.token.jti in h.seen)
      && (!reply.Ended? ==> after == h)
      && (reply.Ended? ==> IsNumber(d.token.iat) && after.ended == h.ended + [ArrivalOf(r, d)])
  {
  }

  /**
   * Posts in order of arrival. Of the genuinely signed ones, and of no others, it is asked that they
   * do not arrive before their `iat`, and that one `jti` is one token.
   */
  ghost predicate Honest(ds: seq<Delivery>) {
    && (forall i, j :: 0 <= i < j < |ds| ==> ds[i].now <= ds[j].now)
    && (forall i :: 0 <= i < |ds| && ds[i].token.signed ==>
          ds[i].token.iat.Integer? && ds[i].token.iat.n as real <= ds[i].now)
    && (forall i, j :: 0 <= i < |ds| && 0 <= j < |ds| && ds[i].token.signed && ds[j].token.signed ==>
          ds[i].token.jti == ds[j].token.jti ==> ds[i].token.iat == ds[j].token.iat)
  }

  /** `acc[k]` is the arrival of `ds[from[k]]`, and the order is kept. */
  ghost predicate Sources(r: Receiver, o: Options, ds: seq<Delivery>, acc: seq<Arrival>, from: seq<nat>) {
    && |from| == |acc|
    && (forall k :: 0 <= k < |from| ==> from[k] < |ds| && Became(r, o, ds[from[k]], acc[k]))
    && (forall i, j :: 0 <= i < j < |from| ==> from[i] < from[j])
  }

  predicate Became(r: Receiver, o: Options, d: Delivery, a: Arrival) {
    Verify(r, d.token, o, d.now).Success? && IsNumber(d.token.iat) && a == ArrivalOf(r, d)
  }

  lemma {:induction false} AcceptedComeFrom(r: Receiver, o: Options, ds: seq<Delivery>) returns (from: seq<nat>)
    ensures Sources(r, o, ds, Accepted(r, o, ds), from)
  {
    if ds == [] {
      from := [];
    } else {
      var init, d := ds[..|ds| - 1], ds[|ds| - 1];
      from := AcceptedComeFrom(r, o, init);
      if Verify(r, d.token, o, d.now).Success? {
        from := from + [|ds| - 1];
      }
    }
  }

  /** Verification supplies the age bound the handler's memory relies on. */
  lemma VerifiedIsTimely(r: Receiver, o: Options, ds: seq<Delivery>)
    requires Honest(ds)
    ensures Timely(Accepted(r, o, ds), o.maxAge) && JtiFixesIat(Accepted(r, o, ds))
  {
    var from := AcceptedComeFrom(r, o, ds);
    SourcesAreTimely(r, o, ds, Accepted(r, o, ds), from);
  }

  lemma SourcesAreTimely(r: Receiver, o: Options, ds: seq<Delivery>, acc: seq<Arrival>, from: seq<nat>)
    requires Honest(ds) && Sources(r, o, ds, acc, from)
    ensures Timely(acc, o.maxAge) && JtiFixesIat(acc)
  {
    forall k | 0 <= k < |acc| ensures acc[k].iat <= acc[k].clock <= acc[k].iat + o.maxAge as real {
      OneIsTimely(r, o, ds[from[k]]);
    }
    forall i, j | 0 <= i < j < |acc| ensures acc[i].clock <= acc[j].clock {
      ClockIsMonotone(r, ds[from[i]].now, ds[from[j]].now);
    }
    forall i, j | 0 <= i < |acc| && 0 <= j < |acc| && acc[i].jti == acc[j].jti ensures acc[i].iat == acc[j].iat {
      assert ds[from[i]].token.jti == ds[from[j]].token.jti;
    }
  }

  lemma ClockIsMonotone(r: Receiver, early: real, late: real)
    requires early <= late
    ensures Clock(r, early) <= Clock(r, late)
  {
    var e, l := early.Floor, late.Floor;
    assert e as real <= early && late < (l + 1) as real;
    assert e < l + 1;
  }

  lemma OneIsTimely(r: Receiver, o: Options, d: Delivery)
    requires d.token.iat.Integer? && d.token.iat.n as real <= d.now
    requires Verify(r, d.token, o, d.now).Success?
    ensures Number(d.token.iat) <= Clock(r, d.now) <= Number(d.token.iat) + o.maxAge as real
  {
    assert d.token.iat.n <= d.now.Floor;
  }

  /**
   * The receivers' promise over any sequence of posts, forged, stale and repeated ones included:
   * `endSession` runs at most once per `jti`, as long as no `maxAge` window brings more distinct
   * good tokens than the store holds. `LogoutHandlers.OneTooMany` shows the bound cannot be raised.
   */
  lemma EndsEachSessionOnce(r: Receiver, limit: nat, o: Options, ds: seq<Delivery>)
    requires Honest(ds)
    requires forall from :: |AcceptedIn(Accepted(r, o, ds), from, o.maxAge)| <= Capacity(r, limit)
    ensures AtMostOnce(ReceiveAll(r, limit, o, ds).ended)
  {
    OnlyAcceptedCount(r, limit, o, ds);
    VerifiedIsTimely(r, o, ds);
    AtMostOncePerJti(r, limit, Accepted(r, o, ds), o.maxAge);
  }

  /** The process-local memory of the Python library. */
  class SeenEvents {
    var seen: seq<Json>
    const limit: nat

    constructor (limit: nat)
      ensures seen == [] && this.limit == limit
    {
      seen, this.limit := [], limit;
    }

    method Add(jti: Json)
      modifies this
      ensures seen == AddPython(old(seen), limit, jti)
    {
      if jti !in seen {
        seen := seen + [jti];
      }
      ghost var full := seen;
      while |seen| > limit
        invariant LastOf(seen, limit) == LastOf(full, limit)
      {
        seen := seen[1..];
      }
    }
  }

  /** The process-local memory of the TypeScript library. */
  class InMemorySeen {
    var seen: seq<Json>
    const limit: nat

    constructor (limit: nat)
      ensures seen == [] && this.limit == limit
    {
      seen, this.limit := [], limit;
    }

    method Add(jti: Json)
      modifies this
      ensures seen == AddTypeScript(old(seen), limit, jti)
    {
      if |seen| >= limit && seen != [] {
        seen := seen[1..];
      }
      if jti !in seen {
        seen := seen + [jti];
      }
    }
  }

  /** The handler of the Python library; `ended` records the calls of `endSession`. */
  class PythonHandler {
    const options: Options
    const store: SeenEvents
    var ended: seq<Arrival>

    constructor (options: Options, store: SeenEvents)
      requires store.seen == []
      ensures this.options == options && this.store == store
      ensures Contents() == ReceiveAll(Python, store.limit, options, [])
    {
      this.options, this.store, ended := options, store, [];
    }

    ghost function Contents(): Handler
      reads this, store
    {
      Handler(store.seen, ended)
    }

    method Receive(d: Delivery) returns (reply: Outcome)
      modifies this`ended, store
      ensures Contents() == Received(Python, old(Contents()), store.limit, options, d)
      ensures reply == Replied(Python, old(Contents()), options, d)
    {
      var verified := VerifyPython(d.token, options, d.now);
      if verified.Failure? {
        return Refused(verified.error);
      }
      if verified.value.jti in store.seen {
        return Repeated;
      }
      store.Add(verified.value.jti);
      ended := ended + [ArrivalOf(Python, d)];
      reply := Ended;
    }
  }

  /** The handler of the TypeScript library. */
  class TypeScriptHandler {
    const options: Options
    const store: InMemorySeen
    var ended: seq<Arrival>

    constructor (options: Options, store: InMemorySeen)
      requires store.seen == []
      ensures this.options == options && this.store == store
      ensures Contents() == ReceiveAll(TypeScript, store.limit, options, [])
    {
      this.options, this.store, ended := options, store, [];
    }

    ghost function Contents(): Handler
      reads this, store
    {
      Handler(store.seen, ended)
    }

    method Receive(d: Delivery) returns (reply: Outcome)
      modifies this`ended, store
      ensures Contents() == Received(TypeScript, old(Contents()), store.limit, options, d)
      ensures reply == Replied(TypeScript, old(Contents()), options, d)
    {
      var verified := VerifyTypeScript(d.token, options, d.now);
      if verified.Failure? {
        return Refused(verified.error);
      }
      if verified.value.jti in store.seen {
        return Repeated;
      }
      store.Add(verified.value.jti);
      ended := ended + [ArrivalOf(TypeScript, d)];
      reply := Ended;
    }
  }
}
