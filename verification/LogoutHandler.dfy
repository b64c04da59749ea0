/**
 * The receiving handler: a bounded, first-in-first-out memory of `jti`s in front of `endSession`.
 *
 * `Handle` is the step both libraries take on an accepted token; a run is a list of arrivals. The
 * classes that update their memory in place are in `LogoutReceiver.dfy`.
 */
module LogoutHandlers {
  import opened LogoutTokens

  /** An accepted token: its `jti`, its `iat`, and the clock the receiver judged it by. */
  datatype Arrival = Arrival(jti: Json, iat: real, clock: real)

  datatype Handler = Handler(seen: seq<Json>, ended: seq<Arrival>)

  /** The TypeScript store makes room first, then adds. */
  function AddTypeScript(seen: seq<Json>, limit: nat, jti: Json): seq<Json> {
    var kept := if |seen| >= limit && seen != [] then seen[1..] else seen;
    if jti in kept then kept else kept + [jti]
  }

  /** The Python store adds, then drops the oldest until it fits. */
  function AddPython(seen: seq<Json>, limit: nat, jti: Json): seq<Json> {
    LastOf(if jti in seen then seen else seen + [jti], limit)
  }

  function LastOf<T>(s: seq<T>, limit: nat): seq<T> {
    if |s| > limit then s[|s| - limit..] else s
  }

  function Add(r: Receiver, seen: seq<Json>, limit: nat, jti: Json): seq<Json> {
    if r.TypeScript? then AddTypeScript(seen, limit, jti) else AddPython(seen, limit, jti)
  }

  function Handle(r: Receiver, h: Handler, limit: nat, a: Arrival): Handler {
    if a.jti in h.seen then h else Handler(Add(r, h.seen, limit, a.jti), h.ended + [a])
  }

  function Run(r: Receiver, limit: nat, arrivals: seq<Arrival>): Handler {
    if arrivals == [] then Handler([], [])
    else Handle(r, Run(r, limit, arrivals[..|arrivals| - 1]), limit, arrivals[|arrivals| - 1])
  }

  /** How many `jti`s a store holds once it is full. */
  function Capacity(r: Receiver, limit: nat): nat {
    if r.TypeScript? && limit == 0 then 1 else limit
  }

  function Jtis(entries: seq<Arrival>): (js: seq<Json>)
    ensures |js| == |entries| && forall k :: 0 <= k < |js| ==> js[k] == entries[k].jti
  {
    seq(|entries|, k requires 0 <= k < |entries| => entries[k].jti)
  }

  /** No entry repeats one of the `capacity` entries before it. */
  ghost predicate Spaced(entries: seq<Arrival>, capacity: nat) {
    forall i, j :: 0 <= i < j < |entries| && j - i <= capacity ==> entries[i].jti != entries[j].jti
  }

  /** Full or not, the store holds the `jti`s of the newest ended sessions, oldest first. */
  ghost predicate Remembers(h: Handler, capacity: nat) {
    h.seen == LastOf(Jtis(h.ended), capacity) && Spaced(h.ended, capacity)
  }

  lemma NotAmongTheLast(entries: seq<Arrival>, capacity: nat, a: Arrival)
    requires Spaced(entries, capacity)
    requires a.jti !in LastOf(Jtis(entries), capacity)
    ensures Spaced(entries + [a], capacity)
  {
    var js := Jtis(entries);
    forall i | 0 <= i < |entries| && |entries| - i <= capacity ensures entries[i].jti != a.jti {
      if |js| > capacity {
        assert LastOf(js, capacity)[i - (|js| - capacity)] == js[i];
      } else {
        assert LastOf(js, capacity)[i] == js[i];
      }
    }
  }

  /** The step keeps the memory exact, for every limit and either store. */
  lemma HandleRemembers(r: Receiver, h: Handler, limit: nat, a: Arrival)
    requires Remembers(h, Capacity(r, limit))
    ensures Remembers(Handle(r, h, limit, a), Capacity(r, limit))
  {
    if a.jti !in h.seen {
      var c := Capacity(r, limit);
      NotAmongTheLast(h.ended, c, a);
      assert Jtis(h.ended + [a]) == Jtis(h.ended) + [a.jti];
      StoresTheNewest(r, Jtis(h.ended), limit, a.jti);
    }
  }

  /** Adding to a list that keeps its newest `limit` elements. */
  lemma LastOfExtended<T>(all: seq<T>, limit: nat, x: T)
    ensures |LastOf(all, limit)| == if |all| > limit then limit else |all|
    ensures LastOf(all + [x], limit) == LastOf(LastOf(all, limit) + [x], limit)
    ensures x !in all ==> x !in LastOf(all, limit)
  {
    if |all| > limit {
      assert (all + [x])[|all| + 1 - limit..] == (all[|all| - limit..] + [x])[1..];
    }
  }

  lemma StoresTheNewest(r: Receiver, all: seq<Json>, limit: nat, jti: Json)
    requires jti !in LastOf(all, Capacity(r, limit))
    ensures Add(r, LastOf(all, Capacity(r, limit)), limit, jti) == LastOf(all + [jti], Capacity(r, limit))
  {
    LastOfExtended(all, Capacity(r, limit), jti);
    if r.TypeScript? {
      TypeScriptAdds(LastOf(all, Capacity(r, limit)), limit, jti);
    }
  }

  lemma TypeScriptAdds(seen: seq<Json>, limit: nat, jti: Json)
    requires |seen| <= Capacity(TypeScript, limit) && jti !in seen
    ensures AddTypeScript(seen, limit, jti) == LastOf(seen + [jti], Capacity(TypeScript, limit))
  {
    if |seen| >= limit && seen != [] {
      assert forall k :: 0 <= k < |seen| - 1 ==> seen[1..][k] == seen[k + 1];
      assert jti !in seen[1..];
      assert (seen + [jti])[1..] == seen[1..] + [jti];
    }
  }

  lemma {:induction false} RunRemembers(r: Receiver, limit: nat, arrivals: seq<Arrival>)
    ensures Remembers(Run(r, limit, arrivals), Capacity(r, limit))
  {
    if arrivals == [] {
    } else {
      RunRemembers(r, limit, arrivals[..|arrivals| - 1]);
      HandleRemembers(r, Run(r, limit, arrivals[..|arrivals| - 1]), limit, arrivals[|arrivals| - 1]);
    }
  }

  /** For every limit of at least one the two stores are the same machine. */
  lemma {:induction false} StoresAgree(limit: nat, arrivals: seq<Arrival>)
    requires limit >= 1
    ensures Run(TypeScript, limit, arrivals) == Run(Python, limit, arrivals)
  {
    if arrivals == [] {
    } else {
      var init, a := arrivals[..|arrivals| - 1], arrivals[|arrivals| - 1];
      StoresAgree(limit, init);
      RunRemembers(Python, limit, init);
      var h := Run(Python, limit, init);
      if a.jti !in h.seen {
        StoresTheNewest(TypeScript, Jtis(h.ended), limit, a.jti);
        StoresTheNewest(Python, Jtis(h.ended), limit, a.jti);
      }
    }
  }

  /** With a limit of zero Python remembers nothing and TypeScript the last one: they part on the first token. */
  lemma StoresPartAtZero(arrivals: seq<Arrival>)
    ensures Run(Python, 0, arrivals).seen == []
    ensures |Run(TypeScript, 0, arrivals).seen| == (if arrivals == [] then 0 else 1)
    ensures Run(TypeScript, 0, arrivals).seen == Run(Python, 0, arrivals).seen <==> arrivals == []
  {
    RunRemembers(Python, 0, arrivals);
    RunRemembers(TypeScript, 0, arrivals);
    SomethingEnds(TypeScript, 0, arrivals);
  }

  lemma {:induction false} SomethingEnds(r: Receiver, limit: nat, arrivals: seq<Arrival>)
    ensures Run(r, limit, arrivals).ended == [] <==> arrivals == []
  {
    if |arrivals| > 1 {
      SomethingEnds(r, limit, arrivals[..|arrivals| - 1]);
    }
  }

  // ---- at most once ----

  /** Arrivals in the order they came, each no older than `maxAge` and none from the future. */
  ghost predicate Timely(arrivals: seq<Arrival>, maxAge: nat) {
    && (forall i, j :: 0 <= i < j < |arrivals| ==> arrivals[i].clock <= arrivals[j].clock)
    && (forall i :: 0 <= i < |arrivals| ==> arrivals[i].iat <= arrivals[i].clock <= arrivals[i].iat + maxAge as real)
  }

  /** A `jti` belongs to one token, so it fixes the `iat`. */
  ghost predicate JtiFixesIat(arrivals: seq<Arrival>) {
    forall i, j :: 0 <= i < |arrivals| && 0 <= j < |arrivals| && arrivals[i].jti == arrivals[j].jti
      ==> arrivals[i].iat == arrivals[j].iat
  }

  /** The distinct `jti`s accepted in the `maxAge` seconds that start at `from`. */
  function AcceptedIn(arrivals: seq<Arrival>, from: real, maxAge: nat): set<Json> {
    set a | a in arrivals && from <= a.clock <= from + maxAge as real :: a.jti
  }

  ghost predicate AtMostOnce(ended: seq<Arrival>) {
    forall i, j :: 0 <= i < j < |ended| ==> ended[i].jti != ended[j].jti
  }

  /** What was ended is a sub-list of what arrived, in order. */
  ghost predicate FromArrivals(ended: seq<Arrival>, arrivals: seq<Arrival>) {
    && (forall k :: 0 <= k < |ended| ==> ended[k] in arrivals)
    && (forall i, j :: 0 <= i < j < |ended| ==> ended[i].clock <= ended[j].clock)
  }

  lemma {:induction false} EndedArrived(r: Receiver, limit: nat, arrivals: seq<Arrival>, maxAge: nat)
    requires Timely(arrivals, maxAge)
    ensures FromArrivals(Run(r, limit, arrivals).ended, arrivals)
  {
    if arrivals == [] {
    } else {
      var init := arrivals[..|arrivals| - 1];
      EndedArrived(r, limit, init, maxAge);
      var was := Run(r, limit, init).ended;
      forall k | 0 <= k < |was| ensures was[k] in arrivals && was[k].clock <= arrivals[|arrivals| - 1].clock {
        var i :| 0 <= i < |init| && init[i] == was[k];
        assert arrivals[i] == was[k];
      }
    }
  }

  /** A window of at most `capacity + 1` entries holds as many different `jti`s as entries. */
  lemma {:induction false} DistinctWindow(entries: seq<Arrival>, capacity: nat, lo: nat, n: nat, ids: set<Json>)
    requires Spaced(entries, capacity) && n <= capacity + 1 && lo + n <= |entries|
    requires forall k :: lo <= k < lo + n ==> entries[k].jti in ids
    ensures |ids| >= n
  {
    if n > 0 {
      DistinctWindow(entries, capacity, lo, n - 1, ids - {entries[lo + n - 1].jti});
    }
  }

  /**
   * Idempotence, with the bound it needs. If no token arrives before its `iat`, a `jti` fixes its
   * `iat`, and no `maxAge` window sees more distinct tokens than the store holds, then over the
   * whole run `endSession` is called at most once per `jti`.
   */
  lemma AtMostOncePerJti(r: Receiver, limit: nat, arrivals: seq<Arrival>, maxAge: nat)
    requires Timely(arrivals, maxAge) && JtiFixesIat(arrivals)
    requires forall from :: |AcceptedIn(arrivals, from, maxAge)| <= Capacity(r, limit)
    ensures AtMostOnce(Run(r, limit, arrivals).ended)
  {
    var ended, c := Run(r, limit, arrivals).ended, Capacity(r, limit);
    RunRemembers(r, limit, arrivals);
    EndedArrived(r, limit, arrivals, maxAge);
    forall i, j | 0 <= i < j < |ended| ensures ended[i].jti != ended[j].jti {
      if ended[i].jti == ended[j].jti {
        assert j - i > c;
        SpanIsShort(ended, arrivals, maxAge, i, j);
        forall k | i <= k < i + c + 1 ensures ended[k].jti in AcceptedIn(arrivals, ended[i].clock, maxAge) {
          assert ended[k] in arrivals;
        }
        DistinctWindow(ended, c, i, c + 1, AcceptedIn(arrivals, ended[i].clock, maxAge));
        assert false;
      }
    }
  }

  /** Two arrivals of one token are within `maxAge` of each other, and so is all between them. */
  lemma SpanIsShort(ended: seq<Arrival>, arrivals: seq<Arrival>, maxAge: nat, i: nat, j: nat)
    requires FromArrivals(ended, arrivals) && Timely(arrivals, maxAge) && JtiFixesIat(arrivals)
    requires i < j < |ended| && ended[i].jti == ended[j].jti
    ensures forall k :: i <= k <= j ==> ended[i].clock <= ended[k].clock <= ended[i].clock + maxAge as real
  {
    assert ended[i] in arrivals && ended[j] in arrivals;
    var x :| 0 <= x < |arrivals| && arrivals[x] == ended[i];
    var y :| 0 <= y < |arrivals| && arrivals[y] == ended[j];
    assert ended[j].clock <= ended[i].clock + maxAge as real;
    forall k | i <= k <= j ensures ended[i].clock <= ended[k].clock <= ended[j].clock {}
  }

  // ---- the bound is tight ----

  /** `n` different tokens, all issued and accepted at second one. */
  function Burst(n: nat): (b: seq<Arrival>)
    ensures |b| == n && forall k :: 0 <= k < n ==> b[k] == Arrival(Integer(k + 1), 1.0, 1.0)
  {
    seq(n, k => Arrival(Integer(k + 1), 1.0, 1.0))
  }

  lemma RunExtended(r: Receiver, limit: nat, arrivals: seq<Arrival>, a: Arrival)
    ensures Run(r, limit, arrivals + [a]) == Handle(r, Run(r, limit, arrivals), limit, a)
  {
    assert (arrivals + [a])[..|arrivals|] == arrivals;
  }

  lemma BurstGrows(n: nat)
    ensures Burst(n + 1) == Burst(n) + [Arrival(Integer(n + 1), 1.0, 1.0)]
    ensures Integer(n + 1) !in Jtis(Burst(n))
  {
  }

  lemma {:induction false} BurstEndsAll(r: Receiver, limit: nat, n: nat, burst: seq<Arrival>)
    requires burst == Burst(n)
    ensures Run(r, limit, burst).ended == burst
  {
    if n == 0 {
    } else {
      var before := Burst(n - 1);
      BurstEndsAll(r, limit, n - 1, before);
      BurstStep(r, limit, n - 1, before);
    }
  }

  lemma BurstStep(r: Receiver, limit: nat, n: nat, before: seq<Arrival>)
    requires before == Burst(n) && Run(r, limit, before).ended == before
    ensures Run(r, limit, Burst(n + 1)).ended == Burst(n + 1)
  {
    RunRemembers(r, limit, before);
    LastOfExtended(Jtis(before), Capacity(r, limit), Integer(n + 1));
    BurstGrows(n);
    RunExtended(r, limit, before, Arrival(Integer(n + 1), 1.0, 1.0));
  }

  /** A full store that took one more has forgotten the first. */
  lemma BurstForgetsFirst(n: nat)
    ensures Integer(1) !in LastOf(Jtis(Burst(n + 1)), n)
  {
    var all := Jtis(Burst(n + 1));
    forall k | 0 <= k < n ensures LastOf(all, n)[k] != Integer(1) {
      assert LastOf(all, n)[k] == all[k + 1];
    }
  }

  lemma FirstEndsAgain(r: Receiver, limit: nat, burst: seq<Arrival>)
    requires burst == Burst(Capacity(r, limit) + 1)
    ensures Run(r, limit, burst + [burst[0]]).ended == burst + [burst[0]]
  {
    BurstEndsAll(r, limit, |burst|, burst);
    BurstForgetsFirst(Capacity(r, limit));
    RunRemembers(r, limit, burst);
    RunExtended(r, limit, burst, burst[0]);
  }

  /** One token more than the store holds, then the first again: all the conditions but the bound, and two calls. */
  lemma OneTooMany(r: Receiver, limit: nat, maxAge: nat) returns (arrivals: seq<Arrival>)
    ensures Timely(arrivals, maxAge) && JtiFixesIat(arrivals)
    ensures forall from :: |AcceptedIn(arrivals, from, maxAge)| <= Capacity(r, limit) + 1
    ensures !AtMostOnce(Run(r, limit, arrivals).ended)
  {
    var n := Capacity(r, limit) + 1;
    var burst := Burst(n);
    arrivals := burst + [burst[0]];
    forall from ensures |AcceptedIn(arrivals, from, maxAge)| <= n {
      BurstIsSmall(n, AcceptedIn(arrivals, from, maxAge));
    }
    FirstEndsAgain(r, limit, burst);
    assert !AtMostOnce(arrivals) by {
      assert arrivals[0].jti == arrivals[n].jti;
    }
  }

  lemma BurstIsSmall(n: nat, ids: set<Json>)
    requires forall j :: j in ids ==> j.Integer? && 1 <= j.n <= n
    ensures |ids| <= n
  {
    if n == 0 {
      assert ids == {};
    } else {
      BurstIsSmall(n - 1, ids - {Integer(n)});
    }
  }
}
