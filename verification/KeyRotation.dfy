/**
 Whole runs of key rotation: a table that calls move forward, a process that signs with what it
 loaded at its last boot, consumers that keep a fetched key set for a while, and a clock.
 Times are milliseconds.
 */
module KeyRotation {
  import opened Common
  import opened SigningKeys

  datatype Token = Token(kid: string, iat: int, exp: int)

  /** A key set as some consumer received it. */
  datatype KeySet = KeySet(at: int, kids: set<string>)

  /** `pending` is the first promotion the running process has not been restarted for. */
  datatype System = System(
    now: int, rows: Table, loaded: Option<seq<string>>, fetches: set<KeySet>, tokens: set<Token>, pending: Option<int>)

  datatype Event =
    | Tick(elapsed: nat)
    | Generate(alg: Alg, kid: string)
    | Promote(alg: Alg, force: bool)
    | RetireKey(which: Option<string>, force: bool)
    | Boot(es: string, rs: string, order: seq<string>)
    | Fetch
    | Sign(alg: Alg, life: nat)

  const Start := System(0, map[], None, {}, {}, None)

  function Minted(es: string, rs: string): Alg -> string {
    (a: Alg) => if a.ES256? then es else rs
  }

  ghost function RowsAfter(rows: Table, effect: Effect): Table {
    if effect.Done? then effect.rows else rows
  }

  /** Mints are new kids, a boot loads its keys in some legal order, and only a running process answers or signs. */
  ghost predicate Enabled(s: System, e: Event) {
    match e
    case Generate(_, kid) => kid !in s.rows
    case Boot(es, rs, order) =>
      FreshKids(s.rows, Minted(es, rs)) && IsLoaded(Bootstrapped(s.rows, Minted(es, rs), s.now), order)
    case Fetch => s.loaded.Some?
    case Sign(_, _) => s.loaded.Some? && (forall k :: k in s.loaded.value ==> k in s.rows)
    case _ => true
  }

  ghost function Step(s: System, e: Event): System
    requires Enabled(s, e)
  {
    match e
    case Tick(elapsed) => s.(now := s.now + elapsed)
    case Generate(alg, kid) => s.(rows := RowsAfter(s.rows, GenerateNext(s.rows, alg, kid, s.now)))
    case Promote(alg, force) =>
      var effect := PromoteNext(s.rows, alg, force, s.now);
      if effect.Refused? then s
      else s.(rows := effect.rows, pending := if s.pending.Some? then s.pending else Some(s.now))
    case RetireKey(kid, force) => s.(rows := RowsAfter(s.rows, Retire(s.rows, kid, force, s.now)))
    case Boot(es, rs, order) =>
      s.(rows := Bootstrapped(s.rows, Minted(es, rs), s.now), loaded := Some(order), pending := None)
    case Fetch => s.(fetches := s.fetches + {KeySet(s.now, Published(s.rows))})
    case Sign(alg, life) =>
      match Signer(s.rows, s.loaded.value, alg)
      case None => s
      case Some(kid) => s.(tokens := s.tokens + {Token(kid, s.now, s.now + life)})
  }

  // ---------------------------------------------------------------- runs

  ghost predicate Legal(es: seq<Event>)
    decreases |es|, 0
  {
    es == [] || (Legal(es[..|es| - 1]) && Enabled(After(es[..|es| - 1]), es[|es| - 1]))
  }

  ghost function After(es: seq<Event>): System
    requires Legal(es)
    decreases |es|, 1
  {
    if es == [] then Start else Step(After(es[..|es| - 1]), es[|es| - 1])
  }

  lemma Extend(es: seq<Event>, e: Event)
    requires Legal(es) && Enabled(After(es), e)
    ensures Legal(es + [e]) && After(es + [e]) == Step(After(es), e)
  {
    assert (es + [e])[..|es|] == es;
  }

  ghost predicate Sane(s: System) {
    && Wf(s.rows)
    && (s.loaded.Some? ==> HasCurrent(s.rows) && forall k :: k in s.loaded.value ==> k in s.rows)
  }

  lemma StepIsSane(s: System, e: Event)
    requires Sane(s) && Enabled(s, e)
    ensures var t := Step(s, e); Sane(t) && Forward(s.rows, t.rows) && s.now <= t.now
    ensures e.Boot? ==> HasCurrent(Step(s, e).rows)
  {
    match e
    case Generate(alg, kid) => GenerateKeeps(s.rows, alg, kid, s.now);
    case Promote(alg, force) =>
      if PromoteNext(s.rows, alg, force, s.now).Done? { PromoteKeeps(s.rows, alg, force, s.now); }
    case RetireKey(kid, force) => if Retire(s.rows, kid, force, s.now).Done? { RetireKeeps(s.rows, kid, force, s.now); }
    case Boot(es, rs, order) => BootstrapKeeps(s.rows, Minted(es, rs), s.now);
    case _ =>
  }

  /** Every reachable state: at most one next and one current key per algorithm, exactly one current once booted. */
  lemma {:induction false} ReachableIsSane(es: seq<Event>)
    requires Legal(es)
    ensures Sane(After(es))
  {
    if es != [] {
      ReachableIsSane(es[..|es| - 1]);
      StepIsSane(After(es[..|es| - 1]), es[|es| - 1]);
    }
  }

  /** Over any run, forced steps included, keys stay in the table and statuses only move forward. */
  lemma {:induction false} RunsMoveForward(es: seq<Event>, n: nat)
    requires n <= |es| && Legal(es)
    ensures Legal(es[..n]) && Forward(After(es[..n]).rows, After(es).rows)
    decreases |es|
  {
    if n == |es| {
      assert es[..n] == es;
    } else {
      var front := es[..|es| - 1];
      assert front[..n] == es[..n];
      RunsMoveForward(front, n);
      ReachableIsSane(front);
      StepIsSane(After(front), es[|es| - 1]);
    }
  }

  // ---------------------------------------------------------------- the timed theorem

  ghost predicate Unforced(e: Event) {
    (e.Promote? ==> !e.force) && (e.RetireKey? ==> !e.force)
  }

  /** No later than `delay` after a promotion the process has been restarted. */
  ghost predicate Within(s: System, delay: int) {
    s.pending.Some? ==> s.now <= s.pending.value + delay
  }

  /** Unforced, tokens live at most `life`, and every promotion is followed by a boot within `delay`. */
  ghost predicate Disciplined(es: seq<Event>, life: nat, delay: nat)
    requires Legal(es)
  {
    && Within(After(es), delay)
    && (es != [] ==>
        var e := es[|es| - 1];
        Unforced(e) && (e.Sign? ==> e.life <= life) && Disciplined(es[..|es| - 1], life, delay))
  }

  predicate Alive(t: Token, v: int) { t.iat <= v < t.exp }

  /** A cached response is fresh while its age is below its lifetime. */
  predicate FreshAt(f: KeySet, v: int, cache: int) { f.at <= v < f.at + cache }

  /** A live token verifies against every key set a consumer may still be using. */
  ghost predicate Verifiable(s: System, cache: int) {
    forall t, f, v :: t in s.tokens && f in s.fetches && Alive(t, v) && FreshAt(f, v, cache) ==> t.kid in f.kids
  }

  /** Every published key is in each set fetched after it was made; what may sign has been there a full overlap. */
  ghost predicate Announced(s: System) {
    forall k, f :: k in s.rows && s.rows[k].status != Retired && f in s.fetches ==>
      || k in f.kids
      || if s.rows[k].status == Next then f.at <= s.rows[k].createdAt else f.at + MINIMUM_OVERLAP_MS <= s.now
  }

  ghost predicate TokenSafe(s: System, t: Token, life: int) {
    && t.kid in s.rows && s.rows[t.kid].status != Next && t.iat <= s.now && t.exp <= t.iat + life
    && (s.rows[t.kid].status == Retiring ==>
          s.rows[t.kid].retireAfter.Some? && t.exp <= s.rows[t.kid].retireAfter.value)
    && (s.rows[t.kid].status == Retired ==> t.exp <= s.now)
    && forall f :: f in s.fetches ==> t.kid in f.kids || f.at + MINIMUM_OVERLAP_MS <= t.iat || t.exp <= f.at
  }

  /** The key the process signs with is current, or went out of office no earlier than the pending promotion. */
  ghost predicate SignerSafe(s: System, k: string) {
    && k in s.rows && s.rows[k].status != Next
    && (s.rows[k].status != Current ==> s.pending.Some?)
    && (s.rows[k].status == Retiring ==>
          s.rows[k].retireAfter.Some? && s.pending.value + MINIMUM_OVERLAP_MS <= s.rows[k].retireAfter.value)
    && (s.rows[k].status == Retired ==> s.pending.value + MINIMUM_OVERLAP_MS <= s.now)
  }

  ghost predicate SignsSafely(s: System, alg: Alg)
    requires s.loaded.Some? && forall k :: k in s.loaded.value ==> k in s.rows
  {
    var k := Signer(s.rows, s.loaded.value, alg);
    k.Some? && SignerSafe(s, k.value)
  }

  ghost predicate Inv(s: System, life: int) {
    && Sane(s)
    && (s.loaded.None? ==> s.fetches == {} && s.tokens == {})
    && (forall f :: f in s.fetches ==> f.at <= s.now)
    && (s.pending.Some? ==> s.pending.value <= s.now)
    && Announced(s)
    && (forall t :: t in s.tokens ==> TokenSafe(s, t, life))
    && (s.loaded.Some? ==> forall a: Alg :: SignsSafely(s, a))
  }

  /** Which key signs depends on the rows only through their algorithms, which never change. */
  lemma {:induction false} SignerIsStable(before: Table, after: Table, loaded: seq<string>, alg: Alg)
    requires forall k :: k in loaded ==> k in before && k in after && before[k].alg == after[k].alg
    ensures Signer(before, loaded, alg) == Signer(after, loaded, alg)
  {
    if loaded != [] && before[loaded[0]].alg != alg {
      assert forall k :: k in loaded[1..] ==> k in loaded;
      SignerIsStable(before, after, loaded[1..], alg);
    }
  }

  lemma GenerateInv(s: System, e: Event, life: nat)
    requires Inv(s, life) && Enabled(s, e) && e.Generate?
    ensures Inv(Step(s, e), life)
  {
    StepIsSane(s, e);
    var t := Step(s, e);
    if s.loaded.Some? {
      forall a: Alg ensures SignsSafely(t, a) {
        SignerIsStable(s.rows, t.rows, s.loaded.value, a);
        assert SignsSafely(s, a);
      }
    }
    assert forall x :: x in s.tokens ==> TokenSafe(s, x, life);
  }

  lemma PromoteInv(s: System, e: Event, life: nat)
    requires Inv(s, life) && Enabled(s, e) && e.Promote? && !e.force && life <= MINIMUM_OVERLAP_MS
    ensures Inv(Step(s, e), life)
  {
    StepIsSane(s, e);
    if PromoteNext(s.rows, e.alg, false, s.now).Done? {
      PromoteMoves(s.rows, e.alg, false, s.now);
      PromoteKeepsTokens(s, e, life);
      if s.loaded.Some? {
        forall a: Alg ensures SignsSafely(Step(s, e), a) {
          SignerIsStable(s.rows, Step(s, e).rows, s.loaded.value, a);
          assert SignsSafely(s, a);
        }
      }
    }
  }

  lemma PromoteKeepsTokens(s: System, e: Event, life: nat)
    requires Inv(s, life) && Enabled(s, e) && e.Promote? && !e.force && life <= MINIMUM_OVERLAP_MS
    requires PromoteNext(s.rows, e.alg, false, s.now).Done?
    ensures Announced(Step(s, e)) && forall x :: x in Step(s, e).tokens ==> TokenSafe(Step(s, e), x, life)
  {
    PromoteMoves(s.rows, e.alg, false, s.now);
    var t := Step(s, e);
    assert t.rows == map k | k in s.rows :: PromotedRow(s.rows[k], e.alg, s.now);
    var next := FindFirst(s.rows, e.alg, Next).value;
    assert AtMostOne(s.rows, e.alg, Next);
    assert forall k :: Matches(s.rows, k, e.alg, Next) ==> k == next;
    forall x | x in t.tokens ensures TokenSafe(t, x, life) { assert TokenSafe(s, x, life); }
  }

  lemma RetireInv(s: System, e: Event, life: nat)
    requires Inv(s, life) && Enabled(s, e) && e.RetireKey? && !e.force
    ensures Inv(Step(s, e), life)
  {
    StepIsSane(s, e);
    var t := Step(s, e);
    forall x | x in t.tokens ensures TokenSafe(t, x, life) { assert TokenSafe(s, x, life); }
    if s.loaded.Some? {
      forall a: Alg ensures SignsSafely(t, a) {
        SignerIsStable(s.rows, t.rows, s.loaded.value, a);
        assert SignsSafely(s, a);
      }
    }
  }

  lemma BootInv(s: System, e: Event, life: nat)
    requires Inv(s, life) && Enabled(s, e) && e.Boot?
    ensures Inv(Step(s, e), life)
  {
    StepIsSane(s, e);
    BootstrapKeeps(s.rows, Minted(e.es, e.rs), s.now);
    var t := Step(s, e);
    assert s.loaded.Some? ==> t.rows == s.rows;
    forall x | x in t.tokens ensures TokenSafe(t, x, life) { assert TokenSafe(s, x, life); }
    forall a: Alg ensures SignsSafely(t, a) {
      SignsWithCurrent(t.rows, e.order, a);
    }
  }

  lemma FetchInv(s: System, e: Event, life: nat)
    requires Inv(s, life) && Enabled(s, e) && e.Fetch?
    ensures Inv(Step(s, e), life)
  {
    var t := Step(s, e);
    forall x | x in t.tokens ensures TokenSafe(t, x, life) { assert TokenSafe(s, x, life); }
    forall a: Alg ensures SignsSafely(t, a) {
      assert SignsSafely(s, a);
    }
  }

  lemma SignInv(s: System, e: Event, life: nat, delay: nat)
    requires Inv(s, life) && Enabled(s, e) && e.Sign? && e.life <= life
    requires Within(s, delay) && delay < MINIMUM_OVERLAP_MS && delay + life <= MINIMUM_OVERLAP_MS
    ensures Inv(Step(s, e), life)
  {
    var t := Step(s, e);
    assert SignsSafely(s, e.alg);
    forall x | x in t.tokens ensures TokenSafe(t, x, life) {
      if x in s.tokens { assert TokenSafe(s, x, life); }
    }
    forall a: Alg ensures SignsSafely(t, a) {
      assert SignsSafely(s, a);
    }
  }

  lemma TickInv(s: System, e: Event, life: nat)
    requires Inv(s, life) && Enabled(s, e) && e.Tick?
    ensures Inv(Step(s, e), life)
  {
    var t := Step(s, e);
    forall x | x in t.tokens ensures TokenSafe(t, x, life) { assert TokenSafe(s, x, life); }
    if s.loaded.Some? {
      forall a: Alg ensures SignsSafely(t, a) {
        assert SignsSafely(s, a);
      }
    }
  }

  lemma {:induction false} DisciplineKeepsInv(es: seq<Event>, life: nat, delay: nat)
    requires Legal(es) && Disciplined(es, life, delay)
    requires life >= 1 && delay + life <= MINIMUM_OVERLAP_MS
    ensures Inv(After(es), life)
  {
    if es != [] {
      var front, e := es[..|es| - 1], es[|es| - 1];
      DisciplineKeepsInv(front, life, delay);
      var s := After(front);
      match e
      case Tick(_) => TickInv(s, e, life);
      case Generate(_, _) => GenerateInv(s, e, life);
      case Promote(_, _) => PromoteInv(s, e, life);
      case RetireKey(_, _) => RetireInv(s, e, life);
      case Boot(_, _, _) => BootInv(s, e, life);
      case Fetch => FetchInv(s, e, life);
      case Sign(_, _) => SignInv(s, e, life, delay);
    }
  }

  /** The overlap is long enough when it covers the cache, and the restart delay plus a token's life. */
  lemma OverlapSuffices(es: seq<Event>, cache: nat, life: nat, delay: nat)
    requires Legal(es) && Disciplined(es, life, delay)
    requires life >= 1 && delay + life <= MINIMUM_OVERLAP_MS && cache <= MINIMUM_OVERLAP_MS
    ensures Verifiable(After(es), cache)
  {
    DisciplineKeepsInv(es, life, delay);
    var s := After(es);
    forall t, f, v | t in s.tokens && f in s.fetches && Alive(t, v) && FreshAt(f, v, cache) ensures t.kid in f.kids {
      assert TokenSafe(s, t, life);
    }
  }

  // ---------------------------------------------------------------- and no shorter overlap would do

  ghost predicate Steady(es: seq<Event>, life: nat, delay: nat) {
    Legal(es) && Disciplined(es, life, delay)
  }

  lemma ExtendSteady(es: seq<Event>, e: Event, life: nat, delay: nat)
    requires Steady(es, life, delay) && Enabled(After(es), e)
    requires Unforced(e) && (e.Sign? ==> e.life <= life) && Within(Step(After(es), e), delay)
    ensures Steady(es + [e], life, delay) && After(es + [e]) == Step(After(es), e)
  {
    Extend(es, e);
    assert (es + [e])[..|es|] == es;
  }

  lemma Finds(rows: Table, kid: string, alg: Alg, status: Status)
    requires Matches(rows, kid, alg, status) && forall k :: Matches(rows, k, alg, status) ==> k == kid
    ensures FindFirst(rows, alg, status) == Some(kid)
  {
  }

  const O: nat := MINIMUM_OVERLAP_MS

  const Booted: Table := map["a" := KeyRow(ES256, Current, 0, None), "b" := KeyRow(RS256, Current, 0, None)]

  const Waiting: Table := Booted["c" := KeyRow(ES256, Next, 0, None)]

  const Rotated: Table := map[
    "a" := KeyRow(ES256, Retiring, 0, Some(O + O)), "b" := KeyRow(RS256, Current, 0, None),
      "c" := KeyRow(ES256, Current, 0, None)]

  lemma FirstBoot(life: nat, delay: nat) returns (es: seq<Event>)
    ensures Steady(es, life, delay) && After(es) == System(0, Booted, Some(["a", "b"]), {}, {}, None)
  {
    var boot := Boot("a", "b", ["a", "b"]);
    var one := Ensured(map[], ES256, "a", 0);
    assert one == map["a" := KeyRow(ES256, Current, 0, None)];
    assert Ensured(one, RS256, "b", 0) == Booted;
    ExtendSteady([], boot, life, delay);
    es := [] + [boot];
  }

  /** Waiting for a promotion, `O` milliseconds after the new key was generated. */
  lemma ReadyRun(es0: seq<Event>, life: nat, delay: nat) returns (es: seq<Event>)
    requires Steady(es0, life, delay) && After(es0).rows == Booted && After(es0).now == 0 && After(es0).pending == None
    ensures Steady(es, life, delay) && After(es) == After(es0).(rows := Waiting, now := O)
  {
    assert FindFirst(Booted, ES256, Next).None?;
    ExtendSteady(es0, Generate(ES256, "c"), life, delay);
    es := es0 + [Generate(ES256, "c")];
    ExtendSteady(es, Tick(O), life, delay);
    es := es + [Tick(O)];
  }

  lemma PromotedRun(es0: seq<Event>, life: nat, delay: nat) returns (es: seq<Event>)
    requires Steady(es0, life, delay) && After(es0).rows == Waiting && After(es0).now == O && After(es0).pending == None
    ensures Steady(es, life, delay) && After(es) == After(es0).(rows := Rotated, pending := Some(O))
  {
    Finds(Waiting, "c", ES256, Next);
    Finds(Waiting, "a", ES256, Current);
    assert PromoteNext(Waiting, ES256, false, O) == Done(Rotated);
    ExtendSteady(es0, Promote(ES256, false), life, delay);
    es := es0 + [Promote(ES256, false)];
  }

  lemma RebootRun(es0: seq<Event>, life: nat, delay: nat) returns (es: seq<Event>)
    requires Steady(es0, life, delay) && After(es0).rows == Rotated
    ensures Steady(es, life, delay) && After(es) == After(es0).(loaded := Some(["c", "b", "a"]), pending := None)
  {
    var boot := Boot("d", "e", ["c", "b", "a"]);
    Finds(Rotated, "c", ES256, Current);
    Finds(Rotated, "b", RS256, Current);
    assert Bootstrapped(Rotated, Minted("d", "e"), After(es0).now) == Rotated;
    ExtendSteady(es0, boot, life, delay);
    es := es0 + [boot];
  }

  lemma SignRun(es0: seq<Event>, kid: string, life: nat, delay: nat, long: nat) returns (es: seq<Event>)
    requires Steady(es0, life, delay) && long <= life && After(es0).loaded.Some?
    requires var s := After(es0);
      (forall k :: k in s.loaded.value ==> k in s.rows) && Signer(s.rows, s.loaded.value, ES256) == Some(kid)
    ensures var s := After(es0);
      Steady(es, life, delay) && After(es) == s.(tokens := s.tokens + {Token(kid, s.now, s.now + long)})
  {
    ExtendSteady(es0, Sign(ES256, long), life, delay);
    es := es0 + [Sign(ES256, long)];
  }

  /** A consumer cache longer than the overlap meets a token signed by a key it has never seen. */
  lemma LongCacheFails(cache: nat, life: nat, delay: nat) returns (es: seq<Event>)
    requires cache > O && life >= 1
    ensures Steady(es, life, delay) && !Verifiable(After(es), cache)
  {
    es := FirstBoot(life, delay);
    ExtendSteady(es, Fetch, life, delay);
    es := es + [Fetch];
    assert Published(Booted) == {"a", "b"};
    es := ReadyRun(es, life, delay);
    es := PromotedRun(es, life, delay);
    es := RebootRun(es, life, delay);
    es := SignRun(es, "c", life, delay, 1);
    var t, f := Token("c", O, O + 1), KeySet(0, {"a", "b"});
    assert t in After(es).tokens && f in After(es).fetches && Alive(t, O) && FreshAt(f, O, cache);
  }

  /** The old key signs once more, `m` after its demotion, and only then is the process restarted. */
  lemma LateSigningRun(life: nat, delay: nat, m: nat) returns (es: seq<Event>)
    requires m <= delay && m <= O
    ensures Steady(es, life, delay)
    ensures After(es) == System(O + m, Rotated, Some(["c", "b", "a"]), {}, {Token("a", O + m, O + m + life)}, None)
  {
    es := FirstBoot(life, delay);
    es := ReadyRun(es, life, delay);
    es := PromotedRun(es, life, delay);
    ExtendSteady(es, Tick(m), life, delay);
    es := es + [Tick(m)];
    es := SignRun(es, "a", life, delay, life);
    es := RebootRun(es, life, delay);
  }

  /** A process restarted too late signs with a key that is gone while its token still lives. */
  lemma LateRestartFails(cache: nat, life: nat, delay: nat) returns (es: seq<Event>)
    requires cache >= 1 && life >= 1 && delay + life > O
    ensures Steady(es, life, delay) && !Verifiable(After(es), cache)
  {
    var m := if delay <= O then delay else O;
    es := LateSigningRun(life, delay, m);
    ExtendSteady(es, Tick(O - m), life, delay);
    es := es + [Tick(O - m)];
    assert "a" in Due(Rotated, None, false, O + O);
    ExtendSteady(es, RetireKey(None, false), life, delay);
    es := es + [RetireKey(None, false)];
    ExtendSteady(es, Fetch, life, delay);
    var t, f := Token("a", O + m, O + m + life), KeySet(O + O, Published(After(es).rows));
    assert "a" !in f.kids;
    es := es + [Fetch];
    assert t in After(es).tokens && f in After(es).fetches && Alive(t, O + O) && FreshAt(f, O + O, cache);
  }

  /**
   Every disciplined run is safe exactly when the overlap covers the cache, and covers the restart
   delay together with a token's life.
   */
  lemma OverlapIsExactlyEnough(cache: nat, life: nat, delay: nat)
    requires cache >= 1 && life >= 1
    ensures (forall es :: Steady(es, life, delay) ==> Verifiable(After(es), cache))
      <==> (cache <= MINIMUM_OVERLAP_MS && delay + life <= MINIMUM_OVERLAP_MS)
  {
    if cache <= O && delay + life <= O {
      forall es | Steady(es, life, delay) ensures Verifiable(After(es), cache) {
        OverlapSuffices(es, cache, life, delay);
      }
    } else if cache > O {
      var es := LongCacheFails(cache, life, delay);
    } else {
      var es := LateRestartFails(cache, life, delay);
    }
  }

  const HOUR: nat := 60 * 60 * 1000

  /** With the hour the key set may be cached and hour-long tokens, the process has exactly an hour to restart. */
  lemma RestartWithinTheHour(delay: nat)
    ensures (forall es :: Steady(es, HOUR, delay) ==> Verifiable(After(es), HOUR)) <==> delay <= HOUR
  {
    OverlapIsExactlyEnough(HOUR, HOUR, delay);
  }

  // ---------------------------------------------------------------- restart required

  /** For some algorithm the process signs with a key other than the current one. */
  ghost predicate SignsStale(s: System)
    requires s.loaded.Some? && forall k :: k in s.loaded.value ==> k in s.rows
  {
    exists a: Alg :: Signer(s.rows, s.loaded.value, a) != FindFirst(s.rows, a, Current)
  }

  /** The console never asks for a restart without need. */
  lemma RestartRequiredIsTrue(es: seq<Event>)
    requires Legal(es) && After(es).loaded.Some?
    ensures Sane(After(es))
    ensures RestartRequired(After(es).rows, After(es).loaded.value) ==> SignsStale(After(es))
  {
    ReachableIsSane(es);
    var s := After(es);
    if RestartRequired(s.rows, s.loaded.value) {
      var k :| k in s.rows && s.rows[k].status == Current && k !in s.loaded.value;
      assert AtMostOne(s.rows, s.rows[k].alg, Current) && Matches(s.rows, k, s.rows[k].alg, Current);
      assert Signer(s.rows, s.loaded.value, s.rows[k].alg) != FindFirst(s.rows, s.rows[k].alg, Current);
    }
  }

  ghost predicate NoNext(rows: Table) { forall k :: k in rows ==> rows[k].status != Next }

  /** No boot falls between a key's generation and its promotion. */
  ghost predicate BootsWithoutNext(es: seq<Event>)
    requires Legal(es)
  {
    es != [] ==>
      var front := es[..|es| - 1];
      (es[|es| - 1].Boot? ==> NoNext(After(front).rows)) && BootsWithoutNext(front)
  }

  /** A loaded key that is current is the one signing, and no loaded key is still waiting. */
  ghost predicate LoadedInOffice(s: System)
    requires Sane(s)
  {
    s.loaded.Some? ==> forall k :: k in s.loaded.value ==>
      && s.rows[k].status != Next
      && (s.rows[k].status == Current ==> Signer(s.rows, s.loaded.value, s.rows[k].alg) == Some(k))
  }

  lemma StaysInOffice(s: System, e: Event)
    requires Sane(s) && Enabled(s, e) && LoadedInOffice(s) && (e.Boot? ==> NoNext(s.rows))
    ensures Sane(Step(s, e)) && LoadedInOffice(Step(s, e))
  {
    StepIsSane(s, e);
    var t := Step(s, e);
    match e
    case Boot(es, rs, order) =>
      BootstrapKeeps(s.rows, Minted(es, rs), s.now);
      forall k | k in order
        ensures t.rows[k].status != Next
        ensures t.rows[k].status == Current ==> Signer(t.rows, order, t.rows[k].alg) == Some(k)
      {
        SignsWithCurrent(t.rows, order, t.rows[k].alg);
        assert AtMostOne(t.rows, t.rows[k].alg, Current);
        assert t.rows[k].status == Current ==> Matches(t.rows, k, t.rows[k].alg, Current);
      }
    case Promote(alg, force) =>
      if t.rows != s.rows {
        PromoteMoves(s.rows, alg, force, s.now);
        if s.loaded.Some? {
          forall k | k in s.loaded.value { SignerIsStable(s.rows, t.rows, s.loaded.value, s.rows[k].alg); }
        }
      }
    case Generate(_, _) =>
      if s.loaded.Some? {
        forall k | k in s.loaded.value { SignerIsStable(s.rows, t.rows, s.loaded.value, s.rows[k].alg); }
      }
    case RetireKey(_, _) =>
      if s.loaded.Some? {
        forall k | k in s.loaded.value { SignerIsStable(s.rows, t.rows, s.loaded.value, s.rows[k].alg); }
      }
    case _ =>
  }

  lemma {:induction false} ReachablyInOffice(es: seq<Event>)
    requires Legal(es) && BootsWithoutNext(es)
    ensures Sane(After(es)) && LoadedInOffice(After(es))
  {
    if es != [] {
      ReachablyInOffice(es[..|es| - 1]);
      StaysInOffice(After(es[..|es| - 1]), es[|es| - 1]);
    }
  }

  /** Without a boot between generation and promotion, the console asks for a restart exactly when one is due. */
  lemma RestartRequiredIsComplete(es: seq<Event>)
    requires Legal(es) && After(es).loaded.Some? && BootsWithoutNext(es)
    ensures Sane(After(es))
    ensures RestartRequired(After(es).rows, After(es).loaded.value) <==> SignsStale(After(es))
  {
    RestartRequiredIsTrue(es);
    ReachablyInOffice(es);
    var s := After(es);
    if SignsStale(s) {
      var a: Alg :| Signer(s.rows, s.loaded.value, a) != FindFirst(s.rows, a, Current);
      var k := FindFirst(s.rows, a, Current).value;
      assert k !in s.loaded.value;
    }
  }

  ghost predicate BootFree(es: seq<Event>) { forall i :: 0 <= i < |es| ==> !es[i].Boot? }

  /** What a boot-free stretch leaves alone: the loaded list, and the rows' identities and order of statuses. */
  lemma {:induction false} BootFreeKeepsLoaded(es: seq<Event>, more: seq<Event>)
    requires Legal(es + more) && BootFree(more)
    ensures Legal(es) && After(es + more).loaded == After(es).loaded && Forward(After(es).rows, After(es + more).rows)
    decreases |more|
  {
    if more == [] {
      assert es + more == es;
    } else {
      var front := more[..|more| - 1];
      assert (es + more)[..|es + more| - 1] == es + front;
      BootFreeKeepsLoaded(es, front);
      ReachableIsSane(es + front);
      StepIsSane(After(es + front), more[|more| - 1]);
    }
  }

  /**
   After any boot, a stale signature goes unreported exactly when the key now current was
   already waiting as `next` when the process booted, because a boot loads `next` keys too.
   */
  lemma UnreportedExactlyWhenPreloaded(es: seq<Event>, boot: Event, more: seq<Event>, alg: Alg)
    requires boot.Boot? && Legal(es + [boot] + more) && BootFree(more)
    ensures Legal(es + [boot]) && Sane(After(es + [boot])) && Sane(After(es + [boot] + more))
      && After(es + [boot] + more).loaded.Some?
    ensures var atBoot, s := After(es + [boot]), After(es + [boot] + more);
      var k := FindFirst(s.rows, alg, Current).value;
      (Signer(s.rows, s.loaded.value, alg) != Some(k) && k in s.loaded.value)
      <==> (k in atBoot.rows && atBoot.rows[k].status == Next)
  {
    BootFreeKeepsLoaded(es + [boot], more);
    ReachableIsSane(es + [boot]);
    ReachableIsSane(es + [boot] + more);
    assert (es + [boot])[..|es|] == es;
    var atBoot, s := After(es + [boot]), After(es + [boot] + more);
    var loaded := s.loaded.value;
    assert IsLoaded(atBoot.rows, loaded);
    SignsWithCurrent(atBoot.rows, loaded, alg);
    SignerIsStable(atBoot.rows, s.rows, loaded, alg);
    var k := FindFirst(s.rows, alg, Current).value;
    if k in atBoot.rows && atBoot.rows[k].status == Current {
      assert AtMostOne(atBoot.rows, alg, Current) && Matches(atBoot.rows, k, alg, Current);
    }
  }

  lemma PreloadingBoot() returns (es: seq<Event>)
    ensures Steady(es, 0, 0) && After(es) == System(O, Waiting, Some(["a", "b", "c"]), {}, {}, None)
  {
    es := FirstBoot(0, 0);
    es := ReadyRun(es, 0, 0);
    var boot := Boot("d", "e", ["a", "b", "c"]);
    Finds(Waiting, "a", ES256, Current);
    Finds(Waiting, "b", RS256, Current);
    assert Bootstrapped(Waiting, Minted("d", "e"), O) == Waiting;
    ExtendSteady(es, boot, 0, 0);
    es := es + [boot];
  }

  /** Such a boot does hide a stale signature: generate, restart, promote. */
  lemma PreloadedRun() returns (es: seq<Event>)
    ensures Legal(es) && Sane(After(es)) && After(es).loaded.Some?
    ensures SignsStale(After(es)) && !RestartRequired(After(es).rows, After(es).loaded.value)
  {
    es := PreloadingBoot();
    es := PromotedRun(es, 0, 0);
    ReachableIsSane(es);
    Finds(Rotated, "c", ES256, Current);
    assert Signer(Rotated, ["a", "b", "c"], ES256) == Some("a");
  }
}
