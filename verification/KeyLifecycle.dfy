/**
 One key from generation to retirement, in runs where anything else may happen in between. Each
 theorem says exactly when the next step takes effect.
 */
module KeyLifecycle {
  import opened Common
  import opened SigningKeys
  import opened KeyRotation

  /** Nothing here promotes this algorithm; the other one may do as it likes, and processes may boot. */
  ghost predicate Unpromoted(more: seq<Event>, alg: Alg) {
    forall i :: 0 <= i < |more| ==> !(more[i].Promote? && more[i].alg == alg)
  }

  lemma WaitStays(s: System, e: Event, kid: string)
    requires Sane(s) && Enabled(s, e) && kid in s.rows && s.rows[kid].status == Next
    requires !(e.Promote? && e.alg == s.rows[kid].alg)
    ensures kid in Step(s, e).rows && Step(s, e).rows[kid] == s.rows[kid]
  {
    match e
    case Generate(alg, made) => GenerateExactly(s.rows, alg, made, s.now);
    case Promote(alg, force) =>
      if PromoteNext(s.rows, alg, force, s.now).Done? { PromoteMoves(s.rows, alg, force, s.now); }
    case RetireKey(which, force) => RetireExactly(s.rows, which, force, s.now);
    case Boot(es, rs, _) => BootstrapKeeps(s.rows, Minted(es, rs), s.now);
    case _ =>
  }

  /** A waiting key stays exactly as it is until its own algorithm is promoted. */
  lemma {:induction false} WaitsUnchanged(es: seq<Event>, more: seq<Event>, kid: string)
    requires Legal(es + more) && Legal(es)
    requires kid in After(es).rows && After(es).rows[kid].status == Next
    requires Unpromoted(more, After(es).rows[kid].alg)
    ensures kid in After(es + more).rows && After(es + more).rows[kid] == After(es).rows[kid]
    decreases |more|
  {
    if more == [] {
      assert es + more == es;
    } else {
      var front := more[..|more| - 1];
      assert (es + more)[..|es + more| - 1] == es + front;
      WaitsUnchanged(es, front, kid);
      ReachableIsSane(es + front);
      WaitStays(After(es + front), more[|more| - 1], kid);
    }
  }

  lemma PromotesExactly(es: seq<Event>, alg: Alg, force: bool, kid: string)
    requires Legal(es) && Matches(After(es).rows, kid, alg, Next)
    ensures Legal(es + [Promote(alg, force)])
    ensures FindFirst(After(es + [Promote(alg, force)]).rows, alg, Current) == Some(kid)
      <==> force || After(es).rows[kid].createdAt + MINIMUM_OVERLAP_MS <= After(es).now
  {
    var s := After(es);
    ReachableIsSane(es);
    Extend(es, Promote(alg, force));
    PromoteExactly(s.rows, alg, force, s.now);
    assert AtMostOne(s.rows, alg, Next);
    if PromoteNext(s.rows, alg, force, s.now).Done? {
      PromoteMoves(s.rows, alg, force, s.now);
      PromoteKeeps(s.rows, alg, force, s.now);
      var t := After(es + [Promote(alg, force)]);
      assert Matches(t.rows, kid, alg, Current) && AtMostOne(t.rows, alg, Current);
    }
  }

  /**
   A key generated while none of its algorithm waits becomes the current key at that algorithm's next
   promotion, exactly when that is forced or the overlap is over; whatever happens to the other
   algorithm meanwhile, a key of it waiting at the same time included.
   */
  lemma WaitingKeyComesIntoOffice(es: seq<Event>, alg: Alg, kid: string, more: seq<Event>, force: bool)
    requires Legal(es) && forall k :: !Matches(After(es).rows, k, alg, Next)
    requires Legal(es + [Generate(alg, kid)] + more) && Unpromoted(more, alg)
    ensures Legal(es + [Generate(alg, kid)] + more + [Promote(alg, force)])
    ensures var before, after :=
        After(es + [Generate(alg, kid)] + more), After(es + [Generate(alg, kid)] + more + [Promote(alg, force)]);
      FindFirst(after.rows, alg, Current) == Some(kid) <==> force || After(es).now + MINIMUM_OVERLAP_MS <= before.now
  {
    var made := es + [Generate(alg, kid)];
    LegalFront(made, more);
    assert made[..|es|] == es;
    GenerateExactly(After(es).rows, alg, kid, After(es).now);
    assert After(made).rows[kid] == KeyRow(alg, Next, After(es).now, None);
    WaitsUnchanged(made, more, kid);
    PromotesExactly(made + more, alg, force, kid);
  }

  lemma {:induction false} LegalFront(es: seq<Event>, more: seq<Event>)
    requires Legal(es + more)
    ensures Legal(es)
    decreases |more|
  {
    if more == [] {
      assert es + more == es;
    } else {
      assert (es + more)[..|es + more| - 1] == es + more[..|more| - 1];
      LegalFront(es, more[..|more| - 1]);
    }
  }

  /** Nothing here asks for the retirement of this key. */
  ghost predicate Unretired(more: seq<Event>, kid: string) {
    forall i :: 0 <= i < |more| ==> !(more[i].RetireKey? && more[i].which in {None, Some(kid)})
  }

  lemma RetiringStays(s: System, e: Event, kid: string)
    requires Sane(s) && Enabled(s, e) && kid in s.rows && s.rows[kid].status == Retiring
    requires !(e.RetireKey? && e.which in {None, Some(kid)})
    ensures kid in Step(s, e).rows && Step(s, e).rows[kid] == s.rows[kid]
  {
    match e
    case Generate(alg, made) => GenerateExactly(s.rows, alg, made, s.now);
    case Promote(alg, force) =>
      if PromoteNext(s.rows, alg, force, s.now).Done? { PromoteMoves(s.rows, alg, force, s.now); }
    case RetireKey(which, force) => RetireExactly(s.rows, which, force, s.now);
    case Boot(es, rs, _) => BootstrapKeeps(s.rows, Minted(es, rs), s.now);
    case _ =>
  }

  lemma {:induction false} RetiringUnchanged(es: seq<Event>, more: seq<Event>, kid: string)
    requires Legal(es + more) && Legal(es) && Unretired(more, kid)
    requires kid in After(es).rows && After(es).rows[kid].status == Retiring
    ensures kid in After(es + more).rows && After(es + more).rows[kid] == After(es).rows[kid]
    decreases |more|
  {
    if more == [] {
      assert es + more == es;
    } else {
      var front := more[..|more| - 1];
      assert (es + more)[..|es + more| - 1] == es + front;
      RetiringUnchanged(es, front, kid);
      ReachableIsSane(es + front);
      RetiringStays(After(es + front), more[|more| - 1], kid);
    }
  }

  /**
   The key a promotion replaces stays published until a retirement asks for it, and leaves the key
   set then exactly if that is forced or the overlap since the promotion is over.
   */
  lemma ReplacedKeyLeaves(
      es: seq<Event>, alg: Alg, promoted: bool, gone: string, more: seq<Event>, which: Option<string>, force: bool)
    requires Legal(es) && PromoteNext(After(es).rows, alg, promoted, After(es).now).Done?
    requires FindFirst(After(es).rows, alg, Current) == Some(gone)
    requires Legal(es + [Promote(alg, promoted)] + more) && Unretired(more, gone) && which in {None, Some(gone)}
    ensures Legal(es + [Promote(alg, promoted)] + more + [RetireKey(which, force)])
    ensures gone in Published(After(es + [Promote(alg, promoted)] + more).rows)
    ensures var before, after := After(es + [Promote(alg, promoted)] + more),
        After(es + [Promote(alg, promoted)] + more + [RetireKey(which, force)]);
      gone !in Published(after.rows) <==> force || After(es).now + MINIMUM_OVERLAP_MS <= before.now
  {
    var replaced := es + [Promote(alg, promoted)];
    LegalFront(replaced, more);
    assert replaced[..|es|] == es;
    ReachableIsSane(es);
    PromoteMoves(After(es).rows, alg, promoted, After(es).now);
    RetiringUnchanged(replaced, more, gone);
    var s := After(replaced + more);
    Extend(replaced + more, RetireKey(which, force));
    RetireExactly(s.rows, which, force, s.now);
    assert Leaves(s.rows, gone, which, force, s.now) <==> force || After(es).now + MINIMUM_OVERLAP_MS <= s.now;
  }
}
