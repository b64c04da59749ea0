/**
 Which requests complete a login, exactly, and that every account has a run that does: with a passkey,
 with a password that is enough, and with each factor it may use.
 */
module LoginCompletions {
  import opened Common
  import opened LoginMachine
  import opened Approvals
  import opened InteractionFlows

  /** An active passkey of this account, which the challenge admits, anywhere but at a factor step. */
  predicate ByPasskeyAlone(f: Flow, c: Call, u: string) {
    !f.state.AwaitingFactor? && c.request == PasskeyFinish(Some(u), true) && Answers(f, Some(u))
  }

  predicate ByPasswordAlone(f: Flow, c: Call, u: string) {
    && f.state.AwaitingPassword? && f.state.identity.accountId == u != ""
    && PasswordChecked(c) && !NeedsFactor(f.state.identity)
  }

  /** No reachable flow asks a factor on a trusted device; a stored one that did would need no answer. */
  ghost predicate ByFactorAlone(f: Flow, c: Call, u: string) {
    && f.state.AwaitingFactor? && f.state.identity.accountId == u && f.state.identity.deviceTrusted
    && exists kind :: FactorChecked(f, c, kind)
  }

  predicate ByDeviceAnswer(f: Flow, c: Call, u: string) {
    f.state.AwaitingTrustedDevice? && f.state.identity.accountId == u && c.request.Trust?
  }

  ghost predicate Completes(f: Flow, c: Call, u: string) {
    ByPasskeyAlone(f, c, u) || ByPasswordAlone(f, c, u) || ByFactorAlone(f, c, u) || ByDeviceAnswer(f, c, u)
  }

  /** Whom a request ends the login of, granted or not. */
  function EndedFor(o: Outcome): Option<string> {
    match o
    case SignedIn(u, _, _) => Some(u)
    case NoAccess(u) => Some(u)
    case _ => None
  }

  lemma EndsExactly(f: Flow, c: Call, u: string)
    ensures EndedFor(Handle(f, c).1) == Some(u) <==> Completes(f, c, u)
  {
    if f.state.AwaitingFactor? {
      FactorEndsExactly(f, c, u);
    }
  }

  lemma FactorEndsExactly(f: Flow, c: Call, u: string)
    requires f.state.AwaitingFactor?
    ensures EndedFor(Handle(f, c).1) == Some(u) <==> ByFactorAlone(f, c, u)
  {
    match c.request
    case TotpCode(_, _) => assert FactorChecked(f, c, Totp) || Handle(f, c).1.Refused?;
    case ApprovalPoll(_, _) => assert FactorChecked(f, c, Push) || Handle(f, c).1.Refused?;
    case PasskeyFinish(_, _) => assert FactorChecked(f, c, Passkey) || Handle(f, c).1.Refused?;
    case _ =>
  }

  /**
   A request signs somebody in exactly when it completes their login and the client is granted to them,
   and turns them away exactly when it completes it and the client is not.
   */
  lemma SignsInExactly(f: Flow, c: Call, u: string)
    ensures Handle(f, c).1.SignedIn? && Handle(f, c).1.accountId == u <==> Completes(f, c, u) && c.granted
    ensures Handle(f, c).1 == NoAccess(u) <==> Completes(f, c, u) && !c.granted
    ensures Handle(f, c).1.SignedIn? ==> c.granted
    ensures Handle(f, c).1.NoAccess? ==> !c.granted
  {
    EndsExactly(f, c, u);
    GrantDecides(f, c);
  }

  lemma GrantDecides(f: Flow, c: Call)
    ensures Handle(f, c).1.SignedIn? ==> c.granted
    ensures Handle(f, c).1.NoAccess? ==> !c.granted
  {
  }

  /** What a completed login says of itself. */
  lemma SignInSays(f: Flow, c: Call, u: string)
    requires Completes(f, c, u) && c.granted
    ensures var o := Handle(f, c).1;
      && o.SignedIn? && Handle(f, c).0.state == AwaitingIdentifier
      && (o.remember <==> f.state.AwaitingTrustedDevice? && c.request == Trust(true))
      && (ByPasskeyAlone(f, c, u) ==> o.amr == [Hwk])
      && (ByPasswordAlone(f, c, u) ==> o.amr == AmrOf(f.state.identity, [Pwd]))
      && (ByDeviceAnswer(f, c, u) ==> o.amr == f.state.amr)
  {
    SignsInExactly(f, c, u);
  }

  // ---------------------------------------------------------------- what else a request is told

  /** The factors an account may use: its own, and the phone beside one of them; and when one is due. */
  lemma FactorsAre(u: User)
    ensures Totp in FactorsOf(u) <==> u.totp
    ensures Passkey in FactorsOf(u) <==> u.passkey
    ensures Push in FactorsOf(u) <==> u.phone && (u.totp || u.passkey)
    ensures NeedsFactor(IdentityOf(u)) <==> DueFactor(u)
    ensures IdentityOf(u).accountId == u.id && (IdentityOf(u).recovering <==> u.recoveryArmed)
  {
    assert u.totp ==> FactorsOf(u)[0] == Totp;
  }

  /** A phone alone is no factor, and a trusted browser is excused. */
  predicate DueFactor(u: User) { (u.totp || u.passkey) && !u.trustedHere }

  /** At the first step every email is shown the password screen; only a known active account's is not nameless. */
  lemma IdentifyShows(f: Flow, user: Option<User>, granted: bool)
    requires f.state.AwaitingIdentifier?
    ensures var o := Handle(f, Call(Identify(user), granted)).1;
      && o.Shown? && o.state.AwaitingPassword?
      && (user.Some? && user.value.active ==> o.state.identity == IdentityOf(user.value))
      && (user.None? || !user.value.active ==> o.state.identity.accountId == "")
  {
  }

  /** The step a request belongs to; an email, an approval on the phone and a passkey may come at any. */
  predicate InStep(s: LoginState, r: Request) {
    match r
    case Password(_, _) => s.AwaitingPassword?
    case TotpCode(_, _) => s.AwaitingFactor?
    case ApprovalStart(_, _, _, _, _) => s.AwaitingFactor? && Push in s.identity.factors
    case ApprovalPoll(_, _) => s.AwaitingFactor?
    case Trust(_) => s.AwaitingTrustedDevice?
    case _ => true
  }

  /** What a request in its step must show: the right secret, in time, or an approval still to be had. */
  predicate Proves(f: Flow, c: Call)
    requires InStep(f.state, c.request)
  {
    match c.request
    case Password(_, _) => PasswordChecked(c) && f.state.identity.accountId != ""
    case TotpCode(_, _) => FactorChecked(f, c, Totp)
    case ApprovalStart(allowed, id, _, _, _) => allowed && id !in f.rows && AskedSoFar(f) < 5
    case ApprovalPoll(_, _) => FactorChecked(f, c, Push)
    case PasskeyFinish(owner, active) => owner.Some? && active && Answers(f, owner)
    case _ => true
  }

  /** Out of step is told so, and in its step a request is refused exactly if it does not prove what it must. */
  lemma RefusedExactly(f: Flow, c: Call)
    ensures Handle(f, c).1.WrongStep? <==> !InStep(f.state, c.request)
    ensures Handle(f, c).1.Refused? <==> InStep(f.state, c.request) && !Proves(f, c)
  {
    AnswersMeans(f);
  }

  lemma AnswersMeans(f: Flow)
    ensures forall owner :: Answers(f, owner) <==>
      owner.Some? && f.challenge.Some? && f.challenge.value in {Challenge(None), Challenge(owner)}
  {
  }

  /** An approval that starts is of this account, for this interaction, and waits for its answer. */
  lemma StartsExactly(f: Flow, c: Call)
    requires c.request.ApprovalStart?
    ensures var r, g := c.request, Handle(f, c).0;
      if InStep(f.state, r) && Proves(f, c) then
        && g.rows.Keys == f.rows.Keys + {r.id} && (forall id :: id in f.rows ==> g.rows[id] == f.rows[id])
        && g.rows[r.id].userId == f.state.identity.accountId && g.rows[r.id].number == r.number
        && StateOf(g.rows, r.id, f.uid, r.now) == Some(Pending)
      else g == f
  {
  }

  function AskedIds(f: Flow): set<string> {
    set id | id in f.rows && f.rows[id].interaction == f.uid
  }

  predicate StartsOne(f: Flow, c: Call) { c.request.ApprovalStart? && Handle(f, c).1.Noted? }

  lemma OnlyStartsAddRows(f: Flow, c: Call)
    ensures Handle(f, c).0.rows.Keys == f.rows.Keys + if StartsOne(f, c) then {c.request.id} else {}
    ensures StartsOne(f, c) ==> Handle(f, c).0.rows[c.request.id].interaction == f.uid && c.request.id !in f.rows
  {
  }

  lemma AskedGrows(f: Flow, g: Flow, more: set<string>)
    requires g.uid == f.uid && g.rows.Keys == f.rows.Keys + more && f.rows.Keys !! more
    requires forall id :: id in f.rows ==> g.rows[id].interaction == f.rows[id].interaction
    requires forall id :: id in more ==> g.rows[id].interaction == f.uid
    ensures AskedSoFar(g) == AskedSoFar(f) + |more|
  {
    assert AskedIds(g) == AskedIds(f) + more;
  }

  lemma AskedStep(f: Flow, c: Call)
    ensures AskedSoFar(Handle(f, c).0) == AskedSoFar(f)
      + (if StartsOne(f, c) then 1 else 0)
  {
    var g, more := Handle(f, c).0, if StartsOne(f, c) then {c.request.id} else {};
    ChallengeStep(f, c);
    OnlyStartsAddRows(f, c);
    forall id | id in f.rows ensures g.rows[id].interaction == f.rows[id].interaction {
      RowComesFrom(f, c, id);
    }
    AskedGrows(f, g, more);
  }

  /** The approvals started in a run. */
  function StartedIn(start: Flow, calls: seq<Call>): nat {
    if calls == [] then 0
    else
      var init, c := calls[..|calls| - 1], calls[|calls| - 1];
      StartedIn(start, init) + if StartsOne(FlowAfter(start, init), c) then 1 else 0
  }

  /** One interaction asks the phone at most five times, and the rows count every time it did. */
  lemma {:induction false} AtMostFiveApprovals(start: Flow, calls: seq<Call>)
    requires Opened(start)
    ensures StartedIn(start, calls) == AskedSoFar(FlowAfter(start, calls)) <= 5
  {
    if calls == [] {
      assert AskedIds(start) == {};
    } else {
      AtMostFiveApprovals(start, calls[..|calls| - 1]);
      AskedStep(FlowAfter(start, calls[..|calls| - 1]), calls[|calls| - 1]);
    }
  }

  /** An approval this interaction may no longer spend, whatever comes. */
  predicate SpentHere(f: Flow, id: string) {
    id in f.rows && f.rows[id].consumedAt.Some?
  }

  lemma SpentStays(f: Flow, c: Call, id: string)
    requires SpentHere(f, id)
    ensures SpentHere(Handle(f, c).0, id)
  {
  }

  lemma {:induction false} SpentForGood(start: Flow, calls: seq<Call>, n: nat, id: string)
    requires n <= |calls| && SpentHere(FlowAfter(start, calls[..n]), id)
    ensures SpentHere(FlowAfter(start, calls), id)
    decreases |calls|
  {
    if n == |calls| {
      assert calls[..n] == calls;
    } else {
      var init := calls[..|calls| - 1];
      assert init[..n] == calls[..n];
      SpentForGood(start, init, n, id);
      SpentStays(FlowAfter(start, init), calls[|calls| - 1], id);
    }
  }

  /** In every run one approval is the factor of at most one request. */
  lemma ApprovalsCountOnce(start: Flow, calls: seq<Call>, i: nat, j: nat, id: string)
    requires i < j < |calls|
    requires calls[i].request.ApprovalPoll? && calls[i].request.id == id
    requires FactorChecked(FlowAfter(start, calls[..i]), calls[i], Push)
    requires calls[j].request.ApprovalPoll? && calls[j].request.id == id
    ensures !FactorChecked(FlowAfter(start, calls[..j]), calls[j], Push)
  {
    assert calls[..i + 1][..i] == calls[..i];
    assert FlowAfter(start, calls[..i + 1]) == Handle(FlowAfter(start, calls[..i]), calls[i]).0;
    assert SpentHere(FlowAfter(start, calls[..i + 1]), id);
    assert calls[..j][..i + 1] == calls[..i + 1];
    SpentForGood(start, calls[..j], i + 1, id);
  }

  // ---------------------------------------------------------------- a run for every way in

  /** A remembered recovery is listed after the password, and again after a factor. */
  function PasswordAmr(u: User): seq<AuthMethod> {
    if u.recoveryArmed then [Pwd, Recovery] else [Pwd]
  }

  function FactorAmr(u: User, kind: FactorKind): seq<AuthMethod> {
    var used := match kind case Totp => Otp case Passkey => Hwk case Push => Pop;
    if u.recoveryArmed then [Pwd, Recovery, used, Recovery] else [Pwd, used]
  }

  lemma AmrsAre(u: User, kind: FactorKind)
    ensures var id := IdentityOf(u);
      AmrOf(id, [Pwd]) == PasswordAmr(u) && AmrOf(id, AmrOf(id, [Pwd]) + [AmrFor(kind)]) == FactorAmr(u, kind)
  {
    var id := IdentityOf(u);
    assert AmrOf(id, AmrOf(id, [Pwd]) + [AmrFor(kind)]) == FactorAmr(u, kind);
  }

  /** This account may use this factor. */
  predicate MayUse(u: User, kind: FactorKind) {
    match kind
    case Totp => u.totp
    case Passkey => u.passkey
    case Push => u.phone && (u.totp || u.passkey)
  }

  function Ended(u: string, amr: seq<AuthMethod>, remember: bool, granted: bool): Outcome {
    if granted then SignedIn(u, amr, remember) else NoAccess(u)
  }

  /** From anywhere but a factor step, a challenge and a passkey that answers it. */
  lemma PasskeyRun(start: Flow, calls: seq<Call>, u: string, granted: bool) returns (after: seq<Call>)
    requires !FlowAfter(start, calls).state.AwaitingFactor?
    ensures after == calls + [Call(PasskeyBegin, granted)] + [Call(PasskeyFinish(Some(u), true), granted)]
    ensures OutcomeOf(start, after, |calls| + 1) == Ended(u, [Hwk], false, granted)
  {
    var begin, finish := Call(PasskeyBegin, granted), Call(PasskeyFinish(Some(u), true), granted);
    Then(start, calls, begin);
    Then(start, calls + [begin], finish);
    after := calls + [begin] + [finish];
  }

  lemma NamedRun(start: Flow, calls: seq<Call>, u: User, granted: bool) returns (after: seq<Call>)
    requires u.active && u.id != "" && FlowAfter(start, calls).state == AwaitingIdentifier
    ensures after == calls + [Call(Identify(Some(u)), granted)] + [Call(Password(true, true), granted)]
    ensures var f := FlowAfter(start, calls); NeedsFactor(IdentityOf(u)) ==>
      FlowAfter(start, after) == f.(state := AwaitingFactor(IdentityOf(u), AmrOf(IdentityOf(u), [Pwd])))
    ensures !NeedsFactor(IdentityOf(u)) ==>
      OutcomeOf(start, after, |calls| + 1) == Ended(u.id, AmrOf(IdentityOf(u), [Pwd]), false, granted)
  {
    var named, password := Call(Identify(Some(u)), granted), Call(Password(true, true), granted);
    Then(start, calls, named);
    Then(start, calls + [named], password);
    after := calls + [named] + [password];
  }

  /** What makes this factor answer at the factor step: for the phone, an approval asked for and given. */
  lemma FactorReady(start: Flow, calls: seq<Call>, u: User, kind: FactorKind, row: string)
    returns (after: seq<Call>, c: Request)
    requires FlowAfter(start, calls).state.AwaitingFactor? && FlowAfter(start, calls).state.identity == IdentityOf(u)
    requires kind in FactorsOf(u)
    requires kind == Push ==> row !in FlowAfter(start, calls).rows
    requires kind == Push ==> AskedSoFar(FlowAfter(start, calls)) < MAX_APPROVALS
    ensures calls <= after && FlowAfter(start, after).state == FlowAfter(start, calls).state
    ensures forall granted :: FactorChecked(FlowAfter(start, after), Call(c, granted), kind)
  {
    match kind
    case Totp =>
      after, c := calls, TotpCode(true, true);
    case Passkey =>
      var begin := Call(PasskeyBegin, true);
      Then(start, calls, begin);
      after, c := calls + [begin], PasskeyFinish(Some(u.id), true);
    case Push =>
      var ask := Call(ApprovalStart(true, row, 42, [42], 0), true);
      var answer := Call(PhoneAnswer(Ticket(row, u.id, Input(Some(42), false), Approved, "phone", 0)), true);
      Then(start, calls, ask);
      Then(start, calls + [ask], answer);
      after, c := calls + [ask] + [answer], ApprovalPoll(row, 1);
  }

  /** Every active account that is due no factor signs in with its password. */
  lemma PasswordRun(start: Flow, u: User, granted: bool) returns (calls: seq<Call>)
    requires Opened(start) && u.active && u.id != "" && !DueFactor(u)
    ensures |calls| > 0 && OutcomeOf(start, calls, |calls| - 1) == Ended(u.id, PasswordAmr(u), false, granted)
  {
    FactorsAre(u);
    AmrsAre(u, Totp);
    calls := NamedRun(start, [], u, granted);
  }

  /** Every other one signs in with its password and any one factor it may use, whatever it answers about the device. */
  lemma FactorRun(start: Flow, u: User, kind: FactorKind, row: string, answer: bool, granted: bool)
    returns (calls: seq<Call>)
    requires Opened(start) && u.active && u.id != "" && DueFactor(u) && MayUse(u, kind) && row !in start.rows
    ensures |calls| > 0 && OutcomeOf(start, calls, |calls| - 1) == Ended(u.id, FactorAmr(u, kind), answer, granted)
  {
    FactorsAre(u);
    AmrsAre(u, kind);
    calls := FactorTrustRun(start, u, kind, row, answer, granted);
  }

  lemma FactorTrustRun(start: Flow, u: User, kind: FactorKind, row: string, answer: bool, granted: bool)
    returns (calls: seq<Call>)
    requires Opened(start) && u.active && u.id != "" && NeedsFactor(IdentityOf(u))
    requires kind in FactorsOf(u) && row !in start.rows
    ensures |calls| > 0
    ensures var id := IdentityOf(u);
      OutcomeOf(start, calls, |calls| - 1)
      == Ended(u.id, AmrOf(id, AmrOf(id, [Pwd]) + [AmrFor(kind)]), answer, granted)
  {
    var named := NamedRun(start, [], u, granted);
    StartsUnasked(start, u, named);
    var asked, c := FactorReady(start, named, u, kind, row);
    calls := TrustRun(start, asked, Call(c, granted), kind, answer);
  }

  lemma StartsUnasked(start: Flow, u: User, named: seq<Call>)
    requires Opened(start) && FlowAfter(start, named).rows == start.rows && FlowAfter(start, named).uid == start.uid
    ensures AskedSoFar(FlowAfter(start, named)) < MAX_APPROVALS
  {
    assert AskedIds(FlowAfter(start, named)) == {};
  }

  /** A factor verified on a browser that is not trusted, and the device question answered. */
  lemma TrustRun(start: Flow, calls: seq<Call>, factor: Call, kind: FactorKind, answer: bool) returns (after: seq<Call>)
    requires FactorChecked(FlowAfter(start, calls), factor, kind)
    requires !FlowAfter(start, calls).state.identity.deviceTrusted
    ensures |after| > 0
    ensures var s := FlowAfter(start, calls).state;
      OutcomeOf(start, after, |after| - 1)
      == Ended(s.identity.accountId, AmrOf(s.identity, s.amr + [AmrFor(kind)]), answer, factor.granted)
  {
    var trust := Call(Trust(answer), factor.granted);
    Then(start, calls, factor);
    FactorLeads(FlowAfter(start, calls), factor, kind);
    Then(start, calls + [factor], trust);
    after := calls + [factor] + [trust];
  }
}
