/**
 * The interaction routes: each request loads the stored flow, takes one step and saves or clears it.
 *
 * Beside the login state, an interaction keeps a passkey challenge and its approval rows, and both
 * outlive the flow: clearing a flow leaves them under the same interaction. Passwords, codes,
 * signatures and the throttle are parameters of a request; so is whether the account has a grant.
 */
module InteractionFlows {
  import opened Common
  import opened LoginMachine
  import opened Approvals

  /** The account row behind an email, with what hangs off it. */
  datatype User = User(
    id: string, active: bool, totp: bool, passkey: bool, phone: bool, trustedHere: bool, recoveryArmed: bool)

  /** A remembered challenge names an account only if it was begun at that account's factor step. */
  datatype Challenge = Challenge(owner: Option<string>)

  datatype Flow = Flow(uid: string, state: LoginState, challenge: Option<Challenge>, rows: Table)

  /**
   * `PasskeyFinish` carries whose passkey signed, `None` if none did, and whether that account is
   * active. `PhoneAnswer` is the write of an answer that fits its row, however its read was interleaved.
   */
  datatype Request =
    | Identify(user: Option<User>)
    | Password(allowed: bool, verified: bool)
    | TotpCode(allowed: bool, verified: bool)
    | ApprovalStart(allowed: bool, id: string, number: int, choices: seq<int>, now: int)
    | PhoneAnswer(ticket: Ticket)
    | ApprovalPoll(id: string, now: int)
    | PasskeyBegin
    | PasskeyFinish(owner: Option<string>, active: bool)
    | Trust(answer: bool)

  /** `granted`: the account the step would sign in may use the client. */
  datatype Call = Call(request: Request, granted: bool)

  datatype Outcome =
    | Shown(state: LoginState)
    | Noted
    | WrongStep
    | Refused
    | Broken
    | NoAccess(accountId: string)
    | SignedIn(accountId: string, amr: seq<AuthMethod>, remember: bool)

  const NOBODY := Identity("", [], false, false)

  /** Approvals one interaction may ask for. */
  const MAX_APPROVALS := 5

  /** The phone is offered beside a code or a passkey, never alone. */
  function FactorsOf(u: User): seq<FactorKind> {
    var own := (if u.totp then [Totp] else []) + (if u.passkey then [Passkey] else []);
    if own != [] && u.phone then own + [Push] else own
  }

  function IdentityOf(u: User): Identity {
    Identity(u.id, FactorsOf(u), u.trustedHere, u.recoveryArmed)
  }

  /** The account at whose factor step the flow is. */
  function AtFactorOf(s: LoginState): Option<string> {
    if s.AwaitingFactor? then Some(s.identity.accountId) else None
  }

  /** The approvals this interaction asked for. */
  function AskedSoFar(f: Flow): (n: nat)
    ensures n <= |f.rows|
  {
    var asked := set id | id in f.rows && f.rows[id].interaction == f.uid;
    assert f.rows.Keys == asked + (f.rows.Keys - asked);
    |asked|
  }

  /** The challenge check: a passkey of somebody else is refused only where the challenge names an account. */
  predicate Answers(f: Flow, owner: Option<string>) {
    owner.Some? && f.challenge.Some? && (f.challenge.value.owner.None? || f.challenge.value.owner == owner)
  }

  function Settle(f: Flow, s: LoginState, granted: bool): (Flow, Outcome) {
    if !s.Complete? then (f.(state := s), Shown(s))
    else (f.(state := AwaitingIdentifier),
          if granted then SignedIn(s.accountId, s.amr, s.trustDevice) else NoAccess(s.accountId))
  }

  function Settled(f: Flow, r: Result<LoginState, InvalidTransition>, granted: bool): (Flow, Outcome) {
    if r.Failure? then (f, Broken) else Settle(f, r.value, granted)
  }

  function Handle(f: Flow, c: Call): (Flow, Outcome) {
    match c.request
    case Identify(user) =>
      if user.Some? && user.value.active
      then Settled(f, Advance(f.state, Identified(IdentityOf(user.value))), c.granted)
      else (f.(state := AwaitingPassword(NOBODY)), Shown(AwaitingPassword(NOBODY)))
    case Password(allowed, verified) =>
      if !f.state.AwaitingPassword? then (f, WrongStep)
      else if !allowed || f.state.identity.accountId == "" || !verified then (f, Refused)
      else Settled(f, Advance(f.state, PasswordVerified), c.granted)
    case TotpCode(allowed, verified) =>
      if !f.state.AwaitingFactor? then (f, WrongStep)
      else if !allowed || !verified then (f, Refused)
      else Settled(f, Advance(f.state, FactorVerified(Totp)), c.granted)
    case ApprovalStart(allowed, id, number, choices, now) =>
      if !f.state.AwaitingFactor? || Push !in f.state.identity.factors then (f, WrongStep)
      else if !allowed || AskedSoFar(f) >= MAX_APPROVALS || id in f.rows then (f, Refused)
      else (f.(rows := Started(f.rows, id, f.state.identity.accountId, f.uid, number, choices, now)), Noted)
    case PhoneAnswer(ticket) =>
      (if Fits(f.rows, ticket) then f.(rows := Written(f.rows, ticket)) else f, Noted)
    case ApprovalPoll(id, now) =>
      if !f.state.AwaitingFactor? then (f, WrongStep)
      else if !Spendable(f.rows, id, f.uid) then (f, Refused)
      else Settled(f.(rows := Consumed(f.rows, id, f.uid, now)), Advance(f.state, FactorVerified(Push)), c.granted)
    case PasskeyBegin => (f.(challenge := Some(Challenge(AtFactorOf(f.state)))), Noted)
    case PasskeyFinish(owner, active) =>
      if !Answers(f, owner) then (f, Refused)
      else
        var g := f.(challenge := None);
        if !active then (g, Refused)
        else if f.state.AwaitingFactor? then Settled(g, Advance(f.state, FactorVerified(Passkey)), c.granted)
        else
          var identity := Identity(owner.value, [], false, false);
          Settled(g, Advance(AwaitingIdentifier, PasskeyAuthenticated(identity)), c.granted)
    case Trust(answer) =>
      if !f.state.AwaitingTrustedDevice? then (f, WrongStep)
      else Settled(f, Advance(f.state, TrustedDeviceAnswered(answer)), c.granted)
  }

  /** An interaction nobody has used: other interactions may have approval rows. */
  ghost predicate Opened(start: Flow) {
    start.state.AwaitingIdentifier? && start.challenge.None?
    && forall id :: id in start.rows ==> start.rows[id].interaction != start.uid
  }

  function FlowAfter(start: Flow, calls: seq<Call>): Flow {
    if calls == [] then start
    else Handle(FlowAfter(start, calls[..|calls| - 1]), calls[|calls| - 1]).0
  }

  function OutcomeOf(start: Flow, calls: seq<Call>, k: nat): Outcome
    requires k < |calls|
  {
    Handle(FlowAfter(start, calls[..k]), calls[k]).1
  }

  lemma FlowExtended(start: Flow, calls: seq<Call>, c: Call)
    ensures FlowAfter(start, calls + [c]) == Handle(FlowAfter(start, calls), c).0
  {
    assert (calls + [c])[..|calls|] == calls;
  }

  // ---------------------------------------------------------------- what a sign-in proves

  /** Account ids in the database are never empty. */
  predicate HasIds(c: Call) {
    && (c.request.Identify? && c.request.user.Some? ==> c.request.user.value.id != "")
    && (c.request.PasskeyFinish? && c.request.owner.Some? ==> c.request.owner.value != "")
  }

  predicate Names(c: Call, id: Identity) {
    c.request.Identify? && c.request.user.Some? && c.request.user.value.active && IdentityOf(c.request.user.value) == id
  }

  predicate PasswordChecked(c: Call) { c.request.Password? && c.request.allowed && c.request.verified }

  /** This request verifies a factor of this kind against the flow. */
  predicate FactorChecked(f: Flow, c: Call, m: FactorKind) {
    f.state.AwaitingFactor? &&
    match m
    case Totp => c.request.TotpCode? && c.request.allowed && c.request.verified
    case Push => c.request.ApprovalPoll? && Spendable(f.rows, c.request.id, f.uid)
    case Passkey => c.request.PasskeyFinish? && Answers(f, c.request.owner) && c.request.active
  }

  /** Where in the run the evidence for a state lies: the identification, the password, the factor. */
  datatype Evidence = Evidence(named: nat, password: nat, factor: nat, kind: FactorKind)

  ghost predicate Earned(start: Flow, calls: seq<Call>, s: LoginState, w: Evidence) {
    match s
    case AwaitingIdentifier => true
    case AwaitingPassword(id) => id == NOBODY || (w.named < |calls| && Names(calls[w.named], id))
    case AwaitingFactor(id, amr) => HasPassword(start, calls, id, w) && NeedsFactor(id) && amr == AmrOf(id, [Pwd])
    case AwaitingTrustedDevice(id, amr) =>
      HasPassword(start, calls, id, w) && NeedsFactor(id) && HasFactor(start, calls, id, w, amr)
    case Complete(_, _, _) => false
  }

  /** The account was named, and later, while the flow was at its password, the password was verified. */
  ghost predicate HasPassword(start: Flow, calls: seq<Call>, id: Identity, w: Evidence) {
    && w.named < w.password < |calls| && Names(calls[w.named], id) && PasswordChecked(calls[w.password])
    && FlowAfter(start, calls[..w.password]).state == AwaitingPassword(id)
  }

  /** After that, while the flow was at this account's factor step, a factor was verified. */
  ghost predicate HasFactor(start: Flow, calls: seq<Call>, id: Identity, w: Evidence, amr: seq<AuthMethod>) {
    && w.password < w.factor < |calls|
    && FactorChecked(FlowAfter(start, calls[..w.factor]), calls[w.factor], w.kind)
    && FlowAfter(start, calls[..w.factor]).state == AwaitingFactor(id, AmrOf(id, [Pwd]))
    && amr == AmrOf(id, AmrOf(id, [Pwd]) + [AmrFor(w.kind)])
  }

  lemma {:induction false} StatesAreEarned(start: Flow, calls: seq<Call>) returns (w: Evidence)
    requires start.state.AwaitingIdentifier?
    requires forall k :: 0 <= k < |calls| ==> HasIds(calls[k])
    ensures Earned(start, calls, FlowAfter(start, calls).state, w)
  {
    w := Evidence(0, 0, 0, Totp);
    if calls != [] {
      var init := calls[..|calls| - 1];
      var v := StatesAreEarned(start, init);
      w := NextEvidence(start, init, calls[|calls| - 1], v);
      assert init + [calls[|calls| - 1]] == calls;
    }
  }

  lemma PasswordStays(start: Flow, calls: seq<Call>, more: seq<Call>, id: Identity, w: Evidence)
    requires HasPassword(start, calls, id, w)
    ensures HasPassword(start, calls + more, id, w)
  {
    assert (calls + more)[..w.password] == calls[..w.password];
  }

  lemma FactorStays(start: Flow, calls: seq<Call>, more: seq<Call>, id: Identity, w: Evidence, amr: seq<AuthMethod>)
    requires HasFactor(start, calls, id, w, amr)
    ensures HasFactor(start, calls + more, id, w, amr)
  {
    assert (calls + more)[..w.factor] == calls[..w.factor];
  }

  lemma EvidenceStays(start: Flow, calls: seq<Call>, c: Call, s: LoginState, w: Evidence)
    requires Earned(start, calls, s, w)
    ensures Earned(start, calls + [c], s, w)
  {
    if s.AwaitingFactor? {
      PasswordStays(start, calls, [c], s.identity, w);
    } else if s.AwaitingTrustedDevice? {
      PasswordStays(start, calls, [c], s.identity, w);
      FactorStays(start, calls, [c], s.identity, w, s.amr);
    }
  }

  lemma PasswordStep(start: Flow, calls: seq<Call>, c: Call, v: Evidence) returns (w: Evidence)
    requires c.request.Password? && PasswordChecked(c)
    requires var s := FlowAfter(start, calls).state;
      s.AwaitingPassword? && s.identity.accountId != "" && Earned(start, calls, s, v)
    ensures w == v.(password := |calls|)
    ensures HasPassword(start, calls + [c], FlowAfter(start, calls).state.identity, w)
  {
    w := v.(password := |calls|);
    assert (calls + [c])[..|calls|] == calls;
  }

  /** Where a verified factor leads. */
  lemma FactorLeads(f: Flow, c: Call, kind: FactorKind)
    requires FactorChecked(f, c, kind)
    ensures var id, amr := f.state.identity, AmrOf(f.state.identity, f.state.amr + [AmrFor(kind)]);
      Handle(f, c).0.state == if id.deviceTrusted then AwaitingIdentifier else AwaitingTrustedDevice(id, amr)
  {
  }

  lemma FactorStep(start: Flow, calls: seq<Call>, c: Call, kind: FactorKind, v: Evidence) returns (w: Evidence)
    requires FactorChecked(FlowAfter(start, calls), c, kind)
    requires Earned(start, calls, FlowAfter(start, calls).state, v)
    ensures Earned(start, calls + [c], Handle(FlowAfter(start, calls), c).0.state, w)
  {
    var s := FlowAfter(start, calls).state;
    w := v.(factor := |calls|, kind := kind);
    FactorLeads(FlowAfter(start, calls), c, kind);
    assert (calls + [c])[..|calls|] == calls;
    PasswordStays(start, calls, [c], s.identity, v);
    assert HasPassword(start, calls + [c], s.identity, w);
  }

  lemma NextEvidence(start: Flow, calls: seq<Call>, c: Call, v: Evidence) returns (w: Evidence)
    requires Earned(start, calls, FlowAfter(start, calls).state, v) && HasIds(c)
    ensures Earned(start, calls + [c], Handle(FlowAfter(start, calls), c).0.state, w)
  {
    var f := FlowAfter(start, calls);
    w := v;
    if Handle(f, c).0.state == f.state {
      EvidenceStays(start, calls, c, f.state, v);
    } else if c.request.Identify? {
      w := v.(named := |calls|);
    } else if f.state.AwaitingPassword? && c.request.Password? {
      w := PasswordStep(start, calls, c, v);
    } else if f.state.AwaitingFactor? {
      var kind := if c.request.TotpCode? then Totp else if c.request.ApprovalPoll? then Push else Passkey;
      w := FactorStep(start, calls, c, kind, v);
    }
  }

  /** How call `k` came to sign somebody in. */
  datatype SignIn = ByPasskey | ByPassword(identity: Identity, evidence: Evidence)

  /** The request that completes a login: a passkey outright, a password that was enough, or the device answer. */
  lemma SignInStep(f: Flow, c: Call)
    requires Handle(f, c).1.SignedIn?
    ensures var o := Handle(f, c).1;
      && c.granted
      && match f.state
         case AwaitingPassword(id) =>
           || (c.request == PasskeyFinish(Some(o.accountId), true) && o.amr == [Hwk] && !o.remember)
           || (PasswordChecked(c) && id.accountId == o.accountId != "" && !NeedsFactor(id)
               && o.amr == AmrOf(id, [Pwd]) && !o.remember)
         case AwaitingFactor(id, amr) => id.deviceTrusted
         case AwaitingTrustedDevice(id, amr) =>
           || (c.request == PasskeyFinish(Some(o.accountId), true) && o.amr == [Hwk] && !o.remember)
           || (c.request == Trust(o.remember) && id.accountId == o.accountId && o.amr == amr)
         case _ => c.request == PasskeyFinish(Some(o.accountId), true) && o.amr == [Hwk] && !o.remember
  {
  }

  /**
   * No sign-in without its evidence. In every run of requests, in any order, a sign-in is either a
   * passkey of that very account, with `amr` exactly `hwk`; or the account was named, then its
   * password verified, then, if it holds a factor and the browser is not trusted, a factor verified
   * and the trusted-device question answered. `amr` lists exactly what was verified, and a device
   * is remembered only as the answer to that question. Whose the factor is, `WhoseFactor` says.
   */
  lemma SignInsAreEarned(start: Flow, calls: seq<Call>, k: nat) returns (how: SignIn)
    requires start.state.AwaitingIdentifier? && k < |calls| && OutcomeOf(start, calls, k).SignedIn?
    requires forall j :: 0 <= j < |calls| ==> HasIds(calls[j])
    ensures var o := OutcomeOf(start, calls, k);
      && o.accountId != "" && calls[k].granted
      && match how
         case ByPasskey =>
           calls[k].request == PasskeyFinish(Some(o.accountId), true) && o.amr == [Hwk] && !o.remember
         case ByPassword(id, w) =>
           && id.accountId == o.accountId
           && HasPassword(start, calls[..k + 1], id, w)
           && (if NeedsFactor(id)
               then HasFactor(start, calls[..k], id, w, o.amr) && calls[k].request == Trust(o.remember)
               else w.password == k && o.amr == AmrOf(id, [Pwd]) && !o.remember)
  {
    var f := FlowAfter(start, calls[..k]);
    var v := StatesAreEarned(start, calls[..k]);
    SignInStep(f, calls[k]);
    assert calls[..k] + [calls[k]] == calls[..k + 1];
    if calls[k].request.PasskeyFinish? {
      how := ByPasskey;
    } else if calls[k].request.Password? {
      var w := PasswordStep(start, calls[..k], calls[k], v);
      how := ByPassword(f.state.identity, w);
    } else {
      how := ByPassword(f.state.identity, v);
      PasswordStays(start, calls[..k], [calls[k]], f.state.identity, v);
    }
  }

  /**
   * Read off `amr`: `hwk` alone is a passkey; otherwise `pwd` comes first, an account was named in
   * this run, and a second factor is listed if and only if that account was due one.
   */
  lemma WhatAmrSays(start: Flow, calls: seq<Call>, k: nat) returns (id: Option<Identity>)
    requires start.state.AwaitingIdentifier? && k < |calls| && OutcomeOf(start, calls, k).SignedIn?
    requires forall j :: 0 <= j < |calls| ==> HasIds(calls[j])
    ensures id.None? ==> OutcomeOf(start, calls, k).amr == [Hwk]
    ensures id.Some? ==> |OutcomeOf(start, calls, k).amr| > 0 && OutcomeOf(start, calls, k).amr[0] == Pwd
    ensures id.Some? ==> id.value.accountId == OutcomeOf(start, calls, k).accountId
    ensures id.Some? ==> exists i :: 0 <= i < k && Names(calls[i], id.value)
    ensures id.Some? ==> (NeedsFactor(id.value) <==> ListsFactor(OutcomeOf(start, calls, k).amr))
    ensures OutcomeOf(start, calls, k).remember ==> ListsFactor(OutcomeOf(start, calls, k).amr)
  {
    var how := SignInsAreEarned(start, calls, k);
    id := None;
    if how.ByPassword? {
      id := Some(how.identity);
      AmrHoldsFactor(how.identity, how.evidence.kind);
      NamedBefore(start, calls, k, how.identity, how.evidence);
    }
  }

  lemma NamedBefore(start: Flow, calls: seq<Call>, k: nat, id: Identity, w: Evidence)
    requires k < |calls| && HasPassword(start, calls[..k + 1], id, w)
    ensures exists i :: 0 <= i < k && Names(calls[i], id)
  {
    assert w.named < k && calls[..k + 1][w.named] == calls[w.named];
  }

  ghost predicate ListsFactor(amr: seq<AuthMethod>) {
    Otp in amr || Hwk in amr || Pop in amr
  }

  lemma AmrHoldsFactor(id: Identity, kind: FactorKind)
    ensures var amr := AmrOf(id, AmrOf(id, [Pwd]) + [AmrFor(kind)]);
      amr[0] == Pwd && AmrFor(kind) in amr && ListsFactor(amr)
    ensures AmrOf(id, [Pwd])[0] == Pwd && !ListsFactor(AmrOf(id, [Pwd]))
  {
    var two := AmrOf(id, [Pwd]) + [AmrFor(kind)];
    assert two[|two| - 1] == AmrFor(kind);
    assert AmrOf(id, two)[|two| - 1] == AmrFor(kind);
  }

  /** An armed recovery is recorded, and excuses nobody from a factor they hold. */
  lemma RecoveryExcusesNobody(id: Identity)
    ensures AfterCredential(id, [Pwd], false).Complete? <==> id.factors == [] || id.deviceTrusted
    ensures Recovery in AfterCredential(id, [Pwd], false).amr <==> id.recovering
    ensures AfterCredential(Identity("ann", [Totp], false, true), [Pwd], false).AwaitingFactor?
  {
  }

  // ---------------------------------------------------------------- whose factor it is

  /** The request that began the challenge the flow still remembers. */
  function BegunAt(start: Flow, calls: seq<Call>): Option<nat> {
    if calls == [] then None
    else
      var init, c := calls[..|calls| - 1], calls[|calls| - 1];
      if c.request.PasskeyBegin? then Some(|init|)
      else if c.request.PasskeyFinish? && Answers(FlowAfter(start, init), c.request.owner) then None
      else BegunAt(start, init)
  }

  /** The request that started this approval in this interaction. */
  function StartedAt(start: Flow, calls: seq<Call>, id: string): Option<nat> {
    if calls == [] then None
    else
      var init, c := calls[..|calls| - 1], calls[|calls| - 1];
      if c.request.ApprovalStart? && c.request.id == id && id !in FlowAfter(start, init).rows
         && id in FlowAfter(start, calls).rows
      then Some(|init|)
      else StartedAt(start, init, id)
  }

  /** The account at whose factor step request `b` found the flow. */
  function AskedOf(start: Flow, calls: seq<Call>, b: nat): Option<string>
    requires b <= |calls|
  {
    AtFactorOf(FlowAfter(start, calls[..b]).state)
  }

  /** A remembered challenge names the account at whose factor step it was begun, if it was at one. */
  ghost predicate ChallengeFrom(start: Flow, calls: seq<Call>) {
    var b, challenge := BegunAt(start, calls), FlowAfter(start, calls).challenge;
    if b.None? then challenge.None?
    else b.value < |calls| && challenge == Some(Challenge(AskedOf(start, calls, b.value)))
  }

  /** An approval of this interaction is of the account at whose factor step it was started. */
  ghost predicate ApprovalFrom(start: Flow, calls: seq<Call>, id: string) {
    var rows := FlowAfter(start, calls).rows;
    id in rows && rows[id].interaction == start.uid ==>
      var b := StartedAt(start, calls, id);
      b.Some? && b.value < |calls| && AskedOf(start, calls, b.value) == Some(rows[id].userId)
  }

  lemma AskedStays(start: Flow, calls: seq<Call>, b: nat)
    requires 0 < |calls| && b <= |calls| - 1
    ensures AskedOf(start, calls, b) == AskedOf(start, calls[..|calls| - 1], b)
  {
    assert calls[..|calls| - 1][..b] == calls[..b];
  }

  lemma ChallengeStep(f: Flow, c: Call)
    ensures Handle(f, c).0.uid == f.uid
    ensures Handle(f, c).0.challenge ==
      if c.request.PasskeyBegin? then Some(Challenge(AtFactorOf(f.state)))
      else if c.request.PasskeyFinish? && Answers(f, c.request.owner) then None
      else f.challenge
  {
  }

  lemma {:induction false} ChallengesComeFrom(start: Flow, calls: seq<Call>)
    requires Opened(start)
    ensures ChallengeFrom(start, calls)
  {
    if calls != [] {
      var init, c := calls[..|calls| - 1], calls[|calls| - 1];
      ChallengesComeFrom(start, init);
      ChallengeStep(FlowAfter(start, init), c);
      if BegunAt(start, calls).Some? {
        AskedStays(start, calls, BegunAt(start, calls).value);
      }
    }
  }

  lemma {:induction false} UidStays(start: Flow, calls: seq<Call>)
    ensures FlowAfter(start, calls).uid == start.uid
  {
    if calls != [] {
      UidStays(start, calls[..|calls| - 1]);
      ChallengeStep(FlowAfter(start, calls[..|calls| - 1]), calls[|calls| - 1]);
    }
  }

  /** Rows change owner and interaction never, and appear only by a start at a factor step. */
  lemma RowComesFrom(f: Flow, c: Call, id: string)
    requires id in Handle(f, c).0.rows
    ensures var row := Handle(f, c).0.rows[id];
      if id in f.rows then row.userId == f.rows[id].userId && row.interaction == f.rows[id].interaction
      else c.request.ApprovalStart? && c.request.id == id && AtFactorOf(f.state) == Some(row.userId)
  {
  }

  lemma {:induction false} ApprovalsComeFrom(start: Flow, calls: seq<Call>, id: string)
    requires Opened(start)
    ensures ApprovalFrom(start, calls, id)
  {
    if calls != [] {
      var init, c := calls[..|calls| - 1], calls[|calls| - 1];
      ApprovalsComeFrom(start, init, id);
      var rows := FlowAfter(start, calls).rows;
      if id in rows && rows[id].interaction == start.uid {
        RowComesFrom(FlowAfter(start, init), c, id);
        var b := StartedAt(start, calls, id).value;
        AskedStays(start, calls, b);
      }
    }
  }

  /** Whose factor a verified request presents. */
  function OwnerOf(f: Flow, c: Call, kind: FactorKind): string
    requires FactorChecked(f, c, kind)
  {
    match kind
    case Totp => f.state.identity.accountId
    case Push => f.rows[c.request.id].userId
    case Passkey => c.request.owner.value
  }

  /** The account the factor was asked of: for a passkey, of nobody unless its challenge was begun at a factor step. */
  function AskedAccount(start: Flow, calls: seq<Call>, c: Call, kind: FactorKind): Option<string>
  {
    match kind
    case Totp => AtFactorOf(FlowAfter(start, calls).state)
    case Push =>
      if c.request.ApprovalPoll? && StartedAt(start, calls, c.request.id).Some?
         && StartedAt(start, calls, c.request.id).value <= |calls|
      then AskedOf(start, calls, StartedAt(start, calls, c.request.id).value) else None
    case Passkey =>
      if BegunAt(start, calls).Some? && BegunAt(start, calls).value <= |calls|
      then AskedOf(start, calls, BegunAt(start, calls).value) else None
  }

  /** In every run a verified factor is of the account it was asked of, and only a passkey may be asked of nobody. */
  lemma FactorIsOfTheAsked(start: Flow, calls: seq<Call>, c: Call, kind: FactorKind)
    requires Opened(start) && FactorChecked(FlowAfter(start, calls), c, kind)
    ensures var asked := AskedAccount(start, calls, c, kind);
      && (asked.Some? ==> OwnerOf(FlowAfter(start, calls), c, kind) == asked.value)
      && (asked.None? ==> kind == Passkey)
  {
    UidStays(start, calls);
    match kind
    case Totp =>
    case Push => ApprovalsComeFrom(start, calls, c.request.id);
    case Passkey => ChallengesComeFrom(start, calls);
  }

  /**
   * Whose factor a sign-in lists. Where a factor was due, the one listed is the account's own
   * exactly when it was asked of that account, that is, when the code was checked, the approval
   * started or the passkey challenge begun at the account's own factor step; and for a passkey whose
   * challenge was begun anywhere else, exactly when that passkey happens to be the account's.
   */
  lemma WhoseFactor(start: Flow, calls: seq<Call>, k: nat) returns (how: SignIn)
    requires Opened(start) && k < |calls| && OutcomeOf(start, calls, k).SignedIn?
    requires forall j :: 0 <= j < |calls| ==> HasIds(calls[j])
    ensures how.ByPasskey? ==> OutcomeOf(start, calls, k).amr == [Hwk]
    ensures how.ByPasskey? ==> calls[k].request == PasskeyFinish(Some(OutcomeOf(start, calls, k).accountId), true)
    ensures how.ByPassword? ==> how.identity.accountId == OutcomeOf(start, calls, k).accountId
    ensures how.ByPassword? && !NeedsFactor(how.identity) ==> !ListsFactor(OutcomeOf(start, calls, k).amr)
    ensures how.ByPassword? && NeedsFactor(how.identity) ==>
      var w, account := how.evidence, OutcomeOf(start, calls, k).accountId;
      && HasFactor(start, calls[..k], how.identity, w, OutcomeOf(start, calls, k).amr)
      && w.factor < k && FactorChecked(FlowAfter(start, calls[..w.factor]), calls[w.factor], w.kind)
      && var owner := OwnerOf(FlowAfter(start, calls[..w.factor]), calls[w.factor], w.kind);
         var asked := AskedAccount(start, calls[..w.factor], calls[w.factor], w.kind);
         owner == account <==> if asked.Some? then asked.value == account
                               else w.kind == Passkey && calls[w.factor].request.owner == Some(account)
  {
    how := SignInsAreEarned(start, calls, k);
    if how.ByPassword? {
      AmrHoldsFactor(how.identity, how.evidence.kind);
    }
    if how.ByPassword? && NeedsFactor(how.identity) {
      var w := how.evidence;
      assert calls[..k][..w.factor] == calls[..w.factor];
      FactorIsOfTheAsked(start, calls[..w.factor], calls[w.factor], w.kind);
    }
  }

  /** The next request, with this passkey, is verified as the factor. */
  predicate PasskeyPasses(f: Flow, owner: string) {
    FactorChecked(f, Call(PasskeyFinish(Some(owner), true), true), Passkey)
  }

  /**
   * When a passkey factor proves something about the account. At an account's factor step, every
   * passkey that can pass is the account's own if and only if the remembered challenge, if any, was
   * begun at that account's factor step.
   */
  lemma OwnPasskeyExactly(start: Flow, calls: seq<Call>)
    requires Opened(start) && FlowAfter(start, calls).state.AwaitingFactor?
    ensures var f, b := FlowAfter(start, calls), BegunAt(start, calls);
      (forall owner :: PasskeyPasses(f, owner) ==> owner == f.state.identity.accountId)
      <==> (b.None? || (b.value < |calls| && AskedOf(start, calls, b.value) == Some(f.state.identity.accountId)))
  {
    ChallengesComeFrom(start, calls);
    var f := FlowAfter(start, calls);
    var account := f.state.identity.accountId;
    if f.challenge.Some? && f.challenge.value.owner != Some(account) {
      var other := if f.challenge.value.owner.Some? then f.challenge.value.owner.value else account + "'";
      assert |account + "'"| != |account|;
      assert PasskeyPasses(f, other) && other != account;
    }
  }

  /** And a spendable approval is the account's own if and only if it was started at that account's factor step. */
  lemma OwnApprovalExactly(start: Flow, calls: seq<Call>, id: string)
    requires Opened(start) && FlowAfter(start, calls).state.AwaitingFactor?
    requires Spendable(FlowAfter(start, calls).rows, id, start.uid)
    ensures var f, b := FlowAfter(start, calls), StartedAt(start, calls, id);
      && b.Some? && b.value < |calls|
      && (f.rows[id].userId == f.state.identity.accountId
          <==> AskedOf(start, calls, b.value) == Some(f.state.identity.accountId))
  {
    UidStays(start, calls);
    ApprovalsComeFrom(start, calls, id);
  }

  function Person(id: string, phone: bool): User { User(id, true, true, false, phone, false, false) }

  const FIRST := Flow("uid", AwaitingIdentifier, None, map[])

  /** One more request, and what it answers. */
  lemma Then(start: Flow, calls: seq<Call>, c: Call)
    ensures FlowAfter(start, calls + [c]) == Handle(FlowAfter(start, calls), c).0
    ensures OutcomeOf(start, calls + [c], |calls|) == Handle(FlowAfter(start, calls), c).1
  {
    assert (calls + [c])[..|calls|] == calls;
  }

  /** An account that holds a code, named and with its password verified, wherever the flow began. */
  lemma ToFactor(start: Flow, calls: seq<Call>, u: User) returns (after: seq<Call>)
    requires u.active && u.totp && !u.trustedHere && !u.recoveryArmed && u.id != ""
    requires FlowAfter(start, calls).state == AwaitingIdentifier
    ensures FlowAfter(start, after) == FlowAfter(start, calls).(state := AwaitingFactor(IdentityOf(u), [Pwd]))
  {
    var named, password := Call(Identify(Some(u)), true), Call(Password(true, true), true);
    Then(start, calls, named);
    Then(start, calls + [named], password);
    after := calls + [named] + [password];
  }

  lemma TrustEnds(f: Flow, granted: bool)
    requires f.state.AwaitingTrustedDevice?
    ensures var account := f.state.identity.accountId;
      Handle(f, Call(Trust(false), granted)) == (f.(state := AwaitingIdentifier),
        if granted then SignedIn(account, f.state.amr, false) else NoAccess(account))
  {
  }

  /** A factor verified at the factor step, and the device question declined. */
  lemma FactorThenTrust(start: Flow, calls: seq<Call>, c: Call, kind: FactorKind, granted: bool)
      returns (after: seq<Call>)
    requires FactorChecked(FlowAfter(start, calls), c, kind)
    requires var s := FlowAfter(start, calls).state;
      s.amr == [Pwd] && !s.identity.recovering && !s.identity.deviceTrusted
    ensures after == calls + [c] + [Call(Trust(false), granted)]
    ensures FlowAfter(start, after) == Handle(FlowAfter(start, calls), c).0.(state := AwaitingIdentifier)
    ensures var account := FlowAfter(start, calls).state.identity.accountId;
      OutcomeOf(start, after, |calls| + 1)
      == if granted then SignedIn(account, [Pwd, AmrFor(kind)], false) else NoAccess(account)
    ensures after[..|calls|] == calls && after[|calls|] == c
  {
    var trust := Call(Trust(false), granted);
    Then(start, calls, c);
    Then(start, calls + [c], trust);
    FactorLeads(FlowAfter(start, calls), c, kind);
    assert [Pwd] + [AmrFor(kind)] == [Pwd, AmrFor(kind)];
    TrustEnds(FlowAfter(start, calls + [c]), granted);
    after := calls + [c] + [trust];
    assert after[..|calls|] == calls;
  }

  /**
   * The condition matters: with a challenge begun before the account was named, a run signs in an
   * account that holds only a code, with `hwk` listed for a passkey of somebody else.
   */
  lemma PasskeyOfAnother() returns (calls: seq<Call>, f: nat, k: nat)
    ensures Opened(FIRST) && f < k < |calls| && OutcomeOf(FIRST, calls, k) == SignedIn("ann", [Pwd, Hwk], false)
    ensures calls[f].request == PasskeyFinish(Some("bob"), true)
    ensures FactorChecked(FlowAfter(FIRST, calls[..f]), calls[f], Passkey)
  {
    var begin := Call(PasskeyBegin, true);
    Then(FIRST, [], begin);
    assert [] + [begin] == [begin];
    var at := ToFactor(FIRST, [begin], Person("ann", false));
    calls := FactorThenTrust(FIRST, at, Call(PasskeyFinish(Some("bob"), true), true), Passkey, true);
    f, k := |at|, |at| + 1;
  }

  const APPROVED := Row("ann", "uid", 42, [42], TTL_MS, Some(0), Some(Approved), Some("phone"), None)

  /** Ann starts an approval and approves it on her phone. */
  lemma ApprovalGiven() returns (calls: seq<Call>)
    ensures FlowAfter(FIRST, calls)
      == Flow("uid", AwaitingFactor(IdentityOf(Person("ann", true)), [Pwd]), None, map["a" := APPROVED])
  {
    var ticket := Ticket("a", "ann", Input(Some(42), false), Approved, "phone", 0);
    var begin, answer := Call(ApprovalStart(true, "a", 42, [42], 0), true), Call(PhoneAnswer(ticket), true);
    var at := ToFactor(FIRST, [], Person("ann", true));
    Then(FIRST, at, begin);
    Then(FIRST, at + [begin], answer);
    calls := at + [begin] + [answer];
  }

  /** The same for an approval: it outlives the flow it was started in, and counts for the next account. */
  lemma ApprovalOfAnother() returns (calls: seq<Call>, f: nat, k: nat)
    ensures Opened(FIRST) && f < k < |calls| && OutcomeOf(FIRST, calls, k) == SignedIn("bob", [Pwd, Pop], false)
    ensures calls[f].request == ApprovalPoll("a", 1)
    ensures FactorChecked(FlowAfter(FIRST, calls[..f]), calls[f], Push)
    ensures FlowAfter(FIRST, calls[..f]).rows == map["a" := APPROVED]
  {
    var given := ApprovalGiven();
    var cleared := FactorThenTrust(FIRST, given, Call(TotpCode(true, true), true), Totp, false);
    var at := ToFactor(FIRST, cleared, Person("bob", true));
    calls := FactorThenTrust(FIRST, at, Call(ApprovalPoll("a", 1), true), Push, true);
    f, k := |at|, |at| + 1;
  }

  // ---------------------------------------------------------------- refusals

  predicate NamesActive(c: Call) {
    c.request.Identify? && c.request.user.Some? && c.request.user.value.active
  }

  /**
   * What a refused, out-of-step or failed request changes: nothing, but that a genuine passkey of an
   * account that may not sign in uses up its challenge.
   */
  lemma RefusalsChangeNothing(f: Flow, c: Call)
    ensures var (g, o) := Handle(f, c);
      && (o.WrongStep? || o.Broken? ==> g == f)
      && (o.Refused? ==> g == f || (c.request.PasskeyFinish? && !c.request.active && g == f.(challenge := None)))
      && (o.Noted? ==> g.state == f.state)
  {
  }

  /** The one request that fails: naming an active account past the first step. */
  lemma FailsExactly(f: Flow, c: Call)
    ensures Handle(f, c).1.Broken? <==> NamesActive(c) && !f.state.AwaitingIdentifier?
  {
  }

  /** And what an accepted one does: progress, or the nameless password screen; an ended login clears the flow. */
  lemma AcceptedIsProgress(f: Flow, c: Call)
    requires !f.state.Complete?
    ensures var (g, o) := Handle(f, c);
      && (o.Shown? ==> g.state == o.state)
      && (o.Shown? ==> Measure(g.state) < Measure(f.state) || g.state == AwaitingPassword(NOBODY))
      && (o.SignedIn? || o.NoAccess? ==> g.state == AwaitingIdentifier)
  {
    if f.state.AwaitingFactor? {
      assert c.request.PasskeyBegin? || c.request.PhoneAnswer? ==> Handle(f, c).1.Noted?;
    }
  }

  predicate FailsOn(f: Flow, user: Option<User>, granted: bool) {
    Handle(f, Call(Identify(user), granted)).1.Broken?
  }

  /**
   * Whether the answer to an email tells if the account exists. At the first step it never fails,
   * for anybody; past it a known active account fails and any other does not, so the answers are
   * the same for every email exactly at the first step.
   */
  lemma IdentifyAnswersAlike(f: Flow, granted: bool)
    requires !f.state.Complete?
    ensures (forall u, v :: FailsOn(f, u, granted) == FailsOn(f, v, granted)) <==> f.state.AwaitingIdentifier?
  {
    var ann := Some(Person("ann", false));
    assert FailsOn(f, ann, granted) <==> !f.state.AwaitingIdentifier?;
    assert !FailsOn(f, None, granted);
  }
}

/** The stored state of one interaction, updated in place. */
module Interactions {
  import opened Common
  import opened LoginMachine
  import opened Approvals
  import opened InteractionFlows

  class Interaction {
    const uid: string
    var state: LoginState
    var challenge: Option<Challenge>
    var rows: Table

    constructor (uid: string, rows: Table)
      requires forall id :: id in rows ==> rows[id].interaction != uid
      ensures Opened(Contents())
    {
      this.uid, this.rows, state, challenge := uid, rows, AwaitingIdentifier, None;
    }

    function Contents(): Flow reads this { Flow(uid, state, challenge, rows) }

    /** `finish`: the grant decides, then the login is recorded; the flow is gone either way, and nothing else is. */
    method Finish(accountId: string, amr: seq<AuthMethod>, trust: bool, granted: bool) returns (o: Outcome)
      modifies this`state
      ensures (Contents(), o) == Settle(old(Contents()), Complete(accountId, amr, trust), granted)
    {
      state := AwaitingIdentifier;
      o := if granted then SignedIn(accountId, amr, trust) else NoAccess(accountId);
    }

    method SaveOrFinish(after: LoginState, granted: bool) returns (o: Outcome)
      modifies this`state
      ensures (Contents(), o) == Settle(old(Contents()), after, granted)
    {
      if after.Complete? {
        o := Finish(after.accountId, after.amr, after.trustDevice, granted);
      } else {
        state := after;
        o := Shown(after);
      }
    }

    method PostIdentify(user: Option<User>, granted: bool) returns (o: Outcome)
      modifies this
      ensures (Contents(), o) == Handle(old(Contents()), Call(Identify(user), granted))
    {
      if user.None? || !user.value.active {
        state := AwaitingPassword(NOBODY);
        return Shown(state);
      }
      var u := user.value;
      var factors := [];
      if u.totp { factors := factors + [Totp]; }
      if u.passkey { factors := factors + [Passkey]; }
      if |factors| > 0 && u.phone { factors := factors + [Push]; }
      assert factors == FactorsOf(u);
      var after := Advance(state, Identified(Identity(u.id, factors, u.trustedHere, u.recoveryArmed)));
      if after.Failure? {
        return Broken;
      }
      o := SaveOrFinish(after.value, granted);
    }

    method PostPassword(allowed: bool, verified: bool, granted: bool) returns (o: Outcome)
      modifies this
      ensures (Contents(), o) == Handle(old(Contents()), Call(Password(allowed, verified), granted))
    {
      if !state.AwaitingPassword? {
        return WrongStep;
      }
      if !allowed {
        return Refused;
      }
      var accountId := state.identity.accountId;
      var ok := accountId != "" && verified;
      if !ok {
        return Refused;
      }
      var after := Advance(state, PasswordVerified);
      o := SaveOrFinish(after.value, granted);
    }

    method PostTotp(allowed: bool, verified: bool, granted: bool) returns (o: Outcome)
      modifies this
      ensures (Contents(), o) == Handle(old(Contents()), Call(TotpCode(allowed, verified), granted))
    {
      if !state.AwaitingFactor? {
        return WrongStep;
      }
      if !allowed {
        return Refused;
      }
      if !verified {
        return Refused;
      }
      var after := Advance(state, FactorVerified(Totp));
      o := SaveOrFinish(after.value, granted);
    }

    /** `allowed`: the throttle; the count of approvals already asked for is read from the rows. */
    method StartApproval(allowed: bool, id: string, number: int, choices: seq<int>, now: int, granted: bool)
      returns (o: Outcome)
      modifies this
      ensures (Contents(), o)
        == Handle(old(Contents()), Call(ApprovalStart(allowed, id, number, choices, now), granted))
    {
      if !state.AwaitingFactor? || Push !in state.identity.factors {
        return WrongStep;
      }
      var asked := |set x | x in rows && rows[x].interaction == uid|;
      if !allowed || asked >= MAX_APPROVALS || id in rows {
        return Refused;
      }
      rows := Started(rows, id, state.identity.accountId, uid, number, choices, now);
      o := Noted;
    }

    method PollApproval(id: string, now: int, granted: bool) returns (o: Outcome)
      modifies this
      ensures (Contents(), o) == Handle(old(Contents()), Call(ApprovalPoll(id, now), granted))
    {
      if !state.AwaitingFactor? {
        return WrongStep;
      }
      var found := StateOf(rows, id, uid, now);
      if found.None? || !found.value.Decided? {
        return Refused;
      }
      if found.value.verdict != Approved || !Spendable(rows, id, uid) {
        return Refused;
      }
      rows := Consumed(rows, id, uid, now);
      var after := Advance(state, FactorVerified(Push));
      o := SaveOrFinish(after.value, granted);
    }

    method BeginPasskey(granted: bool) returns (o: Outcome)
      modifies this
      ensures (Contents(), o) == Handle(old(Contents()), Call(PasskeyBegin, granted))
    {
      var known := if state.AwaitingFactor? then Some(state.identity.accountId) else None;
      challenge := Some(Challenge(known));
      o := Noted;
    }

    method FinishPasskey(owner: Option<string>, active: bool, granted: bool) returns (o: Outcome)
      modifies this
      ensures (Contents(), o) == Handle(old(Contents()), Call(PasskeyFinish(owner, active), granted))
      ensures !old(state).AwaitingFactor? && active && old(Answers(Contents(), owner)) ==>
        o == if granted then SignedIn(owner.value, [Hwk], false) else NoAccess(owner.value)
    {
      if challenge.None? || owner.None? {
        return Refused;
      }
      if challenge.value.owner.Some? && challenge.value.owner != owner {
        return Refused;
      }
      challenge := None;
      if !active {
        return Refused;
      }
      var identity := Identity(owner.value, [], false, false);
      var after := if state.AwaitingFactor?
        then Advance(state, FactorVerified(Passkey))
        else Advance(AwaitingIdentifier, PasskeyAuthenticated(identity));
      o := SaveOrFinish(after.value, granted);
    }

    method PostTrust(answer: bool, granted: bool) returns (o: Outcome)
      modifies this
      ensures (Contents(), o) == Handle(old(Contents()), Call(Trust(answer), granted))
    {
      if !state.AwaitingTrustedDevice? {
        return WrongStep;
      }
      var after := Advance(state, TrustedDeviceAnswered(answer));
      o := SaveOrFinish(after.value, granted);
    }
  }
}
