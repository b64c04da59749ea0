/** The login state machine: pure, with one terminal state that carries the evidence. */
module LoginMachine {
  import opened Common

  datatype FactorKind = Totp | Passkey | Push

  /** Authentication method references, section 2 of RFC 8176, and `recovery`. */
  datatype AuthMethod = Pwd | Otp | Hwk | Pop | Recovery

  datatype Identity = Identity(accountId: string, factors: seq<FactorKind>, deviceTrusted: bool, recovering: bool)

  datatype LoginState =
    | AwaitingIdentifier
    | AwaitingPassword(identity: Identity)
    | AwaitingFactor(identity: Identity, amr: seq<AuthMethod>)
    | AwaitingTrustedDevice(identity: Identity, amr: seq<AuthMethod>)
    | Complete(accountId: string, amr: seq<AuthMethod>, trustDevice: bool)

  datatype LoginEvent =
    | Identified(identity: Identity)
    | IdentityRejected
    | PasswordVerified
    | PasswordRejected
    | FactorVerified(kind: FactorKind)
    | FactorRejected
    | TrustedDeviceAnswered(trust: bool)
    | PasskeyAuthenticated(identity: Identity)

  datatype InvalidTransition = InvalidTransition(state: LoginState, event: LoginEvent)

  function AmrFor(k: FactorKind): AuthMethod {
    match k
    case Totp => Otp
    case Passkey => Hwk
    case Push => Pop
  }

  function AmrOf(id: Identity, credentials: seq<AuthMethod>): seq<AuthMethod> {
    if id.recovering then credentials + [Recovery] else credentials
  }

  /** The account holds a second factor and this browser is not excused from it. */
  predicate NeedsFactor(id: Identity) {
    id.factors != [] && !id.deviceTrusted
  }

  function AfterCredential(id: Identity, credentials: seq<AuthMethod>, factorUsed: bool): LoginState {
    var amr := AmrOf(id, credentials);
    if !factorUsed && NeedsFactor(id) then AwaitingFactor(id, amr)
    else if factorUsed && !id.deviceTrusted then AwaitingTrustedDevice(id, amr)
    else Complete(id.accountId, amr, false)
  }

  function Advance(s: LoginState, e: LoginEvent): Result<LoginState, InvalidTransition> {
    match (s, e)
    case (AwaitingIdentifier, Identified(id)) => Success(AwaitingPassword(id))
    case (AwaitingIdentifier, IdentityRejected) => Success(s)
    case (AwaitingIdentifier, PasskeyAuthenticated(id)) => Success(Complete(id.accountId, [Hwk], false))
    case (AwaitingPassword(id), PasswordVerified) => Success(AfterCredential(id, [Pwd], false))
    case (AwaitingPassword(_), PasswordRejected) => Success(s)
    case (AwaitingFactor(id, amr), FactorVerified(m)) => Success(AfterCredential(id, amr + [AmrFor(m)], true))
    case (AwaitingFactor(_, _), FactorRejected) => Success(s)
    case (AwaitingTrustedDevice(id, amr), TrustedDeviceAnswered(t)) => Success(Complete(id.accountId, amr, t))
    case _ => Failure(InvalidTransition(s, e))
  }

  /** Which events a login takes in which state; any other fails and says so. */
  lemma AcceptsExactly(s: LoginState, e: LoginEvent)
    ensures Advance(s, e).Success? <==>
      || (s.AwaitingIdentifier? && (e.Identified? || e.IdentityRejected? || e.PasskeyAuthenticated?))
      || (s.AwaitingPassword? && (e.PasswordVerified? || e.PasswordRejected?))
      || (s.AwaitingFactor? && (e.FactorVerified? || e.FactorRejected?))
      || (s.AwaitingTrustedDevice? && e.TrustedDeviceAnswered?)
    ensures Advance(s, e).Failure? ==> Advance(s, e).error == InvalidTransition(s, e)
    ensures Advance(s, e).Success? && IsRejection(e) ==> Advance(s, e).value == s
  {
  }

  function Measure(s: LoginState): nat {
    match s
    case AwaitingIdentifier => 4
    case AwaitingPassword(_) => 3
    case AwaitingFactor(_, _) => 2
    case AwaitingTrustedDevice(_, _) => 1
    case Complete(_, _, _) => 0
  }

  predicate IsRejection(e: LoginEvent) {
    e.IdentityRejected? || e.PasswordRejected? || e.FactorRejected?
  }

  ghost predicate Follows(s: LoginState, events: seq<LoginEvent>, r: LoginState)
    decreases events
  {
    if events == [] then r == s
    else Advance(s, events[0]).Success? && Follows(Advance(s, events[0]).value, events[1..], r)
  }

  function Progress(events: seq<LoginEvent>): nat {
    if events == [] then 0 else (if IsRejection(events[0]) then 0 else 1) + Progress(events[1..])
  }

  /**
   * Every accepted event is a rejection that leaves the login where it was, or progress; so a login
   * takes at most four progressing events however many rejections it sees.
   */
  lemma {:induction false} LoginsAreShort(s: LoginState, events: seq<LoginEvent>, r: LoginState)
    requires Follows(s, events, r)
    ensures Progress(events) <= Measure(s) - Measure(r)
    ensures Progress(events) == 0 <==> r == s
    decreases events
  {
    if events != [] {
      LoginsAreShort(Advance(s, events[0]).value, events[1..], r);
    }
  }
}
