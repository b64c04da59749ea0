/**
 * What the two receiving libraries accept as a back-channel logout token
 * (OpenID Connect Back-Channel Logout 1.0, sections 2.4 and 2.6).
 *
 * Signature, algorithm and expiry are the JWT library's verdict on the token and stand here as one
 * flag. Everything the receivers check themselves is written out, on JSON values as each language
 * sees them.
 */
module LogoutTokens {
  import opened Common

  /** A claim as it comes out of the JSON payload. `Decimal` also stands for a whole number written `5.0`. */
  datatype Json = Missing | Null | Text(text: string) | Integer(n: int) | Decimal(x: real) | Other(truthy: bool)

  datatype Token = Token(
    signed: bool, typ: string, iss: string, aud: seq<string>, nonce: bool, event: bool,
    iat: Json, sub: Json, sid: Json, jti: Json)

  datatype Options = Options(issuer: string, clientId: string, maxAge: nat)

  /** `sid` is `Missing` when the token names no session. */
  datatype Logout = Logout(sub: Json, jti: Json, sid: Json)

  datatype Reason =
    BadSignature | BadClaims | WrongIssuer | NotForThisApp | HasNonce | NotALogoutEvent | TooOld | NamesNobody | NoJti

  datatype Receiver = TypeScript | Python

  const LOGOUT_TYP := "logout+jwt"

  predicate Truthy(j: Json) {
    match j
    case Missing => false
    case Null => false
    case Text(s) => s != ""
    case Integer(n) => n != 0
    case Decimal(x) => x != 0.0
    case Other(t) => t
  }

  predicate IsNumber(j: Json) { j.Integer? || j.Decimal? }

  function Number(j: Json): real
    requires IsNumber(j)
  {
    if j.Integer? then j.n as real else j.x
  }

  /** TypeScript reads a claim of any other type as the empty string. */
  function AsText(j: Json): Json { if j.Text? then j else Text("") }

  /** The clock each receiver compares `iat` with: TypeScript drops the fraction of a second. */
  function Clock(r: Receiver, now: real): real {
    if r.TypeScript? then now.Floor as real else now
  }

  function VerifyTypeScript(t: Token, o: Options, now: real): Result<Logout, Reason> {
    if !t.signed || t.iss != o.issuer || o.clientId !in t.aud || t.typ != LOGOUT_TYP then Failure(BadClaims)
    else if t.nonce then Failure(HasNonce)
    else if !t.event then Failure(NotALogoutEvent)
    else if !IsNumber(t.iat) || !Truthy(t.iat) then Failure(TooOld)
    else if now.Floor as real - Number(t.iat) > o.maxAge as real then Failure(TooOld)
    else if !Truthy(AsText(t.sub)) && !Truthy(AsText(t.sid)) then Failure(NamesNobody)
    else if !Truthy(AsText(t.jti)) then Failure(NoJti)
    else Success(Logout(AsText(t.sub), t.jti, if Truthy(AsText(t.sid)) then t.sid else Missing))
  }

  function VerifyPython(t: Token, o: Options, now: real): Result<Logout, Reason> {
    if !t.signed then Failure(BadSignature)
    else if t.iss != o.issuer then Failure(WrongIssuer)
    else if o.clientId !in t.aud then Failure(NotForThisApp)
    else if t.nonce then Failure(HasNonce)
    else if !t.event then Failure(NotALogoutEvent)
    else if !t.iat.Integer? || now - t.iat.n as real > o.maxAge as real then Failure(TooOld)
    else if !Truthy(t.sub) && !Truthy(t.sid) then Failure(NamesNobody)
    else if !Truthy(t.jti) then Failure(NoJti)
    else Success(Logout(if Truthy(t.sub) then t.sub else Text(""), t.jti, if t.sid.Null? then Missing else t.sid))
  }

  function Verify(r: Receiver, t: Token, o: Options, now: real): Result<Logout, Reason> {
    if r.TypeScript? then VerifyTypeScript(t, o, now) else VerifyPython(t, o, now)
  }

  /** The claims the provider itself puts in a logout token. */
  predicate Minted(t: Token) {
    && t.typ == LOGOUT_TYP
    && !t.nonce && t.event
    && t.iat.Integer? && t.iat.n != 0
    && t.sub.Text? && t.sub.text != ""
    && t.jti.Text? && t.jti.text != ""
    && (t.sid.Missing? || (t.sid.Text? && t.sid.text != ""))
  }

  /**
   * No replayed sign-in token ends a session, and nothing stale does: whatever either receiver
   * accepts was signed for this app by this issuer, carries the logout event and no nonce, names
   * somebody, has a `jti`, and is at most `maxAge` old on the clock that receiver reads.
   */
  lemma AcceptedIsALogout(r: Receiver, t: Token, o: Options, now: real)
    requires Verify(r, t, o, now).Success?
    ensures t.signed && t.iss == o.issuer && o.clientId in t.aud && t.event && !t.nonce
    ensures IsNumber(t.iat) && Clock(r, now) - Number(t.iat) <= o.maxAge as real
    ensures var v := Verify(r, t, o, now).value;
      && v.jti == t.jti && Truthy(v.jti)
      && (Truthy(v.sub) ==> v.sub == t.sub) && (Truthy(v.sid) ==> v.sid == t.sid)
      && (Truthy(v.sub) || Truthy(v.sid))
  {
  }

  /** What a reason says of the token it is given for. */
  predicate Faulty(r: Receiver, t: Token, o: Options, now: real, e: Reason) {
    match e
    case BadSignature => r.Python? && !t.signed
    case BadClaims => r.TypeScript? && (!t.signed || t.iss != o.issuer || o.clientId !in t.aud || t.typ != LOGOUT_TYP)
    case WrongIssuer => r.Python? && t.iss != o.issuer
    case NotForThisApp => r.Python? && o.clientId !in t.aud
    case HasNonce => t.nonce
    case NotALogoutEvent => !t.event
    case TooOld =>
      || (if r.Python? then !t.iat.Integer? else !IsNumber(t.iat) || !Truthy(t.iat))
      || Clock(r, now) - Number(t.iat) > o.maxAge as real
    case NamesNobody =>
      if r.Python? then !Truthy(t.sub) && !Truthy(t.sid) else !Truthy(AsText(t.sub)) && !Truthy(AsText(t.sid))
    case NoJti => if r.Python? then !Truthy(t.jti) else !Truthy(AsText(t.jti))
  }

  /** A token is accepted exactly without a fault, and a refusal names a fault the token has. */
  lemma RefusedExactly(r: Receiver, t: Token, o: Options, now: real)
    ensures Verify(r, t, o, now).Success? <==> forall e :: !Faulty(r, t, o, now, e)
    ensures Verify(r, t, o, now).Failure? ==> Faulty(r, t, o, now, Verify(r, t, o, now).error)
  {
    var v := Verify(r, t, o, now);
    if v.Success? {
      forall e ensures !Faulty(r, t, o, now, e) {
        match e {
          case TooOld =>
          case _ =>
        }
      }
    } else {
      assert Faulty(r, t, o, now, v.error);
    }
  }

  /** A token the provider mints for this app is accepted, by either receiver, exactly while it is young enough. */
  lemma MintedIsAccepted(r: Receiver, t: Token, o: Options, now: real)
    requires Minted(t) && t.signed && t.iss == o.issuer && o.clientId in t.aud
    ensures Verify(r, t, o, now).Success? <==> Clock(r, now) - Number(t.iat) <= o.maxAge as real
  {
  }

  /**
   * On tokens the provider mints, everything Python accepts TypeScript accepts with the same
   * content, and the two differ only in the fraction of a second in which the age passes `maxAge`.
   */
  lemma ReceiversAgree(t: Token, o: Options, now: real)
    requires Minted(t)
    ensures VerifyPython(t, o, now).Success? ==> VerifyTypeScript(t, o, now) == VerifyPython(t, o, now)
    ensures VerifyTypeScript(t, o, now).Success? && VerifyPython(t, o, now).Failure?
      <==> t.signed && t.iss == o.issuer && o.clientId in t.aud
           && now.Floor - t.iat.n == o.maxAge && now.Floor as real < now
  {
    if VerifyTypeScript(t, o, now).Success? && VerifyPython(t, o, now).Failure? {
      assert now.Floor - t.iat.n <= o.maxAge;
      assert (now.Floor + 1 - t.iat.n) as real > o.maxAge as real;
    }
  }

  /**
   * On arbitrary tokens the acceptance sets differ in exactly these ways: Python does not look at
   * `typ`, refuses an `iat` that is not written as an integer, and takes claims of any type.
   */
  lemma WhereReceiversDiffer(t: Token, o: Options, now: real)
    ensures VerifyPython(t, o, now).Success? && VerifyTypeScript(t, o, now).Failure?
      <==> VerifyPython(t, o, now).Success?
           && (t.typ != LOGOUT_TYP || t.iat == Integer(0)
               || (!Truthy(AsText(t.sub)) && !Truthy(AsText(t.sid))) || !Truthy(AsText(t.jti)))
    ensures VerifyTypeScript(t, o, now).Success? && VerifyPython(t, o, now).Failure?
      <==> VerifyTypeScript(t, o, now).Success? && (t.iat.Decimal? || now - Number(t.iat) > o.maxAge as real)
  {
    if VerifyPython(t, o, now).Success? {
      assert now.Floor as real <= now;
    }
  }
}
