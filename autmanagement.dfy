/**
 * The authentication controller: issuing a token pair, and verifying and
 * rotating a presented (access token, refresh token) pair against the
 * ledger.
 *
 * Signing, serialising and signature-checking the access token are done by
 * a library and are not modelled: a presented access token is the abstract
 * result of validating it (`ValidatedToken`), and an issued one is its claim
 * set (`Jwt`). The clock, the GUID generator and the random source are
 * parameters.
 */
module AutManagement {
  import opened Wrappers
  import opened Clock
  import opened Tokens
  import opened Ledger

  /** A user of the identity store. */
  datatype IdentityUser = IdentityUser(id: string, email: string)

  /** The request body of the refresh endpoint. */
  datatype TokenRequest = TokenRequest(token: string, refreshToken: string)

  /**
   * What validating `TokenRequest.token` yields: whether the signature,
   * issuer and audience checks passed, whether the result is a JWT, its
   * header `alg`, the numeric value of its `exp` claim (None when the claim
   * is missing or is not an integer that long.Parse accepts), and the
   * values of all its `jti` claims.
   */
  datatype ValidatedToken = ValidatedToken(
    signatureValid: bool,
    isJwt: bool,
    alg: string,
    exp: Option<int>,
    jtis: seq<string>)

  /** The claims of an issued access token (id, sub and email, jti, nbf, exp). */
  datatype Jwt = Jwt(userId: string, email: string, jti: string, notBefore: Time, expires: Time)

  /** The failures VerifyToken reports in an unsuccessful AuthResult. */
  datatype Failure =
    | InvalidJwt
    | JwtNotExpired
    | RefreshTokenMissing
    | RefreshTokenExpired
    | TokenAlreadyUsed
    | TokenRevoked
    | TokenMismatch

  /** The exceptions that escape VerifyToken (logged, then rethrown). */
  datatype Exception =
    | SecurityTokenInvalid   // ValidateToken rejects the signature, issuer or audience
    | FormatError            // long.Parse of a missing or non-numeric exp
    | Overflow               // long.Parse of an exp outside the 64-bit range
    | ArgumentOutOfRange     // the exp instant lies outside the DateTime range
    | NullReference          // no jti claim, or no user for the record's UserId
    | InvalidOperation       // more than one jti claim

  /** The response body. `token` is the issued access token's claim set. */
  datatype AuthResult = AuthResult(
    success: bool,
    token: Option<Jwt>,
    refreshToken: Option<string>,
    errors: seq<string>)

  /** What VerifyToken produces: `null`, an AuthResult, or an exception. */
  datatype Outcome = NullResult | Returned(result: AuthResult) | Threw(error: Exception)

  /** The HTTP answer of an endpoint. */
  datatype Response = Ok(body: AuthResult) | BadRequest(body: AuthResult) | ServerError(error: Exception)

  /** The verdict of the guard chain; `Passed` carries the index of the matched record. */
  datatype Check = Rejected | Failed(failure: Failure) | Raised(error: Exception) | Passed(index: nat)

  /** The outcome of VerifyToken together with the ledger it leaves. */
  datatype Step = Step(outcome: Outcome, records: seq<RefreshToken>)

  /** Fresh values drawn by one issuance: two GUIDs and 25 random draws. */
  datatype Entropy = Entropy(jti: Guid, tokenGuid: Guid, draws: seq<Draw>) {
    predicate Valid() {
      |draws| == RandomPartLength
    }
  }

  function Message(f: Failure): string {
    match f
    case InvalidJwt => "Invalid Jwt"
    case JwtNotExpired => "Jwt not expired"
    case RefreshTokenMissing => "refresh token doesnt exist"
    case RefreshTokenExpired => "Refreshtoken has expired, login required"
    case TokenAlreadyUsed => "Token already used"
    case TokenRevoked => "Token has been revoked"
    case TokenMismatch => "Token does not match"
  }

  function ErrorResult(message: string): AuthResult {
    AuthResult(false, None, None, [message])
  }

  function FailureResult(f: Failure): AuthResult {
    ErrorResult(Message(f))
  }

  // ---------------------------------------------------------------------
  // The algorithm check

  /** `SecurityAlgorithms.HmacSha512`. */
  const HmacSha512: string := "HS512"

  function FoldCase(c: char): char {
    if 'A' <= c <= 'Z' then (c as int + 32) as char else c
  }

  /** Case-insensitive string equality, with case folding for ASCII letters. */
  predicate EqualsIgnoringCase(a: string, b: string) {
    |a| == |b| && forall i :: 0 <= i < |a| ==> FoldCase(a[i]) == FoldCase(b[i])
  }

  predicate AlgMatches(alg: string) {
    EqualsIgnoringCase(alg, HmacSha512)
  }

  /** The algorithm check admits exactly the four spellings of HS512. */
  lemma AlgMatchesExactly(alg: string)
    ensures AlgMatches(alg) <==> alg in {"HS512", "hS512", "Hs512", "hs512"}
  {
    if AlgMatches(alg) {
      assert FoldCase(alg[0]) == 'h' && FoldCase(alg[1]) == 's';
      assert alg[2] == '5' && alg[3] == '1' && alg[4] == '2' by {
        assert FoldCase(alg[2]) == '5' && FoldCase(alg[3]) == '1' && FoldCase(alg[4]) == '2';
      }
      assert alg[0] == 'H' || alg[0] == 'h';
      assert alg[1] == 'S' || alg[1] == 's';
      assert alg == [alg[0], alg[1], '5', '1', '2'];
      if alg[0] == 'H' && alg[1] == 'S' {
        assert alg == "HS512";
      } else if alg[0] == 'h' && alg[1] == 'S' {
        assert alg == "hS512";
      } else if alg[0] == 'H' {
        assert alg == "Hs512";
      } else {
        assert alg == "hs512";
      }
    } else {
      forall w | w in {"HS512", "hS512", "Hs512", "hs512"}
        ensures AlgMatches(w)
      {
        assert w == "HS512" || w == "hS512" || w == "Hs512" || w == "hs512";
        assert forall i :: 0 <= i < 5 ==> FoldCase(w[i]) == FoldCase(HmacSha512[i]);
      }
    }
  }

  // ---------------------------------------------------------------------
  // The guard chain of VerifyToken

  const MinInt64: int := -0x8000_0000_0000_0000
  const MaxInt64: int := 0x7FFF_FFFF_FFFF_FFFF

  /**
   * The guards on the access token: a verdict when one of them fires, None
   * when the chain may go on to the ledger.
   */
  function ClaimStage(t: ValidatedToken, now: Time): (c: Option<Check>)
    ensures c.None? <==>
      t.signatureValid && (t.isJwt ==> AlgMatches(t.alg)) && t.exp.Some? &&
      0 < t.exp.value <= MaxInt64 && t.exp.value * TicksPerSecond <= MaxTime &&
      t.exp.value * TicksPerSecond <= now
    ensures c.Some? ==> !c.value.Passed?
    ensures c == Some(Rejected) <==> t.signatureValid && t.isJwt && !AlgMatches(t.alg)
    ensures c == Some(Failed(InvalidJwt)) <==>
      t.signatureValid && (t.isJwt ==> AlgMatches(t.alg)) && t.exp.Some? && MinInt64 <= t.exp.value <= 0
    ensures c == Some(Failed(JwtNotExpired)) <==>
      t.signatureValid && (t.isJwt ==> AlgMatches(t.alg)) && t.exp.Some? &&
      0 < t.exp.value <= MaxInt64 && t.exp.value * TicksPerSecond <= MaxTime &&
      t.exp.value * TicksPerSecond > now
  {
    if !t.signatureValid then Some(Raised(SecurityTokenInvalid))
    else if t.isJwt && !AlgMatches(t.alg) then Some(Rejected)
    else if t.exp.None? then Some(Raised(FormatError))
    else if !(MinInt64 <= t.exp.value <= MaxInt64) then Some(Raised(Overflow))
    else if t.exp.value <= 0 then Some(Failed(InvalidJwt))
    else match UnixTimeStampToDateTime(t.exp.value)
      case None => Some(Raised(ArgumentOutOfRange))
      case Some(expiryDate) =>
        if expiryDate > now then Some(Failed(JwtNotExpired)) else None
  }

  predicate ClaimsPass(t: ValidatedToken, now: Time) {
    ClaimStage(t, now).None?
  }

  /**
   * The guards on the stored record, in the order the controller applies
   * them: a verdict when one fires, None when the pair may be rotated.
   */
  function RecordStage(stored: RefreshToken, t: ValidatedToken, now: Time): (c: Option<Check>)
    ensures c.None? <==> now <= stored.expiryData && Live(stored) && t.jtis == [stored.jwtId]
    ensures c.Some? ==> !c.value.Passed? && !c.value.Rejected?
  {
    if now > stored.expiryData then Some(Failed(RefreshTokenExpired))
    else if stored.isUsed then Some(Failed(TokenAlreadyUsed))
    else if stored.isRevoked then Some(Failed(TokenRevoked))
    else if |t.jtis| == 0 then Some(Raised(NullReference))
    else if |t.jtis| > 1 then Some(Raised(InvalidOperation))
    else if stored.jwtId != t.jtis[0] then Some(Failed(TokenMismatch))
    else None
  }

  /** The whole guard chain of VerifyToken; nothing in it writes. */
  function Guard(records: seq<RefreshToken>, refreshToken: string, t: ValidatedToken, now: Time): (c: Check)
    ensures c.Passed? ==> c.index < |records| && records[c.index].token == refreshToken
    ensures c.Passed? ==> Live(records[c.index]) && now <= records[c.index].expiryData
    ensures c.Passed? ==> t.jtis == [records[c.index].jwtId] && t.exp.Some?
    ensures c.Passed? ==> t.exp.value * TicksPerSecond <= now
    ensures c.Passed? ==> ClaimsPass(t, now) && FirstMatch(records, refreshToken) == Some(c.index)
  {
    match ClaimStage(t, now)
    case Some(verdict) => verdict
    case None =>
      match FirstMatch(records, refreshToken)
      case None => Failed(RefreshTokenMissing)
      case Some(i) =>
        match RecordStage(records[i], t, now)
        case Some(verdict) => verdict
        case None => Passed(i)
  }

  // ---------------------------------------------------------------------
  // Issuance

  /** The access token GenerateJwtAsync issues to `user` at `now`. */
  function IssuedJwt(user: IdentityUser, now: Time, e: Entropy): (j: Jwt)
    ensures j.userId == user.id && j.email == user.email
    ensures j.notBefore == now && j.expires == j.notBefore + AccessLifetime
    ensures j.jti == GuidString(e.jti) && |j.jti| == 36
  {
    Jwt(user.id, user.email, GuidString(e.jti), now, now + AccessLifetime)
  }

  /** The ledger record GenerateJwtAsync adds for `user` at `now`. */
  function IssuedRecord(user: IdentityUser, now: Time, e: Entropy): (r: RefreshToken)
    requires e.Valid()
    ensures r.userId == user.id && r.jwtId == IssuedJwt(user, now, e).jti
    ensures Live(r) && r.addedDate == now && r.expiryData == r.addedDate + RefreshLifetime
    ensures |r.token| == RandomPartLength + 36 && OverAlphabet(r.token[..RandomPartLength])
    ensures r.token[RandomPartLength..] == GuidString(e.tokenGuid)
  {
    RefreshToken(
      userId := user.id,
      token := RefreshTokenValue(e.draws, e.tokenGuid),
      jwtId := GuidString(e.jti),
      isUsed := false,
      isRevoked := false,
      addedDate := now,
      expiryData := now + RefreshLifetime)
  }

  /** The successful AuthResult GenerateJwtAsync returns. */
  function IssuedResult(user: IdentityUser, now: Time, e: Entropy): AuthResult
    requires e.Valid()
  {
    AuthResult(true, Some(IssuedJwt(user, now, e)), Some(IssuedRecord(user, now, e).token), [])
  }

  /** The ledger part of GenerateJwtAsync: build the record, add it, answer with the pair. */
  method GenerateJwt(ledger: RefreshTokenSet, user: IdentityUser, now: Time, e: Entropy) returns (r: AuthResult)
    requires e.Valid()
    modifies ledger
    ensures ledger.records == old(ledger.records) + [IssuedRecord(user, now, e)]
    ensures r == IssuedResult(user, now, e)
  {
    var jwt := Jwt(user.id, user.email, GuidString(e.jti), now, now + AccessLifetime);
    var prefix := RandomString(RandomPartLength, e.draws);
    var record := RefreshToken(user.id, prefix + GuidString(e.tokenGuid), jwt.jti, false, false, now, now + RefreshLifetime);
    ledger.Add(record);
    r := AuthResult(true, Some(jwt), Some(record.token), []);
  }

  // ---------------------------------------------------------------------
  // Verification and rotation

  /**
   * VerifyToken as a function of the ledger: the guard chain, then on
   * success the matched record is retired, its user looked up, and a new
   * pair issued. `users` is the identity store, keyed by user id.
   */
  function Verify(records: seq<RefreshToken>, users: map<string, IdentityUser>, request: TokenRequest,
                  t: ValidatedToken, now: Time, e: Entropy): (s: Step)
    requires e.Valid()
    ensures |records| <= |s.records| <= |records| + 1
    ensures s.outcome.Returned? && s.outcome.result.success <==> |s.records| == |records| + 1
  {
    match Guard(records, request.refreshToken, t, now)
    case Rejected => Step(NullResult, records)
    case Failed(f) => Step(Returned(FailureResult(f)), records)
    case Raised(err) => Step(Threw(err), records)
    case Passed(i) =>
      var retired := records[i := Retired(records[i])];
      if records[i].userId in users then
        var user := users[records[i].userId];
        Step(Returned(IssuedResult(user, now, e)), retired + [IssuedRecord(user, now, e)])
      else
        Step(Threw(NullReference), retired)
  }

  /** VerifyToken on the ledger object. */
  method VerifyToken(ledger: RefreshTokenSet, users: map<string, IdentityUser>, request: TokenRequest,
                     t: ValidatedToken, now: Time, e: Entropy) returns (o: Outcome)
    requires e.Valid()
    modifies ledger
    ensures Step(o, ledger.records) == Verify(old(ledger.records), users, request, t, now, e)
  {
    var check := Guard(ledger.records, request.refreshToken, t, now);
    match check {
      case Rejected =>
        o := NullResult;
      case Failed(f) =>
        o := Returned(FailureResult(f));
      case Raised(err) =>
        o := Threw(err);
      case Passed(i) =>
        ledger.MarkUsed(i);
        var stored := ledger.records[i];
        if stored.userId in users {
          var r := GenerateJwt(ledger, users[stored.userId], now, e);
          o := Returned(r);
        } else {
          o := Threw(NullReference);
        }
    }
  }

  // ---------------------------------------------------------------------
  // Endpoints

  /** How the refresh endpoint answers an outcome of VerifyToken. */
  function RefreshResponse(o: Outcome): (r: Response)
    ensures r.BadRequest? <==> o.NullResult?
    ensures r.BadRequest? ==> r.body == ErrorResult("Invalid Jwt")
    ensures o.Returned? ==> r == Ok(o.result)
    ensures r.ServerError? <==> o.Threw?
  {
    match o
    case NullResult => BadRequest(ErrorResult("Invalid Jwt"))
    case Returned(result) => Ok(result)
    case Threw(err) => ServerError(err)
  }

  /** The refresh endpoint; `payloadValid` is the model-state check of the body. */
  method RefreshTokenEndpoint(ledger: RefreshTokenSet, users: map<string, IdentityUser>, payloadValid: bool,
                              request: TokenRequest, t: ValidatedToken, now: Time, e: Entropy)
      returns (r: Response)
    requires e.Valid()
    modifies ledger
    ensures !payloadValid ==> r == BadRequest(ErrorResult("Invalid payload")) && ledger.records == old(ledger.records)
    ensures payloadValid ==>
      var s := Verify(old(ledger.records), users, request, t, now, e);
      r == RefreshResponse(s.outcome) && ledger.records == s.records
  {
    if !payloadValid {
      return BadRequest(ErrorResult("Invalid payload"));
    }
    var o := VerifyToken(ledger, users, request, t, now, e);
    r := RefreshResponse(o);
  }

  /** What Login does before issuing: reject, or issue a pair to the user found. */
  datatype LoginDecision = Reject(body: AuthResult) | IssueTo(user: IdentityUser)

  /**
   * The existence and password decision of Login. `existing` is the user
   * found by e-mail, `passwordCorrect` the identity store's password check.
   */
  function DecideLogin(payloadValid: bool, existing: Option<IdentityUser>, passwordCorrect: bool): (d: LoginDecision)
    ensures d.IssueTo? <==> payloadValid && existing.Some? && passwordCorrect
    ensures d.IssueTo? ==> d.user == existing.value
    ensures d.Reject? ==> !d.body.success && |d.body.errors| == 1
    ensures !payloadValid ==> d == Reject(ErrorResult("Invalid payload"))
  {
    if !payloadValid then Reject(ErrorResult("Invalid payload"))
    else if existing.None? then Reject(ErrorResult("Invalid authentication request"))
    else if passwordCorrect then IssueTo(existing.value)
    else Reject(ErrorResult("Invalid authentication request"))
  }

  /** The Login endpoint. */
  method Login(ledger: RefreshTokenSet, payloadValid: bool, existing: Option<IdentityUser>, passwordCorrect: bool,
               now: Time, e: Entropy) returns (r: Response)
    requires e.Valid()
    modifies ledger
    ensures match DecideLogin(payloadValid, existing, passwordCorrect)
      case Reject(body) => r == BadRequest(body) && ledger.records == old(ledger.records)
      case IssueTo(user) =>
        r == Ok(IssuedResult(user, now, e)) && ledger.records == old(ledger.records) + [IssuedRecord(user, now, e)]
  {
    match DecideLogin(payloadValid, existing, passwordCorrect) {
      case Reject(body) =>
        r := BadRequest(body);
      case IssueTo(user) =>
        var result := GenerateJwt(ledger, user, now, e);
        r := Ok(result);
    }
  }
}
