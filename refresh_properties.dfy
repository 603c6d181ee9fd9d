/**
 * Properties of the refresh-token lifecycle: the order of the guards, what
 * a failed or successful verification does to the ledger, single use, and
 * the round trip from issuance to refresh.
 */
module RefreshProperties {
  import opened Wrappers
  import opened Clock
  import opened Tokens
  import opened Ledger
  import opened AutManagement

  // ---------------------------------------------------------------------
  // The order of the guards

  /** Only a non-HS512 JWT makes VerifyToken return null; the ledger is untouched then. */
  lemma NullOnlyForWrongAlgorithm(records: seq<RefreshToken>, users: map<string, IdentityUser>,
                                  request: TokenRequest, t: ValidatedToken, now: Time, e: Entropy)
    requires e.Valid()
    ensures Verify(records, users, request, t, now, e).outcome.NullResult? <==>
      t.signatureValid && t.isJwt && !AlgMatches(t.alg)
    ensures Verify(records, users, request, t, now, e).outcome.NullResult? ==>
      Verify(records, users, request, t, now, e).records == records
  {
  }

  /** The access-token guards decide before the ledger is consulted. */
  lemma ClaimFailureIgnoresLedger(r1: seq<RefreshToken>, q1: string, r2: seq<RefreshToken>, q2: string,
                                  t: ValidatedToken, now: Time)
    requires !ClaimsPass(t, now)
    ensures Guard(r1, q1, t, now) == Guard(r2, q2, t, now)
    ensures Guard(r1, q1, t, now) == ClaimStage(t, now).value
    ensures !Guard(r1, q1, t, now).Passed?
  {
  }

  /**
   * What VerifyToken returns when an access-token guard fires: null for the
   * algorithm, the guard's failure ("Invalid Jwt", "Jwt not expired") as an
   * unsuccessful result, or its exception; the ledger is left as it was.
   */
  lemma ClaimFailureOutcome(records: seq<RefreshToken>, users: map<string, IdentityUser>,
                            request: TokenRequest, t: ValidatedToken, now: Time, e: Entropy)
    requires e.Valid() && !ClaimsPass(t, now)
    ensures Verify(records, users, request, t, now, e) ==
      match ClaimStage(t, now).value
      case Rejected => Step(NullResult, records)
      case Failed(f) => Step(Returned(FailureResult(f)), records)
      case Raised(err) => Step(Threw(err), records)
      case Passed(_) => Step(NullResult, [])
    ensures ClaimStage(t, now) == Some(Failed(InvalidJwt)) ==>
      Verify(records, users, request, t, now, e) == Step(Returned(FailureResult(InvalidJwt)), records)
    ensures ClaimStage(t, now) == Some(Failed(JwtNotExpired)) ==>
      Verify(records, users, request, t, now, e) == Step(Returned(FailureResult(JwtNotExpired)), records)
  {
  }

  /** Access token accepted and no record with the token: "refresh token doesnt exist". */
  lemma MissingRecordReported(records: seq<RefreshToken>, refreshToken: string, t: ValidatedToken, now: Time)
    requires ClaimsPass(t, now)
    requires forall j :: 0 <= j < |records| ==> records[j].token != refreshToken
    ensures Guard(records, refreshToken, t, now) == Failed(RefreshTokenMissing)
  {
  }

  /** A record past its expiry is reported expired, whether or not it is also used or revoked. */
  lemma ExpiredReportedFirst(records: seq<RefreshToken>, refreshToken: string, t: ValidatedToken, now: Time, i: nat)
    requires ClaimsPass(t, now)
    requires FirstMatch(records, refreshToken) == Some(i)
    requires now > records[i].expiryData
    ensures Guard(records, refreshToken, t, now) == Failed(RefreshTokenExpired)
  {
  }

  /** An unexpired used record is reported used, whether or not it is also revoked or its jti matches. */
  lemma UsedReportedBeforeRevoked(records: seq<RefreshToken>, refreshToken: string, t: ValidatedToken, now: Time, i: nat)
    requires ClaimsPass(t, now)
    requires FirstMatch(records, refreshToken) == Some(i)
    requires now <= records[i].expiryData && records[i].isUsed
    ensures Guard(records, refreshToken, t, now) == Failed(TokenAlreadyUsed)
  {
  }

  /** An unexpired, unused, revoked record is reported revoked before the jti is even read. */
  lemma RevokedReportedBeforeBinding(records: seq<RefreshToken>, refreshToken: string, t: ValidatedToken, now: Time, i: nat)
    requires ClaimsPass(t, now)
    requires FirstMatch(records, refreshToken) == Some(i)
    requires now <= records[i].expiryData && !records[i].isUsed && records[i].isRevoked
    ensures Guard(records, refreshToken, t, now) == Failed(TokenRevoked)
  {
  }

  /** For a live, unexpired record, "Token does not match" is exactly a single jti that differs from JwtId. */
  lemma MismatchExactly(records: seq<RefreshToken>, refreshToken: string, t: ValidatedToken, now: Time, i: nat)
    requires ClaimsPass(t, now)
    requires FirstMatch(records, refreshToken) == Some(i)
    requires now <= records[i].expiryData && Live(records[i])
    ensures Guard(records, refreshToken, t, now) == Failed(TokenMismatch) <==>
      |t.jtis| == 1 && t.jtis[0] != records[i].jwtId
    ensures Guard(records, refreshToken, t, now).Passed? <==> t.jtis == [records[i].jwtId]
  {
  }

  /**
   * Both expiry tests are strict: an access token whose exp is exactly now
   * counts as expired, and a record whose ExpiryData is exactly now is
   * still accepted.
   */
  lemma ExpiryBoundaries(records: seq<RefreshToken>, refreshToken: string, t: ValidatedToken, now: Time, i: nat)
    requires t.signatureValid && (t.isJwt ==> AlgMatches(t.alg)) && t.exp.Some?
    requires 0 < t.exp.value && now == t.exp.value * TicksPerSecond && IsDateTime(now)
    requires FirstMatch(records, refreshToken) == Some(i)
    requires records[i].expiryData == now && Live(records[i]) && t.jtis == [records[i].jwtId]
    ensures ClaimsPass(t, now)
    ensures Guard(records, refreshToken, t, now) == Passed(i)
  {
  }

  // ---------------------------------------------------------------------
  // What verification does to the ledger

  /** No guard writes: while the chain has not passed, the ledger is unchanged. */
  lemma NoWriteBeforeCommit(records: seq<RefreshToken>, users: map<string, IdentityUser>,
                            request: TokenRequest, t: ValidatedToken, now: Time, e: Entropy)
    requires e.Valid()
    requires !Guard(records, request.refreshToken, t, now).Passed?
    ensures Verify(records, users, request, t, now, e).records == records
    ensures !Verify(records, users, request, t, now, e).outcome.Returned? ||
      !Verify(records, users, request, t, now, e).outcome.result.success
  {
  }

  /** Every failure VerifyToken reports to the caller leaves the ledger as it was. */
  lemma ReportedFailureLeavesLedger(records: seq<RefreshToken>, users: map<string, IdentityUser>,
                                    request: TokenRequest, t: ValidatedToken, now: Time, e: Entropy)
    requires e.Valid()
    requires var o := Verify(records, users, request, t, now, e).outcome;
      o.NullResult? || (o.Returned? && !o.result.success)
    ensures Verify(records, users, request, t, now, e).records == records
  {
  }

  /**
   * On success exactly the matched record is marked used, every other
   * record is as it was, and one new record is appended for the record's
   * user; the caller gets that record's token and a fresh access token.
   */
  lemma SuccessRotatesExactlyOne(records: seq<RefreshToken>, users: map<string, IdentityUser>,
                                 request: TokenRequest, t: ValidatedToken, now: Time, e: Entropy)
    requires e.Valid()
    requires Verify(records, users, request, t, now, e).outcome.Returned?
    requires Verify(records, users, request, t, now, e).outcome.result.success
    ensures Guard(records, request.refreshToken, t, now).Passed?
    ensures var i := Guard(records, request.refreshToken, t, now).index;
      var after := Verify(records, users, request, t, now, e).records;
      && |after| == |records| + 1
      && Live(records[i]) && after[i] == records[i].(isUsed := true)
      && (forall j :: 0 <= j < |records| && j != i ==> after[j] == records[j])
      && records[i].userId in users
      && after[|records|] == IssuedRecord(users[records[i].userId], now, e)
      && Verify(records, users, request, t, now, e).outcome.result.refreshToken == Some(after[|records|].token)
  {
  }

  /** An identity store in which every user is filed under its own id. */
  ghost predicate KeyedById(users: map<string, IdentityUser>) {
    forall k :: k in users ==> users[k].id == k
  }

  /**
   * With an identity store keyed by id, a rotation keeps the owner: the
   * appended record and the new access token belong to the user of the
   * retired record.
   */
  lemma RotationKeepsOwner(records: seq<RefreshToken>, users: map<string, IdentityUser>,
                           request: TokenRequest, t: ValidatedToken, now: Time, e: Entropy)
    requires e.Valid() && KeyedById(users)
    requires Verify(records, users, request, t, now, e).outcome.Returned?
    requires Verify(records, users, request, t, now, e).outcome.result.success
    ensures var i := Guard(records, request.refreshToken, t, now).index;
      var s := Verify(records, users, request, t, now, e);
      && i < |records| && |s.records| == |records| + 1
      && s.records[|records|].userId == records[i].userId
      && s.outcome.result.token.Some? && s.outcome.result.token.value.userId == records[i].userId
      && s.records[|records|].jwtId == s.outcome.result.token.value.jti
  {
  }

  /**
   * When the record's user no longer exists the exception comes after the
   * commit: the record is burnt and no replacement is issued.
   */
  lemma MissingUserBurnsRecord(records: seq<RefreshToken>, users: map<string, IdentityUser>,
                               request: TokenRequest, t: ValidatedToken, now: Time, e: Entropy)
    requires e.Valid()
    requires Guard(records, request.refreshToken, t, now).Passed?
    requires records[Guard(records, request.refreshToken, t, now).index].userId !in users
    ensures var i := Guard(records, request.refreshToken, t, now).index;
      Verify(records, users, request, t, now, e) == Step(Threw(NullReference), records[i := Retired(records[i])])
  {
  }

  /** A rotation keeps the number of live records; a burnt record lowers it by one. */
  lemma RotationKeepsLiveCount(records: seq<RefreshToken>, users: map<string, IdentityUser>,
                               request: TokenRequest, t: ValidatedToken, now: Time, e: Entropy)
    requires e.Valid()
    requires Guard(records, request.refreshToken, t, now).Passed?
    ensures var after := Verify(records, users, request, t, now, e).records;
      LiveCount(after) == if Verify(records, users, request, t, now, e).outcome.Threw?
                          then LiveCount(records) - 1 else LiveCount(records)
  {
    var i := Guard(records, request.refreshToken, t, now).index;
    var retired := records[i := Retired(records[i])];
    LiveCountRetire(records, i);
    if records[i].userId in users {
      LiveCountAppend(retired, IssuedRecord(users[records[i].userId], now, e));
    }
  }

  /** Records that expire one year after they were added. */
  ghost predicate YearLong(records: seq<RefreshToken>) {
    forall j :: 0 <= j < |records| ==> records[j].expiryData == records[j].addedDate + RefreshLifetime
  }

  /** Verification keeps every record expiring one year after it was added. */
  lemma VerifyKeepsYearLong(records: seq<RefreshToken>, users: map<string, IdentityUser>,
                            request: TokenRequest, t: ValidatedToken, now: Time, e: Entropy)
    requires e.Valid() && YearLong(records)
    ensures YearLong(Verify(records, users, request, t, now, e).records)
  {
  }

  // ---------------------------------------------------------------------
  // Single use

  /**
   * After one successful verification with refresh token T, a second
   * verification with T that passes the access-token guards, while the
   * record has not expired, fails with "Token already used" and changes
   * nothing.
   */
  lemma SingleUse(records: seq<RefreshToken>, users: map<string, IdentityUser>, request: TokenRequest,
                  t1: ValidatedToken, now1: Time, e1: Entropy,
                  t2: ValidatedToken, now2: Time, e2: Entropy)
    requires e1.Valid() && e2.Valid()
    requires Verify(records, users, request, t1, now1, e1).outcome.Returned?
    requires Verify(records, users, request, t1, now1, e1).outcome.result.success
    requires ClaimsPass(t2, now2)
    requires now2 <= records[Guard(records, request.refreshToken, t1, now1).index].expiryData
    ensures var first := Verify(records, users, request, t1, now1, e1).records;
      Verify(first, users, request, t2, now2, e2) == Step(Returned(FailureResult(TokenAlreadyUsed)), first)
  {
    var i := Guard(records, request.refreshToken, t1, now1).index;
    var user := users[records[i].userId];
    var first := Verify(records, users, request, t1, now1, e1).records;
    assert first == records[i := Retired(records[i])] + [IssuedRecord(user, now1, e1)];
    FirstMatchStable(records, i, Retired(records[i]), [IssuedRecord(user, now1, e1)]);
    assert FirstMatch(first, request.refreshToken) == Some(i);
  }

  // ---------------------------------------------------------------------
  // From issuance to refresh

  /** The validated form of an access token this controller issued. */
  function Presented(j: Jwt): (t: ValidatedToken)
    ensures t.signatureValid && t.isJwt && AlgMatches(t.alg) && t.jtis == [j.jti]
  {
    ValidatedToken(true, true, HmacSha512, Some(NumericDate(j.expires)), [j.jti])
  }

  /**
   * Refreshing with a just-issued access token, more than a second before
   * it expires, fails with "Jwt not expired" and leaves the ledger alone,
   * whatever the ledger and refresh token.
   */
  lemma RefreshTooEarly(records: seq<RefreshToken>, users: map<string, IdentityUser>, request: TokenRequest,
                        user: IdentityUser, issuedAt: Time, e0: Entropy, now: Time, e: Entropy)
    requires e0.Valid() && e.Valid()
    requires 0 <= issuedAt && issuedAt + AccessLifetime <= MaxTime
    requires now + TicksPerSecond <= issuedAt + AccessLifetime
    ensures Verify(records, users, request, Presented(IssuedJwt(user, issuedAt, e0)), now, e)
      == Step(Returned(FailureResult(JwtNotExpired)), records)
  {
  }

  /**
   * The round trip: a pair issued to `user` at `issuedAt`, presented once
   * its access token has expired and before its record has, is rotated; the
   * new access token carries the same user id and e-mail, and the new
   * refresh token differs from the old one when its GUID does.
   */
  lemma IssueThenRefresh(records: seq<RefreshToken>, users: map<string, IdentityUser>, request: TokenRequest,
                         user: IdentityUser, issuedAt: Time, e0: Entropy, now: Time, e: Entropy, i: nat)
    requires e0.Valid() && e.Valid()
    requires request.refreshToken == IssuedRecord(user, issuedAt, e0).token
    requires FirstMatch(records, request.refreshToken) == Some(i)
    requires records[i] == IssuedRecord(user, issuedAt, e0)
    requires user.id in users && users[user.id] == user
    requires 0 <= issuedAt && issuedAt + AccessLifetime <= now <= issuedAt + RefreshLifetime
    requires issuedAt + AccessLifetime <= MaxTime
    ensures var s := Verify(records, users, request, Presented(IssuedJwt(user, issuedAt, e0)), now, e);
      && s.outcome == Returned(IssuedResult(user, now, e))
      && s.outcome.result.success
      && s.outcome.result.token.value.userId == user.id
      && s.outcome.result.token.value.email == user.email
      && s.records == records[i := Retired(records[i])] + [IssuedRecord(user, now, e)]
    ensures e.tokenGuid != e0.tokenGuid ==>
      IssuedRecord(user, now, e).token != IssuedRecord(user, issuedAt, e0).token
  {
    var t := Presented(IssuedJwt(user, issuedAt, e0));
    ExpiredIssuedTokenPasses(user, issuedAt, e0, now);
    assert RecordStage(records[i], t, now).None?;
    assert Guard(records, request.refreshToken, t, now) == Passed(i);
    if e.tokenGuid != e0.tokenGuid {
      RefreshTokensDiffer(e.draws, e.tokenGuid, e0.draws, e0.tokenGuid);
    }
  }

  /** An issued access token presented at or after its expiry passes the access-token guards. */
  lemma ExpiredIssuedTokenPasses(user: IdentityUser, issuedAt: Time, e0: Entropy, now: Time)
    requires 0 <= issuedAt && issuedAt + AccessLifetime <= now && issuedAt + AccessLifetime <= MaxTime
    ensures ClaimsPass(Presented(IssuedJwt(user, issuedAt, e0)), now)
  {
  }

  // ---------------------------------------------------------------------
  // Login

  /** An unknown e-mail and a wrong password get the same answer. */
  lemma LoginHidesCause(existing: IdentityUser, anyPassword: bool)
    ensures DecideLogin(true, None, anyPassword) == DecideLogin(true, Some(existing), false)
    ensures DecideLogin(true, None, anyPassword) == Reject(ErrorResult("Invalid authentication request"))
  {
  }
}
