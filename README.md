# Refresh-token lifecycle of the TodoApp authentication controller

This project models, in Dafny, the token core of `AutManagementController`:

- how a refresh-token record is issued (`GenerateJwtAsync`, with `RandomString` for the random part of the token);
- how `VerifyToken` checks a presented access token and refresh token against the token ledger, one guard after
  another, and on success retires the matched record and issues a new pair;
- how the refresh endpoint maps the result of `VerifyToken` to an HTTP answer;
- the existence-and-password decision of `Login`;
- `UnixTimeStampToDateTime`.

The ledger (the `RefreshTokens` table) is a sequence of `RefreshToken` records in insertion order. It is held by
the class `Ledger.RefreshTokenSet`, whose methods append a record and mark a record used. `AutManagement.Verify`
states what `VerifyToken` does as a function of the ledger. The method `AutManagement.VerifyToken` runs the guard
chain and then changes the ledger object in place, and it is proved to agree with `Verify`. The lemmas in
`RefreshProperties` are stated about `Verify`.

Inputs that the source gets from libraries or from the machine are parameters here:

- the result of validating the access token is a `ValidatedToken`: whether signature, issuer and audience passed,
  whether it is a JWT, its `alg`, its `exp` value and its `jti` values;
- the clock reading `now` is a `Time` in ticks (100 ns) from the Unix epoch;
- the two GUIDs and the 25 random draws of one issuance are an `Entropy`;
- the identity store is a map from user id to user, plus the e-mail lookup and password check results of `Login`.

Files: `wrappers.dfy` (Option), `clock.dfy` (time), `tokens.dfy` (token strings), `ledger.dfy` (records and the
ledger), `autmanagement.dfy` (the controller), `refresh_properties.dfy` (lemmas).

Behaviours of the code that a reader might not expect, all of which the model follows:

- Only an access token with the wrong algorithm yields `null`, which the endpoint answers with 400 "Invalid Jwt".
  Every other verifier failure is an `AuthResult` with `Success = false`, and the endpoint passes it through `Ok`.
  So the caller gets 200, not 400.
- A missing or non-numeric `exp` claim, or a missing `jti` claim, is an exception (500), not an "invalid token"
  result.
- The record is marked used and saved before the user is looked up. If the user is gone, the lookup yields null.
  `GenerateJwtAsync` then throws, the record stays burnt, and no replacement is issued
  (`RefreshProperties.MissingUserBurnsRecord`). Rotation is not atomic, and there is no "user not found" result.
- The request DTO spells its property `RefeshToken` (TodoApp/DB/Models/DTO/Requests/TokenRequest.cs:8), while the
  controller reads `RefreshToken`. The model takes the request as a plain pair of strings.

## Model

| member | source | states |
|---|---|---|
| Tokens.RandomString | TodoApp/Controllers/AutManagementController.cs:323-335 | the array loop returns exactly `length` characters, the i-th being the alphabet character chosen by the i-th draw; every character is in A-Z0-9 |
| Tokens.SpellOnto | TodoApp/Controllers/AutManagementController.cs:326-332 | every string over A-Z0-9 is obtainable from some draws, so the alphabet is exactly the range of RandomString |
| Tokens.GuidString | TodoApp/Controllers/AutManagementController.cs:309 | the text form of a GUID is 36 characters with hyphens at positions 8, 13, 18 and 23 |
| Tokens.GuidStringInjective | TodoApp/Controllers/AutManagementController.cs:309 | distinct GUIDs have distinct text forms |
| Tokens.RefreshTokenValue | TodoApp/Controllers/AutManagementController.cs:309 | a refresh token is 61 characters: 25 from A-Z0-9 followed by the GUID text |
| Tokens.RefreshTokensDiffer | TodoApp/Controllers/AutManagementController.cs:309 | two refresh tokens built from different GUIDs differ, whatever their random prefixes |
| Clock.UnixTimeStampToDateTime | TodoApp/Controllers/AutManagementController.cs:271-276 | a Unix timestamp becomes a whole-second instant exactly when it lies in the DateTime range; otherwise AddSeconds throws |
| Clock.NumericDate | TodoApp/Controllers/AutManagementController.cs:293 | the exp claim written for an expiry instant after the epoch is its whole seconds from the epoch, rounded down; for an instant at or before the epoch it is 0 |
| Clock.NumericDateRoundTrip | TodoApp/Controllers/AutManagementController.cs:271-276 | converting a positive timestamp to an instant and back to a numeric date gives the timestamp again; a timestamp at or before the epoch comes back as 0 |
| Clock.DecodedNumericDate | TodoApp/Controllers/AutManagementController.cs:182-195 | reading back the exp of an instant after the epoch gives that instant rounded down to the second |
| Ledger.FirstMatch | TodoApp/Controllers/AutManagementController.cs:206-207 | the lookup finds the first record whose token equals the presented one, or says that none has it |
| Ledger.FirstMatchStable | TodoApp/Controllers/AutManagementController.cs:206-207 | updating the matched record in place and appending records leaves the first match where it was |
| Ledger.LiveCountAppend | TodoApp/Controllers/AutManagementController.cs:312 | appending a live record adds one to the number of live records |
| Ledger.LiveCountRetire | TodoApp/Controllers/AutManagementController.cs:256 | marking a live record used takes one from the number of live records |
| Ledger.RefreshTokenSet.Add | TodoApp/Controllers/AutManagementController.cs:312-313 | the ledger afterwards is the old ledger with the record appended |
| Ledger.RefreshTokenSet.MarkUsed | TodoApp/Controllers/AutManagementController.cs:256-258 | the ledger afterwards differs from the old one only in the IsUsed flag of the record at i, which is true |
| AutManagement.AlgMatchesExactly | TodoApp/Controllers/AutManagementController.cs:173-174 | the case-insensitive algorithm check admits exactly HS512, hS512, Hs512 and hs512 |
| AutManagement.ClaimStage | TodoApp/Controllers/AutManagementController.cs:169-204 | the access-token guards let the chain continue exactly when the signature is valid, the alg (for a JWT) is HS512, exp is a positive 64-bit number inside the DateTime range, and exp is not after now; they return null exactly for a valid JWT with another alg, "Invalid Jwt" exactly when the earlier guards pass and exp is not positive, and "Jwt not expired" exactly when the earlier guards pass and exp is after now |
| AutManagement.RecordStage | TodoApp/Controllers/AutManagementController.cs:218-254 | the record guards let the pair through exactly when the record has not expired (now not after ExpiryData), is neither used nor revoked, and the token has exactly one jti, equal to the record's JwtId |
| AutManagement.Guard | TodoApp/Controllers/AutManagementController.cs:169-254 | a passing chain means every access-token guard passed and the access token has expired, and it names the first record carrying the presented token, which is live, unexpired and bound to the token's jti |
| AutManagement.IssuedJwt | TodoApp/Controllers/AutManagementController.cs:284-294 | the issued access token carries the user's id and e-mail, a fresh GUID text as jti, is valid from now and expires five minutes later |
| AutManagement.IssuedRecord | TodoApp/Controllers/AutManagementController.cs:303-310 | a new record belongs to the user and carries the new access token's jti; it is neither used nor revoked; it expires one year after it was added; its token is the 25-character random part followed by the GUID text |
| AutManagement.GenerateJwt | TodoApp/Controllers/AutManagementController.cs:278-320 | issuance appends exactly the new record to the ledger and returns a successful result with the new access token and that record's token |
| AutManagement.Verify | TodoApp/Controllers/AutManagementController.cs:151-269 | a verification adds at most one record to the ledger, and adds one exactly when it succeeds |
| AutManagement.VerifyToken | TodoApp/Controllers/AutManagementController.cs:151-269 | the in-place verification on the ledger object returns the outcome and leaves the ledger that Verify prescribes |
| AutManagement.RefreshResponse | TodoApp/Controllers/AutManagementController.cs:130-141 | null becomes 400 "Invalid Jwt"; every AuthResult, failed or not, becomes 200 with that body; an exception becomes a server error |
| AutManagement.RefreshTokenEndpoint | TodoApp/Controllers/AutManagementController.cs:125-149 | an invalid payload gets 400 "Invalid payload" and leaves the ledger; otherwise the answer and the ledger are those of VerifyToken |
| AutManagement.DecideLogin | TodoApp/Controllers/AutManagementController.cs:86-123 | Login issues exactly when the payload is valid, the e-mail is known and the password is correct, and then to the user found; every rejection is one unsuccessful error message |
| AutManagement.Login | TodoApp/Controllers/AutManagementController.cs:86-123 | a rejected login answers 400 and leaves the ledger; an accepted one answers 200 with the issued pair and appends its record |
| RefreshProperties.NullOnlyForWrongAlgorithm | TodoApp/Controllers/AutManagementController.cs:171-179 | VerifyToken returns null exactly for a validly signed JWT whose alg is not HS512, and the ledger is then unchanged |
| RefreshProperties.ClaimFailureIgnoresLedger | TodoApp/Controllers/AutManagementController.cs:169-207 | when an access-token guard fires, the verdict of the whole chain is that guard's verdict, the same whatever the ledger and the refresh token, and it is not a pass |
| RefreshProperties.ClaimFailureOutcome | TodoApp/Controllers/AutManagementController.cs:171-204 | when an access-token guard fires, VerifyToken returns that guard's answer (null for the algorithm, "Invalid Jwt" or "Jwt not expired" as an unsuccessful result, or the exception) and leaves the ledger unchanged |
| RefreshProperties.MissingRecordReported | TodoApp/Controllers/AutManagementController.cs:206-216 | with an accepted access token and no record for the refresh token, the result is "refresh token doesnt exist" |
| RefreshProperties.ExpiredReportedFirst | TodoApp/Controllers/AutManagementController.cs:218-225 | a matched record past its ExpiryData is reported expired, whatever its used and revoked flags and the jti |
| RefreshProperties.UsedReportedBeforeRevoked | TodoApp/Controllers/AutManagementController.cs:227-243 | an unexpired used record is reported "Token already used", whether or not it is revoked, and before the jti is read |
| RefreshProperties.RevokedReportedBeforeBinding | TodoApp/Controllers/AutManagementController.cs:236-247 | an unexpired, unused, revoked record is reported "Token has been revoked" before the jti is read |
| RefreshProperties.MismatchExactly | TodoApp/Controllers/AutManagementController.cs:245-254 | for a live unexpired record, "Token does not match" occurs exactly when the token has one jti that differs from JwtId, and the chain passes exactly when that jti equals JwtId |
| RefreshProperties.ExpiryBoundaries | TodoApp/Controllers/AutManagementController.cs:197-225 | an access token whose exp equals now counts as expired, and a record whose ExpiryData equals now is still accepted |
| RefreshProperties.NoWriteBeforeCommit | TodoApp/Controllers/AutManagementController.cs:173-258 | while the guard chain has not passed, the ledger is unchanged and the result is not a success |
| RefreshProperties.ReportedFailureLeavesLedger | TodoApp/Controllers/AutManagementController.cs:173-254 | a null result or an unsuccessful AuthResult always leaves the ledger unchanged |
| RefreshProperties.SuccessRotatesExactlyOne | TodoApp/Controllers/AutManagementController.cs:256-261 | on success exactly the matched record is marked used, with its other fields kept; every other record is kept; one record is appended for the record's user; and the caller gets that record's token |
| RefreshProperties.RotationKeepsOwner | TodoApp/Controllers/AutManagementController.cs:256-310 | when the identity store files each user under its own id, the appended record and the new access token belong to the user of the retired record, and the new record carries the new access token's jti |
| RefreshProperties.MissingUserBurnsRecord | TodoApp/Controllers/AutManagementController.cs:256-261 | when the record's user no longer exists, the call throws after the record has been marked used, and nothing is appended |
| RefreshProperties.RotationKeepsLiveCount | TodoApp/Controllers/AutManagementController.cs:256-313 | a successful rotation keeps the number of live records; a burnt record lowers it by one |
| RefreshProperties.VerifyKeepsYearLong | TodoApp/Controllers/AutManagementController.cs:303-310 | if every record expires one year after it was added, this still holds after a verification |
| RefreshProperties.SingleUse | TodoApp/Controllers/AutManagementController.cs:227-256 | after a successful verification with refresh token T, a second one with T that passes the access-token guards while the record is unexpired fails with "Token already used" and changes nothing |
| RefreshProperties.ExpiredIssuedTokenPasses | TodoApp/Controllers/AutManagementController.cs:182-204 | an access token this controller issued, presented at or after its expiry, passes the access-token guards |
| RefreshProperties.Presented | TodoApp/Controllers/AutManagementController.cs:289-297 | an access token this controller issued validates with a good signature as a JWT whose alg passes the HS512 check and whose only jti is the issued one |
| RefreshProperties.RefreshTooEarly | TodoApp/Controllers/AutManagementController.cs:197-204 | refreshing with a fresh access token more than a second before it expires fails with "Jwt not expired" and leaves the ledger |
| RefreshProperties.IssueThenRefresh | TodoApp/Controllers/AutManagementController.cs:182-320 | an issued pair presented after the access token expired and before the record did is rotated; the new access token carries the same user id and e-mail; the new refresh token differs when its GUID does |
| RefreshProperties.LoginHidesCause | TodoApp/Controllers/AutManagementController.cs:91-115 | an unknown e-mail and a wrong password get the same rejection, "Invalid authentication request" |

## Left out

- Creating, signing, serialising and validating the access token (JwtSecurityTokenHandler, HMAC-SHA512, issuer and audience checks): these are library calls and cryptography. The validated token is the abstract `ValidatedToken`, and an issued token is its claim set `Jwt`.
- Logging of exceptions in VerifyToken: an exception is the outcome `Threw` with its kind, and the endpoint answers it with `ServerError`.
- `System.Random`, `Guid.NewGuid()` and `DateTime.UtcNow` are inputs, and their distributions are not modelled. The source builds the random part with a non-cryptographic generator; the model says nothing about unpredictability.
- The source reads the clock anew at each use. The model uses one reading per call, so it does not capture that `ExpiryData` can exceed `AddedDate` plus one year by the time between two readings.
- The calendar: `AddYears(1)` is a fixed 365 days, so leap years are not modelled. `AddMinutes(5)` and `AddYears(1)` throw in the last year of the DateTime range; that is not modelled.
- Clock.NumericDate: it rounds the exact quotient down, whereas the token handler goes through a double-precision number of seconds, whose rounding near a second boundary is not modelled.
- AutManagement.AlgMatchesExactly: the culture-invariant case-insensitive comparison is modelled as case folding of ASCII letters only. Non-ASCII case mappings and ignorable characters are not modelled.
- Ledger.FirstMatch: the model compares tokens exactly, as the C# lambda reads. The lookup runs in the MySQL database (TodoApp/Startup.cs:37), which compares under the column's collation; the default collations ignore case. So FirstMatch and RefreshProperties.MissingRecordReported describe a case-sensitive collation, and a token sent back with its letters in another case is not modelled as finding its record.
- RefreshProperties.Presented: it assumes this behaviour of the token handler. A token signed with `HmacSha512Signature` gets the header alg "HS512" through the handler's outbound algorithm map. Its exp is written by `GetIntDate`, as Clock.NumericDate. The exp and jti claims are read back without renaming. Without the alg rewrite, every issued token would get null at refresh, and ExpiredIssuedTokenPasses and IssueThenRefresh would not describe the program.
- AutManagement.RefreshTokenEndpoint, AutManagement.DecideLogin and AutManagement.Login: the model follows the action bodies, where `payloadValid` stands for `ModelState.IsValid` and an invalid body gets 400 "Invalid payload". The controller carries `[ApiController]` (TodoApp/Controllers/AutManagementController.cs:27) and the model-state filter is not suppressed (TodoApp/Startup.cs:39), so the framework itself answers an invalid body with its own 400 and field errors before the action runs. The "Invalid payload" answers are therefore not sent by the program as configured, and that framework answer is not modelled.
- Persistence: EF Core, `SaveChangesAsync` and change tracking are not modelled. The ledger is in memory, and the in-place write of `IsUsed` replaces the record in the sequence. The lookup is the first record in insertion order; an SQL query without ORDER BY guarantees no order.
- The record's primary key, inherited from `BaseDbModel` (TodoApp/DB/Models/RefreshToken.cs:8; BaseDbModel is not part of this model), and its `User` navigation property (TodoApp/DB/Models/RefreshToken.cs:18-19): no modelled operation reads them.
- The identity store: `FindByEmailAsync`, `CheckPasswordAsync`, `FindByIdAsync` and password hashing are external. Their results are inputs.
- The request-body validation (`ModelState.IsValid`) is external; it is the input `payloadValid`.
- Null strings: the model does not cover a user with a null e-mail, for which the claim constructor throws. It also does not cover a null token string in the request. An absent `Errors` list is an empty sequence, and an absent `Token` or `RefreshToken` is `None`.
- The `Register` endpoint is not part of this model; only the `Login` decision is modelled.
- Concurrency: the source has no locking, so two simultaneous redemptions of one token are not modelled.
- TodoApp/Controllers/TodoController.cs, TodoApp/Startup.cs, the migration, TodoApp/DB/TodoContext.cs and TodoApp/DB/Models/ItemData.cs: item CRUD, wiring and schema declarations, none of which are part of the token lifecycle.
