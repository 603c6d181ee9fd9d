/**
 * The refresh-token ledger: the `RefreshTokens` table as an in-memory
 * sequence of records, in insertion order.
 */
module Ledger {
  import opened Wrappers
  import opened Clock

  /** One row of the ledger. Its primary key is not modelled. */
  datatype RefreshToken = RefreshToken(
    userId: string,
    token: string,
    jwtId: string,
    isUsed: bool,
    isRevoked: bool,
    addedDate: Time,
    expiryData: Time)

  /** Neither redeemed nor revoked: a record a refresh can still use. */
  predicate Live(r: RefreshToken) {
    !r.isUsed && !r.isRevoked
  }

  /** The record as it is after a successful redemption. */
  function Retired(r: RefreshToken): RefreshToken {
    r.(isUsed := true)
  }

  /** `FirstOrDefault(x => x.Token == token)`: the index of the first record with that token. */
  function FirstMatch(records: seq<RefreshToken>, token: string): (r: Option<nat>)
    ensures r.Some? ==> r.value < |records| && records[r.value].token == token
    ensures r.Some? ==> forall j :: 0 <= j < r.value ==> records[j].token != token
    ensures r.None? ==> forall j :: 0 <= j < |records| ==> records[j].token != token
    decreases |records|
  {
    if |records| == 0 then None
    else if records[0].token == token then Some(0)
    else match FirstMatch(records[1..], token)
      case None => None
      case Some(k) => Some(k + 1)
  }

  /** Updating a record in place and appending others keeps the first match where it was. */
  lemma FirstMatchStable(records: seq<RefreshToken>, i: nat, r: RefreshToken, extra: seq<RefreshToken>)
    requires FirstMatch(records, r.token) == Some(i)
    requires records[i].token == r.token
    ensures FirstMatch(records[i := r] + extra, r.token) == Some(i)
  {
    var after := records[i := r] + extra;
    assert after[i].token == r.token;
    assert forall j :: 0 <= j < i ==> after[j] == records[j];
  }

  /** The number of live records. */
  function LiveCount(records: seq<RefreshToken>): nat
    decreases |records|
  {
    if |records| == 0 then 0
    else LiveCount(records[..|records| - 1]) + (if Live(records[|records| - 1]) then 1 else 0)
  }

  lemma LiveCountAppend(records: seq<RefreshToken>, r: RefreshToken)
    ensures LiveCount(records + [r]) == LiveCount(records) + (if Live(r) then 1 else 0)
  {
  }

  /** Retiring a live record takes exactly one away from the live count. */
  lemma {:induction false} LiveCountRetire(records: seq<RefreshToken>, i: nat)
    requires i < |records| && Live(records[i])
    ensures LiveCount(records[i := Retired(records[i])]) + 1 == LiveCount(records)
    decreases |records|
  {
    var n := |records| - 1;
    var after := records[i := Retired(records[i])];
    if i == n {
      assert after[..n] == records[..n];
    } else {
      LiveCountRetire(records[..n], i);
      assert after[..n] == records[..n][i := Retired(records[i])];
    }
  }

  /** The `DbSet<RefreshToken>`: the records the controller adds to and updates. */
  class RefreshTokenSet {
    var records: seq<RefreshToken>

    constructor (initial: seq<RefreshToken>)
      ensures records == initial
    {
      records := initial;
    }

    /** `AddAsync` followed by a save. */
    method Add(r: RefreshToken)
      modifies this
      ensures records == old(records) + [r]
    {
      records := records + [r];
    }

    /** `stored.IsUsed = true` on the record at `i`, followed by a save. */
    method MarkUsed(i: nat)
      requires i < |records|
      modifies this
      ensures records == old(records)[i := Retired(old(records)[i])]
    {
      records := records[i := Retired(records[i])];
    }
  }
}
