/** The token list shared by routes/tokens.js and routes/admin.js, as values:
    records, lookup, the decision `/verifyToken` takes and the list it writes
    back, and the administrator's create, activate and delete operations.
    The class in registry.dfy runs these against its stored list. */
module Tokens {
  import opened Wrappers

  /** One entry of the tokens file. An empty `usedByDevice` means the token is
      not bound to a device; an empty `lastUsed` means it was never verified. */
  datatype TokenRecord = TokenRecord(token: string, active: bool, usedByDevice: string, lastUsed: string)

  const MasterPrefix := "MASTER-"

  /** `token.startsWith('MASTER-')`: the only thing that makes a token a master token. */
  predicate IsMaster(token: string): (b: bool)
    ensures b <==> |MasterPrefix| <= |token| && token[..|MasterPrefix|] == MasterPrefix
  {
    MasterPrefix <= token
  }

  /** A token is a master token exactly when it is `MASTER-` followed by something. */
  lemma MasterIffPrefixed(token: string)
    ensures IsMaster(token) <==> exists rest: string :: token == MasterPrefix + rest
  {
    if IsMaster(token) {
      assert token == MasterPrefix + token[|MasterPrefix|..];
    }
  }

  /** `tokens.find(t => t.token === token)`: the position of the first record
      holding `token`, or `None` when no record holds it. */
  function Find(ts: seq<TokenRecord>, token: string): (r: Option<nat>)
    ensures r.Some? ==> r.value < |ts| && ts[r.value].token == token
    ensures r.Some? ==> forall j :: 0 <= j < r.value ==> ts[j].token != token
    ensures r.None? <==> forall j :: 0 <= j < |ts| ==> ts[j].token != token
  {
    if ts == [] then None
    else if ts[0].token == token then Some(0)
    else match Find(ts[1..], token)
      case None => None
      case Some(k) => Some(k + 1)
  }

  /** Every token value occurs at most once. */
  ghost predicate Unique(ts: seq<TokenRecord>) {
    forall i, j :: 0 <= i < j < |ts| ==> ts[i].token != ts[j].token
  }

  // ------------------------------------------------------------ verification

  /** What `/verifyToken` answers. */
  datatype VerifyResult =
    | Verified(isMaster: bool)  // valid, with the master flag
    | TokenRequired             // no token in the request
    | InvalidToken              // no record holds the token
    | TokenInactive             // the record is switched off
    | DeviceInUse               // the record is bound to another device

  /** The answer to verifying `token` from `deviceId` against the list `ts`:
      the checks run in the order empty, unknown, inactive, other device. */
  function VerifyAnswer(ts: seq<TokenRecord>, token: string, deviceId: string): (r: VerifyResult)
    ensures r == TokenRequired <==> token == []
    ensures r == InvalidToken <==> token != [] && forall j :: 0 <= j < |ts| ==> ts[j].token != token
    ensures r == TokenInactive <==> token != [] && Find(ts, token).Some? && !ts[Find(ts, token).value].active
    ensures r == DeviceInUse <==>
      && token != [] && Find(ts, token).Some? && ts[Find(ts, token).value].active
      && ts[Find(ts, token).value].usedByDevice != [] && ts[Find(ts, token).value].usedByDevice != deviceId
    ensures r.Verified? <==>
      && token != [] && Find(ts, token).Some? && ts[Find(ts, token).value].active
      && (ts[Find(ts, token).value].usedByDevice == [] || ts[Find(ts, token).value].usedByDevice == deviceId)
    ensures r.Verified? ==> r.isMaster == IsMaster(token)
  {
    if token == [] then TokenRequired
    else match Find(ts, token)
      case None => InvalidToken
      case Some(i) =>
        var rec := ts[i];
        if !rec.active then TokenInactive
        else if rec.usedByDevice != [] && rec.usedByDevice != deviceId then DeviceInUse
        else Verified(IsMaster(token))
  }

  /** The list `/verifyToken` writes back: on success the first matching
      record is bound to `deviceId` and stamped with `now`; otherwise nothing
      is written, which leaves the list as it was. */
  function AfterVerify(ts: seq<TokenRecord>, token: string, deviceId: string, now: string): (r: seq<TokenRecord>)
    ensures |r| == |ts|
    ensures !VerifyAnswer(ts, token, deviceId).Verified? ==> r == ts
  {
    if VerifyAnswer(ts, token, deviceId).Verified? then
      var i := Find(ts, token).value;
      ts[i := ts[i].(usedByDevice := deviceId, lastUsed := now)]
    else ts
  }

  /** The inactive check comes before the device check: an inactive token
      bound to some other device is reported inactive. */
  lemma InactiveBeforeDevice(ts: seq<TokenRecord>, token: string, deviceId: string, i: nat)
    requires token != [] && Find(ts, token) == Some(i)
    requires !ts[i].active
    ensures VerifyAnswer(ts, token, deviceId) == TokenInactive
  {
  }

  /** A successful verification changes only the matched record's device and
      time stamp; the length, the order and every other record stay. */
  lemma VerifyChangesOnlyMatch(ts: seq<TokenRecord>, token: string, deviceId: string, now: string)
    requires VerifyAnswer(ts, token, deviceId).Verified?
    ensures Find(ts, token).Some?
    ensures var i := Find(ts, token).value;
      var r := AfterVerify(ts, token, deviceId, now);
      && (forall j :: 0 <= j < |ts| && j != i ==> r[j] == ts[j])
      && r[i].token == ts[i].token && r[i].active == ts[i].active
      && r[i].usedByDevice == deviceId && r[i].lastUsed == now
  {
  }

  /** Replacing a record by one with the same token value does not move the first match. */
  lemma FindAfterUpdate(ts: seq<TokenRecord>, i: nat, rec: TokenRecord, token: string)
    requires i < |ts| && rec.token == ts[i].token
    ensures Find(ts[i := rec], token) == Find(ts, token)
  {
    var us := ts[i := rec];
    assert forall j :: 0 <= j < |ts| ==> us[j].token == ts[j].token;
    var a, b := Find(us, token), Find(ts, token);
    if a.Some? && b.Some? {
      assert !(a.value < b.value) && !(b.value < a.value);
    }
  }

  /** Binding is idempotent: after a successful verification from `deviceId`,
      verifying again from the same device succeeds with the same master flag,
      keeps the binding and only refreshes the time stamp. */
  lemma VerifyIdempotent(ts: seq<TokenRecord>, token: string, deviceId: string, now: string, later: string)
    requires VerifyAnswer(ts, token, deviceId).Verified?
    ensures var once := AfterVerify(ts, token, deviceId, now);
      var i := Find(ts, token).value;
      && VerifyAnswer(once, token, deviceId) == VerifyAnswer(ts, token, deviceId)
      && AfterVerify(once, token, deviceId, later) == once[i := once[i].(lastUsed := later)]
      && AfterVerify(once, token, deviceId, later)[i].usedByDevice == deviceId
  {
    var i := Find(ts, token).value;
    FindAfterUpdate(ts, i, ts[i].(usedByDevice := deviceId, lastUsed := now), token);
  }

  /** A bound token is refused to every other device, whether or not it is
      active: inactive tokens fail the inactive check, active ones the device check. */
  lemma BoundRefusesOtherDevices(ts: seq<TokenRecord>, token: string, other: string)
    requires token != [] && Find(ts, token).Some?
    requires var rec := ts[Find(ts, token).value]; rec.usedByDevice != [] && rec.usedByDevice != other
    ensures VerifyAnswer(ts, token, other) ==
      if ts[Find(ts, token).value].active then DeviceInUse else TokenInactive
  {
  }

  /** Once a device has verified a token, a different device is refused. */
  lemma SecondDeviceRefused(ts: seq<TokenRecord>, token: string, first: string, second: string, now: string)
    requires VerifyAnswer(ts, token, first).Verified?
    requires first != [] && second != first
    ensures VerifyAnswer(AfterVerify(ts, token, first, now), token, second) == DeviceInUse
  {
    var i := Find(ts, token).value;
    FindAfterUpdate(ts, i, ts[i].(usedByDevice := first, lastUsed := now), token);
  }

  // ------------------------------------------------------------ administration

  /** What a token administration request answers. */
  datatype AdminResult =
    | Updated(tokens: seq<TokenRecord>)  // written; the new list is returned
    | MissingToken                       // no token in the request
    | AlreadyExists                      // create: the token is taken
    | NoSuchToken                        // update: no record holds the token

  /** The record a create appends: active, unbound, never used. */
  function NewRecord(token: string): (rec: TokenRecord)
    ensures rec.token == token && rec.active && rec.usedByDevice == [] && rec.lastUsed == []
  {
    TokenRecord(token, true, [], [])
  }

  /** `POST /tokens`: refuse an empty token, then a token already listed;
      otherwise append a fresh record at the end. */
  function CreateResult(ts: seq<TokenRecord>, token: string): (r: AdminResult)
    ensures r == MissingToken <==> token == []
    ensures r == AlreadyExists <==> token != [] && exists j :: 0 <= j < |ts| && ts[j].token == token
    ensures r.Updated? ==> r.tokens == ts + [NewRecord(token)]
    ensures r.Updated? || r == MissingToken || r == AlreadyExists
  {
    if token == [] then MissingToken
    else if Find(ts, token).Some? then AlreadyExists
    else Updated(ts + [NewRecord(token)])
  }

  /** A create keeps token values unique. */
  lemma CreateKeepsUnique(ts: seq<TokenRecord>, token: string)
    requires Unique(ts) && CreateResult(ts, token).Updated?
    ensures Unique(CreateResult(ts, token).tokens)
  {
  }

  /** A freshly created token verifies from any device, is bound to it, and is
      a master token exactly when its name says so. */
  lemma CreatedTokenVerifies(ts: seq<TokenRecord>, token: string, deviceId: string, now: string)
    requires CreateResult(ts, token).Updated?
    ensures var us := CreateResult(ts, token).tokens;
      && VerifyAnswer(us, token, deviceId) == Verified(IsMaster(token))
      && AfterVerify(us, token, deviceId, now)[|ts|] == TokenRecord(token, true, deviceId, now)
  {
    var us := ts + [NewRecord(token)];
    assert Find(us, token) == Some(|ts|) by {
      var f := Find(us, token);
      assert us[|ts|].token == token;
      assert f.Some? && !(f.value < |ts|);
    }
  }

  /** `PUT /tokens/:token`: set `active` on the first record holding `token`. */
  function SetActiveResult(ts: seq<TokenRecord>, token: string, active: bool): (r: AdminResult)
    ensures r == NoSuchToken <==> forall j :: 0 <= j < |ts| ==> ts[j].token != token
    ensures r.Updated? || r == NoSuchToken
  {
    match Find(ts, token)
    case None => NoSuchToken
    case Some(i) => Updated(ts[i := ts[i].(active := active)])
  }

  /** Setting `active` touches nothing else: the device binding and the time
      stamp are kept, and no other record changes. */
  lemma SetActiveKeepsBinding(ts: seq<TokenRecord>, token: string, active: bool)
    requires SetActiveResult(ts, token, active).Updated?
    ensures var us := SetActiveResult(ts, token, active).tokens;
      var i := Find(ts, token).value;
      && |us| == |ts|
      && (forall j :: 0 <= j < |ts| && j != i ==> us[j] == ts[j])
      && us[i] == TokenRecord(token, active, ts[i].usedByDevice, ts[i].lastUsed)
  {
  }

  /** Deactivating and reactivating a token leaves it bound to the same
      device: that device is accepted again and every other one refused. */
  lemma ReactivatedTokenStaysBound(ts: seq<TokenRecord>, token: string, other: string)
    requires token != [] && Find(ts, token).Some?
    requires var rec := ts[Find(ts, token).value]; rec.usedByDevice != [] && rec.usedByDevice != other
    ensures SetActiveResult(ts, token, false).Updated?
    ensures var off := SetActiveResult(ts, token, false).tokens;
      && SetActiveResult(off, token, true).Updated?
      && var on := SetActiveResult(off, token, true).tokens;
      && VerifyAnswer(on, token, ts[Find(ts, token).value].usedByDevice).Verified?
      && VerifyAnswer(on, token, other) == DeviceInUse
  {
    var i := Find(ts, token).value;
    var off := ts[i := ts[i].(active := false)];
    FindAfterUpdate(ts, i, off[i], token);
    var on := off[i := off[i].(active := true)];
    FindAfterUpdate(off, i, on[i], token);
  }

  /** `tokens.filter(t => t.token !== token)`. */
  function Without(ts: seq<TokenRecord>, token: string): (r: seq<TokenRecord>)
    ensures |r| <= |ts|
    ensures forall j :: 0 <= j < |r| ==> r[j].token != token
  {
    if ts == [] then []
    else (if ts[0].token == token then [] else [ts[0]]) + Without(ts[1..], token)
  }

  /** The filter keeps a record exactly when it was in the list and holds
      another token: nothing is added, replaced or lost but the matches. */
  lemma {:induction false} WithoutMembers(ts: seq<TokenRecord>, token: string, rec: TokenRecord)
    ensures rec in Without(ts, token) <==> rec in ts && rec.token != token
  {
    if ts != [] {
      WithoutMembers(ts[1..], token, rec);
      assert ts == [ts[0]] + ts[1..];
    }
  }

  /** `DELETE /tokens/:token` always writes the filtered list. */
  function DeleteResult(ts: seq<TokenRecord>, token: string): (r: AdminResult)
    ensures r.Updated? && forall j :: 0 <= j < |r.tokens| ==> r.tokens[j].token != token
  {
    Updated(Without(ts, token))
  }

  /** Deleting keeps the other records in their order: it works piecewise on
      a concatenation, dropping exactly the records holding the token. */
  lemma {:induction false} WithoutAppend(a: seq<TokenRecord>, b: seq<TokenRecord>, token: string)
    ensures Without(a + b, token) == Without(a, token) + Without(b, token)
  {
    if a != [] {
      var h := if a[0].token == token then [] else [a[0]];
      assert (a + b)[0] == a[0];
      assert (a + b)[1..] == a[1..] + b;
      assert Without(a + b, token) == h + Without(a[1..] + b, token);
      WithoutAppend(a[1..], b, token);
      assert h + (Without(a[1..], token) + Without(b, token)) == (h + Without(a[1..], token)) + Without(b, token);
    } else {
      assert a + b == b;
    }
  }

  /** Every record holding another token survives the delete. */
  lemma {:induction false} WithoutKeepsOthers(ts: seq<TokenRecord>, token: string, rec: TokenRecord)
    requires rec in ts && rec.token != token
    ensures rec in Without(ts, token)
  {
    if ts[0] != rec {
      WithoutKeepsOthers(ts[1..], token, rec);
    }
  }

  /** Deleting an absent token is a no-op. */
  lemma {:induction false} WithoutAbsent(ts: seq<TokenRecord>, token: string)
    requires Find(ts, token).None?
    ensures Without(ts, token) == ts
  {
    if ts != [] {
      assert Find(ts[1..], token).None? by {
        forall j | 0 <= j < |ts[1..]| ensures ts[1..][j].token != token {
          assert ts[1..][j] == ts[j + 1];
        }
      }
      WithoutAbsent(ts[1..], token);
    }
  }

  /** Deleting twice is deleting once. */
  lemma WithoutIdempotent(ts: seq<TokenRecord>, token: string)
    ensures Without(Without(ts, token), token) == Without(ts, token)
  {
    WithoutAbsent(Without(ts, token), token);
  }
}
