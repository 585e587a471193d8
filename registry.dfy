/** The tokens file and the request handlers that read and write it:
    `/verifyToken` (routes/tokens.js) and the administrator's token list
    operations (routes/admin.js). Each handler reads the whole list, changes
    it in memory and writes the whole list back; here the list is a field and
    each handler one atomic method. */
module Registry {
  import opened Wrappers
  import opened Tokens

  class TokenRegistry {
    /** The contents of the tokens file. */
    var tokens: seq<TokenRecord>

    /** The registry as first read: what the file held, or the empty list
        when it was missing or did not parse. */
    constructor (saved: Option<seq<TokenRecord>>)
      ensures tokens == saved.GetOr([])
    {
      tokens := saved.GetOr([]);
    }

    /** `tokens.find(t => t.token === token)`, as a scan from the front. */
    method Lookup(token: string) returns (found: Option<nat>)
      ensures found == Find(tokens, token)
    {
      var i := 0;
      while i < |tokens|
        invariant 0 <= i <= |tokens|
        invariant forall j :: 0 <= j < i ==> tokens[j].token != token
      {
        if tokens[i].token == token {
          FirstMatch(tokens, token, i);
          return Some(i);
        }
        i := i + 1;
      }
      return None;
    }

    /** `POST /verifyToken`; `now` is the time stamp of the request. */
    method Verify(token: string, deviceId: string, now: string) returns (r: VerifyResult)
      modifies this`tokens
      ensures r == VerifyAnswer(old(tokens), token, deviceId)
      ensures tokens == AfterVerify(old(tokens), token, deviceId, now)
    {
      if token == [] {
        return TokenRequired;
      }
      var found := Lookup(token);
      if found.None? {
        return InvalidToken;
      }
      var i := found.value;
      if !tokens[i].active {
        return TokenInactive;
      }
      if tokens[i].usedByDevice != [] && tokens[i].usedByDevice != deviceId {
        return DeviceInUse;
      }
      tokens := tokens[i := tokens[i].(usedByDevice := deviceId, lastUsed := now)];
      r := Verified(IsMaster(token));
    }

    /** `POST /tokens`. */
    method Create(token: string) returns (r: AdminResult)
      modifies this`tokens
      ensures r == CreateResult(old(tokens), token)
      ensures tokens == if r.Updated? then r.tokens else old(tokens)
    {
      if token == [] {
        return MissingToken;
      }
      var found := Lookup(token);
      if found.Some? {
        return AlreadyExists;
      }
      tokens := tokens + [NewRecord(token)];
      r := Updated(tokens);
    }

    /** `PUT /tokens/:token` with body `{active}`. */
    method SetActive(token: string, active: bool) returns (r: AdminResult)
      modifies this`tokens
      ensures r == SetActiveResult(old(tokens), token, active)
      ensures tokens == if r.Updated? then r.tokens else old(tokens)
    {
      var found := Lookup(token);
      if found.None? {
        return NoSuchToken;
      }
      var i := found.value;
      tokens := tokens[i := tokens[i].(active := active)];
      r := Updated(tokens);
    }

    /** `DELETE /tokens/:token`: keep, in order, the records not holding `token`. */
    method Delete(token: string) returns (r: AdminResult)
      modifies this`tokens
      ensures r == DeleteResult(old(tokens), token)
      ensures tokens == r.tokens
    {
      var kept: seq<TokenRecord> := [];
      var i := 0;
      while i < |tokens|
        invariant 0 <= i <= |tokens|
        invariant tokens == old(tokens)
        invariant kept == Without(tokens[..i], token)
      {
        WithoutAppend(tokens[..i], [tokens[i]], token);
        assert tokens[..i + 1] == tokens[..i] + [tokens[i]];
        if tokens[i].token != token {
          kept := kept + [tokens[i]];
        }
        i := i + 1;
      }
      assert tokens[..i] == tokens;
      tokens := kept;
      r := Updated(kept);
    }
  }

  /** A match at `i` with none before it is what `Find` returns. */
  lemma FirstMatch(ts: seq<TokenRecord>, token: string, i: nat)
    requires i < |ts| && ts[i].token == token
    requires forall j :: 0 <= j < i ==> ts[j].token != token
    ensures Find(ts, token) == Some(i)
  {
    var f := Find(ts, token);
    assert f.Some?;
    assert !(f.value < i) && !(i < f.value);
  }
}
