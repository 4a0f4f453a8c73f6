/**
 * TokenRedisRepository: access and refresh tokens stored under prefixed
 * keys with their time-to-live, plus a per-user set of every token issued.
 * The store is a map; Redis errors and JSON (de)serialisation faults are
 * not modelled, and a stored record reads back as it was written.
 */
module TokenStore {
  import opened Wrappers
  import opened JavaStrings

  const ACCESS_TOKEN_PREFIX: string := "auth:access_token:"
  const REFRESH_TOKEN_PREFIX: string := "auth:refresh_token:"
  const USER_TOKENS_PREFIX: string := "auth:user_tokens:"
  const ACCESS_TOKEN_TTL: int := 86400
  const REFRESH_TOKEN_TTL: int := 604800

  datatype TokenType = Access | Refresh

  /** UserTokenRedis as far as the repository touches it; `rest` stands for every other field. */
  datatype TokenRecord = TokenRecord(token: string, userId: Option<int>, isRevoked: Option<bool>, revokedAt: Option<int>, rest: string)

  /** A stored value with the time-to-live it was written with. */
  datatype Entry = Entry(record: TokenRecord, ttl: int)

  datatype Store = Store(tokens: map<string, Entry>, userTokens: map<string, set<string>>)

  function TokenKey(t: TokenType, token: string): string {
    (if t == Access then ACCESS_TOKEN_PREFIX else REFRESH_TOKEN_PREFIX) + token
  }

  function Ttl(t: TokenType): int {
    if t == Access then ACCESS_TOKEN_TTL else REFRESH_TOKEN_TTL
  }

  /** The key of a user's token set; a null id is rendered as "null". */
  function UserKey(userId: Option<int>): string {
    USER_TOKENS_PREFIX + (if userId.None? then "null" else IntToString(userId.value))
  }

  /** An access key and a refresh key never coincide, whatever the tokens. */
  lemma PrefixesKeepTypesApart(a: string, b: string)
    ensures TokenKey(Access, a) != TokenKey(Refresh, b)
    ensures TokenKey(Access, a) != TokenKey(Access, b) <==> a != b
    ensures TokenKey(Refresh, a) != TokenKey(Refresh, b) <==> a != b
  {
    assert TokenKey(Access, a)[5] == 'a' && TokenKey(Refresh, b)[5] == 'r';
    if TokenKey(Access, a) == TokenKey(Access, b) {
      assert a == TokenKey(Access, a)[|ACCESS_TOKEN_PREFIX|..] == TokenKey(Access, b)[|ACCESS_TOKEN_PREFIX|..] == b;
    }
    if TokenKey(Refresh, a) == TokenKey(Refresh, b) {
      assert a == TokenKey(Refresh, a)[|REFRESH_TOKEN_PREFIX|..] == TokenKey(Refresh, b)[|REFRESH_TOKEN_PREFIX|..] == b;
    }
  }

  function AddToUserTokens(s: Store, userId: Option<int>, token: string): (r: Store)
    ensures r.tokens == s.tokens
    ensures UserKey(userId) in r.userTokens && token in r.userTokens[UserKey(userId)]
  {
    var key := UserKey(userId);
    var before := if key in s.userTokens then s.userTokens[key] else {};
    s.(userTokens := s.userTokens[key := before + {token}])
  }

  /** saveAccessToken / saveRefreshToken: the record under its typed key with that type's TTL, and the token added to the user's set. */
  function SaveToken(s: Store, t: TokenType, record: TokenRecord): (r: Store)
    ensures TokenKey(t, record.token) in r.tokens && r.tokens[TokenKey(t, record.token)] == Entry(record, Ttl(t))
    ensures forall k :: k in s.tokens && k != TokenKey(t, record.token) ==> k in r.tokens && r.tokens[k] == s.tokens[k]
    ensures UserKey(record.userId) in r.userTokens && record.token in r.userTokens[UserKey(record.userId)]
  {
    var key := TokenKey(t, record.token);
    AddToUserTokens(s.(tokens := s.tokens[key := Entry(record, Ttl(t))]), record.userId, record.token)
  }

  /** getAccessToken / getRefreshToken. */
  function GetToken(s: Store, t: TokenType, token: string): (r: Option<TokenRecord>)
    ensures r.Some? <==> TokenKey(t, token) in s.tokens
  {
    var key := TokenKey(t, token);
    if key in s.tokens then Some(s.tokens[key].record) else None
  }

  /** A saved token reads back as saved. */
  lemma SaveThenGet(s: Store, t: TokenType, record: TokenRecord)
    ensures GetToken(SaveToken(s, t, record), t, record.token) == Some(record)
  {
  }

  /**
   * revokeToken: a missing key is left alone; a present record is marked
   * revoked at `now` and written back with its type's full TTL.
   */
  function RevokeToken(s: Store, token: string, t: TokenType, now: int): (r: Store)
    ensures TokenKey(t, token) !in s.tokens ==> r == s
    ensures r.userTokens == s.userTokens && r.tokens.Keys == s.tokens.Keys
    ensures TokenKey(t, token) in s.tokens ==>
      r.tokens[TokenKey(t, token)] == Entry(s.tokens[TokenKey(t, token)].record.(isRevoked := Some(true), revokedAt := Some(now)), Ttl(t))
    ensures forall k :: k in s.tokens && k != TokenKey(t, token) ==> r.tokens[k] == s.tokens[k]
  {
    var key := TokenKey(t, token);
    if key !in s.tokens then s
    else
      var prev := s.tokens[key].record;
      s.(tokens := s.tokens[key := Entry(prev.(isRevoked := Some(true), revokedAt := Some(now)), Ttl(t))])
  }

  /** Revocation changes only the revocation fields: the token, its owner and the rest stay. */
  lemma RevokeKeepsIdentity(s: Store, token: string, t: TokenType, now: int)
    requires TokenKey(t, token) in s.tokens
    ensures var before := s.tokens[TokenKey(t, token)].record;
      var after := RevokeToken(s, token, t, now).tokens[TokenKey(t, token)].record;
      after.token == before.token && after.userId == before.userId && after.rest == before.rest && after.isRevoked == Some(true)
  {
  }

  predicate Revoked(s: Store, key: string) {
    key in s.tokens && s.tokens[key].record.isRevoked == Some(true)
  }

  /** The loop of revokeAllUserTokens: both kinds of each listed token. */
  function RevokeEach(s: Store, tokens: seq<string>, now: int): (r: Store)
    ensures r.userTokens == s.userTokens && r.tokens.Keys == s.tokens.Keys
    ensures forall k :: k in s.tokens && Revoked(s, k) ==> Revoked(r, k)
    ensures forall i, t :: 0 <= i < |tokens| && TokenKey(t, tokens[i]) in s.tokens ==> Revoked(r, TokenKey(t, tokens[i]))
    ensures forall k :: k in s.tokens && (forall i, t :: 0 <= i < |tokens| ==> k != TokenKey(t, tokens[i])) ==> r.tokens[k] == s.tokens[k]
    decreases |tokens|
  {
    if tokens == [] then s
    else
      var s1 := RevokeToken(RevokeToken(s, tokens[0], Access, now), tokens[0], Refresh, now);
      var r := RevokeEach(s1, tokens[1..], now);
      assert forall i :: 1 <= i < |tokens| ==> tokens[i] == tokens[1..][i - 1];
      assert forall t :: TokenKey(t, tokens[0]) in s.tokens ==> Revoked(s1, TokenKey(t, tokens[0])) by {
        PrefixesKeepTypesApart(tokens[0], tokens[0]);
      }
      r
  }

  /**
   * revokeAllUserTokens: every token in the user's set is revoked as both
   * kinds, then the set is deleted. The set is visited in `order`, an
   * enumeration of it.
   */
  function RevokeAll(s: Store, userId: Option<int>, order: seq<string>, now: int): (r: Store)
    requires UserKey(userId) in s.userTokens ==> (forall x :: x in order <==> x in s.userTokens[UserKey(userId)])
    ensures UserKey(userId) !in r.userTokens
    ensures forall k :: k in r.userTokens ==> k in s.userTokens && r.userTokens[k] == s.userTokens[k]
    ensures UserKey(userId) in s.userTokens ==>
      forall token, t :: token in s.userTokens[UserKey(userId)] && TokenKey(t, token) in s.tokens ==> Revoked(r, TokenKey(t, token))
  {
    var key := UserKey(userId);
    var tokens := if key in s.userTokens then order else [];
    var revoked := RevokeEach(s, tokens, now);
    assert key in s.userTokens ==> forall token :: token in s.userTokens[key] ==> exists i :: 0 <= i < |tokens| && tokens[i] == token;
    revoked.(userTokens := revoked.userTokens - {key})
  }
}
