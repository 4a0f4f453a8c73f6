/**
 * WebSocketAuthInterceptor.beforeHandshake: where the token comes from,
 * how the session code is read off the query string, and which HTTP status
 * refuses the handshake. The token service and the chat-session lookup are
 * given as maps from token to user and from session code to owner.
 */
module HandshakeAuth {
  import opened Wrappers
  import opened JavaStrings

  const TOKEN_PARAM: string := "token="
  const SESSION_PARAM: string := "sessionCode="
  const SESSION_MISSING_PREFIX: string := "会话不存在: "

  /**
   * The outcome of the handshake: the refusal status, acceptance with the
   * attributes it stores, or the RuntimeException getSessionByCode throws for an
   * unknown code. That lookup never returns null, so the interceptor's 404
   * branch cannot be reached and has no outcome here.
   */
  datatype Outcome =
    | Unauthorized
    | BadRequest
    | LookupFailed(message: string)
    | Forbidden
    | Accepted(userId: int, sessionCode: string)

  /** The remainder of the first parameter that starts with `name`. */
  function FirstParam(params: seq<string>, name: string): (r: Option<string>)
    ensures r.None? <==> forall i :: 0 <= i < |params| ==> !StartsWith(params[i], name)
    ensures r.Some? ==> exists i :: 0 <= i < |params| && StartsWith(params[i], name) && r.value == params[i][|name|..]
  {
    if params == [] then None
    else if StartsWith(params[0], name) then Some(params[0][|name|..])
    else
      var r := FirstParam(params[1..], name);
      assert forall i :: 1 <= i < |params| ==> params[i] == params[1..][i - 1];
      r
  }

  /** The parameter found is the first one with the prefix, not just any. */
  lemma {:induction false} FirstParamAt(params: seq<string>, name: string, k: nat)
    requires k < |params| && StartsWith(params[k], name)
    requires forall j :: 0 <= j < k ==> !StartsWith(params[j], name)
    ensures FirstParam(params, name) == Some(params[k][|name|..])
  {
    if k > 0 {
      assert !StartsWith(params[0], name);
      assert forall j :: 0 <= j < k - 1 ==> params[1..][j] == params[j + 1];
      FirstParamAt(params[1..], name, k - 1);
    }
  }

  /** The token: the first Authorization header, or else the query's token parameter when the header is missing or blank. */
  function HandshakeToken(authHeaders: Option<seq<string>>, query: Option<string>): (r: Option<string>)
    ensures authHeaders.Some? && |authHeaders.value| > 0 && Trim(authHeaders.value[0]) != "" ==> r == Some(authHeaders.value[0])
  {
    var fromHeader := if authHeaders.Some? && |authHeaders.value| > 0 then Some(authHeaders.value[0]) else None;
    if fromHeader.Some? && Trim(fromHeader.value) != "" then fromHeader
    else if query.Some? && Contains(query.value, TOKEN_PARAM) then
      match FirstParam(Split(query.value, '&'), TOKEN_PARAM)
      case Some(t) => Some(t)
      case None => fromHeader
    else fromHeader
  }

  /**
   * extractSessionCodeFromQuery. `query` is URI.getQuery(), which has already
   * percent-decoded the text; the method itself decodes nothing further.
   */
  function ExtractSessionCode(query: Option<string>): (r: Option<string>)
    ensures NullOrEmpty(query) ==> r.None?
    ensures !NullOrEmpty(query) ==> r == FirstParam(Split(query.value, '&'), SESSION_PARAM)
  {
    if NullOrEmpty(query) then None else FirstParam(Split(query.value, '&'), SESSION_PARAM)
  }

  /** beforeHandshake: the checks in order, each refusing with its own status. */
  function Handshake(authHeaders: Option<seq<string>>, query: Option<string>,
                     tokens: map<string, int>, owners: map<string, int>): (r: Outcome)
    ensures r.Accepted? ==> r.sessionCode in owners && owners[r.sessionCode] == r.userId
    ensures r.LookupFailed? ==> && ExtractSessionCode(query).Some?
                                && ExtractSessionCode(query).value !in owners
                                && r.message == SESSION_MISSING_PREFIX + ExtractSessionCode(query).value
  {
    var token := HandshakeToken(authHeaders, query);
    if token.None? || token.value !in tokens then Unauthorized
    else
      var user := tokens[token.value];
      var code := ExtractSessionCode(query);
      if code.None? || Trim(code.value) == "" then BadRequest
      else if code.value !in owners then LookupFailed(SESSION_MISSING_PREFIX + code.value)
      else if owners[code.value] != user then Forbidden
      else Accepted(user, code.value)
  }

  /** A handshake is accepted exactly when the token is known and the session code names a session of the same user. */
  lemma AcceptedIff(authHeaders: Option<seq<string>>, query: Option<string>, tokens: map<string, int>, owners: map<string, int>)
    ensures Handshake(authHeaders, query, tokens, owners).Accepted? <==>
      var token := HandshakeToken(authHeaders, query);
      var code := ExtractSessionCode(query);
      && token.Some? && token.value in tokens
      && code.Some? && Trim(code.value) != ""
      && code.value in owners && owners[code.value] == tokens[token.value]
  {
  }

  /** A known token with a usable code that names no session ends in the lookup's exception, never in a refusal status. */
  lemma UnknownCodeThrows(authHeaders: Option<seq<string>>, query: Option<string>, tokens: map<string, int>, owners: map<string, int>)
    requires HandshakeToken(authHeaders, query).Some? && HandshakeToken(authHeaders, query).value in tokens
    requires ExtractSessionCode(query).Some? && Trim(ExtractSessionCode(query).value) != ""
    requires ExtractSessionCode(query).value !in owners
    ensures Handshake(authHeaders, query, tokens, owners) == LookupFailed(SESSION_MISSING_PREFIX + ExtractSessionCode(query).value)
  {
  }

  /** A bad token refuses the handshake before the session code is looked at. */
  lemma TokenCheckedFirst(authHeaders: Option<seq<string>>, query: Option<string>, tokens: map<string, int>, owners: map<string, int>)
    requires HandshakeToken(authHeaders, query).None? || HandshakeToken(authHeaders, query).value !in tokens
    ensures Handshake(authHeaders, query, tokens, owners) == Unauthorized
  {
  }

  /** Dropping trailing empty pieces keeps a non-empty first piece. */
  lemma DropKeepsFirst(parts: seq<string>)
    requires |parts| > 0 && parts[0] != ""
    ensures |DropTrailingEmpty(parts)| > 0 && DropTrailingEmpty(parts)[0] == parts[0]
  {
  }

  /** A parameter at the head of the query string is found, whatever follows it. */
  lemma LeadingParamFound(name: string, v: string, rest: string)
    requires name != "" && '&' !in name && '&' !in v
    ensures FirstParam(Split(name + v + "&" + rest, '&'), name) == Some(v)
  {
    var p := name + v;
    var q := p + ['&'] + rest;
    assert name + v + "&" + rest == q;
    RawSplitPrefix(p, rest, '&');
    assert q[|p|] == '&';
    DropKeepsFirst(RawSplit(q, '&'));
    assert StartsWith(p, name);
    assert p[|name|..] == v;
  }

  /** A session code given first in the query string is the one extracted. */
  lemma SessionCodeFirst(code: string, rest: string)
    requires '&' !in code
    ensures ExtractSessionCode(Some(SESSION_PARAM + code + "&" + rest)) == Some(code)
  {
    LeadingParamFound(SESSION_PARAM, code, rest);
  }

  /** Without an Authorization header, a token given first in the query string is used. */
  lemma QueryTokenUsed(t: string, rest: string)
    requires '&' !in t
    ensures HandshakeToken(None, Some(TOKEN_PARAM + t + "&" + rest)) == Some(t)
  {
    var q := TOKEN_PARAM + t + "&" + rest;
    assert Contains(q, TOKEN_PARAM) by {
      assert q[..|TOKEN_PARAM|] == TOKEN_PARAM;
    }
    LeadingParamFound(TOKEN_PARAM, t, rest);
  }
}
