/**
 * IpUtil.getClientIp: the client address of an HTTP request, taken from the
 * first usable proxy header in a fixed order, else from the socket address.
 * A request is its header map (as the servlet container resolves names)
 * and its remote address.
 */
module ClientIp {
  import opened Wrappers
  import opened JavaStrings

  const LOCALHOST_IPV4: string := "127.0.0.1"
  const LOCALHOST_IPV6: string := "0:0:0:0:0:0:0:1"

  /** The headers consulted, highest priority first. */
  const HEADER_ORDER: seq<string> :=
    ["X-Forwarded-For", "X-Real-IP", "Proxy-Client-IP", "WL-Proxy-Client-IP", "HTTP_CLIENT_IP", "HTTP_X_FORWARDED_FOR"]

  datatype Request = Request(headers: map<string, string>, remoteAddr: Option<string>)

  function Header(req: Request, name: string): (r: Option<string>)
    ensures r.Some? <==> name in req.headers
  {
    if name in req.headers then Some(req.headers[name]) else None
  }

  /** isValidIp: present, non-empty and not "unknown" in any case. Nothing is trimmed first. */
  predicate IsValidIp(ip: Option<string>)
    ensures ip.None? || ip == Some("") ==> !IsValidIp(ip)
    ensures ip.Some? && EqualsIgnoreCase(ip.value, "unknown") ==> !IsValidIp(ip)
  {
    ip.Some? && ip.value != "" && Lower(ip.value) != "unknown"
  }

  /** The part of a forwarded-for list before its first comma. */
  function FirstHop(ip: string): (r: string)
    ensures ',' !in r
    ensures ',' !in ip ==> r == ip
    ensures ',' in ip ==> r + [','] <= ip
  {
    var k := IndexOf(ip, ',');
    if k == -1 then ip
    else
      assert ip[..k] + [','] == ip[..k + 1];
      ip[..k]
  }

  /** The address header `i` gives, when it is usable. */
  function FromHeader(req: Request, i: nat): (r: Option<string>)
    requires i < |HEADER_ORDER|
    ensures r.Some? <==> IsValidIp(Header(req, HEADER_ORDER[i]))
  {
    var h := Header(req, HEADER_ORDER[i]);
    if !IsValidIp(h) then None
    else if i == 0 then Some(Trim(FirstHop(h.value)))
    else Some(Trim(h.value))
  }

  /** What each header gives, in priority order. */
  function Candidates(req: Request): (r: seq<Option<string>>)
    ensures |r| == |HEADER_ORDER|
    ensures forall i :: 0 <= i < |r| ==> r[i] == FromHeader(req, i)
  {
    seq(|HEADER_ORDER|, i requires 0 <= i < |HEADER_ORDER| => FromHeader(req, i))
  }

  /** The first present value of a list, tried in order. */
  function FirstPresent(rs: seq<Option<string>>): Option<string> {
    if rs == [] then None else if rs[0].Some? then rs[0] else FirstPresent(rs[1..])
  }

  /** getClientIp. */
  function GetClientIp(req: Option<Request>): (r: string)
    ensures req.None? ==> r == LOCALHOST_IPV4
  {
    if req.None? then LOCALHOST_IPV4
    else
      match FirstPresent(Candidates(req.value))
      case Some(ip) => ip
      case None =>
        var remote := req.value.remoteAddr;
        if remote.None? || remote.value == LOCALHOST_IPV6 then LOCALHOST_IPV4
        else Trim(remote.value)
  }

  /** The first present entry decides. */
  lemma {:induction false} FirstPresentAt(rs: seq<Option<string>>, k: nat)
    requires k < |rs| && rs[k].Some?
    requires forall j :: 0 <= j < k ==> rs[j].None?
    ensures FirstPresent(rs) == rs[k]
  {
    if k > 0 {
      assert rs[1..][k - 1] == rs[k];
      FirstPresentAt(rs[1..], k - 1);
    }
  }

  /** A list with nothing present gives nothing. */
  lemma {:induction false} NothingPresent(rs: seq<Option<string>>)
    requires forall j :: 0 <= j < |rs| ==> rs[j].None?
    ensures FirstPresent(rs).None?
  {
    if rs != [] {
      NothingPresent(rs[1..]);
    }
  }

  /** Header k decides when it is usable and every header before it is not. */
  lemma FirstUsableHeaderWins(req: Request, k: nat)
    requires k < |HEADER_ORDER|
    requires forall j :: 0 <= j < k ==> !IsValidIp(Header(req, HEADER_ORDER[j]))
    requires IsValidIp(Header(req, HEADER_ORDER[k]))
    ensures FirstPresent(Candidates(req)) == FromHeader(req, k)
  {
    FirstPresentAt(Candidates(req), k);
  }

  /** With no usable header the headers give nothing. */
  lemma NoUsableHeader(req: Request)
    requires forall j :: 0 <= j < |HEADER_ORDER| ==> !IsValidIp(Header(req, HEADER_ORDER[j]))
    ensures FirstPresent(Candidates(req)).None?
  {
    NothingPresent(Candidates(req));
  }

  /** The address is the first usable header's, in the fixed order; the forwarded-for list gives its first entry. */
  lemma HeaderPriority(req: Request, k: nat)
    requires k < |HEADER_ORDER|
    requires forall j :: 0 <= j < k ==> !IsValidIp(Header(req, HEADER_ORDER[j]))
    requires IsValidIp(Header(req, HEADER_ORDER[k]))
    ensures k == 0 ==> GetClientIp(Some(req)) == Trim(FirstHop(req.headers[HEADER_ORDER[0]]))
    ensures k > 0 ==> GetClientIp(Some(req)) == Trim(req.headers[HEADER_ORDER[k]])
  {
    FirstUsableHeaderWins(req, k);
  }

  /** Without a usable header the socket address is used, the IPv6 loopback read as 127.0.0.1, and no address at all as 127.0.0.1 too. */
  lemma RemoteFallback(req: Request)
    requires forall j :: 0 <= j < |HEADER_ORDER| ==> !IsValidIp(Header(req, HEADER_ORDER[j]))
    ensures req.remoteAddr.None? ==> GetClientIp(Some(req)) == LOCALHOST_IPV4
    ensures req.remoteAddr == Some(LOCALHOST_IPV6) ==> GetClientIp(Some(req)) == LOCALHOST_IPV4
    ensures req.remoteAddr.Some? && req.remoteAddr.value != LOCALHOST_IPV6 ==> GetClientIp(Some(req)) == Trim(req.remoteAddr.value)
  {
    NoUsableHeader(req);
  }

  /** The "unknown" check looks at the whole list, so an unknown first proxy hop is returned as the address. */
  lemma UnknownFirstHopReturned(req: Request, u: string, rest: string)
    requires Lower(u) == "unknown"
    requires HEADER_ORDER[0] in req.headers && req.headers[HEADER_ORDER[0]] == u + "," + rest
    ensures GetClientIp(Some(req)) == u
  {
    UnknownShape(u, rest);
    HeaderPriority(req, 0);
    FirstHopOfList(u, rest);
  }

  lemma UnknownShape(u: string, rest: string)
    requires Lower(u) == "unknown"
    ensures Trim(u) == u && ',' !in u
    ensures IsValidIp(Some(u + "," + rest))
  {
    assert LowerChar(u[0]) == 'u' && LowerChar(u[6]) == 'n';
    TrimOfTrimmed(u);
    assert |Lower(u + "," + rest)| != |Lower(u)|;
    forall i | 0 <= i < |u|
      ensures u[i] != ','
    {
      assert LowerChar(u[i]) == "unknown"[i];
    }
  }

  lemma FirstHopOfList(u: string, rest: string)
    requires ',' !in u
    ensures FirstHop(u + "," + rest) == u
  {
    var v := u + "," + rest;
    IndexAfterPrefix(u, "," + rest, ',');
    assert v == u + ("," + rest);
    assert v[..|u|] == u;
  }
}
