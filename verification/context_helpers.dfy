/**
  The small pure accessors of `Context` (context.go): path parameters, the
  two query-string accessors, the status guard of `Redirect`, and
  `IsWebsocket`.
 */
module ContextHelpers {
  import opened Wrappers
  import opened Strconv

  /** `Param`: the router's path parameters of the request, by name; a missing
      name, or a request without path parameters, gives "". */
  function Param(params: map<string, string>, name: string): (v: string)
    ensures name in params ==> v == params[name]
    ensures name !in params ==> v == ""
  {
    if |params| == 0 then ""
    else if name in params then params[name]
    else ""
  }

  /** A parsed query string (`url.Values`): every key maps to its values in
      order of appearance. */
  type QueryValues = map<string, seq<string>>

  /** `QueryParam`, that is `url.Values.Get`: the first value, or "" when the
      key is missing or has no value. */
  function QueryParam(q: QueryValues, name: string): (v: string)
    ensures name !in q ==> v == ""
    ensures name in q && |q[name]| > 0 ==> v == q[name][0]
    ensures name in q && |q[name]| == 0 ==> v == ""
  {
    if name in q && |q[name]| > 0 then q[name][0] else ""
  }

  /** `GetQueryParam`: the first value and true for a present key, "" and
      false otherwise. Indexing the first value needs the key's value list to
      be non-empty, which the query-string parser guarantees. */
  function GetQueryParam(q: QueryValues, name: string): (r: (string, bool))
    requires name in q ==> |q[name]| > 0
    ensures r.1 <==> name in q
    ensures !r.1 ==> r.0 == ""
  {
    if name in q then (q[name][0], true) else ("", false)
  }

  /** The two query accessors agree on the value; only `GetQueryParam` can
      tell a missing key from a key whose first value is "". */
  lemma QueryAccessorsAgree(q: QueryValues, name: string)
    requires name in q ==> |q[name]| > 0
    ensures GetQueryParam(q, name).0 == QueryParam(q, name)
    ensures QueryParam(q, name) != "" ==> GetQueryParam(q, name).1
    ensures GetQueryParam(q, name).1 && QueryParam(q, name) == "" ==> q[name][0] == ""
  {
  }

  /** The statuses `Redirect` accepts: 300 through 308. */
  const RedirectCodes: set<int> := {300, 301, 302, 303, 304, 305, 306, 307, 308}

  /** The guard of `Redirect`: `None` lets the redirect through; otherwise the
      error `ErrInvalidRedirectCode <code>` is returned and nothing is written. */
  function RedirectCodeError(code: int): (r: Option<string>)
    ensures r.None? <==> code in RedirectCodes
    ensures r.Some? ==> r.value == "ErrInvalidRedirectCode " + FormatInt(code)
  {
    if code < 300 || code > 308 then Some("ErrInvalidRedirectCode " + FormatInt(code)) else None
  }

  function LowerChar(c: char): char {
    if 'A' <= c <= 'Z' then (c as int - 'A' as int + 'a' as int) as char else c
  }

  /** `strings.ToLower`, on ASCII letters. */
  function ToLower(s: string): (r: string)
    ensures |r| == |s|
    ensures forall i :: 0 <= i < |s| ==> r[i] == LowerChar(s[i])
  {
    seq(|s|, i requires 0 <= i < |s| => LowerChar(s[i]))
  }

  /** `strings.EqualFold`, on ASCII letters: equal once both are lower-cased. */
  function EqualFold(a: string, b: string): (r: bool)
    ensures r <==> ToLower(a) == ToLower(b)
  {
    |a| == |b| && forall i :: 0 <= i < |a| ==> LowerChar(a[i]) == LowerChar(b[i])
  }

  /** Lower-casing twice is lower-casing once. */
  lemma ToLowerIdempotent(s: string)
    ensures ToLower(ToLower(s)) == ToLower(s)
  {
  }

  predicate OccursAt(s: string, sub: string, j: nat) {
    j + |sub| <= |s| && s[j..j + |sub|] == sub
  }

  /** Search for `sub` in `s` starting at position `i`. */
  function ContainsFrom(s: string, sub: string, i: nat): (b: bool)
    requires i <= |s|
    ensures b <==> exists j :: i <= j && OccursAt(s, sub, j)
    decreases |s| - i
  {
    if |s| - i < |sub| then false
    else if OccursAt(s, sub, i) then true
    else ContainsFrom(s, sub, i + 1)
  }

  /** `strings.Contains`. */
  function Contains(s: string, sub: string): (b: bool)
    ensures b <==> exists j :: 0 <= j && OccursAt(s, sub, j)
  {
    ContainsFrom(s, sub, 0)
  }

  /** `IsWebsocket`: the lower-cased `Connection` header contains "upgrade"
      and the `Upgrade` header is "websocket" up to case. */
  function IsWebsocket(header: string -> string): (b: bool)
    ensures b <==> (exists j :: 0 <= j && OccursAt(ToLower(header("Connection")), "upgrade", j))
                   && EqualFold(header("Upgrade"), "websocket")
  {
    Contains(ToLower(header("Connection")), "upgrade") && EqualFold(header("Upgrade"), "websocket")
  }

  /** A typical browser handshake is recognised; a missing `Connection` header
      never is. */
  lemma WebsocketExamples()
    ensures IsWebsocket(n => if n == "Connection" then "keep-alive, Upgrade" else if n == "Upgrade" then "WebSocket" else "")
    ensures !IsWebsocket(n => if n == "Upgrade" then "websocket" else "")
  {
    var h := (n: string) => if n == "Connection" then "keep-alive, Upgrade" else if n == "Upgrade" then "WebSocket" else "";
    var lower := ToLower(h("Connection"));
    assert lower == "keep-alive, upgrade";
    assert OccursAt(lower, "upgrade", 12);
  }
}
