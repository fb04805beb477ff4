/** The path-prefix gates of auth.go: `SimpleAuth.Middleware`, which sends
    unauthenticated requests under its prefixes to `OnUnauthorized`, and
    `Auth`, which sends requests under one prefix to an unauthorized
    handler according to a caller-supplied predicate.

    Whether a request is authenticated (`isAuthed`, read from a cookie, or
    the `authed` callback of `Auth`) is a parameter here. */
module Auth {
  import opened Common
  import opened Handlers

  /** Some prefix of `prefixes` starts `url`: the loop of `requestSuits`. */
  function AnyPrefix(prefixes: seq<string>, url: string): (r: bool)
    ensures r <==> exists i | 0 <= i < |prefixes| :: HasPrefix(url, prefixes[i])
  {
    if prefixes == [] then false
    else HasPrefix(url, prefixes[0]) || AnyPrefix(prefixes[1..], url)
  }

  /** `requestSuits`: every request when no prefix is configured, otherwise
      those whose lower-cased path starts with a configured prefix (the
      prefixes themselves are not lower-cased). */
  function RequestSuits(prefixes: seq<string>, path: string): (r: bool)
    ensures prefixes == [] ==> r
    ensures prefixes != [] ==> (r <==> exists i | 0 <= i < |prefixes| :: HasPrefix(ToLower(path), prefixes[i]))
  {
    if |prefixes| == 0 then true else AnyPrefix(prefixes, ToLower(path))
  }

  /** A prefix holding an upper-case letter starts no lower-cased path. */
  lemma UpperPrefixNeverMatches(prefix: string, path: string, k: nat)
    requires k < |prefix| && IsUpper(prefix[k])
    ensures !HasPrefix(ToLower(path), prefix)
  {
    if k < |path| {
      assert ToLower(path)[k] == LowerChar(path[k]);
    }
  }

  /** So a gate all of whose prefixes hold an upper-case letter applies to no request. */
  lemma UpperPrefixesGateNothing(prefixes: seq<string>, path: string)
    requires prefixes != []
    requires forall i | 0 <= i < |prefixes| :: exists k | 0 <= k < |prefixes[i]| :: IsUpper(prefixes[i][k])
    ensures !RequestSuits(prefixes, path)
  {
    forall i | 0 <= i < |prefixes|
      ensures !HasPrefix(ToLower(path), prefixes[i])
    {
      var k :| 0 <= k < |prefixes[i]| && IsUpper(prefixes[i][k]);
      UpperPrefixNeverMatches(prefixes[i], path, k);
    }
  }

  /** The configuration of a `SimpleAuth` that its gate reads. */
  datatype SimpleAuth = SimpleAuth(filename: string, prefixes: seq<string>, onUnauthorized: HandlerFunc)

  /** The handler `SimpleAuth.Middleware` runs for a request for `path`
      (`authed` is the answer of `isAuthed`): `OnUnauthorized` when the gate
      applies and the request is not authenticated, `handler` otherwise. */
  function SimpleAuthRoute(auth: SimpleAuth, path: string, authed: bool, handler: HandlerFunc): (r: HandlerFunc)
    ensures authed ==> r == handler
    ensures auth.prefixes != [] && (forall i | 0 <= i < |auth.prefixes| :: !HasPrefix(ToLower(path), auth.prefixes[i]))
            ==> r == handler
    ensures !authed && (auth.prefixes == [] || exists i | 0 <= i < |auth.prefixes| :: HasPrefix(ToLower(path), auth.prefixes[i]))
            ==> r == auth.onUnauthorized
  {
    if RequestSuits(auth.prefixes, path) && !authed then auth.onUnauthorized else handler
  }

  /** The handler `Auth` falls back on: status 401 with the text "403 unauthorized". */
  const DefaultUnauthorized: HandlerFunc := Func("unauthorized")
  const StatusUnauthorized: int := 401
  const UnauthorizedText: string := "403 unauthorized"

  /** The handler `Auth(prefix, authed, unauthorized...)` runs for a request
      for `path`, as written: the unauthorized handler when the lower-cased
      path starts with the lower-cased prefix and `authed` holds. */
  function AuthRouteAsWritten(prefix: string, unauthorized: seq<HandlerFunc>, path: string, authed: bool,
                              handler: HandlerFunc): (r: HandlerFunc)
    ensures HasPrefix(ToLower(path), ToLower(prefix)) && authed ==>
              r == (if unauthorized == [] then DefaultUnauthorized else unauthorized[0])
    ensures !(HasPrefix(ToLower(path), ToLower(prefix)) && authed) ==> r == handler
  {
    var unauthorizedFn := Def(unauthorized, DefaultUnauthorized);
    var lowered := ToLower(prefix);
    if HasPrefix(ToLower(path), lowered) && authed then unauthorizedFn else handler
  }

  /** As written, an authenticated request under the prefix is refused and
      an unauthenticated one is served. */
  lemma AuthAsWrittenRefusesAuthed(h: HandlerFunc)
    requires h != DefaultUnauthorized
    ensures AuthRouteAsWritten("/A", [], "/a", true, h) == DefaultUnauthorized
    ensures AuthRouteAsWritten("/A", [], "/a", false, h) == h
  {
    assert ToLower("/A") == "/a" == ToLower("/a");
  }

  /** `Auth` as evidently intended: the unauthorized handler for requests
      under the prefix (in any case) that `authed` rejects. It serves every
      authenticated request and every request outside the prefix, refuses
      the others with the first given unauthorized handler or the 401 one,
      and is the as-written gate with the answer of `authed` negated. */
  function AuthRoute(prefix: string, unauthorized: seq<HandlerFunc>, path: string, authed: bool,
                     handler: HandlerFunc): (r: HandlerFunc)
    ensures authed ==> r == handler
    ensures !HasPrefix(ToLower(path), ToLower(prefix)) ==> r == handler
    ensures !authed && HasPrefix(ToLower(path), ToLower(prefix)) ==>
              r == (if unauthorized == [] then DefaultUnauthorized else unauthorized[0])
    ensures r == AuthRouteAsWritten(prefix, unauthorized, path, !authed, handler)
  {
    var unauthorizedFn := Def(unauthorized, DefaultUnauthorized);
    if HasPrefix(ToLower(path), ToLower(prefix)) && !authed then unauthorizedFn else handler
  }
}
