/** The per-request handler returned by the middleware factory: normalise
    the URL and method, reply 400 when the route is not declared, otherwise
    check the request's parameters and forward with the specification
    attached. */
module OasValidator {
  import opened Wrappers
  import opened OasSpec
  import JsString
  import PathMatcher
  import ParameterChecker

  /** The body message of the reply to an undeclared route. */
  const NotInSpecMessage: string := "The requested path is not in the specification file"

  /** The status code of the reply to an undeclared route. */
  const BadRequestStatus: nat := 400

  /** What handling one request amounts to. Every outcome records the
      normalised URL, which the handler stores in `res.locals` (under the
      misspelt key `requestedUlr`) before anything else.
      - `BadRequest`: the handler replied with `status` and a JSON body
        `{message}` and did not call `next`.
      - `Forward`: the handler set `res.locals.spec` to `spec` and called
        `next` once.
      - `Raised`: the parameter check threw, and the handler does not catch
        it. */
  datatype Outcome =
    | BadRequest(requestedUrl: string, status: nat, message: string)
    | Forward(requestedUrl: string, spec: Spec)
    | Raised(requestedUrl: string, error: ParameterChecker.CheckError)

  /** `req.url.split("?")[0]`: the URL without its query string, that is,
      the longest prefix of the URL that stops at the first `?`. */
  function RequestedUrl(url: string): (r: string)
    ensures '?' !in r
    ensures r <= url
    ensures |r| < |url| ==> url[|r|] == '?'
  {
    JsString.Split(url, '?')[0]
  }

  /** `req.method.toLowerCase()`: a method of the same length with no
      upper-case ASCII letter, equal to the raw method when that already has
      none. */
  function RequestedMethod(m: string): (r: string)
    ensures |r| == |m|
    ensures JsString.NoAsciiUpper(r)
    ensures JsString.NoAsciiUpper(m) ==> r == m
    ensures forall k :: 0 <= k < |m| ==> r[k] == JsString.LowerChar(m[k])
  {
    JsString.ToLower(m)
  }

  /** The handler `OASValidator(req, res, next)`, with the settled
      specification `spec` and the parse and validate collaborators `o`. */
  function Handle<J>(spec: Spec, req: Request, o: Oracle<J>): (r: Outcome)
    ensures r.requestedUrl == RequestedUrl(req.url)
    ensures r.BadRequest? <==>
      (RequestedUrl(req.url), RequestedMethod(req.httpMethod)) !in PathMatcher.Routes(spec.paths)
    ensures r.BadRequest? ==> r.status == BadRequestStatus && r.message == NotInSpecMessage
    ensures r.Forward? ==> r.spec == spec
    ensures !r.BadRequest? ==>
      var ps := DeclaredParams(spec.paths[RequestedUrl(req.url)][RequestedMethod(req.httpMethod)]);
      (r.Forward? <==> forall k :: 0 <= k < |ps| ==> ParameterChecker.Acceptable(ps[k], req.param, o))
    ensures r.Raised? ==>
      var ps := DeclaredParams(spec.paths[RequestedUrl(req.url)][RequestedMethod(req.httpMethod)]);
      var k := ParameterChecker.FirstRejected(ps, req.param, o);
      k < |ps| && ParameterChecker.Explains(r.error, ps[k], [], req.param, o)
  {
    var requestedUrl := RequestedUrl(req.url);
    var verb := RequestedMethod(req.httpMethod);
    if PathMatcher.SpecContainsPath(spec.paths, requestedUrl, verb) then
      match ParameterChecker.CheckRequestData(spec.paths, requestedUrl, verb, req.param, o)
      case Failure(e) => Raised(requestedUrl, e)
      case Success(_) => Forward(requestedUrl, spec)
    else
      BadRequest(requestedUrl, BadRequestStatus, NotInSpecMessage)
  }

  // ----- URL normalisation -----

  /** The normalised URL is the only prefix of the URL that contains no `?`
      and either is the whole URL or stops right before a `?`. */
  lemma RequestedUrlUnique(url: string, p: string)
    requires '?' !in p && p <= url
    requires |p| < |url| ==> url[|p|] == '?'
    ensures p == RequestedUrl(url)
  {
  }

  /** Normalising a normalised URL leaves it unchanged. */
  lemma RequestedUrlIdempotent(url: string)
    ensures RequestedUrl(RequestedUrl(url)) == RequestedUrl(url)
  {
    var r := RequestedUrl(url);
    RequestedUrlUnique(r, r);
  }

  /** The query string never takes part in route lookup: for the same
      parameter accessor, a URL with a query string is handled exactly like
      the same URL without it. */
  lemma QueryStringIgnored<J>(spec: Spec, req: Request, path: string, query: string, o: Oracle<J>)
    requires '?' !in path
    ensures Handle(spec, req.(url := path + "?" + query), o) == Handle(spec, req.(url := path), o)
  {
    var full := path + "?" + query;
    assert full[|path|] == '?';
    RequestedUrlUnique(full, path);
    RequestedUrlUnique(path, path);
  }

  // ----- Method normalisation -----

  /** Two requests whose methods differ only in the case of ASCII letters
      are handled alike. */
  lemma MethodCaseIgnored<J>(spec: Spec, req: Request, m1: string, m2: string, o: Oracle<J>)
    requires |m1| == |m2|
    requires forall k :: 0 <= k < |m1| ==> JsString.LowerChar(m1[k]) == JsString.LowerChar(m2[k])
    ensures Handle(spec, req.(httpMethod := m1), o) == Handle(spec, req.(httpMethod := m2), o)
  {
    JsString.ToLowerEqualIff(m1, m2);
  }

  /** A method key holding an upper-case ASCII letter is never matched, so a
      path whose method keys all hold one rejects every request. */
  lemma UpperCaseMethodKeysUnreachable<J>(spec: Spec, req: Request, o: Oracle<J>)
    requires RequestedUrl(req.url) in spec.paths
    requires forall key :: key in spec.paths[RequestedUrl(req.url)] ==> !JsString.NoAsciiUpper(key)
    ensures Handle(spec, req, o).BadRequest?
  {
  }

  // ----- Dispatch -----

  /** A declared route is forwarded even when required parameters are
      missing, as long as every required parameter that is present
      conforms: absence is only logged, and the missing list is exactly the
      required parameters the request lacks. */
  lemma ForwardDespiteMissing<J>(spec: Spec, req: Request, o: Oracle<J>)
    requires PathMatcher.SpecContainsPath(spec.paths, RequestedUrl(req.url), RequestedMethod(req.httpMethod))
    requires
      var ps := DeclaredParams(spec.paths[RequestedUrl(req.url)][RequestedMethod(req.httpMethod)]);
      forall k :: 0 <= k < |ps| && ps[k].required && ParameterChecker.Present(ps[k], req.param) ==>
        ParameterChecker.Conforms(req.param(ps[k].location, ps[k].name).value, ps[k].schema, o)
    ensures Handle(spec, req, o) == Forward(RequestedUrl(req.url), spec)
    ensures
      var ps := DeclaredParams(spec.paths[RequestedUrl(req.url)][RequestedMethod(req.httpMethod)]);
      ParameterChecker.CheckRequestData(spec.paths, RequestedUrl(req.url), RequestedMethod(req.httpMethod), req.param, o)
        == Success(ParameterChecker.Lists(ParameterChecker.MissingRef(ps, req.param), []))
  {
  }

  /** An undeclared route gets the 400 reply with the fixed message. */
  lemma UndeclaredRouteRejected<J>(spec: Spec, req: Request, o: Oracle<J>, url: string, verb: string)
    requires RequestedUrl(req.url) == url && RequestedMethod(req.httpMethod) == verb
    requires !PathMatcher.SpecContainsPath(spec.paths, url, verb)
    ensures Handle(spec, req, o) == BadRequest(url, 400, "The requested path is not in the specification file")
  {
  }

  /** A declared route whose parameter check returns normally is forwarded
      once, with the specification attached, whatever the missing list. */
  lemma DeclaredRouteForwarded<J>(spec: Spec, req: Request, o: Oracle<J>, url: string, verb: string)
    requires RequestedUrl(req.url) == url && RequestedMethod(req.httpMethod) == verb
    requires PathMatcher.SpecContainsPath(spec.paths, url, verb)
    requires ParameterChecker.CheckRequestData(spec.paths, url, verb, req.param, o).Success?
    ensures Handle(spec, req, o) == Forward(url, spec)
  {
  }

  /** A declared route whose parameter check raises is neither answered nor
      forwarded: the error escapes the handler. */
  lemma DeclaredRouteRaises<J>(spec: Spec, req: Request, o: Oracle<J>, url: string, verb: string, e: ParameterChecker.CheckError)
    requires RequestedUrl(req.url) == url && RequestedMethod(req.httpMethod) == verb
    requires PathMatcher.SpecContainsPath(spec.paths, url, verb)
    requires ParameterChecker.CheckRequestData(spec.paths, url, verb, req.param, o) == Failure(e)
    ensures Handle(spec, req, o) == Raised(url, e)
  {
  }
}
