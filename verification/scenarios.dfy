/** Worked requests against a one-route specification: `GET /pets` with a
    required integer query parameter `limit`. The parse collaborator here
    accepts only the text `5` (standing in for `JSON.parse` on the values
    used below), and the validator accepts every parsed value. */
module Scenarios {
  import opened Wrappers
  import opened OasSpec
  import ParameterChecker
  import OasValidator

  const LimitParam: Param := Param("limit", "query", true, Schema("{\"type\": \"integer\"}"))

  const PetsSpec: Spec := Spec(map["/pets" := map["get" := Operation(Some([LimitParam]))]])

  const PetsOracle: Oracle<int> := Oracle(s => if s == "5" then Some(5) else None, (v, schema) => [])

  /** A request for `url` with method `verb` whose only parameter value is
      `limit` in the query, when `limit` is given. */
  function PetsRequest(url: string, verb: string, limit: Option<string>): Request {
    Request(url, verb, (location, name) => if location == "query" && name == "limit" then limit else None)
  }

  /** `GET /pets` without `limit`: the missing list names it and the wrong
      list is empty. */
  lemma MissingLimitIsListed()
    ensures ParameterChecker.CheckRequestData(PetsSpec.paths, "/pets", "get", PetsRequest("/pets", "GET", None).param, PetsOracle)
      == Success(ParameterChecker.Lists([("limit", "query")], []))
  {
    var req := PetsRequest("/pets", "GET", None);
    var start := ParameterChecker.Lists([], []);
    var after := ParameterChecker.Lists([("limit", "query")], []);
    assert req.param(LimitParam.location, LimitParam.name) == None;
    var step := ParameterChecker.Step(LimitParam, start, req.param, PetsOracle);
    assert step.Success? && step.value.wrong == [];
    assert step.value.missing == [] + [("limit", "query")] == [("limit", "query")];
    assert step == Success(after);
    assert [LimitParam][1..] == [];
    assert ParameterChecker.Walk([LimitParam], start, req.param, PetsOracle) == Success(after);
    assert DeclaredParams(PetsSpec.paths["/pets"]["get"]) == [LimitParam];
  }

  /** `GET /pets` without `limit` is still forwarded. */
  lemma MissingLimitIsForwarded()
    ensures OasValidator.Handle(PetsSpec, PetsRequest("/pets", "GET", None), PetsOracle)
      == OasValidator.Forward("/pets", PetsSpec)
  {
    MissingLimitIsListed();
    PlainUrlKept();
    GetLowered();
    OasValidator.DeclaredRouteForwarded(PetsSpec, PetsRequest("/pets", "GET", None), PetsOracle, "/pets", "get");
  }

  /** `GET /pets?limit=abc`: the value does not parse, so the check
      raises. */
  lemma MalformedLimitFailsCheck()
    ensures ParameterChecker.CheckRequestData(PetsSpec.paths, "/pets", "get", PetsRequest("/pets?limit=abc", "GET", Some("abc")).param, PetsOracle)
      == Failure(ParameterChecker.MalformedValue("limit", "abc"))
  {
    var req := PetsRequest("/pets?limit=abc", "GET", Some("abc"));
    var start := ParameterChecker.Lists([], []);
    assert req.param(LimitParam.location, LimitParam.name) == Some("abc");
    assert PetsOracle.parse("abc") == None;
    var step := ParameterChecker.Step(LimitParam, start, req.param, PetsOracle);
    assert step == Failure(ParameterChecker.MalformedValue("limit", "abc"));
    assert ParameterChecker.Walk([LimitParam], start, req.param, PetsOracle) == step;
    assert DeclaredParams(PetsSpec.paths["/pets"]["get"]) == [LimitParam];
  }

  /** `GET /pets?limit=abc` is not answered: the handler raises. */
  lemma MalformedLimitIsRaised()
    ensures OasValidator.Handle(PetsSpec, PetsRequest("/pets?limit=abc", "GET", Some("abc")), PetsOracle)
      == OasValidator.Raised("/pets", ParameterChecker.MalformedValue("limit", "abc"))
  {
    MalformedLimitFailsCheck();
    QueryStripped();
    GetLowered();
    OasValidator.DeclaredRouteRaises(PetsSpec, PetsRequest("/pets?limit=abc", "GET", Some("abc")), PetsOracle,
      "/pets", "get", ParameterChecker.MalformedValue("limit", "abc"));
  }

  /** `GET /pets?limit=5`: both lists are empty. */
  lemma ValidLimitPassesCheck()
    ensures ParameterChecker.CheckRequestData(PetsSpec.paths, "/pets", "get", PetsRequest("/pets?limit=5", "GET", Some("5")).param, PetsOracle)
      == Success(ParameterChecker.Lists([], []))
  {
    var req := PetsRequest("/pets?limit=5", "GET", Some("5"));
    var start := ParameterChecker.Lists([], []);
    assert req.param(LimitParam.location, LimitParam.name) == Some("5");
    assert PetsOracle.parse("5") == Some(5);
    assert PetsOracle.validate(5, LimitParam.schema) == [];
    var step := ParameterChecker.Step(LimitParam, start, req.param, PetsOracle);
    assert step == Success(start);
    assert [LimitParam][1..] == [];
    assert ParameterChecker.Walk([LimitParam], start, req.param, PetsOracle) == Success(start);
    assert DeclaredParams(PetsSpec.paths["/pets"]["get"]) == [LimitParam];
  }

  /** `GET /pets?limit=5` is forwarded. */
  lemma ValidLimitIsForwarded()
    ensures OasValidator.Handle(PetsSpec, PetsRequest("/pets?limit=5", "GET", Some("5")), PetsOracle)
      == OasValidator.Forward("/pets", PetsSpec)
  {
    ValidLimitPassesCheck();
    QueryStripped();
    GetLowered();
    OasValidator.DeclaredRouteForwarded(PetsSpec, PetsRequest("/pets?limit=5", "GET", Some("5")), PetsOracle, "/pets", "get");
  }

  /** A path the specification does not declare gets the 400 reply. */
  lemma UnknownPathIsRejected()
    ensures OasValidator.Handle(PetsSpec, PetsRequest("/unknown", "GET", None), PetsOracle)
      == OasValidator.BadRequest("/unknown", 400, "The requested path is not in the specification file")
  {
    assert "/unknown" !in PetsSpec.paths;
    UnknownUrlKept();
    GetLowered();
    OasValidator.UndeclaredRouteRejected(PetsSpec, PetsRequest("/unknown", "GET", None), PetsOracle, "/unknown", "get");
  }

  /** `POST /pets`, where `/pets` declares only `get`, gets the 400 reply:
      the method lookup is exact after lower-casing. */
  lemma UndeclaredMethodIsRejected()
    ensures OasValidator.Handle(PetsSpec, PetsRequest("/pets", "POST", None), PetsOracle)
      == OasValidator.BadRequest("/pets", 400, "The requested path is not in the specification file")
  {
    PlainUrlKept();
    assert OasValidator.RequestedMethod("POST") == "post";
    assert "post" !in PetsSpec.paths["/pets"];
    OasValidator.UndeclaredRouteRejected(PetsSpec, PetsRequest("/pets", "POST", None), PetsOracle, "/pets", "post");
  }

  /** The URL `path?query` normalises to `path`. */
  lemma StripsTo(path: string, query: string)
    requires '?' !in path
    ensures OasValidator.RequestedUrl(path + "?" + query) == path
  {
    var url := path + "?" + query;
    assert url[|path|] == '?';
    OasValidator.RequestedUrlUnique(url, path);
  }

  /** The two query-carrying URLs above normalise to `/pets`. */
  lemma QueryStripped()
    ensures OasValidator.RequestedUrl("/pets?limit=abc") == "/pets"
    ensures OasValidator.RequestedUrl("/pets?limit=5") == "/pets"
  {
    StripsTo("/pets", "limit=abc");
    assert "/pets" + "?" + "limit=abc" == "/pets?limit=abc";
    StripsTo("/pets", "limit=5");
    assert "/pets" + "?" + "limit=5" == "/pets?limit=5";
  }

  /** URLs without a query string are kept as they are. */
  lemma PlainUrlKept()
    ensures OasValidator.RequestedUrl("/pets") == "/pets"
  {
    OasValidator.RequestedUrlUnique("/pets", "/pets");
  }

  /** `/unknown` has no query string. */
  lemma UnknownUrlKept()
    ensures OasValidator.RequestedUrl("/unknown") == "/unknown"
  {
    OasValidator.RequestedUrlUnique("/unknown", "/unknown");
  }

  /** `GET` lower-cases to `get`. */
  lemma GetLowered()
    ensures OasValidator.RequestedMethod("GET") == "get"
  {
  }
}
