# OAS request validator — Dafny model

This project models the request-checking core of the `oas-tools` Express
middleware (`src/middleware/oas-validator.js`). The middleware is given an
OpenAPI document. For each request it does the following:

- strips the query string from the URL and lower-cases the method;
- looks the pair up in the document's `paths` table by exact key
  (`specContainsPath`);
- replies `400` with `{"message": "The requested path is not in the specification file"}`
  when the pair is not declared;
- otherwise walks the operation's declared parameters (`checkRequestData`):
  - a required parameter the request lacks is listed as missing;
  - a present required parameter is passed through `JSON.parse` and then the
    z-schema validator, and the first validation failure is raised as an error;
- finally attaches the document to `res.locals.spec` and calls `next`.

The model is purely functional:

- `paths` is a `map<string, map<string, Operation>>`.
- An operation holds an optional parameter list.
- A request is its URL, its method and an accessor `(location, name) -> Option<string>`; the parameter check receives only the accessor.
- `JSON.parse` and the validator are function-valued fields of an `Oracle`.
- An exception is an explicit `Failure` result.
- What the handler does is an `Outcome`: `BadRequest`, `Forward` or `Raised`.
- Every operation is a pure function, so the same inputs always give the same result.

Modules:

- `wrappers.dfy` — `Wrappers`: `Option` and `Result`.
- `js_string.dfy` — `JsString`: `split` with a one-character separator and
  ASCII `toLowerCase`.
- `oas_spec.dfy` — `OasSpec`: specification, operation, parameter, request and
  oracle datatypes.
- `path_matcher.dfy` — `PathMatcher`: `specContainsPath`.
- `parameter_checker.dfy` — `ParameterChecker`: `checkRequestData`. The loop is
  modelled with the source's two accumulators, `missingParameters` and
  `wrongParameters`. Its contract is stated against independent reference
  definitions:
  - `MissingRef`, a declaration-order filter;
  - `FirstRejected`, the index of the first parameter that is not acceptable;
  - `Explains`, what the raise reports for a given parameter.
- `oas_validator.dfy` — `OasValidator`: the returned `OASValidator` handler.
- `scenarios.dfy` — `Scenarios`: worked requests against a `GET /pets`
  specification with a required integer query parameter `limit`.

## Model

| member | source | states |
|---|---|---|
| JsString.Split | src/middleware/oas-validator.js:116 | `split` yields at least one piece, and no piece contains the separator. Joining the pieces with the separator gives back the input (round trip). |
| JsString.ToLower | src/middleware/oas-validator.js:117 | Lower-casing keeps the length and leaves no upper-case ASCII letter. Each character becomes its lower-case partner. |
| JsString.ToLowerIdempotent | src/middleware/oas-validator.js:117 | Lower-casing a lower-cased method changes nothing. |
| JsString.ToLowerFixesLower | src/middleware/oas-validator.js:117 | A string without upper-case ASCII letters is its own lower-case form. |
| JsString.ToLowerEqualIff | src/middleware/oas-validator.js:117 | Two methods lower-case to the same string exactly when they agree letter by letter up to ASCII case (both directions). |
| PathMatcher.SpecContainsPath | src/middleware/oas-validator.js:43-53 | True exactly when (URL, method) is one of the routes the `paths` table declares. A match implies the URL is literally a key of `paths`. |
| PathMatcher.TemplateKeyMatchesOnlyItself | src/middleware/oas-validator.js:47-52 | A templated key such as `/users/{id}` is matched by no URL other than that literal string. |
| ParameterChecker.Walk | src/middleware/oas-validator.js:68-101 | The loop returns normally exactly when no remaining parameter is rejected. On a normal return it has appended each owed missing entry in order and left the wrong list unchanged. Otherwise it raises what the first rejected parameter explains. |
| ParameterChecker.CheckRequestData | src/middleware/oas-validator.js:62-106 | With no `parameters` field the result is two empty lists. A normal return happens exactly when every declared parameter is acceptable; it carries the reference missing list and an empty wrong list. A raise names the first unacceptable parameter: either its unparsable raw value, or the first validation message with `wrongParameters == [name]`. |
| ParameterChecker.MissingRefAppend | src/middleware/oas-validator.js:68-76 | The missing entries of concatenated parameter lists are the concatenation of their missing entries. |
| ParameterChecker.MissingEntryInPlace | src/middleware/oas-validator.js:68-76 | Each parameter adds exactly one (name, location) entry when required and absent, and none otherwise. The entry sits between those of its predecessors and successors. |
| ParameterChecker.MissingRefMembership | src/middleware/oas-validator.js:69-75 | An entry is in the missing list exactly when some declared parameter is required, absent, and has that name and location. |
| ParameterChecker.OptionalParamIgnored | src/middleware/oas-validator.js:69 | Removing a non-required parameter from the list changes neither list and not the raise. Non-required parameters are never examined. |
| ParameterChecker.AbsentParamsNeedNoOracle | src/middleware/oas-validator.js:74-78 | When every required parameter is absent, nothing is parsed or validated. Any two oracles give the same normal return, listing all of them as missing. |
| OasValidator.RequestedUrl | src/middleware/oas-validator.js:116 | The normalised URL is a prefix of the raw URL that contains no `?`. It is either the whole URL or is followed by a `?`. |
| OasValidator.RequestedUrlUnique | src/middleware/oas-validator.js:116 | No other `?`-free prefix ending at the first `?` (or at the end of the URL) exists: the normalised URL is characterised by those properties. |
| OasValidator.RequestedUrlIdempotent | src/middleware/oas-validator.js:116 | Normalising a normalised URL leaves it unchanged. |
| OasValidator.RequestedMethod | src/middleware/oas-validator.js:117 | The method used for lookup is the raw method with each character mapped through ASCII lower-casing. It has the same length, no upper-case ASCII letter, and equals the raw method when that is already lower-case. |
| OasValidator.Handle | src/middleware/oas-validator.js:113-137 | Every outcome records the normalised URL. The reply is 400 with the fixed message exactly when (URL, lower-cased method) is not a declared route. A matched route is forwarded with the same specification exactly when every declared parameter is acceptable; otherwise the handler raises what the first rejected parameter explains. |
| OasValidator.UndeclaredRouteRejected | src/middleware/oas-validator.js:132-136 | When the normalised (URL, method) pair is not declared, the outcome is status 400 with body message "The requested path is not in the specification file" and no forward. |
| OasValidator.DeclaredRouteForwarded | src/middleware/oas-validator.js:120-131 | When the route is declared and the parameter check returns normally, the request is forwarded once with the specification attached, whatever the missing list holds. |
| OasValidator.DeclaredRouteRaises | src/middleware/oas-validator.js:120-121 | When the route is declared and the parameter check raises, the handler neither replies nor forwards: the same error escapes. |
| OasValidator.QueryStringIgnored | src/middleware/oas-validator.js:116-120 | For the same parameter accessor, `path?query` is handled exactly like `path`: the query string never reaches route lookup. |
| OasValidator.MethodCaseIgnored | src/middleware/oas-validator.js:117-120 | Methods that differ only in ASCII case are handled alike. |
| OasValidator.UpperCaseMethodKeysUnreachable | src/middleware/oas-validator.js:117-120 | A path whose method keys all contain an upper-case ASCII letter rejects every request with 400. |
| OasValidator.ForwardDespiteMissing | src/middleware/oas-validator.js:120-131 | On a declared route where every present required parameter conforms, missing required parameters do not stop the request. It is forwarded with the specification, and the check's missing list is exactly the required absent parameters. |
| Scenarios.MissingLimitIsListed | src/middleware/oas-validator.js:62-106 | `GET /pets` without `limit` gives missing `[("limit", "query")]` and an empty wrong list. |
| Scenarios.MissingLimitIsForwarded | src/middleware/oas-validator.js:120-131 | `GET /pets` without `limit` is still forwarded with the specification. |
| Scenarios.MalformedLimitFailsCheck | src/middleware/oas-validator.js:74-78 | `limit=abc` does not parse, so the check raises `MalformedValue("limit", "abc")`. |
| Scenarios.MalformedLimitIsRaised | src/middleware/oas-validator.js:116-121 | `GET /pets?limit=abc` ends in a raise, not a reply. |
| Scenarios.ValidLimitPassesCheck | src/middleware/oas-validator.js:62-106 | `limit=5` gives two empty lists. |
| Scenarios.ValidLimitIsForwarded | src/middleware/oas-validator.js:116-131 | `GET /pets?limit=5` is forwarded to `/pets` with the specification. |
| Scenarios.UnknownPathIsRejected | src/middleware/oas-validator.js:132-136 | An undeclared path gets status 400 with the fixed message. |
| Scenarios.UndeclaredMethodIsRejected | src/middleware/oas-validator.js:117-136 | `POST /pets`, where `/pets` declares only `get`, gets status 400. |

## Left out

- Dereferencing (lines 108-112): the asynchronous `json-schema-deref` call and its race with early requests are not modelled. The handler takes the settled specification as a parameter.
- `JSON.parse` (line 78) and the z-schema validator (lines 30-33, 80) are foreign code. They are the two fields of `Oracle`. A `JSON.parse` throw is `None` from `parse`. An empty error list from `validate` means success, and a non-empty one is the callback's `err` array, whose first element is raised (line 85). The z-schema callback is taken to run synchronously, so the `throw` at line 93 propagates out of `checkRequestData`; code not part of this model decides that.
- Logging (lines 44-45, 88-92, 96, 114, 123-128), including the `UNKNOWN_FORMAT` diagnostic, is informational only, so `SchemaError.code` is carried but never consulted.
- The unused `js-yaml`, `fs`, `path` and `http` imports (lines 24-27) have no behaviour.
- Express plumbing: `req[location][name]` is the request's accessor function; what Express actually stores under a given location is not modelled. In particular the `query` accessor is not tied to the URL's query string: in Express, `req.query` is parsed from that same string, which the model does not do. `res.status(...).send(...)`, `res.locals` and `next()` are the `Outcome` datatype: a `Forward` value is the single call to `next`.
- ParameterChecker.CheckRequestData: `required` is a boolean. The source compares `required.toString()` with `'true'`, which throws when the field is absent; the model takes the field as present.
- ParameterChecker.CheckRequestData: absence is `None`. The source's loose `== undefined` also treats a `null` value as absent.
- ParameterChecker.CheckRequestData: `hasOwnProperty` and prototype lookups are plain map and field membership.
- ParameterChecker.MalformedValue carries the parameter's name and raw value. The `SyntaxError` that `JSON.parse` throws in the source does not name the parameter.
- ParameterChecker.SchemaViolation carries `wrongParameters` as it stood at the raise (proved to be exactly the offending name) together with the message. The `Error` thrown at line 93 carries only the message.
- JsString.ToLower: lower-cases ASCII letters only; `toLowerCase` also maps non-ASCII letters.
- The `Scenarios` oracle stands in for `JSON.parse` only on the values used there (`"5"` parses, anything else does not). Its validator accepts every value.
