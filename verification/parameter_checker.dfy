/** `checkRequestData`: walks an operation's declared parameters in order,
    collecting the required ones the request lacks and raising on the first
    present one whose value does not parse or does not conform to its
    schema. */
module ParameterChecker {
  import opened Wrappers
  import opened OasSpec
  import PathMatcher

  /** The two lists the loop accumulates: `missingParameters`, as
      (name, location) pairs, and `wrongParameters`, as names. */
  datatype Lists = Lists(missing: seq<(string, string)>, wrong: seq<string>)

  /** The errors the loop can raise. `MalformedValue` is `JSON.parse`
      throwing on the raw value; `SchemaViolation` is the `Error` raised right
      after a validation failure, carrying the first validation error's
      message and the `wrongParameters` list as it stood at the raise. */
  datatype CheckError =
    | MalformedValue(name: string, raw: string)
    | SchemaViolation(wrong: seq<string>, message: string)

  // ----- Reference definitions, parameter by parameter -----

  /** Whether the request carries a value for `p` at its declared location. */
  predicate Present(p: Param, lookup: ParamLookup) {
    lookup(p.location, p.name).Some?
  }

  /** Whether a raw value parses as JSON and the parsed value has no
      validation error against `schema`. */
  predicate Conforms<J>(raw: string, schema: Schema, o: Oracle<J>) {
    o.parse(raw).Some? && |o.validate(o.parse(raw).value, schema)| == 0
  }

  /** Whether the checker lets `p` through without raising: it is optional,
      or absent, or its value conforms. */
  predicate Acceptable<J>(p: Param, lookup: ParamLookup, o: Oracle<J>) {
    !p.required || !Present(p, lookup) || Conforms(lookup(p.location, p.name).value, p.schema, o)
  }

  /** The missing-list entry `p` owes: one (name, location) pair when it is
      required and absent, nothing otherwise. */
  function MissingOwed(p: Param, lookup: ParamLookup): seq<(string, string)> {
    if p.required && !Present(p, lookup) then [(p.name, p.location)] else []
  }

  /** The entries owed by a whole parameter list, in declaration order. */
  function MissingRef(ps: seq<Param>, lookup: ParamLookup): seq<(string, string)> {
    if |ps| == 0 then [] else MissingOwed(ps[0], lookup) + MissingRef(ps[1..], lookup)
  }

  /** Index of the first parameter that is not acceptable, or `|ps|` when
      every parameter is. */
  function FirstRejected<J>(ps: seq<Param>, lookup: ParamLookup, o: Oracle<J>): (k: nat)
    ensures k <= |ps|
    ensures forall j :: 0 <= j < k ==> Acceptable(ps[j], lookup, o)
    ensures k < |ps| ==> !Acceptable(ps[k], lookup, o)
  {
    if |ps| == 0 then 0
    else if !Acceptable(ps[0], lookup, o) then 0
    else 1 + FirstRejected(ps[1..], lookup, o)
  }

  /** Whether `e` is what the checker raises for the offending parameter
      `p`, given the names already in `wrongParameters`: the parse failure of
      its raw value, or the first validation error's message with `p`'s name
      appended to the list. */
  predicate Explains<J>(e: CheckError, p: Param, wrongBefore: seq<string>, lookup: ParamLookup, o: Oracle<J>) {
    && p.required
    && Present(p, lookup)
    && var raw := lookup(p.location, p.name).value;
    match e
    case MalformedValue(n, r) => n == p.name && r == raw && o.parse(raw).None?
    case SchemaViolation(w, m) =>
      && o.parse(raw).Some?
      && var errs := o.validate(o.parse(raw).value, p.schema);
      && |errs| > 0
      && m == errs[0].message
      && w == wrongBefore + [p.name]
  }

  // ----- The loop as written -----

  /** One iteration of the loop over `parameters`: skip an optional
      parameter; push an absent required one onto the missing list; parse
      and validate a present one, pushing its name onto the wrong list and
      raising when validation reports errors. */
  function Step<J>(p: Param, acc: Lists, lookup: ParamLookup, o: Oracle<J>): Result<Lists, CheckError> {
    if !p.required then Success(acc)
    else
      match lookup(p.location, p.name)
      case None => Success(acc.(missing := acc.missing + [(p.name, p.location)]))
      case Some(raw) =>
        match o.parse(raw)
        case None => Failure(MalformedValue(p.name, raw))
        case Some(value) =>
          var err := o.validate(value, p.schema);
          if |err| == 0 then Success(acc)
          else
            var wrong := acc.wrong + [p.name];
            Failure(SchemaViolation(wrong, err[0].message))
  }

  /** The loop over the parameters still to visit, from accumulated lists
      `acc`. It returns normally exactly when every remaining parameter is
      acceptable, having appended the owed missing entries and left the
      wrong list as it was; otherwise it raises what the first rejected
      parameter explains. */
  function Walk<J>(ps: seq<Param>, acc: Lists, lookup: ParamLookup, o: Oracle<J>): (r: Result<Lists, CheckError>)
    ensures r.Success? <==> FirstRejected(ps, lookup, o) == |ps|
    ensures r.Success? ==> r.value == Lists(acc.missing + MissingRef(ps, lookup), acc.wrong)
    ensures r.Failure? ==>
      var k := FirstRejected(ps, lookup, o);
      k < |ps| && Explains(r.error, ps[k], acc.wrong, lookup, o)
    decreases |ps|
  {
    if |ps| == 0 then Success(acc)
    else
      match Step(ps[0], acc, lookup, o)
      case Failure(e) => Failure(e)
      case Success(next) =>
        assert ps[0].required && !Present(ps[0], lookup) ==> next.missing == acc.missing + MissingOwed(ps[0], lookup);
        assert next.missing + MissingRef(ps[1..], lookup) == acc.missing + MissingRef(ps, lookup);
        Walk(ps[1..], next, lookup, o)
  }

  /** `checkRequestData`: runs the loop over the parameters of the operation
      at `paths[requestedUrl][verb]` from two empty lists. An operation with
      no `parameters` field yields two empty lists; a normal return never
      carries a wrong parameter; a raise identifies the first parameter
      that is not acceptable. */
  function CheckRequestData<J>(paths: Paths, requestedUrl: string, verb: string, lookup: ParamLookup, o: Oracle<J>): (r: Result<Lists, CheckError>)
    requires PathMatcher.SpecContainsPath(paths, requestedUrl, verb)
    ensures paths[requestedUrl][verb].parameters.None? ==> r == Success(Lists([], []))
    ensures
      var ps := DeclaredParams(paths[requestedUrl][verb]);
      r.Success? <==> forall k :: 0 <= k < |ps| ==> Acceptable(ps[k], lookup, o)
    ensures r.Success? ==>
      r.value.missing == MissingRef(DeclaredParams(paths[requestedUrl][verb]), lookup) && r.value.wrong == []
    ensures r.Failure? ==>
      var ps := DeclaredParams(paths[requestedUrl][verb]);
      var k := FirstRejected(ps, lookup, o);
      k < |ps| && Explains(r.error, ps[k], [], lookup, o)
  {
    Walk(DeclaredParams(paths[requestedUrl][verb]), Lists([], []), lookup, o)
  }

  // ----- Properties of the missing list -----

  /** The missing entries of a concatenation are those of its parts. */
  lemma {:induction false} MissingRefAppend(a: seq<Param>, b: seq<Param>, lookup: ParamLookup)
    ensures MissingRef(a + b, lookup) == MissingRef(a, lookup) + MissingRef(b, lookup)
  {
    if |a| == 0 {
      assert a + b == b;
    } else {
      assert (a + b)[1..] == a[1..] + b;
      MissingRefAppend(a[1..], b, lookup);
    }
  }

  /** Each parameter contributes to the missing list exactly the entry it
      owes, at its own position between those of its predecessors and its
      successors: one (name, location) pair when required and absent, none
      otherwise. */
  lemma MissingEntryInPlace(a: seq<Param>, p: Param, b: seq<Param>, lookup: ParamLookup)
    ensures MissingRef(a + [p] + b, lookup) == MissingRef(a, lookup) + MissingOwed(p, lookup) + MissingRef(b, lookup)
  {
    MissingRefAppend(a + [p], b, lookup);
    MissingRefAppend(a, [p], lookup);
    assert MissingRef([p], lookup) == MissingOwed(p, lookup) + MissingRef([], lookup);
  }

  /** An entry is in the missing list exactly when some declared parameter
      is required, absent from the request, and has that name and location. */
  lemma {:induction false} MissingRefMembership(ps: seq<Param>, lookup: ParamLookup, e: (string, string))
    ensures e in MissingRef(ps, lookup) <==>
      exists k :: 0 <= k < |ps| && ps[k].required && !Present(ps[k], lookup) && e == (ps[k].name, ps[k].location)
  {
    if |ps| > 0 {
      MissingRefMembership(ps[1..], lookup, e);
      if e in MissingRef(ps[1..], lookup) {
        var k :| 0 <= k < |ps[1..]| && ps[1..][k].required && !Present(ps[1..][k], lookup)
          && e == (ps[1..][k].name, ps[1..][k].location);
        assert ps[k + 1] == ps[1..][k];
      }
      if exists k :: 0 <= k < |ps| && ps[k].required && !Present(ps[k], lookup) && e == (ps[k].name, ps[k].location) {
        var k :| 0 <= k < |ps| && ps[k].required && !Present(ps[k], lookup) && e == (ps[k].name, ps[k].location);
        if k > 0 {
          assert ps[1..][k - 1] == ps[k];
        }
      }
    }
  }

  // ----- What the loop never looks at -----

  /** An optional parameter is never examined: removing it from the list
      changes neither list nor whether, or what, the loop raises. */
  lemma {:induction false} OptionalParamIgnored<J>(a: seq<Param>, p: Param, b: seq<Param>, acc: Lists, lookup: ParamLookup, o: Oracle<J>)
    requires !p.required
    ensures Walk(a + [p] + b, acc, lookup, o) == Walk(a + b, acc, lookup, o)
  {
    if |a| == 0 {
      assert a + [p] + b == [p] + b;
      assert ([p] + b)[1..] == b;
      assert a + b == b;
    } else {
      assert (a + [p] + b)[0] == a[0] && (a + b)[0] == a[0];
      assert (a + [p] + b)[1..] == a[1..] + [p] + b;
      assert (a + b)[1..] == a[1..] + b;
      match Step(a[0], acc, lookup, o)
      case Failure(_) =>
      case Success(next) =>
        OptionalParamIgnored(a[1..], p, b, next, lookup, o);
    }
  }

  /** When the request carries none of the required parameters, the loop
      never parses or validates anything: every oracle yields the same normal
      return, listing all required parameters as missing. */
  lemma {:induction false} AbsentParamsNeedNoOracle<J>(ps: seq<Param>, acc: Lists, lookup: ParamLookup, o1: Oracle<J>, o2: Oracle<J>)
    requires forall k :: 0 <= k < |ps| && ps[k].required ==> !Present(ps[k], lookup)
    ensures Walk(ps, acc, lookup, o1) == Walk(ps, acc, lookup, o2)
    ensures Walk(ps, acc, lookup, o1) == Success(Lists(acc.missing + MissingRef(ps, lookup), acc.wrong))
  {
    if |ps| > 0 {
      match Step(ps[0], acc, lookup, o1)
      case Failure(_) =>
      case Success(next) =>
        assert Step(ps[0], acc, lookup, o2) == Success(next);
        AbsentParamsNeedNoOracle(ps[1..], next, lookup, o1, o2);
    }
  }
}
