/** Route lookup: whether the specification declares a method for a URL. */
module PathMatcher {
  import opened OasSpec

  /** Every (URL, method) pair the path table declares. */
  ghost function Routes(paths: Paths): set<(string, string)> {
    set u, m | u in paths.Keys && m in paths[u].Keys :: (u, m)
  }

  /** `specContainsPath`: a two-level exact key lookup, first the URL and
      then the method (`verb`). There is no path templating. */
  function SpecContainsPath(paths: Paths, requestedUrl: string, verb: string): (r: bool)
    ensures r <==> (requestedUrl, verb) in Routes(paths)
    ensures r ==> requestedUrl in paths.Keys
  {
    var res := requestedUrl in paths && verb in paths[requestedUrl];
    assert res ==> (requestedUrl, verb) in Routes(paths);
    res
  }

  /** A templated key such as `/users/{id}` is matched only by that literal
      string, never by a concrete URL like `/users/42`. */
  lemma TemplateKeyMatchesOnlyItself(paths: Paths, template: string, url: string, verb: string)
    requires paths.Keys == {template}
    requires url != template
    ensures !SpecContainsPath(paths, url, verb)
  {
  }
}
