/** The goversion_select request handler (`ServeHTTP`): default the
    constraint, take the versions from the `candidates` parameter or from
    the cache, and answer with the greatest satisfying version. Writing the
    HTTP response is left out; the model returns which response it is. */
module GoVersionSelect {
  import opened Wrappers
  import opened Strings
  import opened Versions
  import opened Select
  import opened VersionCache

  /** The external library's two parsers: constraint text to a predicate
      on versions, and a version literal to a Version. */
  datatype Parsers = Parsers(constraint: string -> Option<Constraint>, version: string -> Option<Version>)

  /** The two query parameters; an absent parameter reads as "". */
  datatype Query = Query(constraint: string, candidates: string)

  datatype Response =
    | Selected(version: Version)     // 200, the version on one line
    | InvalidConstraint              // 400 "invalid constraint"
    | InvalidVersion(literal: string) // 400 "invalid go version %q"
    | FetchFailed                    // 500
    | NoMatch                        // 404 "no matching version found"
  {
    function Status(): int {
      match this
      case Selected(_) => 200
      case InvalidConstraint => 400
      case InvalidVersion(_) => 400
      case FetchFailed => 500
      case NoMatch => 404
    }
  }

  /** The response together with the cache the request leaves behind. */
  datatype Outcome = Outcome(response: Response, cache: Cache)

  const DefaultConstraint: string := "1.x"

  /** The constraint text actually parsed: the query value, or "1.x" when
      it is empty. */
  function ConstraintText(query: string): (c: string)
    ensures c != ""
    ensures query != "" ==> c == query
    ensures query == "" ==> c == DefaultConstraint
  {
    if query == "" then DefaultConstraint else query
  }

  /** The candidate literals parsed in order; the first one that does not
      parse is reported and ends the request. */
  function ParseCandidates(pieces: seq<string>, parse: string -> Option<Version>): (r: Result<seq<Version>, string>)
    ensures r.Success? ==> |r.value| == |pieces|
                           && forall i :: 0 <= i < |pieces| ==> parse(pieces[i]) == Some(r.value[i])
    ensures r.Failure? ==> exists i :: 0 <= i < |pieces| && pieces[i] == r.error && parse(pieces[i]).None?
                                       && forall j :: 0 <= j < i ==> parse(pieces[j]).Some?
  {
    if |pieces| == 0 then Success([])
    else match parse(pieces[0])
      case None => Failure(pieces[0])
      case Some(v) =>
        var rest := ParseCandidates(pieces[1..], parse);
        match rest
        case Failure(e) =>
          assert forall i :: 0 < i < |pieces| ==> pieces[1..][i - 1] == pieces[i];
          Failure(e)
        case Success(vs) =>
          assert forall i :: 0 < i < |pieces| ==> pieces[1..][i - 1] == pieces[i];
          Success([v] + vs)
  }

  /** Every candidate parses exactly when no failure is reported. */
  lemma ParseCandidatesSucceeds(pieces: seq<string>, parse: string -> Option<Version>)
    ensures ParseCandidates(pieces, parse).Success? <==> forall i :: 0 <= i < |pieces| ==> parse(pieces[i]).Some?
  {
  }

  /** One request against the cache `cache`, at clock reading `now`, with
      `fetch` standing for what the version source would answer. */
  function Serve(q: Query, p: Parsers, cache: Cache, now: int, fetch: Fetch): (out: Outcome)
    ensures p.constraint(ConstraintText(q.constraint)).None? ==> out == Outcome(InvalidConstraint, cache)
    ensures out.response.InvalidConstraint? <==> p.constraint(ConstraintText(q.constraint)).None?
    ensures p.constraint(ConstraintText(q.constraint)).Some?
            && (q.candidates != "" ==> ParseCandidates(Split(q.candidates, ','), p.version).Success?)
            && (q.candidates == "" ==> GetVersions(cache, now, fetch, p.version).err.None?) ==>
              out.response.Selected? || out.response.NoMatch?
    ensures q.candidates != "" ==> out.cache == cache
    ensures q.candidates == "" && p.constraint(ConstraintText(q.constraint)).Some? ==>
              out.cache == GetVersions(cache, now, fetch, p.version).next
    ensures q.candidates != "" && p.constraint(ConstraintText(q.constraint)).Some?
            && ParseCandidates(Split(q.candidates, ','), p.version).Failure? ==>
              out.response == InvalidVersion(ParseCandidates(Split(q.candidates, ','), p.version).error)
    ensures q.candidates == "" && p.constraint(ConstraintText(q.constraint)).Some? ==>
              (out.response.FetchFailed? <==> GetVersions(cache, now, fetch, p.version).err.Some?)
    ensures out.response.InvalidVersion? ==>
              q.candidates != "" && out.response.literal in Split(q.candidates, ',')
              && p.version(out.response.literal).None?
    ensures out.response.FetchFailed? ==> q.candidates == "" && GetVersions(cache, now, fetch, p.version).err.Some?
    ensures out.response.Selected? || out.response.NoMatch? ==>
              var check := p.constraint(ConstraintText(q.constraint)).value;
              var vs := VersionsUsed(q, p, cache, now, fetch);
              && (out.response.NoMatch? <==> forall j :: 0 <= j < |vs| ==> !check(vs[j]))
              && (out.response.Selected? ==> exists k: nat :: IsFirstMax(check, vs, k) && vs[k] == out.response.version)
  {
    match p.constraint(ConstraintText(q.constraint))
    case None => Outcome(InvalidConstraint, cache)
    case Some(check) =>
      if q.candidates != "" then
        match ParseCandidates(Split(q.candidates, ','), p.version)
        case Failure(s) => Outcome(InvalidVersion(s), cache)
        case Success(vs) => Outcome(Answer(check, vs), cache)
      else
        var lookup := GetVersions(cache, now, fetch, p.version);
        if lookup.err.Some? then Outcome(FetchFailed, lookup.next)
        else Outcome(Answer(check, lookup.versions), lookup.next)
  }

  /** The list the scan runs over once the constraint parsed and no error
      stopped the request: the parsed candidates, or the cached list. */
  function VersionsUsed(q: Query, p: Parsers, cache: Cache, now: int, fetch: Fetch): seq<Version> {
    if q.candidates != "" then
      match ParseCandidates(Split(q.candidates, ','), p.version)
      case Failure(_) => []
      case Success(vs) => vs
    else GetVersions(cache, now, fetch, p.version).versions
  }

  /** The scan's verdict as a response. */
  function Answer(check: Constraint, vs: seq<Version>): (r: Response)
    ensures r.Selected? || r.NoMatch?
    ensures r.NoMatch? <==> forall j :: 0 <= j < |vs| ==> !check(vs[j])
    ensures r.Selected? ==> exists k: nat :: IsFirstMax(check, vs, k) && vs[k] == r.version
  {
    match MaxMatch(check, vs)
    case None => NoMatch
    case Some(v) => Selected(v)
  }

  /** An empty constraint behaves exactly like "1.x". */
  lemma EmptyConstraintIsDefault(candidates: string, p: Parsers, cache: Cache, now: int, fetch: Fetch)
    ensures Serve(Query("", candidates), p, cache, now, fetch) == Serve(Query("1.x", candidates), p, cache, now, fetch)
  {
  }

  /** With explicit candidates the cache is neither read nor refreshed:
      neither its contents, nor the clock, nor the network change the
      answer. */
  lemma CandidatesIgnoreCache(q: Query, p: Parsers, c1: Cache, now1: int, f1: Fetch, c2: Cache, now2: int, f2: Fetch)
    requires q.candidates != ""
    ensures Serve(q, p, c1, now1, f1).response == Serve(q, p, c2, now2, f2).response
  {
  }

  /** Asking again with a fresh cache gives the same answer and leaves the
      cache as it was. */
  lemma RepeatWhileFresh(q: Query, p: Parsers, cache: Cache, now: int, f1: Fetch, f2: Fetch)
    requires !Stale(cache, now)
    ensures var first := Serve(q, p, cache, now, f1);
            first.cache == cache && Serve(q, p, first.cache, now, f2) == first
  {
  }

  /** With no candidates and a stale cache, a failed fetch answers 500 and
      leaves the cache, possibly still empty, as it was. */
  lemma UnreachableSourceFails(q: Query, p: Parsers, cache: Cache, now: int, fetch: Fetch)
    requires q.candidates == "" && p.constraint(ConstraintText(q.constraint)).Some?
    requires Stale(cache, now)
    requires fetch.TransportError? || fetch.status != 200 || fetch.scanError
    ensures Serve(q, p, cache, now, fetch) == Outcome(FetchFailed, cache)
  {
    FailureKeepsCache(cache, now, fetch, p.version);
  }

  /** A body that was read but whose closing failed still refreshes the
      cache, yet the request answers 500. */
  lemma CloseFailureRefreshesButFails(q: Query, p: Parsers, cache: Cache, now: int, fetch: Fetch)
    requires q.candidates == "" && p.constraint(ConstraintText(q.constraint)).Some?
    requires Stale(cache, now)
    requires fetch.Response? && fetch.status == 200 && !fetch.scanError && fetch.closeError
    ensures var out := Serve(q, p, cache, now, fetch);
            && out.response == FetchFailed
            && out.cache == Cache(ParseLines(fetch.lines, p.version), Some(fetch.readAt), cache.maxAge)
  {
  }

  /** Constraint "1.x" over candidates "1.2.0,1.10.0,2.0.0" selects 1.10.0:
      versions compare by number, not as text. The three literals `a`, `b`,
      `c` are whatever text the version parser reads as those versions. */
  lemma NumericNotTextual(p: Parsers, check: Constraint, a: string, b: string, c: string,
                          cache: Cache, now: int, fetch: Fetch)
    requires p.constraint("1.x") == Some(check)
    requires ',' !in a && ',' !in b && ',' !in c
    requires p.version(a) == Some(Version([1, 2, 0]))
    requires p.version(b) == Some(Version([1, 10, 0]))
    requires p.version(c) == Some(Version([2, 0, 0]))
    requires check(Version([1, 2, 0])) && check(Version([1, 10, 0])) && !check(Version([2, 0, 0]))
    ensures Serve(Query("1.x", a + "," + b + "," + c), p, cache, now, fetch).response == Selected(Version([1, 10, 0]))
  {
    var pieces: seq<string> := [a, b, c];
    SplitThree(a, b, c);
    var vs := [Version([1, 2, 0]), Version([1, 10, 0]), Version([2, 0, 0])];
    ParseCandidatesSucceeds(pieces, p.version);
    var parsed := ParseCandidates(pieces, p.version);
    assert parsed.value[0] == vs[0] && parsed.value[1] == vs[1] && parsed.value[2] == vs[2];
    assert parsed.value == vs;
    SelectsMiddle(check, vs);
  }

  lemma SplitThree(a: string, b: string, c: string)
    requires ',' !in a && ',' !in b && ',' !in c
    ensures Split(a + "," + b + "," + c, ',') == [a, b, c]
  {
    var parts := [a, b, c];
    assert Join(parts[2..], ',') == c;
    assert Join(parts[1..], ',') == b + [','] + c by {
      assert parts[1..][1..] == parts[2..];
    }
    var joined := Join(parts, ',');
    assert joined == a + [','] + (b + [','] + c);
    assert a + "," + b + "," + c == joined;
    SplitJoin(parts, ',');
  }

  lemma SelectsMiddle(check: Constraint, vs: seq<Version>)
    requires vs == [Version([1, 2, 0]), Version([1, 10, 0]), Version([2, 0, 0])]
    requires check(vs[0]) && check(vs[1]) && !check(vs[2])
    ensures Answer(check, vs) == Selected(vs[1])
  {
    assert GreaterThan(vs[1], vs[0]);
    assert !GreaterThan(vs[0], vs[1]);
    assert IsFirstMax(check, vs, 1);
    MaxMatchIsFirstMax(check, vs, 1);
  }

  // ---------------------------------------------------------------------
  // The candidate loop as written: an unparsable candidate gets its 400
  // response written, but the loop goes on and appends the nil result.

  /** The candidate list the loop builds as written: one entry per piece,
      nil (None) where the piece did not parse. */
  function CandidatesAsWritten(pieces: seq<string>, parse: string -> Option<Version>): (r: seq<Option<Version>>)
    ensures |r| == |pieces|
    ensures forall i :: 0 <= i < |pieces| ==> r[i] == parse(pieces[i])
  {
    if |pieces| == 0 then []
    else [parse(pieces[0])] + CandidatesAsWritten(pieces[1..], parse)
  }

  /** The discrepancy: for an unparsable candidate the loop as written
      hands a nil version on to the constraint check, although the request
      was already answered 400; the corrected loop stops with that 400. */
  lemma NilCandidateReachesScan(pieces: seq<string>, parse: string -> Option<Version>, i: nat)
    requires i < |pieces| && parse(pieces[i]).None?
    ensures None in CandidatesAsWritten(pieces, parse)
    ensures ParseCandidates(pieces, parse).Failure?
  {
    assert CandidatesAsWritten(pieces, parse)[i] == None;
    ParseCandidatesSucceeds(pieces, parse);
  }
}
