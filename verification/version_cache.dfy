/** The handler's cache of the remote version list (`getVersions`): a
    sequential state transition. The mutex that serialises it is left
    out; the clock reading and the outcome of the HTTP fetch are inputs. */
module VersionCache {
  import opened Wrappers
  import opened Strings
  import opened Versions

  /** The cached list, the time it was fetched (None: the zero time, never
      fetched) and the configured maximum age, all in one time unit. */
  datatype Cache = Cache(versions: seq<Version>, stamp: Option<int>, maxAge: int)

  /** What the HTTP GET of the version source produced: a transport error,
      or a response with its status code, the body's lines as the scanner
      delivered them, whether the scanner reported an error, the clock
      reading once the body was read (the time a refresh is stamped with),
      and whether closing the body failed. */
  datatype Fetch =
    | TransportError
    | Response(status: int, lines: seq<string>, scanError: bool, readAt: int, closeError: bool)

  datatype FetchError = Transport | NotOK | ScanFailed | CloseFailed

  /** What `getVersions` returns, the cache it leaves behind, and whether it
      went to the network. */
  datatype Lookup = Lookup(versions: seq<Version>, err: Option<FetchError>, next: Cache, fetched: bool)

  /** A refresh is due when the cache was never filled or is older than
      its maximum age. */
  function Stale(c: Cache, now: int): (stale: bool)
    ensures !stale <==> c.stamp.Some? && now <= c.stamp.value + c.maxAge
  {
    c.stamp.None? || now - c.stamp.value > c.maxAge
  }

  /** The version a body line contributes: the trimmed line parsed, or
      nothing for a blank or unparsable line. */
  function LineVersion(line: string, parse: string -> Option<Version>): (r: Option<Version>)
    ensures AllSpace(line) ==> r.None?
    ensures line != "" && Trimmed(line) ==> r == parse(line)
  {
    TrimSpaceFixes(line);
    var t := TrimSpace(line);
    if t == "" then None else parse(t)
  }

  /** A line of non-blank text with white space around it contributes the
      text parsed without that white space. */
  lemma LineVersionOfPadded(pre: string, mid: string, post: string, parse: string -> Option<Version>)
    requires AllSpace(pre) && AllSpace(post) && Trimmed(mid) && mid != ""
    ensures LineVersion(pre + mid + post, parse) == parse(mid)
  {
    TrimSpaceOfPadded(pre, mid, post);
  }

  /** The refresh's line loop: each line trimmed, blank and unparsable
      lines skipped, the rest kept in order. */
  function ParseLines(lines: seq<string>, parse: string -> Option<Version>): (r: seq<Version>)
    ensures |r| <= |lines|
  {
    if |lines| == 0 then []
    else
      var rest := ParseLines(lines[1..], parse);
      match LineVersion(lines[0], parse)
      case None => rest
      case Some(v) => [v] + rest
  }

  /** A version is kept exactly when some line yields it. */
  lemma {:induction false} ParseLinesMembers(lines: seq<string>, parse: string -> Option<Version>, v: Version)
    ensures v in ParseLines(lines, parse) <==> exists i :: 0 <= i < |lines| && LineVersion(lines[i], parse) == Some(v)
  {
    if |lines| > 0 {
      ParseLinesMembers(lines[1..], parse, v);
      assert forall i :: 0 < i < |lines| ==> lines[1..][i - 1] == lines[i];
      if exists i :: 0 <= i < |lines| && LineVersion(lines[i], parse) == Some(v) {
        var i :| 0 <= i < |lines| && LineVersion(lines[i], parse) == Some(v);
        if i > 0 {
          assert LineVersion(lines[1..][i - 1], parse) == Some(v);
        }
      }
    }
  }

  /** Parsing a body is parsing its parts one after the other, so the
      kept versions appear in the order of their lines. */
  lemma {:induction false} ParseLinesAppend(a: seq<string>, b: seq<string>, parse: string -> Option<Version>)
    ensures ParseLines(a + b, parse) == ParseLines(a, parse) + ParseLines(b, parse)
  {
    if |a| > 0 {
      assert (a + b)[1..] == a[1..] + b;
      ParseLinesAppend(a[1..], b, parse);
    } else {
      assert a + b == b;
    }
  }

  /** A single line contributes exactly its own version, if any. */
  lemma ParseLine(line: string, parse: string -> Option<Version>)
    ensures ParseLines([line], parse) == match LineVersion(line, parse) case None => [] case Some(v) => [v]
  {
    assert [line][1..] == [];
  }

  /** `getVersions` with the clock reading `now` and, should a refresh be
      due, the fetch outcome `fetch`. Staleness is judged at `now`; a
      refreshed list is stamped with the later reading taken once the body
      was read. */
  function GetVersions(c: Cache, now: int, fetch: Fetch, parse: string -> Option<Version>): (r: Lookup)
    ensures r.fetched <==> Stale(c, now)
    ensures r.next.maxAge == c.maxAge
    ensures !Stale(c, now) ==> r.versions == c.versions && r.err.None? && r.next == c
    ensures r.err.Some? && r.err.value != CloseFailed ==> r.next == c && r.versions == c.versions
    ensures r.next != c ==> fetch.Response? && r.next.stamp == Some(fetch.readAt) && r.versions == r.next.versions
    ensures Stale(c, now) && fetch.Response? && fetch.status == 200 && !fetch.scanError ==>
              && r.next.versions == ParseLines(fetch.lines, parse)
              && r.next.stamp == Some(fetch.readAt)
              && r.versions == r.next.versions
              && (r.err.Some? <==> fetch.closeError)
  {
    var needsRefresh := c.stamp.None? || now - c.stamp.value > c.maxAge;
    if !needsRefresh then Lookup(c.versions, None, c, false)
    else
      match fetch
      case TransportError => Lookup(c.versions, Some(Transport), c, true)
      case Response(status, lines, scanError, readAt, closeError) =>
        if status != 200 then Lookup(c.versions, Some(NotOK), c, true)
        else if scanError then Lookup(c.versions, Some(ScanFailed), c, true)
        else
          var next := Cache(ParseLines(lines, parse), Some(readAt), c.maxAge);
          Lookup(next.versions, if closeError then Some(CloseFailed) else None, next, true)
  }

  /** Staleness only grows with time: a cache a call found stale (and a
      failed fetch left as it was) is stale for every later call too, so
      that call fetches again. */
  lemma StaleStaysStale(c: Cache, now: int, later: int, fetch: Fetch, parse: string -> Option<Version>)
    requires Stale(c, now) && now <= later
    ensures GetVersions(c, later, fetch, parse).fetched
  {
  }

  /** The cache round trip: after a successful refresh, any call within the
      maximum age of the time the body was read returns the very same list,
      reports no error and does not fetch, whatever the network would have
      said. */
  lemma FreshAfterRefresh(c: Cache, now: int, fetch: Fetch, later: int, fetch2: Fetch, parse: string -> Option<Version>)
    requires Stale(c, now)
    requires fetch.Response? && fetch.status == 200 && !fetch.scanError
    requires fetch.readAt <= later <= fetch.readAt + c.maxAge
    ensures var first := GetVersions(c, now, fetch, parse);
            var second := GetVersions(first.next, later, fetch2, parse);
            && second.versions == first.versions == ParseLines(fetch.lines, parse)
            && second.err.None? && !second.fetched && second.next == first.next
  {
  }

  /** A fetch that fails never changes the cache, so a cache that was
      never filled stays empty until a fetch succeeds. */
  lemma FailureKeepsCache(c: Cache, now: int, fetch: Fetch, parse: string -> Option<Version>)
    requires Stale(c, now)
    requires fetch.TransportError? || fetch.status != 200 || fetch.scanError
    ensures var r := GetVersions(c, now, fetch, parse);
            r.next == c && r.versions == c.versions && r.err.Some? && r.fetched
  {
  }

  /** Four lines of which the first and last yield versions. */
  lemma {:induction false} KeepFirstAndLast(lines: seq<string>, parse: string -> Option<Version>, v1: Version, v2: Version)
    requires |lines| == 4
    requires LineVersion(lines[0], parse) == Some(v1) && LineVersion(lines[3], parse) == Some(v2)
    requires LineVersion(lines[1], parse).None? && LineVersion(lines[2], parse).None?
    ensures ParseLines(lines, parse) == [v1, v2]
  {
    var l1 := lines[1..];
    var l2 := l1[1..];
    var l3 := l2[1..];
    assert l3[1..] == [];
    assert ParseLines(l3, parse) == [v2];
    assert ParseLines(l2, parse) == [v2];
    assert ParseLines(l1, parse) == [v2];
  }

  /** The remote list "1.1.0", "", "garbage", "1.2.0" leaves exactly the two
      parsable versions in the cache, in order. */
  lemma TolerantRefresh(parse: string -> Option<Version>, v1: Version, v2: Version)
    requires parse("1.1.0") == Some(v1) && parse("1.2.0") == Some(v2) && parse("garbage").None?
    ensures ParseLines(["1.1.0", "", "garbage", "1.2.0"], parse) == [v1, v2]
  {
    var lines: seq<string> := ["1.1.0", "", "garbage", "1.2.0"];
    assert Trimmed(lines[0]) by { assert lines[0][0] == '1' && lines[0][4] == '0'; }
    assert Trimmed(lines[2]) by { assert lines[2][0] == 'g' && lines[2][6] == 'e'; }
    assert Trimmed(lines[3]) by { assert lines[3][0] == '1' && lines[3][4] == '0'; }
    KeepFirstAndLast(lines, parse, v1, v2);
  }
}
