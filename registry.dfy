/** Parser registration and URL resolution, parsers/registry.py.

    The registry maps a domain to the parser instances registered for it, in
    registration order. A URL is resolved in two stages: its domain selects a
    bucket, then the first candidate with a pattern that matches the URL wins.
    URL splitting (`urllib.parse.urlparse`), public-suffix splitting
    (`tldextract`) and regular-expression search (`re.search`) are collaborators,
    passed in as functions. */
module Registry {
  import opened Wrappers
  import opened Base
  import opened Extractors

  /** The part of `tldextract.extract`'s answer the lookup uses. */
  datatype Registrable = Registrable(domain: string, suffix: string)

  /** The collaborators of `get_for_url`: the netloc of a URL, the registrable
      domain of a netloc, and whether a regular expression occurs in a string. */
  datatype Services = Services(
    netloc: string -> string,
    tldextract: string -> Registrable,
    search: (string, string) -> bool)

  /** The failures of `get_for_url`. `PatternTypeError` is the `TypeError` that
      `re.search` raises when it is handed a callable pattern. */
  datatype LookupError =
    | DomainNotRegistered(domain: string)
    | NoMatchingParser(url: string)
    | PatternTypeError

  type Buckets = map<string, seq<Parser>>

  /** The bucket of a domain, as the `defaultdict(list)` gives it. */
  function Bucket(m: Buckets, domain: string): seq<Parser> {
    if domain in m then m[domain] else []
  }

  /** The registry invariant: a domain that is present has a parser. */
  predicate NonEmptyBuckets(m: Buckets) {
    forall d :: d in m ==> m[d] != []
  }

  /** The buckets after appending `parser` once for each of `domains`, in order. */
  function AppendAll(m: Buckets, parser: Parser, domains: seq<string>): Buckets
    decreases |domains|
  {
    if domains == [] then m
    else AppendOne(AppendAll(m, parser, domains[..|domains| - 1]), parser, domains[|domains| - 1])
  }

  /** One step of `register`'s loop: `self._registry[domain].append(parser)`. */
  function AppendOne(m: Buckets, parser: Parser, domain: string): Buckets {
    m[domain := Bucket(m, domain) + [parser]]
  }

  /** `n` copies of the same parser. */
  function Repeat(parser: Parser, n: nat): (r: seq<Parser>)
    ensures |r| == n && forall k :: 0 <= k < n ==> r[k] == parser
  {
    if n == 0 then [] else Repeat(parser, n - 1) + [parser]
  }

  /** One step of `register`'s loop changes the bucket of its domain only. */
  lemma AppendOneBucket(m: Buckets, parser: Parser, domain: string, d: string)
    ensures d in AppendOne(m, parser, domain) <==> d in m || d == domain
    ensures Bucket(AppendOne(m, parser, domain), d) == if d == domain then Bucket(m, d) + [parser] else Bucket(m, d)
  {
  }

  /** How many times `d` occurs in `domains`. */
  function Occurrences(domains: seq<string>, d: string): (n: nat)
    ensures n == 0 <==> d !in domains
  {
    if domains == [] then 0
    else Occurrences(domains[..|domains| - 1], d) + (if domains[|domains| - 1] == d then 1 else 0)
  }

  /** `register` appends the same instance to the end of the bucket of every
      domain it claims, once per occurrence of the domain, after the old
      contents, and changes no other bucket. */
  lemma {:induction false} AppendAllBucket(m: Buckets, parser: Parser, domains: seq<string>, d: string)
    ensures Bucket(AppendAll(m, parser, domains), d) == Bucket(m, d) + Repeat(parser, Occurrences(domains, d))
  {
    if domains == [] {
      assert Bucket(m, d) + [] == Bucket(m, d);
    } else {
      var init := domains[..|domains| - 1];
      var last := domains[|domains| - 1];
      AppendAllBucket(m, parser, init, d);
      AppendOneBucket(AppendAll(m, parser, init), parser, last, d);
      var n := Occurrences(init, d);
      if d == last {
        assert Repeat(parser, n + 1) == Repeat(parser, n) + [parser];
        assert Bucket(m, d) + Repeat(parser, n) + [parser] == Bucket(m, d) + (Repeat(parser, n) + [parser]);
      }
    }
  }

  /** After `register`, a domain is a key exactly when it was one before or
      the parser claims it. */
  lemma {:induction false} AppendAllKeys(m: Buckets, parser: Parser, domains: seq<string>, d: string)
    ensures d in AppendAll(m, parser, domains) <==> d in m || d in domains
  {
    if domains != [] {
      var init := domains[..|domains| - 1];
      var last := domains[|domains| - 1];
      AppendAllKeys(m, parser, init, d);
      AppendOneBucket(AppendAll(m, parser, init), parser, last, d);
      assert domains == init + [last];
      assert d in domains <==> d in init || d == last;
    }
  }

  /** A domain the parser does not claim keeps its bucket, or stays absent. */
  lemma AppendAllElsewhere(m: Buckets, parser: Parser, domains: seq<string>, d: string)
    requires d !in domains
    ensures d in AppendAll(m, parser, domains) <==> d in m
    ensures d in m ==> AppendAll(m, parser, domains)[d] == m[d]
  {
    AppendAllKeys(m, parser, domains, d);
    AppendAllBucket(m, parser, domains, d);
    assert Bucket(m, d) + [] == Bucket(m, d);
  }

  /** Registration keeps every present bucket non-empty. */
  lemma {:induction false} AppendAllKeepsNonEmpty(m: Buckets, parser: Parser, domains: seq<string>)
    requires NonEmptyBuckets(m)
    ensures NonEmptyBuckets(AppendAll(m, parser, domains))
  {
    if domains != [] {
      AppendAllKeepsNonEmpty(m, parser, domains[..|domains| - 1]);
    }
  }

  /** What one pattern does with a URL: a match, no match, or an exception. A
      callable that returns false is not skipped: control falls through to
      `re.search` with the callable as the pattern, which raises. */
  datatype Outcome = Hit | Miss | Raise

  function PatternOutcome(pattern: Pattern, url: string, search: (string, string) -> bool): Outcome {
    match pattern
    case Predicate(test) => if test(url) then Hit else Raise
    case Regex(source) => if search(source, url) then Hit else Miss
  }

  /** The first pattern, in declared order, that does not miss decides. */
  function ScanPatterns(patterns: seq<Pattern>, url: string, search: (string, string) -> bool): Outcome {
    if patterns == [] then Miss
    else
      var o := PatternOutcome(patterns[0], url, search);
      if o != Miss then o else ScanPatterns(patterns[1..], url, search)
  }

  datatype Scan = Found(parser: Parser) | Raised | Exhausted

  /** The scan of the candidates, in registration order, each with its patterns. */
  function ScanCandidates(candidates: seq<Parser>, url: string, search: (string, string) -> bool): Scan {
    if candidates == [] then Exhausted
    else
      match ScanPatterns(candidates[0].GetPatterns(), url, search)
      case Hit => Found(candidates[0])
      case Raise => Raised
      case Miss => ScanCandidates(candidates[1..], url, search)
  }

  /** The bucket key of a URL: its netloc, or with `ignoreSubdomain` the
      registrable domain and the public suffix joined by a dot. */
  function LookupKey(url: string, ignoreSubdomain: bool, services: Services): (key: string)
    ensures !ignoreSubdomain ==> key == services.netloc(url)
    ensures ignoreSubdomain ==>
      var parsed := services.tldextract(services.netloc(url));
      key == parsed.domain + "." + parsed.suffix
  {
    var netloc := services.netloc(url);
    var parsed := services.tldextract(netloc);
    if !ignoreSubdomain then netloc else parsed.domain + "." + parsed.suffix
  }

  /** What `get_for_url` returns or raises on the given buckets. */
  function Resolve(m: Buckets, url: string, ignoreSubdomain: bool, services: Services): Result<Parser, LookupError> {
    var key := LookupKey(url, ignoreSubdomain, services);
    if key !in m || m[key] == [] then Err(DomainNotRegistered(key))
    else
      match ScanCandidates(m[key], url, services.search)
      case Found(p) => Ok(p)
      case Raised => Err(PatternTypeError)
      case Exhausted => Err(NoMatchingParser(url))
  }

  lemma {:induction false} ScanPatternsAppend(first: seq<Pattern>, second: seq<Pattern>, url: string, search: (string, string) -> bool)
    ensures ScanPatterns(first + second, url, search)
         == if ScanPatterns(first, url, search) != Miss then ScanPatterns(first, url, search)
            else ScanPatterns(second, url, search)
  {
    if first == [] {
      assert first + second == second;
    } else {
      assert (first + second)[0] == first[0];
      assert (first + second)[1..] == first[1..] + second;
      ScanPatternsAppend(first[1..], second, url, search);
    }
  }

  /** Candidates after the deciding one are never examined: the scan of a
      concatenation is the scan of the first part unless that part is exhausted. */
  lemma {:induction false} ScanCandidatesAppend(first: seq<Parser>, second: seq<Parser>, url: string, search: (string, string) -> bool)
    ensures ScanCandidates(first + second, url, search)
         == if ScanCandidates(first, url, search) != Exhausted then ScanCandidates(first, url, search)
            else ScanCandidates(second, url, search)
  {
    if first == [] {
      assert first + second == second;
    } else {
      assert (first + second)[0] == first[0];
      assert (first + second)[1..] == first[1..] + second;
      ScanCandidatesAppend(first[1..], second, url, search);
    }
  }

  /** A pattern list misses exactly when every one of its patterns misses. */
  lemma {:induction false} ScanPatternsMissIff(patterns: seq<Pattern>, url: string, search: (string, string) -> bool)
    ensures ScanPatterns(patterns, url, search) == Miss
        <==> forall j :: 0 <= j < |patterns| ==> PatternOutcome(patterns[j], url, search) == Miss
  {
    if patterns != [] {
      ScanPatternsMissIff(patterns[1..], url, search);
      assert forall j :: 0 < j < |patterns| ==> patterns[j] == patterns[1..][j - 1];
    }
  }

  /** The outcome of the `j`-th pattern of the `i`-th candidate. */
  function OutcomeAt(candidates: seq<Parser>, i: nat, j: nat, url: string, search: (string, string) -> bool): Outcome
    requires i < |candidates| && j < |candidates[i].GetPatterns()|
  {
    PatternOutcome(candidates[i].GetPatterns()[j], url, search)
  }

  /** The scan is exhausted exactly when every candidate/pattern pair misses;
      in particular when no candidate has a pattern. */
  lemma {:induction false} ScanExhaustedIff(candidates: seq<Parser>, url: string, search: (string, string) -> bool)
    ensures ScanCandidates(candidates, url, search) == Exhausted
        <==> forall i, j :: 0 <= i < |candidates| && 0 <= j < |candidates[i].GetPatterns()|
                            ==> OutcomeAt(candidates, i, j, url, search) == Miss
  {
    if candidates != [] {
      var rest := candidates[1..];
      ScanExhaustedIff(rest, url, search);
      ScanPatternsMissIff(candidates[0].GetPatterns(), url, search);
      assert forall i :: 0 < i < |candidates| ==> candidates[i] == rest[i - 1];
      if ScanCandidates(candidates, url, search) == Exhausted {
        forall i, j | 0 <= i < |candidates| && 0 <= j < |candidates[i].GetPatterns()|
          ensures OutcomeAt(candidates, i, j, url, search) == Miss
        {
          if i > 0 {
            assert OutcomeAt(candidates, i, j, url, search) == OutcomeAt(rest, i - 1, j, url, search);
          }
        }
      } else if ScanPatterns(candidates[0].GetPatterns(), url, search) != Miss {
        var j := FirstDecisive(candidates[0].GetPatterns(), url, search);
        assert OutcomeAt(candidates, 0, j, url, search) != Miss;
      } else {
        var i: nat, j: nat :| i < |rest| && j < |rest[i].GetPatterns()| && OutcomeAt(rest, i, j, url, search) != Miss;
        assert OutcomeAt(candidates, i + 1, j, url, search) != Miss;
      }
    }
  }

  /** Every pair before (`i`, `j`) in the scan order, candidates first, misses. */
  predicate MissesBefore(candidates: seq<Parser>, i: nat, j: nat, url: string, search: (string, string) -> bool)
    requires i < |candidates| && j <= |candidates[i].GetPatterns()|
  {
    && (forall i', j' :: 0 <= i' < i && 0 <= j' < |candidates[i'].GetPatterns()|
                         ==> OutcomeAt(candidates, i', j', url, search) == Miss)
    && (forall j' :: 0 <= j' < j ==> OutcomeAt(candidates, i, j', url, search) == Miss)
  }

  /** One more missing pattern keeps a missing prefix missing. */
  lemma PatternMissStep(patterns: seq<Pattern>, j: nat, url: string, search: (string, string) -> bool)
    requires j < |patterns|
    requires ScanPatterns(patterns[..j], url, search) == Miss
    requires PatternOutcome(patterns[j], url, search) == Miss
    ensures ScanPatterns(patterns[..j + 1], url, search) == Miss
  {
    assert patterns[..j + 1] == patterns[..j] + [patterns[j]];
    ScanPatternsAppend(patterns[..j], [patterns[j]], url, search);
  }

  /** One more candidate whose patterns all miss keeps an exhausted prefix
      exhausted. */
  lemma CandidateMissStep(candidates: seq<Parser>, i: nat, url: string, search: (string, string) -> bool)
    requires i < |candidates|
    requires ScanCandidates(candidates[..i], url, search) == Exhausted
    requires ScanPatterns(candidates[i].GetPatterns(), url, search) == Miss
    ensures ScanCandidates(candidates[..i + 1], url, search) == Exhausted
  {
    assert candidates[..i + 1] == candidates[..i] + [candidates[i]];
    ScanCandidatesAppend(candidates[..i], [candidates[i]], url, search);
  }

  /** Prefix form of the first-decisive-pair rule, as `get_for_url`'s loops
      see it: the candidates before `i` are exhausted and the patterns of
      candidate `i` before `j` miss. */
  lemma ScanStopsAt(candidates: seq<Parser>, i: nat, j: nat, url: string, search: (string, string) -> bool)
    requires i < |candidates| && j < |candidates[i].GetPatterns()|
    requires ScanCandidates(candidates[..i], url, search) == Exhausted
    requires ScanPatterns(candidates[i].GetPatterns()[..j], url, search) == Miss
    requires PatternOutcome(candidates[i].GetPatterns()[j], url, search) != Miss
    ensures ScanCandidates(candidates, url, search)
         == if PatternOutcome(candidates[i].GetPatterns()[j], url, search) == Hit then Found(candidates[i]) else Raised
  {
    var patterns := candidates[i].GetPatterns();
    assert candidates == candidates[..i] + candidates[i..];
    ScanCandidatesAppend(candidates[..i], candidates[i..], url, search);
    assert patterns == patterns[..j] + patterns[j..];
    ScanPatternsAppend(patterns[..j], patterns[j..], url, search);
    assert patterns[j..][0] == patterns[j];
    assert candidates[i..][0] == candidates[i];
  }

  /** The first pair that does not miss decides the scan: a match returns
      that candidate, a callable that says no raises. */
  lemma {:induction false} ScanDecidedAt(candidates: seq<Parser>, i: nat, j: nat, url: string, search: (string, string) -> bool)
    requires i < |candidates| && j < |candidates[i].GetPatterns()|
    requires MissesBefore(candidates, i, j, url, search)
    requires OutcomeAt(candidates, i, j, url, search) != Miss
    ensures ScanCandidates(candidates, url, search)
         == if OutcomeAt(candidates, i, j, url, search) == Hit then Found(candidates[i]) else Raised
  {
    var patterns := candidates[i].GetPatterns();
    ScanExhaustedIff(candidates[..i], url, search);
    forall i', j' | 0 <= i' < i && 0 <= j' < |candidates[..i][i'].GetPatterns()|
      ensures OutcomeAt(candidates[..i], i', j', url, search) == Miss
    {
      assert candidates[..i][i'] == candidates[i'];
      assert OutcomeAt(candidates[..i], i', j', url, search) == OutcomeAt(candidates, i', j', url, search);
    }
    ScanPatternsMissIff(patterns[..j], url, search);
    forall j' | 0 <= j' < j
      ensures PatternOutcome(patterns[..j][j'], url, search) == Miss
    {
      assert patterns[..j][j'] == patterns[j'];
      assert OutcomeAt(candidates, i, j', url, search) == Miss;
    }
    ScanStopsAt(candidates, i, j, url, search);
  }

  /** Moving past a first candidate whose patterns all miss keeps every
      earlier pair a miss. */
  lemma MissesBeforeShift(candidates: seq<Parser>, i: nat, j: nat, url: string, search: (string, string) -> bool)
    requires 0 < |candidates| && i < |candidates| - 1 && j <= |candidates[i + 1].GetPatterns()|
    requires ScanPatterns(candidates[0].GetPatterns(), url, search) == Miss
    requires MissesBefore(candidates[1..], i, j, url, search)
    ensures MissesBefore(candidates, i + 1, j, url, search)
  {
    var rest := candidates[1..];
    ScanPatternsMissIff(candidates[0].GetPatterns(), url, search);
    forall i', j' | 0 <= i' < i + 1 && 0 <= j' < |candidates[i'].GetPatterns()|
      ensures OutcomeAt(candidates, i', j', url, search) == Miss
    {
      if i' > 0 {
        assert candidates[i'] == rest[i' - 1];
        assert OutcomeAt(candidates, i', j', url, search) == OutcomeAt(rest, i' - 1, j', url, search);
      }
    }
    var next := i + 1;
    forall j' | 0 <= j' < j
      ensures OutcomeAt(candidates, next, j', url, search) == Miss
    {
      assert candidates[next] == rest[i];
      assert OutcomeAt(candidates, next, j', url, search) == OutcomeAt(rest, i, j', url, search);
    }
  }

  /** A found parser is the candidate of the first pair that does not miss,
      and that pair matched. */
  lemma {:induction false} ScanFoundWitness(candidates: seq<Parser>, url: string, search: (string, string) -> bool)
    requires ScanCandidates(candidates, url, search).Found?
    ensures exists i: nat, j: nat :: i < |candidates| && j < |candidates[i].GetPatterns()|
                           && MissesBefore(candidates, i, j, url, search)
                           && OutcomeAt(candidates, i, j, url, search) == Hit
                           && candidates[i] == ScanCandidates(candidates, url, search).parser
  {
    var patterns := candidates[0].GetPatterns();
    var first := ScanPatterns(patterns, url, search);
    if first == Miss {
      var rest := candidates[1..];
      ScanFoundWitness(rest, url, search);
      var i: nat, j: nat :| i < |rest| && j < |rest[i].GetPatterns()|
                  && MissesBefore(rest, i, j, url, search)
                  && OutcomeAt(rest, i, j, url, search) == Hit
                  && rest[i] == ScanCandidates(rest, url, search).parser;
      assert OutcomeAt(candidates, i + 1, j, url, search) == OutcomeAt(rest, i, j, url, search);
      MissesBeforeShift(candidates, i, j, url, search);
    } else {
      var j := FirstDecisive(patterns, url, search);
      assert OutcomeAt(candidates, 0, j, url, search) == Hit;
      assert MissesBefore(candidates, 0, j, url, search);
    }
  }

  /** The index of the first pattern that does not miss. */
  lemma {:induction false} FirstDecisiveExists(patterns: seq<Pattern>, url: string, search: (string, string) -> bool)
    requires ScanPatterns(patterns, url, search) != Miss
    ensures exists j :: 0 <= j < |patterns| && PatternOutcome(patterns[j], url, search) == ScanPatterns(patterns, url, search)
                        && forall j' :: 0 <= j' < j ==> PatternOutcome(patterns[j'], url, search) == Miss
  {
    if PatternOutcome(patterns[0], url, search) == Miss {
      var rest := patterns[1..];
      FirstDecisiveExists(rest, url, search);
      var j :| 0 <= j < |rest| && PatternOutcome(rest[j], url, search) == ScanPatterns(rest, url, search)
               && forall j' :: 0 <= j' < j ==> PatternOutcome(rest[j'], url, search) == Miss;
      assert rest[j] == patterns[j + 1];
      assert forall j' :: 0 < j' < j + 1 ==> patterns[j'] == rest[j' - 1];
    } else {
      assert PatternOutcome(patterns[0], url, search) == ScanPatterns(patterns, url, search);
    }
  }

  ghost function FirstDecisive(patterns: seq<Pattern>, url: string, search: (string, string) -> bool): (j: nat)
    requires ScanPatterns(patterns, url, search) != Miss
    ensures j < |patterns| && PatternOutcome(patterns[j], url, search) == ScanPatterns(patterns, url, search)
    ensures forall j' :: 0 <= j' < j ==> PatternOutcome(patterns[j'], url, search) == Miss
  {
    FirstDecisiveExists(patterns, url, search);
    var j :| 0 <= j < |patterns| && PatternOutcome(patterns[j], url, search) == ScanPatterns(patterns, url, search)
             && forall j' :: 0 <= j' < j ==> PatternOutcome(patterns[j'], url, search) == Miss;
    j
  }

  /** The three outcomes of a lookup, against the bucket of the URL's key:
      no bucket (or an empty one), no candidate/pattern pair that matches, or
      the candidate of the first pair, in scan order, that does not miss. */
  lemma ResolveOutcomes(m: Buckets, url: string, ignoreSubdomain: bool, services: Services)
    ensures var key := LookupKey(url, ignoreSubdomain, services);
            var r := Resolve(m, url, ignoreSubdomain, services);
            && (r == Err(DomainNotRegistered(key)) <==> key !in m || m[key] == [])
            && (r == Err(NoMatchingParser(url)) <==>
                  key in m && m[key] != []
                  && forall i, j :: 0 <= i < |m[key]| && 0 <= j < |m[key][i].GetPatterns()|
                                    ==> OutcomeAt(m[key], i, j, url, services.search) == Miss)
            && (r.Ok? ==> key in m && exists i: nat, j: nat ::
                             (i < |m[key]| && j < |m[key][i].GetPatterns()|
                              && MissesBefore(m[key], i, j, url, services.search)
                              && OutcomeAt(m[key], i, j, url, services.search) == Hit
                              && m[key][i] == r.value))
  {
    var key := LookupKey(url, ignoreSubdomain, services);
    if key in m && m[key] != [] {
      ScanExhaustedIff(m[key], url, services.search);
      if ScanCandidates(m[key], url, services.search).Found? {
        ScanFoundWitness(m[key], url, services.search);
      }
    }
  }

  /** A parser that claims no domain leaves the registry as it was. */
  lemma RegisterWithoutDomains(m: Buckets, parser: Parser)
    requires parser.cls.domains.None? || parser.cls.domains == Some([])
    ensures AppendAll(m, parser, parser.GetDomains()) == m
  {
  }

  /** A lookup whose key's bucket already decides (a match or an exception). */
  predicate Decided(m: Buckets, key: string, url: string, search: (string, string) -> bool) {
    key in m && m[key] != [] && ScanCandidates(m[key], url, search) != Exhausted
  }

  /** The lookup on a bucket holding only `parser`, once or more. */
  function ResolveAlone(parser: Parser, url: string, search: (string, string) -> bool): Result<Parser, LookupError> {
    match ScanPatterns(parser.GetPatterns(), url, search)
    case Hit => Ok(parser)
    case Raise => Err(PatternTypeError)
    case Miss => Err(NoMatchingParser(url))
  }

  /** What the non-empty-bucket invariant buys: a lookup reports an
      unregistered domain exactly when the key was never registered. */
  lemma ResolveUnregisteredIff(m: Buckets, url: string, ignoreSubdomain: bool, services: Services)
    requires NonEmptyBuckets(m)
    ensures var key := LookupKey(url, ignoreSubdomain, services);
            var r := Resolve(m, url, ignoreSubdomain, services);
            r.Err? && r.error.DomainNotRegistered? <==> key !in m
  {
    var key := LookupKey(url, ignoreSubdomain, services);
    if key in m {
      assert m[key] != [];
    }
  }

  /** Several copies of one parser scan like that parser alone. */
  lemma {:induction false} ScanRepeat(parser: Parser, n: nat, url: string, search: (string, string) -> bool)
    requires n > 0
    ensures ScanCandidates(Repeat(parser, n), url, search)
         == match ScanPatterns(parser.GetPatterns(), url, search)
            case Hit => Found(parser)
            case Raise => Raised
            case Miss => Exhausted
  {
    if n > 1 {
      ScanRepeat(parser, n - 1, url, search);
      ScanCandidatesAppend(Repeat(parser, n - 1), [parser], url, search);
    }
  }

  /** What a lookup returns after `register`: a URL whose key the parser does
      not claim, or whose bucket was already decided, resolves as before
      (earlier registrations win ties); otherwise the new parser decides. */
  lemma ResolveAfterRegister(m: Buckets, parser: Parser, domains: seq<string>, url: string, ignoreSubdomain: bool, services: Services)
    ensures var key := LookupKey(url, ignoreSubdomain, services);
            var after := Resolve(AppendAll(m, parser, domains), url, ignoreSubdomain, services);
            && (key !in domains ==> after == Resolve(m, url, ignoreSubdomain, services))
            && (Decided(m, key, url, services.search) ==> after == Resolve(m, url, ignoreSubdomain, services))
            && (key in domains && !Decided(m, key, url, services.search) ==> after == ResolveAlone(parser, url, services.search))
  {
    var key := LookupKey(url, ignoreSubdomain, services);
    var m' := AppendAll(m, parser, domains);
    AppendAllBucket(m, parser, domains, key);
    var n := Occurrences(domains, key);
    assert Bucket(m', key) == Bucket(m, key) + Repeat(parser, n);
    if n == 0 {
      assert Bucket(m, key) + [] == Bucket(m, key);
    } else {
      ScanCandidatesAppend(Bucket(m, key), Repeat(parser, n), url, services.search);
      ScanRepeat(parser, n, url, services.search);
      if !Decided(m, key, url, services.search) && Bucket(m, key) == [] {
        assert Bucket(m, key) + Repeat(parser, n) == Repeat(parser, n);
      }
    }
  }

  /** A pattern list made of regular expressions only never raises. */
  lemma {:induction false} RegexPatternsNeverRaise(patterns: seq<Pattern>, url: string, search: (string, string) -> bool)
    requires forall j :: 0 <= j < |patterns| ==> patterns[j].Regex?
    ensures ScanPatterns(patterns, url, search) != Raise
  {
    if patterns != [] {
      assert forall j :: 0 <= j < |patterns[1..]| ==> patterns[1..][j] == patterns[j + 1];
      RegexPatternsNeverRaise(patterns[1..], url, search);
    }
  }

  /** On a bucket whose candidates use regular expressions only, the scan
      either finds a parser or is exhausted. */
  lemma {:induction false} RegexCandidatesNeverRaise(candidates: seq<Parser>, url: string, search: (string, string) -> bool)
    requires forall i, j :: 0 <= i < |candidates| && 0 <= j < |candidates[i].GetPatterns()|
                            ==> candidates[i].GetPatterns()[j].Regex?
    ensures ScanCandidates(candidates, url, search) != Raised
  {
    if candidates != [] {
      RegexPatternsNeverRaise(candidates[0].GetPatterns(), url, search);
      assert forall i :: 0 <= i < |candidates[1..]| ==> candidates[1..][i] == candidates[i + 1];
      RegexCandidatesNeverRaise(candidates[1..], url, search);
    }
  }

  /** Evidently intended treatment of a pattern: a callable that returns
      false rejects the URL and the scan moves on, as a regular expression
      that does not occur does. */
  function IntendedPatternOutcome(pattern: Pattern, url: string, search: (string, string) -> bool): (o: Outcome)
    ensures o != Raise
    ensures PatternOutcome(pattern, url, search) != Raise ==> o == PatternOutcome(pattern, url, search)
    ensures PatternOutcome(pattern, url, search) == Raise ==> o == Miss
  {
    match pattern
    case Predicate(test) => if test(url) then Hit else Miss
    case Regex(source) => if search(source, url) then Hit else Miss
  }

  /** As written, a callable that rejects the URL stops the scan with an
      exception, even when a later pattern of the same parser would match. */
  lemma RejectingPredicateRaises(source: string, url: string, search: (string, string) -> bool)
    requires search(source, url)
    ensures ScanPatterns([Predicate(_ => false), Regex(source)], url, search) == Raise
    ensures IntendedPatternOutcome(Predicate(_ => false), url, search) == Miss
    ensures IntendedPatternOutcome(Regex(source), url, search) == Hit
  {
  }

  /** The evidently intended scan of one parser's patterns: a rejecting
      callable is a miss, so the scan goes on to the next pattern. */
  function IntendedScanPatterns(patterns: seq<Pattern>, url: string, search: (string, string) -> bool): (o: Outcome)
    ensures o != Raise
    ensures o == Hit <==> exists j :: 0 <= j < |patterns| && IntendedPatternOutcome(patterns[j], url, search) == Hit
  {
    if patterns == [] then Miss
    else
      var o := IntendedPatternOutcome(patterns[0], url, search);
      if o != Miss then o
      else
        var rest := IntendedScanPatterns(patterns[1..], url, search);
        assert forall j :: 0 < j < |patterns| ==> patterns[j] == patterns[1..][j - 1];
        assert rest == Hit ==> exists j :: 0 <= j < |patterns[1..]| && IntendedPatternOutcome(patterns[1..][j], url, search) == Hit;
        rest
  }

  /** Where the code does not raise, the corrected scan agrees with it. */
  lemma {:induction false} IntendedScanAgrees(patterns: seq<Pattern>, url: string, search: (string, string) -> bool)
    requires ScanPatterns(patterns, url, search) != Raise
    ensures IntendedScanPatterns(patterns, url, search) == ScanPatterns(patterns, url, search)
  {
    if patterns != [] && PatternOutcome(patterns[0], url, search) == Miss {
      IntendedScanAgrees(patterns[1..], url, search);
    }
  }

  /** The input of the first finding: as corrected, the scan passes the
      rejecting callable and the later regular expression matches. */
  lemma IntendedScanSkipsRejectingPredicate(source: string, url: string, search: (string, string) -> bool)
    requires search(source, url)
    ensures IntendedScanPatterns([Predicate(_ => false), Regex(source)], url, search) == Hit
  {
    assert [Predicate(_ => false), Regex(source)][1] == Regex(source);
  }

  /** The class `_register_simple` synthesises: the given domains and
      patterns, no `byline_extractors`, and the mixin from `bases`. */
  function SimpleParserClass(domains: seq<string>, patterns: seq<Pattern>, mixin: Mixin): (c: ParserClass)
    ensures c.domains == Some(domains) && c.patterns == Some(patterns)
    ensures c.bylineExtractors == None && c.mixin == mixin
  {
    ParserClass(Some(domains), Some(patterns), None, mixin)
  }

  /** As written, the parser `register_simple_css_parser` builds has no
      extractors, so it extracts nothing, whatever its selector matches. */
  lemma SimpleCssParserExtractsNothing(parser: Parser, domains: seq<string>, patterns: seq<Pattern>,
                                       authorsSelector: Option<string>, tree: Tree, html: string)
    requires parser.cls == SimpleParserClass(domains, patterns, CssSelectorMixin(authorsSelector))
    ensures FirstNonEmpty(parser.GetBylineExtractors(), tree, html, parser) == []
  {
  }

  /** Evidently intended class for `register_simple_css_parser`: the
      synthesised parser also lists the CSS-selector extractor. */
  function IntendedCssParserClass(domains: seq<string>, patterns: seq<Pattern>, authorsSelector: Option<string>,
                                  select: CssEngine): (c: ParserClass)
    ensures c.domains == Some(domains) && c.patterns == Some(patterns)
    ensures c.mixin == CssSelectorMixin(authorsSelector)
    ensures c.bylineExtractors == Some([CssSelectorExtractor(select)])
  {
    ParserClass(Some(domains), Some(patterns), Some([CssSelectorExtractor(select)]), CssSelectorMixin(authorsSelector))
  }

  /** The intended CSS parser extracts the stripped text of every node its
      selector matches, in node order. */
  lemma IntendedCssParserExtracts(parser: Parser, domains: seq<string>, patterns: seq<Pattern>,
                                  authorsSelector: string, select: CssEngine, tree: Tree, html: string)
    requires parser.cls == IntendedCssParserClass(domains, patterns, Some(authorsSelector), select)
    ensures FirstNonEmpty(parser.GetBylineExtractors(), tree, html, parser) == CssNames(select(tree, authorsSelector))
  {
    CssParserExtractsNodeTexts(parser, select, tree, html);
  }

  /** `ParserRegistry`: the buckets of parser instances, by domain. */
  class ParserRegistry {
    var buckets: Buckets

    ghost predicate Valid()
      reads this
    {
      NonEmptyBuckets(buckets)
    }

    constructor ()
      ensures Valid() && buckets == map[]
    {
      buckets := map[];
    }

    /** Instantiates the class and appends the instance to the bucket of each
        of its domains; the instance is returned so that callers can name it. */
    method Register(cls: ParserClass) returns (parser: Parser)
      requires Valid()
      modifies this
      ensures Valid()
      ensures fresh(parser) && parser.cls == cls
      ensures buckets == AppendAll(old(buckets), parser, parser.GetDomains())
    {
      parser := new Parser(cls);
      var domains := parser.GetDomains();
      for i := 0 to |domains|
        invariant buckets == AppendAll(old(buckets), parser, domains[..i])
      {
        var domain := domains[i];
        assert domains[..i + 1][..i] == domains[..i];
        buckets := buckets[domain := Bucket(buckets, domain) + [parser]];
      }
      assert domains[..|domains|] == domains;
      AppendAllKeepsNonEmpty(old(buckets), parser, domains);
    }

    /** `_register_simple`: registers a parser of a class built from the
        declarative fields. */
    method RegisterSimple(domains: seq<string>, patterns: seq<Pattern>, mixin: Mixin) returns (parser: Parser)
      requires Valid()
      modifies this
      ensures Valid()
      ensures fresh(parser) && parser.cls == SimpleParserClass(domains, patterns, mixin)
      ensures buckets == AppendAll(old(buckets), parser, domains)
    {
      parser := Register(SimpleParserClass(domains, patterns, mixin));
    }

    /** `register_simple_css_parser`: registers a CSS-capable parser with the
        given domains, patterns and selector. */
    method RegisterSimpleCssParser(domains: seq<string>, patterns: seq<Pattern>, authorsSelector: Option<string>)
        returns (parser: Parser)
      requires Valid()
      modifies this
      ensures Valid()
      ensures fresh(parser) && parser.cls.mixin.CssSelectorMixin?
      ensures parser.GetDomains() == domains && parser.GetPatterns() == patterns
      ensures parser.GetAuthorsSelector() == authorsSelector
      ensures parser.GetBylineExtractors() == []
      ensures buckets == AppendAll(old(buckets), parser, domains)
    {
      parser := RegisterSimple(domains, patterns, CssSelectorMixin(authorsSelector));
    }

    /** `get_for_url`: the parser for a URL, or the error the source raises. */
    method GetForUrl(url: string, ignoreSubdomain: bool, services: Services) returns (r: Result<Parser, LookupError>)
      ensures r == Resolve(buckets, url, ignoreSubdomain, services)
      ensures Valid() ==> (r.Err? && r.error.DomainNotRegistered? <==> LookupKey(url, ignoreSubdomain, services) !in buckets)
    {
      var netloc := services.netloc(url);
      var parsed := services.tldextract(netloc);
      var domain := if !ignoreSubdomain then netloc else parsed.domain + "." + parsed.suffix;
      assert domain == LookupKey(url, ignoreSubdomain, services);
      if domain !in buckets || buckets[domain] == [] {
        return Err(DomainNotRegistered(domain));
      }
      var candidates := buckets[domain];
      for i := 0 to |candidates|
        invariant ScanCandidates(candidates[..i], url, services.search) == Exhausted
      {
        var candidate := candidates[i];
        var patterns := candidate.GetPatterns();
        for j := 0 to |patterns|
          invariant ScanPatterns(patterns[..j], url, services.search) == Miss
        {
          var pattern := patterns[j];
          if pattern.Predicate? && pattern.test(url) {
            ScanStopsAt(candidates, i, j, url, services.search);
            return Ok(candidate);
          }
          if pattern.Predicate? {
            // `re.search` is handed the callable and raises
            ScanStopsAt(candidates, i, j, url, services.search);
            return Err(PatternTypeError);
          }
          if services.search(pattern.source, url) {
            ScanStopsAt(candidates, i, j, url, services.search);
            return Ok(candidate);
          }
          PatternMissStep(patterns, j, url, services.search);
        }
        assert patterns[..|patterns|] == patterns;
        CandidateMissStep(candidates, i, url, services.search);
      }
      assert candidates[..|candidates|] == candidates;
      return Err(NoMatchingParser(url));
    }
  }
}
