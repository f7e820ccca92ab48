# Byline parser registry, modelled in Dafny

This project models the core of a small byline-extraction library. It covers
two parts. The first is the registry, which resolves a URL to a parser: the
URL's domain picks a bucket of registered parsers, and then the first parser
whose URL pattern matches wins. The second is the parser's extraction loop,
which tries the parser's extractors in order and returns the first non-empty
list of author names.

Modules: one per core source file, plus `Wrappers` for the option and
result types and `Scenarios` for the registry tests.

- `Wrappers` (`wrappers.dfy`): `Option` and `Result`.
- `Base` (`base.dfy`, parsers/base.py): the `Parser` class and its getters.
  Also `Extract`, and `FirstNonEmpty`, the function that specifies `Extract`,
  with the lemmas about it.
- `Extractors` (`extractors.dfy`, parsers/extractors.py): `SplitAuthorNames`,
  which is `str.strip()` over Python's `str.isspace` characters. The CSS
  extractor's loop. The meta-tag extractors as extractor values.
- `Registry` (`registry.dfy`, parsers/registry.py): the `ParserRegistry` class
  over a `map<string, seq<Parser>>`. The specification functions `AppendAll`
  (registration) and `Resolve` (lookup), and the lemmas about them.
- `Scenarios` (`scenarios.dfy`): the registry tests of tests/test_registry.py
  that register and look up parsers (`test_register_parser`,
  `test_multiple_registrations_for_same_domain`, `test_get_for_url`,
  `test_get_for_url_unknown_domain`, `test_get_for_url_include_subdomain`,
  `test_get_for_url_no_candidates`, `test_register_css_parser`), derived from
  the methods' contracts alone. The two type checks on the registry object are
  not replayed.

A parser instance never changes after creation. So `Parser` is a class with a
single constant field, `cls`, which holds the class attributes (`domains`,
`patterns`, `byline_extractors`, and the CSS mixin's `authors_selector`).
Being a reference type, it keeps the meaning of "the same instance in several
buckets". A Python subclass that overrides a getter becomes a `ParserClass`
value with that attribute set. Extractors are function values
`(Tree, string, Parser) -> seq<string>`. `Tree` is an abstract type.

Collaborators become parameters:

- `Services.netloc` stands for `urllib.parse.urlparse(url).netloc`.
- `Services.tldextract` stands for the domain/suffix split of `tldextract.extract`.
- `Services.search` stands for `re.search` on a pattern string.
- The `fromString` argument of `Extract` stands for `lxml.html.fromstring`.
- `XPathEngine` and `CssEngine` stand for `tree.xpath` and
  `tree.cssselect(...)` followed by `text_content()` on each node.

Two places where the code does less than its own documentation says; the
model follows the code:

- Callable patterns. The `get_patterns` docstring (parsers/base.py:29-30)
  calls patterns "regexes or callables to allow or reject parsing a given
  URL", so a callable returning false should reject the URL. In the code
  (parsers/registry.py:90-92), control falls through to `re.search` with the
  callable as its pattern, and that raises. The model returns
  `PatternTypeError` there.
- The simple CSS parser. The `register_simple_css_parser` docstring
  (parsers/registry.py:64) says it "fast-tracks creating a CSS selector-based
  parser". The code never sets `byline_extractors`, so the synthesised parser
  has no extractors and extracts nothing.

Both are listed under Findings, each with a corrected definition beside the
as-written one. The registry methods keep the as-written behaviour.

## Model

| member | source | states |
|---|---|---|
| `Base.OrEmpty` | parsers/base.py:20-33 | `x or []`: the configured list when set, `[]` when unset |
| `Base.Parser.GetDomains` | parsers/base.py:20-21 | the configured domains, or `[]` when unset |
| `Base.Parser.GetBylineExtractors` | parsers/base.py:23-26 | the configured extractors, or `[]` when unset |
| `Base.Parser.GetPatterns` | parsers/base.py:28-33 | the configured patterns, or `[]` when unset |
| `Base.Parser.GetAuthorsSelector` | parsers/base.py:50-56 | only for a class with the CSS mixin; the configured selector unchanged, unset included |
| `Base.Parser.Extract` | parsers/base.py:35-47 | the loop returns `FirstNonEmpty` of the extractor list, with every extractor called on the same tree (built from the HTML), the same HTML and the parser itself |
| `Base.FirstNonEmpty` | parsers/base.py:42-47 | a non-empty result is the result of one of the extractors |
| `Base.FirstNonEmptyAppend` | parsers/base.py:42-45 | extractors after the first successful one play no part: on `first + second` the result is `first`'s unless `first` finds nothing, then it is `second`'s |
| `Base.FirstNonEmptyIsEmptyIff` | parsers/base.py:47 | the result is `[]` exactly when every extractor returns `[]`, the empty list of extractors included |
| `Base.FirstNonEmptyAt` | parsers/base.py:42-45 | if extractor `i` is the first to return something, the result is its result |
| `Base.FirstNonEmptyWinner` | parsers/base.py:42-45 | a non-empty result comes from some extractor `i`, and every extractor before `i` returned `[]` |
| `Base.SingleExtractor` | tests/test_parser.py:50-88 | with one extractor, extraction returns exactly that extractor's result |
| `Base.ExtractorOrderDecides` | parsers/base.py:42-45 | when two extractors both succeed, the one listed first wins, in either order |
| `Extractors.IsSpace` | parsers/extractors.py:13 | the characters Python's `str.isspace` accepts, which `str.strip()` removes |
| `Extractors.SplitAuthorNames` | parsers/extractors.py:10-13 | `value.strip()`: the value without its longest all-whitespace prefix and suffix; no splitting into several names |
| `Extractors.SplitAuthorNamesStrips` | parsers/extractors.py:10-13 | the result is a slice `value[i..j]` with only whitespace before `i` and after `j`, and it neither starts nor ends with whitespace; the interior is untouched |
| `Extractors.StripIsUnique` | parsers/extractors.py:13 | that description is exact: any such slice is the stripped value |
| `Extractors.StripIsIdempotent` | parsers/extractors.py:13 | stripping twice equals stripping once |
| `Extractors.CssNames` | parsers/extractors.py:43-49 | one name per node text, in node order, each the stripped text |
| `Extractors.ExtractWithCssSelector` | parsers/extractors.py:38-49 | the loop returns exactly one stripped string per node the parser's selector matches, in node order; zero nodes give `[]`; it agrees with `CssSelectorExtractor`, the value put in extractor lists |
| `Extractors.CssSelectorExtractor` | parsers/extractors.py:38-49 | the CSS-selector strategy as a value for a parser's extractor list: the stripped texts of the nodes the parser's selector matches |
| `Extractors.CssSelectorExtractorSelects` | parsers/extractors.py:38-49 | the CSS extractor value returns, for a parser with a selector, one stripped text per matched node |
| `Extractors.MetaAuthorExtractor` | parsers/extractors.py:22-27 | the values the XPath engine selects for `//meta[@name="author"]/@content` |
| `Extractors.OpenGraphArticleAuthorExtractor` | parsers/extractors.py:30-35 | the values the XPath engine selects for `//meta[@property="article:author"]/@content` |
| `Extractors.MetaExtractorsQuery` | parsers/extractors.py:16-35 | the two meta-tag extractors return exactly what the XPath expressions `//meta[@name="author"]/@content` and `//meta[@property="article:author"]/@content` select, whatever the HTML and parser |
| `Extractors.CssParserExtractsNodeTexts` | tests/test_parser.py:11-47 | a CSS parser whose only extractor is the CSS one extracts the stripped node texts |
| `Extractors.MetaThenOpenGraph` | tests/test_parser.py:115-154 | with the meta-author extractor first, a page without that tag yields the OpenGraph names, or `[]` when those are missing too |
| `Registry.LookupKey` | parsers/registry.py:77-81 | the key is the netloc, or the registrable domain and the suffix joined by `.` when subdomains are ignored |
| `Registry.Bucket` | parsers/registry.py:27 | the bucket of a domain, `[]` when absent, as a `defaultdict(list)` reads |
| `Registry.AppendOne` | parsers/registry.py:39 | appends the instance to the end of one domain's bucket, creating the bucket when absent |
| `Registry.AppendAll` | parsers/registry.py:35-39 | the buckets after `register`: the instance appended for each claimed domain in turn, in the order the domains are listed |
| `Registry.AppendAllBucket` | parsers/registry.py:35-39 | registration appends the same instance to the end of a domain's bucket once per occurrence of that domain, after the old contents in their old order |
| `Registry.AppendAllKeys` | parsers/registry.py:38-39 | a bucket key is present after registration iff it was present before or the class claims it |
| `Registry.AppendAllElsewhere` | parsers/registry.py:38-39 | a domain the parser does not claim keeps its bucket, or stays absent |
| `Registry.RegisterWithoutDomains` | parsers/registry.py:38-39 | a parser with unset or empty domains leaves the registry unchanged |
| `Registry.AppendAllKeepsNonEmpty` | parsers/registry.py:35-39 | registration keeps the invariant that every present key has a non-empty bucket |
| `Registry.PatternOutcome` | parsers/registry.py:90-92 | one pattern against the URL: a callable that accepts hits and one that rejects raises (`re.search` is handed the callable); a regular expression hits when it occurs in the URL and misses otherwise |
| `Registry.ScanPatterns` | parsers/registry.py:89-93 | one candidate's patterns in declared order: the first outcome that is not a miss, or a miss when all miss |
| `Registry.ScanCandidates` | parsers/registry.py:87-93 | the candidates in bucket order: the first whose patterns hit is found, a raise stops the scan, and the scan is exhausted when every candidate misses |
| `Registry.Resolve` | parsers/registry.py:76-95 | `get_for_url`: `DomainNotRegistered` on an absent or empty bucket, else the verdict of the first candidate/pattern pair that does not miss, or `NoMatchingParser` when every pair misses |
| `Registry.ResolveUnregisteredIff` | parsers/registry.py:27-39 | under the invariant that present buckets are non-empty, a lookup reports an unregistered domain exactly when its key was never registered |
| `Registry.ScanPatternsAppend` | parsers/registry.py:89-93 | patterns after the deciding one are not examined |
| `Registry.ScanCandidatesAppend` | parsers/registry.py:87-93 | candidates after the deciding one are not examined |
| `Registry.ScanPatternsMissIff` | parsers/registry.py:89-93 | a parser's patterns miss exactly when each of them misses |
| `Registry.ScanExhaustedIff` | parsers/registry.py:87-95 | the scan finds nothing exactly when every candidate/pattern pair misses, including when no candidate has patterns |
| `Registry.ScanStopsAt` | parsers/registry.py:87-93 | once the earlier candidates and patterns have missed, the current pattern decides: a match returns the current candidate, a rejecting callable raises |
| `Registry.ScanDecidedAt` | parsers/registry.py:87-93 | the first pair in scan order (registration order, then declared order) that does not miss decides the result |
| `Registry.ScanFoundWitness` | parsers/registry.py:87-93 | a found parser is the candidate of a matching pair before which every pair missed |
| `Registry.ScanRepeat` | parsers/registry.py:87-93 | a bucket holding one instance several times scans like that instance alone |
| `Registry.ResolveOutcomes` | parsers/registry.py:76-95 | `DomainNotRegistered(key)` iff the bucket is absent or empty; `NoMatchingParser(url)` iff the bucket is non-empty and every pair misses; a returned parser is the candidate of the first pair that does not miss, and that pair matched |
| `Registry.ResolveAfterRegister` | parsers/registry.py:35-95 | after registering, a URL the parser does not claim resolves as before; so does a URL whose bucket already decided (first registered wins); otherwise the new parser alone decides |
| `Registry.RegexPatternsNeverRaise` | parsers/registry.py:89-93 | patterns that are all regular expressions never raise |
| `Registry.RegexCandidatesNeverRaise` | parsers/registry.py:87-93 | a bucket with regular-expression patterns only either finds a parser or finds none, and never raises |
| `Registry.RejectingPredicateRaises` | parsers/registry.py:90-92 | as written, a callable that returns false raises before a later matching pattern of the same parser is tried |
| `Registry.IntendedPatternOutcome` | parsers/registry.py:90-92 | corrected pattern test: it never raises, it agrees with the code wherever the code does not raise, and a rejecting callable is a miss |
| `Registry.IntendedScanPatterns` | parsers/registry.py:89-93 | corrected scan of one parser's patterns: it never raises, and it hits exactly when some pattern hits under the corrected test |
| `Registry.IntendedScanAgrees` | parsers/registry.py:89-93 | wherever the code's scan does not raise, the corrected scan gives the same outcome |
| `Registry.IntendedScanSkipsRejectingPredicate` | parsers/registry.py:90-92 | on the input of the finding, the corrected scan passes the rejecting callable and the later regular expression hits |
| `Registry.SimpleParserClass` | parsers/registry.py:53-59 | the synthesised class has the given domains and patterns, the given mixin, and no `byline_extractors` |
| `Registry.SimpleCssParserExtractsNothing` | parsers/registry.py:53-59 | as written, the parser made by `register_simple_css_parser` extracts `[]` from every page |
| `Registry.IntendedCssParserClass` | parsers/registry.py:63-74 | corrected class: as the synthesised one, but with the CSS-selector extractor as its only extractor |
| `Registry.IntendedCssParserExtracts` | parsers/registry.py:63-74 | the corrected CSS parser extracts one stripped text per node its selector matches |
| `Registry.ParserRegistry.constructor` | parsers/registry.py:26-27 | a fresh registry is empty, and so satisfies the non-empty-bucket invariant |
| `Registry.ParserRegistry.Register` | parsers/registry.py:35-39 | makes one fresh instance of the class; the buckets become `AppendAll` of the old buckets with that instance and its domains; the invariant is kept |
| `Registry.ParserRegistry.RegisterSimple` | parsers/registry.py:41-61 | registers one fresh instance of `SimpleParserClass(domains, patterns, mixin)` |
| `Registry.ParserRegistry.RegisterSimpleCssParser` | parsers/registry.py:63-74 | registers one fresh CSS-capable parser with `GetDomains() == domains`, `GetPatterns() == patterns`, `GetAuthorsSelector()` equal to the selector, and no extractors |
| `Registry.ParserRegistry.GetForUrl` | parsers/registry.py:76-95 | the nested loop with early returns computes `Resolve` on the current buckets, error cases included; on a valid registry it reports an unregistered domain exactly when the key is absent |
| `Scenarios.RegisterOneParser` | tests/test_registry.py:28-36 | registering one class leaves exactly one instance of that class in its domain's bucket |
| `Scenarios.TwoParsersOneDomain` | tests/test_registry.py:39-45 | two classes for one domain leave two distinct instances in its bucket, in registration order |
| `Scenarios.WashingtonPostLookups` | tests/test_registry.py:48-98 | two parsers share washingtonpost.com and are told apart by `/food/` and `/national/`; a URL matching neither gives `NoMatchingParser`; the `www` netloc without `ignoreSubdomain` gives `DomainNotRegistered` |
| `Scenarios.UnknownDomain` | tests/test_registry.py:73-77 | a lookup in an empty registry gives `DomainNotRegistered` |
| `Scenarios.SimpleCssParserLookup` | tests/test_registry.py:101-120 | a parser registered through `register_simple_css_parser` is found by URL and keeps its domains, patterns and selector |

## Left out

- HTML parsing (`lxml.html.fromstring`), XPath evaluation and CSS selector evaluation: foreign libraries. The model uses an abstract `Tree`, with the engines passed in as functions.
- `urllib.parse.urlparse` and `tldextract.extract`: foreign URL and public-suffix logic. `Services` passes in a URL's netloc and a netloc's domain and suffix. The subdomain part is not used by the lookup.
- The `re` engine: `Services.search` decides whether a pattern string occurs in a URL. Compiled pattern objects are covered by `Regex`.
- `ParserRegistry.__contains__`: broken in the source (it falls back to `object.__contains__`, which does not exist) and not used by anything in the core.
- The module-level `registry` singleton: registries are constructed explicitly.
- Runtime class synthesis with `type(...)`, the class name, and `**attrs` other than `authors_selector`: a synthesised class is a `ParserClass` value.
- Python truthiness of arbitrary attribute values: a configured attribute is either unset or a list.
- Exception messages: the errors carry the domain or the URL, not the formatted text.
- Registry.ParserRegistry.Register: also returns the new instance, so that contracts can name it. The Python method returns `None`; so do `_register_simple` and `register_simple_css_parser`.
- Extractors.CssSelectorExtractor: returns `[]` for a parser without the CSS mixin or without a selector. In Python, the first case raises `AttributeError`, and the second passes `None` to `cssselect`. Extractor values are total functions here.
- Extractors.ExtractWithCssSelector: requires the parser to have the CSS mixin and a selector. Python fails in those cases instead.
- Exceptions raised by an extractor inside `extract`: extractors are total here, so nothing propagates.
- "Later extractors are not invoked" cannot be observed, since function values have no effects. It is stated as `FirstNonEmptyAppend` instead: later extractors cannot change the result.
- Test-only checks such as `isinstance`, and the test fixtures.

## Findings

| source | as written | input that shows it | evidently intended | confidence | as-written member | corrected member |
|---|---|---|---|---|---|---|
| parsers/registry.py:90-92 | a callable pattern that returns false falls through to `re.search(pattern, url)` with the callable, which raises `TypeError` | patterns `[lambda url: False, r"/news/"]` and a URL containing `/news/`: the lookup raises instead of returning the parser | a false callable rejects the URL and the scan moves on to the next pattern | high; not executed | `Registry.RejectingPredicateRaises` | `Registry.IntendedScanPatterns` |
| parsers/registry.py:53-59 | the class built by `register_simple_css_parser` never sets `byline_extractors`, so its `extract` always returns `[]` | `register_simple_css_parser(["bloomberg.com"], [r"/news/"], ".byline")`, then `extract` on a page with `<div class="byline">Jane Doe</div>` returns `[]` | the synthesised parser lists `extract_with_css_selector`, so that it returns `["Jane Doe"]` | medium; not executed | `Registry.SimpleCssParserExtractsNothing` | `Registry.IntendedCssParserClass` |
