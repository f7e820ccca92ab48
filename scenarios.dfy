/** The registry scenarios of tests/test_registry.py, derived from the
    contracts of `ParserRegistry`'s methods alone. The URL collaborators
    are left abstract; each scenario states what it needs of them. */
module Scenarios {
  import opened Wrappers
  import opened Base
  import opened Registry

  const WashingtonPost: string := "washingtonpost.com"

  function WashingtonPostClass(pattern: string): ParserClass {
    ParserClass(Some([WashingtonPost]), Some([Regex(pattern)]), None, NoMixin)
  }

  /** Registering one class puts exactly one instance of it in the bucket
      of its domain. */
  method RegisterOneParser() returns (national: Parser, bucket: seq<Parser>)
    ensures national.cls == WashingtonPostClass("/national/")
    ensures bucket == [national]
  {
    var registry := new ParserRegistry();
    national := registry.Register(WashingtonPostClass("/national/"));
    assert national.GetDomains() == [WashingtonPost] && [WashingtonPost][..0] == [];
    assert AppendAll(map[], national, [WashingtonPost]) == AppendOne(map[], national, WashingtonPost);
    bucket := registry.buckets[WashingtonPost];
  }

  /** Two classes for one domain give two distinct instances in its bucket,
      in registration order. */
  method TwoParsersOneDomain() returns (food: Parser, national: Parser, bucket: seq<Parser>)
    ensures food.cls == WashingtonPostClass("/food/") && national.cls == WashingtonPostClass("/national/")
    ensures bucket == [food, national] && food != national
  {
    var registry := new ParserRegistry();
    food := registry.Register(WashingtonPostClass("/food/"));
    assert food.GetDomains() == [WashingtonPost] && [WashingtonPost][..0] == [];
    assert AppendAll(map[], food, [WashingtonPost]) == AppendOne(map[], food, WashingtonPost);
    var afterFood := registry.buckets;
    national := registry.Register(WashingtonPostClass("/national/"));
    assert national.GetDomains() == [WashingtonPost];
    assert AppendAll(afterFood, national, [WashingtonPost]) == AppendOne(afterFood, national, WashingtonPost);
    bucket := registry.buckets[WashingtonPost];
  }

  /** Two parsers share washingtonpost.com and are told apart by their
      patterns; without `ignoreSubdomain` the www netloc has no bucket. */
  method WashingtonPostLookups(services: Services, foodUrl: string, nationalUrl: string, newsUrl: string, homeUrl: string)
      returns (food: Parser, national: Parser,
               forFood: Result<Parser, LookupError>, forNational: Result<Parser, LookupError>,
               forNews: Result<Parser, LookupError>, forHome: Result<Parser, LookupError>)
    requires services.netloc(foodUrl) == services.netloc(nationalUrl) == services.netloc(newsUrl)
          == services.netloc(homeUrl) == "www.washingtonpost.com"
    requires services.tldextract("www.washingtonpost.com") == Registrable("washingtonpost", "com")
    requires services.search("/food/", foodUrl)
    requires !services.search("/food/", nationalUrl) && services.search("/national/", nationalUrl)
    requires !services.search("/food/", newsUrl) && !services.search("/national/", newsUrl)
    ensures food.GetPatterns() == [Regex("/food/")] && national.GetPatterns() == [Regex("/national/")]
    ensures forFood == Ok(food) && forNational == Ok(national)
    ensures forNews == Err(NoMatchingParser(newsUrl))
    ensures forHome == Err(DomainNotRegistered("www.washingtonpost.com"))
  {
    var registry := new ParserRegistry();
    food := registry.Register(WashingtonPostClass("/food/"));
    var afterFood := registry.buckets;
    assert food.GetDomains() == [WashingtonPost] && [WashingtonPost][..0] == [];
    assert AppendAll(map[], food, [WashingtonPost]) == AppendOne(map[], food, WashingtonPost);
    national := registry.Register(WashingtonPostClass("/national/"));
    assert "washingtonpost" + "." + "com" == WashingtonPost;
    assert ScanCandidates([food], foodUrl, services.search) == Found(food);
    assert [Regex("/food/")][1..] == [] && [food][1..] == [];
    assert ScanPatterns(food.GetPatterns(), nationalUrl, services.search) == Miss;
    assert ScanPatterns(food.GetPatterns(), newsUrl, services.search) == Miss;
    assert [Regex("/national/")][1..] == [];
    assert ScanPatterns(national.GetPatterns(), newsUrl, services.search) == Miss;

    forFood := registry.GetForUrl(foodUrl, true, services);
    ResolveAfterRegister(map[], food, [WashingtonPost], foodUrl, true, services);
    ResolveAfterRegister(afterFood, national, [WashingtonPost], foodUrl, true, services);

    forNational := registry.GetForUrl(nationalUrl, true, services);
    ResolveAfterRegister(map[], food, [WashingtonPost], nationalUrl, true, services);
    ResolveAfterRegister(afterFood, national, [WashingtonPost], nationalUrl, true, services);

    forNews := registry.GetForUrl(newsUrl, true, services);
    ResolveAfterRegister(map[], food, [WashingtonPost], newsUrl, true, services);
    ResolveAfterRegister(afterFood, national, [WashingtonPost], newsUrl, true, services);

    forHome := registry.GetForUrl(homeUrl, false, services);
    ResolveAfterRegister(map[], food, [WashingtonPost], homeUrl, false, services);
    ResolveAfterRegister(afterFood, national, [WashingtonPost], homeUrl, false, services);
  }

  /** A lookup in an empty registry fails with `DomainNotRegistered`. */
  method UnknownDomain(services: Services, url: string) returns (r: Result<Parser, LookupError>)
    requires services.netloc(url) == "muckrack.com"
    ensures r == Err(DomainNotRegistered("muckrack.com"))
  {
    var registry := new ParserRegistry();
    r := registry.GetForUrl(url, false, services);
  }

  /** A parser registered through `register_simple_css_parser` is found by
      URL and keeps the domains, patterns and selector it was given. */
  method SimpleCssParserLookup(services: Services, url: string) returns (parser: Parser, r: Result<Parser, LookupError>)
    requires services.tldextract(services.netloc(url)) == Registrable("bloomberg", "com")
    requires services.search("/news/", url)
    ensures r == Ok(parser)
    ensures parser.GetDomains() == ["bloomberg.com"] && parser.GetPatterns() == [Regex("/news/")]
    ensures parser.cls.mixin.CssSelectorMixin? && parser.GetAuthorsSelector() == Some(".byline")
  {
    var registry := new ParserRegistry();
    parser := registry.RegisterSimpleCssParser(["bloomberg.com"], [Regex("/news/")], Some(".byline"));
    assert "bloomberg" + "." + "com" == "bloomberg.com";
    r := registry.GetForUrl(url, true, services);
    ResolveAfterRegister(map[], parser, ["bloomberg.com"], url, true, services);
  }
}
