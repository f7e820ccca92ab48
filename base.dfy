/** The parser abstraction of parsers/base.py.

    A parser is configured by class attributes (`domains`, `patterns`,
    `byline_extractors`, and for CSS-capable parsers `authors_selector`); each
    of them may be left unset (`None`). An instance never changes after it is
    made, so the model keeps the attributes in one constant field. The
    parser's `extract` turns an HTML string into a document tree and runs its
    extractors in order until one of them returns something. */
module Base {
  import opened Wrappers

  /** The parsed HTML document (an lxml element); its structure is not modelled. */
  type Tree

  /** A URL pattern: a regular expression searched for anywhere in the URL,
      or a callable that is applied to the URL. */
  datatype Pattern = Regex(source: string) | Predicate(test: string -> bool)

  /** An extraction strategy: called with the tree, the raw HTML and the
      parser itself, it returns the author names it found (possibly none). */
  type Extractor = (Tree, string, Parser) -> seq<string>

  /** Whether the class mixes in the CSS-selector capability, and with which
      `authors_selector` (unset by default). */
  datatype Mixin = NoMixin | CssSelectorMixin(authorsSelector: Option<string>)

  /** The class attributes a parser instance reads its configuration from. */
  datatype ParserClass = ParserClass(
    domains: Option<seq<string>>,
    patterns: Option<seq<Pattern>>,
    bylineExtractors: Option<seq<Extractor>>,
    mixin: Mixin)

  /** Python's `x or []` for an attribute that holds a list or `None`. */
  function OrEmpty<T>(x: Option<seq<T>>): (r: seq<T>)
    ensures x.Some? ==> r == x.value
    ensures x.None? ==> r == []
  {
    if x.Some? then x.value else []
  }

  class Parser {
    const cls: ParserClass

    /** `parser_cls()`: an instance of the given class. */
    constructor (cls: ParserClass)
      ensures this.cls == cls
    {
      this.cls := cls;
    }

    function GetDomains(): (r: seq<string>)
      ensures cls.domains.Some? ==> r == cls.domains.value
      ensures cls.domains.None? ==> r == []
    {
      OrEmpty(cls.domains)
    }

    function GetBylineExtractors(): (r: seq<Extractor>)
      ensures cls.bylineExtractors.Some? ==> r == cls.bylineExtractors.value
      ensures cls.bylineExtractors.None? ==> r == []
    {
      OrEmpty(cls.bylineExtractors)
    }

    function GetPatterns(): (r: seq<Pattern>)
      ensures cls.patterns.Some? ==> r == cls.patterns.value
      ensures cls.patterns.None? ==> r == []
    {
      OrEmpty(cls.patterns)
    }

    /** `CSSSelectorMixin.get_authors_selector`: only a class with the mixin
        has this method; it returns the attribute as configured, unset included. */
    function GetAuthorsSelector(): (r: Option<string>)
      requires cls.mixin.CssSelectorMixin?
      ensures r == cls.mixin.authorsSelector
    {
      cls.mixin.authorsSelector
    }

    /** Runs the extractors in order on the tree built from `html` and returns
        the first non-empty result, or `[]`. The HTML parser is a parameter. */
    method Extract(html: string, fromString: string -> Tree) returns (names: seq<string>)
      ensures names == FirstNonEmpty(GetBylineExtractors(), fromString(html), html, this)
    {
      var tree := fromString(html);
      var extractors := GetBylineExtractors();
      for i := 0 to |extractors|
        invariant FirstNonEmpty(extractors[..i], tree, html, this) == []
      {
        var authorNames := extractors[i](tree, html, this);
        if authorNames != [] {
          assert extractors == extractors[..i] + extractors[i..];
          FirstNonEmptyAppend(extractors[..i], extractors[i..], tree, html, this);
          return authorNames;
        }
        assert extractors[..i + 1] == extractors[..i] + [extractors[i]];
        FirstNonEmptyAppend(extractors[..i], [extractors[i]], tree, html, this);
      }
      assert extractors[..|extractors|] == extractors;
      return [];
    }
  }

  /** The result of the first extractor, in list order, that returns a
      non-empty list; `[]` when there is none. */
  function FirstNonEmpty(extractors: seq<Extractor>, tree: Tree, html: string, parser: Parser): (r: seq<string>)
    ensures r != [] ==> exists i :: 0 <= i < |extractors| && r == extractors[i](tree, html, parser)
  {
    if extractors == [] then []
    else
      var names := extractors[0](tree, html, parser);
      if names != [] then names
      else
        var rest := FirstNonEmpty(extractors[1..], tree, html, parser);
        assert rest != [] ==> exists i :: 0 <= i < |extractors[1..]| && rest == extractors[1..][i](tree, html, parser);
        assert forall i :: 0 <= i < |extractors[1..]| ==> extractors[1..][i] == extractors[i + 1];
        rest
  }

  /** The extractors after the first successful one play no part: the result
      on a concatenation is decided by the first list unless it finds nothing. */
  lemma {:induction false} FirstNonEmptyAppend(first: seq<Extractor>, second: seq<Extractor>, tree: Tree, html: string, parser: Parser)
    ensures FirstNonEmpty(first + second, tree, html, parser)
         == if FirstNonEmpty(first, tree, html, parser) != [] then FirstNonEmpty(first, tree, html, parser)
            else FirstNonEmpty(second, tree, html, parser)
  {
    if first != [] {
      assert (first + second)[0] == first[0];
      assert (first + second)[1..] == first[1..] + second;
      FirstNonEmptyAppend(first[1..], second, tree, html, parser);
    } else {
      assert first + second == second;
    }
  }

  /** Nothing is found exactly when every extractor returns an empty list
      (an empty extractor list included). */
  lemma {:induction false} FirstNonEmptyIsEmptyIff(extractors: seq<Extractor>, tree: Tree, html: string, parser: Parser)
    ensures FirstNonEmpty(extractors, tree, html, parser) == []
        <==> forall i :: 0 <= i < |extractors| ==> extractors[i](tree, html, parser) == []
  {
    if extractors != [] {
      FirstNonEmptyIsEmptyIff(extractors[1..], tree, html, parser);
      assert forall i :: 0 <= i < |extractors[1..]| ==> extractors[1..][i] == extractors[i + 1];
      if FirstNonEmpty(extractors, tree, html, parser) == [] {
        forall i | 0 <= i < |extractors|
          ensures extractors[i](tree, html, parser) == []
        {
          if i > 0 {
            assert extractors[i] == extractors[1..][i - 1];
          }
        }
      }
    }
  }

  /** The extractor at `i` wins when it is the first to return something. */
  lemma {:induction false} FirstNonEmptyAt(extractors: seq<Extractor>, i: nat, tree: Tree, html: string, parser: Parser)
    requires i < |extractors|
    requires extractors[i](tree, html, parser) != []
    requires forall j :: 0 <= j < i ==> extractors[j](tree, html, parser) == []
    ensures FirstNonEmpty(extractors, tree, html, parser) == extractors[i](tree, html, parser)
  {
    if i > 0 {
      assert extractors[0](tree, html, parser) == [];
      var rest := extractors[1..];
      assert rest[i - 1] == extractors[i];
      assert forall j :: 0 <= j < i - 1 ==> rest[j] == extractors[j + 1];
      FirstNonEmptyAt(rest, i - 1, tree, html, parser);
    }
  }

  /** A non-empty result is the result of some extractor, and every extractor
      before it returned nothing. */
  lemma {:induction false} FirstNonEmptyWinner(extractors: seq<Extractor>, tree: Tree, html: string, parser: Parser)
    requires FirstNonEmpty(extractors, tree, html, parser) != []
    ensures exists i :: (0 <= i < |extractors|
                         && FirstNonEmpty(extractors, tree, html, parser) == extractors[i](tree, html, parser)
                         && forall j :: 0 <= j < i ==> extractors[j](tree, html, parser) == [])
  {
    if extractors[0](tree, html, parser) == [] {
      var rest := extractors[1..];
      FirstNonEmptyWinner(rest, tree, html, parser);
      var k :| 0 <= k < |rest|
        && FirstNonEmpty(rest, tree, html, parser) == rest[k](tree, html, parser)
        && (forall j :: 0 <= j < k ==> rest[j](tree, html, parser) == []);
      assert rest[k] == extractors[k + 1];
      forall j | 0 <= j < k + 1
        ensures extractors[j](tree, html, parser) == []
      {
        if j > 0 {
          assert extractors[j] == rest[j - 1];
        }
      }
    } else {
      assert FirstNonEmpty(extractors, tree, html, parser) == extractors[0](tree, html, parser);
    }
  }

  /** With a single extractor, extraction returns exactly what it returns. */
  lemma SingleExtractor(extractor: Extractor, tree: Tree, html: string, parser: Parser)
    ensures FirstNonEmpty([extractor], tree, html, parser) == extractor(tree, html, parser)
  {
  }

  /** Order matters: when two extractors would both succeed, the one listed
      first wins, whichever it is. */
  lemma {:induction false} ExtractorOrderDecides(f: Extractor, g: Extractor, tree: Tree, html: string, parser: Parser)
    requires f(tree, html, parser) != [] && g(tree, html, parser) != []
    ensures FirstNonEmpty([f, g], tree, html, parser) == f(tree, html, parser)
    ensures FirstNonEmpty([g, f], tree, html, parser) == g(tree, html, parser)
  {
    FirstNonEmptyAt([f, g], 0, tree, html, parser);
    FirstNonEmptyAt([g, f], 0, tree, html, parser);
  }
}
