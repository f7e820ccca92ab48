/** The extraction strategies of parsers/extractors.py.

    The XPath and CSS engines are not modelled: an XPath engine is a function
    from a tree and an expression to the matched attribute values, and a CSS
    engine a function from a tree and a selector to the text content of each
    matched node, both in document order. */
module Extractors {
  import opened Wrappers
  import opened Base

  /** Python's `str.isspace` on one character: the characters that `str.strip()`
      removes when it is called without arguments. */
  predicate IsSpace(c: char) {
    var n := c as int;
    (0x09 <= n <= 0x0D) || (0x1C <= n <= 0x20) || n == 0x85 || n == 0xA0 || n == 0x1680
    || (0x2000 <= n <= 0x200A) || n == 0x2028 || n == 0x2029 || n == 0x202F || n == 0x205F
    || n == 0x3000
  }

  predicate AllSpace(s: string) {
    forall k :: 0 <= k < |s| ==> IsSpace(s[k])
  }

  /** Neither starts nor ends with whitespace. */
  predicate Trimmed(s: string) {
    s == [] || (!IsSpace(s[0]) && !IsSpace(s[|s| - 1]))
  }

  /** The length of the longest all-whitespace prefix. */
  function LeadingSpace(s: string): (n: nat)
    ensures n <= |s|
    ensures AllSpace(s[..n])
    ensures n < |s| ==> !IsSpace(s[n])
  {
    if s == [] || !IsSpace(s[0]) then 0
    else
      var n := 1 + LeadingSpace(s[1..]);
      assert forall k :: 1 <= k < n ==> s[..n][k] == s[1..][..n - 1][k - 1];
      n
  }

  /** The length of the longest all-whitespace suffix. */
  function TrailingSpace(s: string): (n: nat)
    ensures n <= |s|
    ensures AllSpace(s[|s| - n..])
    ensures n < |s| ==> !IsSpace(s[|s| - 1 - n])
  {
    if s == [] || !IsSpace(s[|s| - 1]) then 0
    else
      var init := s[..|s| - 1];
      var n := 1 + TrailingSpace(init);
      assert forall k :: |s| - n <= k < |s| - 1 ==> s[k] == init[k];
      n
  }

  /** `split_author_names`: the value with leading and trailing whitespace
      removed (`value.strip()`); no splitting into several names happens. */
  function SplitAuthorNames(value: string): string {
    var i := LeadingSpace(value);
    if i == |value| then []
    else
      var t := TrailingSpace(value);
      assert |value| - t > i;
      value[i..|value| - t]
  }

  /** What `strip()` returns: a slice of the value with only whitespace
      around it and none at its ends. */
  lemma SplitAuthorNamesStrips(value: string)
    ensures exists i, j :: 0 <= i <= j <= |value| && SplitAuthorNames(value) == value[i..j]
                           && AllSpace(value[..i]) && AllSpace(value[j..])
    ensures Trimmed(SplitAuthorNames(value))
  {
    var i := LeadingSpace(value);
    if i == |value| {
      assert value[..i] == value && value[i..] == [] && value[i..i] == [];
    } else {
      var t := TrailingSpace(value);
      var j := |value| - t;
      assert value[i..j][0] == value[i];
      assert value[i..j][j - i - 1] == value[|value| - 1 - t];
    }
  }

  /** The characterisation in SplitAuthorNamesStrips is exact: any slice
      with only whitespace around it and none at its ends is the stripped value. */
  lemma StripIsUnique(value: string, i: nat, j: nat)
    requires i <= j <= |value|
    requires AllSpace(value[..i]) && AllSpace(value[j..]) && Trimmed(value[i..j])
    ensures SplitAuthorNames(value) == value[i..j]
  {
    var lead := LeadingSpace(value);
    var trail := TrailingSpace(value);
    if i == j {
      forall k | 0 <= k < |value| ensures IsSpace(value[k]) {
        if k < i { assert value[..i][k] == value[k]; } else { assert value[j..][k - j] == value[k]; }
      }
    } else {
      assert value[i..j][0] == value[i];
      assert value[i..j][j - i - 1] == value[j - 1];
      assert lead == i;
      assert |value| - trail == j;
    }
  }

  /** Stripping twice is stripping once. */
  lemma StripIsIdempotent(value: string)
    ensures SplitAuthorNames(SplitAuthorNames(value)) == SplitAuthorNames(value)
  {
    var r := SplitAuthorNames(value);
    SplitAuthorNamesStrips(value);
    assert r[..0] == [] && r[|r|..] == [] && r[0..|r|] == r;
    StripIsUnique(r, 0, |r|);
  }

  /** One stripped name per matched node text, in node order. */
  function CssNames(texts: seq<string>): (names: seq<string>)
    ensures |names| == |texts|
    ensures forall k :: 0 <= k < |texts| ==> names[k] == SplitAuthorNames(texts[k])
  {
    if texts == [] then []
    else [SplitAuthorNames(texts[0])] + CssNames(texts[1..])
  }

  /** A CSS engine: the text content of every node the selector matches. */
  type CssEngine = (Tree, string) -> seq<string>

  /** An XPath engine: the values an XPath expression selects. */
  type XPathEngine = (Tree, string) -> seq<string>

  /** `extract_with_css_selector`: selects the nodes with the parser's
      `authors_selector` and collects each node's stripped text. */
  method ExtractWithCssSelector(tree: Tree, html: string, parser: Parser, select: CssEngine)
      returns (names: seq<string>)
    requires parser.cls.mixin.CssSelectorMixin? && parser.GetAuthorsSelector().Some?
    ensures var texts := select(tree, parser.GetAuthorsSelector().value);
            |names| == |texts| && forall k :: 0 <= k < |texts| ==> names[k] == SplitAuthorNames(texts[k])
    ensures names == CssSelectorExtractor(select)(tree, html, parser)
  {
    var nodes := select(tree, parser.GetAuthorsSelector().value);
    names := [];
    for i := 0 to |nodes|
      invariant |names| == i
      invariant forall k :: 0 <= k < i ==> names[k] == SplitAuthorNames(nodes[k])
    {
      names := names + [SplitAuthorNames(nodes[i])];
    }
  }

  /** `extract_with_css_selector` as an extractor value for a parser's list. */
  function CssSelectorExtractor(select: CssEngine): Extractor
  {
    (tree: Tree, html: string, parser: Parser) =>
      if parser.cls.mixin.CssSelectorMixin? && parser.GetAuthorsSelector().Some?
      then CssNames(select(tree, parser.GetAuthorsSelector().value))
      else []
  }

  const MetaAuthorXPath: string := "//meta[@name=\"author\"]/@content"
  const OpenGraphArticleAuthorXPath: string := "//meta[@property=\"article:author\"]/@content"

  /** `extract_from_meta_author_tag`: the `content` of every `<meta name="author">`. */
  function MetaAuthorExtractor(xpath: XPathEngine): Extractor
  {
    (tree: Tree, html: string, parser: Parser) => xpath(tree, MetaAuthorXPath)
  }

  /** `extract_from_opengraph_article_author_tag`: the `content` of every
      `<meta property="article:author">`. */
  function OpenGraphArticleAuthorExtractor(xpath: XPathEngine): Extractor
  {
    (tree: Tree, html: string, parser: Parser) => xpath(tree, OpenGraphArticleAuthorXPath)
  }

  /** The CSS extractor returns, for a parser with a selector, the stripped
      text of each node the selector matches and nothing else. */
  lemma CssSelectorExtractorSelects(select: CssEngine, tree: Tree, html: string, parser: Parser)
    requires parser.cls.mixin.CssSelectorMixin? && parser.GetAuthorsSelector().Some?
    ensures var names := CssSelectorExtractor(select)(tree, html, parser);
            var texts := select(tree, parser.GetAuthorsSelector().value);
            |names| == |texts| && forall k :: 0 <= k < |texts| ==> names[k] == SplitAuthorNames(texts[k])
  {
  }

  /** The meta-tag extractors return exactly what their XPath expression
      selects, whatever the raw HTML and the parser. */
  lemma MetaExtractorsQuery(xpath: XPathEngine, tree: Tree, html: string, parser: Parser)
    ensures MetaAuthorExtractor(xpath)(tree, html, parser) == xpath(tree, MetaAuthorXPath)
    ensures OpenGraphArticleAuthorExtractor(xpath)(tree, html, parser) == xpath(tree, OpenGraphArticleAuthorXPath)
  {
  }

  /** A CSS-capable parser whose only extractor is the CSS one extracts
      exactly the stripped texts of the matched nodes. */
  lemma CssParserExtractsNodeTexts(parser: Parser, select: CssEngine, tree: Tree, html: string)
    requires parser.GetBylineExtractors() == [CssSelectorExtractor(select)]
    requires parser.cls.mixin.CssSelectorMixin? && parser.GetAuthorsSelector().Some?
    ensures FirstNonEmpty(parser.GetBylineExtractors(), tree, html, parser)
         == CssNames(select(tree, parser.GetAuthorsSelector().value))
  {
    SingleExtractor(CssSelectorExtractor(select), tree, html, parser);
  }

  /** When the meta-author tag is missing but the OpenGraph one is present,
      the OpenGraph names are returned; when both are missing, nothing is. */
  lemma {:induction false} MetaThenOpenGraph(parser: Parser, xpath: XPathEngine, tree: Tree, html: string)
    requires xpath(tree, MetaAuthorXPath) == []
    ensures FirstNonEmpty([MetaAuthorExtractor(xpath), OpenGraphArticleAuthorExtractor(xpath)], tree, html, parser)
         == xpath(tree, OpenGraphArticleAuthorXPath)
  {
    var extractors := [MetaAuthorExtractor(xpath), OpenGraphArticleAuthorExtractor(xpath)];
    FirstNonEmptyAppend([extractors[0]], [extractors[1]], tree, html, parser);
    assert extractors == [extractors[0]] + [extractors[1]];
  }
}
