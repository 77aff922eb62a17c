/**
 * The Markdown sanitiser front end: the DOMPurify configuration installed
 * once with `setConfig`, the cleaning step (remove NUL characters, then
 * trim), and the fixed pipeline clean -> parse Markdown -> sanitise HTML.
 * The Markdown parser (`marked`) and DOMPurify itself are foreign libraries
 * and appear as function parameters.
 */
module Sanitize {
  import opened Text

  const AllowedTags: seq<string> := [
    "h1", "h2", "h3", "h4", "h5", "h6", "blockquote", "p", "a", "ul", "ol", "li",
    "b", "i", "strong", "em", "strike", "code", "hr", "br", "div",
    "table", "thead", "tbody", "tfoot", "tr", "th", "td",
    "pre", "span", "img", "del", "ins", "sup", "sub"
  ]

  const AllowedAttributes: seq<string> := [
    "href", "src", "alt", "title", "class", "width", "height", "target", "rel"
  ]

  const ForbiddenTags: seq<string> := ["script", "style", "iframe", "object", "embed", "form"]

  const ForbiddenAttributes: seq<string> := ["onerror", "onload", "onclick", "style"]

  /** The four lists handed to `setConfig`. */
  datatype PurifyConfig = PurifyConfig(
    allowedTags: seq<string>,
    allowedAttributes: seq<string>,
    forbidTags: seq<string>,
    forbidAttributes: seq<string>)

  const BlogConfig: PurifyConfig := PurifyConfig(AllowedTags, AllowedAttributes, ForbiddenTags, ForbiddenAttributes)

  /** The options of one `sanitize` call: none, or an `ALLOWED_TAGS` override. */
  datatype CallOptions = NoOptions | AllowedTagsOverride(tags: seq<string>)

  /** DOMPurify's `sanitize`, given the configuration installed by
      `setConfig`, the options of the call and the HTML. */
  type Purifier = (PurifyConfig, CallOptions, string) -> string

  /** `marked.parse`. */
  type MarkdownParser = string -> string

  /** The argument of `sanitizeMarkdown`, whose type is checked at run time. */
  datatype Input = Text(s: string) | NotAString

  /** The cleaning step: every NUL removed, then surrounding white space trimmed. */
  function Clean(markdown: string): string
  {
    Trim(RemoveChar(markdown, '\0'))
  }

  /** `sanitizeMarkdown`: an empty string for a non-string argument;
      otherwise the cleaned text is parsed and the parser's output sanitised
      with the blog configuration. */
  function SanitizeMarkdown(input: Input, parse: MarkdownParser, purify: Purifier): string
  {
    match input
    case NotAString => ""
    case Text(markdown) => purify(BlogConfig, NoOptions, parse(Clean(markdown)))
  }

  /** `sanitizePlainText`: the text goes to DOMPurify unparsed and uncleaned,
      with the allowed tags overridden by the empty list. */
  function SanitizePlainText(text: string, purify: Purifier): string
  {
    purify(BlogConfig, AllowedTagsOverride([]), text)
  }

  /** The cleaned text holds no NUL character. */
  lemma CleanHasNoNul(markdown: string)
    ensures '\0' !in Clean(markdown)
  {
    var t := RemoveChar(markdown, '\0');
    var i, j := TrimBounds(t);
    assert Clean(markdown) == t[i..j];
  }

  /** The cleaned text neither starts nor ends with white space. */
  lemma CleanIsTrimmed(markdown: string)
    ensures var c := Clean(markdown);
      c == [] || (!IsJsWhitespace(c[0]) && !IsJsWhitespace(c[|c| - 1]))
  {
    var _, _ := TrimBounds(RemoveChar(markdown, '\0'));
  }

  /** Cleaning cleaned text changes nothing. */
  lemma CleanIdempotent(markdown: string)
    ensures Clean(Clean(markdown)) == Clean(markdown)
  {
    CleanHasNoNul(markdown);
    TrimIdempotent(RemoveChar(markdown, '\0'));
  }

  /** NUL characters go before trimming, so white space they hid at the
      edges is trimmed too. */
  lemma CleanRemovesNulThenTrims()
    ensures Clean("\0 x ") == "x"
  {
    assert RemoveChar("\0 x ", '\0') == " x ";
    assert TrimStart(" x ") == "x ";
    assert TrimEnd("x ") == "x";
  }

  /** A non-string argument yields the empty string whatever the parser and
      the sanitiser would do: neither is consulted. */
  lemma NonStringYieldsEmpty(parse1: MarkdownParser, purify1: Purifier, parse2: MarkdownParser, purify2: Purifier)
    ensures SanitizeMarkdown(NotAString, parse1, purify1) == ""
    ensures SanitizeMarkdown(NotAString, parse1, purify1) == SanitizeMarkdown(NotAString, parse2, purify2)
  {
  }

  /** The parser sees only the cleaned text: inputs that clean to the same
      text give the same result, and parsers that agree on the cleaned text
      are indistinguishable. */
  lemma ParserSeesOnlyCleanedText(a: string, b: string, parse1: MarkdownParser, parse2: MarkdownParser, purify: Purifier)
    requires Clean(a) == Clean(b)
    requires parse1(Clean(a)) == parse2(Clean(a))
    ensures SanitizeMarkdown(Text(a), parse1, purify) == SanitizeMarkdown(Text(b), parse2, purify)
  {
  }

  /** The sanitiser sees only the parser's output, with the installed blog
      configuration and no per-call options. */
  lemma SanitiserSeesOnlyParserOutput(markdown: string, parse: MarkdownParser, purify1: Purifier, purify2: Purifier)
    requires purify1(BlogConfig, NoOptions, parse(Clean(markdown))) == purify2(BlogConfig, NoOptions, parse(Clean(markdown)))
    ensures SanitizeMarkdown(Text(markdown), parse, purify1) == SanitizeMarkdown(Text(markdown), parse, purify2)
  {
  }

  /** Plain text reaches DOMPurify raw. A NUL and surrounding white space,
      which the Markdown path cleans away before any parser or sanitiser
      sees the text, still distinguish two plain texts. */
  lemma PlainTextIsNotCleaned(parse: MarkdownParser, purify: Purifier)
    ensures SanitizeMarkdown(Text("\0 x "), parse, purify) == SanitizeMarkdown(Text("x"), parse, purify)
    ensures exists p: Purifier :: SanitizePlainText("\0 x ", p) != SanitizePlainText("x", p)
  {
    PaddedNulCleansToX();
    var echo: Purifier := (c: PurifyConfig, o: CallOptions, s: string) => s;
    assert SanitizePlainText("\0 x ", echo) == "\0 x ";
    assert SanitizePlainText("x", echo) == "x";
    assert |"\0 x "| != |"x"|;
  }

  // The cleaning step of the `PlainTextIsNotCleaned` example.
  lemma PaddedNulCleansToX()
    ensures Clean("\0 x ") == Clean("x")
  {
    CleanRemovesNulThenTrims();
    assert RemoveChar("x", '\0') == "x";
    TrimOfTrimmed("x");
  }

  /** The plain-text call is not the Markdown call: it overrides the allowed
      tags where the Markdown call passes no options, so whatever the parser
      makes of the text, some sanitiser answers the two calls differently. */
  lemma PlainTextOverridesAllowedTags(text: string, parse: MarkdownParser)
    ensures exists p: Purifier :: SanitizePlainText(text, p) != SanitizeMarkdown(Text(text), parse, p)
  {
    var byOptions: Purifier := (c: PurifyConfig, o: CallOptions, s: string) => if o == AllowedTagsOverride([]) then "t" else "";
    assert SanitizePlainText(text, byOptions) == "t";
    assert SanitizeMarkdown(Text(text), parse, byOptions) == "";
  }

  /** The plain-text result depends only on the sanitiser's answer for the
      raw text under the blog configuration with no allowed tags. */
  lemma PlainTextSeesOnlyEmptyTagOverride(text: string, purify1: Purifier, purify2: Purifier)
    requires purify1(BlogConfig, AllowedTagsOverride([]), text) == purify2(BlogConfig, AllowedTagsOverride([]), text)
    ensures SanitizePlainText(text, purify1) == SanitizePlainText(text, purify2)
  {
  }

  /** No tag is both allowed and forbidden; in particular none of `script`,
      `style`, `iframe`, `object`, `embed` and `form` is allowed. */
  lemma TagListsDisjoint()
    ensures forall t :: t in ForbiddenTags ==> t !in AllowedTags
    ensures forall t :: t in AllowedTags ==> t !in ForbiddenTags
  {
    ScriptNotAllowed();
    StyleNotAllowed();
    IframeNotAllowed();
    ObjectNotAllowed();
    EmbedNotAllowed();
    FormNotAllowed();
  }

  // One step of `TagListsDisjoint` per forbidden tag; checked apart, as one
  // proof over the whole list costs more than the resource limit allows.
  lemma ScriptNotAllowed() ensures "script" !in AllowedTags {}
  lemma StyleNotAllowed() ensures "style" !in AllowedTags {}
  lemma IframeNotAllowed() ensures "iframe" !in AllowedTags {}
  lemma ObjectNotAllowed() ensures "object" !in AllowedTags {}
  lemma EmbedNotAllowed() ensures "embed" !in AllowedTags {}
  lemma FormNotAllowed() ensures "form" !in AllowedTags {}

  /** No attribute is both allowed and forbidden; `style` and the event
      handlers `onerror`, `onload` and `onclick` are not allowed. */
  lemma AttributeListsDisjoint()
    ensures forall a :: a in ForbiddenAttributes ==> a !in AllowedAttributes
    ensures forall a :: a in AllowedAttributes ==> a !in ForbiddenAttributes
  {
    assert "onerror" !in AllowedAttributes;
    assert "onload" !in AllowedAttributes;
    assert "onclick" !in AllowedAttributes;
    assert "style" !in AllowedAttributes;
  }
}
