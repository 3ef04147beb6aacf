/**
 * The `ODFRenderer` callbacks of odpdown.py (odpdown.py:392-751): each
 * markdown event becomes a short list of document nodes, wrapped in a
 * partial tree that carries the outline geometry. The callbacks that only
 * build nodes are functions of their arguments (a partial-tree argument is
 * given by its element list, `text.get()`); the image callback changes the
 * renderer's state (its image counter and the document's manifest) and is
 * a method of the `Renderer` class.
 */
module Rendering {
  import opened Odf
  import opened Whitespace
  import opened SpanWrap
  import opened PartialTrees
  import opened Formatting

  /** The slide geometry and master pages a renderer lays slides out with. */
  datatype Metrics = Metrics(
    breakMaster: string, breakheaderSize: Pair, breakheaderPosition: Pair,
    contentMaster: string, headerSize: Pair, headerPosition: Pair,
    outlineSize: Pair, outlinePosition: Pair)

  /** The constructor's optional arguments; `None` takes the default. */
  datatype MetricOptions = MetricOptions(
    breakMaster: Option<string>, breakheaderSize: Option<Pair>, breakheaderPosition: Option<Pair>,
    contentMaster: Option<string>, headerSize: Option<Pair>, headerPosition: Option<Pair>,
    outlineSize: Option<Pair>, outlinePosition: Option<Pair>)

  function OrElse<T>(o: Option<T>, d: T): T { if o.Some? then o.value else d }

  /** odpdown.py:422-437: every unset option takes its default. */
  function ChooseMetrics(o: MetricOptions): Metrics
  {
    Metrics(
      OrElse(o.breakMaster, "Default"),
      OrElse(o.breakheaderSize, Pair("20cm", "3cm")),
      OrElse(o.breakheaderPosition, Pair("2cm", "8cm")),
      OrElse(o.contentMaster, "Default"),
      OrElse(o.headerSize, Pair("20cm", "3cm")),
      OrElse(o.headerPosition, Pair("2cm", "0.5cm")),
      OrElse(o.outlineSize, Pair("22cm", "12cm")),
      OrElse(o.outlinePosition, Pair("2cm", "4cm")))
  }

  // ---------------------------------------------------------------------------
  // Headers (odpdown.py:544-579)

  const BreakTitleStyle: string := "md2odp-BreakTitleText"
  const TitleStyle: string := "md2odp-TitleText"

  /** A level-1 header opens a section-break slide, a level-2 header a content slide. */
  function Header(m: Metrics, text: seq<Element>, level: int): Result<Element, Error>
  {
    if level == 1 then
      Success(Element(Page(ContentSeq(text), m.breakMaster, "AL3T19"),
        [TextFrame(Title, BreakTitleStyle, m.breakheaderSize, m.breakheaderPosition, Wrapped(text))]))
    else if level == 2 then
      Success(Element(Page(ContentSeq(text), m.contentMaster, "AL3T1"),
        [TextFrame(Title, TitleStyle, m.headerSize, m.headerPosition, Wrapped(text))]))
    else Failure(UnsupportedHeadingLevel(level))
  }

  /**
   * Only levels 1 and 2 are supported; each gives one slide, named by the
   * heading text, on the master and with the geometry of its level, holding
   * exactly one title frame whose text is the heading text.
   */
  lemma HeaderSpec(m: Metrics, text: seq<Element>, level: int)
    ensures Header(m, text, level).Success? <==> level == 1 || level == 2
    ensures Header(m, text, level).Failure? ==> Header(m, text, level).error == UnsupportedHeadingLevel(level)
    ensures Header(m, text, level).Success? ==>
      var p := Header(m, text, level).value;
      && IsPage(p) && p.kind.name == ContentSeq(text)
      && p.kind.master == (if level == 1 then m.breakMaster else m.contentMaster)
      && |p.children| == 1 && IsFrame(p.children[0]) && p.children[0].kind.role == Title
      && p.children[0].kind.size == (if level == 1 then m.breakheaderSize else m.headerSize)
      && p.children[0].kind.pos == (if level == 1 then m.breakheaderPosition else m.headerPosition)
      && Content(p.children[0]) == ContentSeq(text)
  {
    if level == 1 || level == 2 {
      var p := Header(m, text, level).value;
      var f := p.children[0];
      WrappedContent(text);
      assert ContentSeq(f.children) == Content(f.children[0]);
    }
  }

  // ---------------------------------------------------------------------------
  // Block and inline callbacks

  /**
   * `paragraph` (odpdown.py:615-626): an image frame passes through as it
   * is; anything else is wrapped into one plain span. `text.get()[0]` raises
   * on an empty paragraph.
   */
  function Paragraph(text: seq<Element>): Result<seq<Element>, Error>
  {
    if text == [] then Failure(IndexError)
    else if IsFrame(text[0]) then Success(text)
    else Success([Element(Span(None, ""), text)])
  }

  /** `list_item` (odpdown.py:601-605): one list item holding the wrapped content. */
  function ListItemNode(text: seq<Element>): Element
  {
    Element(ListItem, Wrapped(text))
  }

  /** `list` (odpdown.py:607-613): "L1" for an ordered list, the cloned outline list style otherwise. */
  function ListNode(body: seq<Element>, ordered: bool): Element
  {
    Element(List(if ordered then "L1" else "OutlineListStyle"), body)
  }

  /** `block_quote` (odpdown.py:581-600): the content between typographic quote marks. */
  function BlockQuote(text: seq<Element>): Element
  {
    Element(Para(Some("md2odp-ParagraphQuoteStyle")),
      [TextSpan("“"), Element(Span(None, ""), text), TextSpan("”")])
  }

  /** `emphasis` (odpdown.py:669-675). */
  function Emphasis(text: seq<Element>): Element
  {
    Element(Span(Some("md2odp-TextEmphasisStyle"), ""), text)
  }

  /** `double_emphasis` (odpdown.py:661-667). */
  function DoubleEmphasis(text: seq<Element>): Element
  {
    Element(Span(Some("md2odp-TextDoubleEmphasisStyle"), ""), text)
  }

  /** The argument of `codespan`: a string, or a partial tree's elements. */
  datatype CodeText = Chars(s: string) | Nodes(es: seq<Element>)

  /** `codespan` (odpdown.py:650-659). */
  function Codespan(text: CodeText): Element
  {
    match text
    case Chars(s) => Leaf(Span(Some("md2odp-TextCodeStyle"), s))
    case Nodes(es) => Element(Span(Some("md2odp-TextCodeStyle"), ""), es)
  }

  /** `autolink` (odpdown.py:637-642): an e-mail address links to "mailto:" plus itself. */
  function Autolink(link: string, isEmail: bool): Element
  {
    Leaf(Link(if isEmail then "mailto:" + link else link, link, None))
  }

  /**
   * `link` (odpdown.py:644-648): the link text is the own text of the first
   * content element, and the title goes through `unicode()`, which turns a
   * missing title into the string "None".
   */
  function LinkNode(link: string, title: Option<string>, content: seq<Element>): Result<Element, Error>
  {
    if content == [] then Failure(IndexError)
    else Success(Leaf(Link(link, OwnText(content[0].kind), Some(if title.Some? then title.value else "None"))))
  }

  /** `linebreak` (odpdown.py:740-742). */
  function Linebreak(): Element { Leaf(LineBreak) }

  /** The plain branch of `block_code` (odpdown.py:533-540): whitespace pieces, literals as plain spans. */
  function PlainCode(code: string): seq<Element>
  {
    FlushPieces([], WhitespacePieces(code))
  }

  /** A plain code block reads exactly as the code, every space, tab and newline kept. */
  lemma PlainCodeText(code: string)
    ensures ContentSeq(PlainCode(code)) == code
  {
    FlushPiecesText([], WhitespacePieces(code));
    WhitespaceRoundTrip(code);
  }

  /** A list item reads as its content: wrapping runs into paragraphs adds no text. */
  lemma ListItemText(text: seq<Element>)
    ensures Content(ListItemNode(text)) == ContentSeq(text)
  {
    ElementContent(ListItem, Wrapped(text));
    WrappedContent(text);
  }

  /** A block quote reads as its content between the two quote marks. */
  lemma BlockQuoteText(text: seq<Element>)
    ensures Content(BlockQuote(text)) == "“" + ContentSeq(text) + "”"
  {
    var open, body, close := TextSpan("“"), Element(Span(None, ""), text), TextSpan("”");
    ContentSeqThree(open, body, close);
    ElementContent(Para(Some("md2odp-ParagraphQuoteStyle")), [open, body, close]);
    ElementContent(Span(None, ""), text);
    ElementContent(Span(None, "“"), []);
    ElementContent(Span(None, "”"), []);
  }

  lemma ContentSeqThree(a: Element, b: Element, c: Element)
    ensures ContentSeq([a, b, c]) == Content(a) + Content(b) + Content(c)
  {
    assert [a, b, c][1..] == [b, c] && [b, c][1..] == [c];
    assert ContentSeq([c]) == Content(c);
    assert ContentSeq([b, c]) == Content(b) + Content(c);
  }

  /** An autolink shows the address and links to it, behind "mailto:" for an e-mail address. */
  lemma AutolinkSpec(link: string, isEmail: bool)
    ensures var a := Autolink(link, isEmail);
      a.kind.Link? && Content(a) == link && IsInline(a)
      && a.kind.href == (if isEmail then "mailto:" + link else link)
  {
  }

  /** Emphasis, strong emphasis and inline code are single styled spans that read as their content. */
  lemma InlineStylesSpec(text: seq<Element>, code: CodeText)
    ensures var e := Emphasis(text);
      IsInline(e) && e.kind.spanStyle == Some("md2odp-TextEmphasisStyle") && Content(e) == ContentSeq(text)
    ensures var d := DoubleEmphasis(text);
      IsInline(d) && d.kind.spanStyle == Some("md2odp-TextDoubleEmphasisStyle") && Content(d) == ContentSeq(text)
    ensures var c := Codespan(code);
      IsInline(c) && c.kind.spanStyle == Some("md2odp-TextCodeStyle")
      && Content(c) == (if code.Chars? then code.s else ContentSeq(code.es))
  {
    if code.Chars? {
      assert ContentSeq(Codespan(code).children) == "";
    }
  }

  /** A list keeps its items in order and is numbered exactly when ordered. */
  lemma ListSpec(body: seq<Element>, ordered: bool)
    ensures var l := ListNode(body, ordered);
      l.children == body && Content(l) == ContentSeq(body)
      && (l.kind.listStyle == "L1" <==> ordered)
  {
  }

  /**
   * A link takes its text from the first content element and fails on empty
   * content; its title is always present, "None" when none was given.
   */
  lemma LinkSpec(link: string, title: Option<string>, content: seq<Element>)
    ensures LinkNode(link, title, content).Failure? <==> content == []
    ensures content != [] ==>
      var l := LinkNode(link, title, content).value;
      IsInline(l) && l.kind.href == link && Content(l) == OwnText(content[0].kind)
      && l.kind.title == Some(if title.None? then "None" else title.value)
  {
  }

  /**
   * A paragraph of an image frame passes through unchanged; any other
   * paragraph becomes one inline span with the same text; an empty one fails.
   */
  lemma ParagraphSpec(text: seq<Element>)
    ensures Paragraph(text).Failure? <==> text == []
    ensures text != [] && IsFrame(text[0]) ==> Paragraph(text) == Success(text)
    ensures text != [] && !IsFrame(text[0]) ==>
      var r := Paragraph(text).value;
      |r| == 1 && IsInline(r[0]) && ContentSeq(r) == ContentSeq(text)
  {
    if text != [] && !IsFrame(text[0]) {
      var r := Paragraph(text).value;
      assert ContentSeq(r) == Content(r[0]);
    }
  }

  // ---------------------------------------------------------------------------
  // Image geometry (odpdown.py:707-720)

  /** An image's size and position on the slide, in whole centimetres. */
  datatype Fit = Fit(width: nat, height: nat, x: nat, y: nat)

  /**
   * Scales a `w` by `h` image into the 22 by 12 box at (2, 4): a wider
   * image fills the width and is centred vertically, any other fills the
   * height and is centred horizontally. The ratio comparison and the
   * truncations are the source's float arithmetic done exactly.
   */
  function AspectFit(w: nat, h: nat): Fit
    requires h > 0
  {
    if 12 * w > 22 * h then
      var ih := (22 * h) / w;
      Fit(22, ih, 2, 4 + (12 - ih) / 2)
    else
      var iw := (12 * w) / h;
      Fit(iw, 12, 2 + (22 - iw) / 2, 4)
  }

  /**
   * An image wider than the box's 22:12 ratio fills the width and comes out
   * lower than the box; any other fills the height. The image fits the box,
   * is centred along the other side by halving the slack, and keeps its
   * aspect ratio up to the truncation of the scaled side.
   */
  lemma AspectFitSpec(w: nat, h: nat)
    requires h > 0
    ensures 12 * w > 22 * h ==> AspectFit(w, h).width == 22 && AspectFit(w, h).height < 12
    ensures 12 * w <= 22 * h ==> AspectFit(w, h).height == 12
    ensures var f := AspectFit(w, h);
      && f.width <= 22 && f.height <= 12 && (f.width == 22 || f.height == 12)
      && f.x == 2 + (22 - f.width) / 2 && f.y == 4 + (12 - f.height) / 2
      && (f.width == 22 && f.height < 12 ==> f.height * w <= 22 * h < (f.height + 1) * w)
      && (f.height == 12 ==> f.width * h <= 12 * w < (f.width + 1) * h)
  {
    if 12 * w > 22 * h {
      FitScaled(22 * h, w, 12);
    } else {
      FitScaled(12 * w, h, 22);
      if (12 * w) / h == 22 {
        assert 22 * h <= 12 * w;
      }
    }
  }

  /** Floor division by `d` of a value below `bound * d` is below `bound`, and within one unit. */
  lemma FitScaled(n: nat, d: nat, bound: nat)
    requires d > 0 && n <= bound * d
    ensures (n / d) * d <= n < (n / d + 1) * d
    ensures n / d <= bound && (n < bound * d ==> n / d < bound)
  {
    var q := n / d;
    assert q * d + n % d == n;
    if q > bound {
      MulMonotone(bound + 1, q, d);
    }
  }

  lemma MulMonotone(a: nat, b: nat, c: nat)
    requires a <= b
    ensures a * c <= b * c
  {
  }

  /** An image whose size cannot be probed is laid out as 100 by 100: a 12 cm square at (7, 4). */
  lemma AspectFitFallback()
    ensures AspectFit(100, 100) == Fit(12, 12, 7, 4)
  {
  }

  // ---------------------------------------------------------------------------
  // Image naming (odpdown.py:679-683)

  predicate StartsWith(s: string, prefix: string) { |prefix| <= |s| && s[..|prefix|] == prefix }

  /** The part of a URL path after its last '.', or the whole path when it has none (`split('.')[-1]`). */
  function AfterLastDot(path: string): (ext: string)
    ensures '.' !in ext && |ext| <= |path| && path[|path| - |ext|..] == ext
    ensures |ext| < |path| ==> path[|path| - |ext| - 1] == '.'
  {
    if path == [] then []
    else if path[|path| - 1] == '.' then []
    else
      var rest := AfterLastDot(path[..|path| - 1]);
      assert path[..|path| - 1][|path| - 1 - |rest|..] == path[|path| - 1 - |rest|..|path| - 1];
      rest + [path[|path| - 1]]
  }

  const ImagePrefix: string := "odpdown_image_"
  const PicturesDir: string := "Pictures/"

  /** `'Pictures/%s%d.%s' % (image_prefix, image_entry_id, fragment_ext)`. */
  function ImageName(id: nat, ext: string): string
  {
    PicturesDir + ImagePrefix + Decimal(id) + "." + ext
  }

  /** Names for different counter values never collide, whatever their extensions. */
  lemma ImageNameInjective(i: nat, e: string, j: nat, f: string)
    requires ImageName(i, e) == ImageName(j, f)
    ensures i == j
  {
    var p := |PicturesDir + ImagePrefix|;
    var a, b := Decimal(i) + "." + e, Decimal(j) + "." + f;
    assert ImageName(i, e)[p..] == a && ImageName(j, f)[p..] == b;
    var di, dj := Decimal(i), Decimal(j);
    assert a[|di|] == '.' && b[|dj|] == '.';
    assert |di| == |dj|;
    assert di == a[..|di|] == b[..|dj|] == dj;
    DecimalInjective(i, j);
  }

  /** The images a manifest holds under the given name prefix. */
  function PrefixedPaths(paths: set<string>, prefix: string): set<string>
  {
    set p | p in paths && StartsWith(p, prefix)
  }

  /** The starting counter as written (odpdown.py:414-417): paths that start with "odpdown_image_". */
  function ImageCountAsWritten(paths: set<string>): nat
  {
    |PrefixedPaths(paths, ImagePrefix)|
  }

  /** The starting counter as intended: the images stored under "Pictures/odpdown_image_". */
  function ImageCount(paths: set<string>): nat
  {
    |PrefixedPaths(paths, PicturesDir + ImagePrefix)|
  }

  /**
   * The counter as written never sees an image the renderer stored: adding
   * one leaves it unchanged, while the intended count goes up by one.
   */
  lemma StoredImageCounted(paths: set<string>, id: nat, ext: string)
    requires ImageName(id, ext) !in paths
    ensures ImageCountAsWritten(paths + {ImageName(id, ext)}) == ImageCountAsWritten(paths)
    ensures ImageCount(paths + {ImageName(id, ext)}) == ImageCount(paths) + 1
  {
    var n := ImageName(id, ext);
    assert n[0] == 'P' && ImagePrefix[0] == 'o';
    assert !StartsWith(n, ImagePrefix);
    assert PrefixedPaths(paths + {n}, ImagePrefix) == PrefixedPaths(paths, ImagePrefix);
    assert StartsWith(n, PicturesDir + ImagePrefix);
    assert PrefixedPaths(paths + {n}, PicturesDir + ImagePrefix) == PrefixedPaths(paths, PicturesDir + ImagePrefix) + {n};
  }

  /**
   * A document that already holds the first image of an earlier run gets
   * the same name again from the counter as written: the new image
   * overwrites the old one.
   */
  lemma AsWrittenCounterOverwrites()
    ensures var paths := {ImageName(0, "png")};
      ImageCountAsWritten(paths) == 0 && ImageName(ImageCountAsWritten(paths), "png") in paths
      && ImageCount(paths) == 1 && ImageName(ImageCount(paths), "png") !in paths
  {
    var paths := {ImageName(0, "png")};
    StoredImageCounted({}, 0, "png");
    assert paths == {} + {ImageName(0, "png")};
    if ImageName(1, "png") in paths {
      ImageNameInjective(1, "png", 0, "png");
    }
  }

  /** The name of the image in a link such as "cramtest/test.svg" (query already split off by `urlparse`). */
  lemma FirstSvgName()
    ensures ImageName(0, AfterLastDot("cramtest/test.svg")) == "Pictures/odpdown_image_0.svg"
  {
    SvgExtension();
    FirstImageName("svg");
    assert "Pictures/odpdown_image_0." + "svg" == "Pictures/odpdown_image_0.svg";
  }

  lemma SvgExtension()
    ensures AfterLastDot("cramtest/test.svg") == "svg"
  {
    assert "cramtest/test.svg" == "cramtest/test" + ['.'] + "svg";
    AfterLastDotOf("cramtest/test", "svg");
  }

  lemma FirstImageName(ext: string)
    ensures ImageName(0, ext) == "Pictures/odpdown_image_0." + ext
  {
    assert Decimal(0) == "0";
  }

  /** Whatever comes before the last '.', the extension is what follows it. */
  lemma AfterLastDotOf(stem: string, ext: string)
    requires '.' !in ext
    ensures AfterLastDot(stem + ['.'] + ext) == ext
  {
    var path := stem + ['.'] + ext;
    var r := AfterLastDot(path);
    assert path[|stem|] == '.';
    assert path[|path| - |ext|..] == ext;
  }

  /** Every stored odpdown image is named with a counter value below `id`. */
  ghost predicate NumberedBelow(paths: set<string>, id: nat)
  {
    forall p :: p in paths && StartsWith(p, PicturesDir + ImagePrefix) ==>
      exists i: nat, e: string :: i < id && p == ImageName(i, e)
  }

  /** While every stored image is numbered below the counter, the next name is a fresh one. */
  lemma NextNameFresh(paths: set<string>, id: nat, ext: string)
    requires NumberedBelow(paths, id)
    ensures ImageName(id, ext) !in paths
  {
    if ImageName(id, ext) in paths {
      var n := ImageName(id, ext);
      assert StartsWith(n, PicturesDir + ImagePrefix);
      var i: nat, e: string :| i < id && n == ImageName(i, e);
      ImageNameInjective(i, e, id, ext);
    }
  }

  /** The probed width and height, or 100 by 100 when probing failed (odpdown.py:696-705). */
  function ProbedSize(probed: Option<(nat, nat)>): (nat, nat)
  {
    if probed.Some? then probed.value else (100, 100)
  }

  /** The image frame `odf_create_image_frame` builds, with the alt text as its description. */
  function ImageFrame(name: string, f: Fit, title: Option<string>, alt: Option<string>): Element
  {
    Element(Frame(Graphic, "md2odp-ImageStyle", Pair(Cm(f.width), Cm(f.height)), Pair(Cm(f.x), Cm(f.y))),
      [Leaf(Image(name, title, alt))])
  }

  // ---------------------------------------------------------------------------
  // The renderer object

  class Renderer {
    const metrics: Metrics
    const formatter: Formatter
    /** `image_entry_id`: the number the next embedded image gets. */
    var imageEntryId: nat
    /** The document manifest: stored path to media type. */
    var manifest: map<string, string>
    /** The document's stored parts, by path. */
    var parts: map<string, seq<bv8>>

    /**
     * `__init__` (odpdown.py:396-437, 518), with the starting counter
     * counting the images already stored under "Pictures/odpdown_image_".
     */
    constructor (options: MetricOptions, style: seq<StyleItem>, manifest: map<string, string>, parts: map<string, seq<bv8>>)
      ensures metrics == ChooseMetrics(options) && formatter.styles == Table(style)
      ensures this.manifest == manifest && this.parts == parts
      ensures imageEntryId == ImageCount(manifest.Keys)
    {
      metrics := ChooseMetrics(options);
      formatter := new Formatter(style);
      this.manifest := manifest;
      this.parts := parts;
      imageEntryId := |set p | p in manifest.Keys && StartsWith(p, PicturesDir + ImagePrefix)|;
    }

    /** `ODFPartialTree.from_metrics_provider(elements, self)`. */
    method Tree(elements: seq<Element>) returns (t: PartialTree)
      ensures fresh(t) && t.elements == elements
      ensures t.outlineSize == metrics.outlineSize && t.outlinePosition == metrics.outlinePosition
    {
      t := new PartialTree(elements, metrics.outlineSize, metrics.outlinePosition);
    }

    /**
     * `block_code` (odpdown.py:523-542): a code paragraph; `tokens` is the
     * lexer's token stream when a language is given.
     */
    method BlockCode(code: string, tokens: Option<seq<Token>>) returns (r: Result<Element, Error>)
      ensures tokens.None? ==> r == Success(Element(Para(Some("md2odp-ParagraphCodeStyle")), PlainCode(code)))
      ensures tokens.Some? ==> match FormatResult(formatter.styles, tokens.value)
        case Success(spans) => r == Success(Element(Para(Some("md2odp-ParagraphCodeStyle")), spans))
        case Failure(e) => r == Failure(e)
    {
      if tokens.Some? {
        var spans := formatter.Format(tokens.value);
        if spans.Failure? {
          return Failure(spans.error);
        }
        return Success(Element(Para(Some("md2odp-ParagraphCodeStyle")), spans.value));
      }
      var pieces := HandleWhitespace(code);
      var children: seq<Element> := [];
      for k := 0 to |pieces|
        invariant children == FlushPieces([], pieces[..k])
      {
        var p := pieces[k];
        assert pieces[..k + 1] == pieces[..k] + [p];
        FlushPiecesSnoc([], pieces[..k], p);
        if p.Lit? {
          children := children + [TextSpan(p.text)];
        } else {
          children := children + [MarkerElement(p)];
        }
      }
      assert pieces[..|pieces|] == pieces;
      return Success(Element(Para(Some("md2odp-ParagraphCodeStyle")), children));
    }

    /**
     * `image` (odpdown.py:677-738) once the picture has been fetched and
     * probed: `probed` is its width and height, `None` when probing failed.
     * A zero height fails before anything is stored.
     */
    method Image(path: string, title: Option<string>, alt: Option<string>, probed: Option<(nat, nat)>,
                 mediaType: string, data: seq<bv8>) returns (r: Result<Element, Error>)
      modifies this
      ensures ProbedSize(probed).1 == 0 ==>
        && r == Failure(ZeroDivisionError) && imageEntryId == old(imageEntryId)
        && manifest == old(manifest) && parts == old(parts)
      ensures ProbedSize(probed).1 != 0 ==>
        var name := ImageName(old(imageEntryId), AfterLastDot(path));
        && r == Success(ImageFrame(name, AspectFit(ProbedSize(probed).0, ProbedSize(probed).1), title, alt))
        && manifest == old(manifest)[name := mediaType] && parts == old(parts)[name := data]
        && imageEntryId == old(imageEntryId) + 1
    {
      var name := ImageName(imageEntryId, AfterLastDot(path));
      var size := ProbedSize(probed);
      if size.1 == 0 {
        return Failure(ZeroDivisionError);
      }
      r := Success(ImageFrame(name, AspectFit(size.0, size.1), title, alt));
      manifest := manifest[name := mediaType];
      parts := parts[name := data];
      imageEntryId := imageEntryId + 1;
    }
  }

  /** Storing an image keeps every stored image numbered below the counter, so no image is overwritten. */
  lemma ImageKeepsNumbering(paths: set<string>, id: nat, ext: string)
    requires NumberedBelow(paths, id)
    ensures ImageName(id, ext) !in paths
    ensures NumberedBelow(paths + {ImageName(id, ext)}, id + 1)
  {
    NextNameFresh(paths, id, ext);
    forall p | p in paths + {ImageName(id, ext)} && StartsWith(p, PicturesDir + ImagePrefix)
      ensures exists i: nat, e: string :: i < id + 1 && p == ImageName(i, e)
    {
      if p == ImageName(id, ext) {
        assert id < id + 1 && p == ImageName(id, ext);
      } else {
        var i: nat, e: string :| i < id && p == ImageName(i, e);
        assert i < id + 1;
      }
    }
  }

  /** The pictures one earlier run stored, numbered from 0 with the given extensions. */
  function RunImages(exts: seq<string>): set<string>
  {
    if exts == [] then {} else RunImages(exts[..|exts| - 1]) + {ImageName(|exts| - 1, exts[|exts| - 1])}
  }

  /**
   * Over a document holding an earlier run's pictures, the corrected
   * counter starts right after them and its first name is free, while the
   * counter as written starts again at 0.
   */
  lemma {:induction false} CorrectedCounterResumes(exts: seq<string>, ext: string)
    ensures ImageCount(RunImages(exts)) == |exts| && NumberedBelow(RunImages(exts), |exts|)
    ensures ImageName(|exts|, ext) !in RunImages(exts)
    ensures ImageCountAsWritten(RunImages(exts)) == 0
  {
    if exts == [] {
      assert PrefixedPaths({}, PicturesDir + ImagePrefix) == {};
      assert PrefixedPaths({}, ImagePrefix) == {};
    } else {
      var prev := exts[..|exts| - 1];
      var last := exts[|exts| - 1];
      CorrectedCounterResumes(prev, last);
      StoredImageCounted(RunImages(prev), |prev|, last);
      ImageKeepsNumbering(RunImages(prev), |prev|, last);
    }
    NextNameFresh(RunImages(exts), |exts|, ext);
  }
}
