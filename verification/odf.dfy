/**
 * The document-node model that stands in for the lpod element classes,
 * together with the failure datatypes the converter's exceptions map to.
 *
 * An element is a kind (its tag and attributes) plus an ordered list of
 * children, as in the XML tree that lpod builds. A text frame is a
 * `Frame` element whose single child is a `TextBox` holding the frame's
 * content; an image frame is a `Frame` whose single child is an `Image`.
 */
module Odf {

  datatype Option<+T> = None | Some(value: T)

  datatype Result<+T, +E> = Success(value: T) | Failure(error: E)

  /** The Python exceptions that the modelled code can raise. */
  datatype Error =
    | IndexError                         // `xs[0]` on an empty list
    | AttributeError                     // `None.parent` in the token-category walk
    | ZeroDivisionError                  // an image whose probed height is zero
    | UnsupportedHeadingLevel(level: int)

  /** The `presentation:class` of a frame. */
  datatype Role = Title | Outline | Graphic

  /** A (width, height) size or an (x, y) position, as the strings lpod writes. */
  datatype Pair = Pair(x: string, y: string)

  datatype Kind =
    | Page(name: string, master: string, layout: string)
    | Frame(role: Role, frameStyle: string, size: Pair, pos: Pair)
    | TextBox
    | Image(href: string, title: Option<string>, description: Option<string>)
    | Para(paraStyle: Option<string>)
    | Span(spanStyle: Option<string>, text: string)
    | Link(href: string, text: string, title: Option<string>)
    | ListItem
    | List(listStyle: string)
    | LineBreak
    | Spaces(count: nat)
    | Tab
    | PlainText(text: string)   // a string handed to lpod as element content

  datatype Element = Element(kind: Kind, children: seq<Element>)

  /** A childless element. */
  function Leaf(k: Kind): Element { Element(k, []) }

  /** `odf_create_element('text:span')` followed by `set_text(t)`. */
  function TextSpan(t: string): Element { Leaf(Span(None, t)) }

  /** The inline elements that `wrap_spans` collects into paragraphs. */
  predicate IsInline(e: Element) { e.kind.Span? || e.kind.Link? }

  predicate IsPage(e: Element) { e.kind.Page? }

  predicate IsFrame(e: Element) { e.kind.Frame? }

  predicate IsOutlineFrame(e: Element) { e.kind.Frame? && e.kind.role == Outline }

  /** `odf_create_text_frame(content, presentation_style, size, position, presentation_class)`. */
  function TextFrame(role: Role, style: string, size: Pair, pos: Pair, content: seq<Element>): (f: Element)
    ensures IsFrame(f) && f.kind.role == role && |f.children| == 1
    ensures f.children[0] == Element(TextBox, content)
  {
    Element(Frame(role, style, size, pos), [Element(TextBox, content)])
  }

  /** `elem.append(child)` for each child in turn. */
  function AppendChildren(e: Element, extra: seq<Element>): (r: Element)
    ensures r.kind == e.kind && r.children == e.children + extra
  {
    Element(e.kind, e.children + extra)
  }

  function RepeatSpace(n: nat): (s: string)
    ensures |s| == n && forall i :: 0 <= i < n ==> s[i] == ' '
  {
    if n == 0 then "" else RepeatSpace(n - 1) + " "
  }

  /** The characters an element contributes of its own, before its children. */
  function OwnText(k: Kind): string
  {
    match k
    case Span(_, t) => t
    case Link(_, t, _) => t
    case PlainText(t) => t
    case Spaces(n) => RepeatSpace(n)
    case Tab => "\t"
    case LineBreak => "\n"
    case _ => ""
  }

  /** The text a reader sees in an element tree, whitespace markers expanded. */
  function Content(e: Element): string
  {
    OwnText(e.kind) + ContentSeq(e.children)
  }

  function ContentSeq(es: seq<Element>): string
  {
    if es == [] then "" else Content(es[0]) + ContentSeq(es[1..])
  }

  /** An element reads as its own text followed by its children's. */
  lemma ElementContent(k: Kind, children: seq<Element>)
    ensures Content(Element(k, children)) == OwnText(k) + ContentSeq(children)
    ensures OwnText(k) == "" ==> Content(Element(k, children)) == ContentSeq(children)
    ensures children == [] ==> Content(Element(k, children)) == OwnText(k)
  {
    assert OwnText(k) + "" == OwnText(k);
    assert "" + ContentSeq(children) == ContentSeq(children);
  }

  lemma ContentSeqOne(e: Element)
    ensures ContentSeq([e]) == Content(e)
  {
    assert [e][1..] == [];
    assert Content(e) + "" == Content(e);
  }

  lemma ContentSeqSnoc(es: seq<Element>, e: Element)
    ensures ContentSeq(es + [e]) == ContentSeq(es) + Content(e)
  {
    ContentSeqAppend(es, [e]);
    ContentSeqOne(e);
  }

  lemma SplitLastElement(es: seq<Element>)
    requires es != []
    ensures es == es[..|es| - 1] + [es[|es| - 1]]
  {
  }

  lemma {:induction false} ContentSeqAppend(a: seq<Element>, b: seq<Element>)
    ensures ContentSeq(a + b) == ContentSeq(a) + ContentSeq(b)
  {
    if a == [] {
      assert a + b == b;
    } else {
      assert (a + b)[1..] == a[1..] + b;
      ContentSeqAppend(a[1..], b);
    }
  }

  // ---------------------------------------------------------------------------
  // Decimal formatting, for "%d" in image names and "%dcm" in image geometry.

  predicate IsDigit(c: char) { '0' <= c <= '9' }

  function Digit(d: nat): (c: char)
    requires d < 10
    ensures IsDigit(c) && c as int - '0' as int == d
  {
    (d + '0' as int) as char
  }

  /** The number a string of decimal digits denotes, most significant first. */
  function DigitsValue(s: string): int
  {
    if s == [] then 0 else 10 * DigitsValue(s[..|s| - 1]) + (s[|s| - 1] as int - '0' as int)
  }

  /** Python's `'%d' % n` for a non-negative `n`. */
  function Decimal(n: nat): (s: string)
    ensures |s| >= 1 && forall i :: 0 <= i < |s| ==> IsDigit(s[i])
    ensures DigitsValue(s) == n
    ensures n >= 10 <==> |s| >= 2
    ensures |s| >= 2 ==> s[0] != '0'
  {
    if n < 10 then [Digit(n)]
    else
      var p := Decimal(n / 10);
      assert (p + [Digit(n % 10)])[..|p|] == p;
      p + [Digit(n % 10)]
  }

  /** Distinct numbers print differently, so numbered names never collide. */
  lemma DecimalInjective(n: nat, m: nat)
    requires Decimal(n) == Decimal(m)
    ensures n == m
  {
  }

  /** `'%dcm' % n`, the length unit the image frame is laid out in. */
  function Cm(n: nat): string { Decimal(n) + "cm" }
}
