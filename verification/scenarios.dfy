/**
 * Whole-slide behaviour: the header, paragraph and image callbacks glued
 * together the way the markdown parser glues them, for the slide shapes
 * that test.py checks (a heading followed by a paragraph, by two
 * paragraphs, or by an image).
 */
module Scenarios {
  import opened Odf
  import opened SpanWrap
  import opened PartialTrees
  import opened Rendering

  lemma WrapOneInline(x: Element)
    requires IsInline(x)
    ensures Wrapped([x]) == [Element(Para(None), [x])]
  {
    assert [x][..0] == [];
    assert Groups([x]) == [Run([x])];
  }

  lemma WrapOneBlock(x: Element)
    requires !IsInline(x)
    ensures Wrapped([x]) == [x]
  {
    assert [x][..0] == [];
    assert Groups([x]) == [Block(x)];
  }

  /** `Merge` when the tree is one slide and the incoming content does not start another. */
  lemma MergeOnSlide(page: Element, incoming: seq<Element>, size: Pair, pos: Pair)
    requires IsPage(page) && incoming != [] && !IsPage(incoming[0])
    ensures AppendInOutline(page, Wrapped(incoming)).Found? ==>
      Merge([page], incoming, size, pos) == Success([AppendInOutline(page, Wrapped(incoming)).value])
    ensures AppendInOutline(page, Wrapped(incoming)).NotFound? && IsFrame(incoming[0]) ==>
      Merge([page], incoming, size, pos) == Success([AppendChildren(page, incoming)])
    ensures AppendInOutline(page, Wrapped(incoming)).NotFound? && !IsFrame(incoming[0]) ==>
      Merge([page], incoming, size, pos)
        == Success([AppendChildren(page, [TextFrame(Outline, OutlineTextStyle, size, pos, Wrapped(incoming))])])
  {
    var els := [page];
    assert els[|els| - 1] == page;
    assert els[..|els| - 1] == [];
    var r := Merge(els, incoming, size, pos);
    match AppendInOutline(page, Wrapped(incoming))
    case Found(p) =>
      assert r == Success([] + [p]);
      assert [] + [p] == [p];
    case NotFound =>
      if IsFrame(incoming[0]) {
        var q := AppendChildren(page, incoming);
        assert r == Success([] + [q]);
        assert [] + [q] == [q];
      } else {
        var q := AppendChildren(page, [TextFrame(Outline, OutlineTextStyle, size, pos, Wrapped(incoming))]);
        assert r == Success([] + [q]);
        assert [] + [q] == [q];
      }
    case NoTextBox =>
  }

  /** The paragraph of plain text `t` as it lands in an outline text box. */
  function OutlinePara(t: string): Element
  {
    Element(Para(None), [Element(Span(None, ""), [TextSpan(t)])])
  }

  /** The level-2 slide for a heading of plain text `h`. */
  function HeadingSlide(m: Metrics, h: string): Element
  {
    Element(Page(h, m.contentMaster, "AL3T1"),
      [TextFrame(Title, TitleStyle, m.headerSize, m.headerPosition, [Element(Para(None), [TextSpan(h)])])])
  }

  lemma HeadingSlideIsHeader(m: Metrics, h: string)
    ensures Header(m, [TextSpan(h)], 2) == Success(HeadingSlide(m, h))
    ensures !HasOutline(HeadingSlide(m, h))
  {
    WrapOneInline(TextSpan(h));
    assert ContentSeq([TextSpan(h)]) == h;
    var p := HeadingSlide(m, h);
    var frame := p.children[0];
    var box := frame.children[0];
    var para := box.children[0];
    assert !HasOutline(TextSpan(h));
    assert !AnyOutline(para.children);
    assert !HasOutline(para);
    assert !AnyOutline(box.children);
    assert !AnyOutline(frame.children);
    assert !AnyOutline(p.children);
  }

  /**
   * A heading and a paragraph (test.py:87-99): still one slide, holding
   * the title frame and a new outline frame with the paragraph's text.
   */
  lemma HeadingThenParagraph(m: Metrics, h: string, t: string)
    ensures Paragraph([TextSpan(t)]) == Success([Element(Span(None, ""), [TextSpan(t)])])
    ensures Merge([HeadingSlide(m, h)], [Element(Span(None, ""), [TextSpan(t)])], m.outlineSize, m.outlinePosition)
      == Success([AppendChildren(HeadingSlide(m, h),
           [TextFrame(Outline, OutlineTextStyle, m.outlineSize, m.outlinePosition, [OutlinePara(t)])])])
  {
    var page := HeadingSlide(m, h);
    var span := Element(Span(None, ""), [TextSpan(t)]);
    HeadingSlideIsHeader(m, h);
    WrapOneInline(span);
    AppendInOutlineSpec(page, [OutlinePara(t)]);
    MergeOnSlide(page, [span], m.outlineSize, m.outlinePosition);
  }

  /** The slide after a heading and one paragraph. */
  function SlideWithText(m: Metrics, h: string, t: string): Element
  {
    AppendChildren(HeadingSlide(m, h), [TextFrame(Outline, OutlineTextStyle, m.outlineSize, m.outlinePosition, [OutlinePara(t)])])
  }

  lemma FindOutline(m: Metrics, h: string, t: string, extra: seq<Element>)
    ensures AppendInOutline(SlideWithText(m, h, t), extra)
      == Found(Element(SlideWithText(m, h, t).kind,
           [SlideWithText(m, h, t).children[0],
            TextFrame(Outline, OutlineTextStyle, m.outlineSize, m.outlinePosition, [OutlinePara(t)] + extra)]))
  {
    var page := SlideWithText(m, h, t);
    var title := page.children[0];
    var outline := page.children[1];
    HeadingSlideIsHeader(m, h);
    assert !HasOutline(title) by {
      assert HeadingSlide(m, h).children == [title];
      assert !AnyOutline([title]);
    }
    AppendInOutlineSpec(title, extra);
    var box := AppendChildren(outline.children[0], extra);
    assert box == Element(TextBox, [OutlinePara(t)] + extra);
    assert outline.children[1..] == [];
    assert [box] + outline.children[1..] == [box];
    assert AppendInOutline(outline, extra) == Found(TextFrame(Outline, OutlineTextStyle, m.outlineSize, m.outlinePosition, [OutlinePara(t)] + extra));
    assert page.children[1..] == [outline];
    var found := TextFrame(Outline, OutlineTextStyle, m.outlineSize, m.outlinePosition, [OutlinePara(t)] + extra);
    assert page.children[1..][1..] == [];
    assert AppendInOutlineSeq(page.children[1..], extra) == Found([found] + []);
    assert [found] + [] == [found];
    assert AppendInOutlineSeq(page.children, extra) == Found([title] + [found]);
    assert [title] + [found] == [title, found];
  }

  /** A second paragraph under the same heading joins the first in the same outline frame. */
  lemma SecondParagraphJoins(m: Metrics, h: string, t: string, u: string)
    ensures Merge([SlideWithText(m, h, t)], [Element(Span(None, ""), [TextSpan(u)])], m.outlineSize, m.outlinePosition)
      == Success([Element(SlideWithText(m, h, t).kind,
           [SlideWithText(m, h, t).children[0],
            TextFrame(Outline, OutlineTextStyle, m.outlineSize, m.outlinePosition, [OutlinePara(t), OutlinePara(u)])])])
  {
    var span := Element(Span(None, ""), [TextSpan(u)]);
    WrapOneInline(span);
    FindOutline(m, h, t, [OutlinePara(u)]);
    assert [OutlinePara(t)] + [OutlinePara(u)] == [OutlinePara(t), OutlinePara(u)];
    MergeOnSlide(SlideWithText(m, h, t), [span], m.outlineSize, m.outlinePosition);
  }

  /**
   * An image right after a heading (test.py:216-230): the paragraph passes
   * the image frame through, and it becomes the slide's second frame.
   */
  lemma ImageAfterHeading(m: Metrics, h: string, image: Element)
    requires IsFrame(image)
    ensures Paragraph([image]) == Success([image])
    ensures Merge([HeadingSlide(m, h)], [image], m.outlineSize, m.outlinePosition)
      == Success([AppendChildren(HeadingSlide(m, h), [image])])
  {
    HeadingSlideIsHeader(m, h);
    WrapOneBlock(image);
    AppendInOutlineSpec(HeadingSlide(m, h), [image]);
    MergeOnSlide(HeadingSlide(m, h), [image], m.outlineSize, m.outlinePosition);
  }

  /**
   * An image after text on the same slide goes into the outline text box,
   * not next to it: the outline search comes before the frame case.
   */
  lemma ImageAfterText(m: Metrics, h: string, t: string, image: Element)
    requires IsFrame(image)
    ensures Merge([SlideWithText(m, h, t)], [image], m.outlineSize, m.outlinePosition)
      == Success([Element(SlideWithText(m, h, t).kind,
           [SlideWithText(m, h, t).children[0],
            TextFrame(Outline, OutlineTextStyle, m.outlineSize, m.outlinePosition, [OutlinePara(t), image])])])
  {
    WrapOneBlock(image);
    FindOutline(m, h, t, [image]);
    assert [OutlinePara(t)] + [image] == [OutlinePara(t), image];
    MergeOnSlide(SlideWithText(m, h, t), [image], m.outlineSize, m.outlinePosition);
  }
}
