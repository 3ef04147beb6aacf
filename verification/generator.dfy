/**
 * The older converter in odpgenerator.py: an `ODFRenderer` whose markdown
 * callbacks return nothing and instead build the presentation as a side
 * effect (odpgenerator.py:47-110).
 *
 * It keeps three fields: the slide being filled (`page`), a pending outline
 * text frame (`textframe`) and the list items seen since the last list
 * (`list_items`). A frame is flushed onto the current slide by the next
 * paragraph, list or heading; a slide is flushed into the document body by
 * the next heading or by `finalize`.
 *
 * The transitions are written once as functions on a `State` value; the
 * `Generator` class holds the same four pieces of state as fields and each
 * of its methods is tied to one transition.
 */
module Generation {
  import opened Odf

  const ContentMaster: string := "No-Logo_20_Content"
  const SlideLayout: string := "AL3T1"
  const OutlineFrameStyle: string := "pr4"
  const TitleFrameStyle: string := "pr3"
  const ListStyleName: string := "L2"
  const OutlineSize: Pair := Pair("22cm", "12cm")
  const OutlinePosition: Pair := Pair("2cm", "5cm")
  const TitleSize: Pair := Pair("20cm", "3cm")
  const TitlePosition: Pair := Pair("2cm", "1cm")

  // ---------------------------------------------------------------------------
  // The elements the callbacks create

  /** A string handed to lpod as frame or list-item content becomes one paragraph. */
  function TextPara(t: string): Element
  {
    Element(Para(None), [Leaf(PlainText(t))])
  }

  /** The outline frame made by `paragraph` and `list`. */
  function OutlineFrame(content: Element): Element
  {
    TextFrame(Outline, OutlineFrameStyle, OutlineSize, OutlinePosition, [content])
  }

  function TitleFrame(t: string): Element
  {
    TextFrame(Title, TitleFrameStyle, TitleSize, TitlePosition, [TextPara(t)])
  }

  /** The slide `header` opens: named after the heading, holding its title frame. */
  function NewSlide(t: string): Element
  {
    Element(Page(t, ContentMaster, SlideLayout), [TitleFrame(t)])
  }

  function Item(t: string): Element
  {
    Element(ListItem, [TextPara(t)])
  }

  function ListElement(items: seq<Element>): Element
  {
    Element(List(ListStyleName), items)
  }

  // ---------------------------------------------------------------------------
  // The state machine

  /** The renderer's fields, plus the document body it appends slides to. */
  datatype State = State(page: Option<Element>, textframe: Option<Element>, listItems: seq<Element>, body: seq<Element>)

  /** `__init__`: nothing open, over a template whose body is `body`. */
  function Start(body: seq<Element>): State
  {
    State(None, None, [], body)
  }

  /** `page.append(textframe)` when a frame is pending. */
  function WithFrame(page: Element, frame: Option<Element>): Element
  {
    if frame.Some? then AppendChildren(page, [frame.value]) else page
  }

  /**
   * `paragraph`: with a slide open the pending frame goes onto it; with none
   * open it is dropped. Either way the new outline frame becomes pending.
   */
  function AfterParagraph(s: State, text: string): State
  {
    var page := if s.page.Some? then Some(WithFrame(s.page.value, s.textframe)) else None;
    s.(page := page, textframe := Some(OutlineFrame(TextPara(text))))
  }

  function AfterListItem(s: State, text: string): State
  {
    s.(listItems := s.listItems + [Item(text)])
  }

  /** `list`: with a slide open, flush the pending frame and add one frame holding the items. */
  function AfterList(s: State): State
  {
    if s.page.Some? then
      var page := AppendChildren(WithFrame(s.page.value, s.textframe), [OutlineFrame(ListElement(s.listItems))]);
      s.(page := Some(page), textframe := None, listItems := [])
    else
      s.(listItems := [])
  }

  /**
   * `header`: with a slide open, flush the pending frame onto it and the
   * slide into the body; then open a new slide. With no slide open the
   * pending frame is left alone.
   */
  function AfterHeader(s: State, text: string): State
  {
    if s.page.Some? then
      s.(page := Some(NewSlide(text)), textframe := None, body := s.body + [WithFrame(s.page.value, s.textframe)])
    else
      s.(page := Some(NewSlide(text)))
  }

  /** `finalize`: the last slide, with its pending frame, joins the body. */
  function Finalized(s: State): State
  {
    if s.page.Some? then
      var page := WithFrame(s.page.value, s.textframe);
      s.(page := Some(page), body := s.body + [page])
    else
      s
  }

  /** One callback as the markdown parser issues it. */
  datatype Call = ParagraphCall(text: string) | ListItemCall(text: string) | ListCall | HeaderCall(text: string)

  function Step(s: State, c: Call): State
  {
    match c
    case ParagraphCall(t) => AfterParagraph(s, t)
    case ListItemCall(t) => AfterListItem(s, t)
    case ListCall => AfterList(s)
    case HeaderCall(t) => AfterHeader(s, t)
  }

  function Replay(s: State, calls: seq<Call>): State
  {
    if calls == [] then s else Step(Replay(s, calls[..|calls| - 1]), calls[|calls| - 1])
  }

  /** The document body after the callbacks and `finalize`. */
  function Document(body: seq<Element>, calls: seq<Call>): seq<Element>
  {
    Finalized(Replay(Start(body), calls)).body
  }

  /** The heading texts among the calls, in order. */
  function Headings(calls: seq<Call>): seq<string>
  {
    if calls == [] then []
    else
      var last := calls[|calls| - 1];
      Headings(calls[..|calls| - 1]) + (if last.HeaderCall? then [last.text] else [])
  }

  lemma {:induction false} ReplayAppend(s: State, a: seq<Call>, b: seq<Call>)
    ensures Replay(s, a + b) == Replay(Replay(s, a), b)
  {
    if b == [] {
      assert a + b == a;
    } else {
      assert (a + b)[..|a + b| - 1] == a + b[..|b| - 1];
      assert (a + b)[|a + b| - 1] == b[|b| - 1];
      ReplayAppend(s, a, b[..|b| - 1]);
    }
  }

  lemma ReplaySnoc(s: State, a: seq<Call>, c: Call)
    ensures Replay(s, a + [c]) == Step(Replay(s, a), c)
  {
    assert (a + [c])[..|a + [c]| - 1] == a;
  }

  // ---------------------------------------------------------------------------
  // Every slide in the output is a heading's slide, one per heading

  /** A slide opened by heading `title`: its title frame first, then outline frames only. */
  predicate IsSlide(p: Element, title: string)
  {
    p.kind == Page(title, ContentMaster, SlideLayout)
    && |p.children| >= 1 && p.children[0] == TitleFrame(title)
    && forall j :: 1 <= j < |p.children| ==> IsOutlineFrame(p.children[j])
  }

  predicate PendingOutline(s: State)
  {
    s.textframe.Some? ==> IsOutlineFrame(s.textframe.value)
  }

  /** What a state reached from `Start(body)` after headings `hs` looks like. */
  predicate Tracks(s: State, body: seq<Element>, hs: seq<string>)
  {
    |s.body| >= |body| && s.body[..|body|] == body
    && (hs == [] <==> s.page.None?)
    && (hs == [] ==> |s.body| == |body|)
    && (hs != [] ==> |s.body| == |body| + |hs| - 1 && IsSlide(s.page.value, hs[|hs| - 1]))
    && (forall i :: 0 <= i < |s.body| - |body| ==> IsSlide(s.body[|body| + i], hs[i]))
    && PendingOutline(s)
  }

  lemma WithFrameSlide(p: Element, title: string, frame: Option<Element>)
    requires IsSlide(p, title) && (frame.Some? ==> IsOutlineFrame(frame.value))
    ensures IsSlide(WithFrame(p, frame), title)
  {
    if frame.Some? {
      var q := WithFrame(p, frame);
      assert q.children == p.children + [frame.value];
      forall j | 1 <= j < |q.children|
        ensures IsOutlineFrame(q.children[j])
      {
        if j < |p.children| {
          assert q.children[j] == p.children[j];
        }
      }
    }
  }

  lemma HeaderTracks(s: State, body: seq<Element>, hs: seq<string>, t: string)
    requires Tracks(s, body, hs)
    ensures Tracks(AfterHeader(s, t), body, hs + [t])
  {
    var s' := AfterHeader(s, t);
    var hs' := hs + [t];
    assert IsSlide(NewSlide(t), t);
    if s.page.Some? {
      var done := WithFrame(s.page.value, s.textframe);
      WithFrameSlide(s.page.value, hs[|hs| - 1], s.textframe);
      assert s'.body == s.body + [done];
      assert s'.body[..|body|] == s.body[..|body|];
      forall i | 0 <= i < |s'.body| - |body|
        ensures IsSlide(s'.body[|body| + i], hs'[i])
      {
        if i < |s.body| - |body| {
          assert s'.body[|body| + i] == s.body[|body| + i];
        } else {
          assert s'.body[|body| + i] == done;
        }
      }
    }
  }

  lemma StepTracks(s: State, body: seq<Element>, hs: seq<string>, c: Call)
    requires Tracks(s, body, hs)
    ensures Tracks(Step(s, c), body, hs + (if c.HeaderCall? then [c.text] else []))
  {
    match c
    case ParagraphCall(t) =>
      assert hs + [] == hs;
      if s.page.Some? {
        WithFrameSlide(s.page.value, hs[|hs| - 1], s.textframe);
      }
    case ListItemCall(_) =>
      assert hs + [] == hs;
    case ListCall =>
      assert hs + [] == hs;
      if s.page.Some? {
        var title := hs[|hs| - 1];
        WithFrameSlide(s.page.value, title, s.textframe);
        WithFrameSlide(WithFrame(s.page.value, s.textframe), title, Some(OutlineFrame(ListElement(s.listItems))));
      }
    case HeaderCall(t) =>
      HeaderTracks(s, body, hs, t);
  }

  lemma {:induction false} ReplayTracks(body: seq<Element>, calls: seq<Call>)
    ensures Tracks(Replay(Start(body), calls), body, Headings(calls))
  {
    if calls == [] {
      assert body[..|body|] == body;
    } else {
      var init := calls[..|calls| - 1];
      var c := calls[|calls| - 1];
      ReplayTracks(body, init);
      StepTracks(Replay(Start(body), init), body, Headings(init), c);
    }
  }

  /**
   * After `finalize` the template's body is untouched and followed by
   * exactly one slide per `header` call, in order, each named after its
   * heading, starting with that heading's title frame and holding only
   * outline frames besides.
   */
  lemma DocumentSlides(body: seq<Element>, calls: seq<Call>)
    ensures var d := Document(body, calls); var hs := Headings(calls);
      |d| == |body| + |hs| && d[..|body|] == body
      && forall i :: 0 <= i < |hs| ==> IsSlide(d[|body| + i], hs[i])
  {
    var s := Replay(Start(body), calls);
    var hs := Headings(calls);
    ReplayTracks(body, calls);
    if s.page.Some? {
      var last := WithFrame(s.page.value, s.textframe);
      WithFrameSlide(s.page.value, hs[|hs| - 1], s.textframe);
      var d := Document(body, calls);
      assert d == s.body + [last];
      assert d[..|body|] == s.body[..|body|];
      forall i | 0 <= i < |hs|
        ensures IsSlide(d[|body| + i], hs[i])
      {
        if i < |hs| - 1 {
          assert d[|body| + i] == s.body[|body| + i];
        }
      }
    }
  }

  /** Without any heading, `finalize` adds nothing: everything else rendered is lost. */
  lemma NoHeadingNoSlides(body: seq<Element>, calls: seq<Call>)
    requires Headings(calls) == []
    ensures Document(body, calls) == body
  {
    DocumentSlides(body, calls);
  }

  // ---------------------------------------------------------------------------
  // Where content before and after a heading ends up

  function Paragraphs(ts: seq<string>): (calls: seq<Call>)
    ensures |calls| == |ts|
  {
    if ts == [] then [] else Paragraphs(ts[..|ts| - 1]) + [ParagraphCall(ts[|ts| - 1])]
  }

  function Items(ts: seq<string>): (calls: seq<Call>)
    ensures |calls| == |ts|
  {
    if ts == [] then [] else Items(ts[..|ts| - 1]) + [ListItemCall(ts[|ts| - 1])]
  }

  function ItemElements(ts: seq<string>): (es: seq<Element>)
    ensures |es| == |ts|
  {
    if ts == [] then [] else ItemElements(ts[..|ts| - 1]) + [Item(ts[|ts| - 1])]
  }

  lemma {:induction false} ParagraphsWithoutSlide(body: seq<Element>, ts: seq<string>)
    requires ts != []
    ensures Replay(Start(body), Paragraphs(ts)) == State(None, Some(OutlineFrame(TextPara(ts[|ts| - 1]))), [], body)
  {
    var calls := Paragraphs(ts);
    assert calls[..|calls| - 1] == Paragraphs(ts[..|ts| - 1]);
    if |ts| > 1 {
      ParagraphsWithoutSlide(body, ts[..|ts| - 1]);
    }
  }

  lemma FirstHeading(s: State, h: string)
    requires s.page.None?
    ensures Step(s, HeaderCall(h)) == s.(page := Some(NewSlide(h)))
  {
  }

  /**
   * Paragraphs before the first heading: only the last survives, and it
   * becomes the first outline frame of the first slide.
   */
  lemma LeadingParagraphs(body: seq<Element>, ts: seq<string>, h: string)
    requires ts != []
    ensures Document(body, Paragraphs(ts) + [HeaderCall(h)])
      == body + [AppendChildren(NewSlide(h), [OutlineFrame(TextPara(ts[|ts| - 1]))])]
  {
    ParagraphsWithoutSlide(body, ts);
    ReplaySnoc(Start(body), Paragraphs(ts), HeaderCall(h));
    FirstHeading(Replay(Start(body), Paragraphs(ts)), h);
    var s := Replay(Start(body), Paragraphs(ts) + [HeaderCall(h)]);
    assert s.page == Some(NewSlide(h)) && s.textframe == Some(OutlineFrame(TextPara(ts[|ts| - 1])));
  }

  lemma {:induction false} ItemsCollect(s: State, ts: seq<string>)
    ensures Replay(s, Items(ts)) == s.(listItems := s.listItems + ItemElements(ts))
  {
    if ts == [] {
      assert s.listItems + [] == s.listItems;
    } else {
      var calls := Items(ts);
      assert calls[..|calls| - 1] == Items(ts[..|ts| - 1]);
      ItemsCollect(s, ts[..|ts| - 1]);
      assert s.listItems + ItemElements(ts) == s.listItems + ItemElements(ts[..|ts| - 1]) + [Item(ts[|ts| - 1])];
    }
  }

  /** A list under a heading becomes one outline frame holding its items in order. */
  lemma ListOnSlide(body: seq<Element>, h: string, ts: seq<string>)
    ensures Document(body, [HeaderCall(h)] + Items(ts) + [ListCall])
      == body + [AppendChildren(NewSlide(h), [OutlineFrame(ListElement(ItemElements(ts)))])]
  {
    var afterHeading := Replay(Start(body), [HeaderCall(h)]);
    assert afterHeading == Step(Replay(Start(body), []), HeaderCall(h));
    assert afterHeading == State(Some(NewSlide(h)), None, [], body);
    ReplayAppend(Start(body), [HeaderCall(h)], Items(ts));
    ReplayAppend(Start(body), [HeaderCall(h)] + Items(ts), [ListCall]);
    ItemsCollect(afterHeading, ts);
    assert [] + ItemElements(ts) == ItemElements(ts);
    var filled := Replay(Start(body), [HeaderCall(h)] + Items(ts));
    assert Replay(filled, [ListCall]) == Step(Replay(filled, []), ListCall);
  }

  /** A list before the first heading leaves no trace, not even its items. */
  lemma ListWithoutSlide(body: seq<Element>, ts: seq<string>)
    ensures Replay(Start(body), Items(ts) + [ListCall]) == Start(body)
  {
    ReplayAppend(Start(body), Items(ts), [ListCall]);
    ItemsCollect(Start(body), ts);
    var filled := Replay(Start(body), Items(ts));
    assert Replay(filled, [ListCall]) == Step(Replay(filled, []), ListCall);
  }

  // ---------------------------------------------------------------------------
  // The renderer object

  class Generator {
    var page: Option<Element>
    var textframe: Option<Element>
    var listItems: seq<Element>
    /** `document.get_body()`'s children. */
    var body: seq<Element>

    function Current(): State
      reads this
    {
      State(page, textframe, listItems, body)
    }

    constructor (documentBody: seq<Element>)
      ensures Current() == Start(documentBody)
    {
      page := None;
      textframe := None;
      listItems := [];
      body := documentBody;
    }

    method Finalize()
      modifies this
      ensures Current() == Finalized(old(Current()))
    {
      if page.Some? {
        if textframe.Some? {
          page := Some(AppendChildren(page.value, [textframe.value]));
        }
        body := body + [page.value];
      }
    }

    method OnParagraph(text: string) returns (r: string)
      modifies this
      ensures Current() == AfterParagraph(old(Current()), text)
      ensures r == ""
    {
      if page.Some? {
        if textframe.Some? {
          page := Some(AppendChildren(page.value, [textframe.value]));
        }
      }
      textframe := Some(OutlineFrame(TextPara(text)));
      r := "";
    }

    method OnListItem(text: string) returns (r: string)
      modifies this
      ensures Current() == AfterListItem(old(Current()), text)
      ensures r == ""
    {
      listItems := listItems + [Item(text)];
      r := "";
    }

    /** `listBody` and `ordered` are accepted and ignored, as in the source. */
    method OnList(listBody: string, ordered: bool) returns (r: string)
      modifies this
      ensures Current() == AfterList(old(Current()))
      ensures listItems == []
      ensures r == ""
    {
      if page.Some? {
        if textframe.Some? {
          page := Some(AppendChildren(page.value, [textframe.value]));
          textframe := None;
        }
        var lst := ListElement([]);
        var k := 0;
        while k < |listItems|
          invariant 0 <= k <= |listItems|
          invariant lst == ListElement(listItems[..k])
        {
          lst := AppendChildren(lst, [listItems[k]]);
          assert listItems[..k + 1] == listItems[..k] + [listItems[k]];
          k := k + 1;
        }
        assert listItems[..k] == listItems;
        page := Some(AppendChildren(page.value, [OutlineFrame(lst)]));
      }
      listItems := [];
      r := "";
    }

    /** `level` is accepted and ignored: every heading opens a slide. */
    method OnHeader(text: string, level: int) returns (r: string)
      modifies this
      ensures Current() == AfterHeader(old(Current()), text)
      ensures r == ""
    {
      if page.Some? {
        if textframe.Some? {
          page := Some(AppendChildren(page.value, [textframe.value]));
          textframe := None;
        }
        body := body + [page.value];
      }
      page := Some(NewSlide(text));
      r := "";
    }
  }
}
