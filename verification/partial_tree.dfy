/**
 * `ODFPartialTree` (odpdown.py:157-242): the value the renderer callbacks
 * return and the markdown parser glues together with `+` and `+=`.
 *
 * Gluing follows one rule (`add_child_elems`): while the tree ends in a
 * slide, incoming content that does not start a new slide is put on that
 * slide, into its outline text box if it has one, next to the other frames
 * if the content is itself a frame, and otherwise into a new outline text
 * box. Everything else is plain list concatenation.
 */
module PartialTrees {
  import opened Odf
  import opened SpanWrap

  /** The style the source gives a newly created outline text frame. */
  const OutlineTextStyle: string := "md2odp-OutlineText"

  // ---------------------------------------------------------------------------
  // Finding the outline frame of a slide, in document order

  /** The outcome of looking for the first outline frame below an element. */
  datatype Search<T> = NotFound | Found(value: T) | NoTextBox

  /**
   * Appends `extra` to the first child of the first outline frame in `e`'s
   * subtree (preorder, which is XPath's document order); `NoTextBox` when
   * that frame has no child, where `get_children()[0]` raises.
   */
  function AppendInOutline(e: Element, extra: seq<Element>): Search<Element>
  {
    if IsOutlineFrame(e) then
      if e.children == [] then NoTextBox
      else Found(Element(e.kind, [AppendChildren(e.children[0], extra)] + e.children[1..]))
    else
      match AppendInOutlineSeq(e.children, extra)
      case Found(cs) => Found(Element(e.kind, cs))
      case NotFound => NotFound
      case NoTextBox => NoTextBox
  }

  function AppendInOutlineSeq(es: seq<Element>, extra: seq<Element>): Search<seq<Element>>
  {
    if es == [] then NotFound
    else
      match AppendInOutline(es[0], extra)
      case Found(e) => Found([e] + es[1..])
      case NoTextBox => NoTextBox
      case NotFound =>
        match AppendInOutlineSeq(es[1..], extra)
        case Found(rest) => Found([es[0]] + rest)
        case NotFound => NotFound
        case NoTextBox => NoTextBox
  }

  /** The first outline frame in `e`'s subtree, in document order (preorder). */
  function FirstOutline(e: Element): Option<Element>
  {
    if IsOutlineFrame(e) then Some(e) else FirstOutlineSeq(e.children)
  }

  function FirstOutlineSeq(es: seq<Element>): Option<Element>
  {
    if es == [] then None
    else
      match FirstOutline(es[0])
      case Some(f) => Some(f)
      case None => FirstOutlineSeq(es[1..])
  }

  /** An outline frame whose text box (its first child) has `extra` appended at the end. */
  function BoxAppended(f: Element, extra: seq<Element>): Element
    requires f.children != []
  {
    Element(f.kind, [AppendChildren(f.children[0], extra)] + f.children[1..])
  }

  /**
   * The text a reader sees in `e` up to the end of the text box of its
   * first outline frame; `NoTextBox` when that frame has no text box.
   */
  function ReadToBox(e: Element): Search<string>
  {
    if IsOutlineFrame(e) then
      if e.children == [] then NoTextBox else Found(OwnText(e.kind) + Content(e.children[0]))
    else
      match ReadToBoxSeq(e.children)
      case Found(p) => Found(OwnText(e.kind) + p)
      case NotFound => NotFound
      case NoTextBox => NoTextBox
  }

  function ReadToBoxSeq(es: seq<Element>): Search<string>
  {
    if es == [] then NotFound
    else
      match ReadToBox(es[0])
      case Found(p) => Found(p)
      case NoTextBox => NoTextBox
      case NotFound =>
        match ReadToBoxSeq(es[1..])
        case Found(p) => Found(Content(es[0]) + p)
        case NotFound => NotFound
        case NoTextBox => NoTextBox
  }

  /** `after` is `before` with `mid` inserted right after its prefix `pre`. */
  predicate Inserted(before: string, pre: string, mid: string, after: string)
  {
    |pre| <= |before| && before[..|pre|] == pre && after == pre + mid + before[|pre|..]
  }

  lemma InsertedOf(pre: string, post: string, mid: string)
    ensures Inserted(pre + post, pre, mid, pre + mid + post)
  {
    assert (pre + post)[..|pre|] == pre;
    assert (pre + post)[|pre|..] == post;
  }

  lemma InsertedParts(before: string, pre: string, mid: string, after: string)
    requires Inserted(before, pre, mid, after)
    ensures before == pre + before[|pre|..]
  {
  }

  /** An element with `extra` appended to its children reads as before, then `extra`. */
  lemma AppendedContent(e: Element, extra: seq<Element>)
    ensures Content(AppendChildren(e, extra)) == Content(e) + ContentSeq(extra)
  {
    var own, cs := OwnText(e.kind), e.children;
    ElementContent(e.kind, cs);
    ElementContent(e.kind, cs + extra);
    ContentSeqAppend(cs, extra);
    TextAfter(Content(e), Content(AppendChildren(e, extra)), own, ContentSeq(cs), ContentSeq(cs + extra), ContentSeq(extra));
  }

  /**
   * Where the appended content lands: the search hits the first outline
   * frame in document order, which afterwards has `extra` at the end of its
   * text box, and the text of `extra` is inserted in the reader's text right
   * after that box's old text, everything else read as before. A miss means
   * there is no outline frame; `NoTextBox` means the first one has no box.
   */
  predicate Lands(e: Element, extra: seq<Element>)
  {
    && (AppendInOutline(e, extra).NotFound? ==> FirstOutline(e).None? && ReadToBox(e).NotFound?)
    && (AppendInOutline(e, extra).NoTextBox? ==> FirstOutline(e).Some? && FirstOutline(e).value.children == [])
    && (AppendInOutline(e, extra).Found? ==>
          && FirstOutline(e).Some? && FirstOutline(e).value.children != []
          && FirstOutline(AppendInOutline(e, extra).value) == Some(BoxAppended(FirstOutline(e).value, extra))
          && ReadToBox(e).Found?
          && Inserted(Content(e), ReadToBox(e).value, ContentSeq(extra), Content(AppendInOutline(e, extra).value)))
  }

  predicate LandsSeq(es: seq<Element>, extra: seq<Element>)
  {
    && (AppendInOutlineSeq(es, extra).NotFound? ==> FirstOutlineSeq(es).None? && ReadToBoxSeq(es).NotFound?)
    && (AppendInOutlineSeq(es, extra).NoTextBox? ==> FirstOutlineSeq(es).Some? && FirstOutlineSeq(es).value.children == [])
    && (AppendInOutlineSeq(es, extra).Found? ==>
          && FirstOutlineSeq(es).Some? && FirstOutlineSeq(es).value.children != []
          && FirstOutlineSeq(AppendInOutlineSeq(es, extra).value) == Some(BoxAppended(FirstOutlineSeq(es).value, extra))
          && ReadToBoxSeq(es).Found?
          && Inserted(ContentSeq(es), ReadToBoxSeq(es).value, ContentSeq(extra), ContentSeq(AppendInOutlineSeq(es, extra).value)))
  }

  lemma {:induction false} OutlineLands(e: Element, extra: seq<Element>)
    ensures Lands(e, extra)
    decreases e, 0
  {
    if IsOutlineFrame(e) {
      if e.children != [] {
        LandsInFrame(e, extra);
      }
    } else {
      OutlineLandsSeq(e.children, extra);
      if AppendInOutlineSeq(e.children, extra).Found? {
        LandsBelow(e, extra);
      }
    }
  }

  lemma LandsInFrame(e: Element, extra: seq<Element>)
    requires IsOutlineFrame(e) && e.children != []
    ensures Lands(e, extra)
  {
    var box, rest := e.children[0], e.children[1..];
    var r := AppendInOutline(e, extra).value;
    assert r == BoxAppended(e, extra);
    assert r.children[0] == AppendChildren(box, extra) && r.children[1..] == rest;
    ElementContent(e.kind, e.children);
    ElementContent(r.kind, r.children);
    ContentSeqSplit(e.children);
    ContentSeqSplit(r.children);
    AppendedContent(box, extra);
    InsertedOf(OwnText(e.kind) + Content(box), ContentSeq(rest), ContentSeq(extra));
  }

  lemma LandsBelow(e: Element, extra: seq<Element>)
    requires !IsOutlineFrame(e) && LandsSeq(e.children, extra) && AppendInOutlineSeq(e.children, extra).Found?
    ensures Lands(e, extra)
  {
    var cs := AppendInOutlineSeq(e.children, extra).value;
    var pre := ReadToBoxSeq(e.children).value;
    assert AppendInOutline(e, extra) == Found(Element(e.kind, cs));
    assert ReadToBox(e) == Found(OwnText(e.kind) + pre);
    BelowText(e.kind, e.children, cs, pre, ContentSeq(extra));
  }

  lemma BelowText(k: Kind, cs: seq<Element>, cs': seq<Element>, pre: string, mid: string)
    requires Inserted(ContentSeq(cs), pre, mid, ContentSeq(cs'))
    ensures Inserted(Content(Element(k, cs)), OwnText(k) + pre, mid, Content(Element(k, cs')))
  {
    ElementContent(k, cs);
    ElementContent(k, cs');
    InsertedPrefix(OwnText(k), ContentSeq(cs), pre, mid, ContentSeq(cs'));
  }

  lemma {:induction false} OutlineLandsSeq(es: seq<Element>, extra: seq<Element>)
    ensures LandsSeq(es, extra)
    decreases es, 1
  {
    if es != [] {
      OutlineLands(es[0], extra);
      if AppendInOutline(es[0], extra).Found? {
        LandsFirst(es, extra);
      } else if AppendInOutline(es[0], extra).NotFound? {
        OutlineLandsSeq(es[1..], extra);
        if AppendInOutlineSeq(es[1..], extra).Found? {
          LandsLater(es, extra);
        }
      }
    }
  }

  lemma LandsFirst(es: seq<Element>, extra: seq<Element>)
    requires es != [] && Lands(es[0], extra) && AppendInOutline(es[0], extra).Found?
    ensures LandsSeq(es, extra)
  {
    var x, tail := es[0], es[1..];
    var x' := AppendInOutline(x, extra).value;
    var cs := [x'] + tail;
    assert cs[0] == x' && cs[1..] == tail;
    ContentSeqSplit(es);
    ContentSeqSplit(cs);
    var pre := ReadToBox(x).value;
    InsertedParts(Content(x), pre, ContentSeq(extra), Content(x'));
    InsertedOf(pre, Content(x)[|pre|..] + ContentSeq(tail), ContentSeq(extra));
  }

  lemma LandsLater(es: seq<Element>, extra: seq<Element>)
    requires es != [] && Lands(es[0], extra) && AppendInOutline(es[0], extra).NotFound?
    requires LandsSeq(es[1..], extra) && AppendInOutlineSeq(es[1..], extra).Found?
    ensures LandsSeq(es, extra)
  {
    var x, tail := es[0], es[1..];
    var rest := AppendInOutlineSeq(tail, extra).value;
    var cs := [x] + rest;
    assert AppendInOutlineSeq(es, extra) == Found(cs);
    assert cs[0] == x && cs[1..] == rest;
    assert FirstOutline(x).None? && ReadToBox(x).NotFound?;
    assert FirstOutlineSeq(es) == FirstOutlineSeq(tail);
    assert FirstOutlineSeq(cs) == FirstOutlineSeq(rest);
    var pre := ReadToBoxSeq(tail).value;
    assert ReadToBoxSeq(es) == Found(Content(x) + pre);
    LaterText(x, tail, rest, pre, ContentSeq(extra));
  }

  lemma LaterText(x: Element, tail: seq<Element>, rest: seq<Element>, pre: string, mid: string)
    requires Inserted(ContentSeq(tail), pre, mid, ContentSeq(rest))
    ensures Inserted(ContentSeq([x] + tail), Content(x) + pre, mid, ContentSeq([x] + rest))
  {
    ConsContent(x, tail);
    ConsContent(x, rest);
    InsertedPrefix(Content(x), ContentSeq(tail), pre, mid, ContentSeq(rest));
  }

  lemma ConsContent(x: Element, es: seq<Element>)
    ensures ContentSeq([x] + es) == Content(x) + ContentSeq(es)
  {
    assert ([x] + es)[0] == x && ([x] + es)[1..] == es;
  }

  lemma InsertedPrefix(a: string, before: string, pre: string, mid: string, after: string)
    requires Inserted(before, pre, mid, after)
    ensures Inserted(a + before, a + pre, mid, a + after)
  {
    InsertedParts(before, pre, mid, after);
    InsertedOf(a + pre, before[|pre|..], mid);
  }

  /**
   * `e` with the text box of its first outline frame (preorder) emptied:
   * everything the search for that box leaves alone.
   */
  function BlankBox(e: Element): Element
  {
    if IsOutlineFrame(e) then
      if e.children == [] then e
      else Element(e.kind, [Leaf(e.children[0].kind)] + e.children[1..])
    else Element(e.kind, BlankBoxSeq(e.children))
  }

  function BlankBoxSeq(es: seq<Element>): seq<Element>
  {
    if es == [] then []
    else if FirstOutline(es[0]).Some? then [BlankBox(es[0])] + es[1..]
    else [es[0]] + BlankBoxSeq(es[1..])
  }

  /** Appending into the outline box changes nothing outside that box. */
  lemma {:induction false} OutsideBoxKept(e: Element, extra: seq<Element>)
    ensures AppendInOutline(e, extra).Found? ==> BlankBox(AppendInOutline(e, extra).value) == BlankBox(e)
    decreases e, 0
  {
    if IsOutlineFrame(e) {
      if e.children != [] {
        var r := AppendInOutline(e, extra).value;
        assert r.children[0].kind == e.children[0].kind && r.children[1..] == e.children[1..];
      }
    } else {
      OutsideBoxKeptSeq(e.children, extra);
    }
  }

  lemma {:induction false} OutsideBoxKeptSeq(es: seq<Element>, extra: seq<Element>)
    ensures AppendInOutlineSeq(es, extra).Found? ==> BlankBoxSeq(AppendInOutlineSeq(es, extra).value) == BlankBoxSeq(es)
    decreases es, 1
  {
    if es != [] {
      OutlineLands(es[0], extra);
      OutsideBoxKept(es[0], extra);
      match AppendInOutline(es[0], extra)
      case Found(x) =>
        var rs := [x] + es[1..];
        assert rs[0] == x && rs[1..] == es[1..];
        assert FirstOutline(x).Some?;
      case NoTextBox =>
      case NotFound =>
        OutsideBoxKeptSeq(es[1..], extra);
        match AppendInOutlineSeq(es[1..], extra)
        case Found(rest) =>
          var rs := [es[0]] + rest;
          assert rs[0] == es[0] && rs[1..] == rest;
        case NotFound =>
        case NoTextBox =>
    }
  }

  /** Emptying the box keeps the element's kind, the list's length and whether there is an outline frame. */
  lemma {:induction false} BlankBoxOutline(e: Element)
    ensures BlankBox(e).kind == e.kind
    ensures FirstOutline(BlankBox(e)).Some? == FirstOutline(e).Some?
    decreases e, 0
  {
    if !IsOutlineFrame(e) {
      BlankBoxOutlineSeq(e.children);
    }
  }

  lemma {:induction false} BlankBoxOutlineSeq(es: seq<Element>)
    ensures |BlankBoxSeq(es)| == |es|
    ensures FirstOutlineSeq(BlankBoxSeq(es)).Some? == FirstOutlineSeq(es).Some?
    decreases es, 1
  {
    if es != [] {
      var b := BlankBoxSeq(es);
      BlankBoxOutline(es[0]);
      if FirstOutline(es[0]).Some? {
        assert b[0] == BlankBox(es[0]);
      } else {
        BlankBoxOutlineSeq(es[1..]);
        assert b[0] == es[0] && b[1..] == BlankBoxSeq(es[1..]);
      }
    }
  }

  /**
   * The hit is pinned down completely: an element that agrees with `e`
   * outside the first outline box, and whose first outline frame is that
   * frame with `extra` appended to its box, is the result of the append.
   */
  lemma {:induction false} OutsideBoxDetermines(e: Element, extra: seq<Element>, r: Element)
    requires AppendInOutline(e, extra).Found?
    requires FirstOutline(e).Some? && FirstOutline(e).value.children != []
    requires BlankBox(r) == BlankBox(e)
    requires FirstOutline(r) == Some(BoxAppended(FirstOutline(e).value, extra))
    ensures r == AppendInOutline(e, extra).value
    decreases e, 0
  {
    BlankBoxOutline(r);
    BlankBoxOutline(e);
    if !IsOutlineFrame(e) {
      assert !IsOutlineFrame(r);
      assert BlankBoxSeq(r.children) == BlankBoxSeq(e.children);
      OutsideBoxDeterminesSeq(e.children, extra, r.children);
    }
  }

  lemma {:induction false} OutsideBoxDeterminesSeq(es: seq<Element>, extra: seq<Element>, rs: seq<Element>)
    requires AppendInOutlineSeq(es, extra).Found?
    requires FirstOutlineSeq(es).Some? && FirstOutlineSeq(es).value.children != []
    requires BlankBoxSeq(rs) == BlankBoxSeq(es)
    requires FirstOutlineSeq(rs) == Some(BoxAppended(FirstOutlineSeq(es).value, extra))
    ensures rs == AppendInOutlineSeq(es, extra).value
    decreases es, 1
  {
    OutlineLands(es[0], extra);
    BlankBoxOutlineSeq(rs);
    BlankBoxOutlineSeq(es);
    BlankBoxOutline(rs[0]);
    BlankBoxOutline(es[0]);
    var b := BlankBoxSeq(es);
    if FirstOutline(es[0]).Some? {
      assert b[0] == BlankBox(es[0]) && b[1..] == es[1..];
      assert FirstOutline(rs[0]).Some?;
      assert BlankBox(rs[0]) == BlankBox(es[0]) && rs[1..] == es[1..];
      OutsideBoxDetermines(es[0], extra, rs[0]);
      var x := AppendInOutline(es[0], extra).value;
      assert AppendInOutlineSeq(es, extra).value == [x] + es[1..];
    } else {
      assert b[0] == es[0] && b[1..] == BlankBoxSeq(es[1..]);
      assert FirstOutline(rs[0]).None?;
      assert rs[0] == es[0] && BlankBoxSeq(rs[1..]) == BlankBoxSeq(es[1..]);
      OutsideBoxDeterminesSeq(es[1..], extra, rs[1..]);
      var rest := AppendInOutlineSeq(es[1..], extra).value;
      assert AppendInOutlineSeq(es, extra).value == [es[0]] + rest;
    }
  }

  /** Whether an outline frame occurs anywhere in `e`'s subtree. */
  predicate HasOutline(e: Element)
  {
    IsOutlineFrame(e) || AnyOutline(e.children)
  }

  predicate AnyOutline(es: seq<Element>)
  {
    es != [] && (HasOutline(es[0]) || AnyOutline(es[1..]))
  }

  /** Every outline frame in `e`'s subtree has the text box it is created with. */
  predicate Boxed(e: Element)
  {
    (IsOutlineFrame(e) ==> e.children != []) && AllBoxed(e.children)
  }

  predicate AllBoxed(es: seq<Element>)
  {
    es != [] ==> Boxed(es[0]) && AllBoxed(es[1..])
  }

  lemma {:induction false} AllBoxedAppend(a: seq<Element>, b: seq<Element>)
    ensures AllBoxed(a + b) <==> AllBoxed(a) && AllBoxed(b)
  {
    if a == [] {
      assert a + b == b;
    } else {
      assert (a + b)[0] == a[0];
      assert (a + b)[1..] == a[1..] + b;
      AllBoxedAppend(a[1..], b);
    }
  }

  /**
   * The search finds an outline frame exactly when there is one, and when
   * every outline frame has its text box it never fails. A hit keeps the
   * element's kind and number of children; the first outline frame in
   * document order then has `extra` at the end of its text box, and the
   * reader's text is the old text with that of `extra` inserted right after
   * the box's old text.
   */
  lemma {:induction false} AppendInOutlineSpec(e: Element, extra: seq<Element>)
    ensures AppendInOutline(e, extra).NotFound? <==> !HasOutline(e)
    ensures Boxed(e) ==> !AppendInOutline(e, extra).NoTextBox?
    ensures AppendInOutline(e, extra).Found? ==>
      var r := AppendInOutline(e, extra).value;
      && r.kind == e.kind && |r.children| == |e.children|
      && FirstOutline(e).Some? && FirstOutline(e).value.children != []
      && FirstOutline(r) == Some(BoxAppended(FirstOutline(e).value, extra))
      && BlankBox(r) == BlankBox(e)
      && ReadToBox(e).Found? && Inserted(Content(e), ReadToBox(e).value, ContentSeq(extra), Content(r))
      && (Boxed(e) && AllBoxed(extra) ==> Boxed(r))
  {
    OutlineLands(e, extra);
    OutsideBoxKept(e, extra);
    if IsOutlineFrame(e) {
      if e.children != [] {
        var box := e.children[0];
        var r := AppendInOutline(e, extra).value;
        assert r.children == [AppendChildren(box, extra)] + e.children[1..];
        assert e.children == [box] + e.children[1..];
        if Boxed(e) && AllBoxed(extra) {
          assert AllBoxed(e.children);
          assert Boxed(box) && AllBoxed(e.children[1..]);
          AllBoxedAppend(box.children, extra);
          var box' := AppendChildren(box, extra);
          assert Boxed(box');
          assert r.children[0] == box' && r.children[1..] == e.children[1..];
          assert AllBoxed(r.children);
        }
      }
    } else {
      AppendInOutlineSeqSpec(e.children, extra);
    }
  }

  /** The same over a list of siblings, searched in document order. */
  lemma {:induction false} AppendInOutlineSeqSpec(es: seq<Element>, extra: seq<Element>)
    ensures AppendInOutlineSeq(es, extra).NotFound? <==> !AnyOutline(es)
    ensures AllBoxed(es) ==> !AppendInOutlineSeq(es, extra).NoTextBox?
    ensures AppendInOutlineSeq(es, extra).Found? ==>
      var rs := AppendInOutlineSeq(es, extra).value;
      && |rs| == |es|
      && FirstOutlineSeq(es).Some? && FirstOutlineSeq(es).value.children != []
      && FirstOutlineSeq(rs) == Some(BoxAppended(FirstOutlineSeq(es).value, extra))
      && BlankBoxSeq(rs) == BlankBoxSeq(es)
      && ReadToBoxSeq(es).Found? && Inserted(ContentSeq(es), ReadToBoxSeq(es).value, ContentSeq(extra), ContentSeq(rs))
      && (AllBoxed(es) && AllBoxed(extra) ==> AllBoxed(rs))
    decreases es, 1
  {
    OutlineLandsSeq(es, extra);
    OutsideBoxKeptSeq(es, extra);
    if es != [] {
      AppendInOutlineSpec(es[0], extra);
      match AppendInOutline(es[0], extra)
      case Found(e) =>
        var rs := [e] + es[1..];
        assert rs[0] == e && rs[1..] == es[1..];
      case NoTextBox =>
      case NotFound =>
        AppendInOutlineSeqSpec(es[1..], extra);
        match AppendInOutlineSeq(es[1..], extra)
        case Found(rest) =>
          var rs := [es[0]] + rest;
          assert rs[0] == es[0] && rs[1..] == rest;
        case NotFound =>
        case NoTextBox =>
    }
  }

  lemma ContentSeqSplit(es: seq<Element>)
    requires es != []
    ensures ContentSeq(es) == Content(es[0]) + ContentSeq(es[1..])
  {
  }

  // ---------------------------------------------------------------------------
  // add_child_elems as a function of the old element list

  /**
   * The element list after `add_child_elems(incoming)` (odpdown.py:172-207),
   * or the exception it raises, in which case nothing has been changed.
   */
  function Merge(elements: seq<Element>, incoming: seq<Element>, size: Pair, pos: Pair): Result<seq<Element>, Error>
  {
    if |elements| > 0 && IsPage(elements[|elements| - 1]) then
      var page := elements[|elements| - 1];
      var before := elements[..|elements| - 1];
      if incoming == [] then Failure(IndexError)
      else if IsPage(incoming[0]) then Success(elements + incoming)
      else
        match AppendInOutline(page, Wrapped(incoming))
        case Found(p) => Success(before + [p])
        case NoTextBox => Failure(IndexError)
        case NotFound =>
          if IsFrame(incoming[0]) then Success(before + [AppendChildren(page, incoming)])
          else Success(before + [AppendChildren(page, [TextFrame(Outline, OutlineTextStyle, size, pos, Wrapped(incoming))])])
    else Success(elements + incoming)
  }

  predicate EndsInPage(elements: seq<Element>)
  {
    |elements| > 0 && IsPage(elements[|elements| - 1])
  }

  /** A list that does not end in a slide just grows by the incoming elements. */
  lemma MergeConcatenates(elements: seq<Element>, incoming: seq<Element>, size: Pair, pos: Pair)
    requires !EndsInPage(elements) || (incoming != [] && IsPage(incoming[0]))
    ensures Merge(elements, incoming, size, pos) == Success(elements + incoming)
  {
  }

  /**
   * Content that does not start a slide lands on the current slide: the
   * list keeps its length, and every element before that slide is untouched.
   * A slide with an outline frame gets the wrapped content at the end of the
   * first one's text box and is otherwise unchanged; a slide without one
   * gets a frame as a new last child, and anything else as a new outline
   * frame holding it wrapped.
   */
  lemma MergeStaysOnSlide(elements: seq<Element>, incoming: seq<Element>, size: Pair, pos: Pair)
    requires EndsInPage(elements) && incoming != [] && !IsPage(incoming[0])
    requires Merge(elements, incoming, size, pos).Success?
    ensures var r := Merge(elements, incoming, size, pos).value;
      |r| == |elements| && r[..|r| - 1] == elements[..|elements| - 1]
      && r[|r| - 1].kind == elements[|elements| - 1].kind
    ensures var r := Merge(elements, incoming, size, pos).value;
      var page, slide := elements[|elements| - 1], r[|r| - 1];
      HasOutline(page) ==>
        && FirstOutline(page).Some? && FirstOutline(page).value.children != []
        && FirstOutline(slide) == Some(BoxAppended(FirstOutline(page).value, Wrapped(incoming)))
        && BlankBox(slide) == BlankBox(page)
    ensures var r := Merge(elements, incoming, size, pos).value;
      var page, slide := elements[|elements| - 1], r[|r| - 1];
      !HasOutline(page) ==>
        slide.children == page.children +
          if IsFrame(incoming[0]) then incoming
          else [TextFrame(Outline, OutlineTextStyle, size, pos, Wrapped(incoming))]
  {
    AppendInOutlineSpec(elements[|elements| - 1], Wrapped(incoming));
  }

  /**
   * When the slide's outline frames all have their text box, gluing onto a
   * slide fails exactly when nothing is glued (`elems[0]` of an empty list).
   */
  lemma MergeFailsOnlyOnEmpty(elements: seq<Element>, incoming: seq<Element>, size: Pair, pos: Pair)
    requires AllBoxed(elements)
    ensures Merge(elements, incoming, size, pos).Failure? <==> EndsInPage(elements) && incoming == []
    ensures Merge(elements, incoming, size, pos).Failure? ==> Merge(elements, incoming, size, pos).error == IndexError
  {
    if EndsInPage(elements) && incoming != [] && !IsPage(incoming[0]) {
      var page := elements[|elements| - 1];
      AllBoxedLast(elements);
      AppendInOutlineSpec(page, Wrapped(incoming));
    }
  }

  lemma {:induction false} AllBoxedLast(es: seq<Element>)
    requires es != [] && AllBoxed(es)
    ensures Boxed(es[|es| - 1]) && AllBoxed(es[..|es| - 1])
  {
    assert es == es[..|es| - 1] + [es[|es| - 1]];
    AllBoxedAppend(es[..|es| - 1], [es[|es| - 1]]);
  }

  lemma {:induction false} WrappedAllBoxed(es: seq<Element>)
    requires AllBoxed(es)
    ensures AllBoxed(Wrapped(es))
  {
    var w := Wrapped(es);
    AllBoxedIndex(es);
    BoxedIfAll(w, es);
  }

  lemma {:induction false} AllBoxedIndex(es: seq<Element>)
    ensures AllBoxed(es) <==> forall i :: 0 <= i < |es| ==> Boxed(es[i])
  {
    if es != [] {
      AllBoxedIndex(es[1..]);
      assert forall i :: 1 <= i < |es| ==> es[i] == es[1..][i - 1];
    }
  }

  /** Each wrapped element is an element of the input or a paragraph of them. */
  lemma BoxedIfAll(w: seq<Element>, es: seq<Element>)
    requires w == Wrapped(es)
    requires forall m :: m in es ==> Boxed(m)
    ensures AllBoxed(w)
  {
    GroupsSpec(es);
    var gs := Groups(es);
    forall i | 0 <= i < |w| ensures Boxed(w[i]) {
      assert w[i] == Emit(gs[i]);
      MembersBoxed(gs, i, es);
      EmitBoxed(gs[i]);
    }
    AllBoxedIndex(w);
  }

  /** A group whose members are all boxed emits a boxed element. */
  lemma EmitBoxed(g: Group)
    requires forall m :: m in Members(g) ==> Boxed(m)
    ensures Boxed(Emit(g))
  {
    if g.Run? {
      AllBoxedIndex(g.spans);
    }
  }

  lemma {:induction false} MembersBoxed(gs: seq<Group>, i: nat, es: seq<Element>)
    requires i < |gs| && Flatten(gs) == es
    requires forall m :: m in es ==> Boxed(m)
    ensures forall m :: m in Members(gs[i]) ==> Boxed(m)
  {
    FlattenPrefix(gs);
    if i < |gs| - 1 {
      MembersBoxed(gs[..|gs| - 1], i, Flatten(gs[..|gs| - 1]));
      assert gs[..|gs| - 1][i] == gs[i];
    }
  }

  lemma FlattenPrefix(gs: seq<Group>)
    requires gs != []
    ensures Flatten(gs) == Flatten(gs[..|gs| - 1]) + Members(gs[|gs| - 1])
  {
  }

  /** Gluing keeps every outline frame supplied with its text box. */
  lemma MergeKeepsBoxed(elements: seq<Element>, incoming: seq<Element>, size: Pair, pos: Pair)
    requires AllBoxed(elements) && AllBoxed(incoming)
    requires Merge(elements, incoming, size, pos).Success?
    ensures AllBoxed(Merge(elements, incoming, size, pos).value)
  {
    var r := Merge(elements, incoming, size, pos).value;
    if EndsInPage(elements) && !IsPage(incoming[0]) {
      var page := elements[|elements| - 1];
      var before := elements[..|elements| - 1];
      AllBoxedLast(elements);
      WrappedAllBoxed(incoming);
      AppendInOutlineSpec(page, Wrapped(incoming));
      var last := r[|r| - 1];
      assert r == before + [last];
      if AppendInOutline(page, Wrapped(incoming)).NotFound? {
        if IsFrame(incoming[0]) {
          AllBoxedAppend(page.children, incoming);
        } else {
          var frame := TextFrame(Outline, OutlineTextStyle, size, pos, Wrapped(incoming));
          assert Boxed(frame.children[0]);
          assert AllBoxed(frame.children);
          AllBoxedAppend(page.children, [frame]);
        }
      }
      AllBoxedAppend(before, [last]);
    } else {
      AllBoxedAppend(elements, incoming);
    }
  }

  /** Gluing puts the incoming content into the last slide's existing outline text box. */
  predicate HitsOutline(elements: seq<Element>, incoming: seq<Element>)
  {
    && EndsInPage(elements) && incoming != [] && !IsPage(incoming[0])
    && AppendInOutline(elements[|elements| - 1], Wrapped(incoming)).Found?
  }

  /**
   * Gluing loses no text and adds only the incoming text: the incoming
   * text follows the old text, except when it goes into the last slide's
   * outline text box, where it is inserted right after that box's old text.
   */
  lemma MergeKeepsText(elements: seq<Element>, incoming: seq<Element>, size: Pair, pos: Pair)
    requires Merge(elements, incoming, size, pos).Success?
    ensures !HitsOutline(elements, incoming) ==>
      ContentSeq(Merge(elements, incoming, size, pos).value) == ContentSeq(elements) + ContentSeq(incoming)
    ensures HitsOutline(elements, incoming) ==>
      var page := elements[|elements| - 1];
      && ReadToBox(page).Found?
      && Inserted(ContentSeq(elements), ContentSeq(elements[..|elements| - 1]) + ReadToBox(page).value,
                  ContentSeq(incoming), ContentSeq(Merge(elements, incoming, size, pos).value))
  {
    if EndsInPage(elements) && !IsPage(incoming[0]) {
      MergeOnPageText(elements, incoming, size, pos);
    } else {
      ContentSeqAppend(elements, incoming);
    }
  }

  lemma MergeOnPageText(elements: seq<Element>, incoming: seq<Element>, size: Pair, pos: Pair)
    requires EndsInPage(elements) && incoming != [] && !IsPage(incoming[0])
    requires Merge(elements, incoming, size, pos).Success?
    ensures !HitsOutline(elements, incoming) ==>
      ContentSeq(Merge(elements, incoming, size, pos).value) == ContentSeq(elements) + ContentSeq(incoming)
    ensures HitsOutline(elements, incoming) ==>
      var page := elements[|elements| - 1];
      && ReadToBox(page).Found?
      && Inserted(ContentSeq(elements), ContentSeq(elements[..|elements| - 1]) + ReadToBox(page).value,
                  ContentSeq(incoming), ContentSeq(Merge(elements, incoming, size, pos).value))
  {
    var r := Merge(elements, incoming, size, pos).value;
    var page := elements[|elements| - 1];
    var before := elements[..|elements| - 1];
    var q := r[|r| - 1];
    assert r == before + [q];
    SplitLastElement(elements);
    ContentSeqSnoc(before, page);
    ContentSeqSnoc(before, q);
    assert ContentSeq(elements) == ContentSeq(before) + Content(page);
    assert ContentSeq(r) == ContentSeq(before) + Content(q);
    GluedPageText(page, incoming, size, pos, q);
    if HitsOutline(elements, incoming) {
      InsertedPrefix(ContentSeq(before), Content(page), ReadToBox(page).value, ContentSeq(incoming), Content(q));
    } else {
      TextAfter(ContentSeq(elements), ContentSeq(r), ContentSeq(before), Content(page), Content(q), ContentSeq(incoming));
    }
  }

  lemma TextAfter(t: string, r: string, b: string, p: string, q: string, i: string)
    requires t == b + p && r == b + q && q == p + i
    ensures r == t + i
  {
  }

  /**
   * The slide that `Merge` glues the incoming content into: the content's
   * text goes right after the outline box's old text when the box is found,
   * and after the slide's old text otherwise.
   */
  lemma GluedPageText(page: Element, incoming: seq<Element>, size: Pair, pos: Pair, q: Element)
    requires IsPage(page) && incoming != [] && !IsPage(incoming[0])
    requires match AppendInOutline(page, Wrapped(incoming))
      case Found(p) => q == p
      case NoTextBox => false
      case NotFound =>
        q == if IsFrame(incoming[0]) then AppendChildren(page, incoming)
             else AppendChildren(page, [TextFrame(Outline, OutlineTextStyle, size, pos, Wrapped(incoming))])
    ensures AppendInOutline(page, Wrapped(incoming)).Found? ==>
      ReadToBox(page).Found? && Inserted(Content(page), ReadToBox(page).value, ContentSeq(incoming), Content(q))
    ensures AppendInOutline(page, Wrapped(incoming)).NotFound? ==> Content(q) == Content(page) + ContentSeq(incoming)
  {
    var w := Wrapped(incoming);
    WrappedContent(incoming);
    match AppendInOutline(page, w)
    case Found(_) =>
      OutlineLands(page, w);
    case NotFound =>
      if IsFrame(incoming[0]) {
        AppendedContent(page, incoming);
      } else {
        var frame := TextFrame(Outline, OutlineTextStyle, size, pos, w);
        AppendedContent(page, [frame]);
        ContentSeqOne(frame);
        FrameText(Outline, OutlineTextStyle, size, pos, w);
      }
  }

  /** A frame reads as the content of its text box. */
  lemma FrameText(role: Role, style: string, size: Pair, pos: Pair, content: seq<Element>)
    ensures Content(TextFrame(role, style, size, pos, content)) == ContentSeq(content)
  {
    var box := Element(TextBox, content);
    ElementContent(TextBox, content);
    ContentSeqOne(box);
    ElementContent(Frame(role, style, size, pos), [box]);
  }

  // ---------------------------------------------------------------------------
  // The tree object

  /** The operand of `+` and `+=`: a string, or another partial tree. */
  datatype Operand = Text(s: string) | Tree(tree: PartialTree)

  class PartialTree {
    var elements: seq<Element>
    const outlineSize: Pair
    const outlinePosition: Pair

    /** `ODFPartialTree(elements, outline_size, outline_position)`. */
    constructor (elements: seq<Element>, outlineSize: Pair, outlinePosition: Pair)
      ensures this.elements == elements
      ensures this.outlineSize == outlineSize && this.outlinePosition == outlinePosition
    {
      this.elements := elements;
      this.outlineSize := outlineSize;
      this.outlinePosition := outlinePosition;
    }

    /** `get()`: the element list. */
    function Get(): seq<Element>
      reads this
    {
      elements
    }

    /** `add_child_elems(elems)`; on an exception the tree is left as it was. */
    method AddChildElems(elems: seq<Element>) returns (err: Option<Error>)
      modifies this
      ensures match Merge(old(elements), elems, outlineSize, outlinePosition)
        case Success(r) => err == None && elements == r
        case Failure(e) => err == Some(e) && elements == old(elements)
    {
      var n := |elements|;
      if n > 0 && IsPage(elements[n - 1]) {
        if elems == [] {
          return Some(IndexError);
        }
        if !IsPage(elems[0]) {
          var page := elements[n - 1];
          var wrapped := WrapSpans(elems);
          match AppendInOutline(page, wrapped)
          case Found(p) =>
            elements := elements[..n - 1] + [p];
            return None;
          case NoTextBox =>
            return Some(IndexError);
          case NotFound =>
          if IsFrame(elems[0]) {
            elements := elements[..n - 1] + [AppendChildren(page, elems)];
          } else {
            var frame := TextFrame(Outline, OutlineTextStyle, outlineSize, outlinePosition, wrapped);
            elements := elements[..n - 1] + [AppendChildren(page, [frame])];
          }
          return None;
        }
      }
      elements := elements + elems;
      return None;
    }

    /** `add_text(text)`: a plain span holding the text. */
    method AddText(text: string)
      modifies this
      ensures elements == old(elements) + [TextSpan(text)]
    {
      elements := elements + [TextSpan(text)];
    }

    /**
     * `__add__`: a new tree over a copy of the list. The source copies only
     * the list, so its last slide object is shared and a merge onto that
     * slide changes this tree's slide too; slides are values here, so this
     * tree stays exactly as it was.
     */
    method Plus(other: Operand) returns (tmp: PartialTree, err: Option<Error>)
      ensures fresh(tmp) && tmp.outlineSize == outlineSize && tmp.outlinePosition == outlinePosition
      ensures other.Text? ==> err == None && tmp.elements == elements + [TextSpan(other.s)]
      ensures other.Tree? ==> match Merge(elements, other.tree.elements, outlineSize, outlinePosition)
        case Success(r) => err == None && tmp.elements == r
        case Failure(e) => err == Some(e) && tmp.elements == elements
    {
      tmp := new PartialTree(elements, outlineSize, outlinePosition);
      err := None;
      match other
      case Text(s) =>
        tmp.AddText(s);
      case Tree(t) =>
        err := tmp.AddChildElems(t.Get());
    }

    /** `__iadd__`: glue onto this tree itself. */
    method PlusAssign(other: Operand) returns (err: Option<Error>)
      modifies this
      ensures other.Text? ==> err == None && elements == old(elements) + [TextSpan(other.s)]
      ensures other.Tree? ==> match Merge(old(elements), old(other.tree.elements), outlineSize, outlinePosition)
        case Success(r) => err == None && elements == r
        case Failure(e) => err == Some(e) && elements == old(elements)
    {
      err := None;
      match other
      case Text(s) =>
        AddText(s);
      case Tree(t) =>
        err := AddChildElems(t.Get());
    }

    /** `__copy__`: a new tree over a copy of the element list. */
    method Copy() returns (t: PartialTree)
      ensures fresh(t) && t.elements == elements
      ensures t.outlineSize == outlineSize && t.outlinePosition == outlinePosition
    {
      t := new PartialTree(elements, outlineSize, outlinePosition);
    }
  }
}
