/**
 * `wrap_spans` (odpdown.py:100-117): every maximal run of adjacent inline
 * elements (spans and links) at the top level of a list is replaced by one
 * new paragraph holding that run; every other element keeps its place and
 * ends the run before it.
 *
 * The reference definition is `Groups`, the cutting of the list into runs
 * and single block elements; `GroupsUnique` shows that it is the only
 * cutting with the properties the source promises, and `Wrapped` emits a
 * paragraph per run.
 */
module SpanWrap {
  import opened Odf

  /** A maximal run of inline elements, or one element that is not inline. */
  datatype Group = Run(spans: seq<Element>) | Block(elem: Element)

  function Members(g: Group): seq<Element>
  {
    match g
    case Run(spans) => spans
    case Block(e) => [e]
  }

  /** The elements of the groups, in order: what the groups cut up. */
  function Flatten(gs: seq<Group>): seq<Element>
  {
    if gs == [] then [] else Flatten(gs[..|gs| - 1]) + Members(gs[|gs| - 1])
  }

  predicate RunsNonEmpty(gs: seq<Group>)
  {
    forall i :: 0 <= i < |gs| && gs[i].Run? ==> |gs[i].spans| > 0
  }

  predicate RunsInline(gs: seq<Group>)
  {
    forall i :: 0 <= i < |gs| && gs[i].Run? ==> forall j :: 0 <= j < |gs[i].spans| ==> IsInline(gs[i].spans[j])
  }

  predicate BlocksNotInline(gs: seq<Group>)
  {
    forall i :: 0 <= i < |gs| && gs[i].Block? ==> !IsInline(gs[i].elem)
  }

  predicate RunsApart(gs: seq<Group>)
  {
    forall i :: 0 <= i < |gs| - 1 ==> !(gs[i].Run? && gs[i + 1].Run?)
  }

  /** Runs are non-empty and inline, blocks are not inline, and no two runs touch. */
  predicate WellFormed(gs: seq<Group>)
  {
    RunsNonEmpty(gs) && RunsInline(gs) && BlocksNotInline(gs) && RunsApart(gs)
  }

  function Last(gs: seq<Group>): Group requires gs != [] { gs[|gs| - 1] }

  function AllButLast(gs: seq<Group>): seq<Group> requires gs != [] { gs[..|gs| - 1] }

  /** One element more: an inline element joins a trailing run or opens one. */
  function Extend(gs: seq<Group>, e: Element): seq<Group>
  {
    if !IsInline(e) then gs + [Block(e)]
    else if gs != [] && Last(gs).Run? then AllButLast(gs) + [Run(Last(gs).spans + [e])]
    else gs + [Run([e])]
  }

  /** The cutting of `es` into groups, built up one element at a time. */
  function Groups(es: seq<Element>): seq<Group>
  {
    if es == [] then [] else Extend(Groups(es[..|es| - 1]), es[|es| - 1])
  }

  /** `odf_create_paragraph()` holding a run, or the block element itself. */
  function Emit(g: Group): Element
  {
    match g
    case Run(spans) => Element(Para(None), spans)
    case Block(e) => e
  }

  function EmitAll(gs: seq<Group>): (es: seq<Element>)
    ensures |es| == |gs| && forall i :: 0 <= i < |gs| ==> es[i] == Emit(gs[i])
  {
    seq(|gs|, i requires 0 <= i < |gs| => Emit(gs[i]))
  }

  /** What `wrap_spans` returns. */
  function Wrapped(es: seq<Element>): seq<Element>
  {
    EmitAll(Groups(es))
  }

  lemma EmitAllSnoc(gs: seq<Group>, g: Group)
    ensures EmitAll(gs + [g]) == EmitAll(gs) + [Emit(g)]
  {
  }

  lemma GroupsStep(es: seq<Element>, i: nat)
    requires i < |es|
    ensures Groups(es[..i + 1]) == Extend(Groups(es[..i]), es[i])
  {
    assert es[..i + 1][..i] == es[..i];
  }

  /**
   * odpdown.py:100-117: collect inline elements into a pending paragraph,
   * flush it before the next block element and at the end.
   */
  method WrapSpans(elements: seq<Element>) returns (res: seq<Element>)
    ensures res == Wrapped(elements)
  {
    res := [];
    var para: Option<Element> := None;
    for i := 0 to |elements|
      invariant Tracks(Groups(elements[..i]), res, para)
    {
      var elem := elements[i];
      GroupsStep(elements, i);
      if IsInline(elem) {
        TracksInline(Groups(elements[..i]), res, para, elem);
        if para.None? {
          para := Some(Element(Para(None), []));
        }
        para := Some(AppendChildren(para.value, [elem]));
      } else {
        TracksBlock(Groups(elements[..i]), res, para, elem);
        if para.Some? {
          res := res + [para.value];
          para := None;
        }
        res := res + [elem];
      }
    }
    assert elements[..|elements|] == elements;
    TracksEnd(Groups(elements), res, para);
    if para.Some? {
      res := res + [para.value];
    }
  }

  /** The paragraph `para` still to be flushed, as a sequence of at most one element. */
  function Pending(para: Option<Element>): seq<Element>
  {
    if para.Some? then [para.value] else []
  }

  /**
   * The loop state of `WrapSpans` against the groups cut so far: the output
   * holds every group but an open run, which is the pending paragraph.
   */
  predicate Tracks(gs: seq<Group>, res: seq<Element>, para: Option<Element>)
  {
    && (para.None? ==> res == EmitAll(gs) && (gs == [] || !Last(gs).Run?))
    && (para.Some? ==>
          && gs != [] && Last(gs) == Run(para.value.children)
          && para.value.kind == Para(None) && res == EmitAll(AllButLast(gs)))
  }

  /** An inline element opens the pending paragraph if there is none, and joins it. */
  lemma TracksInline(gs: seq<Group>, res: seq<Element>, para: Option<Element>, e: Element)
    requires Tracks(gs, res, para) && IsInline(e)
    ensures var p := if para.Some? then para.value else Element(Para(None), []);
      Tracks(Extend(gs, e), res, Some(AppendChildren(p, [e])))
  {
    ExtendShape(gs, e);
  }

  /** A block element flushes the pending paragraph, then goes out itself. */
  lemma TracksBlock(gs: seq<Group>, res: seq<Element>, para: Option<Element>, e: Element)
    requires Tracks(gs, res, para) && !IsInline(e)
    ensures Tracks(Extend(gs, e), res + Pending(para) + [e], None)
  {
    ExtendShape(gs, e);
    if para.Some? {
      FlushLast(gs);
    } else {
      assert res + Pending(para) == res;
    }
    EmitAllSnoc(gs, Block(e));
  }

  /** At the end, flushing the pending paragraph completes the output. */
  lemma TracksEnd(gs: seq<Group>, res: seq<Element>, para: Option<Element>)
    requires Tracks(gs, res, para)
    ensures res + Pending(para) == EmitAll(gs)
  {
    if para.Some? {
      FlushLast(gs);
    } else {
      assert res + [] == res;
    }
  }

  /** How one more element changes the groups: a block is appended, an inline element extends or opens the last run. */
  lemma ExtendShape(gs: seq<Group>, e: Element)
    ensures !IsInline(e) ==> Extend(gs, e) == gs + [Block(e)]
    ensures IsInline(e) ==> Extend(gs, e) != [] && Last(Extend(gs, e)).Run?
    ensures IsInline(e) && gs != [] && Last(gs).Run? ==>
      AllButLast(Extend(gs, e)) == AllButLast(gs) && Last(Extend(gs, e)) == Run(Last(gs).spans + [e])
    ensures IsInline(e) && !(gs != [] && Last(gs).Run?) ==>
      AllButLast(Extend(gs, e)) == gs && Last(Extend(gs, e)) == Run([e])
  {
  }

  /** Emitting all groups is emitting all but the last, then the last. */
  lemma FlushLast(gs: seq<Group>)
    requires gs != []
    ensures EmitAll(gs) == EmitAll(AllButLast(gs)) + [Emit(Last(gs))]
  {
    EmitAllSnoc(AllButLast(gs), Last(gs));
    assert AllButLast(gs) + [Last(gs)] == gs;
  }

  // ---------------------------------------------------------------------------
  // Properties

  lemma FlattenSnoc(gs: seq<Group>, g: Group)
    ensures Flatten(gs + [g]) == Flatten(gs) + Members(g)
  {
    assert (gs + [g])[..|gs|] == gs;
  }

  lemma ExtendCovers(gs: seq<Group>, e: Element)
    ensures Flatten(Extend(gs, e)) == Flatten(gs) + [e]
  {
    if IsInline(e) && gs != [] && Last(gs).Run? {
      var init, sp := AllButLast(gs), Last(gs).spans;
      assert gs == init + [Last(gs)];
      FlattenSnoc(init, Last(gs));
      FlattenSnoc(init, Run(sp + [e]));
    } else if IsInline(e) {
      FlattenSnoc(gs, Run([e]));
    } else {
      FlattenSnoc(gs, Block(e));
    }
  }

  lemma ExtendWellFormed(gs: seq<Group>, e: Element)
    requires WellFormed(gs)
    ensures WellFormed(Extend(gs, e))
  {
    var r := Extend(gs, e);
    if IsInline(e) && gs != [] && Last(gs).Run? {
      assert forall i :: 0 <= i < |gs| - 1 ==> r[i] == gs[i];
      assert RunsInline(r) by {
        forall i | 0 <= i < |r| && r[i].Run?
          ensures forall j :: 0 <= j < |r[i].spans| ==> IsInline(r[i].spans[j])
        {
          if i < |gs| - 1 { assert r[i] == gs[i]; }
        }
      }
    } else {
      assert forall i :: 0 <= i < |gs| ==> r[i] == gs[i];
    }
  }

  lemma GroupsCover(es: seq<Element>)
    ensures Flatten(Groups(es)) == es
  {
    CoverPrefix(es, |es|);
    assert es[..|es|] == es;
  }

  lemma {:induction false} CoverPrefix(es: seq<Element>, i: nat)
    requires i <= |es|
    ensures Flatten(Groups(es[..i])) == es[..i]
  {
    if i > 0 {
      CoverPrefix(es, i - 1);
      GroupsStep(es, i - 1);
      ExtendCovers(Groups(es[..i - 1]), es[i - 1]);
      TakeSnoc(es, i);
    }
  }

  lemma TakeSnoc<T>(s: seq<T>, i: nat)
    requires 0 < i <= |s|
    ensures s[..i - 1] + [s[i - 1]] == s[..i]
  {
  }

  lemma {:induction false} GroupsWellFormed(es: seq<Element>)
    ensures WellFormed(Groups(es))
  {
    if es != [] {
      GroupsWellFormed(es[..|es| - 1]);
      ExtendWellFormed(Groups(es[..|es| - 1]), es[|es| - 1]);
    }
  }

  /**
   * Flattening the groups gives the input back in order, and the groups are
   * well formed: every created paragraph holds a non-empty run of inline
   * elements, and no two created paragraphs are adjacent.
   */
  lemma GroupsSpec(es: seq<Element>)
    ensures Flatten(Groups(es)) == es
    ensures WellFormed(Groups(es))
  {
    GroupsCover(es);
    GroupsWellFormed(es);
  }

  lemma WellFormedPrefix(gs: seq<Group>)
    requires gs != [] && WellFormed(gs)
    ensures WellFormed(AllButLast(gs))
  {
    var init := AllButLast(gs);
    assert forall i :: 0 <= i < |init| ==> init[i] == gs[i];
  }

  /** Every non-empty well-formed cutting is one `Extend` away from a shorter one. */
  lemma PeelLast(gs: seq<Group>) returns (prev: seq<Group>, x: Element)
    requires gs != [] && WellFormed(gs)
    ensures WellFormed(prev) && Flatten(prev) + [x] == Flatten(gs) && Extend(prev, x) == gs
  {
    var init := AllButLast(gs);
    WellFormedPrefix(gs);
    SplitLast(gs);
    FlattenSnoc(init, Last(gs));
    match Last(gs)
    case Block(e) =>
      prev, x := init, e;
      assert !IsInline(e) by { assert gs[|gs| - 1] == Block(e); }
      ExtendShape(init, e);
    case Run(spans) =>
      assert gs[|gs| - 1].Run?;
      x := spans[|spans| - 1];
      var sp := spans[..|spans| - 1];
      SnocLast(spans);
      assert IsInline(x) by { assert gs[|gs| - 1].spans[|spans| - 1] == x; }
      if sp == [] {
        prev := init;
        assert init == [] || !Last(init).Run? by {
          if init != [] { assert Last(init) == gs[|gs| - 2]; }
        }
        ExtendShape(init, x);
        SplitLast(Extend(init, x));
      } else {
        prev := init + [Run(sp)];
        FlattenSnoc(init, Run(sp));
        AppendAssoc(Flatten(init), sp, [x]);
        ShorterRunWellFormed(gs, sp);
        SplitSnoc(init, Run(sp));
        ExtendShape(prev, x);
        SplitLast(Extend(prev, x));
      }
  }

  lemma SplitLast(gs: seq<Group>)
    requires gs != []
    ensures gs == AllButLast(gs) + [Last(gs)]
  {
  }

  lemma SplitSnoc(gs: seq<Group>, g: Group)
    ensures AllButLast(gs + [g]) == gs && Last(gs + [g]) == g
  {
    assert (gs + [g])[..|gs|] == gs;
  }

  lemma SnocLast<T>(s: seq<T>)
    requires s != []
    ensures s[..|s| - 1] + [s[|s| - 1]] == s
  {
  }

  lemma AppendAssoc<T>(a: seq<T>, b: seq<T>, c: seq<T>)
    ensures (a + b) + c == a + (b + c)
  {
  }

  /** The cutting is determined by those properties: any other such cutting is `Groups(es)`. */
  lemma {:induction false} GroupsUnique(es: seq<Element>, gs: seq<Group>)
    requires WellFormed(gs) && Flatten(gs) == es
    ensures gs == Groups(es)
    decreases |es|
  {
    if gs != [] {
      var prev, x := PeelLast(gs);
      assert es[..|es| - 1] == Flatten(prev);
      GroupsUnique(Flatten(prev), prev);
      assert Groups(es) == Extend(Groups(es[..|es| - 1]), x);
    }
  }

  lemma ShorterRunWellFormed(gs: seq<Group>, sp: seq<Element>)
    requires gs != [] && WellFormed(gs) && Last(gs).Run?
    requires sp != [] && |sp| < |Last(gs).spans| && Last(gs).spans[..|sp|] == sp
    ensures WellFormed(AllButLast(gs) + [Run(sp)])
  {
    var r := AllButLast(gs) + [Run(sp)];
    assert forall i :: 0 <= i < |gs| - 1 ==> r[i] == gs[i];
    assert RunsInline(r) by {
      forall i | 0 <= i < |r| && r[i].Run?
        ensures forall j :: 0 <= j < |r[i].spans| ==> IsInline(r[i].spans[j])
      {
        if i < |gs| - 1 {
          assert r[i] == gs[i];
        } else {
          assert forall j :: 0 <= j < |sp| ==> sp[j] == gs[|gs| - 1].spans[j];
        }
      }
    }
  }

  /** No top-level element of the result is a span or a link. */
  lemma WrappedHasNoInline(es: seq<Element>)
    ensures forall i :: 0 <= i < |Wrapped(es)| ==> !IsInline(Wrapped(es)[i])
  {
    GroupsWellFormed(es);
  }

  lemma {:induction false} WrapNoInlineIsIdentity(es: seq<Element>)
    requires forall i :: 0 <= i < |es| ==> !IsInline(es[i])
    ensures Wrapped(es) == es
    ensures Groups(es) == seq(|es|, i requires 0 <= i < |es| => Block(es[i]))
  {
    if es != [] {
      WrapNoInlineIsIdentity(es[..|es| - 1]);
    }
  }

  /** Wrapping twice is wrapping once. */
  lemma WrapIdempotent(es: seq<Element>)
    ensures Wrapped(Wrapped(es)) == Wrapped(es)
  {
    WrappedHasNoInline(es);
    WrapNoInlineIsIdentity(Wrapped(es));
  }

  lemma {:induction false} EmitAllContent(gs: seq<Group>)
    ensures ContentSeq(EmitAll(gs)) == ContentSeq(Flatten(gs))
  {
    if gs != [] {
      var init, g := AllButLast(gs), Last(gs);
      assert gs == init + [g];
      EmitAllContent(init);
      EmitAllSnoc(init, g);
      FlattenSnoc(init, g);
      ContentSeqAppend(EmitAll(init), [Emit(g)]);
      ContentSeqAppend(Flatten(init), Members(g));
      EmitContent(g);
    }
  }

  lemma EmitContent(g: Group)
    ensures ContentSeq([Emit(g)]) == ContentSeq(Members(g))
  {
    var e := Emit(g);
    assert [e][1..] == [];
    assert ContentSeq([e]) == Content(e) + "";
    if g.Run? {
      ElementContent(Para(None), g.spans);
    } else {
      assert [g.elem][1..] == [];
    }
  }

  /** Wrapping never adds or loses text. */
  lemma WrappedContent(es: seq<Element>)
    ensures ContentSeq(Wrapped(es)) == ContentSeq(es)
  {
    EmitAllContent(Groups(es));
    GroupsCover(es);
  }
}
