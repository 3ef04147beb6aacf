/**
 * `ODFFormatter` (odpdown.py:247-389): turns a highlighter's token stream
 * into styled spans for a code paragraph.
 *
 * A token category is a path from the root category (`Token`) down, so
 * `Token.Literal.String` is `["Literal", "String"]` and the parent of a
 * category drops its last component. The style table maps a category to
 * the chain of text styles its nested spans carry, outermost first.
 * Formatting resolves each token's category to its nearest ancestor in
 * the table, joins consecutive tokens of one category into a run, and
 * turns each run into spans: every run but the last through the
 * whitespace splitter, the last one as a single span.
 */
module Formatting {
  import opened Odf
  import opened Whitespace

  type TokenType = seq<string>

  datatype Token = Token(ttype: TokenType, value: string)

  /** The four attributes of a highlighter style entry the formatter reads; "" is no colour. */
  datatype StyleDef = StyleDef(color: string, bold: bool, italic: bool, underline: bool)

  /** One entry of the highlighter style: a category and its style. */
  datatype StyleItem = StyleItem(ttype: TokenType, style: StyleDef)

  type StyleTable = map<TokenType, seq<string>>

  const BoldStyle: string := "md2odp-TBold"
  const ItalicStyle: string := "md2odp-TItalic"
  const UnderlineStyle: string := "md2odp-TUnderline"

  function ColorStyle(color: string): string { "md2odp-TColor" + color }

  // ---------------------------------------------------------------------------
  // Style chains (odpdown.py:262-302)

  /** The nesting position of a style name: colour, bold, italic, underline. */
  function Rank(name: string): nat
  {
    if name == BoldStyle then 1
    else if name == ItalicStyle then 2
    else if name == UnderlineStyle then 3
    else 0
  }

  /** The style names of the nested spans for one style entry, outermost first. */
  function StyleChain(s: StyleDef): seq<string>
  {
    (if s.color != "" then [ColorStyle(s.color)] else [])
    + (if s.bold then [BoldStyle] else [])
    + (if s.italic then [ItalicStyle] else [])
    + (if s.underline then [UnderlineStyle] else [])
  }

  /**
   * The chain holds a style exactly when its attribute is set, nests them
   * colour, bold, italic, underline from the outside in, and is empty
   * exactly when no attribute is set (the source's `root_elem is None`).
   */
  lemma StyleChainSpec(s: StyleDef)
    ensures var c := StyleChain(s);
      && (s.color != "" <==> ColorStyle(s.color) in c)
      && (s.bold <==> BoldStyle in c)
      && (s.italic <==> ItalicStyle in c)
      && (s.underline <==> UnderlineStyle in c)
      && (forall i, j :: 0 <= i < j < |c| ==> Rank(c[i]) < Rank(c[j]))
      && (c == [] <==> s.color == "" && !s.bold && !s.italic && !s.underline)
  {
    StyleNamesDistinct(s.color);
    StyleChainMembers(s);
    StyleChainOrdered(s);
  }

  lemma StyleNamesDistinct(color: string)
    ensures Rank(ColorStyle(color)) == 0 && Rank(BoldStyle) == 1 && Rank(ItalicStyle) == 2 && Rank(UnderlineStyle) == 3
  {
    assert ColorStyle(color)[8] == 'C' && BoldStyle[8] == 'B' && ItalicStyle[8] == 'I' && UnderlineStyle[8] == 'U';
  }

  lemma StyleChainMembers(s: StyleDef)
    requires Rank(ColorStyle(s.color)) == 0 && Rank(BoldStyle) == 1 && Rank(ItalicStyle) == 2 && Rank(UnderlineStyle) == 3
    ensures var c := StyleChain(s);
      && (s.color != "" <==> ColorStyle(s.color) in c)
      && (s.bold <==> BoldStyle in c)
      && (s.italic <==> ItalicStyle in c)
      && (s.underline <==> UnderlineStyle in c)
      && (c == [] <==> s.color == "" && !s.bold && !s.italic && !s.underline)
  {
  }

  lemma StyleChainOrdered(s: StyleDef)
    requires Rank(ColorStyle(s.color)) == 0 && Rank(BoldStyle) == 1 && Rank(ItalicStyle) == 2 && Rank(UnderlineStyle) == 3
    ensures var c := StyleChain(s);
      forall i, j :: 0 <= i < j < |c| ==> Rank(c[i]) < Rank(c[j])
  {
  }

  /**
   * The per-entry loop body of `__init__` (odpdown.py:263-300): each set
   * attribute opens a span, nested into the innermost one so far.
   */
  method BuildChain(s: StyleDef) returns (chain: seq<string>)
    ensures chain == StyleChain(s)
  {
    chain := [];
    if s.color != "" {
      chain := [ColorStyle(s.color)];
    }
    if s.bold {
      chain := chain + [BoldStyle];
    }
    if s.italic {
      chain := chain + [ItalicStyle];
    }
    if s.underline {
      chain := chain + [UnderlineStyle];
    }
  }

  /** The table `__init__` builds: later entries for a category replace earlier ones. */
  function Table(items: seq<StyleItem>): StyleTable
  {
    if items == [] then map[]
    else Table(items[..|items| - 1])[items[|items| - 1].ttype := StyleChain(items[|items| - 1].style)]
  }

  /** Index `i` holds the last entry of the style for its category. */
  predicate LastEntry(items: seq<StyleItem>, i: int)
  {
    0 <= i < |items| && forall j :: i < j < |items| ==> items[j].ttype != items[i].ttype
  }

  /** The table has an entry for exactly the categories the style names. */
  lemma {:induction false} TableKeys(items: seq<StyleItem>)
    ensures Table(items).Keys == set i | 0 <= i < |items| :: items[i].ttype
  {
    if items != [] {
      var n := |items| - 1;
      var init := items[..n];
      TableKeys(init);
      var s := set i | 0 <= i < |items| :: items[i].ttype;
      var s0 := set i | 0 <= i < |init| :: init[i].ttype;
      forall x ensures x in s <==> x in s0 + {items[n].ttype} {
        if x in s {
          var i :| 0 <= i < |items| && items[i].ttype == x;
          if i < n { assert init[i] == items[i]; }
        }
        if x in s0 {
          var i :| 0 <= i < |init| && init[i].ttype == x;
          assert items[i] == init[i];
        }
      }
    }
  }

  /** A category's chain is the one of its last entry: later entries override earlier ones. */
  lemma {:induction false} TableLastEntry(items: seq<StyleItem>, i: int)
    requires LastEntry(items, i)
    ensures items[i].ttype in Table(items) && Table(items)[items[i].ttype] == StyleChain(items[i].style)
  {
    var n := |items| - 1;
    if i < n {
      var init := items[..n];
      assert init[i] == items[i];
      assert LastEntry(init, i) by {
        forall j | i < j < |init| ensures init[j].ttype != init[i].ttype {
          assert init[j] == items[j];
        }
      }
      TableLastEntry(init, i);
    }
  }

  /** `add_style_defs` (odpdown.py:304-325): the names of the text styles it defines, in order. */
  function StyleDefNames(items: seq<StyleItem>): seq<string>
  {
    if items == [] then [] else StyleDefNames(items[..|items| - 1]) + StyleChain(items[|items| - 1].style)
  }

  /** Every style a formatted span can carry is one that `add_style_defs` defines. */
  lemma {:induction false} StyleDefsCoverTable(items: seq<StyleItem>)
    ensures forall t, name :: t in Table(items) && name in Table(items)[t] ==> name in StyleDefNames(items)
  {
    if items != [] {
      var init := items[..|items| - 1];
      StyleDefsCoverTable(init);
      forall t, name | t in Table(items) && name in Table(items)[t] ensures name in StyleDefNames(items) {
        if t != items[|items| - 1].ttype {
          assert name in StyleDefNames(init);
        }
      }
    }
  }

  // ---------------------------------------------------------------------------
  // Category resolution (odpdown.py:342-343)

  predicate IsPrefix(p: TokenType, t: TokenType) { |p| <= |t| && t[..|p|] == p }

  /**
   * The nearest ancestor of `t` (itself included) that is in the table;
   * `None` when there is none, where the walk reaches `None.parent`.
   */
  function Resolve(styles: StyleTable, t: TokenType): Option<TokenType>
    decreases |t|
  {
    if t in styles then Some(t)
    else if t == [] then None
    else Resolve(styles, t[..|t| - 1])
  }

  /**
   * Resolution finds an ancestor in the table, and no nearer ancestor is
   * in the table; it fails exactly when no ancestor is.
   */
  lemma {:induction false} ResolveSpec(styles: StyleTable, t: TokenType)
    ensures Resolve(styles, t).Some? ==> var r := Resolve(styles, t).value;
      r in styles && IsPrefix(r, t) && forall k :: |r| < k <= |t| ==> t[..k] !in styles
    ensures Resolve(styles, t).None? <==> forall k :: 0 <= k <= |t| ==> t[..k] !in styles
    decreases |t|
  {
    assert t[..|t|] == t;
    if t !in styles && t != [] {
      var up := t[..|t| - 1];
      ResolveSpec(styles, up);
      assert forall k :: 0 <= k <= |up| ==> up[..k] == t[..k];
    }
  }

  /** The resolved stream, or `None` as soon as one category cannot be resolved. */
  function ResolveAll(styles: StyleTable, ts: seq<Token>): Option<seq<Token>>
  {
    if ts == [] then Some([])
    else
      match ResolveAll(styles, ts[..|ts| - 1])
      case None => None
      case Some(rs) =>
        match Resolve(styles, ts[|ts| - 1].ttype)
        case None => None
        case Some(r) => Some(rs + [Token(r, ts[|ts| - 1].value)])
  }

  /** The stream resolves exactly when each token does, token by token, keeping the values. */
  lemma {:induction false} ResolveAllSpec(styles: StyleTable, ts: seq<Token>)
    ensures ResolveAll(styles, ts).None? <==> exists i :: 0 <= i < |ts| && Resolve(styles, ts[i].ttype).None?
    ensures ResolveAll(styles, ts).Some? ==> var rs := ResolveAll(styles, ts).value;
      |rs| == |ts| && forall i :: 0 <= i < |ts| ==> rs[i] == Token(Resolve(styles, ts[i].ttype).value, ts[i].value)
  {
    if ts != [] {
      var init := ts[..|ts| - 1];
      ResolveAllSpec(styles, init);
      assert forall i :: 0 <= i < |init| ==> init[i] == ts[i];
    }
  }

  /** `while ttype not in self.styles: ttype = ttype.parent`. */
  method ResolveCategory(styles: StyleTable, t: TokenType) returns (r: Option<TokenType>)
    ensures r == Resolve(styles, t)
  {
    var cur := t;
    while cur !in styles
      invariant |cur| <= |t| && Resolve(styles, cur) == Resolve(styles, t)
      decreases |cur|
    {
      if cur == [] {
        return None;
      }
      cur := cur[..|cur| - 1];
    }
    return Some(cur);
  }

  // ---------------------------------------------------------------------------
  // Runs and the output they give

  /** A buffer: consecutive tokens of one resolved category, values joined. */
  datatype Run = Run(ttype: TokenType, text: string)

  /** One token more: it extends the last run if it has the same category, else opens one. */
  function AddToken(rs: seq<Run>, t: Token): seq<Run>
  {
    if rs != [] && rs[|rs| - 1].ttype == t.ttype then rs[..|rs| - 1] + [Run(t.ttype, rs[|rs| - 1].text + t.value)]
    else rs + [Run(t.ttype, t.value)]
  }

  /** The cutting of a resolved stream into maximal runs of one category. */
  function Runs(ts: seq<Token>): seq<Run>
  {
    if ts == [] then [] else AddToken(Runs(ts[..|ts| - 1]), ts[|ts| - 1])
  }

  function TokenText(ts: seq<Token>): string
  {
    if ts == [] then "" else TokenText(ts[..|ts| - 1]) + ts[|ts| - 1].value
  }

  function RunText(rs: seq<Run>): string
  {
    if rs == [] then "" else RunText(rs[..|rs| - 1]) + rs[|rs| - 1].text
  }

  lemma AddTokenSpec(rs: seq<Run>, t: Token)
    requires forall i :: 0 <= i < |rs| - 1 ==> rs[i].ttype != rs[i + 1].ttype
    ensures RunText(AddToken(rs, t)) == RunText(rs) + t.value
    ensures forall i :: 0 <= i < |AddToken(rs, t)| - 1 ==> AddToken(rs, t)[i].ttype != AddToken(rs, t)[i + 1].ttype
    ensures AddToken(rs, t) != [] && AddToken(rs, t)[|AddToken(rs, t)| - 1].ttype == t.ttype
  {
    var rs' := AddToken(rs, t);
    if rs != [] && rs[|rs| - 1].ttype == t.ttype {
      var init := rs[..|rs| - 1];
      assert rs == init + [rs[|rs| - 1]];
      assert rs'[..|rs'| - 1] == init;
    } else {
      assert rs'[..|rs'| - 1] == rs;
    }
  }

  /**
   * Runs keep the text of the stream in order, adjacent runs have different
   * categories, there is a run exactly when there is a token, and each run
   * is a block of consecutive tokens of its category (`RunsBlocks`).
   */
  lemma {:induction false} RunsSpec(ts: seq<Token>)
    ensures RunText(Runs(ts)) == TokenText(ts)
    ensures forall i :: 0 <= i < |Runs(ts)| - 1 ==> Runs(ts)[i].ttype != Runs(ts)[i + 1].ttype
    ensures (Runs(ts) == []) == (ts == [])
    ensures RunsOfBlocks(Runs(ts), Blocks(ts)) && Flatten(Blocks(ts)) == ts
  {
    if ts != [] {
      RunsSpec(ts[..|ts| - 1]);
      AddTokenSpec(Runs(ts[..|ts| - 1]), ts[|ts| - 1]);
    }
    RunsBlocks(ts);
  }

  /** A cutting of a token stream into blocks: block k is non-empty, all of run k's category, and holds run k's text. */
  predicate RunsOfBlocks(rs: seq<Run>, bs: seq<seq<Token>>)
  {
    && |rs| == |bs|
    && forall k :: 0 <= k < |bs| ==>
         && bs[k] != []
         && rs[k].text == TokenText(bs[k])
         && forall j :: 0 <= j < |bs[k]| ==> bs[k][j].ttype == rs[k].ttype
  }

  function Flatten(bs: seq<seq<Token>>): seq<Token>
  {
    if bs == [] then [] else Flatten(bs[..|bs| - 1]) + bs[|bs| - 1]
  }

  /** The tokens behind each run, cut the way `Runs` cuts the stream. */
  function Blocks(ts: seq<Token>): seq<seq<Token>>
  {
    if ts == [] then []
    else
      var t, rs, bs := ts[|ts| - 1], Runs(ts[..|ts| - 1]), Blocks(ts[..|ts| - 1]);
      if rs != [] && rs[|rs| - 1].ttype == t.ttype && bs != [] then bs[..|bs| - 1] + [bs[|bs| - 1] + [t]]
      else bs + [[t]]
  }

  /**
   * The runs are the stream cut into consecutive non-empty blocks: the
   * blocks concatenate to the stream, each block's tokens all have its
   * run's category, and the run's text is the block's values joined.
   * With adjacent runs of different categories, every block is maximal.
   */
  lemma {:induction false} RunsBlocks(ts: seq<Token>)
    ensures RunsOfBlocks(Runs(ts), Blocks(ts)) && Flatten(Blocks(ts)) == ts
  {
    if ts != [] {
      var init, t := ts[..|ts| - 1], ts[|ts| - 1];
      RunsBlocks(init);
      var rs, bs := Runs(init), Blocks(init);
      if rs != [] && rs[|rs| - 1].ttype == t.ttype {
        BlocksJoin(rs, bs, t);
        FlattenJoin(bs, t);
      } else {
        BlocksOpen(rs, bs, t);
        FlattenOpen(bs, t);
      }
      SplitLastToken(ts);
    }
  }

  lemma SplitLastToken(ts: seq<Token>)
    requires ts != []
    ensures ts == ts[..|ts| - 1] + [ts[|ts| - 1]]
  {
  }

  lemma TokenTextSnoc(b: seq<Token>, t: Token)
    ensures TokenText(b + [t]) == TokenText(b) + t.value
  {
    assert (b + [t])[..|b|] == b;
  }

  /** A token of the last run's category joins the last block. */
  lemma BlocksJoin(rs: seq<Run>, bs: seq<seq<Token>>, t: Token)
    requires RunsOfBlocks(rs, bs) && rs != [] && rs[|rs| - 1].ttype == t.ttype
    ensures RunsOfBlocks(AddToken(rs, t), bs[..|bs| - 1] + [bs[|bs| - 1] + [t]])
  {
    var m := |bs| - 1;
    TokenTextSnoc(bs[m], t);
  }

  /** A token of another category opens a block of its own. */
  lemma BlocksOpen(rs: seq<Run>, bs: seq<seq<Token>>, t: Token)
    requires RunsOfBlocks(rs, bs) && !(rs != [] && rs[|rs| - 1].ttype == t.ttype)
    ensures RunsOfBlocks(AddToken(rs, t), bs + [[t]])
  {
    TokenTextSnoc([], t);
  }

  lemma FlattenJoin(bs: seq<seq<Token>>, t: Token)
    requires bs != []
    ensures Flatten(bs[..|bs| - 1] + [bs[|bs| - 1] + [t]]) == Flatten(bs) + [t]
  {
    var init, last := bs[..|bs| - 1], bs[|bs| - 1];
    FlattenSnoc(init, last + [t]);
    FlattenSnoc(init, last);
    assert init + [last] == bs;
  }

  lemma FlattenOpen(bs: seq<seq<Token>>, t: Token)
    ensures Flatten(bs + [[t]]) == Flatten(bs) + [t]
  {
    FlattenSnoc(bs, [t]);
  }

  lemma FlattenSnoc(bs: seq<seq<Token>>, b: seq<Token>)
    ensures Flatten(bs + [b]) == Flatten(bs) + b
  {
    assert (bs + [b])[..|bs|] == bs;
  }

  /** The nested spans for a chain holding `text` in the innermost one; a plain span for no chain. */
  function Styled(chain: seq<string>, text: string): (e: Element)
    ensures IsInline(e) && Content(e) == text
    ensures StylePath(e) == chain
    decreases |chain|
  {
    if chain == [] then TextSpan(text)
    else if |chain| == 1 then Leaf(Span(Some(chain[0]), text))
    else
      var inner := Styled(chain[1..], text);
      assert ContentSeq([inner]) == Content(inner);
      Element(Span(Some(chain[0]), ""), [inner])
  }

  /** The styles met going from a span into its first child, outermost first. */
  function StylePath(e: Element): seq<string>
  {
    if e.kind.Span? && e.kind.spanStyle.Some? then
      [e.kind.spanStyle.value] + (if e.children == [] then [] else StylePath(e.children[0]))
    else []
  }

  function ChainOf(styles: StyleTable, t: TokenType): seq<string>
  {
    if t in styles then styles[t] else []
  }

  function PieceElement(chain: seq<string>, p: Piece): Element
  {
    if p.Lit? then Styled(chain, p.text) else MarkerElement(p)
  }

  /**
   * A non-final flush (odpdown.py:352-371): one element per piece, in order;
   * a literal becomes a span nest carrying the chain's styles and reading as
   * the literal, a marker stays a marker (not a span) reading as its piece.
   */
  function FlushPieces(chain: seq<string>, ps: seq<Piece>): (es: seq<Element>)
    ensures |es| == |ps|
    ensures forall i :: 0 <= i < |ps| ==>
      if ps[i].Lit? then IsInline(es[i]) && StylePath(es[i]) == chain && Content(es[i]) == ps[i].text
      else !IsInline(es[i]) && Content(es[i]) == PieceText(ps[i])
  {
    seq(|ps|, i requires 0 <= i < |ps| => PieceElement(chain, ps[i]))
  }

  function NonFinalFlush(chain: seq<string>, text: string): seq<Element>
  {
    if text == "" then [] else FlushPieces(chain, WhitespacePieces(text))
  }

  /** The final flush (odpdown.py:377-387): one span holding the whole buffer. */
  function FinalFlush(chain: seq<string>, text: string): seq<Element>
  {
    if text == "" then [] else [Styled(chain, text)]
  }

  function Flushed(styles: StyleTable, rs: seq<Run>): seq<Element>
  {
    if rs == [] then []
    else Flushed(styles, rs[..|rs| - 1]) + NonFinalFlush(ChainOf(styles, rs[|rs| - 1].ttype), rs[|rs| - 1].text)
  }

  /** The output for a resolved stream: every run flushed, the last one by the final flush. */
  function Output(styles: StyleTable, resolved: seq<Token>): seq<Element>
  {
    var rs := Runs(resolved);
    if rs == [] then []
    else Flushed(styles, rs[..|rs| - 1]) + FinalFlush(ChainOf(styles, rs[|rs| - 1].ttype), rs[|rs| - 1].text)
  }

  /** What `format(tokensource)` returns, or the exception it raises. */
  function FormatResult(styles: StyleTable, tokens: seq<Token>): Result<seq<Element>, Error>
  {
    match ResolveAll(styles, tokens)
    case None => Failure(AttributeError)
    case Some(rs) => Success(Output(styles, rs))
  }

  // ---------------------------------------------------------------------------
  // Properties of the output

  lemma {:induction false} FlushPiecesText(chain: seq<string>, ps: seq<Piece>)
    ensures ContentSeq(FlushPieces(chain, ps)) == Render(ps)
  {
    if ps != [] {
      FlushPiecesText(chain, ps[1..]);
      assert FlushPieces(chain, ps)[1..] == FlushPieces(chain, ps[1..]);
      if !ps[0].Lit? {
        assert Content(MarkerElement(ps[0])) == PieceText(ps[0]);
      }
    }
  }

  lemma {:induction false} FlushedText(styles: StyleTable, rs: seq<Run>)
    ensures ContentSeq(Flushed(styles, rs)) == RunText(rs)
  {
    if rs != [] {
      var r := rs[|rs| - 1];
      FlushedText(styles, rs[..|rs| - 1]);
      ContentSeqAppend(Flushed(styles, rs[..|rs| - 1]), NonFinalFlush(ChainOf(styles, r.ttype), r.text));
      if r.text != "" {
        FlushPiecesText(ChainOf(styles, r.ttype), WhitespacePieces(r.text));
        WhitespaceRoundTrip(r.text);
      }
    }
  }

  lemma {:induction false} ResolvedText(styles: StyleTable, ts: seq<Token>)
    requires ResolveAll(styles, ts).Some?
    ensures TokenText(ResolveAll(styles, ts).value) == TokenText(ts)
  {
    if ts != [] {
      ResolvedText(styles, ts[..|ts| - 1]);
      var rs := ResolveAll(styles, ts).value;
      assert rs[..|rs| - 1] == ResolveAll(styles, ts[..|ts| - 1]).value;
    }
  }

  lemma OutputText(styles: StyleTable, resolved: seq<Token>)
    ensures ContentSeq(Output(styles, resolved)) == TokenText(resolved)
  {
    RunsSpec(resolved);
    var rs := Runs(resolved);
    if rs != [] {
      var init, last := rs[..|rs| - 1], rs[|rs| - 1];
      var tail := FinalFlush(ChainOf(styles, last.ttype), last.text);
      assert Output(styles, resolved) == Flushed(styles, init) + tail;
      FlushedText(styles, init);
      FinalFlushText(ChainOf(styles, last.ttype), last.text);
      ContentSeqAppend(Flushed(styles, init), tail);
      assert RunText(rs) == RunText(init) + last.text;
    }
  }

  lemma FinalFlushText(chain: seq<string>, text: string)
    ensures ContentSeq(FinalFlush(chain, text)) == text
  {
    if text != "" {
      var e := Styled(chain, text);
      assert [e][1..] == [];
      assert ContentSeq([e]) == Content(e) + "";
    }
  }

  /** Every block flushed by the non-final flush, each with the chain of its own tokens' category. */
  function BlockFlushes(styles: StyleTable, bs: seq<seq<Token>>): seq<Element>
    requires forall k :: 0 <= k < |bs| ==> bs[k] != []
  {
    if bs == [] then []
    else BlockFlushes(styles, bs[..|bs| - 1]) + NonFinalFlush(ChainOf(styles, bs[|bs| - 1][0].ttype), TokenText(bs[|bs| - 1]))
  }

  /** The output read off the blocks: all but the last flushed through the splitter, the last as one span. */
  function OutputOfBlocks(styles: StyleTable, bs: seq<seq<Token>>): seq<Element>
    requires forall k :: 0 <= k < |bs| ==> bs[k] != []
  {
    if bs == [] then []
    else BlockFlushes(styles, bs[..|bs| - 1]) + FinalFlush(ChainOf(styles, bs[|bs| - 1][0].ttype), TokenText(bs[|bs| - 1]))
  }

  lemma {:induction false} FlushedBlocks(styles: StyleTable, rs: seq<Run>, bs: seq<seq<Token>>)
    requires RunsOfBlocks(rs, bs)
    ensures Flushed(styles, rs) == BlockFlushes(styles, bs)
  {
    if rs != [] {
      var n := |rs| - 1;
      assert bs[n][0].ttype == rs[n].ttype;
      PrefixRunsOfBlocks(rs, bs);
      FlushedBlocks(styles, rs[..n], bs[..n]);
    }
  }

  lemma PrefixRunsOfBlocks(rs: seq<Run>, bs: seq<seq<Token>>)
    requires RunsOfBlocks(rs, bs) && rs != []
    ensures RunsOfBlocks(rs[..|rs| - 1], bs[..|bs| - 1])
  {
    var n := |rs| - 1;
    forall k | 0 <= k < n ensures rs[..n][k] == rs[k] && bs[..n][k] == bs[k] {
    }
  }

  /**
   * `format` coalesces consecutive tokens of one resolved category into one
   * buffer and flushes it with that category's chain: the resolved stream
   * is cut into consecutive non-empty blocks of one category each, adjacent
   * blocks differ in category, and the output is every block's values
   * flushed with the chain of its category, the last block as one span.
   */
  lemma FormatBlocks(styles: StyleTable, tokens: seq<Token>)
    requires FormatResult(styles, tokens).Success?
    ensures var resolved := ResolveAll(styles, tokens).value;
      var bs := Blocks(resolved);
      && Flatten(bs) == resolved
      && (forall k :: 0 <= k < |bs| ==> bs[k] != [] && forall j :: 0 <= j < |bs[k]| ==> bs[k][j].ttype == bs[k][0].ttype)
      && (forall k :: 0 <= k < |bs| - 1 ==> bs[k][0].ttype != bs[k + 1][0].ttype)
      && FormatResult(styles, tokens).value == OutputOfBlocks(styles, bs)
  {
    var resolved := ResolveAll(styles, tokens).value;
    assert FormatResult(styles, tokens).value == Output(styles, resolved);
    BlocksShape(resolved);
    OutputBlocks(styles, resolved);
  }

  /** The blocks concatenate to the stream, share a category each, and adjacent ones differ. */
  lemma BlocksShape(ts: seq<Token>)
    ensures var bs := Blocks(ts);
      && Flatten(bs) == ts
      && (forall k :: 0 <= k < |bs| ==> bs[k] != [] && forall j :: 0 <= j < |bs[k]| ==> bs[k][j].ttype == bs[k][0].ttype)
      && (forall k :: 0 <= k < |bs| - 1 ==> bs[k][0].ttype != bs[k + 1][0].ttype)
  {
    var rs: seq<Run> := Runs(ts);
    var bs: seq<seq<Token>> := Blocks(ts);
    RunsSpec(ts);
    forall k | 0 <= k < |bs| - 1 ensures bs[k][0].ttype != bs[k + 1][0].ttype {
      assert bs[k][0].ttype == rs[k].ttype && bs[k + 1][0].ttype == rs[k + 1].ttype;
    }
  }

  lemma OutputBlocks(styles: StyleTable, ts: seq<Token>)
    requires forall k :: 0 <= k < |Blocks(ts)| ==> Blocks(ts)[k] != []
    ensures Output(styles, ts) == OutputOfBlocks(styles, Blocks(ts))
  {
    var rs: seq<Run> := Runs(ts);
    var bs: seq<seq<Token>> := Blocks(ts);
    RunsBlocks(ts);
    if rs != [] {
      var n := |rs| - 1;
      assert bs[n][0].ttype == rs[n].ttype;
      PrefixRunsOfBlocks(rs, bs);
      FlushedBlocks(styles, rs[..n], bs[..n]);
    }
  }

  /** Formatting neither loses nor invents text: the spans read as the tokens' values joined. */
  lemma FormatKeepsText(styles: StyleTable, tokens: seq<Token>)
    requires FormatResult(styles, tokens).Success?
    ensures ContentSeq(FormatResult(styles, tokens).value) == TokenText(tokens)
  {
    ResolvedText(styles, tokens);
    OutputText(styles, ResolveAll(styles, tokens).value);
  }

  /** No ancestor of `t`, itself included, has an entry in the table. */
  predicate Unresolvable(styles: StyleTable, t: TokenType)
  {
    forall k :: 0 <= k <= |t| ==> t[..k] !in styles
  }

  /** Formatting fails exactly when some token's category has no ancestor in the table. */
  lemma FormatFails(styles: StyleTable, tokens: seq<Token>)
    ensures FormatResult(styles, tokens).Failure? <==> exists i :: 0 <= i < |tokens| && Unresolvable(styles, tokens[i].ttype)
    ensures FormatResult(styles, tokens).Failure? ==> FormatResult(styles, tokens).error == AttributeError
  {
    ResolveAllSpec(styles, tokens);
    forall i | 0 <= i < |tokens| ensures Resolve(styles, tokens[i].ttype).None? <==> Unresolvable(styles, tokens[i].ttype) {
      ResolveSpec(styles, tokens[i].ttype);
    }
  }

  /** An empty token stream formats to nothing. */
  lemma FormatEmpty(styles: StyleTable)
    ensures FormatResult(styles, []) == Success([])
  {
  }

  lemma ResolveSingle(styles: StyleTable, t: Token)
    requires t.ttype in styles
    ensures ResolveAll(styles, [t]) == Some([t])
  {
    assert [t][..0] == [];
    assert [] + [Token(t.ttype, t.value)] == [t];
  }

  lemma OutputSingle(styles: StyleTable, t: Token)
    requires t.ttype in styles && t.value != ""
    ensures Output(styles, [t]) == [Styled(styles[t.ttype], t.value)]
  {
    assert [t][..0] == [];
    assert Runs([t]) == [Run(t.ttype, t.value)];
  }

  /**
   * A single token is one span holding its whole value, with no line or
   * whitespace splitting, when the value is not empty.
   */
  lemma FormatSingle(styles: StyleTable, t: Token)
    requires t.ttype in styles && t.value != ""
    ensures FormatResult(styles, [t]) == Success([Styled(styles[t.ttype], t.value)])
  {
    ResolveSingle(styles, t);
    OutputSingle(styles, t);
  }

  lemma ResolveAllStep(styles: StyleTable, tokens: seq<Token>, i: nat)
    requires i < |tokens| && ResolveAll(styles, tokens[..i]).Some? && Resolve(styles, tokens[i].ttype).Some?
    ensures ResolveAll(styles, tokens[..i + 1])
      == Some(ResolveAll(styles, tokens[..i]).value + [Token(Resolve(styles, tokens[i].ttype).value, tokens[i].value)])
  {
    assert tokens[..i + 1][..i] == tokens[..i];
  }

  lemma ResolveAllFailsAt(styles: StyleTable, tokens: seq<Token>, i: nat)
    requires i < |tokens| && Resolve(styles, tokens[i].ttype).None?
    ensures ResolveAll(styles, tokens) == None
  {
    ResolveAllSpec(styles, tokens);
  }

  /** How the runs, and the flushed part of the output, change with one more token. */
  lemma RunsStep(resolved: seq<Token>, tok: Token)
    ensures Runs(resolved + [tok]) == AddToken(Runs(resolved), tok)
    ensures var rs, rs' := Runs(resolved), AddToken(Runs(resolved), tok);
      rs' != [] &&
      if rs != [] && rs[|rs| - 1].ttype == tok.ttype then
        rs'[..|rs'| - 1] == rs[..|rs| - 1] && rs'[|rs'| - 1] == Run(tok.ttype, rs[|rs| - 1].text + tok.value)
      else
        rs'[..|rs'| - 1] == rs && rs'[|rs'| - 1] == Run(tok.ttype, tok.value)
  {
    assert (resolved + [tok])[..|resolved|] == resolved;
  }

  lemma FlushPiecesSnoc(chain: seq<string>, ps: seq<Piece>, p: Piece)
    ensures FlushPieces(chain, ps + [p]) == FlushPieces(chain, ps) + [PieceElement(chain, p)]
  {
  }

  lemma FlushedStep(styles: StyleTable, rs: seq<Run>)
    requires rs != []
    ensures Flushed(styles, rs) == Flushed(styles, rs[..|rs| - 1]) + NonFinalFlush(ChainOf(styles, rs[|rs| - 1].ttype), rs[|rs| - 1].text)
  {
  }

  /**
   * The loop state of `format` against the runs read so far: the buffer is
   * the last run, and everything before it has been flushed.
   */
  predicate FormatTracks(styles: StyleTable, runs: seq<Run>, result: seq<Element>, lastval: string, lasttype: Option<TokenType>)
  {
    && (lasttype.None? ==> runs == [] && result == [] && lastval == "")
    && (lasttype.Some? ==>
          && runs != [] && runs[|runs| - 1] == Run(lasttype.value, lastval)
          && result == Flushed(styles, runs[..|runs| - 1]))
  }

  /** A token of the buffered category joins the buffer. */
  lemma SameCategoryTracks(styles: StyleTable, runs: seq<Run>, result: seq<Element>, lastval: string,
                           lasttype: Option<TokenType>, tok: Token)
    requires FormatTracks(styles, runs, result, lastval, lasttype)
    requires lasttype.Some? && tok.ttype == lasttype.value
    ensures FormatTracks(styles, AddToken(runs, tok), result, lastval + tok.value, lasttype)
  {
    var runs' := AddToken(runs, tok);
    assert runs'[..|runs'| - 1] == runs[..|runs| - 1];
  }

  /** A token of another category flushes the buffer, then starts a new one. */
  lemma NewCategoryTracks(styles: StyleTable, runs: seq<Run>, result: seq<Element>, lastval: string,
                          lasttype: Option<TokenType>, tok: Token)
    requires FormatTracks(styles, runs, result, lastval, lasttype)
    requires !(lasttype.Some? && tok.ttype == lasttype.value)
    ensures lastval == "" ==> FormatTracks(styles, AddToken(runs, tok), result, tok.value, Some(tok.ttype))
    ensures lastval != "" ==>
      && lasttype.Some?
      && FormatTracks(styles, AddToken(runs, tok),
           result + FlushPieces(ChainOf(styles, lasttype.value), WhitespacePieces(lastval)), tok.value, Some(tok.ttype))
  {
    var runs' := AddToken(runs, tok);
    assert runs' == runs + [Run(tok.ttype, tok.value)];
    assert runs'[..|runs'| - 1] == runs;
    if lasttype.Some? {
      FlushedStep(styles, runs);
      if lastval == "" {
        assert result + [] == result;
      }
    }
  }

  /** After the last token, flushing the buffer as one span completes the output. */
  lemma FinalTracks(styles: StyleTable, resolved: seq<Token>, result: seq<Element>, lastval: string, lasttype: Option<TokenType>)
    requires FormatTracks(styles, Runs(resolved), result, lastval, lasttype)
    ensures lastval == "" ==> Output(styles, resolved) == result
    ensures lastval != "" ==> lasttype.Some? && Output(styles, resolved) == result + [Styled(ChainOf(styles, lasttype.value), lastval)]
  {
    if lasttype.Some? && lastval == "" {
      assert result + [] == result;
    }
  }

  // ---------------------------------------------------------------------------
  // The formatter object

  class Formatter {
    /** The highlighter style the formatter was created with. */
    const items: seq<StyleItem>
    /** `self.styles`: category to nested span chain. */
    const styles: StyleTable

    /** `__init__` (odpdown.py:249-302). */
    constructor (items: seq<StyleItem>)
      ensures this.items == items && styles == Table(items)
    {
      var table: StyleTable := map[];
      for i := 0 to |items|
        invariant table == Table(items[..i])
      {
        assert items[..i + 1][..i] == items[..i];
        var chain := BuildChain(items[i].style);
        table := table[items[i].ttype := chain];
      }
      assert items[..|items|] == items;
      this.items := items;
      this.styles := table;
    }

    /** `add_style_defs` (odpdown.py:304-325), reduced to the names of the styles it adds. */
    method AddStyleDefs() returns (names: seq<string>)
      ensures names == StyleDefNames(items)
    {
      names := [];
      for i := 0 to |items|
        invariant names == StyleDefNames(items[..i])
      {
        assert items[..i + 1][..i] == items[..i];
        var chain := BuildChain(items[i].style);
        names := names + chain;
      }
      assert items[..|items|] == items;
    }

    /** Turns a buffer into spans and markers, for every flush but the last. */
    method FlushBuffer(chain: seq<string>, text: string) returns (out: seq<Element>)
      ensures out == FlushPieces(chain, WhitespacePieces(text))
    {
      var pieces := HandleWhitespace(text);
      out := [];
      for k := 0 to |pieces|
        invariant out == FlushPieces(chain, pieces[..k])
      {
        var p := pieces[k];
        assert pieces[..k + 1] == pieces[..k] + [p];
        FlushPiecesSnoc(chain, pieces[..k], p);
        if p.Lit? {
          out := out + [Styled(chain, p.text)];
        } else {
          out := out + [MarkerElement(p)];
        }
      }
      assert pieces[..|pieces|] == pieces;
    }

    /** `format(tokensource)` (odpdown.py:327-389). */
    method Format(tokens: seq<Token>) returns (r: Result<seq<Element>, Error>)
      ensures r == FormatResult(styles, tokens)
    {
      var result: seq<Element> := [];
      var lastval := "";
      var lasttype: Option<TokenType> := None;
      ghost var resolved: seq<Token> := [];
      ghost var runs: seq<Run> := [];
      for i := 0 to |tokens|
        invariant ResolveAll(styles, tokens[..i]) == Some(resolved) && runs == Runs(resolved)
        invariant FormatTracks(styles, runs, result, lastval, lasttype)
      {
        var ttype := ResolveCategory(styles, tokens[i].ttype);
        if ttype.None? {
          ResolveAllFailsAt(styles, tokens, i);
          return Failure(AttributeError);
        }
        var tok := Token(ttype.value, tokens[i].value);
        ResolveAllStep(styles, tokens, i);
        RunsStep(resolved, tok);
        if lasttype.Some? && ttype.value == lasttype.value {
          SameCategoryTracks(styles, runs, result, lastval, lasttype, tok);
          lastval := lastval + tokens[i].value;
        } else {
          NewCategoryTracks(styles, runs, result, lastval, lasttype, tok);
          if lastval != "" {
            var flushed := FlushBuffer(ChainOf(styles, lasttype.value), lastval);
            result := result + flushed;
          }
          lastval := tokens[i].value;
          lasttype := ttype;
        }
        resolved := resolved + [tok];
        runs := AddToken(runs, tok);
      }
      assert tokens[..|tokens|] == tokens;
      assert FormatResult(styles, tokens) == Success(Output(styles, resolved));
      FinalTracks(styles, resolved, result, lastval, lasttype);
      if lastval != "" {
        result := result + [Styled(ChainOf(styles, lasttype.value), lastval)];
      }
      return Success(result);
    }
  }
}
