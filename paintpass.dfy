/**
 * The painter object of the editor: its per-pass fields (the visible
 * selection, the selected span of the current row, the token accumulator)
 * and the loops of a paint pass over rows, tokens, edit areas and indent
 * guides, with the drawing calls taken out. What each loop would draw is
 * returned as a value.
 */
module SynPaintPass {
  import opened SynTypes
  import SynDocument
  import opened SynPainter

  // ---------------------------------------------------------------------------
  // The token accumulator (addHighlightToken)

  /**
   * mTokenAccu: a run of adjacent tokens drawn with one paintHighlightToken
   * call, starting at pixel `left`, `width` pixels wide, covering glyphs
   * [startGlyph, endGlyph) of the line.
   */
  datatype TokenAccu = TokenAccu(
    width: nat,
    left: int,
    startGlyph: int,
    endGlyph: int,
    style: FontStyles,
    foreground: Color,
    background: Color,
    showSpecialGlyphs: bool)

  /** The colours and font style a token is drawn with. */
  datatype Look = Look(style: FontStyles, foreground: Color, background: Color)

  /** colEditorBG: the active-line colour on the current line when it is valid, else the background. */
  function EditorBackground(ed: Editor, isCurrentLine: bool): Color
  {
    if ed.activeLineColor.Rgb? && isCurrentLine then ed.activeLineColor else ed.backgroundColor
  }

  /**
   * The look of a token: the attribute's style and colours, an invalid
   * background replaced by the editor background and an invalid foreground
   * by the editor foreground.
   */
  function TokenLook(ed: Editor, isCurrentLine: bool, attr: TokenAttribute): (r: Look)
    ensures r.style == attr.styles
    ensures attr.foreground.Rgb? ==> r.foreground == attr.foreground
    ensures attr.background.Rgb? ==> r.background == attr.background
    ensures attr.foreground.Invalid? ==> r.foreground == ed.foregroundColor
    ensures attr.background.Invalid? ==> r.background == EditorBackground(ed, isCurrentLine)
  {
    Look(attr.styles,
         if attr.foreground.Invalid? then ed.foregroundColor else attr.foreground,
         if attr.background.Invalid? then EditorBackground(ed, isCurrentLine) else attr.background)
  }

  /** A token joins the run when the run is not empty and style, glyph display and colours all match. */
  predicate CanAppend(accu: TokenAccu, look: Look, showGlyphs: bool)
  {
    accu.width > 0 && accu.style == look.style && accu.showSpecialGlyphs == showGlyphs
    && accu.background == look.background && accu.foreground == look.foreground
  }

  /** The outcome of adding one token: the new run, whether the old run was painted first, and the token's width. */
  datatype Added = Added(accu: TokenAccu, flushed: bool, tokenWidth: nat)

  /**
   * addHighlightToken for a token at tokenLeft measured as m. A non-empty
   * run that the token cannot join is painted first. A token left of the
   * right edge then either extends the run or starts a new one of its own;
   * a token at or past the edge leaves the run as it is, except that the
   * run's font style always becomes the token's.
   */
  function AddToken(accu: TokenAccu, right: int, tokenLeft: int, look: Look, showGlyphs: bool, m: Measured): (r: Added)
    ensures r.tokenWidth == m.width
    ensures r.flushed <==> accu.width > 0 && !CanAppend(accu, look, showGlyphs)
    ensures r.accu.style == look.style
    ensures tokenLeft >= right ==> r.accu == accu.(style := look.style)
    ensures tokenLeft < right && CanAppend(accu, look, showGlyphs) ==>
      r.accu == accu.(width := accu.width + m.width, endGlyph := m.endGlyph)
    ensures tokenLeft < right && !CanAppend(accu, look, showGlyphs) ==>
      r.accu == TokenAccu(m.width, tokenLeft, m.startGlyph, m.endGlyph, look.style, look.foreground, look.background, showGlyphs)
  {
    var canAppend := CanAppend(accu, look, showGlyphs);
    var styled := accu.(style := look.style);
    var next :=
      if tokenLeft >= right then styled
      else if canAppend then styled.(width := accu.width + m.width, endGlyph := m.endGlyph)
      else TokenAccu(m.width, tokenLeft, m.startGlyph, m.endGlyph, look.style, look.foreground, look.background, showGlyphs);
    Added(next, accu.width > 0 && !canAppend, m.width)
  }

  /**
   * addHighlightToken as a whole: the token's look from its attribute, its
   * measure in that look's style at tokenLeft, then AddToken. The result is
   * the new run, the token's width and the run painted first, if any.
   */
  function AddHighlight(ed: Editor, isCurrentLine: bool, right: int, accu: TokenAccu, lineText: string, tokenLeft: int,
                        attr: TokenAttribute, showGlyphs: bool, tokenStartChar: int, tokenEndChar: int)
    : (TokenAccu, nat, Option<TokenAccu>)
  {
    var look := TokenLook(ed, isCurrentLine, attr);
    var step := AddToken(accu, right, tokenLeft, look, showGlyphs,
                         ed.measure(lineText, tokenStartChar, tokenEndChar, look.style, tokenLeft));
    (step.accu, step.tokenWidth, if step.flushed then Some(accu) else None)
  }

  /**
   * The run ends where the next token starts, unless the pass has already
   * reached the right edge; a non-empty run starts left of the edge.
   */
  predicate RunEndsAt(accu: TokenAccu, tokenLeft: int, right: int)
  {
    accu.width > 0 ==>
      accu.left < right && accu.left + accu.width <= tokenLeft
      && (accu.left + accu.width == tokenLeft || tokenLeft >= right)
  }

  /** Adding a token keeps the run contiguous with the token position, and only a visible run is painted. */
  lemma AddTokenKeepsRun(accu: TokenAccu, right: int, tokenLeft: int, look: Look, showGlyphs: bool, m: Measured)
    requires RunEndsAt(accu, tokenLeft, right)
    ensures var r := AddToken(accu, right, tokenLeft, look, showGlyphs, m);
      RunEndsAt(r.accu, tokenLeft + r.tokenWidth, right)
      && (r.flushed ==> accu.width > 0 && accu.left < right)
  {
  }

  // ---------------------------------------------------------------------------
  // The token pass over one line (paintLines)

  /** The tokenizer never reports an empty token, so the token loop always advances. */
  predicate NonEmptyTokens(tokens: seq<Token>)
  {
    forall k :: 0 <= k < |tokens| ==> |tokens[k].text| > 0
  }

  predicate IsOpeningBracket(s: string)
  {
    s == "[" || s == "(" || s == "{"
  }

  predicate IsClosingBracket(s: string)
  {
    s == "]" || s == ")" || s == "}"
  }

  /** The nesting depth the tokenizer reports: brackets, braces and parentheses together. */
  function Nesting(s: SyntaxState): int
  {
    s.bracketLevel + s.braceLevel + s.parenthesisLevel
  }

  /**
   * The attribute a token is drawn with: an opening bracket takes the
   * rainbow colour of the current nesting depth, a closing one that of the
   * depth plus one; every other token keeps its own.
   */
  function TokenAttr(ed: Editor, t: Token): (a: TokenAttribute)
    ensures !IsOpeningBracket(t.text) && !IsClosingBracket(t.text) ==> a == t.attr
    ensures a != t.attr ==> ed.showRainbowColor && t.attr.tokenType == Operator
  {
    if IsOpeningBracket(t.text) then BraceColorAttr(ed, Nesting(t.state), t.attr)
    else if IsClosingBracket(t.text) then BraceColorAttr(ed, Nesting(t.state) + 1, t.attr)
    else t.attr
  }

  /**
   * Whether a whitespace token shows its space and tab glyphs: leading,
   * trailing and inner whitespace each have their own option; any other
   * token shows none.
   */
  function ShowGlyph(ed: Editor, lineText: string, t: Token, attr: TokenAttribute): (b: bool)
    ensures b ==> attr.tokenType == Space
    ensures attr.tokenType == Space && t.pos == 0 ==> (b <==> ed.showLeadingSpaces)
    ensures attr.tokenType == Space && t.pos > 0 && t.pos + |t.text| == |lineText| ==> (b <==> ed.showTrailingSpaces)
    ensures attr.tokenType == Space && t.pos > 0 && t.pos + |t.text| != |lineText| ==> (b <==> ed.showInnerSpaces)
  {
    if attr.tokenType != Space then false
    else if t.pos == 0 then ed.showLeadingSpaces
    else if t.pos + |t.text| == |lineText| then ed.showTrailingSpaces
    else ed.showInnerSpaces
  }

  /** The state of the token pass: the run, the next token position, and the runs painted so far. */
  datatype PassState = PassState(accu: TokenAccu, tokenLeft: int, flushed: seq<TokenAccu>)

  /** One token of the pass: recolour, add to the run, advance by its width. */
  function PassToken(ed: Editor, isCurrentLine: bool, right: int, lineText: string, t: Token, st: PassState): PassState
  {
    var attr := TokenAttr(ed, t);
    var added := AddHighlight(ed, isCurrentLine, right, st.accu, lineText, st.tokenLeft, attr,
                              ShowGlyph(ed, lineText, t, attr), t.pos, t.pos + |t.text|);
    PassState(added.0, st.tokenLeft + added.1, st.flushed + (if added.2.Some? then [added.2.value] else []))
  }

  /** The token pass over the given tokens, in order. */
  function Pass(ed: Editor, isCurrentLine: bool, right: int, lineText: string, tokens: seq<Token>, st: PassState): PassState
    decreases |tokens|
  {
    if |tokens| == 0 then st
    else Pass(ed, isCurrentLine, right, lineText, tokens[1..], PassToken(ed, isCurrentLine, right, lineText, tokens[0], st))
  }

  /**
   * The width of a line from tokenLeft on: each token measured in its own
   * font style at the position where the previous one ended. It depends
   * neither on colours nor on the run.
   */
  function PassWidth(ed: Editor, lineText: string, tokens: seq<Token>, tokenLeft: int): int
    decreases |tokens|
  {
    if |tokens| == 0 then tokenLeft
    else
      var t := tokens[0];
      PassWidth(ed, lineText, tokens[1..],
                tokenLeft + ed.measure(lineText, t.pos, t.pos + |t.text|, TokenAttr(ed, t).styles, tokenLeft).width)
  }

  /** Every painted run is non-empty and starts left of the right edge. */
  predicate FlushedVisible(flushed: seq<TokenAccu>, right: int)
  {
    forall k :: 0 <= k < |flushed| ==> flushed[k].width > 0 && flushed[k].left < right
  }

  /** One token of the pass keeps the run contiguous, paints only a visible run and advances by the token's width. */
  lemma PassTokenKeepsRun(ed: Editor, isCurrentLine: bool, right: int, lineText: string, t: Token, st: PassState)
    requires RunEndsAt(st.accu, st.tokenLeft, right) && FlushedVisible(st.flushed, right)
    ensures var r := PassToken(ed, isCurrentLine, right, lineText, t, st);
      RunEndsAt(r.accu, r.tokenLeft, right) && FlushedVisible(r.flushed, right) && st.flushed <= r.flushed
      && r.tokenLeft == st.tokenLeft + ed.measure(lineText, t.pos, t.pos + |t.text|, TokenAttr(ed, t).styles, st.tokenLeft).width
  {
    var attr := TokenAttr(ed, t);
    var look := TokenLook(ed, isCurrentLine, attr);
    var m := ed.measure(lineText, t.pos, t.pos + |t.text|, look.style, st.tokenLeft);
    AddTokenKeepsRun(st.accu, right, st.tokenLeft, look, ShowGlyph(ed, lineText, t, attr), m);
  }

  /**
   * The pass keeps the run contiguous with the token position and paints
   * only visible non-empty runs; it only appends to the painted runs, and
   * the position it ends at is the line width PassWidth, however the run
   * stood at the start.
   */
  lemma {:induction false} PassKeepsRuns(ed: Editor, isCurrentLine: bool, right: int, lineText: string,
                                         tokens: seq<Token>, st: PassState)
    requires RunEndsAt(st.accu, st.tokenLeft, right) && FlushedVisible(st.flushed, right)
    ensures var r := Pass(ed, isCurrentLine, right, lineText, tokens, st);
      RunEndsAt(r.accu, r.tokenLeft, right) && FlushedVisible(r.flushed, right)
      && st.flushed <= r.flushed && st.tokenLeft <= r.tokenLeft
      && r.tokenLeft == PassWidth(ed, lineText, tokens, st.tokenLeft)
    decreases |tokens|
  {
    if |tokens| > 0 {
      var next := PassToken(ed, isCurrentLine, right, lineText, tokens[0], st);
      PassTokenKeepsRun(ed, isCurrentLine, right, lineText, tokens[0], st);
      PassKeepsRuns(ed, isCurrentLine, right, lineText, tokens[1..], next);
    }
  }

  /** One token moves the pass from tokens[i..] to tokens[i + 1..]. */
  lemma PassStep(ed: Editor, isCurrentLine: bool, right: int, lineText: string, tokens: seq<Token>, i: int, st: PassState)
    requires 0 <= i < |tokens|
    ensures Pass(ed, isCurrentLine, right, lineText, tokens[i..], st)
         == Pass(ed, isCurrentLine, right, lineText, tokens[i + 1..], PassToken(ed, isCurrentLine, right, lineText, tokens[i], st))
  {
    assert tokens[i..][0] == tokens[i];
    assert tokens[i..][1..] == tokens[i + 1..];
  }

  /** The runs a line paints: those the pass painted, then the run it leaves when that is not empty. */
  function Painted(p: PassState): seq<TokenAccu>
  {
    p.flushed + (if p.accu.width > 0 then [p.accu] else [])
  }

  /** An emptied run; the only field the row pass reads before refilling it is its width. */
  const EmptyRun := TokenAccu(0, 0, 0, 0, 0, Invalid, Invalid, false)

  /**
   * The runs painted for the tokens of one line, from an emptied run at
   * position 0 (the final paintHighlightToken of the row included).
   */
  function LineRuns(ed: Editor, isCurrentLine: bool, right: int, lineText: string, tokens: seq<Token>): seq<TokenAccu>
  {
    Painted(Pass(ed, isCurrentLine, right, lineText, tokens, PassState(EmptyRun, 0, [])))
  }

  /** Two pass states that paint the same from here on: same position and runs, and the same run unless both are empty. */
  predicate SameOutcome(a: PassState, b: PassState)
  {
    a.tokenLeft == b.tokenLeft && a.flushed == b.flushed
    && (a.accu == b.accu || (a.accu.width == 0 && b.accu.width == 0))
  }

  /** What an empty run left behind from an earlier line does not affect one token of the pass. */
  lemma PassTokenIgnoresEmptyRun(ed: Editor, isCurrentLine: bool, right: int, lineText: string, t: Token,
                                 a: PassState, b: PassState)
    requires SameOutcome(a, b)
    ensures SameOutcome(PassToken(ed, isCurrentLine, right, lineText, t, a),
                        PassToken(ed, isCurrentLine, right, lineText, t, b))
  {
    var attr := TokenAttr(ed, t);
    var look := TokenLook(ed, isCurrentLine, attr);
    var m := ed.measure(lineText, t.pos, t.pos + |t.text|, look.style, a.tokenLeft);
    var show := ShowGlyph(ed, lineText, t, attr);
    var ra := AddToken(a.accu, right, a.tokenLeft, look, show, m);
    var rb := AddToken(b.accu, right, b.tokenLeft, look, show, m);
    assert ra.tokenWidth == rb.tokenWidth && ra.flushed == rb.flushed;
    assert ra.flushed ==> a.accu == b.accu;
  }

  /**
   * The pass paints the same runs from two states that differ only in the
   * fields of an empty run, so a line's runs do not depend on the run the
   * line before it left.
   */
  lemma {:induction false} PassIgnoresEmptyRun(ed: Editor, isCurrentLine: bool, right: int, lineText: string,
                                               tokens: seq<Token>, a: PassState, b: PassState)
    requires SameOutcome(a, b)
    ensures SameOutcome(Pass(ed, isCurrentLine, right, lineText, tokens, a),
                        Pass(ed, isCurrentLine, right, lineText, tokens, b))
    ensures Painted(Pass(ed, isCurrentLine, right, lineText, tokens, a))
         == Painted(Pass(ed, isCurrentLine, right, lineText, tokens, b))
    decreases |tokens|
  {
    if |tokens| > 0 {
      PassTokenIgnoresEmptyRun(ed, isCurrentLine, right, lineText, tokens[0], a, b);
      PassIgnoresEmptyRun(ed, isCurrentLine, right, lineText, tokens[1..],
                          PassToken(ed, isCurrentLine, right, lineText, tokens[0], a),
                          PassToken(ed, isCurrentLine, right, lineText, tokens[0], b));
    }
  }

  // ---------------------------------------------------------------------------
  // Rows and lines of a paint pass

  /** The loops over rows stop at the first row whose line lies past the end of a non-empty document. */
  predicate PastDocument(vLine: int, count: int)
  {
    vLine > count && count != 0
  }

  /** getLine on the texts of the document: the empty string out of range. */
  function LineAt(texts: seq<string>, i: int): string
  {
    if 0 <= i < |texts| then texts[i] else ""
  }

  /**
   * The tokenizer state line vLine is lexed from: the reset state for line
   * 1, otherwise the state cached after the line before it (the initial
   * state when that index is out of range, as getSyntaxState returns).
   */
  function StartState(states: seq<SyntaxState>, vLine: int): SyntaxState
  {
    if vLine == 1 then InitialSyntaxState
    else if 0 <= vLine - 2 < |states| then states[vLine - 2]
    else InitialSyntaxState
  }

  /** Whether line vLine is painted with the active-line colour. */
  function CurrentLine(ed: Editor, vLine: int): bool
  {
    if ed.selectionMode == Column then ed.selectionBegin.line <= vLine <= ed.selectionEnd.line
    else ed.caretY == vLine
  }

  /** The tokenizer never reports an empty token, from any state on any line. */
  ghost predicate TokenizerAdvances(ed: Editor)
  {
    forall st: SyntaxState, line: string :: NonEmptyTokens(ed.tokenize(st, line))
  }

  /**
   * What paintLines computes for `row` of a document with the given texts
   * and cached states, for the visible selection (any, selStart, selEnd)
   * and the pixel columns [left, right].
   */
  predicate RowPainted(ed: Editor, texts: seq<string>, states: seq<SyntaxState>, any: bool,
                       selStart: DisplayCoord, selEnd: DisplayCoord, left: int, right: int, r: PaintedRow, row: int)
  {
    r.row == row && r.vLine == ed.rowToLine(row) && !PastDocument(r.vLine, |texts|)
    && r.isCurrentLine == CurrentLine(ed, r.vLine)
    && r.span == RowSpan(any, selStart, selEnd, ed.selectionMode, row, left, right)
    && r.lineSelected == LineSelected(r.span)
    && LinePainted(ed, texts, states, r.isCurrentLine, right, r.vLine, r.lineText, r.startState, r.width, r.flushed)
  }

  /**
   * What the text pass of paintLines computes for line vLine: its text, the
   * state it is lexed from, its width and the runs painted for it.
   */
  predicate LinePainted(ed: Editor, texts: seq<string>, states: seq<SyntaxState>, isCurrentLine: bool, right: int,
                        vLine: int, lineText: string, startState: SyntaxState, width: int, flushed: seq<TokenAccu>)
  {
    lineText == LineAt(texts, vLine - 1)
    && startState == StartState(states, vLine)
    && width == PassWidth(ed, lineText, ed.tokenize(startState, lineText), 0)
    && flushed == LineRuns(ed, isCurrentLine, right, lineText, ed.tokenize(startState, lineText))
    && FlushedVisible(flushed, right)
  }

  // ---------------------------------------------------------------------------
  // The indent-guide scans (paintFoldAttributes)

  /**
   * The index lastNonBlank paintFoldAttributes settles on for line vLine:
   * the first index from vLine - 1 on whose line is not empty, stopping at
   * the last line of the document.
   */
  method NextNonBlank(doc: SynDocument.Document, vLine: int) returns (lastNonBlank: int)
    ensures vLine - 1 <= lastNonBlank
    ensures forall j :: vLine - 1 <= j < lastNonBlank ==> LineAt(doc.Contents(), j) == ""
    ensures lastNonBlank + 1 >= doc.Count() || LineAt(doc.Contents(), lastNonBlank) != ""
    ensures lastNonBlank > vLine - 1 ==> lastNonBlank < doc.Count()
  {
    lastNonBlank := vLine - 1;
    while lastNonBlank + 1 < doc.Count() && doc.GetLine(lastNonBlank) == ""
      invariant vLine - 1 <= lastNonBlank
      invariant forall j :: vLine - 1 <= j < lastNonBlank ==> LineAt(doc.Contents(), j) == ""
      invariant lastNonBlank > vLine - 1 ==> lastNonBlank < doc.Count()
      decreases doc.Count() - lastNonBlank
    {
      lastNonBlank := lastNonBlank + 1;
    }
  }

  /** The column of tab stop k. */
  function TabStop(tabSize: int, k: int): int
  {
    k * tabSize
  }

  /** The pixel x of a column: spaceWidth pixels per column, after the text offset, one pixel left. */
  function ColumnX(ed: Editor, column: int): int
  {
    column * ed.spaceWidth + ed.textOffset - 1
  }

  lemma TabStopNext(tabSize: int, k: int)
    ensures TabStop(tabSize, k + 1) == TabStop(tabSize, k) + tabSize
  {
  }

  /** One indent guide: its x, the end of its fill, its indent level and its two colours. */
  datatype Guide = Guide(x: int, fillEnd: int, level: int, guideColor: Color, fillColor: Color)

  /**
   * Guide k of a line indented by lineIndent columns: at tab stop k, its fill
   * reaching the next tab stop or the indent, whichever comes first, drawn
   * in the rainbow colours of levels k + 1 and k + 2.
   */
  function GuideAt(ed: Editor, lineIndent: int, k: nat): Guide
  {
    Guide(ColumnX(ed, TabStop(ed.tabSize, k)),
          ColumnX(ed, Min(TabStop(ed.tabSize, k + 1), lineIndent)),
          k + 1,
          BraceColorAttr(ed, k + 1, ed.symbolAttribute).foreground,
          BraceColorAttr(ed, k + 2, ed.symbolAttribute).foreground)
  }

  /** Guide k is at a tab stop left of the indent and is GuideAt k, for every k so far. */
  predicate GuidesUpTo(ed: Editor, lineIndent: int, guides: seq<Guide>)
  {
    forall k :: 0 <= k < |guides| ==> TabStop(ed.tabSize, k) < lineIndent && guides[k] == GuideAt(ed, lineIndent, k)
  }

  /** The guides of a line: one at every tab stop left of the indent, and only those. */
  predicate GuidesOf(ed: Editor, lineIndent: int, guides: seq<Guide>)
  {
    TabStop(ed.tabSize, |guides|) >= lineIndent && GuidesUpTo(ed, lineIndent, guides)
  }

  lemma GuidesUpToAppend(ed: Editor, lineIndent: int, guides: seq<Guide>)
    requires GuidesUpTo(ed, lineIndent, guides) && TabStop(ed.tabSize, |guides|) < lineIndent
    ensures GuidesUpTo(ed, lineIndent, guides + [GuideAt(ed, lineIndent, |guides|)])
  {
    var guides' := guides + [GuideAt(ed, lineIndent, |guides|)];
    forall k | 0 <= k < |guides'|
      ensures TabStop(ed.tabSize, k) < lineIndent && guides'[k] == GuideAt(ed, lineIndent, k)
    {
      if k < |guides| {
        assert guides'[k] == guides[k];
      }
    }
  }

  /** The tabSteps loop of paintFoldAttributes. */
  method IndentGuides(ed: Editor, lineIndent: int) returns (guides: seq<Guide>)
    requires ed.tabSize > 0
    ensures GuidesOf(ed, lineIndent, guides)
  {
    guides := [];
    var tabSteps := 0;
    var indentLevel := 0;
    while tabSteps < lineIndent
      invariant tabSteps == TabStop(ed.tabSize, |guides|) && indentLevel == |guides|
      invariant GuidesUpTo(ed, lineIndent, guides)
      decreases lineIndent - tabSteps
    {
      var x := ColumnX(ed, tabSteps);
      tabSteps := tabSteps + ed.tabSize;
      indentLevel := indentLevel + 1;
      var paintColor := BraceColorAttr(ed, indentLevel, ed.symbolAttribute).foreground;
      var gradientStart := BraceColorAttr(ed, indentLevel + 1, ed.symbolAttribute).foreground;
      var x1 := if tabSteps > lineIndent then ColumnX(ed, lineIndent) else ColumnX(ed, tabSteps);
      TabStopNext(ed.tabSize, |guides|);
      GuidesUpToAppend(ed, lineIndent, guides);
      var guide := Guide(x, x1, indentLevel, paintColor, gradientStart);
      assert guide == GuideAt(ed, lineIndent, |guides|);
      guides := guides + [guide];
    }
  }

  /** The indent guides of one row, drawn from the first non-empty line at or after the row's line. */
  datatype GuideRow = GuideRow(row: int, line: int, guides: seq<Guide>)

  /** A row's guides are those of its next non-blank line under the editor's indent measure. */
  predicate GuideRowOf(ed: Editor, texts: seq<string>, r: GuideRow)
  {
    var vLine := ed.rowToLine(r.row);
    !PastDocument(vLine, |texts|)
    && vLine - 1 <= r.line < |texts|
    && (forall j :: vLine - 1 <= j < r.line ==> LineAt(texts, j) == "")
    && (r.line + 1 >= |texts| || LineAt(texts, r.line) != "")
    && GuidesOf(ed, ed.getLineIndent(LineAt(texts, r.line)), r.guides)
  }

  /** Every recorded row is a row of [firstRow, lastRow] with its guides, in increasing row order. */
  predicate GuideRowsOf(ed: Editor, texts: seq<string>, rows: seq<GuideRow>, firstRow: int, lastRow: int)
  {
    (forall k :: 0 <= k < |rows| ==> firstRow <= rows[k].row <= lastRow && GuideRowOf(ed, texts, rows[k]))
    && (forall k :: 0 < k < |rows| ==> rows[k - 1].row < rows[k].row)
  }

  /** No row from firstRow up to row lies past the end of the document, so the guide loop has not stopped before row. */
  predicate RowsInDocument(ed: Editor, count: int, firstRow: int, row: int)
  {
    forall q :: firstRow <= q <= row ==> !PastDocument(ed.rowToLine(q), count)
  }

  /**
   * The guide loop records a row iff it reaches the row and the row's line
   * is a line of the document: every recorded row is reached, and every
   * reached row of [firstRow, lastRow] whose line exists is recorded.
   */
  predicate GuideRowsComplete(ed: Editor, texts: seq<string>, rows: seq<GuideRow>, firstRow: int, lastRow: int)
  {
    (forall k :: 0 <= k < |rows| ==> RowsInDocument(ed, |texts|, firstRow, rows[k].row))
    && (forall row ::
          (firstRow <= row <= lastRow && RowsInDocument(ed, |texts|, firstRow, row) && ed.rowToLine(row) - 1 < |texts|)
          ==> exists k :: 0 <= k < |rows| && rows[k].row == row)
  }

  /** The row numbers of the recorded guide rows, in order. */
  function RowNumbers(rows: seq<GuideRow>): (r: seq<int>)
    ensures |r| == |rows| && forall k :: 0 <= k < |rows| ==> r[k] == rows[k].row
  {
    seq(|rows|, k requires 0 <= k < |rows| => rows[k].row)
  }

  /**
   * The rows the guide loop records from `row` on: it stops after lastRow
   * and at the first row past the end of the document, and skips a row
   * whose line is not a line of the document.
   */
  function GuideRowsFrom(ed: Editor, count: int, row: int, lastRow: int): seq<int>
    decreases lastRow - row
  {
    if row > lastRow || PastDocument(ed.rowToLine(row), count) then []
    else (if ed.rowToLine(row) - 1 < count then [row] else []) + GuideRowsFrom(ed, count, row + 1, lastRow)
  }

  /** A row is listed by GuideRowsFrom iff the loop reaches it and its line exists. */
  lemma {:induction false} GuideRowsFromSpec(ed: Editor, count: int, row: int, lastRow: int, r: int)
    ensures r in GuideRowsFrom(ed, count, row, lastRow)
        <==> row <= r <= lastRow && RowsInDocument(ed, count, row, r) && ed.rowToLine(r) - 1 < count
    decreases lastRow - row
  {
    if row > lastRow {
    } else if PastDocument(ed.rowToLine(row), count) {
      if row <= r {
        assert !RowsInDocument(ed, count, row, r);
      }
    } else {
      GuideRowsFromSpec(ed, count, row + 1, lastRow, r);
      if row < r {
        assert RowsInDocument(ed, count, row, r) <==> RowsInDocument(ed, count, row + 1, r) by {
          if RowsInDocument(ed, count, row + 1, r) {
            forall q | row <= q <= r
              ensures !PastDocument(ed.rowToLine(q), count)
            {
              if q > row {
                assert row + 1 <= q <= r;
              }
            }
          }
        }
      } else if row == r {
        assert RowsInDocument(ed, count, row, r);
      }
    }
  }

  /** One step of the guide loop on a reached row, recorded when `found`. */
  lemma GuideRowsFromStep(ed: Editor, count: int, row: int, lastRow: int, done: seq<int>, found: bool)
    requires row <= lastRow && !PastDocument(ed.rowToLine(row), count)
    requires found <==> ed.rowToLine(row) - 1 < count
    ensures done + GuideRowsFrom(ed, count, row, lastRow)
         == (done + (if found then [row] else [])) + GuideRowsFrom(ed, count, row + 1, lastRow)
  {
  }

  /** Rows numbered as GuideRowsFrom lists them are the complete set of guide rows. */
  lemma GuideRowsFromComplete(ed: Editor, texts: seq<string>, rows: seq<GuideRow>, firstRow: int, lastRow: int)
    requires RowNumbers(rows) == GuideRowsFrom(ed, |texts|, firstRow, lastRow)
    ensures GuideRowsComplete(ed, texts, rows, firstRow, lastRow)
  {
    forall k | 0 <= k < |rows|
      ensures RowsInDocument(ed, |texts|, firstRow, rows[k].row)
    {
      assert RowNumbers(rows)[k] == rows[k].row;
      GuideRowsFromSpec(ed, |texts|, firstRow, lastRow, rows[k].row);
    }
    forall row | firstRow <= row <= lastRow && RowsInDocument(ed, |texts|, firstRow, row) && ed.rowToLine(row) - 1 < |texts|
      ensures exists k :: 0 <= k < |rows| && rows[k].row == row
    {
      GuideRowsFromSpec(ed, |texts|, firstRow, lastRow, row);
      var k :| 0 <= k < |rows| && RowNumbers(rows)[k] == row;
      assert rows[k].row == row;
    }
  }

  lemma GuideRowsAppend(ed: Editor, texts: seq<string>, rows: seq<GuideRow>, firstRow: int, lastRow: int, r: GuideRow)
    requires GuideRowsOf(ed, texts, rows, firstRow, lastRow)
    requires firstRow <= r.row <= lastRow && GuideRowOf(ed, texts, r)
    requires |rows| > 0 ==> rows[|rows| - 1].row < r.row
    ensures GuideRowsOf(ed, texts, rows + [r], firstRow, lastRow)
  {
    var rows' := rows + [r];
    forall k | 0 <= k < |rows'|
      ensures firstRow <= rows'[k].row <= lastRow && GuideRowOf(ed, texts, rows'[k])
    {
      if k < |rows| {
        assert rows'[k] == rows[k];
      }
    }
    forall k | 0 < k < |rows'|
      ensures rows'[k - 1].row < rows'[k].row
    {
      assert rows'[k - 1] == rows[k - 1];
      if k < |rows| {
        assert rows'[k] == rows[k];
      }
    }
  }

  // ---------------------------------------------------------------------------
  // Padding the glyph positions of an add-on string

  /** The positions list padded with tokenLeft up to charListLength entries. */
  method PadGlyphPositions(positions: seq<int>, charListLength: int, tokenLeft: int) returns (r: seq<int>)
    ensures |r| == Max(|positions|, charListLength)
    ensures r[..|positions|] == positions
    ensures forall k :: |positions| <= k < |r| ==> r[k] == tokenLeft
  {
    var len := charListLength - |positions|;
    r := positions;
    var i := 0;
    while i < len
      invariant 0 <= i <= Max(len, 0) && |r| == |positions| + i
      invariant r[..|positions|] == positions
      invariant forall k :: |positions| <= k < |r| ==> r[k] == tokenLeft
    {
      r := r + [tokenLeft];
      i := i + 1;
    }
  }

  /** The wave vertices computed for each drawn area: a zig-zag for a wave underline, none otherwise. */
  predicate WavesOf(drawn: seq<DrawnArea>, waves: seq<(seq<int>, seq<int>)>, textOffset: int, wavePenWidth: int)
    requires wavePenWidth >= 1
  {
    |waves| == |drawn|
    && forall k :: 0 <= k < |drawn| ==>
      waves[k] == if drawn[k].kind == WaveUnderLine
                  then WaveVertices(textOffset + drawn[k].x1, textOffset + drawn[k].x2, wavePenWidth)
                  else ([], [])
  }

  lemma WavesOfAppend(drawn: seq<DrawnArea>, waves: seq<(seq<int>, seq<int>)>, textOffset: int, wavePenWidth: int,
                      d: DrawnArea, w: (seq<int>, seq<int>))
    requires wavePenWidth >= 1 && WavesOf(drawn, waves, textOffset, wavePenWidth)
    requires w == if d.kind == WaveUnderLine then WaveVertices(textOffset + d.x1, textOffset + d.x2, wavePenWidth) else ([], [])
    ensures WavesOf(drawn + [d], waves + [w], textOffset, wavePenWidth)
  {
    var drawn', waves' := drawn + [d], waves + [w];
    forall k | 0 <= k < |drawn'|
      ensures waves'[k] == if drawn'[k].kind == WaveUnderLine
                           then WaveVertices(textOffset + drawn'[k].x1, textOffset + drawn'[k].x2, wavePenWidth)
                           else ([], [])
    {
      if k < |drawn| {
        assert drawn'[k] == drawn[k] && waves'[k] == waves[k];
      }
    }
  }

  // ---------------------------------------------------------------------------
  // The painter

  /** What paintLines computes for one row. */
  datatype PaintedRow = PaintedRow(
    row: int,
    vLine: int,
    lineText: string,
    isCurrentLine: bool,
    span: LineSpan,
    lineSelected: bool,
    startState: SyntaxState,
    width: int,
    flushed: seq<TokenAccu>)

  /**
   * QSynEditPainter for one paint of the rows [firstRow, lastRow] between
   * the pixel columns left and right.
   */
  class Painter {
    const firstRow: int
    const lastRow: int
    const left: int
    const right: int
    var firstLine: int
    var lastLine: int
    var isCurrentLine: bool
    /** bAnySelection, mSelStart, mSelEnd: the visible selection in display coordinates. */
    var anySelection: bool
    var selStart: DisplayCoord
    var selEnd: DisplayCoord
    /** mLineSelStart, mLineSelEnd, mIsComplexLine, mIsLineSelected: the current row's selected span. */
    var lineSelStart: int
    var lineSelEnd: int
    var isComplexLine: bool
    var isLineSelected: bool
    var accu: TokenAccu

    constructor(firstRow: int, lastRow: int, left: int, right: int)
      ensures this.firstRow == firstRow && this.lastRow == lastRow && this.left == left && this.right == right
      ensures !isCurrentLine && !anySelection && accu.width == 0
    {
      this.firstRow, this.lastRow, this.left, this.right := firstRow, lastRow, left, right;
      firstLine, lastLine := 0, 0;
      isCurrentLine, anySelection := false, false;
      selStart, selEnd := DisplayCoord(0, 0), DisplayCoord(0, 0);
      lineSelStart, lineSelEnd, isComplexLine, isLineSelected := 0, 0, false, false;
      accu := TokenAccu(0, 0, 0, 0, 0, Invalid, Invalid, false);
    }

    /**
     * The first half of computeSelectionInfo: the selection's ends in text
     * order, moved past pending input-method text, and whether the
     * selection is non-empty; none of the painter's fields change.
     */
    method RealSelection(ed: Editor) returns (vStart: BufferCoord, vEnd: BufferCoord, any: bool)
      ensures Ordered(vStart, vEnd, any) == SelectionEnds(ed)
    {
      vStart, vEnd := BufferCoord(0, 0), BufferCoord(0, 0);
      any := true;
      if ed.blockBegin.line < ed.blockEnd.line {
        vStart, vEnd := ed.blockBegin, ed.blockEnd;
      } else if ed.blockBegin.line > ed.blockEnd.line {
        vEnd, vStart := ed.blockBegin, ed.blockEnd;
      } else if ed.blockBegin.ch != ed.blockEnd.ch {
        vStart := vStart.(line := ed.blockBegin.line);
        vEnd := vEnd.(line := vStart.line);
        if ed.blockBegin.ch < ed.blockEnd.ch {
          vStart, vEnd := vStart.(ch := ed.blockBegin.ch), vEnd.(ch := ed.blockEnd.ch);
        } else {
          vStart, vEnd := vStart.(ch := ed.blockEnd.ch), vEnd.(ch := ed.blockBegin.ch);
        }
      } else {
        any := false;
      }
      if ed.preeditLength > 0 {
        if vStart.line == ed.caretY && vStart.ch >= ed.caretX {
          vStart := vStart.(ch := vStart.ch + ed.preeditLength);
        }
        if vEnd.line == ed.caretY && vEnd.ch > ed.caretX {
          vEnd := vEnd.(ch := vEnd.ch + ed.preeditLength);
        }
      }
    }

    /**
     * computeSelectionInfo: a selection is visible iff it is non-empty and
     * meets lines [firstLine, lastLine]; its display ends are then those of
     * SelectionInfo. An invisible selection leaves the old ends in place.
     */
    method ComputeSelectionInfo(ed: Editor)
      modifies this`anySelection, this`selStart, this`selEnd
      ensures anySelection <==> SelectionInfo(ed, firstLine, lastLine).Some?
      ensures anySelection ==> (selStart, selEnd) == SelectionInfo(ed, firstLine, lastLine).value
      ensures !anySelection ==> selStart == old(selStart) && selEnd == old(selEnd)
    {
      var vStart, vEnd, any := RealSelection(ed);
      anySelection := any;
      if anySelection {
        anySelection := vEnd.line >= firstLine && vStart.line <= lastLine;
        if anySelection {
          selStart := ed.bufferToDisplayPos(vStart);
          selEnd := ed.bufferToDisplayPos(vEnd);
          if ed.preeditLength > 0 && vStart.line == ed.caretY {
            selStart := selStart.(x := ed.preeditGlyphLeft(vStart.ch));
          }
          if ed.preeditLength > 0 && vEnd.line == ed.caretY {
            selEnd := selEnd.(x := ed.preeditGlyphLeft(vEnd.ch));
          }
          if ed.selectionMode == Column && selStart.x > selEnd.x {
            selStart, selEnd := selStart.(x := selEnd.x), selEnd.(x := selStart.x);
          }
        }
      }
    }

    /**
     * The selected span of `row` (paintLines): the fields hold RowSpan for
     * the visible selection, and the row counts as selected as a whole
     * exactly when LineSelected says so.
     */
    method ComputeLineSelection(ed: Editor, row: int)
      modifies this`lineSelStart, this`lineSelEnd, this`isComplexLine, this`isLineSelected
      ensures LineSpan(lineSelStart, lineSelEnd, isComplexLine)
           == RowSpan(anySelection, selStart, selEnd, ed.selectionMode, row, left, right)
      ensures isLineSelected == LineSelected(LineSpan(lineSelStart, lineSelEnd, isComplexLine))
    {
      isComplexLine := false;
      lineSelStart := 0;
      lineSelEnd := 0;
      if anySelection && row >= selStart.row && row <= selEnd.row {
        lineSelStart := left;
        lineSelEnd := right + 1;
        if ed.selectionMode == Column || (ed.selectionMode == Normal && row == selStart.row) {
          var xpos := selStart.x;
          if xpos > right {
            lineSelStart := 0;
            lineSelEnd := 0;
          } else if xpos > left {
            lineSelStart := xpos;
            isComplexLine := true;
          }
        }
        if ed.selectionMode == Column || (ed.selectionMode == Normal && row == selEnd.row) {
          var xpos := selEnd.x;
          if xpos < left {
            lineSelStart := 0;
            lineSelEnd := 0;
          } else if xpos < right {
            lineSelEnd := xpos;
            isComplexLine := true;
          }
        }
      }
      isLineSelected := !isComplexLine && lineSelStart > 0;
    }

    /**
     * paintHighlightToken: the paintToken calls for the run, split into the
     * unselected and selected pieces of the current row's span; an empty run
     * paints nothing.
     */
    method PaintHighlightToken(run: TokenAccu) returns (pieces: seq<Piece>)
      ensures run.width == 0 ==> pieces == []
      ensures run.width > 0 ==> pieces == Pieces(TokenSplit(left, right, run.left, run.width, isComplexLine,
                                                           isLineSelected, lineSelStart, lineSelEnd),
                                                 lineSelStart, lineSelEnd)
    {
      var c1 := Max(left, run.left);
      var c2 := Min(right, run.left + run.width);
      var u1, sel, u2, complexToken;
      if isComplexLine {
        u1 := c1 < lineSelStart;
        sel := c1 < lineSelEnd && c2 >= lineSelStart;
        u2 := c2 >= lineSelEnd;
        complexToken := sel && (u1 || u2);
      } else {
        sel := isLineSelected;
        complexToken, u1, u2 := false, false, false;
      }
      pieces := [];
      if run.width > 0 {
        if complexToken {
          if u1 {
            pieces := pieces + [Piece(c1, lineSelStart, false)];
          }
          var c1Sel := Max(lineSelStart, c1);
          var c2Sel := Min(lineSelEnd, c2);
          pieces := pieces + [Piece(c1Sel, c2Sel, true)];
          if u2 {
            pieces := pieces + [Piece(lineSelEnd, c2, false)];
          }
        } else {
          pieces := [Piece(c1, c2, sel)];
        }
      }
    }

    /**
     * addHighlightToken: adds a token at tokenLeft to the run as AddToken
     * says, measuring it in the run's font, and returns the token's width
     * and the run painted first, if any.
     */
    method AddHighlightToken(ed: Editor, lineText: string, tokenLeft: int, attr: TokenAttribute, showGlyphs: bool,
                             tokenStartChar: int, tokenEndChar: int) returns (tokenWidth: nat, flushed: Option<TokenAccu>)
      modifies this`accu
      ensures (accu, tokenWidth, flushed)
           == AddHighlight(ed, isCurrentLine, right, old(accu), lineText, tokenLeft, attr, showGlyphs, tokenStartChar, tokenEndChar)
    {
      var foreground, background, style := attr.foreground, attr.background, attr.styles;
      if background.Invalid? {
        background := EditorBackground(ed, isCurrentLine);
      }
      if foreground.Invalid? {
        foreground := ed.foregroundColor;
      }
      var canAppend := false;
      var initFont := accu.width == 0;
      flushed := None;
      if accu.width > 0 {
        if accu.style != style {
          initFont := true;
        } else if showGlyphs == accu.showSpecialGlyphs && accu.background == background && accu.foreground == foreground {
          canAppend := true;
        }
        if !canAppend {
          flushed := Some(accu);
        }
      }
      if initFont {
        accu := accu.(style := style);
      }
      var m := ed.measure(lineText, tokenStartChar, tokenEndChar, accu.style, tokenLeft);
      tokenWidth := m.width;
      if tokenLeft < right {
        if canAppend {
          accu := accu.(width := accu.width + tokenWidth, endGlyph := m.endGlyph);
        } else {
          accu := TokenAccu(tokenWidth, tokenLeft, m.startGlyph, m.endGlyph, accu.style, foreground, background, showGlyphs);
        }
      }
    }

    /** The body of the token loop of paintLines for one non-empty token. */
    method PaintTokenOfLine(ed: Editor, lineText: string, t: Token, tokenLeft: int, flushed: seq<TokenAccu>)
      returns (tokenLeft': int, flushed': seq<TokenAccu>)
      modifies this`accu
      ensures PassState(accu, tokenLeft', flushed')
           == PassToken(ed, isCurrentLine, right, lineText, t, PassState(old(accu), tokenLeft, flushed))
    {
      var attr := TokenAttr(ed, t);
      var showGlyph := ShowGlyph(ed, lineText, t, attr);
      var tokenWidth, f := AddHighlightToken(ed, lineText, tokenLeft, attr, showGlyph, t.pos, t.pos + |t.text|);
      tokenLeft' := tokenLeft + tokenWidth;
      flushed' := flushed + if f.Some? then [f.value] else [];
    }

    /**
     * The token loop of paintLines for one line: starting from an emptied
     * run at position 0, every token is recoloured and added in order. The
     * result is the pass Pass, so the returned position is the line width.
     */
    method PaintLineTokens(ed: Editor, lineText: string, tokens: seq<Token>) returns (tokenLeft: int, flushed: seq<TokenAccu>)
      requires NonEmptyTokens(tokens)
      modifies this`accu
      ensures PassState(accu, tokenLeft, flushed)
           == Pass(ed, isCurrentLine, right, lineText, tokens, PassState(old(accu).(width := 0), 0, []))
    {
      accu := accu.(width := 0);
      tokenLeft := 0;
      flushed := [];
      ghost var init := PassState(accu, 0, []);
      var i := 0;
      while i < |tokens|
        invariant 0 <= i <= |tokens|
        invariant Pass(ed, isCurrentLine, right, lineText, tokens[i..], PassState(accu, tokenLeft, flushed))
               == Pass(ed, isCurrentLine, right, lineText, tokens, init)
      {
        var t := tokens[i];
        ghost var st := PassState(accu, tokenLeft, flushed);
        PassStep(ed, isCurrentLine, right, lineText, tokens, i, st);
        tokenLeft, flushed := PaintTokenOfLine(ed, lineText, t, tokenLeft, flushed);
        i := i + 1;
      }
      assert tokens[|tokens|..] == [];
    }

    /**
     * The tokens of line vLine lexed from its start state and painted: the
     * line's text, the state, the line width and the painted runs, which are
     * those the token pass paints followed by the run it leaves, if that is
     * not empty (the final paintHighlightToken of the row).
     */
    method PaintLineText(ed: Editor, doc: SynDocument.Document, vLine: int)
      returns (sLine: string, state: SyntaxState, width: int, flushed: seq<TokenAccu>)
      requires TokenizerAdvances(ed)
      modifies this`accu
      ensures LinePainted(ed, doc.Contents(), doc.SyntaxStates(), isCurrentLine, right, vLine, sLine, state, width, flushed)
      ensures var p := Pass(ed, isCurrentLine, right, sLine, ed.tokenize(state, sLine), PassState(old(accu).(width := 0), 0, []));
        accu == p.accu && flushed == Painted(p)
    {
      sLine := doc.GetLine(vLine - 1);
      state := if vLine == 1 then InitialSyntaxState else doc.GetSyntaxState(vLine - 2);
      var tokens := ed.tokenize(state, sLine);
      assert NonEmptyTokens(tokens);
      ghost var accu0 := accu;
      width, flushed := PaintLineTokens(ed, sLine, tokens);
      PassKeepsRuns(ed, isCurrentLine, right, sLine, tokens, PassState(accu0.(width := 0), 0, []));
      PassIgnoresEmptyRun(ed, isCurrentLine, right, sLine, tokens, PassState(accu0.(width := 0), 0, []), PassState(EmptyRun, 0, []));
      if accu.width > 0 {
        flushed := flushed + [accu];
      }
    }

    /** The body of the row loop of paintLines for a row whose line is not past the document. */
    method PaintRow(ed: Editor, doc: SynDocument.Document, row: int, vLine: int) returns (r: PaintedRow)
      requires TokenizerAdvances(ed)
      requires vLine == ed.rowToLine(row) && !PastDocument(vLine, doc.Count())
      modifies this`isCurrentLine, this`lineSelStart, this`lineSelEnd, this`isComplexLine, this`isLineSelected, this`accu
      ensures RowPainted(ed, doc.Contents(), doc.SyntaxStates(), anySelection, selStart, selEnd, left, right, r, row)
    {
      isCurrentLine := CurrentLine(ed, vLine);
      ComputeLineSelection(ed, row);
      var sLine, state, width, flushed := PaintLineText(ed, doc, vLine);
      r := PaintedRow(row, vLine, sLine, isCurrentLine, LineSpan(lineSelStart, lineSelEnd, isComplexLine),
                      isLineSelected, state, width, flushed);
    }

    /**
     * The row loop of paintLines: rows firstRow, firstRow + 1, ... up to
     * lastRow, or up to the first row past the end of a non-empty document,
     * each painted as RowPainted says.
     */
    method PaintLines(ed: Editor, doc: SynDocument.Document) returns (rows: seq<PaintedRow>)
      requires TokenizerAdvances(ed)
      modifies this`isCurrentLine, this`lineSelStart, this`lineSelEnd, this`isComplexLine, this`isLineSelected, this`accu
      ensures |rows| <= Max(0, lastRow - firstRow + 1)
      ensures forall k :: 0 <= k < |rows| ==>
        RowPainted(ed, doc.Contents(), doc.SyntaxStates(), anySelection, selStart, selEnd, left, right, rows[k], firstRow + k)
      ensures firstRow + |rows| <= lastRow ==> PastDocument(ed.rowToLine(firstRow + |rows|), doc.Count())
    {
      rows := [];
      var row := firstRow;
      while row <= lastRow
        invariant firstRow <= row <= Max(firstRow, lastRow + 1) && |rows| == row - firstRow
        invariant forall k :: 0 <= k < |rows| ==>
          RowPainted(ed, doc.Contents(), doc.SyntaxStates(), anySelection, selStart, selEnd, left, right, rows[k], firstRow + k)
      {
        var vLine := ed.rowToLine(row);
        if vLine > doc.Count() && doc.Count() != 0 {
          break;
        }
        var r := PaintRow(ed, doc, row, vLine);
        rows := rows + [r];
        row := row + 1;
      }
    }

    /**
     * The edit-area loop of paintEditAreas: the areas that reach the
     * painted columns, clipped to them, in list order, and for each wave
     * underline the vertices of its zig-zag between the clipped ends moved
     * by the text offset (no vertices for the other kinds).
     */
    method PaintEditAreas(areas: seq<EditingArea>, textOffset: int, wavePenWidth: int)
      returns (drawn: seq<DrawnArea>, waves: seq<(seq<int>, seq<int>)>)
      requires wavePenWidth >= 1
      ensures drawn == ClampAreas(areas, left, right)
      ensures WavesOf(drawn, waves, textOffset, wavePenWidth)
    {
      drawn, waves := [], [];
      var i := 0;
      while i < |areas|
        invariant 0 <= i <= |areas|
        invariant drawn == ClampAreas(areas[..i], left, right)
        invariant WavesOf(drawn, waves, textOffset, wavePenWidth)
      {
        var p := areas[i];
        assert areas[..i + 1][..i] == areas[..i];
        if p.beginX > right || p.endX < left {
          i := i + 1;
          continue;
        }
        var x1 := if p.beginX < left then left else p.beginX;
        var x2 := if p.endX > right then right else p.endX;
        var vertices := ([], []);
        if p.kind == WaveUnderLine {
          var xs, offsets := WaveUnderline(textOffset + x1, textOffset + x2, wavePenWidth);
          vertices := (xs, offsets);
        }
        var d := DrawnArea(x1, x2, p.kind, p.color);
        assert ClampArea(p, left, right) == Some(d);
        WavesOfAppend(drawn, waves, textOffset, wavePenWidth, d, vertices);
        drawn := drawn + [d];
        waves := waves + [vertices];
        i := i + 1;
      }
      assert areas[..|areas|] == areas;
    }

    /**
     * The indent-guide loop of paintFoldAttributes: rows in increasing
     * order from firstRow up to lastRow or the first row past the end of a
     * non-empty document, skipping rows whose next non-blank line is past
     * the last line; each recorded row has the guides of that line.
     */
    method FoldGuides(ed: Editor, doc: SynDocument.Document) returns (rows: seq<GuideRow>)
      requires ed.tabSize > 0
      ensures GuideRowsOf(ed, doc.Contents(), rows, firstRow, lastRow)
      ensures RowNumbers(rows) == GuideRowsFrom(ed, doc.Count(), firstRow, lastRow)
      ensures GuideRowsComplete(ed, doc.Contents(), rows, firstRow, lastRow)
    {
      ghost var texts, all := doc.Contents(), GuideRowsFrom(ed, doc.Count(), firstRow, lastRow);
      rows := [];
      var row := firstRow;
      while row <= lastRow
        invariant firstRow <= row
        invariant texts == doc.Contents() && |texts| == doc.Count()
        invariant GuideRowsOf(ed, texts, rows, firstRow, lastRow)
        invariant |rows| > 0 ==> rows[|rows| - 1].row < row
        invariant RowNumbers(rows) + GuideRowsFrom(ed, |texts|, row, lastRow) == all
      {
        var vLine := ed.rowToLine(row);
        if vLine > doc.Count() && doc.Count() > 0 {
          break;
        }
        rows := AddGuideRow(ed, doc, firstRow, lastRow, rows, row);
        row := row + 1;
      }
      GuideRowsFromComplete(ed, texts, rows, firstRow, lastRow);
    }

    /** The body of the guide loop for a reached row: its guide row is recorded when its line exists. */
    static method AddGuideRow(ed: Editor, doc: SynDocument.Document, firstRow: int, lastRow: int, rows: seq<GuideRow>, row: int)
      returns (rows': seq<GuideRow>)
      requires ed.tabSize > 0 && firstRow <= row <= lastRow && !PastDocument(ed.rowToLine(row), doc.Count())
      requires GuideRowsOf(ed, doc.Contents(), rows, firstRow, lastRow)
      requires |rows| > 0 ==> rows[|rows| - 1].row < row
      ensures GuideRowsOf(ed, doc.Contents(), rows', firstRow, lastRow)
      ensures |rows'| > 0 ==> rows'[|rows'| - 1].row <= row
      ensures RowNumbers(rows') + GuideRowsFrom(ed, doc.Count(), row + 1, lastRow)
           == RowNumbers(rows) + GuideRowsFrom(ed, doc.Count(), row, lastRow)
    {
      var found, r := GuideRowAt(ed, doc, row);
      GuideRowsFromStep(ed, doc.Count(), row, lastRow, RowNumbers(rows), found);
      rows' := rows;
      if found {
        GuideRowsAppend(ed, doc.Contents(), rows, firstRow, lastRow, r);
        assert RowNumbers(rows + [r]) == RowNumbers(rows) + [row];
        rows' := rows + [r];
      }
    }

    /**
     * One row of the guide loop, for a row not past the document: its
     * next non-blank line and that line's guides, when the row's line is a
     * line of the document, and nothing otherwise.
     */
    static method GuideRowAt(ed: Editor, doc: SynDocument.Document, row: int) returns (found: bool, r: GuideRow)
      requires ed.tabSize > 0 && !PastDocument(ed.rowToLine(row), doc.Count())
      ensures found <==> ed.rowToLine(row) - 1 < doc.Count()
      ensures found ==> r.row == row && GuideRowOf(ed, doc.Contents(), r)
    {
      var vLine := ed.rowToLine(row);
      var lastNonBlank := NextNonBlank(doc, vLine);
      found := lastNonBlank < doc.Count();
      r := GuideRow(row, lastNonBlank, []);
      if found {
        var lineIndent := ed.getLineIndent(doc.GetLine(lastNonBlank));
        var guides := IndentGuides(ed, lineIndent);
        r := GuideRow(row, lastNonBlank, guides);
      }
    }

    /**
     * The first part of paintEditingArea: the visible line range from the
     * visible rows, then the selection and the rows painted only when that
     * range is non-empty.
     */
    method PaintVisibleLines(ed: Editor, doc: SynDocument.Document) returns (rows: seq<PaintedRow>)
      requires TokenizerAdvances(ed)
      modifies this`firstLine, this`lastLine, this`isCurrentLine, this`anySelection, this`selStart, this`selEnd
      modifies this`lineSelStart, this`lineSelEnd, this`isComplexLine, this`isLineSelected, this`accu
      ensures firstLine == ed.rowToLine(firstRow) && lastLine == ed.rowToLine(lastRow)
      ensures lastLine < firstLine ==> rows == [] && anySelection == old(anySelection)
      ensures lastLine >= firstLine ==> (anySelection <==> SelectionInfo(ed, firstLine, lastLine).Some?)
      ensures forall k :: 0 <= k < |rows| ==>
        RowPainted(ed, doc.Contents(), doc.SyntaxStates(), anySelection, selStart, selEnd, left, right, rows[k], firstRow + k)
      ensures lastLine >= firstLine && firstRow + |rows| <= lastRow ==> PastDocument(ed.rowToLine(firstRow + |rows|), doc.Count())
    {
      firstLine := ed.rowToLine(firstRow);
      lastLine := ed.rowToLine(lastRow);
      isCurrentLine := false;
      rows := [];
      if lastLine >= firstLine {
        ComputeSelectionInfo(ed);
        rows := PaintLines(ed, doc);
      }
    }

    /** paintEditingArea without its drawing: the visible lines, then the indent guides. */
    method PaintEditingArea(ed: Editor, doc: SynDocument.Document) returns (rows: seq<PaintedRow>, guides: seq<GuideRow>)
      requires TokenizerAdvances(ed) && ed.tabSize > 0
      modifies this`firstLine, this`lastLine, this`isCurrentLine, this`anySelection, this`selStart, this`selEnd
      modifies this`lineSelStart, this`lineSelEnd, this`isComplexLine, this`isLineSelected, this`accu
      ensures firstLine == ed.rowToLine(firstRow) && lastLine == ed.rowToLine(lastRow)
      ensures lastLine < firstLine ==> rows == [] && anySelection == old(anySelection)
      ensures lastLine >= firstLine ==> (anySelection <==> SelectionInfo(ed, firstLine, lastLine).Some?)
      ensures forall k :: 0 <= k < |rows| ==>
        RowPainted(ed, doc.Contents(), doc.SyntaxStates(), anySelection, selStart, selEnd, left, right, rows[k], firstRow + k)
      ensures lastLine >= firstLine && firstRow + |rows| <= lastRow ==> PastDocument(ed.rowToLine(firstRow + |rows|), doc.Count())
      ensures GuideRowsOf(ed, doc.Contents(), guides, firstRow, lastRow)
      ensures RowNumbers(guides) == GuideRowsFrom(ed, doc.Count(), firstRow, lastRow)
      ensures GuideRowsComplete(ed, doc.Contents(), guides, firstRow, lastRow)
    {
      rows := PaintVisibleLines(ed, doc);
      guides := FoldGuides(ed, doc);
    }
  }
}
