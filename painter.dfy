/**
 * The integer decisions of the editor's painter, without the drawing: the
 * ordering and clipping of the selection, the selected span of each row,
 * the split of an accumulated token into selected and unselected pieces,
 * the token accumulator, edit-area clamping, the wave underline, rainbow
 * brace colours, the indent-guide scans and the per-line tokenizer pass.
 *
 * Coordinates are integers: x in pixels from the start of the text, rows
 * and lines 1-based. Colours, fonts and attributes are compared only for
 * equality. Editor helpers whose bodies are not part of this model are
 * function-valued fields of Editor.
 */
module SynPainter {
  import opened SynTypes
  import SynDocument

  /** One token as the tokenizer reports it, with the tokenizer state at that token. */
  datatype Token = Token(text: string, pos: nat, attr: TokenAttribute, state: SyntaxState)

  /** What measuring a token returns: its width and the glyph range it covers. */
  datatype Measured = Measured(width: nat, startGlyph: int, endGlyph: int)

  /** The editor state a paint pass reads. */
  datatype Editor = Editor(
    blockBegin: BufferCoord,
    blockEnd: BufferCoord,
    /** The values of blockBegin() and blockEnd(). */
    selectionBegin: BufferCoord,
    selectionEnd: BufferCoord,
    caretX: int,
    caretY: int,
    preeditLength: nat,
    selectionMode: SelectionMode,
    foregroundColor: Color,
    backgroundColor: Color,
    activeLineColor: Color,
    showRainbowColor: bool,
    showLeadingSpaces: bool,
    showTrailingSpaces: bool,
    showInnerSpaces: bool,
    rainbow0: Option<TokenAttribute>,
    rainbow1: Option<TokenAttribute>,
    rainbow2: Option<TokenAttribute>,
    rainbow3: Option<TokenAttribute>,
    symbolAttribute: TokenAttribute,
    tabSize: int,
    spaceWidth: int,
    textOffset: int,
    bufferToDisplayPos: BufferCoord -> DisplayCoord,
    /** charToGlyphLeft on the caret line with the preedit text inserted, by char. */
    preeditGlyphLeft: int -> int,
    rowToLine: int -> int,
    getLineIndent: string -> int,
    /** The tokenizer run over one line from a given start state. */
    tokenize: (SyntaxState, string) -> seq<Token>,
    /** updateGlyphStartPositionList: line text, start char, end char, font style, token left. */
    measure: (string, int, int, FontStyles, int) -> Measured)

  // ---------------------------------------------------------------------------
  // computeSelectionInfo

  /** The selection ends in text order, and whether the selection is non-empty. */
  datatype Ordered = Ordered(start: BufferCoord, end: BufferCoord, any: bool)

  /**
   * The real start and end of the selection: the earlier end first in
   * (line, ch) order; an empty selection has no range.
   */
  function OrderSelection(b: BufferCoord, e: BufferCoord): (r: Ordered)
    ensures r.any <==> b != e
    ensures r.any ==> Before(r.start, r.end)
    ensures r.any ==> (r.start == b && r.end == e) || (r.start == e && r.end == b)
    ensures !r.any ==> r.start == BufferCoord(0, 0) && r.end == BufferCoord(0, 0)
  {
    if b.line < e.line then Ordered(b, e, true)
    else if b.line > e.line then Ordered(e, b, true)
    else if b.ch != e.ch then
      if b.ch < e.ch then Ordered(BufferCoord(b.ch, b.line), BufferCoord(e.ch, b.line), true)
      else Ordered(BufferCoord(e.ch, b.line), BufferCoord(b.ch, b.line), true)
    else Ordered(BufferCoord(0, 0), BufferCoord(0, 0), false)
  }

  /**
   * With input-method text pending at the caret, selection ends on the caret
   * line move right past it: the start when at or after the caret, the end
   * only when strictly after it. The text order of the two ends is kept.
   */
  function ShiftForPreedit(o: Ordered, caretX: int, caretY: int, len: nat): (r: Ordered)
    ensures r.any == o.any && r.start.line == o.start.line && r.end.line == o.end.line
    ensures o.start.ch <= r.start.ch <= o.start.ch + len && o.end.ch <= r.end.ch <= o.end.ch + len
    ensures Before(o.start, o.end) ==> Before(r.start, r.end)
    ensures len == 0 ==> r == o
  {
    if len > 0 then
      var s := if o.start.line == caretY && o.start.ch >= caretX then BufferCoord(o.start.ch + len, o.start.line) else o.start;
      var e := if o.end.line == caretY && o.end.ch > caretX then BufferCoord(o.end.ch + len, o.end.line) else o.end;
      Ordered(s, e, o.any)
    else
      o
  }

  /** The selection ends after the preedit shift. */
  function SelectionEnds(ed: Editor): (r: Ordered)
    ensures r.any <==> ed.blockBegin != ed.blockEnd
    ensures r.any ==> Before(r.start, r.end)
    ensures r.any ==> r.start.line == Min(ed.blockBegin.line, ed.blockEnd.line)
    ensures r.any ==> r.end.line == Max(ed.blockBegin.line, ed.blockEnd.line)
  {
    ShiftForPreedit(OrderSelection(ed.blockBegin, ed.blockEnd), ed.caretX, ed.caretY, ed.preeditLength)
  }

  /** The display x of a selection end, corrected on the caret line while text is pending. */
  function EndX(ed: Editor, c: BufferCoord): int
  {
    if ed.preeditLength > 0 && c.line == ed.caretY then ed.preeditGlyphLeft(c.ch)
    else ed.bufferToDisplayPos(c).x
  }

  /**
   * The selection in display coordinates, or None when it is empty or
   * entirely outside lines [firstLine, lastLine]. In column mode the two x
   * coordinates come out sorted.
   */
  function SelectionInfo(ed: Editor, firstLine: int, lastLine: int): (r: Option<(DisplayCoord, DisplayCoord)>)
    ensures r.Some? <==> (ed.blockBegin != ed.blockEnd
      && Max(ed.blockBegin.line, ed.blockEnd.line) >= firstLine
      && Min(ed.blockBegin.line, ed.blockEnd.line) <= lastLine)
    ensures r.Some? ==> (r.value.0.row == ed.bufferToDisplayPos(SelectionEnds(ed).start).row
      && r.value.1.row == ed.bufferToDisplayPos(SelectionEnds(ed).end).row)
    ensures r.Some? && ed.selectionMode == Column ==> r.value.0.x <= r.value.1.x
    ensures r.Some? && ed.selectionMode == Column ==>
      {r.value.0.x, r.value.1.x} == {EndX(ed, SelectionEnds(ed).start), EndX(ed, SelectionEnds(ed).end)}
    ensures r.Some? && ed.selectionMode != Column ==>
      r.value.0.x == EndX(ed, SelectionEnds(ed).start) && r.value.1.x == EndX(ed, SelectionEnds(ed).end)
  {
    var o := SelectionEnds(ed);
    if !o.any || !(o.end.line >= firstLine && o.start.line <= lastLine) then None
    else
      var s := DisplayCoord(EndX(ed, o.start), ed.bufferToDisplayPos(o.start).row);
      var e := DisplayCoord(EndX(ed, o.end), ed.bufferToDisplayPos(o.end).row);
      if ed.selectionMode == Column && s.x > e.x then Some((s.(x := e.x), e.(x := s.x)))
      else Some((s, e))
  }

  // ---------------------------------------------------------------------------
  // The selected span of one row (paintLines)

  /** The selected pixel span of a row and whether the row is only partly selected. */
  datatype LineSpan = LineSpan(selStart: int, selEnd: int, complex: bool)

  /**
   * The span of `row`: nothing outside the selected rows, otherwise the
   * whole row [left, right + 1) narrowed at the selection's first and last
   * row (every row in column mode) to the selection's x coordinates.
   */
  function RowSpan(any: bool, selStart: DisplayCoord, selEnd: DisplayCoord, mode: SelectionMode,
                   row: int, left: int, right: int): (r: LineSpan)
    ensures !(any && selStart.row <= row <= selEnd.row) ==> r == LineSpan(0, 0, false)
    ensures any && selStart.row < row < selEnd.row && mode == Normal ==> r == LineSpan(left, right + 1, false)
    ensures any && selStart.row <= row <= selEnd.row && mode == Line ==> r == LineSpan(left, right + 1, false)
    ensures r.complex ==> any && selStart.row <= row <= selEnd.row && mode != Line
  {
    if !(any && row >= selStart.row && row <= selEnd.row) then LineSpan(0, 0, false)
    else
      var full := LineSpan(left, right + 1, false);
      var a :=
        if mode == Column || (mode == Normal && row == selStart.row) then
          if selStart.x > right then LineSpan(0, 0, full.complex)
          else if selStart.x > left then LineSpan(selStart.x, full.selEnd, true)
          else full
        else full;
      if mode == Column || (mode == Normal && row == selEnd.row) then
        if selEnd.x < left then LineSpan(0, 0, a.complex)
        else if selEnd.x < right then LineSpan(a.selStart, selEnd.x, true)
        else a
      else a
  }

  /** mIsLineSelected: a row selected as a whole. */
  predicate LineSelected(span: LineSpan)
  {
    !span.complex && span.selStart > 0
  }

  /**
   * When the selection's x coordinates are in order on the rows where both
   * bound the span, a row's span is either empty or lies in [left, right + 1]
   * with its start before its end, and a partly selected row really is
   * narrower than the whole row.
   */
  lemma RowSpanOrdered(any: bool, selStart: DisplayCoord, selEnd: DisplayCoord, mode: SelectionMode,
                       row: int, left: int, right: int)
    requires left <= right
    requires mode == Column ==> selStart.x <= selEnd.x
    requires mode == Normal && selStart.row == selEnd.row ==> selStart.x <= selEnd.x
    ensures var r := RowSpan(any, selStart, selEnd, mode, row, left, right);
      (r == LineSpan(0, 0, false)) || (left <= r.selStart <= r.selEnd <= right + 1)
    ensures var r := RowSpan(any, selStart, selEnd, mode, row, left, right);
      r.complex ==> left < r.selStart || r.selEnd < right
    ensures !(LineSelected(RowSpan(any, selStart, selEnd, mode, row, left, right))
              && RowSpan(any, selStart, selEnd, mode, row, left, right).complex)
  {
  }

  /**
   * A row selected from edge to edge counts as selected as a whole only when
   * the painted area does not start at x = 0, since mIsLineSelected tests
   * that the span starts after 0.
   */
  lemma WholeRowSelected(any: bool, selStart: DisplayCoord, selEnd: DisplayCoord, row: int, left: int, right: int)
    requires any && selStart.row < row < selEnd.row
    ensures LineSelected(RowSpan(any, selStart, selEnd, Normal, row, left, right)) <==> left > 0
  {
  }

  // ---------------------------------------------------------------------------
  // paintHighlightToken: the selected and unselected pieces of the accumulated token

  datatype Split = Split(c1: int, c2: int, u1: bool, sel: bool, u2: bool, complex: bool, c1Sel: int, c2Sel: int)

  /**
   * The visible part [c1, c2] of a token starting at tokenLeft with width
   * tokenWidth, and on a partly selected row how it meets the row's selected
   * span [lineSelStart, lineSelEnd): an unselected part before (u1), a
   * selected part (sel) and an unselected part after (u2).
   */
  function TokenSplit(left: int, right: int, tokenLeft: int, tokenWidth: int,
                      complexLine: bool, lineSelected: bool, lineSelStart: int, lineSelEnd: int): (r: Split)
    ensures r.c1 == Max(left, tokenLeft) && r.c2 == Min(right, tokenLeft + tokenWidth)
    ensures r.complex ==> complexLine && r.sel && (r.u1 || r.u2)
    ensures !complexLine ==> r.sel == lineSelected && !r.u1 && !r.u2 && !r.complex
    ensures complexLine ==> (r.u1 <==> r.c1 < lineSelStart) && (r.u2 <==> r.c2 >= lineSelEnd)
    ensures complexLine ==> (r.sel <==> r.c1 < lineSelEnd && r.c2 >= lineSelStart)
    ensures r.c1Sel == Max(lineSelStart, r.c1) && r.c2Sel == Min(lineSelEnd, r.c2)
  {
    var c1 := Max(left, tokenLeft);
    var c2 := Min(right, tokenLeft + tokenWidth);
    if complexLine then
      var u1 := c1 < lineSelStart;
      var sel := c1 < lineSelEnd && c2 >= lineSelStart;
      var u2 := c2 >= lineSelEnd;
      Split(c1, c2, u1, sel, u2, sel && (u1 || u2), Max(lineSelStart, c1), Min(lineSelEnd, c2))
    else
      Split(c1, c2, false, lineSelected, false, false, Max(lineSelStart, c1), Min(lineSelEnd, c2))
  }

  /** One paintToken call: the pixel range [first, last] and whether it is drawn selected. */
  datatype Piece = Piece(first: int, last: int, selected: bool)

  /** The paintToken calls for the accumulated token, in drawing order. */
  function Pieces(s: Split, lineSelStart: int, lineSelEnd: int): (r: seq<Piece>)
    ensures |r| >= 1
    ensures !s.complex ==> r == [Piece(s.c1, s.c2, s.sel)]
  {
    if s.complex then
      (if s.u1 then [Piece(s.c1, lineSelStart, false)] else [])
      + [Piece(s.c1Sel, s.c2Sel, true)]
      + (if s.u2 then [Piece(lineSelEnd, s.c2, false)] else [])
    else
      [Piece(s.c1, s.c2, s.sel)]
  }

  /**
   * The pieces tile the visible range [c1, c2] of the token: the first
   * starts at c1, the last ends at c2, each starts where the one before it
   * ends, and on a partly selected row exactly one piece is selected.
   */
  lemma {:induction false} PiecesTile(left: int, right: int, tokenLeft: int, tokenWidth: int,
                                      complexLine: bool, lineSelected: bool, lineSelStart: int, lineSelEnd: int)
    ensures var s := TokenSplit(left, right, tokenLeft, tokenWidth, complexLine, lineSelected, lineSelStart, lineSelEnd);
      var p := Pieces(s, lineSelStart, lineSelEnd);
      p[0].first == s.c1 && p[|p| - 1].last == s.c2
      && (forall k :: 0 < k < |p| ==> p[k].first == p[k - 1].last)
    ensures var s := TokenSplit(left, right, tokenLeft, tokenWidth, complexLine, lineSelected, lineSelStart, lineSelEnd);
      var p := Pieces(s, lineSelStart, lineSelEnd);
      s.complex ==> |p| >= 2 && (forall k :: 0 <= k < |p| ==> (p[k].selected <==> p[k] == Piece(s.c1Sel, s.c2Sel, true)))
  {
    var s := TokenSplit(left, right, tokenLeft, tokenWidth, complexLine, lineSelected, lineSelStart, lineSelEnd);
    if s.complex {
      assert s.u1 ==> s.c1Sel == lineSelStart;
      assert !s.u1 ==> s.c1Sel == s.c1;
      assert s.u2 ==> s.c2Sel == lineSelEnd;
      assert !s.u2 ==> s.c2Sel == s.c2;
    }
  }

  // ---------------------------------------------------------------------------
  // getBraceColorAttr

  /** C++ `level % 4` on int: the remainder takes the sign of the dividend. */
  function CppRem4(a: int): (r: int)
    ensures -4 < r < 4
    ensures a >= 0 ==> r == a % 4
    ensures a <= 0 ==> r <= 0
    ensures (a - r) % 4 == 0
  {
    if a >= 0 then a % 4 else -((-a) % 4)
  }

  function RainbowAttr(ed: Editor, k: int): Option<TokenAttribute>
    requires 0 <= k < 4
  {
    if k == 0 then ed.rainbow0 else if k == 1 then ed.rainbow1 else if k == 2 then ed.rainbow2 else ed.rainbow3
  }

  /**
   * The colour attribute of a bracket at nesting `level`: with rainbow
   * colours on, an Operator attribute becomes the rainbow attribute chosen
   * by level % 4; any other attribute, a remainder that matches no case
   * (a negative level not divisible by 4) or a missing rainbow attribute
   * leaves it unchanged.
   */
  function BraceColorAttr(ed: Editor, level: int, attr: TokenAttribute): (r: TokenAttribute)
    ensures !ed.showRainbowColor || attr.tokenType != Operator ==> r == attr
    ensures CppRem4(level) < 0 ==> r == attr
    ensures r != attr ==> CppRem4(level) >= 0 && RainbowAttr(ed, CppRem4(level)) == Some(r)
  {
    if !ed.showRainbowColor || attr.tokenType != Operator then attr
    else
      var k := CppRem4(level);
      if k < 0 then attr
      else match RainbowAttr(ed, k)
        case None => attr
        case Some(a) => a
  }

  /** The choice depends only on the level's remainder. */
  lemma BraceColorByRemainder(ed: Editor, level1: int, level2: int, attr: TokenAttribute)
    requires CppRem4(level1) == CppRem4(level2)
    ensures BraceColorAttr(ed, level1, attr) == BraceColorAttr(ed, level2, attr)
  {
  }

  /** Adding 4 to a level keeps its colour, except across zero. */
  lemma {:induction false} BraceColorPeriodic(ed: Editor, level: int, attr: TokenAttribute)
    requires level >= 0 || level + 4 <= 0
    ensures BraceColorAttr(ed, level + 4, attr) == BraceColorAttr(ed, level, attr)
  {
    if level >= 0 {
      assert (level + 4) % 4 == level % 4;
    } else {
      assert (-(level + 4)) % 4 == (-level) % 4 by {
        assert -level == -(level + 4) + 4;
      }
    }
    BraceColorByRemainder(ed, level + 4, level, attr);
  }

  /** Choosing again with the same level changes nothing. */
  lemma BraceColorIdempotent(ed: Editor, level: int, attr: TokenAttribute)
    ensures BraceColorAttr(ed, level, BraceColorAttr(ed, level, attr)) == BraceColorAttr(ed, level, attr)
  {
  }

  // ---------------------------------------------------------------------------
  // paintEditAreas

  datatype EditingAreaType = RectangleBorder | WaveUnderLine | UnderLine

  datatype EditingArea = EditingArea(beginX: int, endX: int, kind: EditingAreaType, color: Color)

  /** The pixel range of an area clipped to [left, right], in text coordinates. */
  datatype DrawnArea = DrawnArea(x1: int, x2: int, kind: EditingAreaType, color: Color)

  /**
   * An area entirely right of `right` or left of `left` is skipped; any other
   * is clipped to [left, right].
   */
  function ClampArea(a: EditingArea, left: int, right: int): (r: Option<DrawnArea>)
    ensures r.None? <==> a.beginX > right || a.endX < left
    ensures r.Some? ==> r.value.x1 == Max(a.beginX, left) && r.value.x2 == Min(a.endX, right)
    ensures r.Some? ==> left <= r.value.x1 && r.value.x2 <= right
    ensures r.Some? ==> r.value.kind == a.kind && r.value.color == a.color
    ensures r.Some? && a.beginX <= a.endX && left <= right ==> r.value.x1 <= r.value.x2
  {
    if a.beginX > right || a.endX < left then None
    else Some(DrawnArea(if a.beginX < left then left else a.beginX,
                        if a.endX > right then right else a.endX, a.kind, a.color))
  }

  /** The drawn areas of a list, in list order. */
  function ClampAreas(areas: seq<EditingArea>, left: int, right: int): (r: seq<DrawnArea>)
    ensures |r| <= |areas|
    ensures forall d :: d in r ==> left <= d.x1 && d.x2 <= right
  {
    if |areas| == 0 then []
    else
      var rest := ClampAreas(areas[..|areas| - 1], left, right);
      match ClampArea(areas[|areas| - 1], left, right)
        case None => rest
        case Some(d) => rest + [d]
  }

  /** Every area that reaches [left, right] is drawn, clipped. */
  lemma {:induction false} ClampAreasDrawn(areas: seq<EditingArea>, left: int, right: int, k: int)
    requires 0 <= k < |areas| && ClampArea(areas[k], left, right).Some?
    ensures ClampArea(areas[k], left, right).value in ClampAreas(areas, left, right)
    decreases |areas|
  {
    var n := |areas| - 1;
    if k < n {
      assert areas[..n][k] == areas[k];
      ClampAreasDrawn(areas[..n], left, right, k);
    }
  }

  // ---------------------------------------------------------------------------
  // The wave underline of an edit area

  /**
   * One step of the zig-zag: a full step right to the other extreme, or a
   * shorter last step ending exactly at rcRight, whose offset follows the
   * slope of a full step.
   */
  function WaveStep(t: int, offset: int, amplitude: int, rcRight: int): (r: (int, int))
    requires t < rcRight && amplitude > 0 && (offset == 0 || offset == amplitude)
    ensures t < r.0 <= t + amplitude && 0 <= r.1 <= amplitude
    ensures r.0 < rcRight ==> r.0 == t + amplitude && r.1 == amplitude - offset
    ensures r.0 >= rcRight ==> r.0 == rcRight
  {
    var t' := t + amplitude;
    if t' >= rcRight then
      var diff := t' - rcRight;
      (rcRight, if offset == 0 then amplitude - diff else diff)
    else
      (t', amplitude - offset)
  }

  /** The vertices after (t, offset) up to rcRight, as x coordinates and offsets. */
  function WaveFrom(t: int, offset: int, amplitude: int, rcRight: int): (r: (seq<int>, seq<int>))
    requires amplitude > 0 && (t < rcRight ==> offset == 0 || offset == amplitude)
    ensures |r.0| == |r.1|
    decreases rcRight - t
  {
    if t >= rcRight then ([], [])
    else
      var next := WaveStep(t, offset, amplitude, rcRight);
      var rest := WaveFrom(next.0, next.1, amplitude, rcRight);
      ([next.0] + rest.0, [next.1] + rest.1)
  }

  /**
   * A zig-zag with amplitude m: x strictly increases by at most m per step,
   * every offset is within [0, m], and each inner vertex lies a full m right
   * of the one before, at the opposite extreme.
   */
  predicate Zigzag(xs: seq<int>, offsets: seq<int>, m: int)
  {
    |xs| == |offsets| >= 1
    && (forall k :: 0 < k < |xs| ==> xs[k - 1] < xs[k] <= xs[k - 1] + m)
    && (forall k :: 0 <= k < |offsets| ==> 0 <= offsets[k] <= m)
    && (forall k :: 0 < k < |xs| - 1 ==> xs[k] == xs[k - 1] + m && offsets[k] == m - offsets[k - 1])
  }

  /** A vertex put in front of a zig-zag, one allowed step left of it, keeps it a zig-zag. */
  lemma ZigzagCons(x: int, o: int, xs: seq<int>, offsets: seq<int>, m: int)
    requires Zigzag(xs, offsets, m) && x < xs[0] <= x + m && 0 <= o <= m
    requires |xs| > 1 ==> xs[0] == x + m && offsets[0] == m - o
    ensures Zigzag([x] + xs, [o] + offsets, m)
  {
    var xs', offsets' := [x] + xs, [o] + offsets;
    forall k | 0 < k < |xs'|
      ensures xs'[k - 1] < xs'[k] <= xs'[k - 1] + m
    {
      assert xs'[k] == xs[k - 1];
      if k > 1 {
        assert xs'[k - 1] == xs[k - 2];
      }
    }
    forall k | 0 <= k < |offsets'|
      ensures 0 <= offsets'[k] <= m
    {
      if k > 0 {
        assert offsets'[k] == offsets[k - 1];
      }
    }
    forall k | 0 < k < |xs'| - 1
      ensures xs'[k] == xs'[k - 1] + m && offsets'[k] == m - offsets'[k - 1]
    {
      assert xs'[k] == xs[k - 1] && offsets'[k] == offsets[k - 1];
      if k > 1 {
        assert xs'[k - 1] == xs[k - 2] && offsets'[k - 1] == offsets[k - 2];
      }
    }
  }

  /**
   * The vertex (t, offset) followed by the vertices after it form a
   * zig-zag; there are none after it when t is already at rcRight, and
   * otherwise the last one lies exactly at rcRight.
   */
  lemma {:induction false} WaveFromSpec(t: int, offset: int, amplitude: int, rcRight: int)
    requires amplitude > 0 && 0 <= offset <= amplitude && (t < rcRight ==> offset == 0 || offset == amplitude)
    ensures var w := WaveFrom(t, offset, amplitude, rcRight);
      Zigzag([t] + w.0, [offset] + w.1, amplitude)
    ensures var w := WaveFrom(t, offset, amplitude, rcRight);
      (t >= rcRight <==> |w.0| == 0) && (t < rcRight ==> w.0[|w.0| - 1] == rcRight)
    decreases rcRight - t
  {
    var w := WaveFrom(t, offset, amplitude, rcRight);
    if t < rcRight {
      var next := WaveStep(t, offset, amplitude, rcRight);
      WaveFromSpec(next.0, next.1, amplitude, rcRight);
      var rest := WaveFrom(next.0, next.1, amplitude, rcRight);
      assert w.0 == [next.0] + rest.0 && w.1 == [next.1] + rest.1;
      ZigzagCons(t, offset, w.0, w.1, amplitude);
    } else {
      assert [t] + w.0 == [t] && [offset] + w.1 == [offset];
    }
  }

  /** The shape the wave underline promises for its vertices. */
  predicate WaveShape(xs: seq<int>, offsets: seq<int>, rcLeft: int, rcRight: int, penWidth: int)
  {
    Zigzag(xs, offsets, 2 * penWidth)
    && xs[0] == rcLeft && offsets[0] == 2 * penWidth
    && xs[|xs| - 1] == Max(rcLeft, rcRight)
  }

  /** All vertices of the wave: the start vertex, then those WaveFrom produces. */
  function WaveVertices(rcLeft: int, rcRight: int, penWidth: int): (r: (seq<int>, seq<int>))
    requires penWidth >= 1
  {
    var w := WaveFrom(rcLeft, 2 * penWidth, 2 * penWidth, rcRight);
    ([rcLeft] + w.0, [2 * penWidth] + w.1)
  }

  /**
   * The wave is a zig-zag of amplitude 2 * penWidth that starts at rcLeft
   * at the full amplitude and ends exactly at rcRight (or stays at rcLeft
   * when the rectangle is empty).
   */
  lemma WaveVerticesShape(rcLeft: int, rcRight: int, penWidth: int)
    requires penWidth >= 1
    ensures WaveShape(WaveVertices(rcLeft, rcRight, penWidth).0, WaveVertices(rcLeft, rcRight, penWidth).1,
                      rcLeft, rcRight, penWidth)
  {
    WaveFromSpec(rcLeft, 2 * penWidth, 2 * penWidth, rcRight);
  }

  /**
   * The vertices of the zig-zag drawn between rcLeft and rcRight: (x, offset)
   * pairs where the y coordinate is the rectangle's bottom minus the offset.
   */
  method WaveUnderline(rcLeft: int, rcRight: int, penWidth: int) returns (xs: seq<int>, offsets: seq<int>)
    requires penWidth >= 1
    ensures (xs, offsets) == WaveVertices(rcLeft, rcRight, penWidth)
    ensures WaveShape(xs, offsets, rcLeft, rcRight, penWidth)
  {
    var maxOffset := 2 * penWidth;
    var offset := maxOffset;
    var t := rcLeft;
    ghost var all := WaveFrom(rcLeft, maxOffset, maxOffset, rcRight);
    xs, offsets := [rcLeft], [offset];
    while t < rcRight
      invariant t < rcRight ==> offset == 0 || offset == maxOffset
      invariant xs + WaveFrom(t, offset, maxOffset, rcRight).0 == [rcLeft] + all.0
      invariant offsets + WaveFrom(t, offset, maxOffset, rcRight).1 == [maxOffset] + all.1
      decreases rcRight - t
    {
      ghost var rest := WaveFrom(t, offset, maxOffset, rcRight);
      t := t + maxOffset;
      if t >= rcRight {
        var diff := t - rcRight;
        offset := if offset == 0 then maxOffset - diff else diff;
        t := rcRight;
      } else {
        offset := maxOffset - offset;
      }
      ghost var after := WaveFrom(t, offset, maxOffset, rcRight);
      assert rest.0 == [t] + after.0 && rest.1 == [offset] + after.1;
      SynDocument.AppendStep(xs, t, after.0, [rcLeft] + all.0);
      SynDocument.AppendStep(offsets, offset, after.1, [maxOffset] + all.1);
      xs, offsets := xs + [t], offsets + [offset];
    }
    assert xs == [rcLeft] + all.0 && offsets == [maxOffset] + all.1;
    WaveVerticesShape(rcLeft, rcRight, penWidth);
  }
}
