/**
 * The line store of the editor: DocumentLine (one line with its glyph,
 * column and tokenizer-state caches) and Document (the ordered lines and
 * the document-wide settings).
 *
 * Cache convention: a line's column cache is either invalid (columns == -1,
 * no glyph columns) or holds the layout of the line's current text under the
 * document's current font and tab width. The tokenizer state of a line is
 * whatever the highlighter last stored; the document never recomputes it.
 */
module SynDocument {
  import opened SynTypes
  import opened SynGlyphs
  import opened SynText

  datatype NewlineType = Windows | Unix | MacOld

  /** The line break a newline type writes. */
  function BreakText(t: NewlineType): (br: string)
    ensures IsLineBreak(br)
  {
    match t
    case Windows => "\r\n"
    case Unix => "\n"
    case MacOld => "\r"
  }

  /**
   * The newline type setText records for text: that of the first line break
   * in it, or `current` when it holds none.
   */
  function DetectedNewline(text: string, current: NewlineType): (t: NewlineType)
    ensures NoBreaks(text) ==> t == current
    ensures !NoBreaks(text) ==> var e := LineEnd(text, 0); e < |text| && text[e..SkipBreak(text, e)] == BreakText(t)
  {
    var e := LineEnd(text, 0);
    if e == |text| then
      LineEndSpec(text, 0);
      current
    else if text[e] == '\n' then Unix
    else if e + 1 < |text| && text[e + 1] == '\n' then Windows
    else MacOld
  }

  /** One line of the document, without its line break. */
  class DocumentLine {
    var lineText: string
    var glyphPositions: seq<int>
    /** Start column of each glyph; empty while the column cache is invalid. */
    var glyphColumns: seq<int>
    /** Width of the line in columns; -1 while the column cache is invalid. */
    var columns: int
    /** The tokenizer state after this line was lexed. */
    var syntaxState: SyntaxState

    /** The glyph positions are those of the current text. */
    ghost predicate Valid()
      reads this
    {
      glyphPositions == CalcGlyphPositions(lineText)
    }

    /** The glyph positions of a valid line segment its text. */
    lemma Segmented()
      requires Valid()
      ensures IsSegmentation(glyphPositions, |lineText|)
    {
      CalcGlyphPositionsSpec(lineText);
    }

    constructor ()
      ensures Valid()
      ensures lineText == [] && glyphPositions == [] && glyphColumns == [] && columns == -1
      ensures syntaxState == InitialSyntaxState
    {
      lineText := [];
      glyphPositions := [];
      glyphColumns := [];
      columns := -1;
      syntaxState := InitialSyntaxState;
    }

    /** glyphsCount: the number of glyphs, never more than the number of code points. */
    function GlyphsCount(): (n: nat)
      reads this
      ensures n == |glyphPositions|
      ensures Valid() ==> n <= |lineText|
    {
      assert Valid() ==> |glyphPositions| <= |lineText| by {
        if Valid() {
          Segmented();
          GlyphCountBound(glyphPositions, |lineText|);
        }
      }
      |glyphPositions|
    }

    /** glyphStart: the index of the first code point of glyph i. */
    function GlyphStart(i: int): (r: int)
      reads this
      requires 0 <= i < |glyphPositions|
      ensures r == glyphPositions[i]
      ensures Valid() ==> 0 <= r < |lineText| && (i > 0 ==> glyphPositions[i - 1] < r)
    {
      assert Valid() ==> IsSegmentation(glyphPositions, |lineText|) by {
        if Valid() {
          Segmented();
        }
      }
      glyphPositions[i]
    }

    /** glyphEnd: the index just past the last code point of glyph i. */
    function GlyphEnd(i: int): (r: int)
      reads this
      requires 0 <= i < |glyphPositions|
      ensures i + 1 < |glyphPositions| ==> r == glyphPositions[i + 1]
      ensures i + 1 == |glyphPositions| ==> r == |lineText|
      ensures Valid() ==> GlyphStart(i) < r <= |lineText|
    {
      assert Valid() ==> IsSegmentation(glyphPositions, |lineText|) by {
        if Valid() {
          Segmented();
        }
      }
      GlyphEndOf(glyphPositions, |lineText|, i)
    }

    /** getGlyph: the code points of glyph i, never empty. */
    function GetGlyph(i: int): (g: string)
      reads this
      requires Valid() && 0 <= i < |glyphPositions|
      ensures |g| > 0 && g == lineText[GlyphStart(i)..GlyphEnd(i)]
    {
      Segmented();
      GlyphText(lineText, glyphPositions, i)
    }

    /** getGlyphStartColumn: only defined while the column cache is valid. */
    function GetGlyphStartColumn(i: int): (r: int)
      reads this
      requires columns >= 0
      requires 0 <= i < |glyphColumns|
      ensures r == glyphColumns[i]
    {
      glyphColumns[i]
    }

    /** getGlyphEndColumn: the next glyph's start column, or the line width for the last glyph. */
    function GetGlyphEndColumn(i: int): (r: int)
      reads this
      requires columns >= 0
      requires 0 <= i < |glyphColumns|
      ensures i + 1 < |glyphColumns| ==> r == glyphColumns[i + 1]
      ensures i + 1 == |glyphColumns| ==> r == columns
    {
      EndColumnOf(glyphColumns, columns, i)
    }

    method SetSyntaxState(newSyntaxState: SyntaxState)
      modifies this
      ensures syntaxState == newSyntaxState
      ensures lineText == old(lineText) && glyphPositions == old(glyphPositions)
      ensures glyphColumns == old(glyphColumns) && columns == old(columns)
    {
      syntaxState := newSyntaxState;
    }

    /** setLineText: new text, its glyph positions, and an invalid column cache. */
    method SetLineText(newLineText: string)
      modifies this
      ensures Valid()
      ensures lineText == newLineText && columns == -1 && glyphColumns == []
      ensures syntaxState == old(syntaxState)
    {
      lineText := newLineText;
      glyphPositions := CalcGlyphPositions(newLineText);
      InvalidateColumns();
    }

    method SetColumns(cols: int, glyphCols: seq<int>)
      modifies this
      ensures columns == cols && glyphColumns == glyphCols
      ensures lineText == old(lineText) && glyphPositions == old(glyphPositions)
      ensures syntaxState == old(syntaxState)
    {
      columns := cols;
      glyphColumns := glyphCols;
    }

    method InvalidateColumns()
      modifies this
      ensures columns == -1 && glyphColumns == []
      ensures lineText == old(lineText) && glyphPositions == old(glyphPositions)
      ensures syntaxState == old(syntaxState)
    {
      columns := -1;
      glyphColumns := [];
    }
  }

  /** The texts of a sequence of lines. */
  function Texts(ls: seq<DocumentLine>): (r: seq<string>)
    reads ls
    ensures |r| == |ls|
    ensures forall k :: 0 <= k < |ls| ==> r[k] == ls[k].lineText
  {
    seq(|ls|, k requires 0 <= k < |ls| reads ls => ls[k].lineText)
  }

  /** The cached tokenizer states of a sequence of lines. */
  function States(ls: seq<DocumentLine>): (r: seq<SyntaxState>)
    reads ls
    ensures |r| == |ls|
    ensures forall k :: 0 <= k < |ls| ==> r[k] == ls[k].syntaxState
  {
    seq(|ls|, k requires 0 <= k < |ls| reads ls => ls[k].syntaxState)
  }

  /** A new line object holding text, with an invalid column cache and the initial tokenizer state. */
  method NewLine(text: string) returns (l: DocumentLine)
    ensures fresh(l) && l.Valid()
    ensures l.lineText == text && l.columns == -1 && l.glyphColumns == []
    ensures l.syntaxState == InitialSyntaxState
  {
    l := new DocumentLine();
    l.SetLineText(text);
  }

  // ---------------------------------------------------------------------
  // Document
  // ---------------------------------------------------------------------

  /** The layout of a text under a font and a tab width. */
  function TextLayout(text: string, tabWidth: nat, advance: string -> nat): (r: Layout)
    requires tabWidth > 0
    ensures r.columns >= 0
  {
    CalcGlyphPositionsSpec(text);
    CalcGlyphColumns(text, CalcGlyphPositions(text), 0, tabWidth, advance)
  }

  /** The cache convention for one line under a font and a tab width. */
  ghost predicate CacheValid(l: DocumentLine, tabWidth: nat, advance: string -> nat)
    reads l
  {
    && l.Valid()
    && ((l.columns == -1 && l.glyphColumns == [])
        || (tabWidth > 0 && Layout(l.columns, l.glyphColumns) == TextLayout(l.lineText, tabWidth, advance)))
  }

  ghost predicate CachesValid(ls: seq<DocumentLine>, tabWidth: nat, advance: string -> nat)
    reads ls
  {
    forall l :: l in ls ==> CacheValid(l, tabWidth, advance)
  }

  /** No line object occurs twice. */
  ghost predicate Distinct(ls: seq<DocumentLine>)
  {
    forall i, j :: 0 <= i < j < |ls| ==> ls[i] != ls[j]
  }

  /** Texts and states of a line sequence after one line is inserted at index i. */
  lemma InsertedAt(ls: seq<DocumentLine>, i: int, l: DocumentLine)
    requires 0 <= i <= |ls|
    ensures Texts(ls[..i] + [l] + ls[i..]) == Texts(ls)[..i] + [l.lineText] + Texts(ls)[i..]
    ensures States(ls[..i] + [l] + ls[i..]) == States(ls)[..i] + [l.syntaxState] + States(ls)[i..]
  {
  }

  /** Texts and states of a line sequence after the lines from index i up to e are removed. */
  lemma RemovedRange(ls: seq<DocumentLine>, i: int, e: int)
    requires 0 <= i <= e <= |ls|
    ensures Texts(ls[..i] + ls[e..]) == Texts(ls)[..i] + Texts(ls)[e..]
    ensures States(ls[..i] + ls[e..]) == States(ls)[..i] + States(ls)[e..]
  {
  }

  /** Texts and states of a line sequence after lines i and j swap places. */
  lemma Swapped(ls: seq<DocumentLine>, i: int, j: int)
    requires 0 <= i < |ls| && 0 <= j < |ls|
    ensures Texts(ls[i := ls[j]][j := ls[i]]) == Texts(ls)[i := Texts(ls)[j]][j := Texts(ls)[i]]
    ensures States(ls[i := ls[j]][j := ls[i]]) == States(ls)[i := States(ls)[j]][j := States(ls)[i]]
  {
  }

  lemma InsertKeepsValid(ls: seq<DocumentLine>, i: int, l: DocumentLine, tabWidth: nat, advance: string -> nat)
    requires 0 <= i <= |ls| && l !in ls
    requires Distinct(ls) && CachesValid(ls, tabWidth, advance) && CacheValid(l, tabWidth, advance)
    ensures Distinct(ls[..i] + [l] + ls[i..]) && CachesValid(ls[..i] + [l] + ls[i..], tabWidth, advance)
  {
    var r := ls[..i] + [l] + ls[i..];
    forall p, q | 0 <= p < q < |r|
      ensures r[p] != r[q]
    {
      if q < i || p > i {
      } else if p == i || q == i {
        assert l == r[i];
      }
    }
  }

  lemma RemoveKeepsValid(ls: seq<DocumentLine>, i: int, e: int, tabWidth: nat, advance: string -> nat)
    requires 0 <= i <= e <= |ls|
    requires Distinct(ls) && CachesValid(ls, tabWidth, advance)
    ensures Distinct(ls[..i] + ls[e..]) && CachesValid(ls[..i] + ls[e..], tabWidth, advance)
  {
    var r := ls[..i] + ls[e..];
    forall p, q | 0 <= p < q < |r|
      ensures r[p] != r[q]
    {
      var p' := if p < i then p else p + e - i;
      var q' := if q < i then q else q + e - i;
      assert r[p] == ls[p'] && r[q] == ls[q'];
    }
  }

  lemma SwapKeepsValid(ls: seq<DocumentLine>, i: int, j: int, tabWidth: nat, advance: string -> nat)
    requires 0 <= i < |ls| && 0 <= j < |ls|
    requires Distinct(ls) && CachesValid(ls, tabWidth, advance)
    ensures Distinct(ls[i := ls[j]][j := ls[i]]) && CachesValid(ls[i := ls[j]][j := ls[i]], tabWidth, advance)
  {
    var r := ls[i := ls[j]][j := ls[i]];
    forall p, q | 0 <= p < q < |r|
      ensures r[p] != r[q]
    {
      var p' := if p == i then j else if p == j then i else p;
      var q' := if q == i then j else if q == j then i else q;
      assert r[p] == ls[p'] && r[q] == ls[q'];
    }
  }

  /** The ordered lines of a document and its settings. */
  class Document {
    var lines: seq<DocumentLine>
    var tabWidth: nat
    /** The font metrics: the advance width, in columns, of a glyph that is not a tab. */
    var advance: string -> nat
    var newlineType: NewlineType
    var appendNewLineAtEOF: bool
    /** The line found longest by the last scan, or -1. */
    var indexOfLongestLine: int
    /** Nesting depth of beginUpdate / endUpdate. */
    var updateCount: int

    /** Line objects are distinct and the caches follow the cache convention. */
    ghost predicate Valid()
      reads this`lines, this`tabWidth, this`advance, this`indexOfLongestLine, lines
    {
      && tabWidth > 0
      && Distinct(lines)
      && CachesValid(lines, tabWidth, advance)
      && -1 <= indexOfLongestLine < |lines|
    }

    /** Every part of Valid except the content of valid column caches. */
    ghost predicate ValidExceptColumns()
      reads this`lines, this`tabWidth, this`advance, this`indexOfLongestLine, lines
    {
      && tabWidth > 0
      && Distinct(lines)
      && (forall l :: l in lines ==> l.Valid())
      && -1 <= indexOfLongestLine < |lines|
    }

    /** The width in columns of line i under the current font and tab width. */
    ghost function LineWidth(i: int): int
      reads this`lines, this`tabWidth, this`advance, lines
      requires tabWidth > 0 && 0 <= i < |lines|
    {
      TextLayout(lines[i].lineText, tabWidth, advance).columns
    }

    constructor (tabs: nat, metrics: string -> nat)
      requires tabs > 0
      ensures Valid() && lines == [] && tabWidth == tabs && advance == metrics
      ensures updateCount == 0 && indexOfLongestLine == -1
    {
      lines := [];
      tabWidth := tabs;
      advance := metrics;
      newlineType := Windows;
      appendNewLineAtEOF := true;
      indexOfLongestLine := -1;
      updateCount := 0;
    }

    function Count(): (n: nat)
      reads this`lines
      ensures n == |lines|
    {
      |lines|
    }

    function Empty(): (b: bool)
      reads this`lines
      ensures b <==> |lines| == 0
    {
      |lines| == 0
    }

    function Contents(): (r: seq<string>)
      reads this`lines, lines
      ensures |r| == |lines|
    {
      Texts(lines)
    }

    function SyntaxStates(): (r: seq<SyntaxState>)
      reads this`lines, lines
      ensures |r| == |lines|
    {
      States(lines)
    }

    /** getLine: the text of line i, or the empty string for an index out of range. */
    function GetLine(i: int): (r: string)
      reads this`lines, lines
      ensures 0 <= i < |lines| ==> r == Contents()[i]
      ensures !(0 <= i < |lines|) ==> r == ""
    {
      if 0 <= i < |lines| then lines[i].lineText else ""
    }

    /** getSyntaxState: the cached state of line i, or the initial state out of range. */
    function GetSyntaxState(i: int): (r: SyntaxState)
      reads this`lines, lines
      ensures 0 <= i < |lines| ==> r == SyntaxStates()[i]
      ensures !(0 <= i < |lines|) ==> r == InitialSyntaxState
    {
      if 0 <= i < |lines| then lines[i].syntaxState else InitialSyntaxState
    }

    function ParenthesisLevel(i: int): int
      reads this`lines, lines
    {
      GetSyntaxState(i).parenthesisLevel
    }

    function BracketLevel(i: int): int
      reads this`lines, lines
    {
      GetSyntaxState(i).bracketLevel
    }

    function BraceLevel(i: int): int
      reads this`lines, lines
    {
      GetSyntaxState(i).braceLevel
    }

    function BlockLevel(i: int): int
      reads this`lines, lines
    {
      GetSyntaxState(i).blockLevel
    }

    function BlockStarted(i: int): int
      reads this`lines, lines
    {
      GetSyntaxState(i).blockStarted
    }

    function BlockEnded(i: int): int
      reads this`lines, lines
    {
      GetSyntaxState(i).blockEnded
    }

    /** getLineGlyphsCount: the glyph count of line i (0 out of range), never above its length. */
    function GetLineGlyphsCount(i: int): (n: nat)
      reads this`lines, lines
      requires 0 <= i < |lines| ==> lines[i].Valid()
      ensures 0 <= i < |lines| ==> n == |CalcGlyphPositions(Contents()[i])| && n <= |Contents()[i]|
      ensures !(0 <= i < |lines|) ==> n == 0
    {
      if 0 <= i < |lines| then lines[i].GlyphsCount() else 0
    }

    /** getGlyphPositions: the glyph positions of line i (empty out of range). */
    function GetGlyphPositions(i: int): (r: seq<int>)
      reads this`lines, lines
      requires 0 <= i < |lines| ==> lines[i].Valid()
      ensures 0 <= i < |lines| ==> r == CalcGlyphPositions(Contents()[i])
      ensures !(0 <= i < |lines|) ==> r == []
    {
      if 0 <= i < |lines| then lines[i].glyphPositions else []
    }

    /** stringColumns: the width of str when it starts at column colsBefore, not counting colsBefore. */
    function StringColumns(str: string, colsBefore: nat): (r: int)
      reads this`tabWidth, this`advance
      requires tabWidth > 0
      ensures r >= 0
    {
      CalcGlyphPositionsSpec(str);
      CalcGlyphColumns(str, CalcGlyphPositions(str), colsBefore, tabWidth, advance).columns
    }

    function LineBreak(): (br: string)
      reads this`newlineType
      ensures IsLineBreak(br)
    {
      BreakText(newlineType)
    }

    /** text: every line, joined by the document's line break. */
    function Text(): (r: string)
      reads this`lines, this`newlineType, lines
      ensures |lines| == 0 ==> r == ""
      ensures |lines| > 0 ==> |Contents()[0]| <= |r| && r[..|Contents()[0]|] == Contents()[0]
      ensures |lines| > 0 ==> var last := Contents()[|lines| - 1];
        |last| <= |r| && r[|r| - |last|..] == last
    {
      if |lines| > 0 then
        JoinLinesEnds(Contents(), LineBreak());
        JoinLines(Contents(), LineBreak())
      else
        JoinLines(Contents(), LineBreak())
    }

    /**
     * lineColumns(line): the width of the line, computed and cached when the
     * cache is invalid; 0 for a line index out of range.
     */
    method LineColumns(i: int) returns (r: int)
      requires Valid()
      modifies if 0 <= i < |lines| then {lines[i]} else {}
      ensures Valid() && lines == old(lines)
      ensures Contents() == old(Contents()) && SyntaxStates() == old(SyntaxStates())
      ensures 0 <= i < |lines| ==> r == LineWidth(i) && lines[i].columns == r
      ensures !(0 <= i < |lines|) ==> r == 0
      ensures forall k :: 0 <= k < |lines| && k != i ==> lines[k].columns == old(lines[k].columns)
    {
      if 0 <= i < |lines| {
        var l := lines[i];
        assert CacheValid(l, tabWidth, advance) by {
          assert l in lines;
        }
        if l.columns == -1 {
          var layout := TextLayout(l.lineText, tabWidth, advance);
          l.SetColumns(layout.columns, layout.glyphColumns);
        }
        r := l.columns;
      } else {
        r := 0;
      }
    }

    /**
     * lineColumns(line, newText): the cached width when newText is the line's
     * text, otherwise the width of newText, which is not cached. Either way
     * the result is the width of newText.
     */
    method LineColumnsFor(i: int, newText: string) returns (r: int)
      requires Valid()
      modifies if 0 <= i < |lines| then {lines[i]} else {}
      ensures Valid() && lines == old(lines)
      ensures Contents() == old(Contents()) && SyntaxStates() == old(SyntaxStates())
      ensures r == TextLayout(newText, tabWidth, advance).columns
    {
      if 0 <= i < |lines| && lines[i].lineText == newText {
        r := LineColumns(i);
      } else {
        r := TextLayout(newText, tabWidth, advance).columns;
      }
    }

    /** longestLineColumns: scans every line and returns the largest width (0 for no lines). */
    method LongestLineColumns() returns (r: int)
      requires Valid()
      modifies this`indexOfLongestLine, lines
      ensures Valid() && lines == old(lines)
      ensures Contents() == old(Contents()) && SyntaxStates() == old(SyntaxStates())
      ensures forall k :: 0 <= k < |lines| ==> LineWidth(k) <= r && lines[k].columns == LineWidth(k)
      ensures |lines| == 0 ==> r == 0 && indexOfLongestLine == -1
      ensures |lines| > 0 ==> 0 <= indexOfLongestLine < |lines| && r == LineWidth(indexOfLongestLine)
    {
      var maxLen, longest := -1, -1;
      var i := 0;
      while i < |lines|
        invariant 0 <= i <= |lines|
        invariant Valid() && lines == old(lines)
        invariant Contents() == old(Contents()) && SyntaxStates() == old(SyntaxStates())
        invariant forall k :: 0 <= k < i ==> 0 <= lines[k].columns <= maxLen
        invariant i == 0 ==> longest == -1 && maxLen == -1
        invariant i > 0 ==> 0 <= longest < i && maxLen == lines[longest].columns
      {
        var len := LineColumns(i);
        if len > maxLen {
          maxLen := len;
          longest := i;
        }
        i := i + 1;
      }
      SetLongestLine(longest);
      if longest >= 0 {
        r := lines[longest].columns;
      } else {
        r := 0;
      }
      forall k | 0 <= k < |lines|
        ensures lines[k].columns == LineWidth(k)
      {
        CachedWidth(k);
      }
    }

    method SetLongestLine(index: int)
      requires Valid() && -1 <= index < |lines|
      modifies this`indexOfLongestLine
      ensures Valid() && indexOfLongestLine == index
      ensures Contents() == old(Contents()) && SyntaxStates() == old(SyntaxStates())
    {
      indexOfLongestLine := index;
    }

    /** A line whose column cache is filled holds its width there. */
    lemma CachedWidth(k: int)
      requires Valid() && 0 <= k < |lines| && lines[k].columns >= 0
      ensures lines[k].columns == LineWidth(k)
    {
      assert CacheValid(lines[k], tabWidth, advance) by {
        assert lines[k] in lines;
      }
    }

    method SetSyntaxState(i: int, state: SyntaxState)
      requires Valid() && 0 <= i < |lines|
      modifies lines[i]
      ensures Valid() && lines == old(lines) && Contents() == old(Contents())
      ensures SyntaxStates() == old(SyntaxStates())[i := state]
    {
      lines[i].SetSyntaxState(state);
    }

    /** putLine: replaces the text of line i; its column cache becomes invalid, its tokenizer state stays. */
    method PutLine(i: int, s: string, notify: bool)
      requires Valid() && 0 <= i < |lines|
      modifies this`indexOfLongestLine, lines[i]
      ensures Valid() && lines == old(lines)
      ensures Contents() == old(Contents())[i := s]
      ensures SyntaxStates() == old(SyntaxStates())
      ensures lines[i].columns == -1
    {
      lines[i].SetLineText(s);
      indexOfLongestLine := -1;
    }

    method BeginUpdate()
      modifies this`updateCount
      ensures updateCount == old(updateCount) + 1
    {
      updateCount := updateCount + 1;
    }

    method EndUpdate()
      modifies this`updateCount
      ensures updateCount == old(updateCount) - 1
    {
      updateCount := updateCount - 1;
    }

    /** insertItem: a new line with text s at index i. */
    method InsertLine(i: int, s: string)
      requires Valid() && 0 <= i <= |lines|
      modifies this`lines, this`indexOfLongestLine
      ensures Valid()
      ensures Contents() == old(Contents())[..i] + [s] + old(Contents())[i..]
      ensures SyntaxStates() == old(SyntaxStates())[..i] + [InitialSyntaxState] + old(SyntaxStates())[i..]
      ensures lines[i].columns == -1 && fresh(lines[i])
    {
      var before := lines;
      ghost var texts, states := Texts(before), States(before);
      var l := NewLine(s);
      assert Texts(before) == texts && States(before) == states;
      var newLines := before[..i] + [l] + before[i..];
      assert newLines[i] == l;
      InsertedAt(before, i, l);
      InsertKeepsValid(before, i, l, tabWidth, advance);
      lines := newLines;
      indexOfLongestLine := -1;
      assert Contents() == Texts(newLines) && SyntaxStates() == States(newLines);
    }

    /** addLine: appends s and returns the index of the new line. */
    method AddLine(s: string) returns (index: int)
      requires Valid()
      modifies this`lines, this`indexOfLongestLine
      ensures Valid()
      ensures index == old(|lines|)
      ensures Contents() == old(Contents()) + [s]
      ensures SyntaxStates() == old(SyntaxStates()) + [InitialSyntaxState]
    {
      index := |lines|;
      InsertLine(index, s);
    }

    /** addLines: appends every string of strings, in order. */
    method AddLines(strings: seq<string>)
      requires Valid()
      modifies this`lines, this`indexOfLongestLine
      ensures Valid()
      ensures Contents() == old(Contents()) + strings
      ensures SyntaxStates() == old(SyntaxStates()) + InitialStates(|strings|)
    {
      var k := 0;
      while k < |strings|
        invariant 0 <= k <= |strings|
        invariant Valid()
        invariant Contents() == old(Contents()) + strings[..k]
        invariant SyntaxStates() == old(SyntaxStates()) + InitialStates(k)
      {
        var _ := AddLine(strings[k]);
        TakeOneMore(strings, k);
        ConcatAssoc(old(Contents()), strings[..k], [strings[k]]);
        ConcatAssoc(old(SyntaxStates()), InitialStates(k), [InitialSyntaxState]);
        k := k + 1;
      }
      TakeAll(strings);
    }

    /** insertLines: numLines empty lines at index i; nothing for numLines <= 0. */
    method InsertLines(i: int, numLines: int)
      requires Valid() && 0 <= i <= |lines|
      modifies this`lines, this`indexOfLongestLine
      ensures Valid()
      ensures numLines <= 0 ==> Contents() == old(Contents())
      ensures numLines > 0 ==> Contents() == old(Contents())[..i] + Blanks(numLines) + old(Contents())[i..]
      ensures numLines <= 0 ==> SyntaxStates() == old(SyntaxStates())
      ensures numLines > 0 ==>
        SyntaxStates() == old(SyntaxStates())[..i] + InitialStates(numLines) + old(SyntaxStates())[i..]
    {
      if numLines <= 0 {
        return;
      }
      ghost var before, after := old(Contents())[..i], old(Contents())[i..];
      ghost var statesBefore, statesAfter := old(SyntaxStates())[..i], old(SyntaxStates())[i..];
      var k := 0;
      while k < numLines
        invariant 0 <= k <= numLines
        invariant Valid()
        invariant Contents() == before + Blanks(k) + after
        invariant SyntaxStates() == statesBefore + InitialStates(k) + statesAfter
      {
        InsertLine(i + k, "");
        InsertIntoConcat(before + Blanks(k), after, "");
        ConcatAssoc(before, Blanks(k), [""]);
        InsertIntoConcat(statesBefore + InitialStates(k), statesAfter, InitialSyntaxState);
        ConcatAssoc(statesBefore, InitialStates(k), [InitialSyntaxState]);
        k := k + 1;
      }
    }

    /** deleteAt: removes line i. */
    method DeleteAt(i: int)
      requires Valid() && 0 <= i < |lines|
      modifies this`lines, this`indexOfLongestLine
      ensures Valid()
      ensures Contents() == old(Contents())[..i] + old(Contents())[i + 1..]
      ensures SyntaxStates() == old(SyntaxStates())[..i] + old(SyntaxStates())[i + 1..]
    {
      RemovedRange(lines, i, i + 1);
      RemoveKeepsValid(lines, i, i + 1, tabWidth, advance);
      lines := lines[..i] + lines[i + 1..];
      indexOfLongestLine := -1;
    }

    /** deleteLines: removes numLines lines from index i, as many as there are; nothing for numLines <= 0. */
    method DeleteLines(i: int, numLines: int)
      requires Valid()
      requires numLines > 0 ==> 0 <= i < |lines|
      modifies this`lines, this`indexOfLongestLine
      ensures Valid()
      ensures numLines <= 0 ==> Contents() == old(Contents())
      ensures numLines > 0 ==> Contents() == old(Contents())[..i] + old(Contents())[Min(i + numLines, old(|lines|))..]
      ensures numLines <= 0 ==> SyntaxStates() == old(SyntaxStates())
      ensures numLines > 0 ==>
        SyntaxStates() == old(SyntaxStates())[..i] + old(SyntaxStates())[Min(i + numLines, old(|lines|))..]
    {
      if numLines <= 0 {
        return;
      }
      var e := Min(i + numLines, |lines|);
      RemovedRange(lines, i, e);
      RemoveKeepsValid(lines, i, e, tabWidth, advance);
      lines := lines[..i] + lines[e..];
      indexOfLongestLine := -1;
    }

    /** exchange: swaps lines i and j together with their caches. */
    method Exchange(i: int, j: int)
      requires Valid() && 0 <= i < |lines| && 0 <= j < |lines|
      modifies this`lines, this`indexOfLongestLine
      ensures Valid()
      ensures Contents() == old(Contents())[i := old(Contents())[j]][j := old(Contents())[i]]
      ensures SyntaxStates() == old(SyntaxStates())[i := old(SyntaxStates())[j]][j := old(SyntaxStates())[i]]
    {
      var li, lj := lines[i], lines[j];
      Swapped(lines, i, j);
      SwapKeepsValid(lines, i, j, tabWidth, advance);
      lines := lines[i := lj][j := li];
      indexOfLongestLine := -1;
    }

    method Clear()
      requires Valid()
      modifies this`lines, this`indexOfLongestLine
      ensures Valid() && lines == []
    {
      lines := [];
      indexOfLongestLine := -1;
    }

    /** setContents: the document holds exactly the given lines. */
    method SetContents(text: seq<string>)
      requires Valid()
      modifies this`lines, this`indexOfLongestLine
      ensures Valid()
      ensures Contents() == text && SyntaxStates() == InitialStates(|text|)
    {
      Clear();
      assert Contents() == [] && SyntaxStates() == [];
      AddLines(text);
    }

    /**
     * setText: the document holds the lines of text; CR LF, LF and CR all end
     * a line, and a break at the very end does not start another line.
     */
    method SetText(text: string)
      requires Valid()
      modifies this`lines, this`indexOfLongestLine, this`newlineType
      ensures Valid()
      ensures Contents() == SplitLines(text)
      ensures SyntaxStates() == InitialStates(|Contents()|)
      ensures newlineType == DetectedNewline(text, old(newlineType))
    {
      Clear();
      AddSplitLines(text);
      newlineType := DetectedNewline(text, newlineType);
    }

    /** The line loop of setText on a cleared document: the lines of text, each in the initial state. */
    method AddSplitLines(text: string)
      requires Valid() && Contents() == [] && SyntaxStates() == []
      modifies this`lines, this`indexOfLongestLine
      ensures Valid()
      ensures Contents() == SplitLines(text)
      ensures SyntaxStates() == InitialStates(|Contents()|)
    {
      var pos := 0;
      while pos < |text|
        invariant 0 <= pos <= |text|
        invariant Valid()
        invariant Contents() + SplitFrom(text, pos) == SplitLines(text)
        invariant SyntaxStates() == InitialStates(|Contents()|)
        decreases |text| - pos
      {
        var start := pos;
        var e;
        e, pos := ScanLine(text, start);
        AddScannedLine(text, start, e, pos);
      }
    }

    /** The scan of setText over one line: its end e, and where the next line starts. */
    static method ScanLine(text: string, start: nat) returns (e: nat, pos: nat)
      requires start < |text|
      ensures e == LineEnd(text, start)
      ensures if e < |text| then pos == SkipBreak(text, e) else pos == e
      ensures start < pos
    {
      pos := start;
      while pos < |text| && !IsBreak(text[pos])
        invariant start <= pos <= |text|
        invariant LineEnd(text, start) == LineEnd(text, pos)
      {
        pos := pos + 1;
      }
      e := pos;
      if pos < |text| {
        if text[pos] == '\r' {
          pos := pos + 1;
        }
        if pos < |text| && text[pos] == '\n' {
          pos := pos + 1;
        }
      }
    }

    /** One line of the setText scan: the line from start to its end e is added, and the scan goes on at pos. */
    method AddScannedLine(text: string, start: nat, e: nat, pos: nat)
      requires Valid() && start < |text| && e == LineEnd(text, start)
      requires if e < |text| then pos == SkipBreak(text, e) else pos == e
      requires Contents() + SplitFrom(text, start) == SplitLines(text)
      requires SyntaxStates() == InitialStates(|Contents()|)
      modifies this`lines, this`indexOfLongestLine
      ensures Valid() && pos <= |text|
      ensures Contents() + SplitFrom(text, pos) == SplitLines(text)
      ensures SyntaxStates() == InitialStates(|Contents()|)
    {
      SplitStep(text, start, e, pos);
      ghost var c, rest := Contents(), SplitFrom(text, pos);
      var _ := AddLine(text[start..e]);
      AppendStep(c, text[start..e], rest, SplitLines(text));
    }

    /**
     * text then setText keeps the newline type: with two or more lines, none
     * holding a break, the first break of text() is the document's own.
     */
    lemma NewlineRoundTrip(other: NewlineType)
      requires |lines| >= 2
      requires forall k :: 0 <= k < |lines| ==> NoBreaks(Contents()[k])
      ensures DetectedNewline(Text(), other) == newlineType
    {
      FirstBreakOfJoin(Contents(), LineBreak());
      var t := Text();
      assert Contents()[0] == t[..|Contents()[0]|];
      assert !NoBreaks(t) by {
        assert IsBreak(t[|Contents()[0]|]);
      }
    }

    /**
     * text then setText: splitting the document's text gives back its lines,
     * when no line holds a break and the last line is not empty.
     */
    lemma TextRoundTrip()
      requires forall k :: 0 <= k < |lines| ==> NoBreaks(Contents()[k])
      requires |lines| > 0 ==> Contents()[|lines| - 1] != ""
      ensures SplitLines(Text()) == Contents()
    {
      SplitJoin(Contents(), LineBreak());
    }

    method SetTabWidth(newTabWidth: nat)
      requires Valid() && newTabWidth > 0
      modifies this`tabWidth, lines
      ensures Valid() && lines == old(lines) && tabWidth == newTabWidth
      ensures Contents() == old(Contents()) && SyntaxStates() == old(SyntaxStates())
      ensures newTabWidth != old(tabWidth) ==> forall k :: 0 <= k < |lines| ==> lines[k].columns == -1
    {
      if newTabWidth != tabWidth {
        tabWidth := newTabWidth;
        InvalidateAllLineColumns();
      }
    }

    /** setFontMetrics: a new font; every column cache becomes invalid. */
    method SetFontMetrics(metrics: string -> nat)
      requires Valid()
      modifies this`advance, lines
      ensures Valid() && lines == old(lines) && advance == metrics
      ensures Contents() == old(Contents()) && SyntaxStates() == old(SyntaxStates())
      ensures forall k :: 0 <= k < |lines| ==> lines[k].columns == -1
    {
      advance := metrics;
      InvalidateAllLineColumns();
    }

    method InvalidateAllLineColumns()
      requires ValidExceptColumns()
      modifies lines
      ensures Valid() && lines == old(lines)
      ensures Contents() == old(Contents()) && SyntaxStates() == old(SyntaxStates())
      ensures forall k :: 0 <= k < |lines| ==> lines[k].columns == -1
    {
      var i := 0;
      while i < |lines|
        invariant 0 <= i <= |lines|
        invariant ValidExceptColumns() && lines == old(lines)
        invariant Contents() == old(Contents()) && SyntaxStates() == old(SyntaxStates())
        invariant forall k :: 0 <= k < i ==> lines[k].columns == -1 && lines[k].glyphColumns == []
      {
        InvalidateLine(i);
        i := i + 1;
      }
    }

    /** Clears the column cache of line i and of no other line. */
    method InvalidateLine(i: int)
      requires ValidExceptColumns() && 0 <= i < |lines|
      modifies lines[i]
      ensures ValidExceptColumns() && lines == old(lines)
      ensures Contents() == old(Contents()) && SyntaxStates() == old(SyntaxStates())
      ensures lines[i].columns == -1 && lines[i].glyphColumns == []
      ensures forall k :: 0 <= k < |lines| && k != i ==> lines[k].columns == old(lines[k].columns) && lines[k].glyphColumns == old(lines[k].glyphColumns)
    {
      lines[i].InvalidateColumns();
    }

    method SetNewlineType(t: NewlineType)
      modifies this`newlineType
      ensures newlineType == t
    {
      newlineType := t;
    }

    method SetAppendNewLineAtEOF(b: bool)
      modifies this`appendNewLineAtEOF
      ensures appendNewLineAtEOF == b
    {
      appendNewLineAtEOF := b;
    }
  }

  lemma ConcatAssoc<T>(a: seq<T>, b: seq<T>, c: seq<T>)
    ensures (a + b) + c == a + (b + c)
  {
  }

  /** Moving x from the front of the rest to the end of the prefix keeps the whole. */
  lemma AppendStep<T>(c: seq<T>, x: T, rest: seq<T>, whole: seq<T>)
    requires c + ([x] + rest) == whole
    ensures (c + [x]) + rest == whole
  {
    ConcatAssoc(c, [x], rest);
  }

  /** Inserting x at the seam of p + q. */
  lemma InsertIntoConcat<T>(p: seq<T>, q: seq<T>, x: T)
    ensures (p + q)[..|p|] + [x] + (p + q)[|p|..] == p + [x] + q
  {
    assert (p + q)[..|p|] == p;
    assert (p + q)[|p|..] == q;
  }

  lemma TakeOneMore<T>(s: seq<T>, k: nat)
    requires k < |s|
    ensures s[..k + 1] == s[..k] + [s[k]]
  {
  }

  lemma TakeAll<T>(s: seq<T>)
    ensures s[..|s|] == s
  {
  }

  /** n copies of the initial tokenizer state: the states of n new lines. */
  function InitialStates(n: nat): (r: seq<SyntaxState>)
    ensures |r| == n && forall k :: 0 <= k < n ==> r[k] == InitialSyntaxState
  {
    if n == 0 then [] else InitialStates(n - 1) + [InitialSyntaxState]
  }

  /** n empty lines. */
  function Blanks(n: nat): (r: seq<string>)
    ensures |r| == n && forall k :: 0 <= k < n ==> r[k] == ""
  {
    if n == 0 then [] else Blanks(n - 1) + [""]
  }
}
