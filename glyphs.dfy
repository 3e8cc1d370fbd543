/**
 * Glyph segmentation of a line and its column layout.
 *
 * A line is a sequence of code points; a glyph is one user-perceived mark
 * and may span several code points. The glyph positions of a line are the
 * start indices of its glyphs; the glyph columns are the display columns at
 * which each glyph starts. Column widths come from the font (an opaque
 * advance function) except for the tab glyph, which advances to the next
 * multiple of the tab width.
 */
module SynGlyphs {

  /** Code points that continue the glyph before them: combining marks, variation selectors, zero-width joiner. */
  predicate Joins(c: char)
  {
    ('\U{0300}' <= c <= '\U{036F}') || ('\U{FE00}' <= c <= '\U{FE0F}') || c == '\U{200D}'
  }

  /** Whether the code point at index i starts a new glyph. */
  predicate IsGlyphStart(text: string, i: nat)
    requires i < |text|
  {
    i == 0 || !(Joins(text[i]) || text[i - 1] == '\U{200D}')
  }

  /**
   * positions is a glyph segmentation of a text of n code points: empty
   * exactly for the empty text, starting at 0, strictly increasing, in range.
   */
  predicate IsSegmentation(positions: seq<int>, n: nat)
  {
    && (|positions| == 0 <==> n == 0)
    && (|positions| > 0 ==> positions[0] == 0)
    && (forall k :: 0 <= k < |positions| ==> 0 <= positions[k] < n)
    && (forall j, k :: 0 <= j < k < |positions| ==> positions[j] < positions[k])
  }

  /** The glyph starts of text at index i or later, in increasing order. */
  function GlyphStartsFrom(text: string, i: nat): seq<int>
    requires i <= |text|
    decreases |text| - i
  {
    if i == |text| then []
    else if IsGlyphStart(text, i) then [i] + GlyphStartsFrom(text, i + 1)
    else GlyphStartsFrom(text, i + 1)
  }

  /** GlyphStartsFrom lists, in increasing order, exactly the glyph starts at index i or later. */
  lemma {:induction false} GlyphStartsFromSpec(text: string, i: nat)
    requires i <= |text|
    ensures var r := GlyphStartsFrom(text, i);
            && (forall k :: 0 <= k < |r| ==> i <= r[k] < |text| && IsGlyphStart(text, r[k]))
            && (forall j, k :: 0 <= j < k < |r| ==> r[j] < r[k])
            && (forall c :: i <= c < |text| && IsGlyphStart(text, c) ==> c in r)
    decreases |text| - i
  {
    if i < |text| {
      GlyphStartsFromSpec(text, i + 1);
      var rest := GlyphStartsFrom(text, i + 1);
      if IsGlyphStart(text, i) {
        var r := [i] + rest;
        assert GlyphStartsFrom(text, i) == r;
        forall k | 0 < k < |r|
          ensures r[k] == rest[k - 1]
        {
        }
        forall c | i < c < |text| && IsGlyphStart(text, c)
          ensures c in r
        {
          assert c in rest;
        }
      } else {
        assert GlyphStartsFrom(text, i) == rest;
      }
    }
  }

  /** calcGlyphPositions: the start index of every glyph of text. */
  function CalcGlyphPositions(text: string): (r: seq<int>)
    ensures r == [] <==> |text| == 0
    ensures |text| > 0 ==> r[0] == 0
  {
    GlyphStartsFromSpec(text, 0);
    assert |text| > 0 ==> 0 in GlyphStartsFrom(text, 0);
    GlyphStartsFrom(text, 0)
  }

  /** The glyph positions of a text segment it, and a code point starts a glyph exactly when its index is listed. */
  lemma CalcGlyphPositionsSpec(text: string)
    ensures IsSegmentation(CalcGlyphPositions(text), |text|)
    ensures forall c :: 0 <= c < |text| ==> (c in CalcGlyphPositions(text) <==> IsGlyphStart(text, c))
  {
    GlyphStartsFromSpec(text, 0);
    var r := GlyphStartsFrom(text, 0);
    assert |text| > 0 ==> 0 in r;
  }

  /** The index just past glyph i: the start of glyph i + 1, or the text length for the last glyph. */
  function GlyphEndOf(positions: seq<int>, n: nat, i: nat): (e: int)
    requires i < |positions|
    ensures IsSegmentation(positions, n) ==> positions[i] < e <= n
  {
    if i + 1 < |positions| then positions[i + 1] else n
  }

  /** The code points of glyph i (getGlyph). */
  function GlyphText(text: string, positions: seq<int>, i: nat): (g: string)
    requires IsSegmentation(positions, |text|) && i < |positions|
    ensures |g| > 0
  {
    text[positions[i] .. GlyphEndOf(positions, |text|, i)]
  }

  /** The glyphs i, i + 1, ... of text, concatenated. */
  function GlyphsFrom(text: string, positions: seq<int>, i: nat): string
    requires IsSegmentation(positions, |text|) && i <= |positions|
    decreases |positions| - i
  {
    if i == |positions| then [] else GlyphText(text, positions, i) + GlyphsFrom(text, positions, i + 1)
  }

  lemma {:induction false} GlyphsFromIsSuffix(text: string, positions: seq<int>, i: nat)
    requires IsSegmentation(positions, |text|) && i < |positions|
    ensures GlyphsFrom(text, positions, i) == text[positions[i]..]
    decreases |positions| - i
  {
    var e := GlyphEndOf(positions, |text|, i);
    if i + 1 < |positions| {
      GlyphsFromIsSuffix(text, positions, i + 1);
      assert text[positions[i]..e] + text[e..] == text[positions[i]..];
    } else {
      assert GlyphsFrom(text, positions, i + 1) == [];
    }
  }

  /** The glyphs of a segmented line, concatenated in order, give back the line. */
  lemma GlyphsCoverText(text: string, positions: seq<int>)
    requires IsSegmentation(positions, |text|)
    ensures GlyphsFrom(text, positions, 0) == text
  {
    if |positions| > 0 {
      GlyphsFromIsSuffix(text, positions, 0);
    }
  }

  lemma {:induction false} GlyphStartAtLeastIndex(positions: seq<int>, n: nat, k: nat)
    requires IsSegmentation(positions, n) && k < |positions|
    ensures positions[k] >= k
  {
    if k > 0 {
      GlyphStartAtLeastIndex(positions, n, k - 1);
    }
  }

  /** A line never has more glyphs than code points. */
  lemma GlyphCountBound(positions: seq<int>, n: nat)
    requires IsSegmentation(positions, n)
    ensures |positions| <= n
  {
    if |positions| > 0 {
      GlyphStartAtLeastIndex(positions, n, |positions| - 1);
    }
  }

  // ---------------------------------------------------------------------
  // Column layout
  // ---------------------------------------------------------------------

  /** A column layout: the total width in columns and the start column of each glyph. */
  datatype Layout = Layout(columns: int, glyphColumns: seq<int>)

  const Tab: string := "\t"

  lemma MultipleRemainder(q: int, n: int)
    requires n > 0
    ensures (q * n) % n == 0
  {
    var d, r := (q * n) / n, (q * n) % n;
    assert q * n == d * n + r;
    assert r == (q - d) * n;
    if q - d >= 1 {
      assert false;
    } else if q - d <= -1 {
      assert false;
    }
  }

  /** Columns advanced by a tab that starts at column col: up to the next multiple of tabWidth. */
  function TabAdvance(col: nat, tabWidth: nat): (w: nat)
    requires tabWidth > 0
    ensures 1 <= w <= tabWidth
    ensures (col + w) % tabWidth == 0
  {
    var m := col % tabWidth;
    assert col + (tabWidth - m) == (col / tabWidth + 1) * tabWidth;
    MultipleRemainder(col / tabWidth + 1, tabWidth);
    tabWidth - m
  }

  /** Columns taken by a glyph starting at column col: the tab rule, or the font's advance width. */
  function GlyphWidth(glyph: string, col: nat, tabWidth: nat, advance: string -> nat): nat
    requires tabWidth > 0
  {
    if glyph == Tab then TabAdvance(col, tabWidth) else advance(glyph)
  }

  /**
   * The layout of glyphs i, i + 1, ... of text when glyph i starts at column
   * col: their start columns and the column just past the last of them.
   */
  function ColumnsFrom(text: string, positions: seq<int>, i: nat, col: nat, tabWidth: nat, advance: string -> nat): (r: Layout)
    requires IsSegmentation(positions, |text|) && i <= |positions| && tabWidth > 0
    decreases |positions| - i
  {
    if i == |positions| then Layout(col, [])
    else
      var w := GlyphWidth(GlyphText(text, positions, i), col, tabWidth, advance);
      var rest := ColumnsFrom(text, positions, i + 1, col + w, tabWidth, advance);
      Layout(rest.columns, [col] + rest.glyphColumns)
  }

  /** A layout has one start column per glyph, starts at col and never goes back. */
  lemma {:induction false} ColumnsFromSpec(text: string, positions: seq<int>, i: nat, col: nat, tabWidth: nat, advance: string -> nat)
    requires IsSegmentation(positions, |text|) && i <= |positions| && tabWidth > 0
    ensures var r := ColumnsFrom(text, positions, i, col, tabWidth, advance);
            && |r.glyphColumns| == |positions| - i
            && r.columns >= col
            && (i < |positions| ==> r.glyphColumns[0] == col)
            && (forall k :: 0 <= k < |r.glyphColumns| ==> col <= r.glyphColumns[k] <= r.columns)
    decreases |positions| - i
  {
    if i < |positions| {
      var w := GlyphWidth(GlyphText(text, positions, i), col, tabWidth, advance);
      ColumnsFromSpec(text, positions, i + 1, col + w, tabWidth, advance);
    }
  }

  /** The column just past glyph k of a layout: the next glyph's start, or the end column. */
  function EndColumnOf(glyphColumns: seq<int>, endColumn: int, k: nat): int
    requires k < |glyphColumns|
  {
    if k + 1 < |glyphColumns| then glyphColumns[k + 1] else endColumn
  }

  /** Every glyph of a layout spans exactly its width, measured from where it starts. */
  lemma {:induction false} ColumnsFromStep(text: string, positions: seq<int>, i: nat, col: nat, tabWidth: nat, advance: string -> nat, k: nat)
    requires IsSegmentation(positions, |text|) && i <= |positions| && tabWidth > 0
    requires k < |positions| - i
    ensures var r := ColumnsFrom(text, positions, i, col, tabWidth, advance);
            && k < |r.glyphColumns|
            && r.glyphColumns[k] >= 0
            && EndColumnOf(r.glyphColumns, r.columns, k)
                 == r.glyphColumns[k] + GlyphWidth(GlyphText(text, positions, i + k), r.glyphColumns[k], tabWidth, advance)
    decreases k
  {
    var w := GlyphWidth(GlyphText(text, positions, i), col, tabWidth, advance);
    var rest := ColumnsFrom(text, positions, i + 1, col + w, tabWidth, advance);
    var r := ColumnsFrom(text, positions, i, col, tabWidth, advance);
    assert r == Layout(rest.columns, [col] + rest.glyphColumns);
    ColumnsFromSpec(text, positions, i + 1, col + w, tabWidth, advance);
    if k == 0 {
      assert |positions| - i > 1 ==> rest.glyphColumns[0] == col + w;
      assert |positions| - i == 1 ==> rest.columns == col + w;
    } else {
      ColumnsFromStep(text, positions, i + 1, col + w, tabWidth, advance, k - 1);
      assert i + 1 + (k - 1) == i + k;
      LayoutTail(r, rest, col, k);
    }
  }

  /** Glyph k of a layout that starts with one more glyph is glyph k - 1 of the rest. */
  lemma LayoutTail(r: Layout, rest: Layout, col: int, k: nat)
    requires r == Layout(rest.columns, [col] + rest.glyphColumns) && 0 < k < |r.glyphColumns|
    ensures r.glyphColumns[k] == rest.glyphColumns[k - 1]
    ensures EndColumnOf(r.glyphColumns, r.columns, k) == EndColumnOf(rest.glyphColumns, rest.columns, k - 1)
  {
  }

  /**
   * calcGlyphColumns: the start column of every glyph and the width of the
   * text, not counting the colsBefore columns before it.
   */
  function CalcGlyphColumns(text: string, positions: seq<int>, colsBefore: nat, tabWidth: nat, advance: string -> nat): (r: Layout)
    requires IsSegmentation(positions, |text|) && tabWidth > 0
    ensures r.columns >= 0
    ensures |r.glyphColumns| == |positions|
  {
    var all := ColumnsFrom(text, positions, 0, colsBefore, tabWidth, advance);
    ColumnsFromSpec(text, positions, 0, colsBefore, tabWidth, advance);
    Layout(all.columns - colsBefore, all.glyphColumns)
  }

  /** Every glyph of a layout starts between colsBefore and the end of the text. */
  lemma CalcGlyphColumnsBounds(text: string, positions: seq<int>, colsBefore: nat, tabWidth: nat, advance: string -> nat)
    requires IsSegmentation(positions, |text|) && tabWidth > 0
    ensures var r := CalcGlyphColumns(text, positions, colsBefore, tabWidth, advance);
            forall k :: 0 <= k < |r.glyphColumns| ==> colsBefore <= r.glyphColumns[k] <= colsBefore + r.columns
  {
    ColumnsFromSpec(text, positions, 0, colsBefore, tabWidth, advance);
  }

  /** A tab glyph always ends on a tab stop. */
  lemma TabEndsOnTabStop(text: string, positions: seq<int>, colsBefore: nat, tabWidth: nat, advance: string -> nat, k: nat)
    requires IsSegmentation(positions, |text|) && tabWidth > 0 && k < |positions|
    requires GlyphText(text, positions, k) == Tab
    ensures var r := CalcGlyphColumns(text, positions, colsBefore, tabWidth, advance);
            EndColumnOf(r.glyphColumns, colsBefore + r.columns, k) % tabWidth == 0
  {
    ColumnsFromStep(text, positions, 0, colsBefore, tabWidth, advance, k);
  }

  /** A glyph other than a tab takes exactly its font advance width. */
  lemma GlyphTakesAdvance(text: string, positions: seq<int>, colsBefore: nat, tabWidth: nat, advance: string -> nat, k: nat)
    requires IsSegmentation(positions, |text|) && tabWidth > 0 && k < |positions|
    requires GlyphText(text, positions, k) != Tab
    ensures var r := CalcGlyphColumns(text, positions, colsBefore, tabWidth, advance);
            EndColumnOf(r.glyphColumns, colsBefore + r.columns, k) - r.glyphColumns[k] == advance(GlyphText(text, positions, k))
  {
    ColumnsFromStep(text, positions, 0, colsBefore, tabWidth, advance, k);
  }
}
