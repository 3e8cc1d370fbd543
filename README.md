# QSynEdit document store, change log and painter decisions

This project models two parts of the QSynEdit editor component of Red Panda C++ in Dafny.

1. **The document data model.** The model covers four entities from `libs/qsynedit/qsynedit/document.h`:
   - `DocumentLine`: one line of text with a glyph segmentation, a column-layout cache (`-1` = invalid) and the tokenizer state cached after the line;
   - `Document`: the ordered line store with its tab width, font metrics and newline settings;
   - `UndoList`: the bounded undo stack with its entry and memory caps, change numbering, block bracketing and the sticky "full undo impossible" flag;
   - `RedoList`: the plain redo stack.

   Each is a Dafny `class` whose methods update its fields in place. The glyph segmentation, the column layout and the splitting and joining of document text are pure functions with lemmas (`glyphs.dfy`, `text.dfy`).

2. **The integer decisions of the painter (`painter.cpp`), with every drawing call removed.** These are:
   - ordering and clipping of the selection;
   - the selected span of each row;
   - the three-way split of an accumulated token into unselected, selected and unselected pieces;
   - the token accumulator and its append rule;
   - edit-area clamping and the wave-underline loop;
   - rainbow bracket colours;
   - the next-non-blank-line scan and the indent-guide loop;
   - the per-line tokenizer state hand-off and width accumulation;
   - the glyph-position padding loop.

   The pure decisions are functions in `painter.dfy`. The painter object (`QSynEditPainter`) is the class `SynPaintPass.Painter`. Its fields are the visible selection, the current row's selected span and the token accumulator. Its methods run the row, token, edit-area and guide loops and return what would be drawn as values. Every loop is proved against a recursive specification function or a predicate.

Files:
- `types.dfy`: coordinates, colours, attributes and `SyntaxState`.
- `glyphs.dfy`: glyph segmentation and column layout.
- `text.dfy`: line splitting and joining.
- `document.dfy`: `DocumentLine` and `Document`.
- `undo.dfy`: `UndoItem`, `UndoList` and `RedoList`.
- `painter.dfy`: pure painter decisions.
- `paintpass.dfy`: the accumulator, the passes and the `Painter` class.

Only the header is available for the document part; `document.cpp` is not part of this model. The `Document` and `UndoList` methods therefore follow three things:
- the inline bodies;
- the `Q_ASSERT` index conventions;
- the doc comments and the declared fields. Examples: `mBlockChangeNumber` is shared by the changes of an open block, `mFullUndoImposible` is sticky, and `mNextChangeNumber` only grows.

Reads with an index out of range return the empty value (`""`, 0, the initial state). Mutations require an index in range.

Two conventions apply throughout. Colours, fonts and token attributes are opaque values, compared only for equality. The editor helpers whose bodies are not shown are function-valued fields of `SynPainter.Editor`: `rowToLine`, `bufferToDisplayPos`, `charToGlyphLeft` (as `preeditGlyphLeft`), `getLineIndent`, `updateGlyphStartPositionList` (as `measure`) and the tokenizer (as `tokenize`).

## Model

| member | source | states |
|---|---|---|
| SynGlyphs.CalcGlyphPositions | libs/qsynedit/qsynedit/document.h:33 | the glyph start indices of a text: none exactly for the empty text, and the first glyph starts at 0; CalcGlyphPositionsSpec and GlyphStartsFromSpec carry the rest of its contract |
| SynGlyphs.GlyphStartsFromSpec | libs/qsynedit/qsynedit/document.h:33 | the scan from index i lists every glyph start at or after i, and only those, in strictly increasing order |
| SynGlyphs.CalcGlyphPositionsSpec | libs/qsynedit/qsynedit/document.h:155-162 | calcGlyphPositions segments the text: empty exactly for the empty text, starts at 0, strictly increasing, in range; an index is listed iff a glyph starts there |
| SynGlyphs.GlyphEndOf | libs/qsynedit/qsynedit/document.h:95-100 | the end of glyph i lies strictly after its start and at most at the text length |
| SynGlyphs.GlyphText | libs/qsynedit/qsynedit/document.h:102-107 | the chars of a glyph are never empty |
| SynGlyphs.GlyphsCoverText | libs/qsynedit/qsynedit/document.h:43-46 | the glyphs of a line, concatenated in order, give back the line text |
| SynGlyphs.GlyphCountBound | libs/qsynedit/qsynedit/document.h:58-67 | a line never has more glyphs than chars |
| SynGlyphs.TabAdvance | libs/qsynedit/qsynedit/document.h:430-439 | a tab advances between 1 and tabWidth columns and ends on a multiple of tabWidth |
| SynGlyphs.ColumnsFromSpec | libs/qsynedit/qsynedit/document.h:163-171 | a layout has one start column per glyph, starts at the given column and never goes back past it or beyond the total |
| SynGlyphs.ColumnsFromStep | libs/qsynedit/qsynedit/document.h:163-171 | every glyph spans exactly its own width from where it starts |
| SynGlyphs.CalcGlyphColumns | libs/qsynedit/qsynedit/document.h:494 | calcGlyphColumns returns a non-negative total width and exactly one start column per glyph position |
| SynGlyphs.CalcGlyphColumnsBounds | libs/qsynedit/qsynedit/document.h:494 | every start column lies between colsBefore and colsBefore plus the width |
| SynGlyphs.TabEndsOnTabStop | libs/qsynedit/qsynedit/document.h:430-439 | a tab glyph always ends on a tab stop |
| SynGlyphs.GlyphTakesAdvance | libs/qsynedit/qsynedit/document.h:166-169 | a glyph other than a tab takes exactly its font advance |
| SynText.LineEnd | libs/qsynedit/qsynedit/document.h:382-389 | the end of the line starting at pos lies in [pos, length] and is a break char unless it is the end of the text |
| SynText.LineEndSpec | libs/qsynedit/qsynedit/document.h:382-389 | no break char lies between pos and the line end |
| SynText.SkipBreak | libs/qsynedit/qsynedit/document.h:382-389 | a line break (CR LF, LF or CR) is skipped as one break, moving forward |
| SynText.SplitFromNoBreaks | libs/qsynedit/qsynedit/document.h:37-41 | no line produced by splitting a text contains a line break |
| SynText.SplitJoin | libs/qsynedit/qsynedit/document.h:372-389 | splitting the join of break-free lines whose last line is not empty gives back the lines, for each of the three line breaks |
| SynDocument.DocumentLine.Segmented | libs/qsynedit/qsynedit/document.h:155-162 | the glyph positions of a valid line segment its text |
| SynDocument.DocumentLine.constructor | libs/qsynedit/qsynedit/document.h:53 | a new line is empty with an invalid column cache and the initial tokenizer state |
| SynDocument.DocumentLine.GlyphsCount | libs/qsynedit/qsynedit/document.h:65-67 | the glyph count is the length of the glyph positions and at most the text length |
| SynDocument.DocumentLine.GlyphStart | libs/qsynedit/qsynedit/document.h:90-93 | defined only for 0 <= i < glyphsCount; returns glyphPositions[i], in range and after the previous glyph's start |
| SynDocument.DocumentLine.GlyphEnd | libs/qsynedit/qsynedit/document.h:95-100 | the next glyph's start, or the text length for the last glyph, strictly after the glyph's start |
| SynDocument.DocumentLine.GetGlyph | libs/qsynedit/qsynedit/document.h:102-107 | the non-empty chars between glyphStart(i) and glyphEnd(i) |
| SynDocument.DocumentLine.GetGlyphStartColumn | libs/qsynedit/qsynedit/document.h:114-118 | requires a valid column cache and an index in range; returns glyphColumns[i] |
| SynDocument.DocumentLine.GetGlyphEndColumn | libs/qsynedit/qsynedit/document.h:120-125 | the next glyph's start column, or the line width for the last glyph |
| SynDocument.DocumentLine.SetSyntaxState | libs/qsynedit/qsynedit/document.h:143-148 | the state becomes the new one; text, glyphs and column cache are unchanged |
| SynDocument.DocumentLine.SetLineText | libs/qsynedit/qsynedit/document.h:150 | the new text with its recomputed glyph positions and an invalid column cache; the syntax state stays |
| SynDocument.DocumentLine.SetColumns | libs/qsynedit/qsynedit/document.h:151 | stores exactly the width and glyph columns given; touches neither the text, the glyph positions nor the state |
| SynDocument.DocumentLine.InvalidateColumns | libs/qsynedit/qsynedit/document.h:152 | width -1 and no glyph columns; touches neither the text, the glyph positions nor the state |
| SynDocument.Document.constructor | libs/qsynedit/qsynedit/document.h:213 | an empty valid document with the given tab width and font, no longest line and no update in progress |
| SynDocument.Document.Count | libs/qsynedit/qsynedit/document.h:363-370 | the number of lines |
| SynDocument.Document.Empty | libs/qsynedit/qsynedit/document.h:466 | true exactly when there are no lines |
| SynDocument.Document.Contents | libs/qsynedit/qsynedit/document.h:401-408 | one text per line |
| SynDocument.Document.GetLine | libs/qsynedit/qsynedit/document.h:332-340 | the text of line i, or "" for an index out of range |
| SynDocument.Document.GetSyntaxState | libs/qsynedit/qsynedit/document.h:312-320 | the state cached for line i, or the initial state out of range |
| SynDocument.Document.GetLineGlyphsCount | libs/qsynedit/qsynedit/document.h:342-350 | the glyph count of line i's text (0 out of range), at most its length |
| SynDocument.Document.GetGlyphPositions | libs/qsynedit/qsynedit/document.h:352-361 | calcGlyphPositions of line i's text (empty out of range) |
| SynDocument.Document.StringColumns | libs/qsynedit/qsynedit/document.h:430-439 | the non-negative width of a string placed after colsBefore columns, not counting them |
| SynDocument.BreakText | libs/qsynedit/qsynedit/document.h:305-310 | each newline type writes one of the three line breaks |
| SynDocument.Document.LineBreak | libs/qsynedit/qsynedit/document.h:305-310 | CR LF, LF or CR according to the newline type |
| SynDocument.Document.LineColumns | libs/qsynedit/qsynedit/document.h:247-255 | the line's width under the current font and tab width, cached in the line (0 out of range); text, states and other caches unchanged |
| SynDocument.Document.LineColumnsFor | libs/qsynedit/qsynedit/document.h:257-270 | with the line's own text, the cached width; otherwise the width of the new text; in both cases the width of newText |
| SynDocument.Document.LongestLineColumns | libs/qsynedit/qsynedit/document.h:296-303 | at least every line's width and equal to the width of the recorded longest line; 0 and no index for an empty document; every cache filled |
| SynDocument.Document.SetSyntaxState | libs/qsynedit/qsynedit/document.h:322-330 | only line i's state changes |
| SynDocument.Document.PutLine | libs/qsynedit/qsynedit/document.h:410 | only line i's text changes; its column cache becomes invalid and every state stays |
| SynDocument.Document.BeginUpdate | libs/qsynedit/qsynedit/document.h:412 | the update depth grows by one |
| SynDocument.Document.EndUpdate | libs/qsynedit/qsynedit/document.h:413 | the update depth shrinks by one |
| SynDocument.Document.InsertLine | libs/qsynedit/qsynedit/document.h:423 | a new line with text s at index i, in the initial state with an invalid cache; the other lines keep their order and states |
| SynDocument.Document.AddLine | libs/qsynedit/qsynedit/document.h:415 | appends s and returns the old line count, the new line's index |
| SynDocument.Document.AddLines | libs/qsynedit/qsynedit/document.h:416 | appends every string in order; the old lines keep their states and each new line starts in the initial state |
| SynDocument.Document.InsertLines | libs/qsynedit/qsynedit/document.h:424 | numLines empty lines at index i, each in the initial state, with the lines after them keeping their states; nothing for numLines <= 0 |
| SynDocument.Document.DeleteAt | libs/qsynedit/qsynedit/document.h:420 | removes line i; the rest keep their order, texts and states |
| SynDocument.Document.DeleteLines | libs/qsynedit/qsynedit/document.h:421 | removes numLines lines from i, as many as exist, and the remaining lines keep their texts and states; nothing for numLines <= 0 |
| SynDocument.Document.Exchange | libs/qsynedit/qsynedit/document.h:422 | swaps two lines together with their texts and states; every cache stays valid |
| SynDocument.Document.Clear | libs/qsynedit/qsynedit/document.h:419 | no lines remain |
| SynDocument.Document.SetContents | libs/qsynedit/qsynedit/document.h:392-399 | the document holds exactly the given lines, each in the initial state |
| SynDocument.DetectedNewline | libs/qsynedit/qsynedit/document.h:382-389 | the detected newline type is the one whose break is the first line break of the text, and the current type when the text holds no break |
| SynDocument.Document.SetText | libs/qsynedit/qsynedit/document.h:382-389 | the document holds the lines of the text as SplitLines cuts them, each in the initial state, and records the newline type of the text's first break (DetectedNewline) |
| SynDocument.Document.NewlineRoundTrip | libs/qsynedit/qsynedit/document.h:372-389 | setText of text() detects the document's own newline type, when it has two or more break-free lines |
| SynText.FirstBreakOfJoin | libs/qsynedit/qsynedit/document.h:372-380 | the first line break of two or more joined break-free lines follows the first line and is the joining break |
| SynDocument.Document.AddSplitLines | libs/qsynedit/qsynedit/document.h:382-389 | on a cleared document, the lines of the text as SplitLines cuts them, each in the initial state |
| SynDocument.Document.ScanLine | libs/qsynedit/qsynedit/document.h:382-389 | one line of the scan ends at the first break, and the next line starts past a CR, an LF or a CRLF |
| SynDocument.Document.AddScannedLine | libs/qsynedit/qsynedit/document.h:382-389 | adding the scanned line keeps the document a prefix of the split text, every line in the initial state |
| SynDocument.Document.Text | libs/qsynedit/qsynedit/document.h:372-380 | the lines joined by lineBreak(): empty for no lines, starting with the first line and ending with the last |
| SynText.JoinLinesEnds | libs/qsynedit/qsynedit/document.h:372-380 | joined lines start with the first line and end with the last |
| SynDocument.Document.TextRoundTrip | libs/qsynedit/qsynedit/document.h:372-389 | splitting text() as setText() does gives back the document's lines, when none holds a break and the last is not empty |
| SynDocument.Document.SetTabWidth | libs/qsynedit/qsynedit/document.h:468-471 | a different tab width invalidates every column cache; texts and states unchanged |
| SynDocument.Document.SetFontMetrics | libs/qsynedit/qsynedit/document.h:473-474 | a new font invalidates every column cache; texts and states unchanged |
| SynDocument.Document.InvalidateAllLineColumns | libs/qsynedit/qsynedit/document.h:477 | every column cache becomes invalid; texts and states unchanged |
| SynDocument.Document.SetNewlineType | libs/qsynedit/qsynedit/document.h:463-464 | stores the newline type |
| SynDocument.Document.SetAppendNewLineAtEOF | libs/qsynedit/qsynedit/document.h:460-461 | stores the flag |
| SynUndo.TextMemory | libs/qsynedit/qsynedit/document.h:547 | the footprint estimate of a change text: 0 for no lines, the length of a single line |
| SynUndo.TextMemoryAppend | libs/qsynedit/qsynedit/document.h:547 | the footprint of a text followed by another is the sum of theirs; with TextMemory's one-line case, it is the total length of the lines |
| SynUndo.TextMemoryCovers | libs/qsynedit/qsynedit/document.h:547 | no line of a text is larger than its footprint |
| SynUndo.NewItem | libs/qsynedit/qsynedit/document.h:549-554 | an item holds exactly the reason, mode, positions, text and number given, with the footprint of its text |
| SynUndo.SumMemoryAppend | libs/qsynedit/qsynedit/document.h:612 | appending an item adds its footprint to the total |
| SynUndo.WithinCaps | libs/qsynedit/qsynedit/document.h:593-604 | a list within the caps has at most maxUndoActions entries and at most maxMemoryUsage footprint, where a cap applies |
| SynUndo.EvictSpec | libs/qsynedit/qsynedit/document.h:609 | eviction keeps the newest entries in order, within both caps, dropping none it need not; it drops something iff a cap was broken |
| SynUndo.EvictWithin | libs/qsynedit/qsynedit/document.h:609 | a list within both caps loses nothing |
| SynUndo.DropLastWithin | libs/qsynedit/qsynedit/document.h:588 | popping the newest entry keeps the caps and lowers the footprint by its own |
| SynUndo.Top | libs/qsynedit/qsynedit/document.h:587 | None exactly for an empty stack, otherwise the newest entry |
| SynUndo.TopReason | libs/qsynedit/qsynedit/document.h:536 | Nothing for an empty stack, otherwise the newest entry's reason |
| SynUndo.PushPop | libs/qsynedit/qsynedit/document.h:587-588 | the newest entry after a push is the pushed item, and popping it restores the stack |
| SynUndo.UndoList.constructor | libs/qsynedit/qsynedit/document.h:570 | empty, flag clear, the given caps, numbering from 1, no block |
| SynUndo.UndoList.ItemCount | libs/qsynedit/qsynedit/document.h:591 | the number of items |
| SynUndo.UndoList.IsEmpty | libs/qsynedit/qsynedit/document.h:586 | true iff itemCount() == 0 |
| SynUndo.UndoList.CanUndo | libs/qsynedit/qsynedit/document.h:590 | true iff the list is not empty, iff itemCount() > 0 |
| SynUndo.UndoList.LastChangeReason | libs/qsynedit/qsynedit/document.h:585 | Nothing on an empty list, otherwise the newest item's reason |
| SynUndo.UndoList.PeekItem | libs/qsynedit/qsynedit/document.h:587 | None iff empty, otherwise the newest item |
| SynUndo.UndoList.InBlock | libs/qsynedit/qsynedit/document.h:610 | true iff a block is open |
| SynUndo.UndoList.InitialState | libs/qsynedit/qsynedit/document.h:595 | the newest item carries the marked number, or the list is empty and the mark is 0 |
| SynUndo.UndoList.SetInitialState | libs/qsynedit/qsynedit/document.h:596 | marks the current position, so initialState() holds afterwards |
| SynUndo.UndoList.SetInsideRedo | libs/qsynedit/qsynedit/document.h:599 | stores the flag |
| SynUndo.UndoList.GetNextChangeNumber | libs/qsynedit/qsynedit/document.h:611 | hands out the counter and increments it, so successive numbers strictly increase and exceed every recorded one |
| SynUndo.UndoList.EnsureMaxEntries | libs/qsynedit/qsynedit/document.h:609 | evicts oldest entries while a cap is broken: a suffix within both caps; sets the sticky flag iff a cap was broken |
| SynUndo.UndoList.Append | libs/qsynedit/qsynedit/document.h:572-578 | appends the item, then evicts; the flag records whether the longer list broke a cap |
| SynUndo.UndoList.AddChange | libs/qsynedit/qsynedit/document.h:572-573 | records a change numbered with the open block's number, or else a fresh number above every recorded one, then evicts |
| SynUndo.UndoList.RestoreItem | libs/qsynedit/qsynedit/document.h:578 | puts an item back keeping its number; the counter moves past it |
| SynUndo.UndoList.RestoreChange | libs/qsynedit/qsynedit/document.h:575-576 | as RestoreItem for an item built from the parts |
| SynUndo.UndoList.AddGroupBreak | libs/qsynedit/qsynedit/document.h:580 | adds a GroupBreak marker unless the list is empty or already ends with one; an added marker is numbered, evicted and flagged as AddChange does, and a skipped one changes nothing |
| SynUndo.UndoList.BeginBlock | libs/qsynedit/qsynedit/document.h:581 | nests a block; the outermost one draws the block's number |
| SynUndo.UndoList.EndBlock | libs/qsynedit/qsynedit/document.h:582 | closes a block and clears its number when the outermost one closes; an unmatched call does nothing |
| SynUndo.UndoList.Clear | libs/qsynedit/qsynedit/document.h:584 | empties the list and clears the flag, the mark and the block depth |
| SynUndo.UndoList.PopItem | libs/qsynedit/qsynedit/document.h:588 | removes and returns the newest item (None when empty); the memory counter stays the footprint of the rest |
| SynUndo.UndoList.SetMaxUndoActions | libs/qsynedit/qsynedit/document.h:594 | a new entry cap evicts at once |
| SynUndo.UndoList.SetMaxMemoryUsage | libs/qsynedit/qsynedit/document.h:604 | a new memory cap evicts at once |
| SynUndo.RedoList.constructor | libs/qsynedit/qsynedit/document.h:633 | an empty stack |
| SynUndo.RedoList.ItemCount | libs/qsynedit/qsynedit/document.h:646 | the number of items |
| SynUndo.RedoList.IsEmpty | libs/qsynedit/qsynedit/document.h:641 | true iff itemCount() == 0 |
| SynUndo.RedoList.CanRedo | libs/qsynedit/qsynedit/document.h:645 | true iff the stack is not empty |
| SynUndo.RedoList.LastChangeReason | libs/qsynedit/qsynedit/document.h:640 | Nothing when empty, otherwise the newest item's reason |
| SynUndo.RedoList.PeekItem | libs/qsynedit/qsynedit/document.h:642 | None iff empty, otherwise the newest item |
| SynUndo.RedoList.AddRedoItem | libs/qsynedit/qsynedit/document.h:637 | pushes the item |
| SynUndo.RedoList.AddRedo | libs/qsynedit/qsynedit/document.h:635-636 | pushes an item built from the parts |
| SynUndo.RedoList.Clear | libs/qsynedit/qsynedit/document.h:639 | empties the stack |
| SynUndo.RedoList.PopItem | libs/qsynedit/qsynedit/document.h:643 | removes and returns the newest item (None when empty) |
| SynUndo.ThreeInsertsKeepTwo | libs/qsynedit/qsynedit/document.h:593-594 | with an entry cap of 2, three inserts keep the newest two, and the list broke its cap |
| SynPainter.OrderSelection | libs/qsynedit/qsynedit/painter.cpp:249-273 | a selection exists iff begin != end; then {start, end} == {begin, end} in strict (line, ch) order; otherwise both are (0, 0) |
| SynPainter.ShiftForPreedit | libs/qsynedit/qsynedit/painter.cpp:274-281 | pending input-method text moves the ends on the caret line right by at most its length and keeps their order and lines |
| SynPainter.SelectionEnds | libs/qsynedit/qsynedit/painter.cpp:249-281 | the real selection ends: non-empty iff begin != end, in order, on the lower and upper of the two lines |
| SynPainter.SelectionInfo | libs/qsynedit/qsynedit/painter.cpp:284-310 | visible iff non-empty and meeting [firstLine, lastLine]; rows from bufferToDisplayPos; x from it or the preedit glyph left; in column mode the x values sorted, as the same pair |
| SynPainter.RowSpan | libs/qsynedit/qsynedit/painter.cpp:929-961 | (0, 0, not complex) outside the selected rows; (left, right + 1, not complex) for a normal-mode inner row and every line-mode row; complex only on a selected row outside line mode |
| SynPainter.RowSpanOrdered | libs/qsynedit/qsynedit/painter.cpp:929-969 | with ordered x values the span is empty or lies in [left, right + 1] in order; a complex row is narrower than the whole row; never both line-selected and complex |
| SynPainter.WholeRowSelected | libs/qsynedit/qsynedit/painter.cpp:934-938 | a fully selected inner row counts as line-selected iff left > 0 |
| SynPainter.TokenSplit | libs/qsynedit/qsynedit/painter.cpp:546-558 | nC1 = max(left, accu.left), nC2 = min(right, accu.left + width); complex only on a complex line and only when selected; u1, sel, u2 as the comparisons; nC1Sel, nC2Sel as at 592-593 |
| SynPainter.Pieces | libs/qsynedit/qsynedit/painter.cpp:576-627 | at least one paintToken call; a token that is not complex is one call over [nC1, nC2] |
| SynPainter.PiecesTile | libs/qsynedit/qsynedit/painter.cpp:576-627 | the calls tile [nC1, nC2] without gaps; a complex token has two or three calls, exactly one of them selected |
| SynPainter.CppRem4 | libs/qsynedit/qsynedit/painter.cpp:858 | C++ level % 4: in (-4, 4), equal to the Euclidean remainder for level >= 0, never positive for level <= 0, congruent to level |
| SynPainter.BraceColorAttr | libs/qsynedit/qsynedit/painter.cpp:851-874 | unchanged with rainbow off, a non-Operator attribute or a negative remainder; any change is to the present rainbow attribute of the remainder |
| SynPainter.BraceColorByRemainder | libs/qsynedit/qsynedit/painter.cpp:858-871 | levels with the same C++ remainder give the same colour |
| SynPainter.BraceColorPeriodic | libs/qsynedit/qsynedit/painter.cpp:858-871 | adding 4 to a level keeps its colour unless that crosses zero |
| SynPainter.BraceColorIdempotent | libs/qsynedit/qsynedit/painter.cpp:851-874 | choosing again with the same level changes nothing |
| SynPainter.ClampArea | libs/qsynedit/qsynedit/painter.cpp:479-490 | skipped iff beginX > right or endX < left; else x1 = max(beginX, left), x2 = min(endX, right), within [left, right], ordered for an ordered area |
| SynPainter.ClampAreas | libs/qsynedit/qsynedit/painter.cpp:475-492 | no more drawn areas than areas, all within [left, right] |
| SynPainter.ClampAreasDrawn | libs/qsynedit/qsynedit/painter.cpp:475-492 | every area that reaches [left, right] is drawn, clipped |
| SynPainter.WaveStep | libs/qsynedit/qsynedit/painter.cpp:517-527 | one step moves right by at most maxOffset with an offset in [0, maxOffset]; a full step flips the offset, a short last step ends at rc.right() |
| SynPainter.WaveFrom | libs/qsynedit/qsynedit/painter.cpp:516-530 | as many offsets as x coordinates |
| SynPainter.WaveFromSpec | libs/qsynedit/qsynedit/painter.cpp:511-531 | from (t, offset) on, a zig-zag of strictly increasing x with offsets in [0, maxOffset]; no vertex after t iff t >= rc.right(), otherwise the last x is exactly rc.right() |
| SynPainter.WaveVerticesShape | libs/qsynedit/qsynedit/painter.cpp:511-531 | the wave starts at rc.left() at full offset, is a zig-zag of amplitude 2 * penWidth and ends at max(rc.left(), rc.right()) |
| SynPainter.WaveUnderline | libs/qsynedit/qsynedit/painter.cpp:511-531 | the t/offset loop produces exactly WaveVertices, hence its shape |
| SynPaintPass.TokenLook | libs/qsynedit/qsynedit/painter.cpp:664-686 | the attribute's style; an invalid background becomes colEditorBG(), an invalid foreground the editor foreground, valid colours are kept |
| SynPaintPass.AddToken | libs/qsynedit/qsynedit/painter.cpp:688-747 | the run is painted first iff it is non-empty and cannot take the token; a visible token extends the run (keeping left and startGlyph) or starts its own; a token at or past the right edge changes only the style |
| SynPaintPass.AddTokenKeepsRun | libs/qsynedit/qsynedit/painter.cpp:733-747 | the run stays contiguous with the next token position, and only a run starting left of the edge is painted |
| SynPaintPass.TokenAttr | libs/qsynedit/qsynedit/painter.cpp:1018-1039 | only a bracket token is recoloured, and only with rainbow colours on and an Operator attribute |
| SynPaintPass.ShowGlyph | libs/qsynedit/qsynedit/painter.cpp:1054-1064 | only Space tokens show glyphs: leading, trailing and inner whitespace follow their own options |
| SynPaintPass.PassTokenKeepsRun | libs/qsynedit/qsynedit/painter.cpp:1065-1075 | one token keeps the run contiguous, paints only visible runs and advances tokenLeft by exactly the token's width |
| SynPaintPass.PassTokenIgnoresEmptyRun | libs/qsynedit/qsynedit/painter.cpp:997 | one token paints the same from any emptied run: only the run's width is reset per line |
| SynPaintPass.PassIgnoresEmptyRun | libs/qsynedit/qsynedit/painter.cpp:997-1079 | the pass paints the same runs from two emptied runs, so a line's runs do not depend on what the previous line left in the accumulator |
| SynPaintPass.PassKeepsRuns | libs/qsynedit/qsynedit/painter.cpp:997-1079 | over a line, the pass only appends painted runs, each non-empty and left of the edge, and ends at the line width, the sum of the token widths |
| SynPaintPass.NextNonBlank | libs/qsynedit/qsynedit/painter.cpp:779-781 | the first line index from vLine - 1 on whose text is not empty, or the last line; every line skipped is empty |
| SynPaintPass.IndentGuides | libs/qsynedit/qsynedit/painter.cpp:786-827 | one guide at every tab stop left of the indent and no other, each with its x, its fill end capped at the indent, level k + 1 and the rainbow colours of levels k + 1 and k + 2 |
| SynPaintPass.PadGlyphPositions | libs/qsynedit/qsynedit/painter.cpp:1099-1102 | the list padded with tokenLeft up to the char-list length, its old entries untouched |
| SynPaintPass.Painter.constructor | libs/qsynedit/qsynedit/painter.cpp:25-32 | stores the rows and pixel columns; no selection, no current line, an empty run |
| SynPaintPass.Painter.RealSelection | libs/qsynedit/qsynedit/painter.cpp:249-281 | the selection ends as SelectionEnds orders and shifts them |
| SynPaintPass.Painter.ComputeSelectionInfo | libs/qsynedit/qsynedit/painter.cpp:247-311 | bAnySelection iff SelectionInfo is some; mSelStart, mSelEnd are then its ends, otherwise unchanged |
| SynPaintPass.Painter.ComputeLineSelection | libs/qsynedit/qsynedit/painter.cpp:929-969 | mLineSelStart, mLineSelEnd and mIsComplexLine hold RowSpan of the row; mIsLineSelected is LineSelected of it |
| SynPaintPass.Painter.PaintHighlightToken | libs/qsynedit/qsynedit/painter.cpp:537-627 | an empty run paints nothing; otherwise the paintToken calls are Pieces of TokenSplit for the current row's span |
| SynPaintPass.Painter.AddHighlightToken | libs/qsynedit/qsynedit/painter.cpp:651-748 | the new run, the token width and the run painted first are those of AddHighlight, the look plus AddToken |
| SynPaintPass.Painter.PaintTokenOfLine | libs/qsynedit/qsynedit/painter.cpp:1014-1075 | one iteration of the token loop is PassToken |
| SynPaintPass.Painter.PaintLineTokens | libs/qsynedit/qsynedit/painter.cpp:997-1078 | the token loop from an emptied run at 0 ends in the state Pass computes |
| SynPaintPass.Painter.PaintLineText | libs/qsynedit/qsynedit/painter.cpp:986-1079 | line 1 is lexed from the reset state and line n > 1 from the state cached at n - 2; the width is PassWidth, the sum of token widths; the painted runs are those of the pass plus the final run (1120), and are LineRuns, whatever the run left by the previous line (LinePainted) |
| SynPaintPass.Painter.PaintRow | libs/qsynedit/qsynedit/painter.cpp:897-1120 | the row's line, current-line flag, selected span, start state, width and painted runs (LineRuns of its tokens) are as RowPainted says |
| SynPaintPass.Painter.PaintLines | libs/qsynedit/qsynedit/painter.cpp:876-899 | rows firstRow, firstRow + 1, ... each painted as RowPainted says (its exact runs included), stopping at lastRow or at the first row past the end of a non-empty document |
| SynPaintPass.Painter.PaintEditAreas | libs/qsynedit/qsynedit/painter.cpp:467-535 | the drawn areas are ClampAreas of the list; each wave underline gets exactly WaveVertices between its clipped ends, other kinds none |
| SynPaintPass.Painter.FoldGuides | libs/qsynedit/qsynedit/painter.cpp:768-827 | rows in increasing order within [firstRow, lastRow], each with the guides of its next non-blank line; the recorded rows are exactly GuideRowsFrom, so a row is recorded iff no row from firstRow up to it is past the document and its line exists (GuideRowsComplete) |
| SynPaintPass.Painter.AddGuideRow | libs/qsynedit/qsynedit/painter.cpp:772-827 | one reached row is recorded, with its guides, exactly when GuideRowsFrom lists it |
| SynPaintPass.Painter.GuideRowAt | libs/qsynedit/qsynedit/painter.cpp:772-827 | a reached row has a guide row iff its line is a line of the document, and then it holds the guides of the next non-blank line |
| SynPaintPass.GuideRowsFromSpec | libs/qsynedit/qsynedit/painter.cpp:768-783 | the loop lists a row iff it lies in [row, lastRow], no row from the start up to it is past the end of the document, and its line exists |
| SynPaintPass.GuideRowsFromComplete | libs/qsynedit/qsynedit/painter.cpp:768-783 | rows numbered as GuideRowsFrom lists them are the reached rows and all of them |
| SynPaintPass.Painter.PaintVisibleLines | libs/qsynedit/qsynedit/painter.cpp:38-60 | firstLine and lastLine from rowToLine; the selection and rows are computed only when lastLine >= firstLine |
| SynPaintPass.Painter.PaintEditingArea | libs/qsynedit/qsynedit/painter.cpp:34-93 | the visible lines as PaintVisibleLines, then the indent guides as FoldGuides, complete as GuideRowsFrom lists them |

## Left out

- `document.cpp` is not part of this model. The bodies of `Document`, `UndoList` and `RedoList` methods that are only declared follow their names, their doc comments and the declared fields.
- Version skew: `setLineWidth`, `getGlyphStartCharList` and `getGlyphStartPositionList`, used by `painter.cpp`, are not declared in this `document.h`. The row pass returns the line width instead of storing it.
- `lineText(vLine)` in `paintLines` is modelled as `getLine(vLine - 1)`.
- Caps: a cap of zero or less imposes no limit.
- `SynUndo.TextMemory`: the footprint of an item is the total length of its lines. The header only declares an `unsigned int` estimate, computed in `document.cpp`.
- The block count (`mBlockCount`) and the last popped and restored change numbers (`mLastPoppedItemChangeNumber`, `mLastRestoredItemChangeNumber`) are not modelled. The header calls `mBlockCount` the count of action blocks (document.h:616). The model applies the entry cap `mMaxUndoActions` to the number of items, but `document.cpp` may count blocks instead.
- `SynUndo.UndoList.RestoreItem`: it moves the change counter past a restored number that is not below it. The header does not say this. The model makes that choice so that every recorded number stays below the counter and `AddChange` outside a block always draws a number larger than every recorded one.
- `SynUndo.UndoList.RestoreChange`: it makes the same counter move as `RestoreItem`.
- `SynUndo.UndoList.constructor`: it takes the entry and memory caps as parameters. The header's `UndoList()` takes none, and its defaults are set in `document.cpp`.
- `SynDocument.Document.SetText`: the header does not show how `setText` detects the line-ending style. The model records the style of the first line break in the text (`DetectedNewline`) and keeps the current one for a text with no break.
- `SynDocument.Document.EndUpdate`: an unmatched call takes the update depth below zero. The header does not say how `endUpdate` treats it.
- `SynGlyphs.IsGlyphStart`, `SynGlyphs.GlyphStartsFromSpec`, `SynGlyphs.CalcGlyphPositionsSpec` and `SynDocument.DocumentLine.Segmented` use a stand-in glyph rule, because the segmentation behind `calcGlyphPositions` (document.h:33) is not shown. Under that rule a combining mark (U+0300 to U+036F), a variation selector or a zero-width joiner joins the char before it, and so does the char after a zero-width joiner. The segmentation properties (starting at 0, strictly increasing, in range, covering the text) would hold for any rule that always starts a glyph at index 0.
- Change numbers are unbounded: the 32-bit wrap-around of `mNextChangeNumber` is not modelled.
- Clearing the redo list when a new change is recorded is the editor's job, not the lists'. It is not modelled.
- File load and save, encodings, Qt signals, `QFontMetrics` and the `QRecursiveMutex` are not modelled. The model has one sequential caller, and the font is an opaque advance function.
- `parenthesisLevel`, `bracketLevel`, `braceLevel`, `blockLevel`, `blockStarted` and `blockEnded` read fields of `getSyntaxState` and carry no contract of their own. The column conversions (`charToColumn`, `columnToChar`, `glyphStartColumn` and the rest) and `getTextLength` are not modelled.
- Every drawing call is left out: `fillRect`, `drawText`, `drawLine`, `drawRect`, pens, brushes, gradients, the gutter, the right edge, the collapsed-line marks and the `mRcToken`/`mRcLine` rectangles. The painter returns as values what would be drawn.
- Floating point: the pen width is an integer parameter with `penWidth >= 1`. This replaces the rounding at `painter.cpp:476-478`.
- Input-method text inside `paintLines` is not modelled: the preedit-spliced line (909-913), the preedit attribute (1041-1053) and the preedit edit area (1124-1158). It is modelled in `computeSelectionInfo`.
- The add-on string after the tokens (fold string or line-break glyph, 1080-1116) is not modelled, except for the padding loop (`PadGlyphPositions`).
- The mapping of edit areas from chars to pixels (1123-1137) calls helpers that are not shown and is not modelled.
- `onPreparePaintHighlightToken`, special-line colours (`onGetSpecialLineColors`) and the selection colours are not modelled.
- A null token attribute (664-672) is not modelled: every token carries an attribute.
- `SynPaintPass.AddToken`: the `Q_ASSERT` at 736 (an appended token starts at the run's end glyph) is not a precondition. The glyph ranges come from `updateGlyphStartPositionList`, whose body is not shown.
- `SynPaintPass.Painter.PaintLineTokens`: the empty-token `continue` at 1002-1003 never advances the tokenizer, so an empty token before the end of the line loops forever. The model requires a tokenizer that never returns an empty token (`TokenizerAdvances`).
- `SynPaintPass.IndentGuides`: it requires `tabSize > 0`. With a tab size of 0 or less, the `tabSteps` loop at 789 never ends when the line is indented.
- `SynPaintPass.Painter.FoldGuides`: it computes both the guide colour and the fill of every guide, whatever the `indentGuides` and `fillIndents` options say. The brace level read at 785 is dead code, because the level is reset to 0 at 788; it is not modelled.
- `SynPainter.BraceColorAttr` follows C++ `%`, which truncates toward zero. A negative level whose remainder is not zero matches no case and keeps the attribute. A negative multiple of 4, such as -4, picks rainbow 0.
- `SynPaintPass.Painter.PaintLines`: it does not state the fields a row leaves behind (`mIsCurrentLine` is cleared at 1168) and states only what each row computes.
