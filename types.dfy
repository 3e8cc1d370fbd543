/**
 * Value types shared by the document store, the change log and the painter:
 * buffer and display coordinates, selection modes, colours, token
 * attributes and the tokenizer's per-line state.
 */
module SynTypes {

  datatype Option<+T> = None | Some(value: T)

  /** A position in the text buffer: 1-based line and 1-based char. */
  datatype BufferCoord = BufferCoord(ch: int, line: int)

  /** A position on screen: x in pixels from the start of the text, row 1-based. */
  datatype DisplayCoord = DisplayCoord(x: int, row: int)

  datatype SelectionMode = Normal | Line | Column

  /** Strict (line, ch) order of buffer coordinates. */
  predicate Before(a: BufferCoord, b: BufferCoord)
  {
    a.line < b.line || (a.line == b.line && a.ch < b.ch)
  }

  /** A colour, compared only for equality; Invalid is a QColor that is not valid. */
  datatype Color = Invalid | Rgb(value: int)

  /** A set of font style flags (bold, italic, ...), compared only for equality. */
  type FontStyles = int

  datatype TokenType = Default | Operator | Space | Comment | Identifier | Keyword | Number | StringToken | Other

  datatype TokenAttribute = TokenAttribute(tokenType: TokenType, foreground: Color, background: Color, styles: FontStyles)

  /**
   * The lexical mode the tokenizer resumes in on the next line; the names are
   * those of the C++ tokenizer's RangeState.
   */
  datatype RangeState =
    | Unknown | AnsiC | Directive | DirectiveComment | StringState | StringNextLine
    | StringUnfinished | MultiLineString | MultiLineDirective | CppComment | Docstring
    | StringEscapeSeq | RawString | SpaceState | RawStringNotEscaping | RawStringEnd
    | CharState | CharEscaping | DefineIdentifier | DefineRemaining

  /**
   * The tokenizer state after a line has been lexed: the lexical mode and
   * the nesting counters of parentheses, brackets, braces and indent blocks.
   */
  datatype SyntaxState = SyntaxState(
    state: RangeState,
    parenthesisLevel: int,
    bracketLevel: int,
    braceLevel: int,
    blockLevel: int,
    blockStarted: int,
    blockEnded: int)

  /** The state the tokenizer starts in before line 1 (resetState). */
  const InitialSyntaxState := SyntaxState(Unknown, 0, 0, 0, 0, 0, 0)

  function Max(a: int, b: int): int { if a >= b then a else b }
  function Min(a: int, b: int): int { if a <= b then a else b }
}
