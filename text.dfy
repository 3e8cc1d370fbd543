/**
 * Splitting a document text into lines and joining lines back into text.
 *
 * CR LF, a lone LF and a lone CR each end a line; a break at the very end of
 * the text does not start another line. Joining puts the document's line
 * break between lines and none after the last.
 */
module SynText {

  predicate IsBreak(c: char) { c == '\r' || c == '\n' }

  predicate NoBreaks(s: string) { forall k :: 0 <= k < |s| ==> !IsBreak(s[k]) }

  predicate IsLineBreak(br: string) { br == "\r\n" || br == "\n" || br == "\r" }

  /** The index of the first line-break character at or after pos, or the text length. */
  function LineEnd(text: string, pos: nat): (e: nat)
    requires pos <= |text|
    ensures pos <= e <= |text|
    ensures e < |text| ==> IsBreak(text[e])
    decreases |text| - pos
  {
    if pos == |text| || IsBreak(text[pos]) then pos else LineEnd(text, pos + 1)
  }

  /** No break lies between pos and LineEnd(text, pos). */
  lemma {:induction false} LineEndSpec(text: string, pos: nat)
    requires pos <= |text|
    ensures forall k :: pos <= k < LineEnd(text, pos) ==> !IsBreak(text[k])
    decreases |text| - pos
  {
    if pos < |text| && !IsBreak(text[pos]) {
      LineEndSpec(text, pos + 1);
    }
  }

  /** A position e with no break before it and a break (or the end) at it is the line end. */
  lemma {:induction false} LineEndAt(text: string, pos: nat, e: nat)
    requires pos <= e <= |text|
    requires forall k :: pos <= k < e ==> !IsBreak(text[k])
    requires e == |text| || IsBreak(text[e])
    ensures LineEnd(text, pos) == e
    decreases e - pos
  {
    if pos < e {
      LineEndAt(text, pos + 1, e);
    }
  }

  /** The index after the line break at e: CR LF, a lone LF and a lone CR each count as one break. */
  function SkipBreak(text: string, e: nat): (p: nat)
    requires e < |text| && IsBreak(text[e])
    ensures e < p <= |text|
  {
    if text[e] == '\r' && e + 1 < |text| && text[e + 1] == '\n' then e + 2 else e + 1
  }

  /** The lines of text from index pos on. */
  function SplitFrom(text: string, pos: nat): seq<string>
    requires pos <= |text|
    decreases |text| - pos
  {
    if pos == |text| then []
    else
      var e := LineEnd(text, pos);
      [text[pos..e]] + (if e == |text| then [] else SplitFrom(text, SkipBreak(text, e)))
  }

  function SplitLines(text: string): seq<string>
  {
    SplitFrom(text, 0)
  }

  /** The lines joined by br, with no break after the last line. */
  function JoinLines(ls: seq<string>, br: string): string
  {
    if |ls| == 0 then "" else if |ls| == 1 then ls[0] else ls[0] + br + JoinLines(ls[1..], br)
  }

  /** SplitFrom at a line that ends in a break at e, the next line starting at q. */
  lemma SplitFromAt(text: string, pos: nat, e: nat, q: nat)
    requires pos < |text| && e == LineEnd(text, pos) && e < |text| && q == SkipBreak(text, e)
    ensures SplitFrom(text, pos) == [text[pos..e]] + SplitFrom(text, q)
  {
  }

  /** SplitFrom at the last line, which runs to the end of the text. */
  lemma SplitFromLast(text: string, pos: nat)
    requires pos < |text| && LineEnd(text, pos) == |text|
    ensures SplitFrom(text, pos) == [text[pos..]]
  {
    assert text[pos..|text|] == text[pos..];
  }

  /** One step of the scan: the line from start to its end e, then the lines after its break. */
  lemma SplitStep(text: string, start: nat, e: nat, pos: nat)
    requires start < |text| && e == LineEnd(text, start)
    requires if e < |text| then pos == SkipBreak(text, e) else pos == e
    ensures pos <= |text| && SplitFrom(text, start) == [text[start..e]] + SplitFrom(text, pos)
  {
    if e < |text| {
      SplitFromAt(text, start, e, pos);
    } else {
      SplitFromLast(text, start);
      assert text[start..e] == text[start..];
    }
  }

  /** No line produced by splitting holds a line break. */
  lemma {:induction false} SplitFromNoBreaks(text: string, pos: nat)
    requires pos <= |text|
    ensures forall k :: 0 <= k < |SplitFrom(text, pos)| ==> NoBreaks(SplitFrom(text, pos)[k])
    decreases |text| - pos
  {
    if pos < |text| {
      var e := LineEnd(text, pos);
      LineEndSpec(text, pos);
      assert NoBreaks(text[pos..e]);
      if e < |text| {
        SplitFromAt(text, pos, e, SkipBreak(text, e));
        SplitFromNoBreaks(text, SkipBreak(text, e));
      } else {
        SplitFromLast(text, pos);
      }
    }
  }

  /** Every line is break-free, stated line by line from the first. */
  predicate AllNoBreaks(ls: seq<string>)
  {
    |ls| == 0 || (NoBreaks(ls[0]) && AllNoBreaks(ls[1..]))
  }

  lemma {:induction false} AllNoBreaksOf(ls: seq<string>)
    requires forall k :: 0 <= k < |ls| ==> NoBreaks(ls[k])
    ensures AllNoBreaks(ls)
  {
    if |ls| > 0 {
      assert forall k :: 0 <= k < |ls[1..]| ==> ls[1..][k] == ls[k + 1];
      AllNoBreaksOf(ls[1..]);
    }
  }

  /**
   * The text from pos on is the lines joined by br, stated line by line: each
   * line in place, then a break, then the rest.
   */
  predicate JoinedAt(text: string, pos: nat, ls: seq<string>, br: string)
    requires pos <= |text|
    decreases |ls|
  {
    if |ls| == 0 then pos == |text|
    else if |ls| == 1 then text[pos..] == ls[0]
    else
      var e := pos + |ls[0]|;
      e + |br| <= |text| && text[pos..e] == ls[0] && text[e..e + |br|] == br &&
      JoinedAt(text, e + |br|, ls[1..], br)
  }

  /** A first line, a break, and the join of the rest. */
  lemma JoinedAtCons(text: string, pos: nat, ls: seq<string>, br: string)
    requires pos <= |text| && |ls| > 1
    requires var e := pos + |ls[0]|; e + |br| <= |text| && text[pos..e] == ls[0] && text[e..e + |br|] == br
    requires JoinedAt(text, pos + |ls[0]| + |br|, ls[1..], br)
    ensures JoinedAt(text, pos, ls, br)
  {
  }

  lemma {:induction false} JoinedAtOf(text: string, pos: nat, ls: seq<string>, br: string)
    requires pos <= |text| && text[pos..] == JoinLines(ls, br)
    ensures JoinedAt(text, pos, ls, br)
    decreases |ls|
  {
    if |ls| == 0 {
      assert |text[pos..]| == 0;
    } else if |ls| > 1 {
      SuffixParts(text, pos, ls[0], br, JoinLines(ls[1..], br));
      JoinedAtOf(text, pos + |ls[0]| + |br|, ls[1..], br);
      JoinedAtCons(text, pos, ls, br);
    }
  }

  /**
   * A join of break-free lines whose last line is not empty is not empty,
   * and with CR as the line break it does not start with LF.
   */
  lemma JoinStartsWell(text: string, pos: nat, ls: seq<string>, br: string)
    requires IsLineBreak(br) && pos <= |text| && |ls| > 0 && NoBreaks(ls[0])
    requires ls[|ls| - 1] != ""
    requires JoinedAt(text, pos, ls, br)
    ensures pos < |text| && (br == "\r" ==> text[pos] != '\n')
  {
    if |ls| == 1 {
      assert text[pos..][0] == ls[0][0];
    } else if ls[0] == "" {
      assert text[pos..pos + |br|][0] == br[0];
    } else {
      assert text[pos..pos + |ls[0]|][0] == ls[0][0];
    }
  }

  /** The first line of a text that starts with a break-free line l0 followed by a break or the end. */
  lemma FirstLineEnd(text: string, pos: nat, l0: string)
    requires pos <= |text| && NoBreaks(l0) && pos + |l0| <= |text|
    requires text[pos..pos + |l0|] == l0
    requires pos + |l0| == |text| || IsBreak(text[pos + |l0|])
    ensures LineEnd(text, pos) == pos + |l0|
  {
    forall k | pos <= k < pos + |l0|
      ensures !IsBreak(text[k])
    {
      assert text[k] == l0[k - pos];
    }
    LineEndAt(text, pos, pos + |l0|);
  }

  /** The three parts of a suffix that is the concatenation of a, b and c. */
  lemma SuffixParts(text: string, pos: nat, a: string, b: string, c: string)
    requires pos <= |text| && text[pos..] == a + b + c
    ensures pos + |a| + |b| <= |text|
    ensures text[pos..pos + |a|] == a
    ensures text[pos + |a|..pos + |a| + |b|] == b
    ensures text[pos + |a| + |b|..] == c
  {
    assert text[pos..][..|a|] == a;
    assert text[pos..][|a|..|a| + |b|] == b;
    assert text[pos..][|a| + |b|..] == c;
  }

  /** The break after the first line of a join is skipped as one break. */
  lemma SkipJoinBreak(text: string, e: nat, br: string)
    requires IsLineBreak(br) && e + |br| <= |text|
    requires text[e..e + |br|] == br
    requires br == "\r" && e + 1 < |text| ==> text[e + 1] != '\n'
    ensures e < |text| && IsBreak(text[e]) && SkipBreak(text, e) == e + |br|
  {
    assert text[e] == br[0];
    if br == "\r\n" {
      assert text[e + 1] == br[1];
    }
  }

  /**
   * The lines ls are where splitting from pos finds them: each line runs to
   * the next line end, and the next line starts after the break.
   */
  predicate SplitsAs(text: string, pos: nat, ls: seq<string>)
    requires pos <= |text|
    decreases |ls|
  {
    if |ls| == 0 then pos == |text|
    else
      var e := pos + |ls[0]|;
      pos < |text| && e <= |text| && LineEnd(text, pos) == e && text[pos..e] == ls[0] &&
      (if |ls| == 1 then e == |text| else e < |text| && SplitsAs(text, SkipBreak(text, e), ls[1..]))
  }

  lemma {:induction false} SplitFromSplitsAs(text: string, pos: nat, ls: seq<string>)
    requires pos <= |text| && SplitsAs(text, pos, ls)
    ensures SplitFrom(text, pos) == ls
    decreases |ls|
  {
    if |ls| == 1 {
      SplitFromLast(text, pos);
    } else if |ls| > 1 {
      var e := pos + |ls[0]|;
      SplitFromAt(text, pos, e, SkipBreak(text, e));
      SplitFromSplitsAs(text, SkipBreak(text, e), ls[1..]);
      ConsEq(SplitFrom(text, pos), SplitFrom(text, SkipBreak(text, e)), ls);
    }
  }

  /** The end of a break-free first line followed by a break and a text that does not start with LF after CR. */
  lemma JoinFirstLine(text: string, pos: nat, l0: string, br: string)
    requires IsLineBreak(br) && pos <= |text| && NoBreaks(l0)
    requires var e := pos + |l0|; e + |br| < |text| && text[pos..e] == l0 && text[e..e + |br|] == br
    requires br == "\r" ==> text[pos + |l0| + |br|] != '\n'
    ensures pos + |l0| < |text| && LineEnd(text, pos) == pos + |l0|
    ensures SkipBreak(text, pos + |l0|) == pos + |l0| + |br|
  {
    SkipJoinBreak(text, pos + |l0|, br);
    FirstLineEnd(text, pos, l0);
  }

  /** A single break-free line that runs to the end of the text. */
  lemma SplitsAsOne(text: string, pos: nat, l0: string)
    requires pos <= |text| && NoBreaks(l0) && l0 != "" && text[pos..] == l0
    ensures SplitsAs(text, pos, [l0])
  {
    assert text[pos..] == l0 + "" + "";
    SuffixParts(text, pos, l0, "", "");
    FirstLineEnd(text, pos, l0);
  }

  /** A break-free first line and a break, followed by a text that splits as the other lines. */
  lemma SplitsAsCons(text: string, pos: nat, ls: seq<string>, br: string, q: nat)
    requires IsLineBreak(br) && pos <= |text| && |ls| > 1 && NoBreaks(ls[0])
    requires q == pos + |ls[0]| + |br| && q < |text|
    requires text[pos..pos + |ls[0]|] == ls[0] && text[pos + |ls[0]|..q] == br
    requires br == "\r" ==> text[q] != '\n'
    requires SplitsAs(text, q, ls[1..])
    ensures SplitsAs(text, pos, ls)
  {
    JoinFirstLine(text, pos, ls[0], br);
  }

  /** A join of break-free lines whose last line is not empty splits as those lines. */
  lemma {:induction false} JoinedSplitsAs(text: string, pos: nat, ls: seq<string>, br: string)
    requires IsLineBreak(br) && pos <= |text|
    requires AllNoBreaks(ls)
    requires |ls| > 0 ==> ls[|ls| - 1] != ""
    requires JoinedAt(text, pos, ls, br)
    ensures SplitsAs(text, pos, ls)
    decreases |ls|
  {
    if |ls| == 1 {
      SplitsAsOne(text, pos, ls[0]);
    } else if |ls| > 1 {
      var q := pos + |ls[0]| + |br|;
      JoinedTail(text, pos, ls, br);
      JoinStartsWell(text, q, ls[1..], br);
      JoinedSplitsAs(text, q, ls[1..], br);
      SplitsAsCons(text, pos, ls, br, q);
    }
  }

  /** What a join of two or more lines says about the lines after the first. */
  lemma JoinedTail(text: string, pos: nat, ls: seq<string>, br: string)
    requires pos <= |text| && |ls| > 1 && AllNoBreaks(ls) && ls[|ls| - 1] != ""
    requires JoinedAt(text, pos, ls, br)
    ensures pos + |ls[0]| + |br| <= |text|
    ensures var e := pos + |ls[0]|; text[pos..e] == ls[0] && text[e..e + |br|] == br
    ensures JoinedAt(text, pos + |ls[0]| + |br|, ls[1..], br)
    ensures AllNoBreaks(ls[1..]) && ls[1..][|ls[1..]| - 1] != ""
    ensures NoBreaks(ls[0]) && NoBreaks(ls[1..][0])
  {
    assert ls[1..][0] == ls[1] && ls[1..][|ls[1..]| - 1] == ls[|ls| - 1];
  }

  /** The joined text starts with the first line and ends with the last. */
  lemma {:induction false} JoinLinesEnds(ls: seq<string>, br: string)
    requires |ls| > 0
    ensures var t := JoinLines(ls, br);
      |ls[0]| <= |t| && t[..|ls[0]|] == ls[0]
      && |ls[|ls| - 1]| <= |t| && t[|t| - |ls[|ls| - 1]|..] == ls[|ls| - 1]
  {
    var t := JoinLines(ls, br);
    if |ls| > 1 {
      JoinLinesEnds(ls[1..], br);
      var u := JoinLines(ls[1..], br);
      assert t == ls[0] + br + u;
      assert ls[1..][|ls[1..]| - 1] == ls[|ls| - 1];
      assert t[|t| - |u|..] == u;
    }
  }

  /**
   * The first break of lines joined by br, when there are at least two lines
   * and they hold no break: it comes right after the first line, and the
   * break found there is br.
   */
  lemma FirstBreakOfJoin(ls: seq<string>, br: string)
    requires |ls| >= 2 && IsLineBreak(br)
    requires forall k :: 0 <= k < |ls| ==> NoBreaks(ls[k])
    ensures var t := JoinLines(ls, br);
      |ls[0]| < |t| && LineEnd(t, 0) == |ls[0]| && t[|ls[0]|..SkipBreak(t, |ls[0]|)] == br
  {
    var t := JoinLines(ls, br);
    var e := |ls[0]|;
    assert t == ls[0] + br + JoinLines(ls[1..], br);
    assert NoBreaks(ls[0]);
    assert forall k :: 0 <= k < e ==> t[k] == ls[0][k];
    assert t[e] == br[0];
    LineEndAt(t, 0, e);
    if br == "\r" {
      forall k | 0 <= k < |ls|
        ensures '\n' !in ls[k]
      {
        assert NoBreaks(ls[k]);
      }
      JoinLinesAvoids(ls, br, '\n');
      assert e + 1 < |t| ==> t[e + 1] != '\n';
    }
  }

  /** A char that occurs in no line and not in the break does not occur in the joined text. */
  lemma {:induction false} JoinLinesAvoids(ls: seq<string>, br: string, c: char)
    requires forall k :: 0 <= k < |ls| ==> c !in ls[k]
    requires c !in br
    ensures c !in JoinLines(ls, br)
    decreases |ls|
  {
    if |ls| > 1 {
      JoinLinesAvoids(ls[1..], br, c);
      assert JoinLines(ls, br) == ls[0] + br + JoinLines(ls[1..], br);
    }
  }

  /** x is s when x is the head of s before y and y is the tail of s. */
  lemma ConsEq<T>(x: seq<T>, y: seq<T>, s: seq<T>)
    requires |s| > 0 && x == [s[0]] + y && y == s[1..]
    ensures x == s
  {
  }

  /**
   * Text round trip: joining lines that hold no line break and do not end
   * with an empty line, then splitting the result, gives back the lines.
   */
  lemma SplitJoin(ls: seq<string>, br: string)
    requires IsLineBreak(br)
    requires forall k :: 0 <= k < |ls| ==> NoBreaks(ls[k])
    requires |ls| > 0 ==> ls[|ls| - 1] != ""
    ensures SplitLines(JoinLines(ls, br)) == ls
  {
    var t := JoinLines(ls, br);
    assert t[0..] == t;
    JoinedAtOf(t, 0, ls, br);
    AllNoBreaksOf(ls);
    JoinedSplitsAs(t, 0, ls, br);
    SplitFromSplitsAs(t, 0, ls);
  }
}
