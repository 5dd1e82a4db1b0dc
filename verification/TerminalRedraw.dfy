/**
 The rewrite of multi-line erase sequences: a bottom-up run of "erase line, cursor up" becomes one jump up,
 a top-down pass and one jump back.
 */
module TerminalRedraw {
  import opened Wrappers

  const ESC := "\U{1B}["
  const ERASE_LINE := ESC + "2K"
  const CURSOR_UP_ONE := ESC + "1A"
  const CURSOR_DOWN_ONE := ESC + "1B"
  const CURSOR_LEFT := ESC + "G"

  /** The repeated part of the pattern, and its end. */
  const UNIT := ERASE_LINE + CURSOR_UP_ONE
  const TAIL := ERASE_LINE + CURSOR_LEFT

  function Repeat(s: string, n: nat): (r: string)
    ensures |r| == n * |s|
  {
    if n == 0 then "" else s + Repeat(s, n - 1)
  }

  /** How a cursor count is written. */
  function Decimal(n: nat): string {
    if n < 10 then [('0' as int + n) as char] else Decimal(n / 10) + [('0' as int + n % 10) as char]
  }

  predicate StartsWith(text: string, prefix: string) {
    |prefix| <= |text| && text[..|prefix|] == prefix
  }

  datatype Match = Match(units: nat, length: nat)

  /** All leading units, then the tail. A unit is never the start of the tail, so fewer units than there
      are cannot be followed by it. */
  function MatchUnits(text: string): (m: Option<Match>)
    ensures m.Some? ==> 0 < m.value.length <= |text|
    decreases |text|
  {
    if StartsWith(text, UNIT) then
      match MatchUnits(text[|UNIT|..])
      case Some(m) => Some(Match(m.units + 1, |UNIT| + m.length))
      case None => None
    else if StartsWith(text, TAIL) then Some(Match(0, |TAIL|))
    else None
  }

  /** A match of the pattern at the front of the text. */
  function MatchAt(text: string): (m: Option<Match>)
    ensures m.Some? ==> 0 < m.value.length <= |text|
  {
    var m := MatchUnits(text);
    if m.Some? && m.value.units > 0 then m else None
  }

  /** The sequence with `n` units. */
  function EraseUp(n: nat): string {
    Repeat(UNIT, n) + TAIL
  }

  /** What replaces it. */
  function EraseDown(n: nat): string {
    ESC + Decimal(n) + "A" + Repeat(ERASE_LINE + CURSOR_DOWN_ONE, n) + ERASE_LINE
    + ESC + Decimal(n) + "A" + CURSOR_LEFT
  }

  function Rewritten(n: nat): string {
    if n <= 1 then EraseUp(n) else EraseDown(n)
  }

  /** Every match replaced, from left to right. */
  function Optimize(output: string): string
    decreases |output|
  {
    if output == "" then ""
    else
      match MatchAt(output)
      case Some(m) => Rewritten(m.units) + Optimize(output[m.length..])
      case None => [output[0]] + Optimize(output[1..])
  }

  /** What is matched is the erase sequence of as many units. */
  lemma {:induction false} MatchIsEraseUp(text: string)
    requires MatchUnits(text).Some?
    ensures var m := MatchUnits(text).value; text[..m.length] == EraseUp(m.units)
    decreases |text|
  {
    if StartsWith(text, UNIT) {
      var rest := text[|UNIT|..];
      MatchIsEraseUp(rest);
      var m := MatchUnits(rest).value;
      assert text[..|UNIT| + m.length] == text[..|UNIT|] + rest[..m.length];
      EraseUpMore(m.units);
    } else {
      assert EraseUp(0) == TAIL;
    }
  }

  lemma EraseUpMore(n: nat)
    ensures EraseUp(n + 1) == UNIT + EraseUp(n)
  {
  }

  /** Every erase sequence at the front of a text is matched, with all its units. */
  lemma {:induction false} EraseUpIsMatched(n: nat, rest: string)
    ensures MatchUnits(EraseUp(n) + rest) == Some(Match(n, |EraseUp(n)|))
  {
    var text := EraseUp(n) + rest;
    if n == 0 {
      TailIsNoUnit(rest);
    } else {
      EraseUpMore(n - 1);
      assert text == UNIT + (EraseUp(n - 1) + rest);
      EraseUpIsMatched(n - 1, rest);
      UnitFirst(EraseUp(n - 1) + rest);
    }
  }

  lemma TailIsNoUnit(rest: string)
    ensures MatchUnits(EraseUp(0) + rest) == Some(Match(0, |TAIL|)) && EraseUp(0) == TAIL
  {
    var text := EraseUp(0) + rest;
    assert EraseUp(0) == TAIL;
    assert text[..|TAIL|] == TAIL;
    assert UNIT[6] == '1' && text[6] == TAIL[6] == 'G';
    DiffersAt(text, UNIT, 6);
  }

  lemma DiffersAt(text: string, prefix: string, k: nat)
    requires k < |text| && k < |prefix| && text[k] != prefix[k]
    ensures !StartsWith(text, prefix)
  {
    assert |prefix| <= |text| ==> text[..|prefix|][k] == text[k];
  }

  lemma UnitFirst(rest: string)
    ensures MatchUnits(UNIT + rest) == match MatchUnits(rest)
      case Some(m) => Some(Match(m.units + 1, |UNIT| + m.length))
      case None => None
  {
    assert (UNIT + rest)[..|UNIT|] == UNIT && (UNIT + rest)[|UNIT|..] == rest;
  }

  /** The rewrite, said on the text: an erase sequence of one unit or more is replaced and the rest goes on; a text
      that begins with none keeps its first character. */
  lemma OptimizeReplaces(n: nat, rest: string)
    requires n > 0
    ensures Optimize(EraseUp(n) + rest) == Rewritten(n) + Optimize(rest)
  {
    EraseUpIsMatched(n, rest);
    assert (EraseUp(n) + rest)[|EraseUp(n)|..] == rest;
  }

  lemma OptimizeKeeps(text: string)
    requires text != "" && forall n: nat :: n > 0 ==> !StartsWith(text, EraseUp(n))
    ensures Optimize(text) == [text[0]] + Optimize(text[1..])
  {
    if MatchAt(text).Some? {
      var m := MatchAt(text).value;
      MatchIsEraseUp(text);
      assert |EraseUp(m.units)| == m.length;
      assert StartsWith(text, EraseUp(m.units));
    }
  }

  // ---------------------------------------------------------------- the replacement callback

  /** Occurrences from left to right, not overlapping. */
  function Occurrences(value: string, search: string): nat
    requires search != ""
    decreases |value|
  {
    if |value| < |search| then 0
    else if StartsWith(value, search) then 1 + Occurrences(value[|search|..], search)
    else Occurrences(value[1..], search)
  }

  /** The first occurrence at `from` or later. */
  function IndexOf(value: string, search: string, from: nat): (index: Option<nat>)
    requires search != "" && from <= |value|
    ensures index.Some? ==> from <= index.value <= |value| - |search|
    decreases |value| - from
  {
    if |value| - from < |search| then None
    else if StartsWith(value[from..], search) then Some(from)
    else IndexOf(value, search, from + 1)
  }

  lemma {:induction false} NextOccurrence(value: string, search: string, from: nat)
    requires search != "" && from <= |value|
    ensures Occurrences(value[from..], search) == match IndexOf(value, search, from)
      case None => 0
      case Some(index) => 1 + Occurrences(value[index + |search|..], search)
    decreases |value| - from
  {
    if |value| - from < |search| {
    } else if StartsWith(value[from..], search) {
      assert value[from..][|search|..] == value[from + |search|..];
    } else {
      NextOccurrence(value, search, from + 1);
      assert value[from..][1..] == value[from + 1..];
    }
  }

  /** The same count, taken from one found index to the next. */
  function OccurrencesFrom(value: string, search: string, from: nat): nat
    requires search != "" && from <= |value|
    decreases |value| - from
  {
    match IndexOf(value, search, from)
    case None => 0
    case Some(index) => 1 + OccurrencesFrom(value, search, index + |search|)
  }

  lemma {:induction false} OccurrencesFromIs(value: string, search: string, from: nat)
    requires search != "" && from <= |value|
    ensures OccurrencesFrom(value, search, from) == Occurrences(value[from..], search)
    decreases |value| - from
  {
    NextOccurrence(value, search, from);
    if IndexOf(value, search, from).Some? {
      OccurrencesFromIs(value, search, IndexOf(value, search, from).value + |search|);
    }
  }

  lemma FoundNext(value: string, search: string, from: nat)
    requires search != "" && from <= |value|
    ensures OccurrencesFrom(value, search, from) == match IndexOf(value, search, from)
      case None => 0
      case Some(index) => 1 + OccurrencesFrom(value, search, index + |search|)
  {
  }

  lemma CountedFromStart(value: string, search: string, count: nat)
    requires search != "" && count == OccurrencesFrom(value, search, 0)
    ensures count == Occurrences(value, search)
  {
    OccurrencesFromIs(value, search, 0);
    assert value[0..] == value;
  }

  method CountOccurrences(value: string, search: string) returns (count: nat)
    requires search != ""
    ensures count == Occurrences(value, search)
  {
    count := 0;
    var index := 0;
    ghost var total := OccurrencesFrom(value, search, 0);
    while true
      invariant index <= |value| && total == count + OccurrencesFrom(value, search, index)
      decreases |value| - index
    {
      FoundNext(value, search, index);
      var found := IndexOf(value, search, index);
      if found.None? {
        break;
      }
      count := count + 1;
      index := found.value + |search|;
    }
    CountedFromStart(value, search, count);
  }

  lemma SkipOne(c: char, rest: string)
    requires c != '\U{1B}'
    ensures Occurrences([c] + rest, ERASE_LINE) == Occurrences(rest, ERASE_LINE)
  {
    assert ([c] + rest)[1..] == rest;
    if |[c] + rest| >= |ERASE_LINE| { assert ([c] + rest)[..|ERASE_LINE|][0] == c; }
    else { assert |rest| < |ERASE_LINE|; }
  }

  lemma SkipCursor(a: char, b: char, rest: string)
    requires a != '2' && a != '\U{1B}' && b != '\U{1B}'
    ensures Occurrences(ESC + [a] + [b] + rest, ERASE_LINE) == Occurrences(rest, ERASE_LINE)
  {
    var text := ESC + [a] + [b] + rest;
    assert text[..4][2] == a;
    assert ERASE_LINE[2] == '2';
    assert text[1..] == ['['] + ([a] + ([b] + rest));
    SkipOne('[', [a] + ([b] + rest));
    SkipOne(a, [b] + rest);
    SkipOne(b, rest);
  }

  /** A match with `n` units erases n + 1 lines. */
  lemma {:induction false} EraseUpLines(n: nat)
    ensures Occurrences(EraseUp(n), ERASE_LINE) == n + 1
  {
    if n == 0 {
      assert EraseUp(0) == ERASE_LINE + CURSOR_LEFT;
    } else {
      EraseUpLines(n - 1);
      assert EraseUp(n) == ERASE_LINE + (ESC + ['1'] + ['A'] + EraseUp(n - 1));
      SkipCursor('1', 'A', EraseUp(n - 1));
    }
  }

  lemma {:induction false} RepeatFromBehind(s: string, n: nat)
    ensures Repeat(s, n + 1) == Repeat(s, n) + s
  {
    if n > 0 { RepeatFromBehind(s, n - 1); }
    assert s + "" == "" + s;
  }

  /** The replacement callback: counts the erased lines and builds the top-down pass. */
  method RewriteSequence(sequence: string, ghost n: nat) returns (result: string)
    requires sequence == EraseUp(n)
    ensures result == Rewritten(n)
  {
    var lineCount := CountOccurrences(sequence, ERASE_LINE);
    EraseUpLines(n);
    var cursorUpCount := lineCount - 1;
    if cursorUpCount <= 1 {
      return sequence;
    }
    var boundedErase := ESC + Decimal(cursorUpCount) + "A";
    ghost var jump := boundedErase;
    for line := 0 to lineCount
      invariant line < lineCount ==> boundedErase == jump + Repeat(ERASE_LINE + CURSOR_DOWN_ONE, line)
      invariant line == lineCount ==>
                  boundedErase == jump + Repeat(ERASE_LINE + CURSOR_DOWN_ONE, lineCount - 1) + ERASE_LINE
    {
      boundedErase := boundedErase + ERASE_LINE;
      if line < lineCount - 1 {
        boundedErase := boundedErase + CURSOR_DOWN_ONE;
        RepeatFromBehind(ERASE_LINE + CURSOR_DOWN_ONE, line);
      }
    }
    result := boundedErase + ESC + Decimal(cursorUpCount) + "A" + CURSOR_LEFT;
  }

  /** What stands in the result for the next piece of the output. */
  function Piece(output: string, index: nat): string
    requires index < |output|
  {
    match MatchAt(output[index..])
    case Some(m) => Rewritten(m.units)
    case None => [output[index]]
  }

  /** Where that piece ends. */
  function PieceEnd(output: string, index: nat): (end: nat)
    requires index < |output|
    ensures index < end <= |output|
  {
    match MatchAt(output[index..])
    case Some(m) => index + m.length
    case None => index + 1
  }

  /** The replacement of what follows a position. */
  function OptimizeFrom(output: string, index: nat): string
    requires index <= |output|
    decreases |output| - index
  {
    if index == |output| then "" else Piece(output, index) + OptimizeFrom(output, PieceEnd(output, index))
  }

  lemma {:induction false} OptimizeFromIs(output: string, index: nat)
    requires index <= |output|
    ensures OptimizeFrom(output, index) == Optimize(output[index..])
    decreases |output| - index
  {
    if index < |output| {
      var rest := output[index..];
      OptimizeFromIs(output, PieceEnd(output, index));
      assert rest[PieceEnd(output, index) - index..] == output[PieceEnd(output, index)..];
    }
  }

  lemma PieceMatched(output: string, index: nat, m: Match)
    requires index < |output| && MatchAt(output[index..]) == Some(m)
    ensures output[index..index + m.length] == EraseUp(m.units)
  {
    MatchIsEraseUp(output[index..]);
    assert output[index..][..m.length] == output[index..index + m.length];
  }

  method NextPiece(output: string, index: nat) returns (piece: string, next: nat)
    requires index < |output|
    ensures piece == Piece(output, index) && next == PieceEnd(output, index)
  {
    match MatchAt(output[index..])
    case None =>
      piece, next := [output[index]], index + 1;
    case Some(m) =>
      PieceMatched(output, index, m);
      next := index + m.length;
      piece := RewriteSequence(output[index..next], m.units);
  }

  /** Replaces every match, as a global `replace` does. */
  method OptimizeMultilineEraseLines(output: string) returns (result: string)
    ensures result == Optimize(output)
  {
    result := "";
    var index := 0;
    while index < |output|
      invariant index <= |output| && OptimizeFrom(output, 0) == result + OptimizeFrom(output, index)
      decreases |output| - index
    {
      var piece, next := NextPiece(output, index);
      result, index := result + piece, next;
    }
    OptimizeFromIs(output, 0);
    assert output[0..] == output;
  }
}
