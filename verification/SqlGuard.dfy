/**
 The comment stripper, the statement scanner and their composition in the read-only SQL guard.
 */
module SqlGuard {
  import opened Wrappers
  import opened Whitespace

  datatype Quote = Outside | Single | Double

  function Mark(q: Quote): char
    requires !q.Outside?
  {
    if q.Single? then '\'' else '"'
  }

  predicate StartsWith(text: string, a: char, b: char) {
    |text| >= 2 && text[0] == a && text[1] == b
  }

  predicate Opener(text: string) {
    StartsWith(text, '-', '-') || StartsWith(text, '/', '*')
  }

  // ---------------------------------------------------------------- stripping comments

  /** What follows a line comment, its line end included. */
  function AfterLine(text: string): (rest: string)
    ensures |rest| <= |text|
  {
    if text == "" || text[0] == '\n' || text[0] == '\r' then text else AfterLine(text[1..])
  }

  /** What follows a block comment; an unclosed one swallows the rest. */
  function AfterBlock(text: string): (rest: string)
    ensures |rest| <= |text|
  {
    if text == "" then ""
    else if StartsWith(text, '*', '/') then text[2..]
    else AfterBlock(text[1..])
  }

  function AfterComment(text: string): (rest: string)
    requires Opener(text)
    ensures |rest| <= |text| - 2
  {
    if text[0] == '-' then AfterLine(text[2..]) else AfterBlock(text[2..])
  }

  function Strip(q: Quote, text: string): string
    decreases |text|
  {
    if text == "" then ""
    else if q.Outside? then
      if text[0] == '\'' then ['\''] + Strip(Single, text[1..])
      else if text[0] == '"' then ['"'] + Strip(Double, text[1..])
      else if Opener(text) then [' '] + Strip(Outside, AfterComment(text))
      else [text[0]] + Strip(Outside, text[1..])
    else if StartsWith(text, Mark(q), Mark(q)) then [Mark(q), Mark(q)] + Strip(q, text[2..])
    else if text[0] == Mark(q) then [Mark(q)] + Strip(Outside, text[1..])
    else [text[0]] + Strip(q, text[1..])
  }

  method SkipLineComment(sql: string, start: nat) returns (index: nat)
    requires start < |sql|
    ensures index < |sql| && AfterLine(sql[start + 1..]) == sql[index + 1..]
  {
    index := start;
    while index + 1 < |sql| && sql[index + 1] != '\n' && sql[index + 1] != '\r'
      invariant start <= index < |sql|
      invariant AfterLine(sql[start + 1..]) == AfterLine(sql[index + 1..])
    {
      index := index + 1;
    }
  }

  method SkipBlockComment(sql: string, start: nat) returns (index: nat)
    requires start < |sql|
    ensures index < |sql| && AfterBlock(sql[start + 1..]) == sql[index + 1..]
  {
    index := start;
    while index + 1 < |sql|
      invariant start <= index < |sql|
      invariant AfterBlock(sql[start + 1..]) == AfterBlock(sql[index + 1..])
    {
      if sql[index + 1] == '*' && index + 2 < |sql| && sql[index + 2] == '/' {
        index := index + 2;
        return;
      }
      index := index + 1;
    }
  }

  predicate CommentStarts(q: Quote, text: string) {
    q.Outside? && Opener(text)
  }

  /** How many characters one step outside a comment takes: a doubled mark goes together. */
  function Width(q: Quote, text: string): (n: nat)
    requires text != ""
    ensures 1 <= n <= |text|
  {
    if !q.Outside? && StartsWith(text, Mark(q), Mark(q)) then 2 else 1
  }

  /** The quote state after that step. */
  function Turn(q: Quote, text: string): Quote
    requires text != ""
  {
    if q.Outside? then (if text[0] == '\'' then Single else if text[0] == '"' then Double else Outside)
    else if Width(q, text) == 1 && text[0] == Mark(q) then Outside else q
  }

  lemma StripKeeps(q: Quote, text: string)
    requires text != "" && !CommentStarts(q, text)
    ensures Strip(q, text) == text[..Width(q, text)] + Strip(Turn(q, text), text[Width(q, text)..])
  {
  }

  function QuoteOf(inSingleQuote: bool, inDoubleQuote: bool): Quote {
    if inSingleQuote then Single else if inDoubleQuote then Double else Outside
  }

  /** Skips a comment from its second character on; `index` is its last character. */
  method SkipComment(sql: string, start: nat) returns (index: nat)
    requires start + 1 < |sql| && Opener(sql[start..])
    ensures start < index < |sql| && AfterComment(sql[start..]) == sql[index + 1..]
  {
    assert sql[start..][2..] == sql[start + 1 + 1..];
    if sql[start] == '-' {
      index := SkipLineComment(sql, start + 1);
    } else {
      index := SkipBlockComment(sql, start + 1);
    }
  }

  /** The state of the stripping loop: what is written so far, and what is still to read. */
  ghost predicate Midway(sql: string, result: string, q: Quote, index: nat) {
    index <= |sql| && Strip(Outside, sql) == result + Strip(q, sql[index..])
  }

  lemma MidwayComment(sql: string, result: string, index: nat, last: nat)
    requires index <= last < |sql| && Midway(sql, result, Outside, index) && Opener(sql[index..])
    requires AfterComment(sql[index..]) == sql[last + 1..]
    ensures Midway(sql, result + [' '], Outside, last + 1)
  {
  }

  lemma MidwayKept(sql: string, result: string, q: Quote, index: nat)
    requires index < |sql| && Midway(sql, result, q, index) && !CommentStarts(q, sql[index..])
    ensures var n := Width(q, sql[index..]);
      index + n <= |sql| && Midway(sql, result + sql[index..index + n], Turn(q, sql[index..]), index + n)
  {
    var n := Width(q, sql[index..]);
    StripKeeps(q, sql[index..]);
    assert sql[index..][..n] == sql[index..index + n] && sql[index..][n..] == sql[index + n..];
  }

  /** One pass through the stripping loop inside a quoted region: `last` is the character it ends on. */
  method StripQuoted(sql: string, result: string, mark: char, index: nat)
    returns (written: string, closed: bool, last: nat)
    requires index < |sql| && (mark == '\'' || mark == '"')
    requires Midway(sql, result, QuoteOf(mark == '\'', mark == '"'), index)
    ensures index <= last < |sql|
    ensures Midway(sql, written, QuoteOf(!closed && mark == '\'', !closed && mark == '"'), last + 1)
  {
    MidwayKept(sql, result, QuoteOf(mark == '\'', mark == '"'), index);
    var c := sql[index];
    written, closed, last := result + [c], false, index;
    if c == mark && index + 1 < |sql| && sql[index + 1] == mark {
      written, last := written + [mark], index + 1;
      assert sql[index..index + 2] == [c] + [mark];
    } else {
      assert sql[index..index + 1] == [c];
      closed := c == mark;
    }
  }

  /** One pass through the stripping loop outside quotes. */
  method StripUnquoted(sql: string, result: string, index: nat) returns (written: string, last: nat)
    requires index < |sql| && Midway(sql, result, Outside, index)
    ensures index <= last < |sql|
    ensures Midway(sql, written, QuoteOf(sql[index] == '\'', sql[index] == '"'), last + 1)
  {
    var c := sql[index];
    var next := if index + 1 < |sql| then Some(sql[index + 1]) else None;
    assert Opener(sql[index..]) <==> (c == '-' && next == Some('-')) || (c == '/' && next == Some('*'));
    if (c == '-' && next == Some('-')) || (c == '/' && next == Some('*')) {
      last := SkipComment(sql, index);
      MidwayComment(sql, result, index, last);
      written := result + [' '];
    } else {
      MidwayKept(sql, result, Outside, index);
      assert sql[index..index + 1] == [c];
      written, last := result + [c], index;
    }
  }

  /** The stripper as the index loop it is. */
  method StripSqlComments(sql: string) returns (result: string)
    ensures result == Strip(Outside, sql)
  {
    result := "";
    var inSingleQuote, inDoubleQuote := false, false;
    var index := 0;
    while index < |sql|
      invariant 0 <= index <= |sql|
      invariant !(inSingleQuote && inDoubleQuote)
      invariant Midway(sql, result, QuoteOf(inSingleQuote, inDoubleQuote), index)
    {
      var c, last := sql[index], index;
      if inSingleQuote || inDoubleQuote {
        var closed;
        result, closed, last := StripQuoted(sql, result, if inSingleQuote then '\'' else '"', index);
        inSingleQuote, inDoubleQuote := inSingleQuote && !closed, inDoubleQuote && !closed;
      } else {
        result, last := StripUnquoted(sql, result, index);
        inSingleQuote, inDoubleQuote := c == '\'', c == '"';
      }
      index := last + 1;
    }
  }

  // ---------------------------------------------------------------- the text as tokens

  /** A second reading of SQL text: plain characters, quoted characters (marks included) and whole
      comments. */
  datatype Token = Plain(c: char) | Quoted(c: char) | Comment(text: string)

  function Kept(q: Quote, text: string): (tokens: seq<Token>)
    requires text != ""
    ensures |tokens| == Width(q, text)
  {
    if Width(q, text) == 2 then [Quoted(text[0]), Quoted(text[1])]
    else if q.Outside? && text[0] != '\'' && text[0] != '"' then [Plain(text[0])]
    else [Quoted(text[0])]
  }

  function Lex(q: Quote, text: string): seq<Token>
    decreases |text|
  {
    if text == "" then []
    else if CommentStarts(q, text) then
      [Comment(text[..|text| - |AfterComment(text)|])] + Lex(Outside, AfterComment(text))
    else Kept(q, text) + Lex(Turn(q, text), text[Width(q, text)..])
  }

  function TextOf(tokens: seq<Token>): string {
    if tokens == [] then ""
    else (match tokens[0]
          case Plain(c) => [c]
          case Quoted(c) => [c]
          case Comment(text) => text) + TextOf(tokens[1..])
  }

  /** The same text with every comment turned into one blank. */
  function Blanked(tokens: seq<Token>): seq<Token> {
    if tokens == [] then []
    else [if tokens[0].Comment? then Plain(' ') else tokens[0]] + Blanked(tokens[1..])
  }

  lemma ConsText(token: Token, more: seq<Token>)
    ensures TextOf([token] + more) == TextOf([token]) + TextOf(more)
    ensures Blanked([token] + more) == Blanked([token]) + Blanked(more)
  {
    assert ([token] + more)[1..] == more && [token][1..] == [];
  }

  lemma KeptText(q: Quote, text: string, more: seq<Token>)
    requires text != ""
    ensures TextOf(Kept(q, text) + more) == text[..Width(q, text)] + TextOf(more)
    ensures Blanked(Kept(q, text) + more) == Kept(q, text) + Blanked(more)
  {
    var kept := Kept(q, text);
    if Width(q, text) == 2 {
      ConsText(kept[0], [kept[1]] + more);
      ConsText(kept[1], more);
      assert kept + more == [kept[0]] + ([kept[1]] + more);
      assert TextOf([kept[0]]) == [text[0]] && TextOf([kept[1]]) == [text[1]];
    } else {
      ConsText(kept[0], more);
      assert kept == [kept[0]];
      assert TextOf([kept[0]]) == [text[0]];
    }
  }

  lemma {:induction false} AfterLineIsSuffix(text: string)
    ensures AfterLine(text) == text[|text| - |AfterLine(text)|..]
  {
    if text != "" && text[0] != '\n' && text[0] != '\r' {
      AfterLineIsSuffix(text[1..]);
    }
  }

  lemma {:induction false} AfterBlockIsSuffix(text: string)
    ensures AfterBlock(text) == text[|text| - |AfterBlock(text)|..]
  {
    if text != "" && !StartsWith(text, '*', '/') {
      AfterBlockIsSuffix(text[1..]);
    }
  }

  lemma CommentSplits(text: string)
    requires Opener(text)
    ensures text == text[..|text| - |AfterComment(text)|] + AfterComment(text)
  {
    AfterLineIsSuffix(text[2..]);
    AfterBlockIsSuffix(text[2..]);
  }

  /** Reading loses nothing. */
  lemma {:induction false} LexIsLossless(q: Quote, text: string)
    ensures TextOf(Lex(q, text)) == text
    decreases |text|
  {
    if text == "" {
    } else if CommentStarts(q, text) {
      var rest := AfterComment(text);
      LexIsLossless(Outside, rest);
      assert Lex(q, text)[1..] == Lex(Outside, rest);
      CommentSplits(text);
    } else {
      var rest := text[Width(q, text)..];
      LexIsLossless(Turn(q, text), rest);
      KeptText(q, text, Lex(Turn(q, text), rest));
    }
  }

  /** A kept step is taken the same way when the text behind it has been stripped. */
  lemma KeptStepSurvives(q: Quote, text: string, out: string)
    requires text != "" && !CommentStarts(q, text)
    requires out == text[..Width(q, text)] + Strip(Turn(q, text), text[Width(q, text)..])
    ensures out != "" && !CommentStarts(q, out) && Width(q, out) == Width(q, text)
    ensures Turn(q, out) == Turn(q, text) && Kept(q, out) == Kept(q, text)
    ensures out[Width(q, out)..] == Strip(Turn(q, text), text[Width(q, text)..])
  {
  }

  /** Read back, stripped text has the tokens of the original with each comment blanked: quoted regions
      are verbatim, nothing new opens, and no comment is left. */
  lemma {:induction false} StripThenLex(q: Quote, text: string)
    ensures Lex(q, Strip(q, text)) == Blanked(Lex(q, text))
    decreases |text|
  {
    if text == "" {
    } else if CommentStarts(q, text) {
      var rest := AfterComment(text);
      StripThenLex(Outside, rest);
      assert Strip(q, text)[1..] == Strip(Outside, rest);
      assert Lex(q, text)[1..] == Lex(Outside, rest);
    } else {
      var rest := text[Width(q, text)..];
      StripThenLex(Turn(q, text), rest);
      StripKeeps(q, text);
      KeptStepSurvives(q, text, Strip(q, text));
      KeptText(q, text, Lex(Turn(q, text), rest));
    }
  }

  ghost predicate NoComments(tokens: seq<Token>) {
    forall i :: 0 <= i < |tokens| ==> !tokens[i].Comment?
  }

  lemma {:induction false} BlankedHasNoComments(tokens: seq<Token>)
    ensures NoComments(Blanked(tokens)) && |Blanked(tokens)| == |tokens|
    ensures NoComments(tokens) ==> Blanked(tokens) == tokens
  {
    if tokens != [] {
      BlankedHasNoComments(tokens[1..]);
    }
  }

  /** Stripping is idempotent, and what it leaves has no comment opener outside quotes. */
  lemma StripTwice(sql: string)
    ensures Strip(Outside, Strip(Outside, sql)) == Strip(Outside, sql)
    ensures NoComments(Lex(Outside, Strip(Outside, sql)))
  {
    StripThenLex(Outside, sql);
    BlankedHasNoComments(Lex(Outside, sql));
    CommentFreeIffKept(Strip(Outside, sql));
  }

  /** Exactly the comment-free texts come back unchanged. */
  lemma CommentFreeIffKept(sql: string)
    ensures Strip(Outside, sql) == sql <==> NoComments(Lex(Outside, sql))
  {
    StripThenLex(Outside, sql);
    BlankedHasNoComments(Lex(Outside, sql));
    LexIsLossless(Outside, sql);
    LexIsLossless(Outside, Strip(Outside, sql));
  }

  // ---------------------------------------------------------------- what the tokens mean

  predicate IsLineEnd(c: char) {
    c == '\n' || c == '\r'
  }

  /** No block comment is closed within the first `n` characters behind the opener. */
  ghost predicate StaysOpen(text: string, n: nat) {
    forall k :: 2 <= k && k + 2 <= n <= |text| ==> !(text[k] == '*' && text[k + 1] == '/')
  }

  /** The first `n` characters are a comment: two hyphens and all up to the end of the line, or what stands between
      slash-star and the first star-slash behind it, or else the end of the text. */
  ghost predicate IsComment(text: string, n: nat) {
    && 2 <= n <= |text|
    && if text[0] == '-' then
         && text[1] == '-' && (forall k :: 2 <= k < n ==> !IsLineEnd(text[k]))
         && (n < |text| ==> IsLineEnd(text[n]))
       else
         && text[0] == '/' && text[1] == '*'
         && ((n == |text| && StaysOpen(text, n))
             || (n >= 4 && text[n - 2] == '*' && text[n - 1] == '/' && StaysOpen(text, n - 1)))
  }

  predicate IsMark(c: char) {
    c == '\'' || c == '"'
  }

  /** Marks open and close quotes; a doubled one closes and opens. */
  function Flip(q: Quote, c: char): Quote {
    if c == '\'' && !q.Double? then (if q.Single? then Outside else Single)
    else if c == '"' && !q.Single? then (if q.Double? then Outside else Double)
    else q
  }

  /** The tokens are what the text says, character by character: outside quotes a comment where two hyphens or
      slash-star stand, a mark opens a quote, anything else is plain; within quotes everything is quoted. */
  ghost predicate Reads(q: Quote, tokens: seq<Token>, text: string)
    decreases |text|
  {
    if text == "" then tokens == []
    else
      && tokens != []
      && match tokens[0]
         case Comment(c) =>
           q == Outside && IsComment(text, |c|) && c == text[..|c|] && Reads(q, tokens[1..], text[|c|..])
         case Plain(c) =>
           && q == Outside && c == text[0] && !IsMark(c)
           && (|text| > 1 ==> !(c == '-' && text[1] == '-') && !(c == '/' && text[1] == '*'))
           && Reads(q, tokens[1..], text[1..])
         case Quoted(c) =>
           && c == text[0] && (q == Outside ==> IsMark(c))
           && Reads(Flip(q, c), tokens[1..], text[1..])
  }

  lemma {:induction false} LineEnds(text: string)
    ensures var n := |text| - |AfterLine(text)|;
      (forall k :: 0 <= k < n ==> !IsLineEnd(text[k])) && (n < |text| ==> IsLineEnd(text[n]))
  {
    if text != "" && !IsLineEnd(text[0]) {
      LineEnds(text[1..]);
      assert forall k :: 1 <= k < |text| ==> text[k] == text[1..][k - 1];
    }
  }

  lemma {:induction false} BlockEnds(text: string)
    ensures var n := |text| - |AfterBlock(text)|;
      || (n == |text| && forall k :: 0 <= k && k + 2 <= n ==> !(text[k] == '*' && text[k + 1] == '/'))
      || (n >= 2 && text[n - 2] == '*' && text[n - 1] == '/'
          && forall k :: 0 <= k && k + 2 <= n - 1 ==> !(text[k] == '*' && text[k + 1] == '/'))
  {
    if text != "" && !StartsWith(text, '*', '/') {
      BlockEnds(text[1..]);
      assert forall k :: 1 <= k < |text| ==> text[k] == text[1..][k - 1];
    }
  }

  lemma CommentIs(text: string)
    requires Opener(text)
    ensures IsComment(text, |text| - |AfterComment(text)|)
  {
    var body := text[2..];
    assert forall k :: 2 <= k < |text| ==> text[k] == body[k - 2];
    if text[0] == '-' { LineEnds(body); } else { BlockEnds(body); }
  }

  /** Whatever the text, its tokens are what it says. */
  lemma {:induction false} LexReads(q: Quote, text: string)
    ensures Reads(q, Lex(q, text), text)
    decreases |text|
  {
    if text == "" {
    } else if CommentStarts(q, text) {
      var n := |text| - |AfterComment(text)|;
      CommentIs(text);
      CommentSplits(text);
      LexReads(Outside, AfterComment(text));
      assert text[n..] == AfterComment(text);
      assert Lex(q, text)[1..] == Lex(Outside, AfterComment(text));
    } else {
      var n, tokens := Width(q, text), Lex(q, text);
      var rest := Lex(Turn(q, text), text[n..]);
      LexReads(Turn(q, text), text[n..]);
      if n == 2 {
        assert tokens[1..] == [Quoted(text[1])] + rest && tokens[1..][1..] == rest;
        assert text[1..][1..] == text[2..];
        assert Reads(Flip(q, text[0]), tokens[1..], text[1..]);
      } else {
        assert tokens[1..] == rest;
      }
    }
  }

  // ---------------------------------------------------------------- the statement scanner

  /** The scanner's own reading: it knows quotes but no comments. */
  function ScanTokens(q: Quote, text: string): seq<Token>
    decreases |text|
  {
    if text == "" then []
    else if text[0] == '\'' && !q.Double? then
      if q.Single? && StartsWith(text, '\'', '\'') then [Quoted('\''), Quoted('\'')] + ScanTokens(q, text[2..])
      else [Quoted('\'')] + ScanTokens(if q.Single? then Outside else Single, text[1..])
    else if text[0] == '"' && !q.Single? then
      if q.Double? && StartsWith(text, '"', '"') then [Quoted('"'), Quoted('"')] + ScanTokens(q, text[2..])
      else [Quoted('"')] + ScanTokens(if q.Double? then Outside else Double, text[1..])
    else [if q.Outside? then Plain(text[0]) else Quoted(text[0])] + ScanTokens(q, text[1..])
  }

  /** What comment-free text is made of: a kept step and comment-free text behind it. */
  predicate CommentFree(q: Quote, text: string)
    decreases |text|
  {
    text == "" || (!CommentStarts(q, text) && CommentFree(Turn(q, text), text[Width(q, text)..]))
  }

  lemma {:induction false} CommentFreeIsNoComments(q: Quote, text: string)
    ensures CommentFree(q, text) <==> NoComments(Lex(q, text))
    decreases |text|
  {
    var tokens := Lex(q, text);
    if text == "" {
    } else if CommentStarts(q, text) {
      assert tokens[0].Comment?;
    } else {
      var rest := Lex(Turn(q, text), text[Width(q, text)..]);
      CommentFreeIsNoComments(Turn(q, text), text[Width(q, text)..]);
      assert tokens == Kept(q, text) + rest;
      if NoComments(tokens) {
        forall i | 0 <= i < |rest| ensures !rest[i].Comment? { assert rest[i] == tokens[Width(q, text) + i]; }
      }
    }
  }

  /** On comment-free text the stripper and the scanner agree, position by position, on what is quoted. */
  lemma {:induction false} ScannersAgree(q: Quote, text: string)
    requires CommentFree(q, text)
    ensures ScanTokens(q, text) == Lex(q, text) && |Lex(q, text)| == |text|
    decreases |text|
  {
    if text != "" {
      ScannersAgree(Turn(q, text), text[Width(q, text)..]);
    }
  }

  /** A semicolon outside quotes with something behind it. */
  ghost predicate Splits(tokens: seq<Token>, text: string, i: nat) {
    i < |tokens| && i < |text| && tokens[i] == Plain(';') && !Blank(text[i + 1..])
  }

  method HasMultipleStatements(sql: string) returns (multiple: bool)
    ensures multiple <==> exists i: nat :: Splits(ScanTokens(Outside, sql), sql, i)
  {
    var inSingleQuote, inDoubleQuote := false, false;
    var index := 0;
    ghost var tokens := ScanTokens(Outside, sql);
    ScanLength(Outside, sql);
    while index < |sql|
      invariant 0 <= index <= |sql|
      invariant !(inSingleQuote && inDoubleQuote)
      invariant tokens[index..] == ScanTokens(QuoteOf(inSingleQuote, inDoubleQuote), sql[index..])
      invariant forall i: nat :: i < index ==> !Splits(tokens, sql, i)
    {
      var c := sql[index];
      var next := if index + 1 < |sql| then Some(sql[index + 1]) else None;
      ghost var here := ScanTokens(QuoteOf(inSingleQuote, inDoubleQuote), sql[index..]);
      assert tokens[index] == here[0];
      if c == '\'' && !inDoubleQuote {
        if inSingleQuote && next == Some('\'') {
          assert tokens[index + 1] == here[1] && tokens[index + 2..] == here[2..];
          index := index + 2;
        } else {
          assert tokens[index + 1..] == here[1..];
          inSingleQuote := !inSingleQuote;
          index := index + 1;
        }
      } else if c == '"' && !inSingleQuote {
        if inDoubleQuote && next == Some('"') {
          assert tokens[index + 1] == here[1] && tokens[index + 2..] == here[2..];
          index := index + 2;
        } else {
          assert tokens[index + 1..] == here[1..];
          inDoubleQuote := !inDoubleQuote;
          index := index + 1;
        }
      } else {
        assert tokens[index + 1..] == here[1..];
        if c == ';' && !inSingleQuote && !inDoubleQuote {
          TrimEmptyIffBlank(sql[index + 1..]);
          if |Trim(sql[index + 1..])| > 0 {
            assert Splits(tokens, sql, index);
            return true;
          }
        }
        index := index + 1;
      }
    }
    multiple := false;
  }

  lemma {:induction false} ScanLength(q: Quote, text: string)
    ensures |ScanTokens(q, text)| == |text|
    decreases |text|
  {
    if text == "" {
    } else if text[0] == '\'' && !q.Double? {
      if q.Single? && StartsWith(text, '\'', '\'') { ScanLength(q, text[2..]); }
      else { ScanLength(if q.Single? then Outside else Single, text[1..]); }
    } else if text[0] == '"' && !q.Single? {
      if q.Double? && StartsWith(text, '"', '"') { ScanLength(q, text[2..]); }
      else { ScanLength(if q.Double? then Outside else Double, text[1..]); }
    } else {
      ScanLength(q, text[1..]);
    }
  }
}
