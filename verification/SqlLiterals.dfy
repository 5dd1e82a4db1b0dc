/**
 What normalising does to quoted text: it is blind to quotes, so literals survive exactly when their blanks
 are single and nothing is cut off inside a quote that is never closed.
 */
module SqlLiterals {
  import opened Whitespace
  import opened SqlGuard
  import opened SqlNormalize

  /** The quoted characters of a text, marks included. */
  function QuotedOf(tokens: seq<Token>): string {
    if tokens == [] then ""
    else if tokens[0].Quoted? then [tokens[0].c] + QuotedOf(tokens[1..])
    else QuotedOf(tokens[1..])
  }

  // ---------------------------------------------------------------- the scanner, character by character

  function QuoteAfter(q: Quote, text: string): Quote
    decreases |text|
  {
    if text == "" then q else QuoteAfter(Flip(q, text[0]), text[1..])
  }

  /** The quoted characters, read one by one. */
  function Literals(q: Quote, text: string): string
    decreases |text|
  {
    if text == "" then ""
    else
      var rest := Literals(Flip(q, text[0]), text[1..]);
      if !q.Outside? || IsMark(text[0]) then [text[0]] + rest else rest
  }

  lemma ScanOne(q: Quote, text: string)
    requires text != ""
    ensures ScanTokens(q, text) == [if !q.Outside? || IsMark(text[0]) then Quoted(text[0]) else Plain(text[0])]
                                   + ScanTokens(Flip(q, text[0]), text[1..])
  {
    if |text| > 1 { assert text[1..][1..] == text[2..]; }
  }

  lemma {:induction false} LiteralsAreQuoted(q: Quote, text: string)
    ensures Literals(q, text) == QuotedOf(ScanTokens(q, text))
    decreases |text|
  {
    if text != "" {
      ScanOne(q, text);
      var tokens := ScanTokens(q, text);
      assert tokens[1..] == ScanTokens(Flip(q, text[0]), text[1..]);
      LiteralsAreQuoted(Flip(q, text[0]), text[1..]);
    }
  }

  lemma {:induction false} LiteralsSplit(q: Quote, a: string, b: string)
    ensures Literals(q, a + b) == Literals(q, a) + Literals(QuoteAfter(q, a), b)
    ensures QuoteAfter(q, a + b) == QuoteAfter(QuoteAfter(q, a), b)
    decreases |a|
  {
    if a == "" {
      assert a + b == b;
    } else {
      assert (a + b)[1..] == a[1..] + b;
      LiteralsSplit(Flip(q, a[0]), a[1..], b);
    }
  }

  /** A stretch without marks is all quoted or not at all. */
  lemma {:induction false} Unmarked(q: Quote, text: string)
    requires forall i :: 0 <= i < |text| ==> !IsMark(text[i])
    ensures QuoteAfter(q, text) == q && Literals(q, text) == if q.Outside? then "" else text
  {
    if text != "" { Unmarked(q, text[1..]); }
  }

  // ---------------------------------------------------------------- collapsing

  /** Every quoted blank is a space, and no blank follows it. */
  predicate Tidy(q: Quote, text: string)
    decreases |text|
  {
    text == "" ||
    ((!q.Outside? && IsSpace(text[0]) ==> text[0] == ' ' && (|text| == 1 || !IsSpace(text[1])))
     && Tidy(Flip(q, text[0]), text[1..]))
  }

  lemma {:induction false} TidySplit(a: string, b: string, q: Quote)
    requires QuoteAfter(q, a).Outside?
    ensures Tidy(q, a + b) <==> Tidy(q, a) && Tidy(Outside, b)
    decreases |a|
  {
    if a == "" {
      assert a + b == b;
    } else {
      assert (a + b)[1..] == a[1..] + b;
      TidySplit(a[1..], b, Flip(q, a[0]));
    }
  }

  lemma {:induction false} OutsideIsTidy(text: string)
    requires forall i :: 0 <= i < |text| ==> !IsMark(text[i])
    ensures Tidy(Outside, text)
  {
    if text != "" { OutsideIsTidy(text[1..]); }
  }

  /** A run of blanks is quoted as a whole or not at all ... */
  lemma RunIsQuoted(q: Quote, blanks: string, rest: string)
    requires Blank(blanks)
    ensures Literals(q, blanks + rest) == if q.Outside? then Literals(q, rest) else blanks + Literals(q, rest)
    ensures QuoteAfter(q, blanks + rest) == QuoteAfter(q, rest)
  {
    LiteralsSplit(q, blanks, rest);
    Unmarked(q, blanks);
    assert "" + Literals(q, rest) == Literals(q, rest);
  }

  /** ... and is tidy outside quotes, or as a single space. */
  lemma RunIsTidy(q: Quote, blanks: string, rest: string)
    requires Blank(blanks) && blanks != "" && (rest == "" || !IsSpace(rest[0]))
    ensures Tidy(q, blanks + rest) <==> Tidy(q, rest) && (q.Outside? || blanks == " ")
  {
    var text := blanks + rest;
    if q.Outside? {
      Unmarked(q, blanks);
      TidySplit(blanks, rest, q);
      OutsideIsTidy(blanks);
    } else {
      assert text[0] == blanks[0] && Flip(q, text[0]) == q;
      if |blanks| == 1 {
        assert text[1..] == rest && blanks == [blanks[0]];
      } else {
        assert text[1] == blanks[1];
      }
    }
  }

  /** Collapsing never adds to the quoted text, leaves its length alone only if every quoted run of blanks
      is one character, and its characters only if that is a space. */
  lemma {:induction false} CollapseLiterals(q: Quote, text: string)
    ensures |Literals(q, Collapse(text))| <= |Literals(q, text)|
    ensures Literals(q, Collapse(text)) == Literals(q, text) <==> Tidy(q, text)
    ensures QuoteAfter(q, Collapse(text)) == QuoteAfter(q, text)
    decreases |text|
  {
    if text == "" {
    } else if IsSpace(text[0]) {
      var rest := TrimStart(text[1..]);
      CollapseLiterals(q, rest);
      var blanks := BlanksInFront(text);
      RunIsQuoted(q, blanks, rest);
      RunIsTidy(q, blanks, rest);
      assert Collapse(text)[1..] == Collapse(rest);
      if !q.Outside? { SpaceAgainstRun(blanks, Literals(q, Collapse(rest)), Literals(q, rest)); }
    } else {
      CollapseLiterals(Flip(q, text[0]), text[1..]);
      assert Collapse(text)[1..] == Collapse(text[1..]);
      SameHead(text[0], Literals(Flip(q, text[0]), Collapse(text[1..])), Literals(Flip(q, text[0]), text[1..]));
    }
  }

  lemma BlanksInFront(text: string) returns (blanks: string)
    requires text != "" && IsSpace(text[0])
    ensures Blank(blanks) && blanks != "" && text == blanks + TrimStart(text[1..])
  {
    TrimStartCuts(text[1..]);
    blanks := [text[0]] + text[1..][..|text| - 1 - |TrimStart(text[1..])|];
  }

  lemma SpaceAgainstRun(run: string, a: string, b: string)
    requires run != "" && |a| <= |b|
    ensures [' '] + a == run + b <==> run == " " && a == b
  {
    if [' '] + a == run + b {
      assert |run| == 1 && |a| == |b|;
      assert ([' '] + a)[0] == (run + b)[0];
      assert ([' '] + a)[1..] == a && (run + b)[1..] == b;
    }
  }

  lemma SameHead(c: char, a: string, b: string)
    ensures [c] + a == [c] + b <==> a == b
  {
    assert ([c] + a)[1..] == a && ([c] + b)[1..] == b;
  }

  // ---------------------------------------------------------------- normalising

  /** What normalising cuts off behind the text: semicolons and blanks. */
  function Cut(text: string): string {
    var kept, n := TrimStart(text), |DropTail(Trim(text))|;
    if n <= |kept| then kept[n..] else ""
  }

  predicate BlankOrSemicolon(text: string) {
    forall i :: 0 <= i < |text| ==> IsSpace(text[i]) || text[i] == ';'
  }

  lemma TailDropped(text: string)
    ensures var n := |DropTail(text)|; DropTail(text) == text[..n] && BlankOrSemicolon(text[n..])
  {
    var n, m := |DropTail(text)|, |TrimEnd(text)|;
    DropTailCuts(text);
    if n < |text| {
      TrimEndCuts(text);
      assert BlankOrSemicolon(text[n..m]);
      assert text[n..] == text[n..m] + text[m..];
    }
  }

  lemma JoinParts(text: string, kept: string, trimmed: string, core: string)
    requires |kept| <= |text| && kept == text[|text| - |kept|..]
    requires |trimmed| <= |kept| && trimmed == kept[..|trimmed|] && Blank(kept[|trimmed|..])
    requires |core| <= |trimmed| && core == trimmed[..|core|] && BlankOrSemicolon(trimmed[|core|..])
    ensures text == text[..|text| - |kept|] + (core + kept[|core|..]) && BlankOrSemicolon(kept[|core|..])
  {
    assert kept == trimmed + kept[|trimmed|..] && trimmed == core + trimmed[|core|..];
    assert kept[|core|..] == trimmed[|core|..] + kept[|trimmed|..];
  }

  /** A text is blanks, what is kept, and what is cut off. */
  lemma TextParts(text: string)
    ensures var kept, core := TrimStart(text), DropTail(Trim(text));
      && text == text[..|text| - |kept|] + (core + Cut(text))
      && Blank(text[..|text| - |kept|]) && BlankOrSemicolon(Cut(text))
  {
    TrimStartCuts(text);
    TrimEndCuts(TrimStart(text));
    TailDropped(Trim(text));
    JoinParts(text, TrimStart(text), Trim(text), DropTail(Trim(text)));
  }

  lemma PartsSurviveIff(lead: string, core: string, cut: string)
    requires Blank(lead) && BlankOrSemicolon(cut)
    ensures var text := lead + (core + cut);
      Literals(Outside, Collapse(core)) == Literals(Outside, text) <==>
      Tidy(Outside, text) && (cut == "" || QuoteAfter(Outside, text).Outside?)
  {
    LiteralsSplit(Outside, lead, core + cut);
    LiteralsSplit(Outside, core, cut);
    Unmarked(Outside, lead);
    Unmarked(QuoteAfter(Outside, core), cut);
    CollapseLiterals(Outside, core);
    TidySplit(lead, core + cut, Outside);
    OutsideIsTidy(lead);
    assert "" + Literals(Outside, core + cut) == Literals(Outside, core + cut);
    if QuoteAfter(Outside, core).Outside? {
      TidySplit(core, cut, Outside);
      OutsideIsTidy(cut);
      assert Literals(Outside, core) + "" == Literals(Outside, core);
    } else if cut == "" {
      assert core + cut == core;
    }
  }

  /** Normalising keeps the quoted text exactly when every quoted blank is a single space and either nothing
      is cut off behind or every quote is closed. */
  lemma LiteralsSurviveIff(text: string)
    ensures QuotedOf(ScanTokens(Outside, Normalize(text))) == QuotedOf(ScanTokens(Outside, text)) <==>
      Tidy(Outside, text) && (Cut(text) == "" || QuoteAfter(Outside, text).Outside?)
  {
    TextParts(text);
    LiteralsAreQuoted(Outside, Normalize(text));
    LiteralsAreQuoted(Outside, text);
    PartsSurviveIff(text[..|text| - |TrimStart(text)|], DropTail(Trim(text)), Cut(text));
  }

  ghost predicate TidyTokens(tokens: seq<Token>, text: string)
    requires |tokens| == |text|
  {
    forall i :: 0 <= i < |text| && tokens[i].Quoted? && IsSpace(text[i]) ==>
      text[i] == ' ' && (i + 1 == |text| || !IsSpace(text[i + 1]))
  }

  lemma TidyTokensFirst(tokens: seq<Token>, text: string)
    requires |tokens| == |text| && text != ""
    ensures TidyTokens(tokens, text) <==>
        (tokens[0].Quoted? && IsSpace(text[0]) ==> text[0] == ' ' && (|text| == 1 || !IsSpace(text[1])))
        && TidyTokens(tokens[1..], text[1..])
  {
    var more, rest := tokens[1..], text[1..];
    assert forall i :: 0 < i < |text| ==> tokens[i] == more[i - 1] && text[i] == rest[i - 1];
    assert forall i :: 0 <= i < |rest| ==> more[i] == tokens[i + 1] && rest[i] == text[i + 1];
  }

  /** `Tidy` spelled out on the scanner's tokens. */
  lemma {:induction false} TidyMeans(q: Quote, text: string)
    ensures |ScanTokens(q, text)| == |text|
    ensures Tidy(q, text) <==> forall i :: 0 <= i < |text| && ScanTokens(q, text)[i].Quoted? && IsSpace(text[i]) ==>
              text[i] == ' ' && (i + 1 == |text| || !IsSpace(text[i + 1]))
    decreases |text|
  {
    ScanLength(q, text);
    if text != "" {
      ScanOne(q, text);
      TidyMeans(Flip(q, text[0]), text[1..]);
      var tokens, rest := ScanTokens(q, text), ScanTokens(Flip(q, text[0]), text[1..]);
      assert tokens[1..] == rest;
      assert TidyTokens(rest, text[1..]) <==> Tidy(Flip(q, text[0]), text[1..]);
      TidyTokensFirst(tokens, text);
      assert tokens[0].Quoted? <==> !q.Outside? || IsMark(text[0]);
    }
    assert TidyTokens(ScanTokens(q, text), text) <==> Tidy(q, text);
  }

  // ---------------------------------------------------------------- the guard

  lemma {:induction false} BlankedKeepsQuoted(tokens: seq<Token>)
    ensures QuotedOf(Blanked(tokens)) == QuotedOf(tokens)
  {
    if tokens != [] {
      BlankedKeepsQuoted(tokens[1..]);
      assert Blanked(tokens)[1..] == Blanked(tokens[1..]);
    }
  }

  /** The text the guard hands on has the quoted text of the submitted one exactly when that text, its
      comments stripped, keeps it under normalising. */
  lemma GuardKeepsLiteralsIff(sql: string)
    ensures var stripped := Strip(Outside, sql);
      QuotedOf(Lex(Outside, Normalize(stripped))) == QuotedOf(Lex(Outside, sql)) <==>
      Tidy(Outside, stripped) && (Cut(stripped) == "" || QuoteAfter(Outside, stripped).Outside?)
  {
    var stripped := Strip(Outside, sql);
    StripThenLex(Outside, sql);
    BlankedKeepsQuoted(Lex(Outside, sql));
    StripTwice(sql);
    CommentFreeIsNoComments(Outside, stripped);
    ScannersAgree(Outside, stripped);
    NormalizedIsCommentFree(sql);
    ScannersAgree(Outside, Normalize(stripped));
    LiteralsSurviveIff(stripped);
  }

  /** A semicolon that an unclosed quote holds is dropped. */
  lemma UnclosedLiteralIsCut()
    ensures Normalize("';") == "'" && QuotedOf(ScanTokens(Outside, "';")) == "';"
  {
    assert TrimEnd("';") == "';" && DropSemicolons("';") == "'" by { assert "';"[..1] == "'"; }
    assert Collapse("'") == "'" by { assert "'"[1..] == ""; }
    assert "';"[1..] == ";" && ";"[1..] == "";
    LiteralsAreQuoted(Outside, "';");
    assert Literals(Single, ";") == ";";
  }
}
