/**
 Normalisation of SQL text and the composition in the read-only guard. Normalising works on the whole
 text, quotes included; what it keeps is that comment-free text stays comment-free.
 */
module SqlNormalize {
  import opened Wrappers
  import opened Whitespace
  import opened SqlGuard

  /** `text` without the semicolons at its end, and without the blanks behind them. */
  function DropTail(text: string): (front: string)
    ensures |front| <= |text|
    ensures front != text ==> front == "" || front[|front| - 1] != ';'
  {
    var core := TrimEnd(text);
    if core != "" && core[|core| - 1] == ';' then DropSemicolons(core) else text
  }

  function DropSemicolons(text: string): (front: string)
    ensures |front| <= |text|
    ensures front == "" || front[|front| - 1] != ';'
  {
    if text == "" || text[|text| - 1] != ';' then text else DropSemicolons(text[..|text| - 1])
  }

  lemma {:induction false} DropSemicolonsCuts(text: string)
    ensures var n := |DropSemicolons(text)|;
      DropSemicolons(text) == text[..n] && forall i :: n <= i < |text| ==> text[i] == ';'
  {
    if text != "" && text[|text| - 1] == ';' { DropSemicolonsCuts(text[..|text| - 1]); }
  }

  /** What is dropped is the last run of semicolons and the blanks behind it. */
  lemma DropTailCuts(text: string)
    ensures var n, m := |DropTail(text)|, |TrimEnd(text)|;
      && DropTail(text) == text[..n]
      && (n < |text| ==> n < m && (forall i :: n <= i < m ==> text[i] == ';') && Blank(text[m..]))
  {
    TrimEndCuts(text);
    DropSemicolonsCuts(TrimEnd(text));
  }

  /** Every run of whitespace becomes one blank. */
  function Collapse(text: string): string
    decreases |text|
  {
    if text == "" then ""
    else if IsSpace(text[0]) then [' '] + Collapse(TrimStart(text[1..]))
    else [text[0]] + Collapse(text[1..])
  }

  function Normalize(sql: string): string {
    Collapse(DropTail(Trim(sql)))
  }

  // ---------------------------------------------------------------- the ends of collapsed text

  /** What collapsing goes on with after one step. */
  function AfterOne(text: string): (rest: string)
    requires text != ""
    ensures |rest| < |text|
  {
    if IsSpace(text[0]) then TrimStart(text[1..]) else text[1..]
  }

  /** It ends as the text does, and when nothing is left the text was one character or blank. */
  lemma AfterOneEnds(text: string)
    requires text != ""
    ensures var rest, last := AfterOne(text), text[|text| - 1];
      if rest != "" then rest[|rest| - 1] == last else |text| == 1 || (IsSpace(text[0]) && IsSpace(last))
  {
    TrimStartCuts(text[1..]);
    if |text| > 1 { assert text[1..][|text| - 2] == text[|text| - 1]; }
  }

  lemma CollapseOne(text: string)
    requires text != ""
    ensures Collapse(text) == [if IsSpace(text[0]) then ' ' else text[0]] + Collapse(AfterOne(text))
  {
  }

  lemma {:induction false} CollapseEnd(text: string)
    requires text != ""
    ensures var out := Collapse(text); var last := text[|text| - 1];
            out != "" && out[|out| - 1] == if IsSpace(last) then ' ' else last
    decreases |text|
  {
    AfterOneEnds(text);
    CollapseOne(text);
    if AfterOne(text) != "" { CollapseEnd(AfterOne(text)); }
  }

  lemma {:induction false} CollapseTwice(text: string)
    ensures Collapse(Collapse(text)) == Collapse(text)
    decreases |text|
  {
    if text == "" {
    } else if IsSpace(text[0]) {
      var rest := TrimStart(text[1..]);
      CollapseTwice(rest);
      assert Collapse(text)[1..] == Collapse(rest);
      assert TrimStart(Collapse(rest)) == Collapse(rest);
    } else {
      CollapseTwice(text[1..]);
      assert Collapse(text)[1..] == Collapse(text[1..]);
    }
  }

  /** The shape of a core that is not empty: it starts visibly and does not end in a semicolon. */
  lemma CoreShape(sql: string)
    ensures var core := DropTail(Trim(sql));
      core != "" ==> !IsSpace(core[0]) && core[|core| - 1] != ';'
  {
    TrimEnds(sql);
    var text := Trim(sql);
    DropTailCuts(text);
    assert TrimEnd(text) == text;
  }

  /** A collapsed text that ends in neither a blank nor a semicolon is normal. */
  lemma SettledCore(core: string)
    requires core != "" && !IsSpace(core[0]) && !IsSpace(core[|core| - 1]) && core[|core| - 1] != ';'
    ensures Normalize(Collapse(core)) == Collapse(core)
  {
    var out := Collapse(core);
    CollapseEnd(core);
    assert Trim(out) == out && DropTail(out) == out;
    CollapseTwice(core);
  }

  /** Normalising twice is normalising once exactly when nothing blank stands before the semicolons that
      were dropped: `SELECT 1; ;` loses its last semicolon, then a blank, then the other semicolon. */
  lemma NormalizeTwiceIff(sql: string)
    ensures var core := DropTail(Trim(sql));
      Normalize(Normalize(sql)) == Normalize(sql) <==> core == "" || !IsSpace(core[|core| - 1])
  {
    var core := DropTail(Trim(sql));
    CoreShape(sql);
    if core != "" {
      if IsSpace(core[|core| - 1]) {
        CollapseEnd(core);
        NormalizeShortens(Collapse(core));
      } else {
        SettledCore(core);
      }
    }
  }

  /** The shortest case of `SELECT 1; ;`. */
  lemma NormalizeTwiceWitness()
    ensures Normalize("1; ;") == "1; " && Normalize("1; ") == "1"
  {
    assert "1; ;"[..3] == "1; " && "1; "[..2] == "1;" && "1;"[..1] == "1";
    assert DropSemicolons("1; ;") == "1; " && DropSemicolons("1;") == "1";
    assert TrimEnd("1; ;") == "1; ;" && TrimEnd("1; ") == "1;" && TrimEnd("1;") == "1;";
    assert "1; "[1..] == "; " && "; "[1..] == " " && " "[1..] == "" && "1"[1..] == "";
    assert Collapse("1; ") == "1; " by { assert Collapse(" ") == " " && Collapse("; ") == "; "; }
    assert Collapse("1") == "1";
  }

  lemma {:induction false} CollapseIsNoLonger(text: string)
    ensures |Collapse(text)| <= |text|
    decreases |text|
  {
    if text != "" { CollapseIsNoLonger(if IsSpace(text[0]) then TrimStart(text[1..]) else text[1..]); }
  }

  lemma NormalizeShortens(text: string)
    requires text != "" && IsSpace(text[|text| - 1])
    ensures |Normalize(text)| < |text|
  {
    CollapseIsNoLonger(DropTail(Trim(text)));
  }

  // ---------------------------------------------------------------- comment-free text stays so

  lemma {:induction false} LeadingSpace(q: Quote, text: string)
    ensures CommentFree(q, text) <==> CommentFree(q, TrimStart(text))
  {
    if text != "" && IsSpace(text[0]) {
      LeadingSpace(q, text[1..]);
    }
  }

  /** A step is taken the same way in a prefix that holds it. */
  lemma PrefixStep(q: Quote, text: string, n: nat)
    requires text != "" && Width(q, text) <= n <= |text| && !CommentStarts(q, text)
    ensures !CommentStarts(q, text[..n]) && Width(q, text[..n]) == Width(q, text) && Turn(q, text[..n]) == Turn(q, text)
    ensures text[..n][Width(q, text)..] == text[Width(q, text)..][..n - Width(q, text)]
  {
  }

  lemma {:induction false} PrefixIsCommentFree(q: Quote, text: string, n: nat)
    requires n <= |text| && CommentFree(q, text)
    ensures CommentFree(q, text[..n])
    decreases n
  {
    if n == 0 {
    } else if Width(q, text) <= n {
      PrefixStep(q, text, n);
      PrefixIsCommentFree(Turn(q, text), text[Width(q, text)..], n - Width(q, text));
    } else {
      assert |text[..n]| == 1 && text[..n][1..] == "";
    }
  }

  /** Collapsing takes a kept step over unchanged, since neither mark nor opener contains whitespace. */
  lemma CollapseKeepsStep(q: Quote, text: string)
    requires text != "" && !IsSpace(text[0]) && !CommentStarts(q, text)
    ensures var out, w := Collapse(text), Width(q, text);
      && out != "" && !CommentStarts(q, out) && Width(q, out) == w && Turn(q, out) == Turn(q, text)
      && out[w..] == Collapse(text[w..])
  {
    assert Collapse(text)[1..] == Collapse(text[1..]);
    if Width(q, text) == 2 {
      assert Collapse(text[1..])[1..] == Collapse(text[1..][1..]);
      assert text[1..][1..] == text[2..];
    }
  }

  lemma {:induction false} CollapseIsCommentFree(q: Quote, text: string)
    requires CommentFree(q, text)
    ensures CommentFree(q, Collapse(text))
    decreases |text|
  {
    if text == "" {
    } else if IsSpace(text[0]) {
      var rest := TrimStart(text[1..]);
      LeadingSpace(q, text[1..]);
      CollapseIsCommentFree(q, rest);
      assert Collapse(text)[1..] == Collapse(rest);
    } else {
      CollapseKeepsStep(q, text);
      CollapseIsCommentFree(Turn(q, text), text[Width(q, text)..]);
    }
  }

  lemma NormalizedIsCommentFree(sql: string)
    ensures CommentFree(Outside, Normalize(Strip(Outside, sql)))
  {
    var text := Strip(Outside, sql);
    StripTwice(sql);
    CommentFreeIsNoComments(Outside, text);
    LeadingSpace(Outside, text);
    TrimEndCuts(TrimStart(text));
    DropTailCuts(Trim(text));
    PrefixIsCommentFree(Outside, TrimStart(text), |Trim(text)|);
    PrefixIsCommentFree(Outside, Trim(text), |DropTail(Trim(text))|);
    CollapseIsCommentFree(Outside, DropTail(Trim(text)));
  }

  // ---------------------------------------------------------------- the guard

  datatype Verdict = Allowed(sql: string) | Refused(sql: string, reason: string)

  /** `screen` stands for the keyword tests on the text with its literals emptied: a reason to refuse. */
  method GuardReadonlySql(sql: string, screen: string -> Option<string>) returns (verdict: Verdict)
    ensures verdict.sql == Normalize(Strip(Outside, sql))
    ensures verdict.Allowed? <==> && verdict.sql != "" && screen(verdict.sql).None?
                                  && forall i: nat :: !Splits(Lex(Outside, verdict.sql), verdict.sql, i)
    ensures verdict.Refused? && verdict.sql == "" ==> verdict.reason == "SQL is empty."
    ensures (verdict.Refused? && exists i: nat :: Splits(Lex(Outside, verdict.sql), verdict.sql, i))
            ==> verdict.reason == "Multiple SQL statements are not allowed."
    ensures NoComments(Lex(Outside, verdict.sql)) && Strip(Outside, verdict.sql) == verdict.sql
  {
    var stripped := StripSqlComments(sql);
    var normalized := Normalize(stripped);
    NormalizedIsCommentFree(sql);
    CommentFreeIsNoComments(Outside, normalized);
    CommentFreeIffKept(normalized);
    ScannersAgree(Outside, normalized);
    if normalized == "" {
      return Refused(normalized, "SQL is empty.");
    }
    var multiple := HasMultipleStatements(normalized);
    if multiple {
      return Refused(normalized, "Multiple SQL statements are not allowed.");
    }
    match screen(normalized)
    case Some(reason) => verdict := Refused(normalized, reason);
    case None => verdict := Allowed(normalized);
  }

  /** Collapsing is blind to quotes: a literal of two blanks is rewritten to a literal of one. */
  lemma NormalizeChangesALiteral()
    ensures Normalize("'  '") == "' '" && Lex(Outside, "'  '") != Lex(Outside, "' '")
  {
    LiteralCollapses();
    LexIsLossless(Outside, "'  '");
    LexIsLossless(Outside, "' '");
  }

  lemma LiteralCollapses()
    ensures Normalize("'  '") == "' '"
  {
    assert "'  '"[1..] == "  '" && "  '"[1..] == " '" && " '"[1..] == "'" && "'"[1..] == "";
    assert Trim("'  '") == "'  '" && DropTail("'  '") == "'  '";
    assert TrimStart(" '") == "'";
    assert Collapse("'") == "'";
    assert Collapse("  '") == " '";
  }
}
