/** The whitespace of `trim` and `\s`. */
module Whitespace {

  predicate IsSpace(c: char) {
    || '\t' <= c <= '\r'
    || c == ' ' || c == '\U{A0}' || c == '\U{1680}'
    || '\U{2000}' <= c <= '\U{200A}'
    || c == '\U{2028}' || c == '\U{2029}' || c == '\U{202F}' || c == '\U{205F}' || c == '\U{3000}' || c == '\U{FEFF}'
  }

  /** The code points, one by one. */
  lemma SpacesAre(c: char)
    ensures IsSpace(c) <==>
      (c as int) in {0x9, 0xA, 0xB, 0xC, 0xD, 0x20, 0xA0, 0x1680, 0x2000, 0x2001, 0x2002, 0x2003, 0x2004, 0x2005,
                     0x2006, 0x2007, 0x2008, 0x2009, 0x200A, 0x2028, 0x2029, 0x202F, 0x205F, 0x3000, 0xFEFF}
  {
  }

  function TrimStart(text: string): (rest: string)
    ensures rest == "" || !IsSpace(rest[0])
    ensures |rest| <= |text|
  {
    if text == "" || !IsSpace(text[0]) then text else TrimStart(text[1..])
  }

  function TrimEnd(text: string): (front: string)
    ensures front == "" || !IsSpace(front[|front| - 1])
    ensures |front| <= |text|
  {
    if text == "" || !IsSpace(text[|text| - 1]) then text else TrimEnd(text[..|text| - 1])
  }

  function Trim(text: string): string {
    TrimEnd(TrimStart(text))
  }

  predicate Blank(text: string) {
    forall i :: 0 <= i < |text| ==> IsSpace(text[i])
  }

  /** What is cut off in front is blank. */
  lemma {:induction false} TrimStartCuts(text: string)
    ensures var n := |text| - |TrimStart(text)|; TrimStart(text) == text[n..] && Blank(text[..n])
  {
    if text != "" && IsSpace(text[0]) {
      TrimStartCuts(text[1..]);
      var n := |text[1..]| - |TrimStart(text[1..])|;
      assert text[..n + 1] == [text[0]] + text[1..][..n];
    }
  }

  /** What is cut off behind is blank. */
  lemma {:induction false} TrimEndCuts(text: string)
    ensures var n := |TrimEnd(text)|; TrimEnd(text) == text[..n] && Blank(text[n..])
  {
    if text != "" && IsSpace(text[|text| - 1]) {
      var front := text[..|text| - 1];
      TrimEndCuts(front);
      var n := |TrimEnd(front)|;
      assert text[n..] == front[n..] + [text[|text| - 1]];
    }
  }

  lemma TrimEmptyIffBlank(text: string)
    ensures Trim(text) == "" <==> Blank(text)
  {
    var rest := TrimStart(text);
    TrimStartCuts(text);
    TrimEndCuts(rest);
    if Trim(text) == "" {
      assert text == text[..|text| - |rest|] + rest;
      assert rest[0..] == rest;
    } else {
      assert rest[0] == text[|text| - |rest|];
    }
  }

  /** Trimmed text neither begins nor ends with whitespace. */
  lemma TrimEnds(text: string)
    ensures Trim(text) != "" ==> !IsSpace(Trim(text)[0]) && !IsSpace(Trim(text)[|Trim(text)| - 1])
  {
    TrimEndCuts(TrimStart(text));
  }

  lemma TrimTwice(text: string)
    ensures Trim(Trim(text)) == Trim(text)
  {
    TrimEnds(text);
  }

}
