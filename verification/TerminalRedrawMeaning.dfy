/**
 The rewrite leaves the same cells and the same cursor whenever each run of n cursor-ups starts at row n or
 lower; a single run above that does so exactly when the rows it would erase in excess are blank already.
 */
module TerminalRedrawMeaning {
  import opened Wrappers
  import opened TerminalRedraw
  import opened TerminalScreen

  // ---------------------------------------------------------------- single sequences

  lemma RunSequence(d: Device, t: Terminal, text: string, c: char)
    requires GoodDevice(d) && Good(t.screen)
    requires (forall i :: 0 <= i < |text| ==> ' ' <= text[i] <= '?') && '@' <= c <= '~'
    ensures Run(d, t, ESC + text + [c]) == Terminal(Control(d, t.screen, text, c), Ground)
  {
    RunIntroducer(d, t, text + [c]);
    assert ESC + text + [c] == ESC + (text + [c]);
    RunParameters(d, t.screen, "", text, [c]);
    assert "" + text == text;
    RunFinal(d, t.screen, text, c);
  }

  lemma RunFinal(d: Device, s: Screen, text: string, c: char)
    requires GoodDevice(d) && Good(s) && '@' <= c <= '~'
    ensures Run(d, Terminal(s, Csi(text)), [c]) == Terminal(Control(d, s, text, c), Ground)
  {
    assert [c] + "" == [c];
    RunFirst(d, Terminal(s, Csi(text)), c, "");
  }

  lemma RunIntroducer(d: Device, t: Terminal, rest: string)
    requires GoodDevice(d) && Good(t.screen)
    ensures Run(d, t, ESC + rest) == Run(d, Terminal(t.screen, Csi("")), rest)
  {
    assert ESC + rest == ['\U{1B}'] + (['['] + rest);
    RunFirst(d, t, '\U{1B}', ['['] + rest);
    RunFirst(d, Terminal(t.screen, Escape), '[', rest);
  }

  lemma RunFirst(d: Device, t: Terminal, c: char, rest: string)
    requires GoodDevice(d) && Good(t.screen)
    ensures Good(Feed(d, t, c).screen) && Run(d, t, [c] + rest) == Run(d, Feed(d, t, c), rest)
  {
    FeedIsGood(d, t, c);
    assert ([c] + rest)[1..] == rest;
  }

  lemma {:induction false} RunParameters(d: Device, s: Screen, seen: string, text: string, rest: string)
    requires GoodDevice(d) && Good(s) && forall i :: 0 <= i < |text| ==> ' ' <= text[i] <= '?'
    ensures Run(d, Terminal(s, Csi(seen)), text + rest) == Run(d, Terminal(s, Csi(seen + text)), rest)
    decreases |text|
  {
    if text == "" {
      assert text + rest == rest && seen + text == seen;
    } else {
      assert (text + rest)[0] == text[0] && (text + rest)[1..] == text[1..] + rest;
      RunParameters(d, s, seen + [text[0]], text[1..], rest);
      assert seen + [text[0]] + text[1..] == seen + text;
    }
  }

  /** A written count is read back. */
  lemma {:induction false} DecimalIsRead(n: nat)
    ensures Number(Decimal(n)) == Some(n) && forall i :: 0 <= i < |Decimal(n)| ==> ' ' <= Decimal(n)[i] <= '?'
  {
    var digits := Decimal(n);
    if n < 10 {
      assert digits[..0] == "";
    } else {
      DecimalIsRead(n / 10);
      assert digits[..|digits| - 1] == Decimal(n / 10);
    }
  }

  lemma RunErase(d: Device, t: Terminal)
    requires GoodDevice(d) && Good(t.screen)
    ensures Run(d, t, ERASE_LINE) == Terminal(EraseLine(t.screen), Ground)
  {
    assert ERASE_LINE == ESC + "2" + ['K'];
    assert "2"[..0] == "";
    RunSequence(d, t, "2", 'K');
  }

  lemma RunMove(d: Device, t: Terminal, n: nat, c: char)
    requires GoodDevice(d) && Good(t.screen) && n > 0 && (c == 'A' || c == 'B')
    ensures Run(d, t, ESC + Decimal(n) + [c]) ==
              Terminal(if c == 'A' then Up(t.screen, n) else Down(t.screen, n), Ground)
  {
    DecimalIsRead(n);
    RunSequence(d, t, Decimal(n), c);
  }

  lemma RunLeft(d: Device, t: Terminal)
    requires GoodDevice(d) && Good(t.screen)
    ensures Run(d, t, CURSOR_LEFT) == Terminal(t.screen.(column := 0), Ground)
  {
    assert CURSOR_LEFT == ESC + "" + ['G'];
    RunSequence(d, t, "", 'G');
  }

  // ---------------------------------------------------------------- runs of erasing and moving

  /** The screen with rows `from` to `to` blank and the cursor at `row`. */
  function Erased(s: Screen, from: int, to: int, row: nat): (r: Screen)
    ensures |r.lines| == |s.lines| && r.width == s.width && r.row == row && r.column == s.column
    ensures forall i :: 0 <= i < |s.lines| ==> r.lines[i] == if from <= i <= to then Blank(s.width) else s.lines[i]
  {
    s.(row := row,
       lines := seq(|s.lines|, i requires 0 <= i < |s.lines| => if from <= i <= to then Blank(s.width) else s.lines[i]))
  }

  function Above(row: nat, n: nat): nat {
    if n <= row then row - n else 0
  }

  function Below(s: Screen, row: nat, n: nat): nat
    requires row < |s.lines|
  {
    if row + n < |s.lines| then row + n else |s.lines| - 1
  }

  lemma NothingErased(s: Screen)
    requires Good(s)
    ensures Erased(s, s.row + 1, s.row, s.row) == s
  {
    assert Erased(s, s.row + 1, s.row, s.row).lines == s.lines;
  }

  /** One more line erased above the ones that are. */
  lemma EraseAbove(s: Screen, n: nat)
    requires Good(s)
    ensures EraseLine(Erased(s, Above(s.row, n) + (if n <= s.row then 1 else 0), s.row, Above(s.row, n)))
         == Erased(s, Above(s.row, n), s.row, Above(s.row, n))
  {
    var a := Erased(s, Above(s.row, n) + (if n <= s.row then 1 else 0), s.row, Above(s.row, n));
    assert EraseLine(a).lines == Erased(s, Above(s.row, n), s.row, Above(s.row, n)).lines;
  }

  /** After n units: the lines passed are blank, the cursor is n rows up or on the first row. */
  lemma {:induction false} RunUnits(d: Device, t: Terminal, n: nat)
    requires GoodDevice(d) && Good(t.screen)
    ensures var s := t.screen;
      Run(d, t, Repeat(UNIT, n)).screen
        == Erased(s, Above(s.row, n) + (if n <= s.row then 1 else 0), s.row, Above(s.row, n))
    ensures n > 0 ==> Run(d, t, Repeat(UNIT, n)).parser == Ground
  {
    if n == 0 {
      NothingErased(t.screen);
    } else {
      RunUnits(d, t, n - 1);
      RepeatFromBehind(UNIT, n - 1);
      var before := Run(d, t, Repeat(UNIT, n - 1));
      RunAppend(d, t, Repeat(UNIT, n - 1), UNIT);
      RunAppend(d, before, ERASE_LINE, CURSOR_UP_ONE);
      RunErase(d, before);
      assert CURSOR_UP_ONE == ESC + Decimal(1) + ['A'];
      RunMove(d, Run(d, before, ERASE_LINE), 1, 'A');
      EraseAbove(t.screen, n - 1);
    }
  }

  /** The whole erase sequence: n rows up, or as many as there are. */
  lemma RunEraseUp(d: Device, t: Terminal, n: nat)
    requires GoodDevice(d) && Good(t.screen)
    ensures var s := t.screen;
      Run(d, t, EraseUp(n)) == Terminal(Erased(s, Above(s.row, n), s.row, Above(s.row, n)).(column := 0), Ground)
  {
    var units := Run(d, t, Repeat(UNIT, n));
    RunUnits(d, t, n);
    RunAppend(d, t, Repeat(UNIT, n), TAIL);
    RunAppend(d, units, ERASE_LINE, CURSOR_LEFT);
    RunErase(d, units);
    RunLeft(d, Run(d, units, ERASE_LINE));
    EraseAbove(t.screen, n);
  }

  lemma EraseBelow(s: Screen, n: nat)
    requires Good(s)
    ensures var row := Below(s, s.row, n);
      EraseLine(Erased(s, s.row, row as int - (if s.row + n < |s.lines| then 1 else 0), row)) ==
        Erased(s, s.row, row, row)
  {
    var row := Below(s, s.row, n);
    var a := Erased(s, s.row, row as int - (if s.row + n < |s.lines| then 1 else 0), row);
    assert EraseLine(a).lines == Erased(s, s.row, row, row).lines;
  }

  lemma {:induction false} RunDownwards(d: Device, t: Terminal, n: nat)
    requires GoodDevice(d) && Good(t.screen)
    ensures var s := t.screen; var row := Below(s, s.row, n);
      Run(d, t, Repeat(ERASE_LINE + CURSOR_DOWN_ONE, n)).screen
        == Erased(s, s.row, row as int - (if s.row + n < |s.lines| then 1 else 0), row)
  {
    var s, step := t.screen, ERASE_LINE + CURSOR_DOWN_ONE;
    if n == 0 {
      assert Erased(s, s.row, s.row - 1, s.row).lines == s.lines;
    } else {
      RunDownwards(d, t, n - 1);
      RepeatFromBehind(step, n - 1);
      var before := Run(d, t, Repeat(step, n - 1));
      RunAppend(d, t, Repeat(step, n - 1), step);
      RunAppend(d, before, ERASE_LINE, CURSOR_DOWN_ONE);
      RunErase(d, before);
      assert CURSOR_DOWN_ONE == ESC + Decimal(1) + ['B'];
      RunMove(d, Run(d, before, ERASE_LINE), 1, 'B');
      EraseBelow(s, n - 1);
    }
  }

  /** The replacement: up as far as there are rows, then n + 1 rows downwards from there, and back. */
  lemma RunEraseDown(d: Device, t: Terminal, n: nat)
    requires GoodDevice(d) && Good(t.screen) && n > 0
    ensures var s := t.screen; var top := Above(s.row, n); var bottom := Below(s, top, n);
      Run(d, t, EraseDown(n)) == Terminal(Erased(s, top, bottom, Above(bottom, n)).(column := 0), Ground)
  {
    var s := t.screen;
    var jump, pass, step := ESC + Decimal(n) + ['A'], Repeat(ERASE_LINE + CURSOR_DOWN_ONE, n), ERASE_LINE;
    assert EraseDown(n) == jump + (pass + (step + (jump + CURSOR_LEFT)));
    RunMove(d, t, n, 'A');
    RunAppend(d, t, jump, pass + (step + (jump + CURSOR_LEFT)));
    var t1 := Run(d, t, jump);
    RunAppend(d, t1, pass, step + (jump + CURSOR_LEFT));
    RunDownwards(d, t1, n);
    var t2 := Run(d, t1, pass);
    RunAppend(d, t2, step, jump + CURSOR_LEFT);
    RunErase(d, t2);
    EraseBelow(t1.screen, n);
    var t3 := Run(d, t2, step);
    RunAppend(d, t3, jump, CURSOR_LEFT);
    RunMove(d, t3, n, 'A');
    RunLeft(d, Run(d, t3, jump));
    var top := Above(s.row, n);
    var bottom := Below(s, top, n);
    assert Erased(t1.screen, top, bottom, bottom).lines == Erased(s, top, bottom, bottom).lines;
    assert Erased(s, top, bottom, bottom).lines == Erased(s, top, bottom, Above(bottom, n)).lines;
  }

  // ---------------------------------------------------------------- meaning preserved

  /** The rows that the replacement erases and the original does not. */
  ghost predicate ExcessIsBlank(s: Screen, n: nat) {
    forall i :: s.row < i <= n && i < |s.lines| ==> s.lines[i] == Blank(s.width)
  }

  /** One match leaves the same screen and cursor exactly when it starts at row n or lower, or the rows
      between the cursor and row n are blank. */
  lemma OneMatchIff(d: Device, t: Terminal, n: nat)
    requires GoodDevice(d) && Good(t.screen) && n >= 2
    ensures Run(d, t, Rewritten(n)) == Run(d, t, EraseUp(n)) <==> n <= t.screen.row || ExcessIsBlank(t.screen, n)
  {
    var s := t.screen;
    RunEraseUp(d, t, n);
    RunEraseDown(d, t, n);
    var top := Above(s.row, n);
    var bottom := Below(s, top, n);
    var original, rewritten := Erased(s, top, s.row, top), Erased(s, top, bottom, Above(bottom, n));
    assert Above(bottom, n) == top;
    if n <= s.row {
      assert bottom == s.row;
    } else {
      assert top == 0;
      if ExcessIsBlank(s, n) {
        assert original.lines == rewritten.lines;
      } else {
        var i :| s.row < i <= n && i < |s.lines| && s.lines[i] != Blank(s.width);
        assert original.lines[i] != rewritten.lines[i];
      }
    }
  }

  /** From the first of three lines, two units up erase that line, the replacement all three. */
  lemma NearTheTopWitness(d: Device)
    requires GoodDevice(d)
    ensures var t := Terminal(Screen(["a", "b", "c"], 1, 0, 0), Ground);
      Run(d, t, EraseUp(2)).screen.lines == [" ", "b", "c"] && Run(d, t, Rewritten(2)).screen.lines == [" ", " ", " "]
  {
    var t := Terminal(Screen(["a", "b", "c"], 1, 0, 0), Ground);
    assert Good(t.screen);
    RunEraseUp(d, t, 2);
    RunEraseDown(d, t, 2);
    ErasedOfThree(t.screen);
  }

  lemma ErasedOfThree(s: Screen)
    requires s.width == 1 && s.lines == ["a", "b", "c"] && s.row == 0
    ensures Above(0, 2) == 0 && Below(s, 0, 2) == 2
    ensures Erased(s, 0, 0, 0).lines == [" ", "b", "c"] && Erased(s, 0, 2, 0).lines == [" ", " ", " "]
  {
    assert Blank(1) == " ";
  }

  /** Every match of two units or more starts at a row with that many rows above it. */
  ghost predicate MatchesFit(d: Device, t: Terminal, output: string)
    requires GoodDevice(d) && Good(t.screen)
    decreases |output|
  {
    output != "" ==>
      match MatchAt(output)
      case Some(m) =>
        (m.units >= 2 ==> m.units <= t.screen.row || ExcessIsBlank(t.screen, m.units))
        && MatchesFit(d, Run(d, t, output[..m.length]), output[m.length..])
      case None => FeedIsGood(d, t, output[0]); MatchesFit(d, Feed(d, t, output[0]), output[1..])
  }

  /** Then the rewritten output leaves the same screen, cursor and parser state. */
  lemma {:induction false} OptimizePreservesMeaning(d: Device, t: Terminal, output: string)
    requires GoodDevice(d) && Good(t.screen) && MatchesFit(d, t, output)
    ensures Run(d, t, Optimize(output)) == Run(d, t, output)
    decreases |output|
  {
    if output == "" {
      return;
    }
    match MatchAt(output)
    case Some(m) =>
      var rest := output[m.length..];
      MatchIsEraseUp(output);
      assert output == EraseUp(m.units) + rest;
      RunAppend(d, t, EraseUp(m.units), rest);
      RunAppend(d, t, Rewritten(m.units), Optimize(rest));
      if m.units >= 2 { OneMatchIff(d, t, m.units); }
      OptimizePreservesMeaning(d, Run(d, t, EraseUp(m.units)), rest);
    case None =>
      FeedIsGood(d, t, output[0]);
      OptimizePreservesMeaning(d, Feed(d, t, output[0]), output[1..]);
      assert Optimize(output)[1..] == Optimize(output[1..]);
  }
}
