/**
 A grid terminal with the control functions the rewrite uses: CUU, CUD, EL and CHA (sections 8.3.22,
 8.3.19, 8.3.41 and 8.3.9 of ECMA-48). Everything else a terminal does is an arbitrary function.
 */
module TerminalScreen {
  import opened Wrappers

  /** Rows and columns count from 0. */
  datatype Screen = Screen(lines: seq<string>, width: nat, row: nat, column: nat)

  ghost predicate Good(s: Screen) {
    && s.row < |s.lines| && s.column < s.width
    && forall i :: 0 <= i < |s.lines| ==> |s.lines[i]| == s.width
  }

  /** What the terminal does with any other character, and with any other control sequence. */
  datatype Device = Device(put: (Screen, char) -> Screen, control: (Screen, string, char) -> Screen)

  ghost predicate GoodDevice(d: Device) {
    && (forall s, c :: Good(s) ==> Good(Put(d, s, c)))
    && (forall s, text, c :: Good(s) ==> Good(Other(d, s, text, c)))
  }

  function Put(d: Device, s: Screen, c: char): Screen {
    d.put(s, c)
  }

  function Other(d: Device, s: Screen, text: string, c: char): Screen {
    d.control(s, text, c)
  }

  // ---------------------------------------------------------------- control functions

  function Blank(width: nat): (line: string)
    ensures |line| == width && forall i :: 0 <= i < width ==> line[i] == ' '
  {
    seq(width, i => ' ')
  }

  function Up(s: Screen, n: nat): Screen {
    s.(row := if n <= s.row then s.row - n else 0)
  }

  function Down(s: Screen, n: nat): Screen
    requires s.row < |s.lines|
  {
    s.(row := if s.row + n < |s.lines| then s.row + n else |s.lines| - 1)
  }

  /** EL with parameter 2; the cursor stays. */
  function EraseLine(s: Screen): Screen
    requires s.row < |s.lines|
  {
    s.(lines := s.lines[s.row := Blank(s.width)])
  }

  function Column(s: Screen, n: nat): Screen
    requires s.width > 0
  {
    s.(column := if n == 0 then 0 else if n <= s.width then n - 1 else s.width - 1)
  }

  function IsDigit(c: char): bool {
    '0' <= c <= '9'
  }

  function Number(text: string): Option<nat> {
    if text == "" then Some(0)
    else
      var last, front := text[|text| - 1], Number(text[..|text| - 1]);
      if IsDigit(last) && front.Some? then Some(10 * front.value + (last as int - '0' as int)) else None
  }

  /** A count that is absent or 0 means 1. */
  function Count(n: nat): nat {
    if n == 0 then 1 else n
  }

  function Control(d: Device, s: Screen, text: string, c: char): Screen
    requires Good(s)
  {
    if Number(text).None? then Other(d, s, text, c)
    else if c == 'A' then Up(s, Count(Number(text).value))
    else if c == 'B' then Down(s, Count(Number(text).value))
    else if c == 'K' && text == "2" then EraseLine(s)
    else if c == 'G' then Column(s, Number(text).value)
    else Other(d, s, text, c)
  }

  // ---------------------------------------------------------------- the character stream

  datatype Parser = Ground | Escape | Csi(text: string)

  datatype Terminal = Terminal(screen: Screen, parser: Parser)

  /** ESC starts afresh whatever came before; a control character inside a sequence acts at once. */
  function Feed(d: Device, t: Terminal, c: char): Terminal
    requires Good(t.screen)
  {
    if c == '\U{1B}' then Terminal(t.screen, Escape)
    else
      match t.parser
      case Ground => Terminal(Put(d, t.screen, c), Ground)
      case Escape =>
        if c == '[' then Terminal(t.screen, Csi("")) else Terminal(Other(d, t.screen, "\U{1B}", c), Ground)
      case Csi(text) =>
        if ' ' <= c <= '?' then Terminal(t.screen, Csi(text + [c]))
        else if '@' <= c <= '~' then Terminal(Control(d, t.screen, text, c), Ground)
        else Terminal(Put(d, t.screen, c), Csi(text))
  }

  lemma FeedIsGood(d: Device, t: Terminal, c: char)
    requires GoodDevice(d) && Good(t.screen)
    ensures Good(Feed(d, t, c).screen)
  {
  }

  ghost function Run(d: Device, t: Terminal, output: string): (r: Terminal)
    requires GoodDevice(d) && Good(t.screen)
    ensures Good(r.screen)
    decreases |output|
  {
    if output == "" then t
    else
      FeedIsGood(d, t, output[0]);
      Run(d, Feed(d, t, output[0]), output[1..])
  }

  lemma {:induction false} RunAppend(d: Device, t: Terminal, a: string, b: string)
    requires GoodDevice(d) && Good(t.screen)
    ensures Run(d, t, a + b) == Run(d, Run(d, t, a), b)
    decreases |a|
  {
    if a == "" {
      assert a + b == b;
    } else {
      FeedIsGood(d, t, a[0]);
      RunAppend(d, Feed(d, t, a[0]), a[1..], b);
      assert (a + b)[1..] == a[1..] + b;
    }
  }
}
