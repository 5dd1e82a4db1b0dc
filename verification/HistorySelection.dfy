/**
 Which messages of the history go into a run's prompt: newest first, skipping what does not fit, within a
 character and a token budget.
 */
module HistorySelection {
  import opened Wrappers

  /** A message with what it costs once bounded: characters, and tokens with the per-message overhead. */
  datatype Record = Record(position: nat, chars: nat, tokens: nat)

  datatype Budget = Budget(maxMessages: nat, maxChars: nat, maxTokens: nat)

  datatype Totals = Totals(chars: nat, tokens: nat)

  function Plus(t: Totals, r: Record): Totals {
    Totals(t.chars + r.chars, t.tokens + r.tokens)
  }

  predicate Fits(b: Budget, t: Totals) {
    t.chars <= b.maxChars && t.tokens <= b.maxTokens
  }

  /** The last `maxMessages` records; a limit of 0 takes them all, as `slice(-0)` does. */
  function Window(history: seq<Record>, maxMessages: nat): seq<Record> {
    if maxMessages == 0 || |history| <= maxMessages then history else history[|history| - maxMessages..]
  }

  datatype Selection = Selection(kept: seq<Record>, totals: Totals)

  /** The greedy choice from the newest record on. */
  function Select(b: Budget, window: seq<Record>, start: Totals): Selection {
    if window == [] then Selection([], start)
    else
      var newest, older := window[|window| - 1], window[..|window| - 1];
      if Fits(b, Plus(start, newest)) then
        var rest := Select(b, older, Plus(start, newest));
        Selection(rest.kept + [newest], rest.totals)
      else Select(b, older, start)
  }

  datatype Report = Report(available: nat, dropped: int, selected: nat, totals: Totals, includedSummary: bool)

  /** The current input first, then the summary if it fits, then the history. */
  method SelectBudgetedHistory(b: Budget, history: seq<Record>, current: Totals, summary: Option<Record>)
    returns (ordered: seq<Record>, report: Report)
    ensures var start := StartTotals(b, current, summary); var s := Select(b, Window(history, b.maxMessages), start);
      && ordered == s.kept && report.totals == s.totals
      && report.available == |history| && report.selected == |ordered| && report.dropped == |history| - |ordered|
    ensures report.includedSummary <==>
              && summary.Some? && current.chars + summary.value.chars <= b.maxChars
              && current.tokens + summary.value.tokens <= b.maxTokens
    ensures Subsequence(ordered, Window(history, b.maxMessages))
    ensures report.totals == Sum(StartTotals(b, current, summary), ordered)
    ensures report.totals.chars <= b.maxChars && report.totals.tokens <= b.maxTokens <==>
              current.chars <= b.maxChars && current.tokens <= b.maxTokens
    ensures !(current.chars <= b.maxChars && current.tokens <= b.maxTokens) ==>
              ordered == [] && !report.includedSummary && report.totals == current
  {
    var selected: seq<Record> := [];
    var window := Window(history, b.maxMessages);
    var totals, includedSummary := current, false;
    if summary.Some? && Fits(b, Plus(totals, summary.value)) {
      totals, includedSummary := Plus(totals, summary.value), true;
    }
    ghost var start := totals;
    var i := |window|;
    assert window[..|window|] == window;
    while i > 0
      invariant 0 <= i <= |window|
      invariant var rest := Select(b, window[..i], totals); var s := Select(b, window, start);
        s.kept == rest.kept + Reversed(selected) && s.totals == rest.totals
    {
      i := i - 1;
      var record := window[i];
      assert window[..i + 1][..i] == window[..i];
      if !Fits(b, Plus(totals, record)) {
        continue;
      }
      ReversedAppend(selected, record);
      totals := Plus(totals, record);
      selected := selected + [record];
    }
    ordered := Reversed(selected);
    SelectionIsExact(b, window, start);
    StartFitsIff(b, current, summary);
    report := Report(|history|, |history| - |ordered|, |ordered|, totals, includedSummary);
  }

  function StartTotals(b: Budget, current: Totals, summary: Option<Record>): Totals {
    if summary.Some? && Fits(b, Plus(current, summary.value)) then Plus(current, summary.value) else current
  }

  /** A summary is only added where it fits, so the start fits exactly when the current input does. */
  lemma StartFitsIff(b: Budget, current: Totals, summary: Option<Record>)
    ensures Fits(b, StartTotals(b, current, summary)) <==> Fits(b, current)
    ensures !Fits(b, current) ==> StartTotals(b, current, summary) == current
  {
  }

  function Reversed(records: seq<Record>): seq<Record> {
    if records == [] then [] else Reversed(records[1..]) + [records[0]]
  }

  lemma {:induction false} ReversedAppend(records: seq<Record>, r: Record)
    ensures Reversed(records + [r]) == [r] + Reversed(records)
  {
    if records != [] {
      assert (records + [r])[1..] == records[1..] + [r];
      ReversedAppend(records[1..], r);
    }
  }

  // ---------------------------------------------------------------- what is selected

  /** The window holds the last `maxMessages` records, or all of them when there are no more or the limit is 0. */
  lemma WindowIsRecent(history: seq<Record>, maxMessages: nat)
    ensures var window := Window(history, maxMessages);
      && |window| == (if 0 < maxMessages < |history| then maxMessages else |history|)
      && forall i :: 0 <= i < |window| ==> window[i] == history[|history| - |window| + i]
  {
  }

  /** `kept` is `window` with records left out, order unchanged. */
  ghost predicate Subsequence(kept: seq<Record>, window: seq<Record>) {
    if window == [] then kept == []
    else
      var front := window[..|window| - 1];
      || Subsequence(kept, front)
      || (kept != [] && kept[|kept| - 1] == window[|window| - 1] && Subsequence(kept[..|kept| - 1], front))
  }

  function Sum(start: Totals, records: seq<Record>): Totals {
    if records == [] then start else Plus(Sum(start, records[..|records| - 1]), records[|records| - 1])
  }

  lemma {:induction false} SumPlus(start: Totals, records: seq<Record>, r: Record)
    ensures Sum(Plus(start, r), records) == Plus(Sum(start, records), r)
  {
    if records != [] { SumPlus(start, records[..|records| - 1], r); }
  }

  /** The selection keeps the order of the window, its totals are exact, and it is within the budgets if and
      only if what it starts from is; if that is not, nothing is selected. */
  lemma {:induction false} SelectionIsExact(b: Budget, window: seq<Record>, start: Totals)
    ensures var s := Select(b, window, start);
      && Subsequence(s.kept, window) && |s.kept| <= |window|
      && s.totals == Sum(start, s.kept)
      && s.totals.chars >= start.chars && s.totals.tokens >= start.tokens
      && (s.totals.chars <= b.maxChars && s.totals.tokens <= b.maxTokens <==>
            start.chars <= b.maxChars && start.tokens <= b.maxTokens)
      && (start.chars > b.maxChars || start.tokens > b.maxTokens ==> s.kept == [])
    decreases |window|
  {
    if window != [] {
      var newest, older := window[|window| - 1], window[..|window| - 1];
      if Fits(b, Plus(start, newest)) {
        SelectionIsExact(b, older, Plus(start, newest));
        var rest := Select(b, older, Plus(start, newest));
        assert (rest.kept + [newest])[..|rest.kept|] == rest.kept;
        SumPlus(start, rest.kept, newest);
      } else {
        SelectionIsExact(b, older, start);
      }
    }
  }

  /** No record of the window that was dropped could be added without breaking a budget. */
  lemma {:induction false} SelectionIsMaximal(b: Budget, window: seq<Record>, start: Totals, r: Record)
    requires r in window && r !in Select(b, window, start).kept
    ensures var totals := Select(b, window, start).totals;
      totals.chars + r.chars > b.maxChars || totals.tokens + r.tokens > b.maxTokens
    decreases |window|
  {
    var newest, older := window[|window| - 1], window[..|window| - 1];
    assert window == older + [newest];
    if Fits(b, Plus(start, newest)) {
      SelectionIsMaximal(b, older, Plus(start, newest), r);
    } else if r == newest {
      SelectionIsExact(b, older, start);
    } else {
      SelectionIsMaximal(b, older, start, r);
    }
  }

  /** Newer records take precedence: the selection from any suffix of the window is a suffix of the
      selection, and its totals are what the older records are measured against. */
  lemma {:induction false} NewerDecideFirst(b: Budget, older: seq<Record>, newer: seq<Record>, start: Totals)
    ensures var last := Select(b, newer, start); var first := Select(b, older, last.totals);
      Select(b, older + newer, start) == Selection(first.kept + last.kept, first.totals)
    decreases |newer|
  {
    var all := older + newer;
    if newer == [] {
      assert all == older;
    } else {
      var newest, front := newer[|newer| - 1], newer[..|newer| - 1];
      assert all[|all| - 1] == newest && all[..|all| - 1] == older + front;
      var next := if Fits(b, Plus(start, newest)) then Plus(start, newest) else start;
      NewerDecideFirst(b, older, front, next);
    }
  }
}
