/**
 Over every interleaving of appends and flushes: the summaries tile a prefix of the conversation, and what
 is replayed is what they leave.
 */
module ConversationSummaryRuns {
  import opened Wrappers
  import opened ConversationSummary

  // ---------------------------------------------------------------- the rows

  /** The latest summary ends last, and is the newest of those that do. */
  lemma {:induction false} LatestIs(summaries: seq<Summary>) returns (i: nat)
    requires summaries != []
    ensures i < |summaries| && Latest(summaries) == Some(summaries[i])
    ensures forall j :: 0 <= j < |summaries| ==> summaries[j].to <= summaries[i].to
    ensures forall j :: i < j < |summaries| ==> summaries[j].to < summaries[i].to
  {
    i := |summaries| - 1;
    if i > 0 {
      var earlier := LatestIs(summaries[..i]);
      if summaries[i].to < summaries[earlier].to { i := earlier; }
    }
  }

  /** A row is stored unless one with its two ends is there already. */
  lemma {:induction false} StoredUnlessKnown(summaries: seq<Summary>, row: Summary)
    ensures Stored(summaries, row) ==
              if exists i :: 0 <= i < |summaries| && summaries[i].first == row.first && summaries[i].to == row.to
              then summaries else summaries + [row]
  {
    HasIdIff(summaries, row.first, row.to);
  }

  lemma {:induction false} HasIdIff(summaries: seq<Summary>, first: nat, to: nat)
    ensures HasId(summaries, first, to) <==>
        exists i :: 0 <= i < |summaries| && summaries[i].first == first && summaries[i].to == to
  {
    if summaries != [] {
      var n := |summaries| - 1;
      HasIdIff(summaries[..n], first, to);
      assert forall i :: 0 <= i < n ==> summaries[..n][i] == summaries[i];
    }
  }

  /** The runs of the appends, in order. */
  function Appended(steps: seq<Step>): seq<string> {
    if steps == [] then []
    else
      var last := steps[|steps| - 1];
      Appended(steps[..|steps| - 1]) + if last.Append? then [last.run] else []
  }

  /** Whatever is flushed in between, the conversation holds exactly what was appended, in order. */
  lemma {:induction false} RowsAreAppended(p: Policy, steps: seq<Step>)
    ensures Run(p, steps).rows == Appended(steps)
  {
    if steps != [] {
      var before, last := Run(p, steps[..|steps| - 1]), steps[|steps| - 1];
      RowsAreAppended(p, steps[..|steps| - 1]);
      assert Run(p, steps) == if Enabled(before, last) then Apply(p, before, last) else before;
    }
  }

  /** One flush at a time: it can begin exactly when none is on its way, and one that is can end either way; if it
      is given up, the summaries are as before. */
  lemma FlightEnds(p: Policy, s: State)
    ensures Enabled(s, Begin) <==> s.flight.None?
    ensures s.flight.Some? ==> Enabled(s, Finish) && Enabled(s, Abort)
    ensures s.flight.Some? ==> Apply(p, s, Abort) == s.(flight := None) && Enabled(Apply(p, s, Finish), Begin)
  {
  }

  // ---------------------------------------------------------------- contiguous histories

  /** The positions from `lo` to `hi`. */
  function Span(lo: nat, hi: nat): (r: seq<nat>)
    requires lo > 0
    ensures |r| == if lo <= hi then hi - lo + 1 else 0
    ensures forall i :: 0 <= i < |r| ==> r[i] == lo + i
    decreases hi
  {
    if lo > hi then [] else Span(lo, hi - 1) + [hi]
  }

  function Oldest(n: nat, limit: nat): (lo: nat)
    ensures lo > 0
  {
    if n <= limit then 1 else n - limit + 1
  }

  lemma {:induction false} ListRecentIsSpan(rows: seq<string>, limit: nat)
    ensures ListRecent(rows, None, limit) == Span(Oldest(|rows|, limit), |rows|)
    decreases |rows|
  {
    if rows != [] && limit > 0 { ListRecentIsSpan(rows[..|rows| - 1], limit - 1); }
  }

  lemma SpanMore(from: nat, hi: nat, mark: nat)
    requires from > 0 && hi > 0 && (from <= hi <==> mark < hi)
    ensures Span(from, hi) == Span(from, hi - 1) + if hi > mark then [hi] else []
  {
  }

  lemma BeyondMore(positions: seq<nat>, last: nat, mark: nat)
    ensures Beyond(positions + [last], mark) == Beyond(positions, mark) + if last > mark then [last] else []
  {
    assert (positions + [last])[..|positions|] == positions;
  }

  lemma {:induction false} BeyondSpan(lo: nat, hi: nat, mark: nat)
    requires lo > 0
    ensures Beyond(Span(lo, hi), mark) == Span(if mark < lo then lo else mark + 1, hi)
    decreases hi
  {
    if lo <= hi {
      BeyondSpan(lo, hi - 1, mark);
      BeyondMore(Span(lo, hi - 1), hi, mark);
      SpanMore(if mark < lo then lo else mark + 1, hi, mark);
    }
  }

  /** Where the messages a flush sees begin. */
  function Start(p: Policy, s: State): (lo: nat)
    ensures lo > 0
  {
    var mark, oldest := Watermark(s.summaries), Oldest(|s.rows|, p.loadLimit);
    if mark < oldest then oldest else mark + 1
  }

  lemma PlannedSpan(p: Policy, s: State)
    ensures Beyond(ListRecent(s.rows, None, p.loadLimit), Watermark(s.summaries)) == Span(Start(p, s), |s.rows|)
  {
    ListRecentIsSpan(s.rows, p.loadLimit);
    BeyondSpan(Oldest(|s.rows|, p.loadLimit), |s.rows|, Watermark(s.summaries));
  }

  // ---------------------------------------------------------------- one flush

  /** The history window reaches back to the watermark. */
  predicate Loaded(p: Policy, s: State) {
    |s.rows| <= Watermark(s.summaries) + p.loadLimit
  }

  /** A flush summarises all but `keepRecent` of the messages it sees, and it goes on where the previous
      summary ended exactly when the window reaches back that far; otherwise the messages in between are in
      no summary and in no window. */
  lemma FlushGoesOnIffLoaded(p: Policy, s: State)
    requires Planned(p, s).Some?
    ensures var row := Planned(p, s).value; var mark := Watermark(s.summaries);
      && row.first <= row.to == |s.rows| - p.keepRecent && mark < row.first
      && (row.first == mark + 1 <==> Loaded(p, s))
      && (!Loaded(p, s) ==> row.first == |s.rows| - p.loadLimit + 1)
      && row.from == (if Latest(s.summaries).Some? then Latest(s.summaries).value.from else row.first)
  {
    PlannedSpan(p, s);
  }

  /** A flush is due exactly when enough messages are unsummarised. */
  lemma FlushDueIff(p: Policy, s: State)
    requires Loaded(p, s) && Watermark(s.summaries) <= |s.rows|
    ensures Planned(p, s).Some? <==>
      |s.rows| - Watermark(s.summaries) >= p.trigger && |s.rows| - Watermark(s.summaries) > p.keepRecent
  {
    PlannedSpan(p, s);
  }

  // ---------------------------------------------------------------- every run

  /** Successive summaries: the first begins at 1, each next where the previous ended, `from` stays. */
  ghost predicate Tiled(summaries: seq<Summary>) {
    summaries == [] ||
    var last, front := summaries[|summaries| - 1], summaries[..|summaries| - 1];
    && Tiled(front) && last.from == 1
    && last.first == (if front == [] then 0 else front[|front| - 1].to) + 1 && last.first <= last.to
  }

  /** In a tiling the last row is the latest, and its id is new. */
  lemma {:induction false} TiledLatest(summaries: seq<Summary>)
    requires Tiled(summaries)
    ensures Watermark(summaries) == if summaries == [] then 0 else summaries[|summaries| - 1].to
    ensures Latest(summaries) == if summaries == [] then None else Some(summaries[|summaries| - 1])
  {
    if summaries != [] { TiledLatest(summaries[..|summaries| - 1]); }
  }

  lemma {:induction false} TiledIds(summaries: seq<Summary>, first: nat, to: nat)
    requires Tiled(summaries) && HasId(summaries, first, to)
    ensures to <= summaries[|summaries| - 1].to
  {
    if !(summaries[|summaries| - 1].first == first && summaries[|summaries| - 1].to == to) {
      TiledIds(summaries[..|summaries| - 1], first, to);
    }
  }

  ghost predicate Consistent(s: State) {
    && Tiled(s.summaries) && Watermark(s.summaries) <= |s.rows|
    && (s.flight.Some? ==>
          && s.flight.value.from == 1 && s.flight.value.first == Watermark(s.summaries) + 1
          && s.flight.value.first <= s.flight.value.to <= |s.rows|)
  }

  /** Storing a row that goes on from the watermark. */
  lemma StoredGoesOn(summaries: seq<Summary>, row: Summary)
    requires Tiled(summaries) && row.from == 1 && row.first == Watermark(summaries) + 1 && row.first <= row.to
    ensures Stored(summaries, row) == summaries + [row]
    ensures Tiled(summaries + [row]) && Watermark(summaries + [row]) == row.to
  {
    TiledLatest(summaries);
    if HasId(summaries, row.first, row.to) { TiledIds(summaries, row.first, row.to); }
    TiledGoesOn(summaries, row);
  }

  lemma TiledGoesOn(summaries: seq<Summary>, row: Summary)
    requires Tiled(summaries) && row.from == 1 && row.first <= row.to
    requires row.first == (if summaries == [] then 0 else summaries[|summaries| - 1].to) + 1
    ensures Tiled(summaries + [row]) && Watermark(summaries + [row]) == row.to
  {
    var longer := summaries + [row];
    assert longer[..|longer| - 1] == summaries && longer[|longer| - 1] == row;
    assert Tiled(longer);
    TiledLatest(longer);
  }

  lemma BeginKeeps(p: Policy, s: State)
    requires Consistent(s) && s.flight.None? && Loaded(p, s)
    ensures Consistent(Apply(p, s, Begin))
  {
    TiledLatest(s.summaries);
    if s.summaries != [] { assert s.summaries[|s.summaries| - 1].from == 1; }
    if Planned(p, s).Some? { FlushGoesOnIffLoaded(p, s); }
  }

  lemma StepKeeps(p: Policy, s: State, step: Step)
    requires Consistent(s) && Enabled(s, step) && (step.Begin? ==> Loaded(p, s))
    ensures Consistent(Apply(p, s, step))
    ensures Apply(p, s, step).summaries == s.summaries + if step.Finish? then [s.flight.value] else []
  {
    match step
    case Begin => BeginKeeps(p, s);
    case Finish => StoredGoesOn(s.summaries, s.flight.value);
    case _ =>
  }

  /** Every flush of the run finds a window that reaches back to the watermark. */
  ghost predicate AlwaysLoaded(p: Policy, steps: seq<Step>) {
    steps == [] ||
    (AlwaysLoaded(p, steps[..|steps| - 1]) && (steps[|steps| - 1].Begin? ==> Loaded(p, Run(p, steps[..|steps| - 1]))))
  }

  lemma {:induction false} EveryRunIsConsistent(p: Policy, steps: seq<Step>)
    requires AlwaysLoaded(p, steps)
    ensures Consistent(Run(p, steps))
  {
    if steps != [] {
      var front, step := steps[..|steps| - 1], steps[|steps| - 1];
      EveryRunIsConsistent(p, front);
      if Enabled(Run(p, front), step) { StepKeeps(p, Run(p, front), step); }
    }
  }

  /** The rows of a tiling, by index: begins at 1, no gap, no overlap, ends strictly increase. */
  lemma {:induction false} TiledMeans(summaries: seq<Summary>, i: nat)
    requires Tiled(summaries) && i < |summaries|
    ensures summaries[i].first == (if i == 0 then 1 else summaries[i - 1].to + 1)
    ensures summaries[i].first <= summaries[i].to && summaries[i].from == 1
    ensures i > 0 ==> summaries[i - 1].to < summaries[i].to
    decreases |summaries|
  {
    if i < |summaries| - 1 { TiledMeans(summaries[..|summaries| - 1], i); }
  }

  /** Each position up to the watermark is in the source range of exactly one summary. */
  lemma {:induction false} SummarisedOnce(summaries: seq<Summary>, position: nat)
    requires Tiled(summaries) && 1 <= position <= Watermark(summaries)
    ensures exists i :: 0 <= i < |summaries| && summaries[i].first <= position <= summaries[i].to
    ensures forall i, j | 0 <= i < j < |summaries| ::
      !(summaries[i].first <= position <= summaries[i].to && summaries[j].first <= position <= summaries[j].to)
  {
    TiledLatest(summaries);
    var n := |summaries|;
    var front := summaries[..n - 1];
    TiledLatest(front);
    if position < summaries[n - 1].first {
      SummarisedOnce(front, position);
      var i :| 0 <= i < |front| && front[i].first <= position <= front[i].to;
      assert summaries[i].first <= position <= summaries[i].to;
    }
    forall i, j | 0 <= i < j < n
      ensures !(summaries[i].first <= position <= summaries[i].to && summaries[j].first <= position <= summaries[j].to)
    {
      EndsOrdered(summaries, i, j);
    }
  }

  lemma {:induction false} EndsOrdered(summaries: seq<Summary>, i: nat, j: nat)
    requires Tiled(summaries) && i < j < |summaries|
    ensures summaries[i].to < summaries[j].first
    decreases j
  {
    TiledMeans(summaries, j);
    if i < j - 1 {
      EndsOrdered(summaries, i, j - 1);
      TiledMeans(summaries, j - 1);
    }
  }

  /** A flush that finishes leaves `keepRecent` messages of those it saw unsummarised, plus what arrived
      while its text was written. */
  lemma KeptAfterFlush(p: Policy, s: State, arrivals: seq<string>)
    requires Consistent(s) && s.flight.None? && Loaded(p, s) && Planned(p, s).Some?
    ensures var began := Apply(p, s, Begin);
      var after := Apply(p, began.(rows := began.rows + arrivals), Finish);
      |after.rows| - Watermark(after.summaries) == p.keepRecent + |arrivals|
  {
    var began := Apply(p, s, Begin);
    FlushGoesOnIffLoaded(p, s);
    BeginKeeps(p, s);
    StoredGoesOn(s.summaries, began.flight.value);
  }

  // ---------------------------------------------------------------- what a flush skips

  ghost predicate InNoSummary(summaries: seq<Summary>, position: nat) {
    forall i :: 0 <= i < |summaries| ==> !(summaries[i].first <= position <= summaries[i].to)
  }

  /** A position that no summary has, that none in flight will have, and that lies before what flushes see. */
  ghost predicate Skipped(p: Policy, s: State, position: nat) {
    && InNoSummary(s.summaries, position) && position < Start(p, s)
    && (s.flight.Some? ==> position < s.flight.value.first)
  }

  lemma {:induction false} WatermarkIsGreatest(summaries: seq<Summary>, i: nat)
    requires i < |summaries|
    ensures summaries[i].to <= Watermark(summaries)
    decreases |summaries|
  {
    if i < |summaries| - 1 { WatermarkIsGreatest(summaries[..|summaries| - 1], i); }
  }

  lemma WatermarkGrows(summaries: seq<Summary>, row: Summary)
    ensures Watermark(summaries) <= Watermark(Stored(summaries, row))
  {
    assert (summaries + [row])[..|summaries|] == summaries;
  }

  lemma StepKeepsSkipped(p: Policy, s: State, step: Step, position: nat)
    requires Skipped(p, s, position) && Enabled(s, step)
    ensures Skipped(p, Apply(p, s, step), position)
  {
    match step
    case Begin =>
      PlannedSpan(p, s);
      var seen := Span(Start(p, s), |s.rows|);
      assert Planned(p, s).Some? ==> Planned(p, s).value.first == seen[0] == Start(p, s);
    case Finish =>
      WatermarkGrows(s.summaries, s.flight.value);
      assert Start(p, s) <= Start(p, Apply(p, s, Finish));
    case _ =>
  }

  lemma {:induction false} RunKeepsSkipped(p: Policy, s: State, steps: seq<Step>, position: nat)
    requires Skipped(p, s, position)
    ensures Skipped(p, RunFrom(p, s, steps), position)
  {
    if steps != [] {
      var before, step := RunFrom(p, s, steps[..|steps| - 1]), steps[|steps| - 1];
      RunKeepsSkipped(p, s, steps[..|steps| - 1], position);
      if Enabled(before, step) { StepKeepsSkipped(p, before, step, position); }
    }
  }

  /** What a flush leaves out between the watermark and its first message is the source of no summary, now or
      after any further steps. */
  lemma SkippedForGood(p: Policy, s: State, steps: seq<Step>, position: nat)
    requires s.flight.None? && Planned(p, s).Some?
    requires Watermark(s.summaries) < position < Planned(p, s).value.first
    ensures InNoSummary(RunFrom(p, Apply(p, s, Begin), steps).summaries, position)
  {
    forall i | 0 <= i < |s.summaries| ensures !(s.summaries[i].first <= position <= s.summaries[i].to) {
      WatermarkIsGreatest(s.summaries, i);
    }
    PlannedSpan(p, s);
    RunKeepsSkipped(p, Apply(p, s, Begin), steps, position);
  }

  /** Three messages and a window of two: the first message is skipped. */
  lemma SkippingFlushWitness()
    ensures var p, s := Policy(2, 1, 0), State(["r", "r", "r"], [], None);
      !Loaded(p, s) && Planned(p, s) == Some(Summary(2, 2, 3))
  {
    PlannedSpan(Policy(2, 1, 0), State(["r", "r", "r"], [], None));
  }

  // ---------------------------------------------------------------- what is replayed

  lemma {:induction false} ListRecentHas(rows: seq<string>, run: string, limit: nat, position: nat)
    ensures position in ListRecent(rows, Some(run), limit) ==> 1 <= position <= |rows| && rows[position - 1] != run
    ensures 1 <= position <= |rows| && |rows| < position + limit && rows[position - 1] != run ==>
              position in ListRecent(rows, Some(run), limit)
    decreases |rows|
  {
    if rows != [] && limit > 0 {
      var front := rows[..|rows| - 1];
      ListRecentHas(front, run, limit, position);
      ListRecentHas(front, run, limit - 1, position);
    }
  }

  lemma {:induction false} BeyondHas(positions: seq<nat>, mark: nat, position: nat)
    ensures position in Beyond(positions, mark) <==> position in positions && position > mark
  {
    if positions != [] {
      assert positions == positions[..|positions| - 1] + [positions[|positions| - 1]];
      BeyondHas(positions[..|positions| - 1], mark, position);
    }
  }

  /** No message is both summarised and replayed; and while the window reaches back to the watermark,
      every message of another run is one or the other. */
  lemma SummarisedOrReplayed(p: Policy, steps: seq<Step>, run: string, position: nat)
    requires AlwaysLoaded(p, steps)
    ensures var s := Run(p, steps);
      && (position in Replayed(p, s, run) ==> Watermark(s.summaries) < position <= |s.rows|)
      && (Loaded(p, s) && 1 <= position <= |s.rows| && s.rows[position - 1] != run ==>
            (position <= Watermark(s.summaries) <==> position !in Replayed(p, s, run)))
  {
    EveryRunIsConsistent(p, steps);
    var s := Run(p, steps);
    ListRecentHas(s.rows, run, p.loadLimit, position);
    BeyondHas(ListRecent(s.rows, Some(run), p.loadLimit), Watermark(s.summaries), position);
  }
}
