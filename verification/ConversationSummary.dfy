/**
 The running summary of a conversation: a watermark that moves forward while messages keep arriving, and the
 history that is still replayed beyond it.

 Positions count from 1. The text of a summary, which a model writes, does not matter here.
 */
module ConversationSummary {
  import opened Wrappers

  datatype Policy = Policy(loadLimit: nat, trigger: nat, keepRecent: nat)

  /** `first` and `to` make up the row's id; `from` is where the summary as a whole begins. */
  datatype Summary = Summary(first: nat, from: nat, to: nat)

  /** `rows[k]` is the run that wrote the message at position k + 1; `flight` is a summary whose text is
      being written. */
  datatype State = State(rows: seq<string>, summaries: seq<Summary>, flight: Option<Summary>)

  // ---------------------------------------------------------------- queries

  /** The newest `limit` positions that were not written by the excluded run, ascending. */
  function ListRecent(rows: seq<string>, exclude: Option<string>, limit: nat): (r: seq<nat>)
    ensures |r| <= limit
    decreases |rows|
  {
    if rows == [] || limit == 0 then []
    else
      var front := rows[..|rows| - 1];
      if exclude == Some(rows[|rows| - 1]) then ListRecent(front, exclude, limit)
      else ListRecent(front, exclude, limit - 1) + [|rows|]
  }

  /** The row with the greatest end; among equals the newest. */
  function Latest(summaries: seq<Summary>): Option<Summary> {
    if summaries == [] then None
    else
      var last, earlier := summaries[|summaries| - 1], Latest(summaries[..|summaries| - 1]);
      if earlier.Some? && last.to < earlier.value.to then earlier else Some(last)
  }

  function Watermark(summaries: seq<Summary>): nat {
    if Latest(summaries).Some? then Latest(summaries).value.to else 0
  }

  function Beyond(positions: seq<nat>, mark: nat): seq<nat> {
    if positions == [] then []
    else
      var last, front := positions[|positions| - 1], Beyond(positions[..|positions| - 1], mark);
      if last > mark then front + [last] else front
  }

  predicate HasId(summaries: seq<Summary>, first: nat, to: nat) {
    summaries != [] &&
    ((summaries[|summaries| - 1].first == first && summaries[|summaries| - 1].to == to)
     || HasId(summaries[..|summaries| - 1], first, to))
  }

  // ---------------------------------------------------------------- steps

  datatype Step = Append(run: string) | Begin | Finish | Abort

  /** Reads the history and decides what to summarise; the summary's text is still to come. */
  function Planned(p: Policy, s: State): Option<Summary> {
    var latest := Latest(s.summaries);
    var unsummarized := Beyond(ListRecent(s.rows, None, p.loadLimit), Watermark(s.summaries));
    if |unsummarized| < p.trigger || |unsummarized| <= p.keepRecent then None
    else
      var count := |unsummarized| - p.keepRecent;
      var first := unsummarized[0];
      Some(Summary(first, if latest.Some? then latest.value.from else first, unsummarized[count - 1]))
  }

  function Stored(summaries: seq<Summary>, row: Summary): seq<Summary> {
    if HasId(summaries, row.first, row.to) then summaries else summaries + [row]
  }

  predicate Enabled(s: State, step: Step) {
    match step
    case Append(_) => true
    case Begin => s.flight.None?
    case Finish => s.flight.Some?
    case Abort => s.flight.Some?
  }

  function Apply(p: Policy, s: State, step: Step): State
    requires Enabled(s, step)
  {
    match step
    case Append(run) => s.(rows := s.rows + [run])
    case Begin => s.(flight := Planned(p, s))
    case Finish => s.(summaries := Stored(s.summaries, s.flight.value), flight := None)
    case Abort => s.(flight := None)
  }

  function RunFrom(p: Policy, s: State, steps: seq<Step>): State {
    if steps == [] then s
    else
      var before, step := RunFrom(p, s, steps[..|steps| - 1]), steps[|steps| - 1];
      if Enabled(before, step) then Apply(p, before, step) else before
  }

  function Run(p: Policy, steps: seq<Step>): State {
    RunFrom(p, State([], [], None), steps)
  }

  /** What a run replays: recent rows of other runs beyond the watermark. */
  function Replayed(p: Policy, s: State, run: string): seq<nat> {
    Beyond(ListRecent(s.rows, Some(run), p.loadLimit), Watermark(s.summaries))
  }

  // ---------------------------------------------------------------- the tables

  class Tables {
    var rows: seq<string>
    var summaries: seq<Summary>

    constructor ()
      ensures rows == [] && summaries == []
    {
      rows, summaries := [], [];
    }

    /** `arrivals` are the messages appended while the text is being written. */
    method CreateAutomaticConversationSummary(p: Policy, arrivals: seq<string>) returns (summary: Option<Summary>)
      modifies this
      ensures rows == old(rows) + arrivals
      ensures summary == Planned(p, State(old(rows), old(summaries), None))
      ensures summaries == if summary.Some? then Stored(old(summaries), summary.value) else old(summaries)
    {
      var latestSummary := Latest(summaries);
      var unsummarized := ListRecent(rows, None, p.loadLimit);
      BeyondNothing(rows, p.loadLimit);
      if latestSummary.Some? {
        unsummarized := Beyond(unsummarized, latestSummary.value.to);
      }
      rows := rows + arrivals;
      if |unsummarized| < p.trigger {
        return None;
      }
      var summarizeCount := |unsummarized| - p.keepRecent;
      if summarizeCount <= 0 {
        return None;
      }
      var sourceMessages := unsummarized[..summarizeCount];
      var first, last := sourceMessages[0], sourceMessages[|sourceMessages| - 1];
      var row := Summary(first, if latestSummary.Some? then latestSummary.value.from else first, last);
      if !HasId(summaries, row.first, row.to) {
        summaries := summaries + [row];
      }
      summary := Some(row);
    }
  }

  /** Positions count from 1, so nothing lies at or below 0. */
  lemma {:induction false} BeyondNothing(rows: seq<string>, limit: nat)
    ensures Beyond(ListRecent(rows, None, limit), 0) == ListRecent(rows, None, limit)
    decreases |rows|
  {
    if rows != [] && limit > 0 {
      var r := ListRecent(rows, None, limit);
      BeyondNothing(rows[..|rows| - 1], limit - 1);
      assert r[..|r| - 1] == ListRecent(rows[..|rows| - 1], None, limit - 1);
    }
  }
}
