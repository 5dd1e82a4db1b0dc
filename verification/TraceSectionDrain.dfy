/**
 No lost wake-ups and a complete drain: what the queue of the trace-section worker owes to the
 terminal event of a run, and why the worker always gets there.
 */
module TraceSectionDrain {
  import opened Wrappers
  import opened TraceSections
  import opened TraceSectionSafety

  /** Number of the last event that asked for a summary, 0 when none did. */
  function LastScheduled(log: seq<Event>): (n: nat)
    ensures n <= |log|
  {
    if log == [] then 0
    else if Schedules(log, |log|) then |log|
    else LastScheduled(log[..|log| - 1])
  }

  /** Number of the last terminal event, 0 when there is none. */
  function LastTerminal(log: seq<Event>): (n: nat)
    ensures n <= LastScheduled(log)
    ensures n > 0 ==> log[n - 1] == Terminal
  {
    if log == [] then 0
    else if log[|log| - 1] == Terminal then |log|
    else LastTerminal(log[..|log| - 1])
  }

  predicate JobLive(s: State) {
    s.job.Some? && (s.job.value.Summarizing? || s.job.value.consumed < s.job.value.taken.end)
  }

  /** Someone still carries the forced range up to `t`, or it is covered. */
  ghost predicate Carried(s: State, t: nat) {
    || (s.pending.Some? && s.pending.value.force && t <= s.pending.value.end)
    || (JobLive(s) && s.job.value.taken.force && t <= s.job.value.taken.end)
    || t <= Covered(s.sections)
  }

  ghost predicate RangeInBounds(log: seq<Event>, p: Pending) {
    p.end <= LastScheduled(log) && (p.end == LastTerminal(log) ==> p.force)
  }

  ghost predicate TerminalSeals(log: seq<Event>, sections: seq<Section>) {
    (sections != [] && LastTerminal(log) == LastScheduled(log) == Covered(sections)) ==>
      sections[|sections| - 1].status == Completed
  }

  /** What holds of the ranges and rows whatever fails. */
  ghost predicate Bounded(s: State) {
    && (s.pending.Some? ==> RangeInBounds(s.log, s.pending.value))
    && (s.job.Some? ==> RangeInBounds(s.log, s.job.value.taken))
    && Covered(s.sections) <= LastScheduled(s.log)
    && TerminalSeals(s.log, s.sections)
  }

  ghost predicate Owes(s: State) {
    Carried(s, LastTerminal(s.log)) && Bounded(s)
  }

  /** The bounds are kept, and so is the debt if there is one. */
  ghost predicate DebtKept(s: State, after: State) {
    Bounded(after) && (Owes(s) ==> Owes(after))
  }

  predicate Drained(s: State) {
    s.pending.None? && s.job.None?
  }

  // ---------------------------------------------------------------- the debt is kept

  lemma ObserveOwes(s: State, e: Event)
    requires Safe(s) && Bounded(s)
    ensures DebtKept(s, Observe(s, e))
    ensures e.Terminal? ==> Owes(Observe(s, e))
  {
    LastOfExtension(s.log, e);
    var longer := s.log + [e];
    if Schedules(longer, |longer|) {
      ScheduledOwes(s, e);
    } else {
      UnscheduledOwes(s, e);
    }
  }

  lemma UnscheduledOwes(s: State, e: Event)
    requires Bounded(s) && !Schedules(s.log + [e], |s.log| + 1)
    ensures DebtKept(s, s.(log := s.log + [e]))
  {
    LastOfExtension(s.log, e);
  }

  /** Scheduling merges the new range in: it ends last, and a terminal event forces it. */
  lemma ScheduledOwes(s: State, e: Event)
    requires Bounded(s) && Schedules(s.log + [e], |s.log| + 1)
    requires s.pending.Some? ==> s.pending.value.end <= |s.log|
    requires Covered(s.sections) <= |s.log|
    ensures var after := Schedule(s.(log := s.log + [e]), |s.log| + 1, e.Terminal?);
      DebtKept(s, after) && (e.Terminal? ==> Owes(after))
  {
    LastOfExtension(s.log, e);
  }

  lemma LastOfExtension(log: seq<Event>, e: Event)
    ensures var longer := log + [e];
      && LastTerminal(longer) == (if e.Terminal? then |log| + 1 else LastTerminal(log))
      && LastScheduled(longer) == (if Schedules(longer, |log| + 1) then |log| + 1 else LastScheduled(log))
  {
    assert (log + [e])[..|log|] == log;
  }

  lemma LoopHeadOwes(s: State)
    requires Tiled(s.sections) && WithinLimit(s.log, s.sections) && Covered(s.sections) <= |s.log|
    requires s.pending.Some? ==> 1 <= s.pending.value.end <= |s.log|
    requires s.processing && s.job.None? && Bounded(s)
    ensures DebtKept(s, LoopHead(s))
  {
    if s.pending.Some? {
      var idle, taken := s.(pending := None), s.pending.value;
      BeginSafe(idle, taken);
      BeginOwes(idle, taken, Begin(idle, taken));
    }
  }

  /** What was taken from the queue is covered when the range returns, or the job holds it. */
  lemma BeginOwes(idle: State, taken: Pending, after: State)
    requires BegunSafely(idle, taken, after) && idle.pending.None? && idle.job.None? && Bounded(idle)
    requires RangeInBounds(idle.log, taken) && after.log == idle.log && after.pending.None?
    ensures DebtKept(idle.(pending := Some(taken)), after)
  {
  }

  lemma FinishSummaryOwes(s: State, summary: Summary)
    requires Safe(s) && Bounded(s) && s.job.Some? && s.job.value.Summarizing?
    ensures DebtKept(s, FinishSummary(s, summary))
  {
    FinishSummaryWrites(s, summary);
  }

  lemma ResumeOwes(s: State)
    requires Safe(s) && Bounded(s) && s.job.Some? && s.job.value.Returned?
    ensures DebtKept(s, Resume(s))
  {
    RequeuedOwes(s);
    LoopHeadOwes(s.(pending := Requeued(s), job := None));
  }

  /** Requeueing loses neither the greatest end nor the force flag. */
  lemma RequeuedOwes(s: State)
    requires Safe(s) && Bounded(s) && s.job.Some? && s.job.value.Returned?
    ensures DebtKept(s, s.(pending := Requeued(s), job := None))
  {
  }

  lemma SameDebt(s: State, t: State)
    requires Bounded(s)
    requires t == s.(microtasks := t.microtasks, processing := t.processing)
    ensures DebtKept(s, t)
  {
  }

  lemma MicrotaskOwes(s: State)
    requires Safe(s) && Bounded(s) && s.microtasks > 0
    ensures DebtKept(s, RunMicrotask(s))
  {
    var popped := s.(microtasks := s.microtasks - 1);
    SameDebt(s, popped);
    if !s.processing {
      SameDebt(popped, popped.(processing := true));
      LoopHeadOwes(popped.(processing := true));
    }
  }

  lemma StepOwes(s: State, step: Step)
    requires Safe(s) && Bounded(s) && Enabled(s, step) && !Fails(step)
    ensures DebtKept(s, Apply(s, step))
  {
    match step
    case Observed(e) => ObserveOwes(s, e);
    case Microtask => MicrotaskOwes(s);
    case Summarized(summary) => FinishSummaryOwes(s, summary);
    case Resumed => ResumeOwes(s);
  }

  /** A failure may lose the debt, never the bounds. */
  lemma FailureBounded(s: State, step: Step)
    requires Safe(s) && Bounded(s) && Enabled(s, step) && Fails(step)
    ensures Bounded(Apply(s, step))
  {
    if step.HalfWritten? { ClosingKeeps(s, step.summary); }
  }

  lemma {:induction false} EveryRunIsBounded(steps: seq<Step>)
    ensures Safe(Run(steps)) && Bounded(Run(steps))
  {
    EveryRunIsSafe(steps);
    if steps != [] {
      var before, step := steps[..|steps| - 1], steps[|steps| - 1];
      EveryRunIsBounded(before);
      if Enabled(Run(before), step) {
        if Fails(step) { FailureBounded(Run(before), step); } else { StepOwes(Run(before), step); }
      }
    }
  }

  /** No store call of the worker fails after the last terminal event, or, when there is none, at all. */
  ghost predicate UndisturbedSinceTerminal(steps: seq<Step>) {
    steps == [] || steps[|steps| - 1] == Observed(Terminal)
    || (!Fails(steps[|steps| - 1]) && UndisturbedSinceTerminal(steps[..|steps| - 1]))
  }

  lemma {:induction false} EveryRunOwes(steps: seq<Step>)
    requires UndisturbedSinceTerminal(steps)
    ensures Safe(Run(steps)) && Owes(Run(steps))
  {
    EveryRunIsSafe(steps);
    if steps != [] {
      var before, step := steps[..|steps| - 1], steps[|steps| - 1];
      EveryRunIsBounded(before);
      if step == Observed(Terminal) {
        ObserveOwes(Run(before), Terminal);
      } else {
        EveryRunOwes(before);
        if Enabled(Run(before), step) { StepOwes(Run(before), step); }
      }
    }
  }

  lemma DrainedStateIsComplete(s: State)
    requires Safe(s) && Owes(s) && Drained(s)
    ensures Covered(s.sections) >= LastTerminal(s.log)
    ensures LastTerminal(s.log) == LastScheduled(s.log) ==>
              && Covered(s.sections) == LastTerminal(s.log)
              && forall i :: 0 <= i < |s.sections| ==> s.sections[i].status == Completed
  {
  }

  /** Once the queue has drained after a terminal event at T that nothing later rescheduled, the
      sections are closed and are exactly a tiling of 1..T. */
  lemma DrainedRunIsComplete(steps: seq<Step>)
    requires UndisturbedSinceTerminal(steps) && Drained(Run(steps))
    ensures Covered(Run(steps).sections) >= LastTerminal(Run(steps).log)
    ensures var s := Run(steps);
            LastTerminal(s.log) == LastScheduled(s.log) ==>
              && Tiled(s.sections)
              && Covered(s.sections) == LastTerminal(s.log)
              && forall i :: 0 <= i < |s.sections| ==> s.sections[i].status == Completed
  {
    EveryRunOwes(steps);
    DrainedStateIsComplete(Run(steps));
  }

  /** ... so every event number up to T belongs to exactly one closed section. */
  lemma EveryEventHasOneSection(steps: seq<Step>, seqNo: nat)
    requires UndisturbedSinceTerminal(steps) && Drained(Run(steps))
    requires 1 <= seqNo <= LastTerminal(Run(steps).log)
    ensures var sections := Run(steps).sections;
            && (exists i :: 0 <= i < |sections| && sections[i].start <= seqNo <= sections[i].end)
            && (forall i, j | 0 <= i < j < |sections| ::
                  !(sections[i].start <= seqNo <= sections[i].end && sections[j].start <= seqNo <= sections[j].end))
  {
    EveryRunOwes(steps);
    ExactlyOneSection(Run(steps).sections, seqNo);
  }

  // ---------------------------------------------------------------- the worker always gets there

  datatype Rank = Rank(outstanding: nat, items: nat, stage: nat, microtasks: nat)

  function Excess(end: nat, covered: nat): nat {
    if end <= covered then 0 else end - covered
  }

  /** How much work is left: uncovered events someone still asks for, then who holds a range, then
      where the worker stands, then idle wake-ups. */
  function RankOf(s: State): Rank {
    var covered := Covered(s.sections);
    var queued := if s.pending.Some? then Excess(s.pending.value.end, covered) else 0;
    var held := if JobLive(s) then Excess(s.job.value.taken.end, covered) else 0;
    Rank(
      Max(queued, held),
      (if s.pending.Some? then 1 else 0) + (if JobLive(s) then 1 else 0),
      if s.job.None? then (if s.pending.None? then 0 else 3) else if s.job.value.Summarizing? then 1 else 2,
      s.microtasks)
  }

  predicate Less(a: Rank, b: Rank) {
    || a.outstanding < b.outstanding
    || (a.outstanding == b.outstanding && a.items < b.items)
    || (a.outstanding == b.outstanding && a.items == b.items && a.stage < b.stage)
    || (a.outstanding == b.outstanding && a.items == b.items && a.stage == b.stage && a.microtasks < b.microtasks)
  }

  predicate Internal(step: Step) {
    step.Microtask? || step.Summarized? || step.Resumed?
  }

  lemma LoopHeadRank(s: State)
    requires Tiled(s.sections) && WithinLimit(s.log, s.sections) && Covered(s.sections) <= |s.log|
    requires s.pending.Some? && 1 <= s.pending.value.end <= |s.log| && s.processing && s.job.None?
    ensures var after := RankOf(LoopHead(s));
            && after.outstanding <= RankOf(s).outstanding
            && (after.items == 0 || (after.items == 1 && after.stage == 1))
            && after.microtasks == s.microtasks
  {
    var taken := s.pending.value;
    var idle := s.(pending := None);
    var start := Covered(s.sections) + 1;
    var contexts := Contexts(s.log, start, taken.end);
    BeginSafe(idle, taken);
  }

  lemma MicrotaskDescends(s: State)
    requires Safe(s) && s.microtasks > 0
    ensures Less(RankOf(RunMicrotask(s)), RankOf(s))
  {
    if !s.processing && s.pending.Some? {
      LoopHeadRank(s.(microtasks := s.microtasks - 1, processing := true));
    }
  }

  lemma ResumeDescends(s: State)
    requires Safe(s) && s.job.Some? && s.job.value.Returned?
    ensures Less(RankOf(Resume(s)), RankOf(s))
  {
    if Requeued(s).Some? {
      LoopHeadRank(s.(pending := Requeued(s), job := None));
    }
  }

  /** Without new events the worker cannot go on for ever: each of its steps lowers the rank. A
      requeue in particular only happens after the covered end has moved up. */
  lemma InternalStepDescends(s: State, step: Step)
    requires Safe(s) && Enabled(s, step) && Internal(step)
    ensures Less(RankOf(Apply(s, step)), RankOf(s))
  {
    match step
    case Microtask => MicrotaskDescends(s);
    case Summarized(summary) => FinishSummaryWrites(s, summary);
    case Resumed => ResumeDescends(s);
  }

  lemma InternalStepKeepsLog(s: State, step: Step)
    requires Enabled(s, step) && Internal(step)
    ensures Apply(s, step).log == s.log
  {
  }

  lemma InternalStepKeeps(s: State, step: Step)
    requires Safe(s) && Enabled(s, step) && Internal(step)
    ensures Safe(Apply(s, step)) && Apply(s, step).log == s.log
    ensures Owes(s) ==> Owes(Apply(s, step))
    ensures Less(RankOf(Apply(s, step)), RankOf(s))
  {
    InternalStepKeepsLog(s, step);
    StepSafe(s, step);
    if Bounded(s) { StepOwes(s, step); }
    InternalStepDescends(s, step);
  }

  /** No lost wake-up: as long as anything is queued or held, the worker has a step to take. */
  lemma NotDrainedMeansEnabled(steps: seq<Step>, summary: Summary)
    requires !Drained(Run(steps))
    ensures Enabled(Run(steps), Microtask) || Enabled(Run(steps), Summarized(summary)) || Enabled(Run(steps), Resumed)
  {
    EveryRunIsSafe(steps);
  }
}
