/**
 The trace-section worker of one run as a state machine: the run log grows while the worker,
 between two `await`s, cuts it into summarised sections.

 Every function below is one uninterrupted stretch of the worker's code; the class in
 TraceSectionCoordinator.dfy executes the same stretches on fields.
 */
module TraceSections {
  import opened Wrappers

  const CONTEXT_STEPS_PER_CHECK := 3
  const CONTEXT_STEPS_PER_CHUNK := 3
  const CONTEXT_STEPS_PER_SECTION := 16

  /** What a persisted event means to the worker. A compiled context leaves a checkpoint only
      when its package snapshot is known, which `checkpointed` records. */
  datatype Event = ContextCompiled(checkpointed: bool) | Terminal | Other

  datatype Pending = Pending(end: nat, force: bool)

  datatype Status = InProgress | Completed

  /** `id` stands for `trace-section:<run>:<id>`. */
  datatype Section = Section(id: nat, phase: string, start: nat, end: nat, status: Status, title: string, text: string)

  datatype Summary = Summary(phase: string, title: string, text: string)

  /** Where `processRun` is suspended: inside the model call of `summarizeRange`, with the locals
      it will need again, or on the returned value. */
  datatype Job =
    | Summarizing(taken: Pending, start: nat, end: nat, latest: Option<Section>, candidates: nat, latestContexts: nat)
    | Returned(taken: Pending, consumed: nat)

  datatype State = State(
    log: seq<Event>,
    sections: seq<Section>,
    pending: Option<Pending>,
    processing: bool,
    microtasks: nat,
    job: Option<Job>)

  // ---------------------------------------------------------------- the stores

  function Max(a: nat, b: nat): nat {
    if a < b then b else a
  }

  predicate IsCheckpoint(log: seq<Event>, seqNo: nat) {
    1 <= seqNo <= |log| && log[seqNo - 1] == ContextCompiled(true)
  }

  /** Event numbers of the context checkpoints between `lo` and `hi`, ascending. */
  function Contexts(log: seq<Event>, lo: nat, hi: nat): (found: seq<nat>)
    ensures forall i :: 0 <= i < |found| ==> 1 <= found[i] && lo <= found[i] <= hi
  {
    if hi < lo || hi == 0 then []
    else Contexts(log, lo, hi - 1) + (if IsCheckpoint(log, hi) then [hi] else [])
  }

  /** Rows come back ordered by their start. */
  function InsertByStart(sections: seq<Section>, row: Section): seq<Section> {
    if sections == [] then [row]
    else if row.start < sections[0].start then [row] + sections
    else [sections[0]] + InsertByStart(sections[1..], row)
  }

  predicate HasId(sections: seq<Section>, id: nat) {
    sections != [] && (sections[|sections| - 1].id == id || HasId(sections[..|sections| - 1], id))
  }

  /** A stored start is never rewritten. */
  function Overwrite(sections: seq<Section>, row: Section): seq<Section> {
    if sections == [] then []
    else
      var last := sections[|sections| - 1];
      Overwrite(sections[..|sections| - 1], row) + [if last.id == row.id then row.(start := last.start) else last]
  }

  function Upsert(sections: seq<Section>, row: Section): seq<Section> {
    if HasId(sections, row.id) then Overwrite(sections, row) else InsertByStart(sections, row)
  }

  function Latest(sections: seq<Section>): Option<Section> {
    if sections == [] then None else Some(sections[|sections| - 1])
  }

  function Covered(sections: seq<Section>): nat {
    if sections == [] then 0 else sections[|sections| - 1].end
  }

  // ---------------------------------------------------------------- the worker's stretches

  function Schedule(s: State, seqNo: nat, force: bool): State {
    var merged := match s.pending
      case None => Pending(seqNo, force)
      case Some(p) => Pending(Max(p.end, seqNo), p.force || force);
    s.(pending := Some(merged), microtasks := if s.processing then s.microtasks else s.microtasks + 1)
  }

  /** Does the event at this number ask for a summary? A context step does at every third
      checkpoint, a terminal event always. */
  predicate Schedules(log: seq<Event>, seqNo: nat)
    requires 1 <= seqNo <= |log|
  {
    match log[seqNo - 1]
    case Terminal => true
    case Other => false
    case ContextCompiled(_) =>
      var n := |Contexts(log, 1, seqNo)|;
      n >= CONTEXT_STEPS_PER_CHECK && n % CONTEXT_STEPS_PER_CHECK == 0
  }

  function Observe(s: State, e: Event): State {
    var logged := s.(log := s.log + [e]);
    if Schedules(logged.log, |logged.log|) then Schedule(logged, |logged.log|, e.Terminal?) else logged
  }

  /** `summarizeRange` up to its `await`: what was taken from the queue either returns at once or
      waits for a summary. */
  function Begin(s: State, taken: Pending): State {
    var latest := Latest(s.sections);
    var start := Covered(s.sections) + 1;
    var contexts := Contexts(s.log, start, taken.end);
    var chunked := |contexts| > CONTEXT_STEPS_PER_CHUNK;
    var end := if chunked then contexts[CONTEXT_STEPS_PER_CHUNK] - 1 else taken.end;
    if taken.end < start then s.(job := Some(Returned(taken, taken.end)))
    else if !chunked && !taken.force then s.(job := Some(Returned(taken, taken.end)))
    else if |contexts| == 0 && latest.Some? then
      s.(sections := Upsert(s.sections, latest.value.(end := taken.end, status := Completed)),
         job := Some(Returned(taken, taken.end)))
    else Reached(s, taken, end)
  }

  /** The part of the range to summarise is known; it returns at once when it holds no event. */
  function Reached(s: State, taken: Pending, end: nat): State {
    var start := Covered(s.sections) + 1;
    if end < start || |s.log| < start then s.(job := Some(Returned(taken, end)))
    else s.(job := Some(Suspended(s, taken, end)))
  }

  /** The locals that survive the `await`. */
  function Suspended(s: State, taken: Pending, end: nat): Job {
    var latest := Latest(s.sections);
    var start := Covered(s.sections) + 1;
    var latestContexts := if latest.None? then 0 else |Contexts(s.log, latest.value.start, latest.value.end)|;
    Summarizing(taken, start, end, latest, |Contexts(s.log, start, end)|, latestContexts)
  }

  /** The head of the `while (true)` loop: take what is queued, or leave. */
  function LoopHead(s: State): State {
    match s.pending
    case None => s.(processing := false, job := None)
    case Some(p) => Begin(s.(pending := None), p)
  }

  function RunMicrotask(s: State): State
    requires s.microtasks > 0
  {
    var popped := s.(microtasks := s.microtasks - 1);
    if popped.processing then popped else LoopHead(popped.(processing := true))
  }

  /** The summary continues the latest phase and the merged section stays small enough. */
  predicate Merges(j: Job, summary: Summary)
    requires j.Summarizing?
  {
    && j.latest.Some?
    && j.latest.value.phase == summary.phase
    && j.latestContexts + j.candidates <= CONTEXT_STEPS_PER_SECTION
  }

  function FinalRow(j: Job, summary: Summary): Section
    requires j.Summarizing?
  {
    var status := if j.taken.force && j.end == j.taken.end then Completed else InProgress;
    var start := if Merges(j, summary) then j.latest.value.start else j.start;
    var id := if Merges(j, summary) then j.latest.value.id else j.start;
    Section(id, summary.phase, start, j.end, status, summary.title, summary.text)
  }

  /** An open section that is not continued is closed first. */
  function ClosePrevious(sections: seq<Section>, j: Job, summary: Summary): seq<Section>
    requires j.Summarizing?
  {
    if j.latest.Some? && j.latest.value.status.InProgress? && !Merges(j, summary)
    then Upsert(sections, j.latest.value.(status := Completed))
    else sections
  }

  /** The rest of `summarizeRange` once the summary (or its fallback) is there. */
  function FinishSummary(s: State, summary: Summary): State
    requires s.job.Some? && s.job.value.Summarizing?
  {
    var j := s.job.value;
    s.(sections := Upsert(ClosePrevious(s.sections, j, summary), FinalRow(j, summary)),
       job := Some(Returned(j.taken, j.end)))
  }

  /** `processRun` after its `await`: requeue what was left over, then go round. */
  function Resume(s: State): State
    requires s.job.Some? && s.job.value.Returned?
  {
    LoopHead(s.(pending := Requeued(s), job := None))
  }

  /** A store error inside the worker: the `finally` block still runs. */
  function Crash(s: State): State
    requires s.job.Some?
  {
    s.(processing := false, job := None, microtasks := if s.pending.Some? then s.microtasks + 1 else s.microtasks)
  }

  /** The same when the range just taken from the queue fails before anything is written for it. */
  function LoseTaken(s: State): State
    requires s.pending.Some?
  {
    s.(pending := None, processing := false, job := None)
  }

  /** The queue after a range returned: what it left over is put back. */
  function Requeued(s: State): Option<Pending>
    requires s.job.Some? && s.job.value.Returned?
  {
    var taken := s.job.value.taken;
    if s.job.value.consumed >= taken.end then s.pending else
      match s.pending
      case None => Some(taken)
      case Some(q) => Some(Pending(Max(taken.end, q.end), taken.force || q.force))
  }

  /** The previous section is closed, and the row of the new one fails to be written. */
  function CrashBetweenWrites(s: State, summary: Summary): State
    requires s.job.Some? && s.job.value.Summarizing?
  {
    Crash(s.(sections := ClosePrevious(s.sections, s.job.value, summary)))
  }

  // ---------------------------------------------------------------- runs

  datatype Step =
    | Observed(e: Event)
    | Microtask
    | Summarized(summary: Summary)
    | Resumed
    | Crashed
    | MicrotaskFailed
    | ResumeFailed
    | HalfWritten(summary: Summary)

  /** The steps in which a store call fails. */
  predicate Fails(step: Step) {
    step.Crashed? || step.MicrotaskFailed? || step.ResumeFailed? || step.HalfWritten?
  }

  predicate Enabled(s: State, step: Step) {
    match step
    case Observed(_) => true
    case Microtask => s.microtasks > 0
    case Summarized(_) => s.job.Some? && s.job.value.Summarizing?
    case Resumed => s.job.Some? && s.job.value.Returned?
    case Crashed => s.job.Some?
    case MicrotaskFailed => s.microtasks > 0 && !s.processing && s.pending.Some?
    case ResumeFailed => s.job.Some? && s.job.value.Returned? && Requeued(s).Some?
    case HalfWritten(summary) => s.job.Some? && s.job.value.Summarizing? && !Merges(s.job.value, summary)
  }

  function Apply(s: State, step: Step): State
    requires Enabled(s, step)
  {
    match step
    case Observed(e) => Observe(s, e)
    case Microtask => RunMicrotask(s)
    case Summarized(summary) => FinishSummary(s, summary)
    case Resumed => Resume(s)
    case Crashed => Crash(s)
    case MicrotaskFailed => LoseTaken(s.(microtasks := s.microtasks - 1))
    case ResumeFailed => LoseTaken(s.(pending := Requeued(s)))
    case HalfWritten(summary) => CrashBetweenWrites(s, summary)
  }

  const Init := State([], [], None, false, 0, None)

  /** Steps that are not enabled when their turn comes are skipped, so every list of steps is a run. */
  function Run(steps: seq<Step>): State {
    if steps == [] then Init
    else
      var s := Run(steps[..|steps| - 1]);
      var step := steps[|steps| - 1];
      if Enabled(s, step) then Apply(s, step) else s
  }
}
