/**
 The coordinator of one run as the object it is: a queue slot, a single-flight flag and the section
 table, updated in place. Each method is one stretch between two suspensions of `processRun`.
 */
module TraceSectionCoordinator {
  import opened Wrappers
  import opened TraceSections
  import opened TraceSectionSafety
  import opened TraceSectionDrain

  class Coordinator {
    var log: seq<Event>
    var sections: seq<Section>
    var pending: Option<Pending>
    var processing: bool
    var microtasks: nat
    var job: Option<Job>

    ghost function Contents(): State
      reads this
    {
      State(log, sections, pending, processing, microtasks, job)
    }

    constructor ()
      ensures Contents() == Init
    {
      log, sections, pending, processing, microtasks, job := [], [], None, false, 0, None;
    }

    method Observe(e: Event)
      modifies this
      ensures Contents() == TraceSections.Observe(old(Contents()), e)
    {
      log := log + [e];
      match e {
        case Other =>
        case Terminal => Schedule(|log|, true);
        case ContextCompiled(_) =>
          var contextSteps := |Contexts(log, 1, |log|)|;
          if contextSteps >= CONTEXT_STEPS_PER_CHECK && contextSteps % CONTEXT_STEPS_PER_CHECK == 0 {
            Schedule(|log|, false);
          }
      }
    }

    method Schedule(seqNo: nat, force: bool)
      modifies this
      ensures Contents() == TraceSections.Schedule(old(Contents()), seqNo, force)
    {
      var end, forced := seqNo, force;
      if pending.Some? {
        end, forced := Max(pending.value.end, seqNo), pending.value.force || force;
      }
      pending := Some(Pending(end, forced));
      if !processing {
        microtasks := microtasks + 1;
      }
    }

    /** A queued microtask enters `processRun`. */
    method ProcessRun()
      requires microtasks > 0
      modifies this
      ensures Contents() == RunMicrotask(old(Contents()))
    {
      microtasks := microtasks - 1;
      if processing {
        return;
      }
      processing := true;
      ghost var entered := Contents();
      assert entered == old(Contents()).(microtasks := microtasks, processing := true);
      TakeNext();
      assert Contents() == LoopHead(entered);
    }

    method TakeNext()
      modifies this
      ensures Contents() == LoopHead(old(Contents()))
    {
      if pending.None? {
        processing, job := false, None;
        return;
      }
      var taken := pending.value;
      pending := None;
      SummarizeRange(taken);
    }

    /** `summarizeRange` up to the model call. */
    method SummarizeRange(taken: Pending)
      modifies this
      ensures Contents() == Begin(old(Contents()), taken)
    {
      var latest := Latest(sections);
      var start := Covered(sections) + 1;
      if taken.end < start {
        job := Some(Returned(taken, taken.end));
        return;
      }
      var contexts := Contexts(log, start, taken.end);
      var chunked := |contexts| > CONTEXT_STEPS_PER_CHUNK;
      if !chunked && !taken.force {
        job := Some(Returned(taken, taken.end));
        return;
      }
      if |contexts| == 0 && latest.Some? {
        BeginIsLengthened(Contents(), taken);
        sections := Upsert(sections, latest.value.(end := taken.end, status := Completed));
        job := Some(Returned(taken, taken.end));
        return;
      }
      var end := if chunked then contexts[CONTEXT_STEPS_PER_CHUNK] - 1 else taken.end;
      BeginReaches(Contents(), taken, end);
      AwaitSummary(taken, start, end);
    }

    /** The events of the range are there, or it returns what it has got. */
    method AwaitSummary(taken: Pending, start: nat, end: nat)
      requires start == Covered(sections) + 1
      modifies this
      ensures Contents() == Reached(old(Contents()), taken, end)
    {
      if end < start || |log| < start {
        job := Some(Returned(taken, end));
      } else {
        job := Some(Suspended(State(log, sections, pending, processing, microtasks, job), taken, end));
      }
    }

    /** `summarizeRange` after the model call. */
    method StoreSummary(summary: Summary)
      requires job.Some? && job.value.Summarizing?
      modifies this
      ensures Contents() == FinishSummary(old(Contents()), summary)
    {
      var j := job.value;
      var merges := Merges(j, summary);
      if j.latest.Some? && j.latest.value.status.InProgress? && !merges {
        sections := Upsert(sections, j.latest.value.(status := Completed));
      }
      var reached := j.taken.force && j.end == j.taken.end;
      sections := Upsert(sections, Section(
        if merges then j.latest.value.id else j.start,
        summary.phase,
        if merges then j.latest.value.start else j.start,
        j.end,
        if reached then Completed else InProgress,
        summary.title,
        summary.text));
      job := Some(Returned(j.taken, j.end));
    }

    /** `processRun` after the awaited range returned. */
    method GoRound()
      requires job.Some? && job.value.Returned?
      modifies this
      ensures Contents() == Resume(old(Contents()))
    {
      var taken := job.value.taken;
      if job.value.consumed < taken.end {
        var end, forced := taken.end, taken.force;
        if pending.Some? {
          end, forced := Max(taken.end, pending.value.end), taken.force || pending.value.force;
        }
        pending := Some(Pending(end, forced));
      }
      job := None;
      TakeNext();
    }

    /** One step of the worker, whichever is due. */
    method Advance(summarize: (nat, nat) -> Summary)
      requires Safe(Contents()) && (job.Some? || microtasks > 0)
      modifies this
      ensures Safe(Contents()) && log == old(log)
      ensures old(Owes(Contents())) ==> Owes(Contents())
      ensures Less(RankOf(Contents()), old(RankOf(Contents())))
    {
      ghost var before := Contents();
      ghost var step := Microtask;
      if job.Some? && job.value.Summarizing? {
        var summary := summarize(job.value.start, job.value.end);
        step := Summarized(summary);
        StoreSummary(summary);
      } else if job.Some? {
        step := Resumed;
        GoRound();
      } else {
        ProcessRun();
      }
      InternalStepKeeps(before, step);
      assert Contents() == Apply(before, step);
    }

    /** With no further events, the worker empties its queue whatever the summariser answers; if the
        last request came from a terminal event, the closed sections then tile the log up to it. */
    method Drain(summarize: (nat, nat) -> Summary)
      requires Safe(Contents())
      modifies this
      ensures Safe(Contents()) && Drained(Contents()) && microtasks == 0
      ensures log == old(log)
      ensures old(Owes(Contents())) ==>
                && LastTerminal(log) <= Covered(sections) <= LastScheduled(log)
                && TerminalSeals(log, sections)
    {
      ghost var owed := Owes(Contents());
      while job.Some? || microtasks > 0
        invariant Safe(Contents()) && log == old(log)
        invariant owed ==> Owes(Contents())
        decreases RankOf(Contents()).outstanding, RankOf(Contents()).items, RankOf(Contents()).stage,
                  RankOf(Contents()).microtasks
      {
        Advance(summarize);
      }
      assert Drained(Contents());
    }
  }
}
