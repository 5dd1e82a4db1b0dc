/**
 What every run of the trace-section worker keeps, whatever the summaries say and however events
 fall between its steps.
 */
module TraceSectionSafety {
  import opened Wrappers
  import opened TraceSections

  ghost predicate AllCompleted(sections: seq<Section>) {
    forall i :: 0 <= i < |sections| ==> sections[i].status == Completed
  }

  /** The sections cut 1..Covered into consecutive intervals, all closed but possibly the last. */
  ghost predicate Tiled(sections: seq<Section>) {
    sections == [] ||
    var earlier, last := sections[..|sections| - 1], sections[|sections| - 1];
    && Tiled(earlier) && AllCompleted(earlier)
    && last.id == last.start == Covered(earlier) + 1 <= last.end
  }

  ghost predicate WithinLimit(log: seq<Event>, sections: seq<Section>) {
    forall i :: 0 <= i < |sections| ==>
      |Contexts(log, sections[i].start, sections[i].end)| <= CONTEXT_STEPS_PER_SECTION
  }

  /** The locals of a suspended `summarizeRange` still describe the stores. */
  ghost predicate JobConsistent(s: State) {
    s.job.Some? ==>
      var j := s.job.value;
      && 1 <= j.taken.end <= |s.log|
      && match j
         case Returned(taken, consumed) =>
           consumed <= taken.end && (consumed < taken.end ==> consumed == Covered(s.sections))
         case Summarizing(taken, start, end, latest, candidates, latestContexts) =>
           && latest == Latest(s.sections)
           && start == Covered(s.sections) + 1 <= end <= taken.end
           && candidates == |Contexts(s.log, start, end)| <= CONTEXT_STEPS_PER_CHUNK
           && latestContexts == (if latest.None? then 0 else |Contexts(s.log, latest.value.start, latest.value.end)|)
  }

  /** A queued range is always owned: the worker is running or a microtask will start it. */
  ghost predicate Owned(s: State) {
    && (s.processing <==> s.job.Some?)
    && (s.pending.Some? ==> s.processing || s.microtasks > 0)
  }

  ghost predicate Safe(s: State) {
    && Tiled(s.sections)
    && WithinLimit(s.log, s.sections)
    && Covered(s.sections) <= |s.log|
    && (s.pending.Some? ==> 1 <= s.pending.value.end <= |s.log|)
    && JobConsistent(s)
    && Owned(s)
  }

  // ---------------------------------------------------------------- contexts of a range

  lemma {:induction false} ContextsSplit(log: seq<Event>, lo: nat, mid: nat, hi: nat)
    requires lo <= mid + 1 && mid <= hi
    ensures Contexts(log, lo, hi) == Contexts(log, lo, mid) + Contexts(log, mid + 1, hi)
  {
    if mid == hi {
      assert Contexts(log, mid + 1, hi) == [];
    } else {
      ContextsSplit(log, lo, mid, hi - 1);
    }
  }

  lemma {:induction false} ContextsOfExtension(log: seq<Event>, more: seq<Event>, lo: nat, hi: nat)
    requires hi <= |log|
    ensures Contexts(log + more, lo, hi) == Contexts(log, lo, hi)
  {
    if lo <= hi && hi != 0 {
      ContextsOfExtension(log, more, lo, hi - 1);
    }
  }

  /** The range up to, not including, its k-th checkpoint holds exactly k of them. */
  lemma {:induction false} ContextsBefore(log: seq<Event>, lo: nat, hi: nat, k: nat)
    requires k < |Contexts(log, lo, hi)|
    ensures Contexts(log, lo, Contexts(log, lo, hi)[k] - 1) == Contexts(log, lo, hi)[..k]
  {
    var shorter := Contexts(log, lo, hi - 1);
    if k < |shorter| {
      ContextsBefore(log, lo, hi - 1, k);
      assert Contexts(log, lo, hi)[..k] == shorter[..k];
    }
  }

  // ---------------------------------------------------------------- the section table

  /** Read forwards: the first section starts at 1, each next one right after its predecessor. */
  lemma {:induction false} TiledForwards(sections: seq<Section>, i: nat)
    requires Tiled(sections) && i < |sections|
    ensures sections[i].start == (if i == 0 then 1 else sections[i - 1].end + 1)
    ensures sections[i].id == sections[i].start <= sections[i].end
    ensures i < |sections| - 1 ==> sections[i].status == Completed
  {
    if i < |sections| - 1 {
      TiledForwards(sections[..|sections| - 1], i);
    }
  }

  lemma {:induction false} TiledOrder(sections: seq<Section>, i: nat, j: nat)
    requires Tiled(sections) && i < j < |sections|
    ensures sections[i].end < sections[j].start
    decreases j
  {
    TiledForwards(sections, j);
    if i < j - 1 {
      TiledForwards(sections, j - 1);
      TiledOrder(sections, i, j - 1);
    }
  }

  lemma StartsBelow(sections: seq<Section>)
    requires Tiled(sections)
    ensures forall i :: 0 <= i < |sections| ==>
        sections[i].id == sections[i].start <= sections[i].end <= Covered(sections)
    ensures forall i :: 0 <= i < |sections| - 1 ==> sections[i].end < sections[|sections| - 1].start
  {
    forall i | 0 <= i < |sections|
      ensures sections[i].id == sections[i].start <= sections[i].end <= Covered(sections)
      ensures i < |sections| - 1 ==> sections[i].end < sections[|sections| - 1].start
    {
      TiledForwards(sections, i);
      if i < |sections| - 1 { TiledOrder(sections, i, |sections| - 1); }
    }
  }

  lemma {:induction false} OverwriteMisses(sections: seq<Section>, row: Section)
    requires forall i :: 0 <= i < |sections| ==> sections[i].id != row.id
    ensures !HasId(sections, row.id) && Overwrite(sections, row) == sections
  {
    if sections != [] {
      OverwriteMisses(sections[..|sections| - 1], row);
    }
  }

  lemma UpsertLatest(sections: seq<Section>, row: Section)
    requires Tiled(sections) && sections != []
    requires row.id == row.start == sections[|sections| - 1].start
    ensures Upsert(sections, row) == sections[..|sections| - 1] + [row]
  {
    StartsBelow(sections);
    OverwriteMisses(sections[..|sections| - 1], row);
  }

  lemma {:induction false} InsertAtEnd(sections: seq<Section>, row: Section)
    requires forall i :: 0 <= i < |sections| ==> sections[i].start < row.start
    ensures InsertByStart(sections, row) == sections + [row]
  {
    if sections != [] {
      InsertAtEnd(sections[1..], row);
    }
  }

  lemma UpsertNext(sections: seq<Section>, row: Section)
    requires Tiled(sections) && row.id == row.start == Covered(sections) + 1
    ensures Upsert(sections, row) == sections + [row]
  {
    StartsBelow(sections);
    OverwriteMisses(sections, row);
    InsertAtEnd(sections, row);
  }

  // ---------------------------------------------------------------- steps

  lemma LoggedSafe(s: State, e: Event)
    requires Safe(s)
    ensures Safe(s.(log := s.log + [e]))
  {
    StartsBelow(s.sections);
    forall i | 0 <= i < |s.sections|
      ensures |Contexts(s.log + [e], s.sections[i].start, s.sections[i].end)| <= CONTEXT_STEPS_PER_SECTION
    {
      ContextsOfExtension(s.log, [e], s.sections[i].start, s.sections[i].end);
    }
    if s.job.Some? && s.job.value.Summarizing? {
      var j := s.job.value;
      ContextsOfExtension(s.log, [e], j.start, j.end);
      if j.latest.Some? {
        ContextsOfExtension(s.log, [e], j.latest.value.start, j.latest.value.end);
      }
    }
  }

  lemma ObserveSafe(s: State, e: Event)
    requires Safe(s)
    ensures Safe(Observe(s, e))
    ensures HistoryKept(s.sections, Observe(s, e).sections)
  {
    var logged := s.(log := s.log + [e]);
    LoggedSafe(s, e);
  }

  /** Sections are only ever added at the end; of the earlier ones just the last may change, and it
      keeps its start and never shrinks. */
  ghost predicate HistoryKept(before: seq<Section>, after: seq<Section>) {
    var n := |before|;
    && n <= |after| <= n + 1
    && (forall i :: 0 <= i < n - 1 ==> after[i] == before[i])
    && (n > 0 ==> after[n - 1].start == before[n - 1].start && after[n - 1].end >= before[n - 1].end)
    && (|after| == n + 1 && n > 0 ==> after[n - 1] == before[n - 1].(status := Completed))
  }

  lemma SuspendSafe(s: State, taken: Pending, end: nat)
    requires Tiled(s.sections) && WithinLimit(s.log, s.sections) && Covered(s.sections) <= |s.log|
    requires 1 <= taken.end <= |s.log| && s.processing && s.pending.None?
    requires Covered(s.sections) < end <= taken.end
    requires |Contexts(s.log, Covered(s.sections) + 1, end)| <= CONTEXT_STEPS_PER_CHUNK
    ensures Safe(s.(job := Some(Suspended(s, taken, end))))
  {
  }

  lemma TiledReplaced(log: seq<Event>, sections: seq<Section>, row: Section)
    requires Tiled(sections) && WithinLimit(log, sections) && sections != []
    requires row.id == row.start == sections[|sections| - 1].start
    requires sections[|sections| - 1].end <= row.end
    requires |Contexts(log, row.start, row.end)| <= CONTEXT_STEPS_PER_SECTION
    ensures var after := sections[..|sections| - 1] + [row];
            Tiled(after) && WithinLimit(log, after) && HistoryKept(sections, after)
  {
    var after := sections[..|sections| - 1] + [row];
    assert after[..|after| - 1] == sections[..|sections| - 1];
  }

  lemma TiledAppended(log: seq<Event>, sections: seq<Section>, row: Section)
    requires Tiled(sections) && WithinLimit(log, sections) && AllCompleted(sections)
    requires row.id == row.start == Covered(sections) + 1 <= row.end
    requires |Contexts(log, row.start, row.end)| <= CONTEXT_STEPS_PER_SECTION
    ensures Tiled(sections + [row]) && WithinLimit(log, sections + [row])
  {
    assert (sections + [row])[..|sections|] == sections;
  }

  lemma ReplaceLast(log: seq<Event>, sections: seq<Section>, row: Section)
    requires Tiled(sections) && WithinLimit(log, sections) && sections != []
    requires row.id == row.start == sections[|sections| - 1].start
    requires sections[|sections| - 1].end <= row.end
    requires |Contexts(log, row.start, row.end)| <= CONTEXT_STEPS_PER_SECTION
    ensures Upsert(sections, row) == sections[..|sections| - 1] + [row]
    ensures Tiled(Upsert(sections, row)) && WithinLimit(log, Upsert(sections, row))
    ensures HistoryKept(sections, Upsert(sections, row))
  {
    UpsertLatest(sections, row);
    TiledReplaced(log, sections, row);
  }

  lemma AppendNext(log: seq<Event>, sections: seq<Section>, row: Section)
    requires Tiled(sections) && WithinLimit(log, sections) && AllCompleted(sections)
    requires row.id == row.start == Covered(sections) + 1 <= row.end
    requires |Contexts(log, row.start, row.end)| <= CONTEXT_STEPS_PER_SECTION
    ensures Upsert(sections, row) == sections + [row]
    ensures Tiled(Upsert(sections, row)) && WithinLimit(log, Upsert(sections, row))
  {
    UpsertNext(sections, row);
    TiledAppended(log, sections, row);
  }

  /** The forced stretch without a new context step only lengthens the last section. */
  lemma LengthenSafe(s: State, end: nat)
    requires Tiled(s.sections) && WithinLimit(s.log, s.sections) && s.sections != []
    requires Covered(s.sections) < end && Contexts(s.log, Covered(s.sections) + 1, end) == []
    ensures var last := s.sections[|s.sections| - 1].(end := end, status := Completed);
            Upsert(s.sections, last) == s.sections[..|s.sections| - 1] + [last]
    ensures var longer := Upsert(s.sections, s.sections[|s.sections| - 1].(end := end, status := Completed));
            && Tiled(longer) && WithinLimit(s.log, longer) && Covered(longer) == end
            && HistoryKept(s.sections, longer)
  {
    var last := s.sections[|s.sections| - 1];
    ContextsSplit(s.log, last.start, last.end, end);
    ReplaceLast(s.log, s.sections, last.(end := end, status := Completed));
  }

  /** A forced range that only lengthened the last section closed it at its end. */
  ghost predicate SealedAt(sections: seq<Section>, taken: Pending) {
    && taken.force && sections != []
    && sections[|sections| - 1].end == taken.end
    && sections[|sections| - 1].status == Completed
  }

  ghost predicate BetweenRanges(s: State, taken: Pending) {
    && Tiled(s.sections) && WithinLimit(s.log, s.sections) && Covered(s.sections) <= |s.log|
    && 1 <= taken.end <= |s.log| && s.processing && s.pending.None?
  }

  ghost predicate BegunSafely(s: State, taken: Pending, after: State) {
    && Safe(after)
    && after.job.Some? && after.job.value.taken == taken
    && (after.job.value.Returned? ==> after.job.value.consumed == taken.end)
    && (after.job.value.Returned? && taken.force ==> taken.end <= Covered(after.sections))
    && (after.sections == s.sections || SealedAt(after.sections, taken))
    && HistoryKept(s.sections, after.sections)
  }

  function Candidates(s: State, taken: Pending): seq<nat> {
    Contexts(s.log, Covered(s.sections) + 1, taken.end)
  }

  lemma BeginReturns(s: State, taken: Pending)
    requires BetweenRanges(s, taken)
    requires taken.end <= Covered(s.sections) || (|Candidates(s, taken)| <= CONTEXT_STEPS_PER_CHUNK && !taken.force)
    ensures BegunSafely(s, taken, Begin(s, taken))
  {
  }

  lemma BeginLengthens(s: State, taken: Pending)
    requires BetweenRanges(s, taken)
    requires Covered(s.sections) < taken.end && taken.force && |Candidates(s, taken)| == 0 && s.sections != []
    ensures BegunSafely(s, taken, Begin(s, taken))
  {
    var longer := Upsert(s.sections, s.sections[|s.sections| - 1].(end := taken.end, status := Completed));
    LengthenSafe(s, taken.end);
    BeginIsLengthened(s, taken);
    LengthenedSafe(s, taken, longer);
  }

  lemma BeginIsLengthened(s: State, taken: Pending)
    requires Covered(s.sections) < taken.end && taken.force && |Candidates(s, taken)| == 0 && s.sections != []
    ensures var longer := Upsert(s.sections, s.sections[|s.sections| - 1].(end := taken.end, status := Completed));
      Begin(s, taken) == s.(sections := longer, job := Some(Returned(taken, taken.end)))
  {
  }

  /** A range returns with longer sections that are closed at its end. */
  lemma LengthenedSafe(s: State, taken: Pending, longer: seq<Section>)
    requires BetweenRanges(s, taken) && taken.force
    requires Tiled(longer) && WithinLimit(s.log, longer) && HistoryKept(s.sections, longer)
    requires SealedAt(longer, taken)
    ensures BegunSafely(s, taken, s.(sections := longer, job := Some(Returned(taken, taken.end))))
  {
  }

  lemma BeginSuspends(s: State, taken: Pending)
    requires BetweenRanges(s, taken) && Covered(s.sections) < taken.end
    requires |Candidates(s, taken)| > CONTEXT_STEPS_PER_CHUNK ||
             (taken.force && (|Candidates(s, taken)| != 0 || s.sections == []))
    ensures BegunSafely(s, taken, Begin(s, taken))
  {
    var chunked := |Candidates(s, taken)| > CONTEXT_STEPS_PER_CHUNK;
    var end := if chunked then Candidates(s, taken)[CONTEXT_STEPS_PER_CHUNK] - 1 else taken.end;
    if chunked { ChunkEnds(s, taken); }
    BeginReaches(s, taken, end);
    SuspendSafe(s, taken, end);
  }

  /** A chunk has as many context steps as fit, and so is not empty. */
  lemma ChunkEnds(s: State, taken: Pending)
    requires |Candidates(s, taken)| > CONTEXT_STEPS_PER_CHUNK
    ensures var end := Candidates(s, taken)[CONTEXT_STEPS_PER_CHUNK] - 1;
      && Covered(s.sections) < end < taken.end
      && |Contexts(s.log, Covered(s.sections) + 1, end)| == CONTEXT_STEPS_PER_CHUNK
  {
    ContextsBefore(s.log, Covered(s.sections) + 1, taken.end, CONTEXT_STEPS_PER_CHUNK);
  }

  lemma BeginReaches(s: State, taken: Pending, end: nat)
    requires Covered(s.sections) < taken.end
    requires |Candidates(s, taken)| > CONTEXT_STEPS_PER_CHUNK ||
             (taken.force && (|Candidates(s, taken)| != 0 || s.sections == []))
    requires end == if |Candidates(s, taken)| > CONTEXT_STEPS_PER_CHUNK
                    then Candidates(s, taken)[CONTEXT_STEPS_PER_CHUNK] - 1 else taken.end
    ensures Begin(s, taken) == Reached(s, taken, end)
  {
  }

  lemma BeginSafe(s: State, taken: Pending)
    requires BetweenRanges(s, taken)
    ensures BegunSafely(s, taken, Begin(s, taken))
  {
    var n := |Candidates(s, taken)|;
    if taken.end <= Covered(s.sections) || (n <= CONTEXT_STEPS_PER_CHUNK && !taken.force) {
      BeginReturns(s, taken);
    } else if n == 0 && s.sections != [] {
      BeginLengthens(s, taken);
    } else {
      BeginSuspends(s, taken);
    }
  }

  lemma LoopHeadSafe(s: State)
    requires Tiled(s.sections) && WithinLimit(s.log, s.sections) && Covered(s.sections) <= |s.log|
    requires s.pending.Some? ==> 1 <= s.pending.value.end <= |s.log|
    requires s.processing && s.job.None?
    ensures Safe(LoopHead(s))
    ensures HistoryKept(s.sections, LoopHead(s).sections)
  {
    if s.pending.Some? {
      BeginSafe(s.(pending := None), s.pending.value);
    }
  }

  lemma MergingWrites(s: State, summary: Summary)
    requires Safe(s) && s.job.Some? && s.job.value.Summarizing? && Merges(s.job.value, summary)
    ensures var row := FinalRow(s.job.value, summary);
            && FinishSummary(s, summary).sections == s.sections[..|s.sections| - 1] + [row]
            && Tiled(FinishSummary(s, summary).sections)
            && WithinLimit(s.log, FinishSummary(s, summary).sections)
  {
    var j := s.job.value;
    ContextsSplit(s.log, j.latest.value.start, j.latest.value.end, j.end);
    ReplaceLast(s.log, s.sections, FinalRow(j, summary));
  }

  /** Closing the previous section alone keeps the tiling: only its status can change. */
  lemma ClosingKeeps(s: State, summary: Summary)
    requires Safe(s) && s.job.Some? && s.job.value.Summarizing?
    ensures var sections := ClosePrevious(s.sections, s.job.value, summary);
      && Tiled(sections) && WithinLimit(s.log, sections) && HistoryKept(s.sections, sections)
      && |sections| == |s.sections| && Covered(sections) == Covered(s.sections)
      && (sections == s.sections || (sections != [] && sections[|sections| - 1].status == Completed))
      && (!Merges(s.job.value, summary) && sections != [] ==>
            sections[|sections| - 1] == s.sections[|sections| - 1].(status := Completed))
  {
    var j := s.job.value;
    if j.latest.Some? && j.latest.value.status.InProgress? {
      ReplaceLast(s.log, s.sections, j.latest.value.(status := Completed));
    }
  }

  /** A closed table goes on: what was kept before is kept with a row more. */
  lemma KeptWithNext(before: seq<Section>, closed: seq<Section>, row: Section)
    requires HistoryKept(before, closed) && |closed| == |before|
    requires before != [] ==> closed[|closed| - 1] == before[|before| - 1].(status := Completed)
    ensures HistoryKept(before, closed + [row])
  {
  }

  lemma ClosedAll(sections: seq<Section>)
    requires Tiled(sections) && (sections != [] ==> sections[|sections| - 1].status == Completed)
    ensures AllCompleted(sections)
  {
  }

  lemma AppendingWrites(s: State, summary: Summary)
    requires Safe(s) && s.job.Some? && s.job.value.Summarizing? && !Merges(s.job.value, summary)
    ensures var closed := ClosePrevious(s.sections, s.job.value, summary);
            && HistoryKept(s.sections, FinishSummary(s, summary).sections)
            && FinishSummary(s, summary).sections == closed + [FinalRow(s.job.value, summary)]
            && Tiled(FinishSummary(s, summary).sections)
            && WithinLimit(s.log, FinishSummary(s, summary).sections)
  {
    var closed, row := ClosePrevious(s.sections, s.job.value, summary), FinalRow(s.job.value, summary);
    ClosingKeeps(s, summary);
    ClosedAll(closed);
    AppendNext(s.log, closed, row);
    KeptWithNext(s.sections, closed, row);
  }

  /** Merged or appended, the row written last ends where the job ends, under the summary's phase. */
  lemma FinishSummaryWrites(s: State, summary: Summary)
    requires Safe(s) && s.job.Some? && s.job.value.Summarizing?
    ensures var after := FinishSummary(s, summary).sections;
            && Tiled(after) && WithinLimit(s.log, after)
            && after != [] && after[|after| - 1] == FinalRow(s.job.value, summary)
            && HistoryKept(s.sections, after)
  {
    if Merges(s.job.value, summary) {
      MergingWrites(s, summary);
    } else {
      AppendingWrites(s, summary);
    }
  }

  lemma FinishSummarySafe(s: State, summary: Summary)
    requires Safe(s) && s.job.Some? && s.job.value.Summarizing?
    ensures Safe(FinishSummary(s, summary))
    ensures HistoryKept(s.sections, FinishSummary(s, summary).sections)
  {
    FinishSummaryWrites(s, summary);
  }

  lemma ResumeSafe(s: State)
    requires Safe(s) && s.job.Some? && s.job.value.Returned?
    ensures Safe(Resume(s))
    ensures HistoryKept(s.sections, Resume(s).sections)
  {
    LoopHeadSafe(s.(pending := Requeued(s), job := None));
  }

  lemma StartSafe(s: State)
    requires Safe(s.(microtasks := s.microtasks + 1)) && !s.processing
    ensures Safe(LoopHead(s.(processing := true)))
    ensures HistoryKept(s.sections, LoopHead(s.(processing := true)).sections)
  {
    LoopHeadSafe(s.(processing := true));
  }

  lemma MicrotaskSafe(s: State)
    requires Safe(s) && s.microtasks > 0
    ensures Safe(RunMicrotask(s))
    ensures HistoryKept(s.sections, RunMicrotask(s).sections)
  {
    if !s.processing {
      StartSafe(s.(microtasks := s.microtasks - 1));
    }
  }

  lemma HalfWrittenSafe(s: State, summary: Summary)
    requires Safe(s) && s.job.Some? && s.job.value.Summarizing?
    ensures Safe(CrashBetweenWrites(s, summary)) && HistoryKept(s.sections, CrashBetweenWrites(s, summary).sections)
  {
    ClosingKeeps(s, summary);
  }

  lemma StepSafe(s: State, step: Step)
    requires Safe(s) && Enabled(s, step)
    ensures Safe(Apply(s, step))
    ensures HistoryKept(s.sections, Apply(s, step).sections)
  {
    match step
    case Observed(e) => ObserveSafe(s, e);
    case Microtask => MicrotaskSafe(s);
    case Summarized(summary) => FinishSummarySafe(s, summary);
    case Resumed => ResumeSafe(s);
    case HalfWritten(summary) => HalfWrittenSafe(s, summary);
    case _ =>
  }

  /** Safety over whole runs, store failures included. */
  lemma {:induction false} EveryRunIsSafe(steps: seq<Step>)
    ensures Safe(Run(steps))
  {
    if steps != [] {
      var before := steps[..|steps| - 1];
      EveryRunIsSafe(before);
      var step := steps[|steps| - 1];
      if Enabled(Run(before), step) { StepSafe(Run(before), step); }
    }
  }

  /** In a tiling, every event number that is covered lies in exactly one section. */
  lemma {:induction false} ExactlyOneSection(sections: seq<Section>, seqNo: nat)
    requires Tiled(sections) && 1 <= seqNo <= Covered(sections)
    ensures exists i :: 0 <= i < |sections| && sections[i].start <= seqNo <= sections[i].end
    ensures forall i, j | 0 <= i < j < |sections| ::
              !(sections[i].start <= seqNo <= sections[i].end && sections[j].start <= seqNo <= sections[j].end)
  {
    forall i, j | 0 <= i < j < |sections|
      ensures !(sections[i].start <= seqNo <= sections[i].end && sections[j].start <= seqNo <= sections[j].end)
    {
      TiledOrder(sections, i, j);
    }
    var n := |sections|;
    if seqNo < sections[n - 1].start {
      var front := sections[..n - 1];
      ExactlyOneSection(front, seqNo);
      var i :| 0 <= i < |front| && front[i].start <= seqNo <= front[i].end;
      assert sections[i].start <= seqNo <= sections[i].end;
    }
  }
}
