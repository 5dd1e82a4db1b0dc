/**
 What one step of the trace-section worker does, said on the log and the rows alone: when an event asks for a
 summary, where a range is cut, which section a summary goes into and what is put back into the queue.
 */
module TraceSectionMeaning {
  import opened Wrappers
  import opened TraceSections
  import opened TraceSectionSafety

  ghost predicate CheckpointedAt(log: seq<Event>, n: nat) {
    1 <= n <= |log| && log[n - 1] == ContextCompiled(true)
  }

  /** The numbers of the context checkpoints between `lo` and `hi`. */
  ghost function Checkpoints(log: seq<Event>, lo: nat, hi: nat): set<nat> {
    set n: nat | lo <= n <= hi && CheckpointedAt(log, n)
  }

  lemma {:induction false} ContextListed(log: seq<Event>, lo: nat, hi: nat, n: nat)
    ensures n in Contexts(log, lo, hi) <==> lo <= n <= hi && CheckpointedAt(log, n)
  {
    if lo <= hi && hi != 0 { ContextListed(log, lo, hi - 1, n); }
  }

  lemma {:induction false} ContextsRise(log: seq<Event>, lo: nat, hi: nat)
    ensures Rising(Contexts(log, lo, hi))
  {
    if lo <= hi && hi != 0 {
      ContextsRise(log, lo, hi - 1);
      RisesWith(Contexts(log, lo, hi - 1), hi);
    }
  }

  /** The list of checkpoints is that set, in ascending order. */
  lemma ContextsAre(log: seq<Event>, lo: nat, hi: nat)
    ensures forall n: nat :: n in Contexts(log, lo, hi) <==> lo <= n <= hi && CheckpointedAt(log, n)
    ensures Rising(Contexts(log, lo, hi))
  {
    forall n: nat
      ensures n in Contexts(log, lo, hi) <==> lo <= n <= hi && CheckpointedAt(log, n)
    {
      ContextListed(log, lo, hi, n);
    }
    ContextsRise(log, lo, hi);
  }

  ghost predicate Rising(numbers: seq<nat>) {
    forall i, j | 0 <= i < j < |numbers| :: numbers[i] < numbers[j]
  }

  lemma RisesWith(numbers: seq<nat>, last: nat)
    requires Rising(numbers) && forall i :: 0 <= i < |numbers| ==> numbers[i] < last
    ensures Rising(numbers + [last])
  {
  }

  lemma {:induction false} ContextsCount(log: seq<Event>, lo: nat, hi: nat)
    ensures |Contexts(log, lo, hi)| == |Checkpoints(log, lo, hi)|
  {
    if hi < lo || hi == 0 {
      assert Checkpoints(log, lo, hi) == {};
    } else {
      ContextsCount(log, lo, hi - 1);
      CheckpointsUpTo(log, lo, hi);
    }
  }

  lemma CheckpointsUpTo(log: seq<Event>, lo: nat, hi: nat)
    requires 0 < hi && lo <= hi
    ensures var front := Checkpoints(log, lo, hi - 1);
      hi !in front && Checkpoints(log, lo, hi) == if CheckpointedAt(log, hi) then front + {hi} else front
  {
  }

  ghost predicate ByStart(sections: seq<Section>) {
    forall i, j :: 0 <= i < j < |sections| ==> sections[i].start <= sections[j].start
  }

  /** A new row is listed right behind the rows that start no later. */
  lemma {:induction false} InsertedAt(sections: seq<Section>, row: Section) returns (k: nat)
    requires ByStart(sections)
    ensures k <= |sections| && InsertByStart(sections, row) == sections[..k] + [row] + sections[k..]
    ensures (k > 0 ==> sections[k - 1].start <= row.start) && (k < |sections| ==> row.start < sections[k].start)
  {
    k := 0;
    if sections != [] && row.start >= sections[0].start {
      var later := sections[1..];
      var i := InsertedAt(later, row);
      k := i + 1;
      InsertedShift(sections, row, i);
    }
  }

  lemma InsertedShift(sections: seq<Section>, row: Section, i: nat)
    requires sections != [] && i < |sections|
    ensures [sections[0]] + (sections[1..][..i] + [row] + sections[1..][i..]) ==
              sections[..i + 1] + [row] + sections[i + 1..]
  {
  }

  /** ... so the rows stay in the order of their starts. */
  lemma InsertKeepsOrder(sections: seq<Section>, row: Section)
    requires ByStart(sections)
    ensures ByStart(InsertByStart(sections, row))
  {
    var k := InsertedAt(sections, row);
    OrderedWith(sections, row, k);
  }

  lemma OrderedWith(sections: seq<Section>, row: Section, k: nat)
    requires ByStart(sections) && k <= |sections|
    requires (k > 0 ==> sections[k - 1].start <= row.start) && (k < |sections| ==> row.start < sections[k].start)
    ensures ByStart(sections[..k] + [row] + sections[k..])
  {
    assert forall i :: 0 <= i < k ==> sections[i].start <= row.start;
    assert forall i :: k <= i < |sections| ==> row.start <= sections[i].start;
  }

  // ---------------------------------------------------------------- asking

  /** An event asks for a summary if and only if it ends the run, or compiles a context when the run has a
      positive multiple of three checkpoints; a request reaches up to the event, keeps what was forced and
      wakes the worker when it sleeps. */
  lemma ObserveAsks(s: State, e: Event)
    requires Safe(s)
    ensures var after := Observe(s, e);
      var number, count := |s.log| + 1, |Checkpoints(s.log + [e], 1, |s.log| + 1)|;
      var asks := e.Terminal? || (e.ContextCompiled? && count > 0 && count % 3 == 0);
      var force := e.Terminal? || (s.pending.Some? && s.pending.value.force);
      after == s.(log := s.log + [e],
                  pending := if asks then Some(Pending(number, force)) else s.pending,
                  microtasks := s.microtasks + if asks && !s.processing then 1 else 0)
  {
    ContextsCount(s.log + [e], 1, |s.log| + 1);
  }

  /** What a returned range left over goes back: the farther end, forced if either was. */
  lemma RequeuedAsks(s: State)
    requires s.job.Some? && s.job.value.Returned?
    ensures var taken, queued := s.job.value.taken, Requeued(s);
      && (s.job.value.consumed >= taken.end ==> queued == s.pending)
      && (s.job.value.consumed < taken.end ==>
            && queued.Some? && queued.value.end >= taken.end
            && (queued.value.end == taken.end || (s.pending.Some? && queued.value.end == s.pending.value.end))
            && (s.pending.Some? ==> queued.value.end >= s.pending.value.end)
            && (queued.value.force <==> taken.force || (s.pending.Some? && s.pending.value.force)))
  {
  }

  // ---------------------------------------------------------------- cutting

  /** How many checkpoints lie behind the covered events, up to `end`. */
  ghost function Uncovered(s: State, end: nat): nat {
    |Checkpoints(s.log, Covered(s.sections) + 1, end)|
  }

  /** The worker waits for a summary of what lies behind the covered events, up to the farthest end with at most
      three checkpoints. */
  ghost predicate CutAt(s: State, taken: Pending, j: Job) {
    && j.Summarizing? && j.taken == taken && j.start == Covered(s.sections) + 1
    && j.start <= j.end <= taken.end && Uncovered(s, j.end) <= 3
    && (j.end < taken.end ==> Uncovered(s, j.end + 1) > 3)
  }

  /** A range returns at once when it is covered, or when it is not forced and has at most three checkpoints;
      a forced one without a checkpoint lengthens and closes the last section; any other is cut at the farthest
      end with at most three checkpoints. */
  ghost predicate BegunAs(s: State, taken: Pending, after: State) {
    var covered, n := Covered(s.sections), |s.sections|;
    if taken.end <= covered || (Uncovered(s, taken.end) <= 3 && !taken.force) then
      after == s.(job := Some(Returned(taken, taken.end)))
    else if Uncovered(s, taken.end) == 0 && s.sections != [] then
      after == s.(sections := s.sections[..n - 1] + [s.sections[n - 1].(end := taken.end, status := Completed)],
                  job := Some(Returned(taken, taken.end)))
    else
      after == s.(job := after.job) && after.job.Some? && CutAt(s, taken, after.job.value)
  }

  lemma BeginCuts(s: State, taken: Pending)
    requires BetweenRanges(s, taken)
    ensures BegunAs(s, taken, Begin(s, taken))
  {
    var count := Uncovered(s, taken.end);
    ContextsCount(s.log, Covered(s.sections) + 1, taken.end);
    assert |Candidates(s, taken)| == count;
    if taken.end <= Covered(s.sections) || (count <= 3 && !taken.force) {
      BeginLeaves(s, taken);
    } else if count == 0 && s.sections != [] {
      BeginCloses(s, taken);
    } else {
      BeginChunks(s, taken);
      BegunAsCut(s, taken, Begin(s, taken));
    }
  }

  lemma BegunAsCut(s: State, taken: Pending, after: State)
    requires Covered(s.sections) < taken.end && (Uncovered(s, taken.end) > 3 || taken.force)
    requires Uncovered(s, taken.end) > 0 || s.sections == []
    requires after == s.(job := after.job) && after.job.Some? && CutAt(s, taken, after.job.value)
    ensures BegunAs(s, taken, after)
  {
  }

  lemma BeginLeaves(s: State, taken: Pending)
    requires taken.end <= Covered(s.sections) || (|Candidates(s, taken)| <= CONTEXT_STEPS_PER_CHUNK && !taken.force)
    ensures Begin(s, taken) == s.(job := Some(Returned(taken, taken.end)))
  {
  }

  lemma BeginCloses(s: State, taken: Pending)
    requires BetweenRanges(s, taken)
    requires Covered(s.sections) < taken.end && taken.force && |Candidates(s, taken)| == 0 && s.sections != []
    ensures var last := s.sections[|s.sections| - 1].(end := taken.end, status := Completed);
      Begin(s, taken) == s.(sections := s.sections[..|s.sections| - 1] + [last],
                            job := Some(Returned(taken, taken.end)))
  {
    BeginIsLengthened(s, taken);
    LengthenSafe(s, taken.end);
  }

  lemma BeginChunks(s: State, taken: Pending)
    requires BetweenRanges(s, taken) && Covered(s.sections) < taken.end
    requires |Candidates(s, taken)| > CONTEXT_STEPS_PER_CHUNK ||
             (taken.force && (|Candidates(s, taken)| != 0 || s.sections == []))
    ensures var after := Begin(s, taken);
      after == s.(job := after.job) && after.job.Some? && CutAt(s, taken, after.job.value)
  {
    if |Candidates(s, taken)| > CONTEXT_STEPS_PER_CHUNK {
      ChunkIsFull(s, taken);
      BeginSuspended(s, taken, Candidates(s, taken)[CONTEXT_STEPS_PER_CHUNK] - 1);
    } else {
      ContextsCount(s.log, Covered(s.sections) + 1, taken.end);
      BeginSuspended(s, taken, taken.end);
    }
  }

  lemma BeginSuspended(s: State, taken: Pending, end: nat)
    requires BetweenRanges(s, taken) && Covered(s.sections) < end <= taken.end
    requires |Candidates(s, taken)| > CONTEXT_STEPS_PER_CHUNK ||
             (taken.force && (|Candidates(s, taken)| != 0 || s.sections == []))
    requires end == if |Candidates(s, taken)| > CONTEXT_STEPS_PER_CHUNK
                    then Candidates(s, taken)[CONTEXT_STEPS_PER_CHUNK] - 1 else taken.end
    requires Uncovered(s, end) <= 3 && (end < taken.end ==> Uncovered(s, end + 1) > 3)
    ensures Begin(s, taken) == s.(job := Some(Suspended(s, taken, end))) && CutAt(s, taken, Suspended(s, taken, end))
  {
    BeginReaches(s, taken, end);
  }

  /** A chunk ends right before its fourth checkpoint. */
  lemma ChunkIsFull(s: State, taken: Pending)
    requires |Candidates(s, taken)| > CONTEXT_STEPS_PER_CHUNK
    ensures var end := Candidates(s, taken)[CONTEXT_STEPS_PER_CHUNK] - 1;
      Covered(s.sections) < end < taken.end && Uncovered(s, end) == 3 && Uncovered(s, end + 1) == 4
  {
    var start, end := Covered(s.sections) + 1, Candidates(s, taken)[CONTEXT_STEPS_PER_CHUNK] - 1;
    ChunkEnds(s, taken);
    ContextsCount(s.log, start, end);
    ContextsAre(s.log, start, taken.end);
    assert end + 1 in Contexts(s.log, start, taken.end);
    CheckpointsUpTo(s.log, start, end + 1);
  }

  // ---------------------------------------------------------------- placing a summary

  /** The summary's phase is that of the last section, and both together have at most 16 checkpoints. */
  ghost predicate Continues(s: State, summary: Summary, end: nat) {
    s.sections != [] &&
    var last := s.sections[|s.sections| - 1];
    last.phase == summary.phase && |Checkpoints(s.log, last.start, end)| <= 16
  }

  /** Then the last section grows; otherwise it is closed and exactly one section is added behind it. Either
      way the last section ends with the range under the summary's words, and it is closed exactly when the
      range was forced and is used up. */
  lemma SummaryPlaced(s: State, summary: Summary)
    requires Safe(s) && s.job.Some? && s.job.value.Summarizing?
    ensures var after, n, j := FinishSummary(s, summary), |s.sections|, s.job.value;
      var grows := Continues(s, summary, j.end);
      && after == s.(sections := after.sections, job := Some(Returned(j.taken, j.end)))
      && |after.sections| == (if grows then n else n + 1)
      && (forall i :: 0 <= i < n - 1 ==> after.sections[i] == s.sections[i])
      && (!grows && n > 0 ==> after.sections[n - 1] == s.sections[n - 1].(status := Completed))
      && var row, start := after.sections[|after.sections| - 1],
           if grows then s.sections[n - 1].start else Covered(s.sections) + 1;
         && row.id == row.start == start && row.end == j.end
         && row.phase == summary.phase && row.title == summary.title && row.text == summary.text
         && (row.status == Completed <==> j.taken.force && j.end == j.taken.end)
  {
    MergesIff(s, summary);
    if Merges(s.job.value, summary) {
      MergingWrites(s, summary);
    } else {
      AppendingWrites(s, summary);
      ClosingKeeps(s, summary);
    }
  }

  lemma MergesIff(s: State, summary: Summary)
    requires Safe(s) && s.job.Some? && s.job.value.Summarizing?
    ensures Merges(s.job.value, summary) <==> Continues(s, summary, s.job.value.end)
  {
    var j := s.job.value;
    if j.latest.Some? {
      ContextsSplit(s.log, j.latest.value.start, j.latest.value.end, j.end);
      ContextsCount(s.log, j.latest.value.start, j.end);
    }
  }

  // ---------------------------------------------------------------- failing

  /** When a store call fails, the range in hand is lost and the worker stops. Log, rows and a queue that was not
      taken stay, but that the last section may have been closed; and if anything is queued, the worker is woken
      once more. */
  lemma FailureLoses(s: State, step: Step)
    requires Safe(s) && Enabled(s, step) && Fails(step)
    ensures var after, n := Apply(s, step), |s.sections|;
      && after.log == s.log && !after.processing && after.job == None
      && |after.sections| == n && (forall i :: 0 <= i < n - 1 ==> after.sections[i] == s.sections[i])
      && (n > 0 ==> after.sections[n - 1] == s.sections[n - 1]
                    || (step.HalfWritten? && after.sections[n - 1] == s.sections[n - 1].(status := Completed)))
      && (if step.Crashed? || step.HalfWritten?
          then after.pending == s.pending
               && after.microtasks == s.microtasks + if s.pending.Some? then 1 else 0
          else after.pending == None
               && after.microtasks == s.microtasks - if step.MicrotaskFailed? then 1 else 0)
  {
    if step.HalfWritten? { ClosingKeeps(s, step.summary); }
  }
}
