/**
 A run that is answered as active is the only active one of its session, and reclaiming touches orphans only.
 Over whole histories a session can still get two active runs; exactly which writes do that is proved.
 */
module RunClaimsSafety {
  import opened Wrappers
  import opened RunClaims

  // ---------------------------------------------------------------- row by row

  lemma {:induction false} SetStatusAt(rows: seq<Row>, user: string, id: string, status: Status)
    ensures var next := SetStatus(rows, user, id, status);
      |next| == |rows| && forall k :: 0 <= k < |rows| ==>
        next[k] == if rows[k].user == user && rows[k].id == id then rows[k].(status := status) else rows[k]
  {
    if rows != [] { SetStatusAt(rows[..|rows| - 1], user, id, status); }
  }

  /** Within a session only orphans are canceled: never a suspended row, never one with a live handle. */
  lemma {:induction false} ReclaimCancelsOrphansOnly(rows: seq<Row>, scope: Scope, live: Live)
    ensures var after := Reclaim(rows, scope, live).rows;
      |after| == |rows| && forall k :: 0 <= k < |rows| ==>
        after[k] == rows[k]
        || (InScope(scope, rows[k]) && IsOrphan(live, rows[k]) && after[k] == rows[k].(status := Canceled))
  {
    if rows != [] { ReclaimCancelsOrphansOnly(rows[..|rows| - 1], scope, live); }
  }

  /** Nothing blocks exactly when every active row of the session is an orphan; then none is active any
      more. What blocks is a row of the session that is suspended or alive. */
  lemma {:induction false} BlockedIff(rows: seq<Row>, scope: Scope, live: Live)
    ensures var r := Reclaim(rows, scope, live);
      && |r.rows| == |rows|
      && (r.blocking.None? <==>
            forall k :: 0 <= k < |rows| && InScope(scope, rows[k]) && IsActive(rows[k]) ==> IsOrphan(live, rows[k]))
      && (r.blocking.None? ==>
            forall k :: 0 <= k < |rows| && InScope(scope, rows[k]) ==> !IsActive(r.rows[k]))
      && (r.blocking.Some? ==>
            r.blocking.value in rows && InScope(scope, r.blocking.value)
            && (r.blocking.value.status.Suspended? || (r.blocking.value.user, r.blocking.value.id) in live))
  {
    if rows != [] {
      var last, front := rows[|rows| - 1], rows[..|rows| - 1];
      BlockedIff(front, scope, live);
      assert rows == front + [last];
      assert forall k :: 0 <= k < |front| ==> rows[k] == front[k];
    }
  }

  /** Queued and running rows that start after row k. */
  function NewerPending(rows: seq<Row>, k: nat): nat
    requires k < |rows|
  {
    if k == |rows| - 1 then 0
    else NewerPending(rows[..|rows| - 1], k)
         + if rows[|rows| - 1].status.Queued? || rows[|rows| - 1].status.Running? then 1 else 0
  }

  /** The start-up pass cancels a row exactly when it is an orphan with fewer than `limit` newer queued or
      running rows; every other row keeps its status. */
  lemma {:induction false} PassCancelsIff(rows: seq<Row>, live: Live, limit: nat, k: nat)
    requires k < |rows|
    ensures |Pass(rows, live, limit)| == |rows|
    ensures Pass(rows, live, limit)[k] ==
      if IsOrphan(live, rows[k]) && NewerPending(rows, k) < limit then rows[k].(status := Canceled) else rows[k]
    decreases |rows|
  {
    var last, front := rows[|rows| - 1], rows[..|rows| - 1];
    var less := if last.status.Queued? || last.status.Running? then limit - 1 else limit;
    if limit > 0 {
      PassLength(front, live, less);
      if k < |front| { PassCancelsIff(front, live, less, k); }
    }
  }

  lemma {:induction false} PassLength(rows: seq<Row>, live: Live, limit: nat)
    ensures |Pass(rows, live, limit)| == |rows|
    decreases |rows|
  {
    if rows != [] && limit > 0 {
      var last := rows[|rows| - 1];
      PassLength(rows[..|rows| - 1], live, if last.status.Queued? || last.status.Running? then limit - 1 else limit);
    }
  }

  lemma {:induction false} AllPendingNewer(rows: seq<Row>, live: Live, k: nat)
    requires k < |rows| && forall i :: 0 <= i < |rows| ==> IsOrphan(live, rows[i])
    ensures NewerPending(rows, k) == |rows| - 1 - k
    decreases |rows|
  {
    if k < |rows| - 1 { AllPendingNewer(rows[..|rows| - 1], live, k); }
  }

  ghost function Changed(before: seq<Row>, after: seq<Row>): set<nat>
    requires |before| == |after|
  {
    set k: nat | k < |before| && after[k] != before[k]
  }

  lemma {:induction false} OrphanFirst(first: Row, others: seq<Row>, live: Live)
    ensures OrphanCount([first] + others, live) ==
              OrphanCount(others, live) + if (first.user, first.id) in live then 0 else 1
  {
    var all := [first] + others;
    if others == [] {
      assert all[..0] == [] && OrphanCount([], live) == 0;
    } else {
      assert all[..|all| - 1] == [first] + others[..|others| - 1];
      OrphanFirst(first, others[..|others| - 1], live);
    }
  }

  lemma ChangedWith(before: seq<Row>, after: seq<Row>, was: Row, now: Row)
    requires |before| == |after|
    ensures |Changed(before + [was], after + [now])| == |Changed(before, after)| + if was == now then 0 else 1
  {
    var all := Changed(before + [was], after + [now]);
    assert all == Changed(before, after) + if was == now then {} else {|before|};
  }

  /** The count the start-up pass reports is the number of rows it changes. */
  lemma {:induction false} PassCountsChanged(rows: seq<Row>, live: Live, limit: nat)
    ensures |Pass(rows, live, limit)| == |rows|
    ensures OrphanCount(ListCandidates(rows, limit), live) == |Changed(rows, Pass(rows, live, limit))|
  {
    PassLength(rows, live, limit);
    if rows == [] || limit == 0 {
      assert Changed(rows, rows) == {};
    } else {
      var last, front := rows[|rows| - 1], rows[..|rows| - 1];
      var pending := last.status.Queued? || last.status.Running?;
      var left := if pending then limit - 1 else limit;
      var now := if pending && IsOrphan(live, last) then last.(status := Canceled) else last;
      PassCountsChanged(front, live, left);
      PassLength(front, live, left);
      ChangedWith(front, Pass(front, live, left), last, now);
      assert rows == front + [last] && Pass(rows, live, limit) == Pass(front, live, left) + [now];
      if pending { OrphanFirst(last, ListCandidates(front, left), live); }
    }
  }

  /** A name for each number. */
  function Name(n: nat): string {
    if n == 0 then "" else "r" + Name(n - 1)
  }

  lemma {:induction false} NameLength(n: nat)
    ensures |Name(n)| == n
  {
    if n > 0 { NameLength(n - 1); }
  }

  function ManyOrphans(n: nat): (rows: seq<Row>)
    ensures |rows| == n && forall i :: 0 <= i < n ==> rows[i] == Row("u", Name(i), Name(i), Running, None, None)
  {
    if n == 0 then [] else ManyOrphans(n - 1) + [Row("u", Name(n - 1), Name(n - 1), Running, None, None)]
  }

  lemma {:induction false} ManyHaveDistinctKeys(n: nat)
    ensures DistinctKeys(ManyOrphans(n))
  {
    if n > 0 {
      var front := ManyOrphans(n - 1);
      ManyHaveDistinctKeys(n - 1);
      assert ManyOrphans(n)[..n - 1] == front;
      LastNameIsNew(n - 1);
    }
  }

  lemma LastNameIsNew(n: nat)
    ensures !HasKey(ManyOrphans(n), "u", Name(n))
  {
    NameLength(n);
    if HasKey(ManyOrphans(n), "u", Name(n)) {
      var k := KeyHasIndex(ManyOrphans(n), "u", Name(n));
      NameLength(k);
      assert false;
    }
  }

  lemma {:induction false} KeyHasIndex(rows: seq<Row>, user: string, id: string) returns (k: nat)
    requires HasKey(rows, user, id)
    ensures k < |rows| && rows[k].user == user && rows[k].id == id
  {
    k := |rows| - 1;
    if !(rows[k].user == user && rows[k].id == id) { k := KeyHasIndex(rows[..k], user, id); }
  }

  /** With one orphan more than the limit, the oldest is left as it is. */
  lemma OldestOrphanWitness()
    ensures var rows := ManyOrphans(501);
      DistinctKeys(rows) && IsOrphan({}, rows[0]) && |Pass(rows, {}, LIST_LIMIT)| == |rows|
      && Pass(rows, {}, LIST_LIMIT)[0] == rows[0]
  {
    var rows := ManyOrphans(501);
    ManyHaveDistinctKeys(501);
    AllPendingNewer(rows, {}, 0);
    PassCancelsIff(rows, {}, LIST_LIMIT, 0);
  }

  // ---------------------------------------------------------------- one active run per session

  predicate SameSession(a: Row, b: Row) {
    a.user == b.user && a.session == b.session
  }

  ghost predicate OneActive(rows: seq<Row>) {
    forall i, j | 0 <= i < j < |rows| && SameSession(rows[i], rows[j]) :: !(IsActive(rows[i]) && IsActive(rows[j]))
  }

  lemma {:induction false} KeysDiffer(rows: seq<Row>, i: nat, j: nat)
    requires DistinctKeys(rows) && i < j < |rows|
    ensures !(rows[i].user == rows[j].user && rows[i].id == rows[j].id)
    decreases |rows|
  {
    if j < |rows| - 1 {
      KeysDiffer(rows[..|rows| - 1], i, j);
    } else {
      KeyIsKnown(rows[..|rows| - 1], i);
    }
  }

  lemma {:induction false} KeyIsKnown(rows: seq<Row>, i: nat)
    requires i < |rows|
    ensures HasKey(rows, rows[i].user, rows[i].id)
    decreases |rows|
  {
    if i < |rows| - 1 { KeyIsKnown(rows[..|rows| - 1], i); }
  }

  lemma {:induction false} ReclaimKeepsKeys(rows: seq<Row>, scope: Scope, live: Live)
    ensures var after := Reclaim(rows, scope, live).rows;
      (forall u, i :: HasKey(after, u, i) <==> HasKey(rows, u, i)) && (DistinctKeys(rows) ==> DistinctKeys(after))
  {
    if rows != [] {
      var after := Reclaim(rows, scope, live).rows;
      ReclaimKeepsKeys(rows[..|rows| - 1], scope, live);
      if after != rows { assert after[..|after| - 1] == Reclaim(rows[..|rows| - 1], scope, live).rows; }
    }
  }

  /** No answer makes two rows of one key. */
  lemma AnswerKeepsKeys(before: seq<Row>, live: Live, r: Request, rows: seq<Row>, outcome: Outcome)
    requires Answered(before, live, r, rows, outcome) && DistinctKeys(before)
    ensures DistinctKeys(rows)
  {
    var reclaimed := Reclaim(before, SessionOf(r), live).rows;
    ReclaimKeepsKeys(before, SessionOf(r), live);
    SetStatusKeepsKeys(reclaimed, r.user, r.run, Running);
    FindIffHasKey(before, r.user, r.run);
    if outcome.Active? && !outcome.isResume { assert rows[..|rows| - 1] == reclaimed; }
  }

  /** An active answer: nothing blocks, and the run's row is set to running or added. */
  lemma ActiveRows(before: seq<Row>, live: Live, r: Request, rows: seq<Row>, outcome: Outcome)
    requires Answered(before, live, r, rows, outcome) && outcome.Active?
    ensures var reclaimed := Reclaim(before, SessionOf(r), live);
      && reclaimed.blocking.None?
      && rows == if outcome.isResume then SetStatus(reclaimed.rows, r.user, r.run, Running)
                 else reclaimed.rows + [Row(r.user, r.run, r.session, Running, Some(r.fingerprint), outcome.datasource)]
  {
  }

  lemma ActiveHasRunId(before: seq<Row>, live: Live, r: Request, rows: seq<Row>, outcome: Outcome)
    requires Answered(before, live, r, rows, outcome) && outcome.Active?
    ensures forall k :: 0 <= k < |rows| && rows[k].user == r.user && rows[k].session == r.session && IsActive(rows[k])
              ==> rows[k].id == r.run
  {
    ActiveRows(before, live, r, rows, outcome);
    RunsBesideNone(before, live, SessionOf(r), rows, outcome);
  }

  lemma RunsBesideNone(before: seq<Row>, live: Live, scope: Scope, rows: seq<Row>, outcome: Outcome)
    requires outcome.Active?
    requires var reclaimed := Reclaim(before, scope, live);
      && reclaimed.blocking.None?
      && if outcome.isResume then rows == SetStatus(reclaimed.rows, scope.user, scope.exclude, Running)
         else |rows| == |reclaimed.rows| + 1 && rows[..|reclaimed.rows|] == reclaimed.rows
              && rows[|reclaimed.rows|].id == scope.exclude
    ensures forall k ::
              0 <= k < |rows| && rows[k].user == scope.user && rows[k].session == scope.session && IsActive(rows[k]) ==>
                rows[k].id == scope.exclude
  {
    var reclaimed := Reclaim(before, scope, live).rows;
    forall k | 0 <= k < |rows| && rows[k].user == scope.user && rows[k].session == scope.session && IsActive(rows[k])
      ensures rows[k].id == scope.exclude
    {
      SetStatusAt(reclaimed, scope.user, scope.exclude, Running);
      if k < |reclaimed| && rows[k].id != scope.exclude {
        assert rows[k] == reclaimed[k];
        NoneActive(before, live, scope, k);
      }
    }
  }

  /** When nothing blocks, no row of the session is active once the orphans are canceled. */
  lemma NoneActive(before: seq<Row>, live: Live, scope: Scope, k: nat)
    requires var reclaimed := Reclaim(before, scope, live);
      reclaimed.blocking.None? && k < |reclaimed.rows| && InScope(scope, reclaimed.rows[k])
    ensures !IsActive(Reclaim(before, scope, live).rows[k])
  {
    BlockedIff(before, scope, live);
    ReclaimCancelsOrphansOnly(before, scope, live);
  }

  lemma {:induction false} FoundIndex(rows: seq<Row>, user: string, id: string) returns (k: nat)
    requires Find(rows, user, id).Some?
    ensures k < |rows| && rows[k] == Find(rows, user, id).value && rows[k].user == user && rows[k].id == id
  {
    k := |rows| - 1;
    if !(rows[k].user == user && rows[k].id == id) { k := FoundIndex(rows[..k], user, id); }
  }

  /** Row k is the request's run, running, and the only active row of its session. */
  ghost predicate OnlyActive(rows: seq<Row>, r: Request, k: nat) {
    && k < |rows| && rows[k].user == r.user && rows[k].id == r.run && rows[k].session == r.session
    && rows[k].status.Running?
    && forall j :: 0 <= j < |rows| && rows[j].user == r.user && rows[j].session == r.session && IsActive(rows[j]) ==>
        j == k
  }

  /** Answered as active, the run has a row, it is running, and it is the only queued, running or suspended
      row of its session. */
  lemma ActiveIsOnly(before: seq<Row>, live: Live, r: Request, rows: seq<Row>, outcome: Outcome) returns (k: nat)
    requires Answered(before, live, r, rows, outcome) && outcome.Active? && DistinctKeys(before)
    ensures OnlyActive(rows, r, k)
  {
    ActiveHasRunId(before, live, r, rows, outcome);
    AnswerKeepsKeys(before, live, r, rows, outcome);
    ReclaimCancelsOrphansOnly(before, SessionOf(r), live);
    if outcome.isResume {
      k := FoundIndex(before, r.user, r.run);
      SetStatusAt(Reclaim(before, SessionOf(r), live).rows, r.user, r.run, Running);
    } else {
      k := |rows| - 1;
    }
    forall j | 0 <= j < |rows| && rows[j].user == r.user && rows[j].id == r.run ensures j == k {
      if j < k { KeysDiffer(rows, j, k); } else if k < j { KeysDiffer(rows, k, j); }
    }
  }

  /** Rows outside the request's session keep their status. */
  lemma OthersUntouched(before: seq<Row>, live: Live, r: Request, rows: seq<Row>, outcome: Outcome, k: nat)
    requires Answered(before, live, r, rows, outcome) && k < |before|
    requires !(before[k].user == r.user && before[k].session == r.session)
    requires outcome.Active? && outcome.isResume ==> !(before[k].user == r.user && before[k].id == r.run)
    ensures k < |rows| && rows[k] == before[k]
  {
    ReclaimCancelsOrphansOnly(before, SessionOf(r), live);
    SetStatusAt(Reclaim(before, SessionOf(r), live).rows, r.user, r.run, Running);
  }

  /** A row stays as it was, is canceled, or is the run that is resumed. */
  lemma RowKept(before: seq<Row>, live: Live, r: Request, rows: seq<Row>, outcome: Outcome, k: nat)
    requires Answered(before, live, r, rows, outcome) && k < |before|
    ensures k < |rows| && SameSession(rows[k], before[k])
    ensures rows[k] == before[k] || !IsActive(rows[k])
        || (outcome.Active? && rows[k].user == r.user && rows[k].id == r.run)
  {
    var reclaimed := Reclaim(before, SessionOf(r), live).rows;
    ReclaimedRow(before, SessionOf(r), live, k);
    match outcome
    case Active(isResume, _) =>
      if isResume {
        SetStatusAt(reclaimed, r.user, r.run, Running);
      } else {
        assert rows[k] == reclaimed[k];
      }
    case _ =>
  }

  lemma ReclaimedRow(rows: seq<Row>, scope: Scope, live: Live, k: nat)
    requires k < |rows|
    ensures var after := Reclaim(rows, scope, live).rows;
      |after| == |rows| && SameSession(after[k], rows[k]) && (after[k] == rows[k] || !IsActive(after[k]))
  {
    ReclaimCancelsOrphansOnly(rows, scope, live);
  }

  lemma NoRowAdded(before: seq<Row>, live: Live, r: Request, rows: seq<Row>, outcome: Outcome)
    requires Answered(before, live, r, rows, outcome)
    ensures |rows| == |before| + if outcome.Active? && !outcome.isResume then 1 else 0
    ensures |rows| > |before| ==> rows[|before|].user == r.user && rows[|before|].id == r.run
  {
    ReclaimCancelsOrphansOnly(before, SessionOf(r), live);
    SetStatusAt(Reclaim(before, SessionOf(r), live).rows, r.user, r.run, Running);
  }

  /** A row that is not the request's own and still active was active before. */
  lemma OthersWereActive(before: seq<Row>, live: Live, r: Request, rows: seq<Row>, outcome: Outcome, k: nat)
    requires Answered(before, live, r, rows, outcome) && k < |rows| && IsActive(rows[k])
    requires outcome.Active? ==> !(rows[k].user == r.user && rows[k].id == r.run)
    ensures k < |before| && rows[k] == before[k]
  {
    NoRowAdded(before, live, r, rows, outcome);
    RowKept(before, live, r, rows, outcome, k);
  }

  lemma AnswerKeepsOneActive(before: seq<Row>, live: Live, r: Request, rows: seq<Row>, outcome: Outcome)
    requires Answered(before, live, r, rows, outcome) && DistinctKeys(before) && OneActive(before)
    ensures OneActive(rows)
  {
    AnswerKeepsKeys(before, live, r, rows, outcome);
    ghost var own := |rows|;
    if outcome.Active? { own := ActiveIsOnly(before, live, r, rows, outcome); }
    forall i, j | 0 <= i < j < |rows| && SameSession(rows[i], rows[j])
      ensures !(IsActive(rows[i]) && IsActive(rows[j]))
    {
      if IsActive(rows[i]) && IsActive(rows[j]) && i != own && j != own {
        if own < |rows| {
          if i < own { KeysDiffer(rows, i, own); } else { KeysDiffer(rows, own, i); }
          if j < own { KeysDiffer(rows, j, own); } else { KeysDiffer(rows, own, j); }
        }
        OthersWereActive(before, live, r, rows, outcome, i);
        OthersWereActive(before, live, r, rows, outcome, j);
      }
    }
  }

  // ---------------------------------------------------------------- which answer

  /** A row of the session other than the request's own waits or is alive. */
  ghost predicate Blocked(before: seq<Row>, live: Live, r: Request) {
    exists k ::
      0 <= k < |before| && InScope(SessionOf(r), before[k]) && IsActive(before[k]) && !IsOrphan(live, before[k])
  }

  lemma BlockedMeans(before: seq<Row>, live: Live, r: Request)
    ensures Reclaim(before, SessionOf(r), live).blocking.Some? <==> Blocked(before, live, r)
  {
    BlockedIff(before, SessionOf(r), live);
  }

  /** A run is resumed if and only if its row waits in the request's session, nothing blocks, and the interaction
      the request answers is known, pending, and of this session and tool. Then the row's status is all that
      changes besides the orphans. */
  lemma ResumedIff(before: seq<Row>, live: Live, r: Request, rows: seq<Row>, outcome: Outcome)
    requires Answered(before, live, r, rows, outcome)
    ensures outcome.Active? && outcome.isResume <==>
        && r.resume.Some? && Find(before, r.user, r.run).Some?
        && Find(before, r.user, r.run).value.status == Suspended
        && Find(before, r.user, r.run).value.session == r.session
        && !Blocked(before, live, r)
        && (r.run, r.resume.value.call) in r.interactions
        && var asked := r.interactions[(r.run, r.resume.value.call)];
           asked.pending && asked.session == r.session && asked.tool == r.resume.value.tool
    ensures outcome.Active? && outcome.isResume ==>
              var stored := Find(before, r.user, r.run).value.datasource;
              outcome.datasource == if stored.Some? then stored else r.datasource
  {
    BlockedMeans(before, live, r);
  }

  /** A run is claimed if and only if its id is new, nothing blocks, its parent is in order, and the datasource
      asked for, if any, is known. */
  lemma ClaimedIff(before: seq<Row>, live: Live, r: Request, rows: seq<Row>, outcome: Outcome)
    requires Answered(before, live, r, rows, outcome)
    ensures outcome.Active? && !outcome.isResume <==>
        && !HasKey(before, r.user, r.run) && !Blocked(before, live, r)
        && r.parentOk && (r.datasource.Some? ==> r.knownDatasource)
    ensures outcome.Active? && !outcome.isResume ==>
              outcome.datasource == r.datasource && rows != []
              && rows[|rows| - 1] == Row(r.user, r.run, r.session, Running, Some(r.fingerprint), r.datasource)
  {
    BlockedMeans(before, live, r);
    FindIffHasKey(before, r.user, r.run);
  }

  /** A run is replayed if and only if its row is of this session, has a fingerprint, is neither queued nor
      running and left events, and either the request has the same fingerprint, or it repeats the answer to an
      interaction that was resolved by it. Nothing is written. */
  lemma ReplayedIff(before: seq<Row>, live: Live, r: Request, rows: seq<Row>, outcome: Outcome)
    requires Answered(before, live, r, rows, outcome)
    ensures outcome.Replay? <==>
        && Find(before, r.user, r.run).Some?
        && var row := Find(before, r.user, r.run).value;
           && row.session == r.session && row.fingerprint.Some? && row.fingerprint.value != ""
           && row.status != Queued && row.status != Running && r.events != []
           && if r.resume.None? then row.fingerprint.value == r.fingerprint
              else row.status != Suspended && (r.run, r.resume.value.call) in r.interactions
                   && var asked := r.interactions[(r.run, r.resume.value.call)];
                      asked.resolved && asked.fingerprint == r.resume.value.fingerprint
    ensures outcome.Replay? ==> outcome.events == r.events && rows == before
  {
  }

  // ---------------------------------------------------------------- every history

  /** A request with its answer, any change of any row's status, the start-up pass, or the record of a
      request that failed early; who is alive may differ from step to step.

      The record is two statements, a running row inserted unless its key is taken and its status set to
      ended. They count as one step; `finished` is false when the second one fails. */
  datatype Step =
    | Answer(request: Request, live: Live, outcome: Outcome)
    | Update(user: string, id: string, status: Status)
    | StartUp(live: Live)
    | RecordFailure(user: string, id: string, session: string, finished: bool)

  function Inserted(rows: seq<Row>, user: string, id: string, session: string): seq<Row> {
    if HasKey(rows, user, id) then rows else rows + [Row(user, id, session, Running, None, None)]
  }

  function Recorded(rows: seq<Row>, user: string, id: string, session: string, finished: bool): seq<Row> {
    var inserted := Inserted(rows, user, id, session);
    if finished then SetStatus(inserted, user, id, Ended) else inserted
  }

  ghost predicate Next(before: seq<Row>, step: Step, rows: seq<Row>) {
    match step
    case Answer(request, live, outcome) => Answered(before, live, request, rows, outcome)
    case Update(user, id, status) => rows == SetStatus(before, user, id, status)
    case StartUp(live) => rows == Pass(before, live, LIST_LIMIT)
    case RecordFailure(user, id, session, finished) => rows == Recorded(before, user, id, session, finished)
  }

  /** The written row was active, or no other row of its session is. */
  ghost predicate Unrivalled(rows: seq<Row>, k: nat)
    requires k < |rows|
  {
    IsActive(rows[k]) || forall j :: 0 <= j < |rows| && j != k && SameSession(rows[j], rows[k]) ==> !IsActive(rows[j])
  }

  /** No row of a session is active. */
  ghost predicate Idle(rows: seq<Row>, user: string, session: string) {
    forall j :: 0 <= j < |rows| && rows[j].user == user && rows[j].session == session ==> !IsActive(rows[j])
  }

  /** An update that writes an active status writes it to an unrivalled row, and a record that is left
      unfinished found its key taken or its session idle. */
  ghost predicate Lawful(rows: seq<Row>, step: Step) {
    match step
    case Update(user, id, status) =>
      status.Ended? || status.Canceled?
      || forall k :: 0 <= k < |rows| && rows[k].user == user && rows[k].id == id ==> Unrivalled(rows, k)
    case RecordFailure(user, id, session, finished) => finished || HasKey(rows, user, id) || Idle(rows, user, session)
    case _ => true
  }

  /** A change of status keeps one active run per session exactly when it is lawful. */
  lemma UpdateKeepsOneActiveIff(before: seq<Row>, step: Step)
    requires DistinctKeys(before) && OneActive(before) && step.Update?
    ensures OneActive(SetStatus(before, step.user, step.id, step.status)) <==> Lawful(before, step)
  {
    var rows := SetStatus(before, step.user, step.id, step.status);
    SetStatusAt(before, step.user, step.id, step.status);
    if Lawful(before, step) {
      forall i, j | 0 <= i < j < |rows| && SameSession(rows[i], rows[j])
        ensures !(IsActive(rows[i]) && IsActive(rows[j]))
      {
        KeysDiffer(before, i, j);
        assert SameSession(before[i], before[j]);
      }
    } else {
      var k :| 0 <= k < |before| && before[k].user == step.user && before[k].id == step.id && !Unrivalled(before, k);
      var j :| 0 <= j < |before| && j != k && SameSession(before[j], before[k]) && IsActive(before[j]);
      if j < k { KeysDiffer(before, j, k); } else { KeysDiffer(before, k, j); }
      assert IsActive(rows[k]) && IsActive(rows[j]) && SameSession(rows[j], rows[k]) && SameSession(rows[k], rows[j]);
    }
  }

  lemma WeakerKeepsOneActive(before: seq<Row>, rows: seq<Row>)
    requires OneActive(before) && |rows| == |before|
    requires forall k :: 0 <= k < |rows| ==>
      SameSession(rows[k], before[k]) && (IsActive(rows[k]) ==> IsActive(before[k]))
    ensures OneActive(rows)
  {
    forall i, j | 0 <= i < j < |rows| && SameSession(rows[i], rows[j])
      ensures !(IsActive(rows[i]) && IsActive(rows[j]))
    {
      assert SameSession(before[i], before[j]);
    }
  }

  lemma {:induction false} PassKeepsKeys(rows: seq<Row>, live: Live, limit: nat)
    ensures var next := Pass(rows, live, limit);
      (forall u, i :: HasKey(next, u, i) <==> HasKey(rows, u, i)) && (DistinctKeys(rows) ==> DistinctKeys(next))
    decreases |rows|
  {
    if rows != [] && limit > 0 {
      var last, front, next := rows[|rows| - 1], rows[..|rows| - 1], Pass(rows, live, limit);
      var less := if last.status.Queued? || last.status.Running? then limit - 1 else limit;
      PassKeepsKeys(front, live, less);
      assert next[..|next| - 1] == Pass(front, live, less);
    }
  }

  lemma StartUpKeepsOneActive(before: seq<Row>, live: Live)
    requires DistinctKeys(before) && OneActive(before)
    ensures DistinctKeys(Pass(before, live, LIST_LIMIT)) && OneActive(Pass(before, live, LIST_LIMIT))
  {
    var rows := Pass(before, live, LIST_LIMIT);
    PassKeepsKeys(before, live, LIST_LIMIT);
    PassLength(before, live, LIST_LIMIT);
    forall k | 0 <= k < |rows| ensures SameSession(rows[k], before[k]) && (IsActive(rows[k]) ==> IsActive(before[k])) {
      PassCancelsIff(before, live, LIST_LIMIT, k);
    }
    WeakerKeepsOneActive(before, rows);
  }

  /** A row added to a session without active ones, or one that is not active. */
  lemma AddKeepsOneActiveIff(before: seq<Row>, row: Row)
    requires OneActive(before)
    ensures OneActive(before + [row]) <==> !IsActive(row) || Idle(before, row.user, row.session)
  {
    var rows := before + [row];
    if OneActive(rows) && IsActive(row) {
      forall j | 0 <= j < |before| && before[j].user == row.user && before[j].session == row.session
        ensures !IsActive(before[j])
      {
        assert SameSession(rows[j], rows[|before|]);
      }
    }
    if !IsActive(row) || Idle(before, row.user, row.session) {
      forall i, j | 0 <= i < j < |rows| && SameSession(rows[i], rows[j])
        ensures !(IsActive(rows[i]) && IsActive(rows[j]))
      {
        if j < |before| { assert SameSession(before[i], before[j]); }
      }
    }
  }

  /** Ending the row that was just added is adding an ended row. */
  lemma {:induction false} EndedAtOnce(rows: seq<Row>, row: Row)
    requires !HasKey(rows, row.user, row.id)
    ensures SetStatus(rows + [row], row.user, row.id, Ended) == rows + [row.(status := Ended)]
  {
    assert (rows + [row])[..|rows|] == rows;
    SetStatusElsewhere(rows, row.user, row.id, Ended);
  }

  lemma AddKeepsKeys(before: seq<Row>, row: Row)
    requires DistinctKeys(before) && !HasKey(before, row.user, row.id)
    ensures DistinctKeys(before + [row])
  {
    assert (before + [row])[..|before|] == before;
  }

  lemma EndingIsLawful(before: seq<Row>, user: string, id: string)
    requires DistinctKeys(before) && OneActive(before)
    ensures DistinctKeys(SetStatus(before, user, id, Ended)) && OneActive(SetStatus(before, user, id, Ended))
  {
    SetStatusKeepsKeys(before, user, id, Ended);
    UpdateKeepsOneActiveIff(before, Update(user, id, Ended));
  }

  lemma NewRecordKeepsOneActiveIff(before: seq<Row>, row: Row, finished: bool)
    requires DistinctKeys(before) && OneActive(before) && !HasKey(before, row.user, row.id) && row.status.Running?
    ensures var rows := if finished then SetStatus(before + [row], row.user, row.id, Ended) else before + [row];
      DistinctKeys(rows) && (OneActive(rows) <==> finished || Idle(before, row.user, row.session))
  {
    var added := if finished then row.(status := Ended) else row;
    if finished { EndedAtOnce(before, row); }
    AddKeepsKeys(before, added);
    AddKeepsOneActiveIff(before, added);
  }

  lemma RecordKeepsOneActiveIff(before: seq<Row>, step: Step)
    requires DistinctKeys(before) && OneActive(before) && step.RecordFailure?
    ensures var rows := Recorded(before, step.user, step.id, step.session, step.finished);
      DistinctKeys(rows) && (OneActive(rows) <==> Lawful(before, step))
  {
    if HasKey(before, step.user, step.id) {
      EndingIsLawful(before, step.user, step.id);
    } else {
      NewRecordKeepsOneActiveIff(before, Row(step.user, step.id, step.session, Running, None, None), step.finished);
    }
  }

  /** Requests and the start-up pass keep one active run per session; a change of status and an early
      failure do exactly when they are lawful. */
  lemma StepKeepsOneActiveIff(before: seq<Row>, step: Step, rows: seq<Row>)
    requires DistinctKeys(before) && OneActive(before) && Next(before, step, rows)
    ensures DistinctKeys(rows) && (OneActive(rows) <==> Lawful(before, step))
  {
    match step
    case Answer(request, live, outcome) =>
      AnswerKeepsKeys(before, live, request, rows, outcome);
      AnswerKeepsOneActive(before, live, request, rows, outcome);
    case Update(user, id, status) =>
      SetStatusKeepsKeys(before, user, id, status);
      UpdateKeepsOneActiveIff(before, step);
    case StartUp(live) => StartUpKeepsOneActive(before, live);
    case RecordFailure(_, _, _, _) => RecordKeepsOneActiveIff(before, step);
  }

  /** `tables` is what the table looks like before, between and after the steps. */
  ghost predicate History(steps: seq<Step>, tables: seq<seq<Row>>) {
    && |tables| == |steps| + 1
    && (if steps == [] then tables[0] == []
        else
          && History(steps[..|steps| - 1], tables[..|steps|])
          && Next(tables[|steps| - 1], steps[|steps| - 1], tables[|steps|]))
  }

  ghost predicate AlwaysOneActive(tables: seq<seq<Row>>) {
    forall k :: 0 <= k < |tables| ==> OneActive(tables[k])
  }

  ghost predicate AlwaysLawful(steps: seq<Step>, tables: seq<seq<Row>>)
    requires |tables| == |steps| + 1
  {
    forall k :: 0 <= k < |steps| ==> Lawful(tables[k], steps[k])
  }

  lemma OneActiveSplit(tables: seq<seq<Row>>)
    requires tables != []
    ensures AlwaysOneActive(tables) <==> AlwaysOneActive(tables[..|tables| - 1]) && OneActive(tables[|tables| - 1])
  {
    var earlier := tables[..|tables| - 1];
    assert forall k :: 0 <= k < |earlier| ==> earlier[k] == tables[k];
  }

  lemma LawfulSplit(steps: seq<Step>, tables: seq<seq<Row>>)
    requires steps != [] && |tables| == |steps| + 1
    ensures var n := |steps| - 1;
      AlwaysLawful(steps, tables) <==> AlwaysLawful(steps[..n], tables[..n + 1]) && Lawful(tables[n], steps[n])
  {
    var n := |steps| - 1;
    assert forall k :: 0 <= k < n ==> steps[..n][k] == steps[k] && tables[..n + 1][k] == tables[k];
  }

  /** A history has at most one queued, running or suspended run in every session between its steps exactly
      when each step is lawful at its time. */
  lemma {:induction false} HistoryHasOneActiveIff(steps: seq<Step>, tables: seq<seq<Row>>)
    requires History(steps, tables)
    ensures AlwaysOneActive(tables) <==> AlwaysLawful(steps, tables)
    ensures AlwaysOneActive(tables) ==> DistinctKeys(tables[|steps|])
    decreases |steps|
  {
    if steps != [] {
      var n := |steps| - 1;
      var front, earlier := steps[..n], tables[..|steps|];
      HistoryHasOneActiveIff(front, earlier);
      assert earlier[n] == tables[n];
      OneActiveSplit(tables);
      LawfulSplit(steps, tables);
      if AlwaysOneActive(earlier) { StepKeepsOneActiveIff(tables[n], steps[n], tables[n + 1]); }
    }
  }

  function PlainRequest(run: string): Request {
    Request("u", "s", run, "f", None, None, map[], true, true, [])
  }

  function PlainRow(run: string, status: Status): Row {
    Row("u", run, "s", status, Some("f"), None)
  }

  /** A plain request for a new run is answered as a claim when nothing blocks. */
  lemma PlainClaimed(before: seq<Row>, live: Live, run: string, after: seq<Row>)
    requires Find(before, "u", run) == None
    requires Reclaim(before, Scope("u", "s", run), live) == Reclaimed(after, None)
    ensures Answered(before, live, PlainRequest(run), after + [PlainRow(run, Running)], Active(false, None))
  {
  }

  lemma FirstClaimed()
    ensures Next([], Answer(PlainRequest("a"), {}, Active(false, None)), [PlainRow("a", Running)])
  {
    PlainClaimed([], {}, "a", []);
    assert [] + [PlainRow("a", Running)] == [PlainRow("a", Running)];
  }

  /** With one row, of run a, a claim of run b takes it for an orphan ... */
  lemma OneOrphan()
    ensures var row := PlainRow("a", Running);
      && Find([row], "u", "b") == None
      && Reclaim([row], Scope("u", "s", "b"), {}) == Reclaimed([PlainRow("a", Canceled)], None)
  {
    var row := PlainRow("a", Running);
    assert "a"[0] != "b"[0];
    assert [row][..0] == [];
    assert Find([], "u", "b") == None && Reclaim([], Scope("u", "s", "b"), {}) == Reclaimed([], None);
  }

  /** ... or finds it ended. */
  lemma OneEnded(live: Live)
    ensures var row := PlainRow("a", Ended);
      Find([row], "u", "b") == None && Reclaim([row], Scope("u", "s", "b"), live) == Reclaimed([row], None)
  {
    var row := PlainRow("a", Ended);
    assert "a"[0] != "b"[0];
    assert [row][..0] == [];
    assert Find([], "u", "b") == None && Reclaim([], Scope("u", "s", "b"), live) == Reclaimed([], None);
  }

  /** Behind the row of a stands the row of b; the status of a's row is set alone. */
  lemma FirstSuspends(status: Status)
    ensures SetStatus([PlainRow("a", status), PlainRow("b", Running)], "u", "a", Suspended)
         == [PlainRow("a", Suspended), PlainRow("b", Running)]
  {
    var a, b := PlainRow("a", status), PlainRow("b", Running);
    assert "a"[0] != "b"[0];
    assert [a, b][..1] == [a] && [a][..0] == [];
    assert SetStatus([a], "u", "a", Suspended) == [PlainRow("a", Suspended)];
  }

  lemma OrphanClaimed()
    ensures Answered([PlainRow("a", Running)], {}, PlainRequest("b"), [PlainRow("a", Canceled), PlainRow("b", Running)],
                     Active(false, None))
    ensures SetStatus([PlainRow("a", Canceled), PlainRow("b", Running)], "u", "a", Suspended)
         == [PlainRow("a", Suspended), PlainRow("b", Running)]
  {
    OneOrphan();
    PlainClaimed([PlainRow("a", Running)], {}, "b", [PlainRow("a", Canceled)]);
    assert [PlainRow("a", Canceled)] + [PlainRow("b", Running)] == [PlainRow("a", Canceled), PlainRow("b", Running)];
    FirstSuspends(Canceled);
  }

  /** The history that fails: run a is claimed and, before its handle is registered, taken for an orphan by
      the claim of run b; then a, which still works, suspends. */
  lemma LateSuspendWitness()
    ensures var steps := [Answer(PlainRequest("a"), {}, Active(false, None)),
                          Answer(PlainRequest("b"), {}, Active(false, None)),
                          Update("u", "a", Suspended)];
      var tables := [[], [PlainRow("a", Running)], [PlainRow("a", Canceled), PlainRow("b", Running)],
                     [PlainRow("a", Suspended), PlainRow("b", Running)]];
      History(steps, tables) && !OneActive(tables[3])
  {
    var t0: seq<Row> := [];
    var t1, t2 := [PlainRow("a", Running)], [PlainRow("a", Canceled), PlainRow("b", Running)];
    var t3 := [PlainRow("a", Suspended), PlainRow("b", Running)];
    var s1, s2 := Answer(PlainRequest("a"), {}, Active(false, None)),
        Answer(PlainRequest("b"), {}, Active(false, None));
    var s3 := Update("u", "a", Suspended);
    FirstClaimed();
    OrphanClaimed();
    assert Next(t2, s3, t3);
    ThreeSteps(t0, s1, t1, s2, t2, s3, t3);
    assert SameSession(t3[0], t3[1]) && IsActive(t3[0]) && IsActive(t3[1]);
  }

  lemma DuplicateRecorded()
    ensures Next([PlainRow("a", Running)], Answer(PlainRequest("a"), {("u", "a")}, Rejected(RunAlreadyActive)),
                 [PlainRow("a", Running)])
    ensures Next([PlainRow("a", Running)], RecordFailure("u", "a", "s", true), [PlainRow("a", Ended)])
  {
    var row := PlainRow("a", Running);
    assert [row][..0] == [] && HasKey([row], "u", "a") && Find([row], "u", "a") == Some(row);
  }

  lemma EndedClaimed(live: Live)
    ensures Answered([PlainRow("a", Ended)], live, PlainRequest("b"), [PlainRow("a", Ended), PlainRow("b", Running)],
                     Active(false, None))
  {
    OneEnded(live);
    PlainClaimed([PlainRow("a", Ended)], live, "b", [PlainRow("a", Ended)]);
    assert [PlainRow("a", Ended)] + [PlainRow("b", Running)] == [PlainRow("a", Ended), PlainRow("b", Running)];
  }

  /** A second failing history, with run a alive all the time: a duplicate of its request is rejected, and
      the record of that failure ends a's own row; run b is claimed, and a suspends. */
  lemma DuplicateRequestWitness()
    ensures var live := {("u", "a")};
      var steps := [Answer(PlainRequest("a"), {}, Active(false, None)),
                    Answer(PlainRequest("a"), live, Rejected(RunAlreadyActive)),
                    RecordFailure("u", "a", "s", true),
                    Answer(PlainRequest("b"), live, Active(false, None)),
                    Update("u", "a", Suspended)];
      var tables := [[], [PlainRow("a", Running)], [PlainRow("a", Running)], [PlainRow("a", Ended)],
                     [PlainRow("a", Ended), PlainRow("b", Running)],
                         [PlainRow("a", Suspended), PlainRow("b", Running)]];
      History(steps, tables) && !OneActive(tables[5])
  {
    var live := {("u", "a")};
    var t0: seq<Row> := [];
    var t1, t3 := [PlainRow("a", Running)], [PlainRow("a", Ended)];
    var t4, t5 := [PlainRow("a", Ended), PlainRow("b", Running)], [PlainRow("a", Suspended), PlainRow("b", Running)];
    var s1 := Answer(PlainRequest("a"), {}, Active(false, None));
    var s2 := Answer(PlainRequest("a"), live, Rejected(RunAlreadyActive));
    var s3, s4 := RecordFailure("u", "a", "s", true), Answer(PlainRequest("b"), live, Active(false, None));
    var s5 := Update("u", "a", Suspended);
    FirstClaimed();
    DuplicateRecorded();
    EndedClaimed(live);
    FirstSuspends(Ended);
    assert Next(t3, s4, t4) && Next(t4, s5, t5);
    FiveSteps(t0, s1, t1, s2, t1, s3, t3, s4, t4, s5, t5);
    assert SameSession(t5[0], t5[1]) && IsActive(t5[0]) && IsActive(t5[1]);
  }

  lemma FiveSteps(t0: seq<Row>, s1: Step, t1: seq<Row>, s2: Step, t2: seq<Row>, s3: Step, t3: seq<Row>, s4: Step,
                  t4: seq<Row>, s5: Step, t5: seq<Row>)
    requires t0 == [] && Next(t0, s1, t1) && Next(t1, s2, t2) && Next(t2, s3, t3)
    requires Next(t3, s4, t4) && Next(t4, s5, t5)
    ensures History([s1, s2, s3, s4, s5], [t0, t1, t2, t3, t4, t5])
  {
    ThreeSteps(t0, s1, t1, s2, t2, s3, t3);
    HistoryGoesOn([s1, s2, s3], [t0, t1, t2, t3], s4, t4);
    assert [s1, s2, s3] + [s4] == [s1, s2, s3, s4] && [t0, t1, t2, t3] + [t4] == [t0, t1, t2, t3, t4];
    HistoryGoesOn([s1, s2, s3, s4], [t0, t1, t2, t3, t4], s5, t5);
    assert [s1, s2, s3, s4] + [s5] == [s1, s2, s3, s4, s5];
    assert [t0, t1, t2, t3, t4] + [t5] == [t0, t1, t2, t3, t4, t5];
  }

  lemma ThreeSteps(t0: seq<Row>, s1: Step, t1: seq<Row>, s2: Step, t2: seq<Row>, s3: Step, t3: seq<Row>)
    requires t0 == [] && Next(t0, s1, t1) && Next(t1, s2, t2) && Next(t2, s3, t3)
    ensures History([s1, s2, s3], [t0, t1, t2, t3])
  {
    var steps, tables := [s1, s2, s3], [t0, t1, t2, t3];
    forall k | 0 <= k < 3
      ensures Next(tables[k], steps[k], tables[k + 1])
    {
      if k == 0 { } else if k == 1 { } else { }
    }
    HistoryByIndex(steps, tables);
  }

  lemma HistoryGoesOn(steps: seq<Step>, tables: seq<seq<Row>>, step: Step, rows: seq<Row>)
    requires History(steps, tables) && Next(tables[|steps|], step, rows)
    ensures History(steps + [step], tables + [rows])
  {
    assert (steps + [step])[..|steps|] == steps && (tables + [rows])[..|tables|] == tables;
  }

  lemma {:induction false} HistoryByIndex(steps: seq<Step>, tables: seq<seq<Row>>)
    requires |tables| == |steps| + 1 && tables[0] == []
    requires forall k :: 0 <= k < |steps| ==> Next(tables[k], steps[k], tables[k + 1])
    ensures History(steps, tables)
    decreases |steps|
  {
    if steps != [] { HistoryByIndex(steps[..|steps| - 1], tables[..|steps|]); }
  }
}
