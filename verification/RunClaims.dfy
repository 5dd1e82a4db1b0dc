/**
 Claiming a session for a run: stale rows are reclaimed, a row that is really active blocks, and a claimed
 or resumed run is the only active one.
 */
module RunClaims {
  import opened Wrappers

  datatype Status = Queued | Running | Suspended | Ended | Canceled

  /** Rows are listed by start, newest last; (user, id) is the key. */
  datatype Row = Row(user: string, id: string, session: string, status: Status, fingerprint: Option<string>,
                     datasource: Option<string>)

  /** The runs of the process that can still be canceled. */
  type Live = set<(string, string)>

  datatype Scope = Scope(user: string, session: string, exclude: string)

  predicate IsActive(row: Row) {
    row.status.Queued? || row.status.Running? || row.status.Suspended?
  }

  predicate InScope(scope: Scope, row: Row) {
    row.user == scope.user && row.session == scope.session && row.id != scope.exclude
  }

  /** Queued or running according to its row, but nobody is working on it. */
  predicate IsOrphan(live: Live, row: Row) {
    (row.status.Queued? || row.status.Running?) && (row.user, row.id) !in live
  }

  ghost predicate DistinctKeys(rows: seq<Row>) {
    rows == [] ||
    (DistinctKeys(rows[..|rows| - 1]) && !HasKey(rows[..|rows| - 1], rows[|rows| - 1].user, rows[|rows| - 1].id))
  }

  predicate HasKey(rows: seq<Row>, user: string, id: string) {
    rows != [] &&
    ((rows[|rows| - 1].user == user && rows[|rows| - 1].id == id) || HasKey(rows[..|rows| - 1], user, id))
  }

  function Find(rows: seq<Row>, user: string, id: string): Option<Row> {
    if rows == [] then None
    else if rows[|rows| - 1].user == user && rows[|rows| - 1].id == id then Some(rows[|rows| - 1])
    else Find(rows[..|rows| - 1], user, id)
  }

  function SetStatus(rows: seq<Row>, user: string, id: string, status: Status): seq<Row> {
    if rows == [] then []
    else
      var last := rows[|rows| - 1];
      SetStatus(rows[..|rows| - 1], user, id, status)
      + [if last.user == user && last.id == id then last.(status := status) else last]
  }

  /** The newest active row of a session, one run left aside. */
  function FindActive(rows: seq<Row>, scope: Scope): Option<Row> {
    if rows == [] then None
    else
      var last := rows[|rows| - 1];
      if InScope(scope, last) && IsActive(last) then Some(last) else FindActive(rows[..|rows| - 1], scope)
  }

  // ---------------------------------------------------------------- reclaiming within a session

  datatype Reclaimed = Reclaimed(rows: seq<Row>, blocking: Option<Row>)

  /** From the newest active row on, orphans are canceled until one is met that is none. */
  function Reclaim(rows: seq<Row>, scope: Scope, live: Live): Reclaimed {
    if rows == [] then Reclaimed([], None)
    else
      var last, front := rows[|rows| - 1], rows[..|rows| - 1];
      if InScope(scope, last) && IsActive(last) && !IsOrphan(live, last) then Reclaimed(rows, Some(last))
      else
        var older := Reclaim(front, scope, live);
        var orphan := InScope(scope, last) && IsActive(last);
        older.(rows := older.rows + [if orphan then last.(status := Canceled) else last])
  }

  function Orphans(rows: seq<Row>, scope: Scope, live: Live): nat {
    if rows == [] then 0
    else Orphans(rows[..|rows| - 1], scope, live)
         + if InScope(scope, rows[|rows| - 1]) && IsOrphan(live, rows[|rows| - 1]) then 1 else 0
  }

  lemma {:induction false} ActiveIsKnown(rows: seq<Row>, scope: Scope)
    requires FindActive(rows, scope).Some?
    ensures var a := FindActive(rows, scope).value; HasKey(rows, a.user, a.id) && InScope(scope, a) && IsActive(a)
  {
    if !(InScope(scope, rows[|rows| - 1]) && IsActive(rows[|rows| - 1])) {
      ActiveIsKnown(rows[..|rows| - 1], scope);
    }
  }

  lemma {:induction false} SetStatusElsewhere(rows: seq<Row>, user: string, id: string, status: Status)
    requires !HasKey(rows, user, id)
    ensures SetStatus(rows, user, id, status) == rows
  {
    if rows != [] { SetStatusElsewhere(rows[..|rows| - 1], user, id, status); }
  }

  /** Canceling the newest active row, an orphan, is one step of the reclaiming. */
  lemma {:induction false} ReclaimStep(rows: seq<Row>, scope: Scope, live: Live)
    requires DistinctKeys(rows) && FindActive(rows, scope).Some? && IsOrphan(live, FindActive(rows, scope).value)
    ensures var a := FindActive(rows, scope).value; var next := SetStatus(rows, a.user, a.id, Canceled);
      && Reclaim(next, scope, live) == Reclaim(rows, scope, live) && DistinctKeys(next)
      && Orphans(next, scope, live) < Orphans(rows, scope, live)
      && (forall u, i :: HasKey(next, u, i) <==> HasKey(rows, u, i))
  {
    var last, front := rows[|rows| - 1], rows[..|rows| - 1];
    var a := FindActive(rows, scope).value;
    var next := SetStatus(rows, a.user, a.id, Canceled);
    assert next[..|next| - 1] == SetStatus(front, a.user, a.id, Canceled);
    if InScope(scope, last) && IsActive(last) {
      SetStatusElsewhere(front, a.user, a.id, Canceled);
    } else {
      ActiveIsKnown(front, scope);
      ReclaimStep(front, scope, live);
    }
  }

  lemma {:induction false} ReclaimEnd(rows: seq<Row>, scope: Scope, live: Live)
    requires FindActive(rows, scope).Some? ==> !IsOrphan(live, FindActive(rows, scope).value)
    ensures Reclaim(rows, scope, live) == Reclaimed(rows, FindActive(rows, scope))
  {
    if rows != [] && !(InScope(scope, rows[|rows| - 1]) && IsActive(rows[|rows| - 1])) {
      ReclaimEnd(rows[..|rows| - 1], scope, live);
    }
  }

  // ---------------------------------------------------------------- the start-up pass

  /** The newest queued and running rows, newest first. */
  function ListCandidates(rows: seq<Row>, limit: nat): seq<Row> {
    if rows == [] || limit == 0 then []
    else
      var last, front := rows[|rows| - 1], rows[..|rows| - 1];
      if last.status.Queued? || last.status.Running? then [last] + ListCandidates(front, limit - 1)
      else ListCandidates(front, limit)
  }

  /** Every orphan among the newest `limit` candidates is canceled. */
  function Pass(rows: seq<Row>, live: Live, limit: nat): seq<Row> {
    if rows == [] || limit == 0 then rows
    else
      var last, front := rows[|rows| - 1], rows[..|rows| - 1];
      if last.status.Queued? || last.status.Running? then
        Pass(front, live, limit - 1) + [if IsOrphan(live, last) then last.(status := Canceled) else last]
      else Pass(front, live, limit) + [last]
  }

  const LIST_LIMIT: nat := 500

  // ---------------------------------------------------------------- a request for a run

  datatype Resume = Resume(call: string, tool: string, fingerprint: string)

  datatype Interaction = Interaction(session: string, tool: string, pending: bool, resolved: bool, fingerprint: string)

  /** `parentOk`, `knownDatasource` and `events` stand for lookups in stores the claim does not change. */
  datatype Request = Request(user: string, session: string, run: string, fingerprint: string, resume: Option<Resume>,
                             datasource: Option<string>, interactions: map<(string, string), Interaction>,
                             parentOk: bool, knownDatasource: bool, events: seq<string>)

  datatype Outcome =
    | Replay(events: seq<string>)
    | Active(isResume: bool, datasource: Option<string>)
    | Rejected(reason: Reason)

  datatype Reason =
    | RunAlreadyActive | RunSessionMismatch | FingerprintUnavailable | RequestMismatch | ReplayUnavailable
    | InteractionUnknown | InteractionNotResumable | InteractionIdentityMismatch | ParentRejected
    | DatasourceUnknown | ClaimConflict

  function ResolveExistingRun(row: Row, fingerprint: string, session: string, events: seq<string>): Outcome {
    if row.session != session then Rejected(RunSessionMismatch)
    else if row.fingerprint.None? || row.fingerprint.value == "" then Rejected(FingerprintUnavailable)
    else if row.fingerprint.value != fingerprint then Rejected(RequestMismatch)
    else if row.status.Queued? || row.status.Running? then Rejected(RunAlreadyActive)
    else if events == [] then Rejected(ReplayUnavailable)
    else Replay(events)
  }

  function SessionOf(r: Request): Scope {
    Scope(r.user, r.session, r.run)
  }

  // ---------------------------------------------------------------- what the answer must be

  /** The interaction a resuming request answers. */
  ghost function Asked(r: Request): Option<Interaction> {
    if r.resume.Some? && (r.run, r.resume.value.call) in r.interactions
    then Some(r.interactions[(r.run, r.resume.value.call)]) else None
  }

  /** The request answers a run that waits. */
  ghost predicate Resumes(before: seq<Row>, r: Request) {
    var existing := Find(before, r.user, r.run);
    r.resume.Some? && existing.Some? && existing.value.status == Suspended
  }

  /** The stored datasource for a request that resumes a known run, if that has one; the request's otherwise. */
  ghost function DatasourceFor(before: seq<Row>, r: Request): Option<string> {
    var existing := Find(before, r.user, r.run);
    if r.resume.Some? && existing.Some? && existing.value.datasource.Some? then existing.value.datasource
    else r.datasource
  }

  /** The first thing that keeps a known run from being replayed. */
  ghost function ReplayObstacle(row: Row, r: Request): Option<Reason> {
    if r.resume.Some? && Asked(r).None? then Some(InteractionUnknown)
    else if r.resume.Some? && !(Asked(r).value.resolved && Asked(r).value.fingerprint == r.resume.value.fingerprint)
      then Some(InteractionNotResumable)
    else if row.session != r.session then Some(RunSessionMismatch)
    else if row.fingerprint == None || row.fingerprint == Some("") then Some(FingerprintUnavailable)
    else if r.resume.None? && row.fingerprint != Some(r.fingerprint) then Some(RequestMismatch)
    else if row.status == Queued || row.status == Running then Some(RunAlreadyActive)
    else if r.events == [] then Some(ReplayUnavailable)
    else None
  }

  /** The first thing that keeps a waiting run from being resumed. */
  ghost function ResumeObstacle(row: Row, r: Request, blocked: bool): Option<Reason>
    requires r.resume.Some?
  {
    if blocked then Some(RunAlreadyActive)
    else if row.session != r.session then Some(RunSessionMismatch)
    else if Asked(r).None? then Some(InteractionUnknown)
    else
      var asked := Asked(r).value;
      if asked.session == r.session && asked.tool == r.resume.value.tool && asked.pending then None
      else Some(InteractionIdentityMismatch)
  }

  /** The first thing that keeps a new run from being claimed. */
  ghost function ClaimObstacle(r: Request, blocked: bool): Option<Reason> {
    if blocked then Some(RunAlreadyActive)
    else if !r.parentOk then Some(ParentRejected)
    else if r.datasource.Some? && !r.knownDatasource then Some(DatasourceUnknown)
    else None
  }

  /** How a request for a run is answered, and what it does to the rows: refused for the first obstacle,
      else replayed, resumed or claimed. Only a request that resumes or claims reclaims orphans. */
  ghost predicate Answered(before: seq<Row>, live: Live, r: Request, rows: seq<Row>, outcome: Outcome) {
    var existing, reclaimed := Find(before, r.user, r.run), Reclaim(before, SessionOf(r), live);
    var resumes, blocked := Resumes(before, r), reclaimed.blocking.Some?;
    var replays := existing.Some? && !resumes;
    var obstacle := if replays then ReplayObstacle(existing.value, r)
                    else if resumes then ResumeObstacle(existing.value, r, blocked)
                    else ClaimObstacle(r, blocked);
    if obstacle.Some? then
      outcome == Rejected(obstacle.value) && rows == if replays then before else reclaimed.rows
    else if replays then
      outcome == Replay(r.events) && rows == before
    else
      var datasource := DatasourceFor(before, r);
      && outcome == Active(resumes, datasource)
      && rows == if resumes then SetStatus(reclaimed.rows, r.user, r.run, Running)
                 else reclaimed.rows + [Row(r.user, r.run, r.session, Running, Some(r.fingerprint), datasource)]
  }

  class RunTable {
    var rows: seq<Row>

    ghost predicate Valid()
      reads this
    {
      DistinctKeys(rows)
    }

    method ResolveLiveSessionActiveRun(scope: Scope, live: Live) returns (active: Option<Row>)
      requires Valid()
      modifies this
      ensures Valid() && Reclaimed(rows, active) == Reclaim(old(rows), scope, live)
      ensures forall u, i :: HasKey(rows, u, i) <==> HasKey(old(rows), u, i)
    {
      while true
        invariant Valid() && Reclaim(rows, scope, live) == Reclaim(old(rows), scope, live)
        invariant forall u, i :: HasKey(rows, u, i) <==> HasKey(old(rows), u, i)
        decreases Orphans(rows, scope, live)
      {
        active := FindActive(rows, scope);
        if active.None? {
          ReclaimEnd(rows, scope, live);
          return;
        }
        if active.value.status.Suspended? {
          ReclaimEnd(rows, scope, live);
          return;
        }
        if (active.value.user, active.value.id) in live {
          ReclaimEnd(rows, scope, live);
          return;
        }
        ActiveIsKnown(rows, scope);
        ReclaimStep(rows, scope, live);
        rows := SetStatus(rows, active.value.user, active.value.id, Canceled);
      }
    }

    method ReclaimOrphanedQueuedAndRunningRuns(live: Live) returns (reclaimed: nat)
      requires Valid()
      modifies this
      ensures rows == Pass(old(rows), live, 500)
      ensures reclaimed == OrphanCount(ListCandidates(old(rows), 500), live)
    {
      var candidates := ListCandidates(rows, LIST_LIMIT);
      reclaimed := 0;
      for k := 0 to |candidates|
        invariant rows == CancelAll(old(rows), candidates[..k], live)
        invariant reclaimed == OrphanCount(candidates[..k], live)
      {
        assert candidates[..k + 1][..k] == candidates[..k];
        var run := candidates[k];
        if (run.user, run.id) in live {
          continue;
        }
        CandidateIsPending(old(rows), LIST_LIMIT, k);
        rows := SetStatus(rows, run.user, run.id, Canceled);
        reclaimed := reclaimed + 1;
      }
      assert candidates[..|candidates|] == candidates;
      CancelAllIsPass(rows, old(rows), live, LIST_LIMIT);
    }

    /** Replays a finished run, resumes a suspended one or claims a new one. */
    method ResolveRunIdentity(r: Request, live: Live) returns (outcome: Outcome)
      requires Valid()
      modifies this
      ensures Valid()
      ensures Answered(old(rows), live, r, rows, outcome)
    {
      var existingRun := Find(rows, r.user, r.run);
      FindIffHasKey(rows, r.user, r.run);
      var selected := if r.resume.Some? && existingRun.Some? && existingRun.value.datasource.Some?
                      then existingRun.value.datasource else r.datasource;
      var isResume := r.resume.Some? && existingRun.Some? && existingRun.value.status.Suspended?;
      if existingRun.Some? && !isResume {
        if r.resume.Some? {
          if (r.run, r.resume.value.call) !in r.interactions {
            return Rejected(InteractionUnknown);
          }
          var interaction := r.interactions[(r.run, r.resume.value.call)];
          if !interaction.resolved || interaction.fingerprint != r.resume.value.fingerprint {
            return Rejected(InteractionNotResumable);
          }
        }
        var fingerprint := if r.resume.None? then r.fingerprint
                           else if existingRun.value.fingerprint.Some? then existingRun.value.fingerprint.value else "";
        return ResolveExistingRun(existingRun.value, fingerprint, r.session, r.events);
      }
      var activeSessionRun := ResolveLiveSessionActiveRun(SessionOf(r), live);
      if activeSessionRun.Some? {
        return Rejected(RunAlreadyActive);
      }
      FindIffHasKey(rows, r.user, r.run);
      if isResume {
        if existingRun.value.session != r.session {
          return Rejected(RunSessionMismatch);
        }
        if (r.run, r.resume.value.call) !in r.interactions {
          return Rejected(InteractionUnknown);
        }
        var interaction := r.interactions[(r.run, r.resume.value.call)];
        if interaction.session != r.session || interaction.tool != r.resume.value.tool || !interaction.pending {
          return Rejected(InteractionIdentityMismatch);
        }
        ReclaimKeepsExcluded(old(rows), SessionOf(r), live);
        SetStatusFinds(rows, r.user, r.run, Running);
        SetStatusKeepsKeys(rows, r.user, r.run, Running);
        rows := SetStatus(rows, r.user, r.run, Running);
      } else {
        if !r.parentOk {
          return Rejected(ParentRejected);
        }
        if selected.Some? && !r.knownDatasource {
          return Rejected(DatasourceUnknown);
        }
        var created := Claim(Row(r.user, r.run, r.session, Running, Some(r.fingerprint), selected));
        if !created {
          return Rejected(ClaimConflict);
        }
      }
      outcome := Active(isResume, selected);
    }

    /** Inserts a run unless its key is taken. */
    method Claim(row: Row) returns (created: bool)
      requires Valid()
      modifies this
      ensures Valid() && created == !HasKey(old(rows), row.user, row.id)
      ensures rows == if created then old(rows) + [row] else old(rows)
    {
      created := !HasKey(rows, row.user, row.id);
      if created {
        assert (rows + [row])[..|rows|] == rows;
        rows := rows + [row];
      }
    }
  }

  lemma {:induction false} FindIffHasKey(rows: seq<Row>, user: string, id: string)
    ensures Find(rows, user, id).Some? <==> HasKey(rows, user, id)
  {
    if rows != [] { FindIffHasKey(rows[..|rows| - 1], user, id); }
  }

  lemma {:induction false} SetStatusFinds(rows: seq<Row>, user: string, id: string, status: Status)
    requires HasKey(rows, user, id)
    ensures Find(rows, user, id).Some?
    ensures Find(SetStatus(rows, user, id, status), user, id) == Some(Find(rows, user, id).value.(status := status))
  {
    var front, next := rows[..|rows| - 1], SetStatus(rows, user, id, status);
    assert next[..|next| - 1] == SetStatus(front, user, id, status);
    if !(rows[|rows| - 1].user == user && rows[|rows| - 1].id == id) { SetStatusFinds(front, user, id, status); }
  }

  lemma {:induction false} SetStatusKeepsKeys(rows: seq<Row>, user: string, id: string, status: Status)
    ensures var next := SetStatus(rows, user, id, status);
      (forall u, i :: HasKey(next, u, i) <==> HasKey(rows, u, i)) && (DistinctKeys(rows) ==> DistinctKeys(next))
  {
    if rows != [] {
      var next := SetStatus(rows, user, id, status);
      assert next[..|next| - 1] == SetStatus(rows[..|rows| - 1], user, id, status);
      SetStatusKeepsKeys(rows[..|rows| - 1], user, id, status);
    }
  }

  /** The run the claim is for is left as it was. */
  lemma {:induction false} ReclaimKeepsExcluded(rows: seq<Row>, scope: Scope, live: Live)
    ensures Find(Reclaim(rows, scope, live).rows, scope.user, scope.exclude) == Find(rows, scope.user, scope.exclude)
  {
    if rows != [] {
      var after := Reclaim(rows, scope, live).rows;
      ReclaimKeepsExcluded(rows[..|rows| - 1], scope, live);
      if after != rows { assert after[..|after| - 1] == Reclaim(rows[..|rows| - 1], scope, live).rows; }
    }
  }

  // ---------------------------------------------------------------- the start-up pass as a loop

  function OrphanCount(candidates: seq<Row>, live: Live): nat {
    if candidates == [] then 0
    else OrphanCount(candidates[..|candidates| - 1], live)
         + if (candidates[|candidates| - 1].user, candidates[|candidates| - 1].id) in live then 0 else 1
  }

  function CancelAll(rows: seq<Row>, candidates: seq<Row>, live: Live): seq<Row> {
    if candidates == [] then rows
    else
      var last, before := candidates[|candidates| - 1], CancelAll(rows, candidates[..|candidates| - 1], live);
      if (last.user, last.id) in live then before else SetStatus(before, last.user, last.id, Canceled)
  }

  lemma {:induction false} CandidateIsPending(rows: seq<Row>, limit: nat, k: nat)
    requires k < |ListCandidates(rows, limit)|
    ensures var c := ListCandidates(rows, limit)[k];
      (c.status.Queued? || c.status.Running?) && HasKey(rows, c.user, c.id)
    decreases |rows|
  {
    var last, front := rows[|rows| - 1], rows[..|rows| - 1];
    if last.status.Queued? || last.status.Running? {
      if k > 0 { CandidateIsPending(front, limit - 1, k - 1); }
    } else {
      CandidateIsPending(front, limit, k);
    }
  }

  /** Canceling rows of the front leaves a row behind them alone. */
  lemma {:induction false} CancelFront(front: seq<Row>, last: Row, candidates: seq<Row>, live: Live)
    requires forall k :: 0 <= k < |candidates| ==> !(candidates[k].user == last.user && candidates[k].id == last.id)
    ensures CancelAll(front + [last], candidates, live) == CancelAll(front, candidates, live) + [last]
    decreases |candidates|
  {
    if candidates != [] {
      CancelFront(front, last, candidates[..|candidates| - 1], live);
      var before := CancelAll(front, candidates[..|candidates| - 1], live);
      assert (before + [last])[..|before|] == before;
    }
  }

  /** The first candidate may as well be canceled last: it is the row behind all the others. */
  lemma {:induction false} CancelFirst(rows: seq<Row>, first: Row, candidates: seq<Row>, live: Live)
    ensures CancelAll(rows, [first] + candidates, live)
         == CancelAll(if (first.user, first.id) in live then rows else SetStatus(rows, first.user, first.id, Canceled),
                      candidates, live)
    decreases |candidates|
  {
    var all := [first] + candidates;
    if candidates == [] {
      assert all[..0] == [];
      assert CancelAll(rows, [], live) == rows;
    } else {
      assert all[..|all| - 1] == [first] + candidates[..|candidates| - 1];
      CancelFirst(rows, first, candidates[..|candidates| - 1], live);
    }
  }

  lemma {:induction false} CancelAllIsPass(now: seq<Row>, rows: seq<Row>, live: Live, limit: nat)
    requires DistinctKeys(rows) && now == CancelAll(rows, ListCandidates(rows, limit), live)
    ensures now == Pass(rows, live, limit)
    decreases |rows|
  {
    if rows != [] && limit > 0 {
      var last, front := rows[|rows| - 1], rows[..|rows| - 1];
      var pending := last.status.Queued? || last.status.Running?;
      var older := ListCandidates(front, if pending then limit - 1 else limit);
      forall k | 0 <= k < |older| ensures !(older[k].user == last.user && older[k].id == last.id) {
        CandidateIsPending(front, if pending then limit - 1 else limit, k);
      }
      assert rows == front + [last];
      var canceled := if IsOrphan(live, last) then last.(status := Canceled) else last;
      if pending {
        CancelFirst(rows, last, older, live);
        SetStatusElsewhere(front, last.user, last.id, Canceled);
        CancelFront(front, canceled, older, live);
        CancelAllIsPass(CancelAll(front, older, live), front, live, limit - 1);
      } else {
        CancelFront(front, last, older, live);
        CancelAllIsPass(CancelAll(front, older, live), front, live, limit);
      }
    }
  }
}
