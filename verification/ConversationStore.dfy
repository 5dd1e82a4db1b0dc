/** The session, branch and message tables, written in place. */
module ConversationStore {
  import opened Wrappers
  import opened SessionBranching
  import opened SessionIsolation

  class Tables {
    var sessions: map<Id, nat>
    var branches: map<Id, Branch>
    var messages: map<Id, seq<Message>>
    var runs: map<Id, Run>
    var checkpoints: map<Id, Checkpoint>

    function Contents(): Store
      reads this
    {
      Store(sessions, branches, messages, runs, checkpoints)
    }

    constructor ()
      ensures Contents() == EmptyStore && Good(Contents())
    {
      sessions, branches, messages, runs, checkpoints := map[], map[], map[], map[], map[];
    }

    method CreateSession(session: Id)
      modifies this`sessions
      ensures Contents() == Apply(old(Contents()), SessionBranching.CreateSession(session))
    {
      if session !in sessions {
        sessions := sessions[session := |sessions|];
      }
    }

    /** Appends at the next free position; every other session still sees what it saw. */
    method Append(session: Id, run: Id, role: Role, text: string) returns (row: Message)
      requires Good(Contents()) && run in runs && runs[run].session == session
      modifies this`messages
      ensures Contents() == AppendMessage(old(Contents()), session, run, role, text) && Good(Contents())
      ensures row == Message(run, role, text, |old(MessagesOf(Contents(), session))| + 1)
    {
      ghost var before := Contents();
      AppendGood(before, session, run, role, text);
      var rows := MessagesOf(Contents(), session);
      row := Message(run, role, text, NextPosition(rows));
      messages := messages[session := rows + [row]];
      assert Contents() == AppendMessage(before, session, run, role, text);
      assert MessagesOf(Contents(), session)[|rows|] == row;
    }

    /** Refuses without writing, or writes one session row and one branch row. */
    method CreateSessionBranch(active: Id, runId: Option<Id>, checkpointId: Option<Id>, child: Id)
      returns (result: Result<Branch, Error>)
      requires Good(Contents()) && child !in sessions
      modifies this`sessions, this`branches
      ensures result == PlanBranch(old(Contents()), active, runId, checkpointId)
      ensures Contents() == Apply(old(Contents()), Fork(active, runId, checkpointId, child)) && Good(Contents())
    {
      ghost var before := Contents();
      StepGood(before, Fork(active, runId, checkpointId, child));
      var resolved := Resolve(Contents(), active);
      if resolved.Failure? {
        return Failure(resolved.error);
      }
      var lineage := resolved.value;
      if runId.Some? && checkpointId.Some? {
        return Failure(TargetAmbiguous);
      }
      var target := ResolveTarget(Contents(), lineage, runId, checkpointId);
      if target.Failure? {
        return Failure(target.error);
      }
      var runName := target.value.run;
      if runName !in runs {
        return Failure(RunNotFound(runName));
      }
      var run := runs[runName];
      if FindSession(lineage.segments, run.session).None? {
        return Failure(RunNotVisible(runName));
      }
      if !Branchable(run.status) {
        return Failure(RunNotBranchable(runName));
      }
      var position := ForkPosition(Contents(), target.value);
      var parent := Resolve(Contents(), run.session);
      if parent.Failure? {
        return Failure(parent.error);
      }
      var root := if parent.value.branch.Some? then parent.value.branch.value.root else run.session;
      var branch := Branch(run.session, root, runName, checkpointId, position);
      sessions := sessions[child := |sessions|];
      branches := branches[child := branch];
      result := Success(branch);
    }
  }
}
