/**
How the parts of a command fit together (apps/api/src/platform/commands.ts over
apps/api/src/infrastructure/database.ts): what equal digests mean for the requests behind them, and
that each course of a transaction is a way through the command protocol with the same answer.
*/
module Composition {
  import opened Wrappers
  import CommandProtocol
  import CanonicalJson
  import DatabaseTransaction

  // ---------- Digests ----------

  /** An attempt was made for this command and payload: its digest is the hash of their canonical text. */
  ghost predicate MadeFor(digest: CanonicalJson.Text -> string, request: CommandProtocol.Request,
                          command: CanonicalJson.Text, payload: CanonicalJson.Value)
  {
    && CanonicalJson.Plain(payload) && CanonicalJson.Json(payload)
    && var text := CanonicalJson.ServerText(CanonicalJson.RequestValue(command, payload));
    text.Some? && request.digest == digest(text.value)
  }

  ghost predicate Injective(digest: CanonicalJson.Text -> string) {
    forall a, b | digest(a) == digest(b) :: a == b
  }

  /**
  Two callers told success under one key asked for the same command with payloads that are equal up
  to the order of members, and got the same result. A key is never answered for another request.
  */
  lemma SuccessesAskedTheSame(digest: CanonicalJson.Text -> string,
                              run: seq<CommandProtocol.State>, steps: seq<CommandProtocol.Step>,
                              n: nat, id: nat, other: nat,
                              c: CanonicalJson.Text, v: CanonicalJson.Value,
                              d: CanonicalJson.Text, w: CanonicalJson.Value)
    requires Injective(digest)
    requires CommandProtocol.IsRun(run, steps) && n < |run| && id in run[n].attempts && other in run[n].attempts
    requires run[n].attempts[id].request.key == run[n].attempts[other].request.key
    requires MadeFor(digest, run[n].attempts[id].request, c, v) && MadeFor(digest, run[n].attempts[other].request, d, w)
    requires run[n].attempts[id].reply.Some? && run[n].attempts[id].reply.value.Succeeded?
    requires run[n].attempts[other].reply.Some? && run[n].attempts[other].reply.value.Succeeded?
    ensures c == d && CanonicalJson.Equiv(v, w)
    ensures run[n].attempts[id].reply.value.answer.result == run[n].attempts[other].reply.value.answer.result
  {
    CommandProtocol.SuccessesAgree(run, steps, n, id, other);
    CanonicalJson.RequestTextIdentifies(c, v, d, w);
  }

  // ---------- Transactions ----------

  type Course = DatabaseTransaction.Course

  /** Where the attempt stands when the course of its transaction ends. */
  predicate Fits(c: Course, a: CommandProtocol.Attempt) {
    && (DatabaseTransaction.SendsCommit(c) ==> a.phase.Returning?)
    && (DatabaseTransaction.RollsBack(c) && c.rollback.Done? ==> a.phase.Failing?)
  }

  /** The last steps of an attempt, by the course of its transaction. */
  function Ending(c: Course, id: nat): seq<CommandProtocol.Step> {
    if DatabaseTransaction.SendsCommit(c) then
      if c.commit.Done? then [CommandProtocol.Commit(id)]
      else [CommandProtocol.LoseContact(id), CommandProtocol.Settle(id, c.commitReached)]
    else if DatabaseTransaction.Answer(c) == Failure(DatabaseTransaction.OutcomeUnknown) && !RolledBack(c) then
      [CommandProtocol.LoseContact(id), CommandProtocol.Settle(id, false)]
    else if RolledBack(c) then [CommandProtocol.Rollback(id)]
    else [CommandProtocol.DriverError(id), CommandProtocol.Rollback(id)]
  }

  predicate RolledBack(c: Course) {
    DatabaseTransaction.RollsBack(c) && c.rollback.Done?
  }

  /** What the caller of the command is told, by what the transaction answers. */
  function ReplyOf(c: Course, a: CommandProtocol.Attempt): CommandProtocol.Reply
    requires Fits(c, a)
  {
    if DatabaseTransaction.Answer(c).Success? then CommandProtocol.Succeeded(a.phase.answer)
    else if RolledBack(c) then CommandProtocol.Failed(a.phase.code)
    else if DatabaseTransaction.Answer(c) == Failure(DatabaseTransaction.OutcomeUnknown)
    then CommandProtocol.Failed(CommandProtocol.OutcomeUnknown)
    else CommandProtocol.Failed(CommandProtocol.DriverFailed)
  }

  /** The state after the transaction has ended one way or the other. */
  function Ended(s: CommandProtocol.State, id: nat, c: Course): CommandProtocol.State
    requires id in s.attempts && Fits(c, s.attempts[id])
  {
    var reply := Some(ReplyOf(c, s.attempts[id]));
    if DatabaseTransaction.Applied(c) then CommandProtocol.ApplyCommit(s, id, reply)
    else CommandProtocol.ApplyRollback(s, id, reply)
  }

  lemma CommitCourse(s: CommandProtocol.State, id: nat, c: Course) returns (states: seq<CommandProtocol.State>)
    requires CommandProtocol.Driven(s, id) && Fits(c, s.attempts[id]) && DatabaseTransaction.SendsCommit(c)
    ensures CommandProtocol.IsPath(states, Ending(c, id)) && states[0] == s
    ensures states[|Ending(c, id)|] == Ended(s, id, c)
  {
    if c.commit.Done? {
      states := [s, CommandProtocol.Apply(s, CommandProtocol.Commit(id))];
    } else {
      var s1 := CommandProtocol.Apply(s, CommandProtocol.LoseContact(id));
      states := [s, s1, CommandProtocol.Apply(s1, CommandProtocol.Settle(id, c.commitReached))];
    }
  }

  lemma NoCommitCourse(s: CommandProtocol.State, id: nat, c: Course) returns (states: seq<CommandProtocol.State>)
    requires CommandProtocol.Driven(s, id) && Fits(c, s.attempts[id]) && !DatabaseTransaction.SendsCommit(c)
    ensures CommandProtocol.IsPath(states, Ending(c, id)) && states[0] == s
    ensures states[|Ending(c, id)|] == Ended(s, id, c)
  {
    if RolledBack(c) {
      states := [s, CommandProtocol.Apply(s, CommandProtocol.Rollback(id))];
    } else if DatabaseTransaction.Answer(c) == Failure(DatabaseTransaction.OutcomeUnknown) {
      var s1 := CommandProtocol.Apply(s, CommandProtocol.LoseContact(id));
      states := [s, s1, CommandProtocol.Apply(s1, CommandProtocol.Settle(id, false))];
    } else {
      var s1 := CommandProtocol.Apply(s, CommandProtocol.DriverError(id));
      states := [s, s1, CommandProtocol.Apply(s1, CommandProtocol.Rollback(id))];
    }
  }

  /**
  Every course of a transaction ends its attempt through steps of the protocol: a commit, a
  rollback, or a lost contact that the server settles. The attempt is committed exactly when the
  course applies the transaction, and its caller is told success, a definite error or the unknown
  outcome exactly as the transaction answers.
  */
  lemma CourseIsAPath(s: CommandProtocol.State, id: nat, c: Course) returns (states: seq<CommandProtocol.State>)
    requires CommandProtocol.Driven(s, id) && Fits(c, s.attempts[id])
    ensures CommandProtocol.IsPath(states, Ending(c, id)) && states[0] == s
    ensures var end := states[|Ending(c, id)|]; var answer := DatabaseTransaction.Answer(c);
            && id in end.attempts && end.attempts[id].phase == CommandProtocol.Closed(DatabaseTransaction.Applied(c))
            && end.attempts[id].reply == Some(ReplyOf(c, s.attempts[id]))
            && (answer.Success? <==> end.attempts[id].reply.value.Succeeded?)
            && (answer == Failure(DatabaseTransaction.OutcomeUnknown) && !RolledBack(c) ==>
                  end.attempts[id].reply == Some(CommandProtocol.Failed(CommandProtocol.OutcomeUnknown)))
            && (DatabaseTransaction.Applied(c) && !s.attempts[id].phase.answer.replayed ==>
                  |end.effects| == |s.effects| + 1 && end.effects[|s.effects|].attempt == id)
            && (!DatabaseTransaction.Applied(c) ==> end.effects == s.effects && end.rows == s.rows)
  {
    if DatabaseTransaction.SendsCommit(c) {
      states := CommitCourse(s, id, c);
    } else {
      states := NoCommitCourse(s, id, c);
    }
  }
}
