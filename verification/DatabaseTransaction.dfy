/**
The transaction wrapper of apps/api/src/infrastructure/database.ts and its single statements. A
driver call is raced against a cancellation; which of the two settles first, and what the server has
done by then, is given from outside. Driver calls fail asynchronously and disposal does not throw.
*/
module DatabaseTransaction {
  import opened Wrappers

  /** The winner of a race: the call's success, the call's failure, or the cancellation. */
  datatype Race = Done | DriverFailed | Cancelled

  /** What the callback does first: return, throw, or be overtaken by the cancellation. */
  datatype Callback =
    | Returns(value: string)
    | Throws(error: ErrorCode)
    | Overtaken

  /** The reason of a cancellation. */
  datatype Reason = Aborted | TimedOut

  datatype ErrorCode =
    | ClientClosed | BadTimeout | OperationAborted | OperationTimedOut | OperationFailed | OutcomeUnknown
    | CallbackError(message: string)

  function CodeOf(reason: Reason): ErrorCode {
    if reason.Aborted? then OperationAborted else OperationTimedOut
  }

  // ---------- The server's side of one connection ----------

  class Connection {
    /** A transaction is open on the server; its commit has been applied. */
    var open: bool
    var applied: bool
    var releases: nat
    var destructions: nat

    constructor ()
      ensures !open && !applied && releases == 0 && destructions == 0
    {
      open, applied, releases, destructions := false, false, 0, 0;
    }

    /** beginTransaction: an unacknowledged one may have reached the server. */
    method BeginTransaction(race: Race, reached: bool)
      requires !open
      modifies this`open
      ensures open == (race.Done? || reached)
    {
      open := race.Done? || reached;
    }

    /** commit: an unacknowledged one may have been applied. */
    method Commit(race: Race, reached: bool)
      requires open
      modifies this`open, this`applied
      ensures applied == (old(applied) || race.Done? || reached) && open == !(race.Done? || reached)
    {
      if race.Done? || reached {
        applied, open := true, false;
      }
    }

    method Rollback(race: Race, reached: bool)
      requires open
      modifies this`open
      ensures open == !(race.Done? || reached)
    {
      open := !(race.Done? || reached);
    }

    /** release: back to the pool, where nobody expects an open transaction. */
    method Release()
      requires !open
      modifies this`releases
      ensures releases == old(releases) + 1
    {
      releases := releases + 1;
    }

    /** destroy: the server rolls back what is still open. */
    method Destroy()
      modifies this`open, this`destructions
      ensures !open && destructions == old(destructions) + 1
    {
      open := false;
      destructions := destructions + 1;
    }
  }

  // ---------- transaction ----------

  /**
  One call: the state of the client and its arguments, then the winner of each race that is run.
  late says whether a connection arrives after the call has given up waiting for it; each reached
  says whether an unacknowledged call was carried out by the server.
  */
  datatype Course = Course(
    closed: bool, timeoutOk: bool, abortedBefore: bool,
    connect: Race, late: bool, reason: Reason,
    begin: Race, beginReached: bool,
    callback: Callback,
    commit: Race, commitReached: bool,
    rollback: Race, rollbackReached: bool)

  predicate Starts(c: Course) {
    !c.closed && c.timeoutOk && !c.abortedBefore
  }

  /** The call obtains a connection, if only after giving up. */
  predicate Obtains(c: Course) {
    Starts(c) && (c.connect.Done? || (c.connect.Cancelled? && c.late))
  }

  predicate Began(c: Course) {
    Starts(c) && c.connect.Done? && c.begin.Done?
  }

  predicate SendsCommit(c: Course) {
    Began(c) && c.callback.Returns?
  }

  /** The callback failed with an error of the client that says its statement was cut short. */
  predicate CutShort(callback: Callback) {
    callback.Throws? && (callback.error.OperationAborted? || callback.error.OperationTimedOut?)
  }

  predicate RollsBack(c: Course) {
    Began(c) && c.callback.Throws? && !CutShort(c.callback)
  }

  /** After these the connection cannot be trusted. */
  predicate Destroys(c: Course) {
    || (Starts(c) && c.connect.Done? && !c.begin.Done?)
    || (Began(c) && (c.callback.Overtaken? || CutShort(c.callback)))
    || (SendsCommit(c) && !c.commit.Done?)
    || (RollsBack(c) && !c.rollback.Done?)
  }

  /** What the call answers. */
  function Answer(c: Course): Result<string, ErrorCode> {
    if c.closed then Failure(ClientClosed)
    else if !c.timeoutOk then Failure(BadTimeout)
    else if c.abortedBefore then Failure(OperationAborted)
    else if c.connect.Cancelled? then Failure(CodeOf(c.reason))
    else if c.connect.DriverFailed? || c.begin.DriverFailed? then Failure(OperationFailed)
    else if c.begin.Cancelled? || Destroys(c) then Failure(OutcomeUnknown)
    else if c.callback.Throws? then Failure(c.callback.error)
    else Success(c.callback.value)
  }

  /** Whether the server commits the transaction. */
  predicate Applied(c: Course) {
    SendsCommit(c) && (c.commit.Done? || c.commitReached)
  }

  /** A result means an acknowledged commit, and an error that is not "outcome unknown" means none at all. */
  lemma AnswersAreTrue(c: Course)
    ensures Answer(c).Success? <==> SendsCommit(c) && c.commit.Done?
    ensures Answer(c).Success? ==> Applied(c) && Answer(c).value == c.callback.value
    ensures Answer(c).Failure? && Answer(c).error != OutcomeUnknown ==> !Applied(c)
    ensures Starts(c) && c.connect.Cancelled? ==>
              Answer(c) == Failure(if c.reason == Aborted then OperationAborted else OperationTimedOut)
  {
  }

  /** When a commit is not acknowledged the answer is "outcome unknown", whether or not it was applied. */
  lemma UnknownTellsNothing(c: Course)
    requires SendsCommit(c) && !c.commit.Done?
    ensures Answer(c) == Answer(c.(commitReached := !c.commitReached)) == Failure(OutcomeUnknown)
    ensures Applied(c) != Applied(c.(commitReached := !c.commitReached))
  {
  }

  method Transaction(c: Course, connection: Connection) returns (result: Result<string, ErrorCode>)
    requires !connection.open && !connection.applied && connection.releases == 0 && connection.destructions == 0
    modifies connection
    ensures result == Answer(c)
    ensures connection.applied == Applied(c)
    // Every obtained connection is disposed of once, and never with its transaction open.
    ensures connection.releases + connection.destructions == if Obtains(c) then 1 else 0
    ensures connection.destructions == 1 <==> Destroys(c)
    ensures !connection.open
  {
    if c.closed {
      return Failure(ClientClosed);
    }
    if !c.timeoutOk {
      return Failure(BadTimeout);
    }
    if c.abortedBefore {
      return Failure(OperationAborted);
    }
    var committed, began, destroyed := false, false, false;
    var error: Option<ErrorCode> := None;
    if !c.connect.Done? {
      // releaseLateConnection: the connection that nobody waits for any more.
      if c.connect.Cancelled? && c.late {
        connection.Release();
      }
      return Failure(if c.connect.Cancelled? then CodeOf(c.reason) else OperationFailed);
    }
    connection.BeginTransaction(c.begin, c.beginReached);
    if !c.begin.Done? {
      connection.Destroy();
      destroyed := true;
      error := Some(if c.begin.Cancelled? then OutcomeUnknown else OperationFailed);
    } else {
      began := true;
      if c.callback.Overtaken? {
        connection.Destroy();
        destroyed := true;
        error := Some(OutcomeUnknown);
      } else if c.callback.Throws? {
        error := Some(c.callback.error);
      } else {
        connection.Commit(c.commit, c.commitReached);
        if c.commit.Done? {
          committed := true;
        } else {
          connection.Destroy();
          destroyed := true;
          error := Some(OutcomeUnknown);
        }
      }
    }
    if error.Some? && began && !committed && !destroyed {
      if error.value.OperationAborted? || error.value.OperationTimedOut? {
        connection.Destroy();
        destroyed := true;
        error := Some(OutcomeUnknown);
      } else {
        connection.Rollback(c.rollback, c.rollbackReached);
        if !c.rollback.Done? {
          connection.Destroy();
          destroyed := true;
          error := Some(OutcomeUnknown);
        }
      }
    }
    if !destroyed {
      connection.Release();
    }
    result := if error.Some? then Failure(error.value) else Success(c.callback.value);
  }

  // ---------- runSqlOperation ----------

  /** The driver's answer to a statement: a result, an error, its own sequence timeout, or the cancellation first. */
  datatype Statement = Answered(rows: string) | Refused | SequenceTimeout | CutOff

  datatype Operation = Operation(
    abortedBefore: bool,
    connect: Race, late: bool, reason: Reason,
    abortedMeanwhile: bool, timeLeft: bool,
    statement: Statement)

  predicate Waits(o: Operation) {
    !o.abortedBefore && o.connect.Done?
  }

  predicate Sends(o: Operation) {
    Waits(o) && !o.abortedMeanwhile && o.timeLeft
  }

  /** An error, with the warning that the statement may have been carried out. */
  datatype StatementError = StatementError(code: ErrorCode, uncertain: bool)

  method RunSqlOperation(o: Operation, connection: Connection) returns (result: Result<string, StatementError>)
    requires !connection.open && connection.releases == 0 && connection.destructions == 0
    modifies connection
    ensures result.Success? <==> Sends(o) && o.statement.Answered?
    ensures result.Success? ==> result.value == o.statement.rows
    ensures result.Failure? ==>
              var cancelled := if o.reason == Aborted then OperationAborted else OperationTimedOut;
              result.error.code == (if o.abortedBefore then OperationAborted
                                    else if o.connect.Cancelled? then cancelled
                                    else if o.connect.DriverFailed? then OperationFailed
                                    else if o.abortedMeanwhile then OperationAborted
                                    else if !o.timeLeft then OperationTimedOut
                                    else match o.statement
                                      case CutOff => cancelled
                                      case SequenceTimeout => OperationTimedOut
                                      case _ => OperationFailed)
    // The warning is given exactly when the statement was sent and then cut off.
    ensures result.Failure? && result.error.uncertain
       <==> Sends(o) && (o.statement.CutOff? || o.statement.SequenceTimeout?)
    // Only a connection whose statement may still be running is destroyed.
    ensures connection.destructions == 1 <==> Sends(o) && (o.statement.CutOff? || o.statement.SequenceTimeout?)
    ensures connection.releases + connection.destructions
         == if Waits(o) || (!o.abortedBefore && o.connect.Cancelled? && o.late) then 1 else 0
  {
    if o.abortedBefore {
      return Failure(StatementError(OperationAborted, false));
    }
    if !o.connect.Done? {
      if o.connect.DriverFailed? {
        return Failure(StatementError(OperationFailed, false));
      }
      if o.late {
        connection.Release();
      }
      return Failure(StatementError(CodeOf(o.reason), false));
    }
    var destroyConnection := false;
    if o.abortedMeanwhile {
      result := Failure(StatementError(OperationAborted, false));
    } else if !o.timeLeft {
      result := Failure(StatementError(OperationTimedOut, false));
    } else if o.statement.Answered? {
      result := Success(o.statement.rows);
    } else if o.statement.CutOff? {
      destroyConnection := true;
      result := Failure(StatementError(CodeOf(o.reason), true));
    } else if o.statement.SequenceTimeout? {
      destroyConnection := true;
      result := Failure(StatementError(OperationTimedOut, true));
    } else {
      result := Failure(StatementError(OperationFailed, false));
    }
    if destroyConnection {
      connection.Destroy();
    } else {
      connection.Release();
    }
  }
}
