/**
The idempotent command protocol of apps/api/src/platform/commands.ts as a state machine.

Any number of attempts run concurrently. Each one is a database transaction that checks
the writer fence under a share lock, inserts a pending row, selects it for update, runs
the effect, marks the row completed and commits. A transaction works on a private draft
of its row. The caller may lose contact with the database at any moment; a transaction
whose commit was already sent may then still be applied.
*/
module CommandProtocol {
  import opened Wrappers

  // ---------- Rows, requests and replies ----------

  datatype CommandKey = CommandKey(command: string, actorScope: string, idempotencyKey: string)

  datatype Fence = Fence(owner: string, generation: int, enabled: bool)

  const WRITER_FENCE_GENERATION := 2
  const WRITER_OWNER := "fastify-v1"

  /** The check of requireWriterFence against the fence table. */
  predicate FenceActive(fences: map<string, Fence>, resource: string) {
    && resource in fences
    && fences[resource].owner == WRITER_OWNER
    && fences[resource].generation == WRITER_FENCE_GENERATION
    && fences[resource].enabled
  }

  datatype RowStatus = Pending | Completed | Unknown

  /** The text of response_json: an object, or something a replay refuses. */
  datatype StoredBody = ObjectText(result: string) | Malformed

  datatype Row = Row(digest: string, status: RowStatus, responseStatus: Option<int>, response: Option<StoredBody>)

  datatype ResponseStatus = Default | Constant(status: int) | Computed

  datatype Request = Request(
    key: CommandKey, digest: string, resource: string,
    responseStatus: ResponseStatus, validateStatus: bool)

  datatype Code =
    | FenceRejected | KeyReused | InProgress | OutcomeUnknown | InvalidStatus
    | RunFailed(status: int, text: string) | DriverFailed

  /** What the effect does: return a result, with the status a configured function would give it, or throw. */
  datatype RunOutcome = Returned(result: string, computedStatus: int) | Threw(status: int, text: string)

  datatype Answer = Answer(replayed: bool, result: string, status: int)

  datatype Reply = Succeeded(answer: Answer) | Failed(code: Code)

  // ---------- The expressions of commands.ts ----------

  /** resolvedResponseStatus: None where it throws. */
  function ResolvedStatus(request: Request, computed: int): Option<int> {
    var status := match request.responseStatus
      case Default => 200
      case Constant(n) => n
      case Computed => computed;
    if request.validateStatus && (status < 200 || status > 299) then None else Some(status)
  }

  function PendingRow(request: Request): Row {
    Row(request.digest, Pending, None, None)
  }

  function CompletedRow(digest: string, result: string, status: int): Row {
    Row(digest, Completed, Some(status), Some(ObjectText(result)))
  }

  datatype Decision = Execute | Replay(answer: Answer) | Refuse(code: Code)

  /** parseReplay together with the response status of a replay. */
  function ParseReplay(request: Request, row: Row): Decision {
    if row.response.None? || row.responseStatus.None? then Refuse(OutcomeUnknown)
    else match row.response.value
      case Malformed => Refuse(OutcomeUnknown)
      case ObjectText(result) =>
        Replay(Answer(true, result, row.responseStatus.value))
  }

  /** The branches between SELECT ... FOR UPDATE and the effect. */
  function Decide(request: Request, affected: nat, row: Option<Row>): Decision {
    if row.None? then Refuse(OutcomeUnknown)
    else if row.value.digest != request.digest then Refuse(KeyReused)
    else if affected == 0 then
      match row.value.status
      case Completed => ParseReplay(request, row.value)
      case Unknown => Refuse(OutcomeUnknown)
      case Pending => Refuse(InProgress)
    else Execute
  }

  // ---------- The state machine ----------

  datatype Phase =
    | Begun
    | Fenced
    | Inserted(affected: nat)
    | Executing
    | Ran(result: string, status: int)
    | Returning(answer: Answer)
    | Failing(code: Code)
    | Closed(committed: bool)

  datatype Attempt = Attempt(request: Request, phase: Phase, draft: Option<Row>, reply: Option<Reply>)

  /** One committed effect, with the fence row as it stood at the commit. */
  datatype Effect = Effect(
    attempt: nat, key: CommandKey, digest: string, result: string, status: int, fenceHeld: bool)

  datatype State = State(
    fences: map<string, Fence>,
    rows: map<CommandKey, Row>,
    locks: map<CommandKey, nat>,
    attempts: map<nat, Attempt>,
    effects: seq<Effect>)

  datatype Step =
    | Begin(id: nat, request: Request)
    | CheckFence(id: nat)
    | InsertIgnore(id: nat)
    | SelectForUpdate(id: nat)
    | RunEffect(id: nat, outcome: RunOutcome)
    | MarkCompleted(id: nat)
    | Commit(id: nat)
    | Rollback(id: nat)
    | DriverError(id: nat)
    | LoseContact(id: nat)
    | Settle(id: nat, applied: bool)
    | FlipFence(resource: string, fence: Fence)

  ghost predicate Init(s: State) {
    s.rows == map[] && s.locks == map[] && s.attempts == map[] && s.effects == []
  }

  /** The share lock on the fence row lives from the fence check to the end of the transaction. */
  predicate HoldsFence(a: Attempt) {
    a.phase.Fenced? || a.phase.Inserted? || a.phase.Executing? || a.phase.Ran? || a.phase.Returning?
  }

  predicate LockFree(s: State, id: nat, key: CommandKey) {
    key in s.locks ==> s.locks[key] == id
  }

  /** The attempt is driven by a caller that still waits for its reply. */
  predicate Driven(s: State, id: nat) {
    id in s.attempts && !s.attempts[id].phase.Closed? && s.attempts[id].reply.None?
  }

  predicate Enabled(s: State, step: Step) {
    match step
    case Begin(id, _) => id !in s.attempts
    case CheckFence(id) => Driven(s, id) && s.attempts[id].phase.Begun?
    case InsertIgnore(id) =>
      && Driven(s, id) && s.attempts[id].phase.Fenced?
      && LockFree(s, id, s.attempts[id].request.key)
    case SelectForUpdate(id) =>
      && Driven(s, id) && s.attempts[id].phase.Inserted?
      && LockFree(s, id, s.attempts[id].request.key)
    case RunEffect(id, _) => Driven(s, id) && s.attempts[id].phase.Executing?
    case MarkCompleted(id) => Driven(s, id) && s.attempts[id].phase.Ran?
    case Commit(id) => Driven(s, id) && s.attempts[id].phase.Returning?
    case Rollback(id) => Driven(s, id) && s.attempts[id].phase.Failing?
    case DriverError(id) => Driven(s, id)
    case LoseContact(id) => Driven(s, id)
    case Settle(id, applied) =>
      && id in s.attempts && !s.attempts[id].phase.Closed? && s.attempts[id].reply.Some?
      && (applied ==> s.attempts[id].phase.Returning?)
    case FlipFence(resource, _) =>
      forall id | id in s.attempts && HoldsFence(s.attempts[id]) :: s.attempts[id].request.resource != resource
  }

  function Release(locks: map<CommandKey, nat>, id: nat): map<CommandKey, nat> {
    map key | key in locks && locks[key] != id :: locks[key]
  }

  function Move(s: State, id: nat, phase: Phase): State
    requires id in s.attempts
  {
    s.(attempts := s.attempts[id := s.attempts[id].(phase := phase)])
  }

  function VisibleRow(s: State, a: Attempt): Option<Row> {
    if a.draft.Some? then a.draft
    else if a.request.key in s.rows then Some(s.rows[a.request.key]) else None
  }

  /** UPDATE ... WHERE request_digest = ? AND status = 'pending': the number of rows changed. */
  function CompletionMatches(a: Attempt): bool {
    a.draft.Some? && a.draft.value.digest == a.request.digest && a.draft.value.status == Pending
  }

  /** The transaction's private row and its effect become visible and its locks go. */
  function ApplyCommit(s: State, id: nat, reply: Option<Reply>): State
    requires id in s.attempts && s.attempts[id].phase.Returning?
  {
    var a := s.attempts[id];
    var answer := a.phase.answer;
    s.(rows := if a.draft.Some? then s.rows[a.request.key := a.draft.value] else s.rows,
       effects := if answer.replayed then s.effects else
         s.effects + [Effect(id, a.request.key, a.request.digest, answer.result, answer.status,
                             FenceActive(s.fences, a.request.resource))],
       locks := Release(s.locks, id),
       attempts := s.attempts[id := a.(phase := Closed(true), reply := reply)])
  }

  function ApplyRollback(s: State, id: nat, reply: Option<Reply>): State
    requires id in s.attempts
  {
    s.(locks := Release(s.locks, id),
       attempts := s.attempts[id := s.attempts[id].(phase := Closed(false), draft := None, reply := reply)])
  }

  /** INSERT IGNORE: a new pending row locks its key, a duplicate changes nothing. */
  function AfterInsert(s: State, id: nat): State
    requires id in s.attempts
  {
    var a := s.attempts[id];
    if a.request.key in s.rows then Move(s, id, Inserted(0))
    else s.(locks := s.locks[a.request.key := id],
            attempts := s.attempts[id := a.(phase := Inserted(1), draft := Some(PendingRow(a.request)))])
  }

  /** SELECT ... FOR UPDATE locks the key and settles how the attempt goes on. */
  function AfterSelect(s: State, id: nat): State
    requires id in s.attempts && s.attempts[id].phase.Inserted?
  {
    var a := s.attempts[id];
    var next := match Decide(a.request, a.phase.affected, VisibleRow(s, a))
      case Execute => Executing
      case Replay(answer) => Returning(answer)
      case Refuse(code) => Failing(code);
    Move(s, id, next).(locks := s.locks[a.request.key := id])
  }

  function Apply(s: State, step: Step): State
    requires Enabled(s, step)
  {
    match step
    case Begin(id, request) => s.(attempts := s.attempts[id := Attempt(request, Begun, None, None)])
    case CheckFence(id) =>
      Move(s, id, if FenceActive(s.fences, s.attempts[id].request.resource) then Fenced else Failing(FenceRejected))
    case InsertIgnore(id) => AfterInsert(s, id)
    case SelectForUpdate(id) => AfterSelect(s, id)
    case RunEffect(id, outcome) =>
      var next := match outcome
        case Threw(status, text) => Failing(RunFailed(status, text))
        case Returned(result, computed) =>
          match ResolvedStatus(s.attempts[id].request, computed)
          case None => Failing(InvalidStatus)
          case Some(status) => Ran(result, status);
      Move(s, id, next)
    case MarkCompleted(id) =>
      var a := s.attempts[id];
      if CompletionMatches(a) then
        s.(attempts := s.attempts[id := a.(
          phase := Returning(Answer(false, a.phase.result, a.phase.status)),
          draft := Some(CompletedRow(a.request.digest, a.phase.result, a.phase.status)))])
      else Move(s, id, Failing(OutcomeUnknown))
    case Commit(id) => ApplyCommit(s, id, Some(Succeeded(s.attempts[id].phase.answer)))
    case Rollback(id) => ApplyRollback(s, id, Some(Failed(s.attempts[id].phase.code)))
    case DriverError(id) => Move(s, id, Failing(DriverFailed))
    case LoseContact(id) => s.(attempts := s.attempts[id := s.attempts[id].(reply := Some(Failed(OutcomeUnknown)))])
    case Settle(id, applied) =>
      if applied then ApplyCommit(s, id, s.attempts[id].reply) else ApplyRollback(s, id, s.attempts[id].reply)
    case FlipFence(resource, fence) => s.(fences := s.fences[resource := fence])
  }

  // ---------- The inductive invariant ----------

  ghost predicate Backed(rows: map<CommandKey, Row>, e: Effect) {
    e.key in rows && rows[e.key] == CompletedRow(e.digest, e.result, e.status)
  }

  /** Committed rows and committed effects correspond one to one; so no committed row is pending. */
  ghost predicate LedgerOk(rows: map<CommandKey, Row>, effects: seq<Effect>) {
    && (forall i | 0 <= i < |effects| :: Backed(rows, effects[i]) && effects[i].fenceHeld)
    && (forall i, j | 0 <= i < j < |effects| :: effects[i].key != effects[j].key)
    && (forall key | key in rows :: exists i :: 0 <= i < |effects| && effects[i].key == key)
  }

  ghost predicate AnswerBacked(rows: map<CommandKey, Row>, request: Request, answer: Answer) {
    request.key in rows && rows[request.key] == CompletedRow(request.digest, answer.result, answer.status)
  }

  ghost predicate PhaseOk(s: State, id: nat, a: Attempt) {
    match a.phase
    case Begun => a.draft.None?
    case Fenced => a.draft.None?
    case Inserted(affected) =>
      if affected == 0 then a.draft.None? && a.request.key in s.rows
      else a.draft == Some(PendingRow(a.request))
    case Executing => a.draft == Some(PendingRow(a.request))
    case Ran(_, _) => a.draft == Some(PendingRow(a.request))
    case Returning(answer) =>
      && a.request.key in s.locks && s.locks[a.request.key] == id
      && if answer.replayed then a.draft.None? && AnswerBacked(s.rows, a.request, answer)
         else a.draft == Some(CompletedRow(a.request.digest, answer.result, answer.status))
    case Failing(code) => code != InProgress
    case Closed(_) => true
  }

  ghost predicate AttemptOk(s: State, id: nat, a: Attempt) {
    && PhaseOk(s, id, a)
    && (HoldsFence(a) ==> FenceActive(s.fences, a.request.resource))
    && (!a.phase.Closed? && a.draft.Some? ==>
          a.request.key in s.locks && s.locks[a.request.key] == id && a.request.key !in s.rows)
    && (a.reply.Some? && a.reply.value.Succeeded? ==>
          a.phase == Closed(true) && AnswerBacked(s.rows, a.request, a.reply.value.answer))
    && (a.reply.Some? && a.reply.value.Failed? ==> a.reply.value.code != InProgress)
    && (a.phase.Closed? ==> a.reply.Some?)
  }

  /** An effect belongs to an attempt whose caller was told success, or that the outcome is unknown. */
  ghost predicate EffectOwned(attempts: map<nat, Attempt>, e: Effect) {
    && e.attempt in attempts
    && attempts[e.attempt].request.key == e.key
    && attempts[e.attempt].phase == Closed(true)
    && (attempts[e.attempt].reply == Some(Succeeded(Answer(false, e.result, e.status)))
        || attempts[e.attempt].reply == Some(Failed(OutcomeUnknown)))
  }

  /** A caller that lost contact was told so, and nothing else. */
  ghost predicate ContactOk(a: Attempt) {
    !a.phase.Closed? && a.reply.Some? ==> a.reply.value == Failed(OutcomeUnknown)
  }

  ghost predicate Inv(s: State) {
    && LedgerOk(s.rows, s.effects)
    && (forall id | id in s.attempts :: AttemptOk(s, id, s.attempts[id]) && ContactOk(s.attempts[id]))
    && (forall i | 0 <= i < |s.effects| :: EffectOwned(s.attempts, s.effects[i]))
  }

  lemma InitHolds(s: State)
    requires Init(s)
    ensures Inv(s)
  {
  }

  /** A row and its effect enter the ledger together, under a key that had neither. */
  lemma LedgerGrows(rows: map<CommandKey, Row>, effects: seq<Effect>, e: Effect)
    requires LedgerOk(rows, effects) && e.key !in rows && e.fenceHeld
    ensures LedgerOk(rows[e.key := CompletedRow(e.digest, e.result, e.status)], effects + [e])
  {
    var rows' := rows[e.key := CompletedRow(e.digest, e.result, e.status)];
    var effects' := effects + [e];
    forall i | 0 <= i < |effects'| ensures Backed(rows', effects'[i]) && effects'[i].fenceHeld {
      if i < |effects| { assert Backed(rows, effects[i]); }
    }
    forall key | key in rows' ensures exists i :: 0 <= i < |effects'| && effects'[i].key == key {
      if key == e.key {
        assert effects'[|effects|].key == key;
      } else {
        var i :| 0 <= i < |effects| && effects[i].key == key;
        assert effects'[i].key == key;
      }
    }
    forall i, j | 0 <= i < j < |effects'| ensures effects'[i].key != effects'[j].key {
      assert Backed(rows, effects[i]);
    }
  }

  lemma CommitKeepsLedger(s: State, id: nat, reply: Option<Reply>)
    requires Inv(s) && id in s.attempts && s.attempts[id].phase.Returning?
    ensures LedgerOk(ApplyCommit(s, id, reply).rows, ApplyCommit(s, id, reply).effects)
  {
    var t := ApplyCommit(s, id, reply);
    var a := s.attempts[id];
    assert AttemptOk(s, id, a);
    if !a.phase.answer.replayed {
      LedgerGrows(s.rows, s.effects, t.effects[|s.effects|]);
    }
  }

  lemma CommitKeepsOther(s: State, id: nat, reply: Option<Reply>, other: nat)
    requires Inv(s) && id in s.attempts && s.attempts[id].phase.Returning?
    requires other in s.attempts && other != id
    ensures AttemptOk(ApplyCommit(s, id, reply), other, s.attempts[other])
  {
    assert AttemptOk(s, id, s.attempts[id]);
    assert AttemptOk(s, other, s.attempts[other]);
  }

  lemma CommitKeepsEffect(s: State, id: nat, reply: Option<Reply>, i: nat)
    requires id in s.attempts && s.attempts[id].phase.Returning? && i < |ApplyCommit(s, id, reply).effects|
    requires reply == Some(Succeeded(s.attempts[id].phase.answer)) || reply == Some(Failed(OutcomeUnknown))
    requires forall k | 0 <= k < |s.effects| :: EffectOwned(s.attempts, s.effects[k])
    ensures EffectOwned(ApplyCommit(s, id, reply).attempts, ApplyCommit(s, id, reply).effects[i])
  {
    if i < |s.effects| {
      assert EffectOwned(s.attempts, s.effects[i]);
    }
  }

  lemma CommitKeepsInv(s: State, id: nat, reply: Option<Reply>)
    requires Inv(s) && id in s.attempts && s.attempts[id].phase.Returning?
    requires reply == Some(Succeeded(s.attempts[id].phase.answer)) || reply == Some(Failed(OutcomeUnknown))
    ensures Inv(ApplyCommit(s, id, reply))
  {
    var t := ApplyCommit(s, id, reply);
    CommitKeepsLedger(s, id, reply);
    assert AttemptOk(s, id, s.attempts[id]);
    forall other | other in t.attempts
      ensures AttemptOk(t, other, t.attempts[other]) && ContactOk(t.attempts[other])
    {
      if other != id {
        CommitKeepsOther(s, id, reply, other);
        assert ContactOk(s.attempts[other]);
      }
    }
    forall i | 0 <= i < |t.effects| ensures EffectOwned(t.attempts, t.effects[i]) {
      CommitKeepsEffect(s, id, reply, i);
    }
  }

  lemma RollbackKeepsInv(s: State, id: nat, reply: Option<Reply>)
    requires Inv(s) && id in s.attempts && !s.attempts[id].phase.Closed?
    requires reply.Some? && reply.value.Failed? && reply.value.code != InProgress
    ensures Inv(ApplyRollback(s, id, reply))
  {
    var t := ApplyRollback(s, id, reply);
    forall other | other in t.attempts ensures AttemptOk(t, other, t.attempts[other]) && ContactOk(t.attempts[other]) {
      assert AttemptOk(s, other, s.attempts[other]) && ContactOk(s.attempts[other]);
    }
    forall i | 0 <= i < |t.effects| ensures EffectOwned(t.attempts, t.effects[i]) {
      assert EffectOwned(s.attempts, s.effects[i]);
    }
  }

  /** A committed row is the completed row of its effect. */
  lemma RowIsCompleted(s: State, key: CommandKey) returns (row: Row)
    requires LedgerOk(s.rows, s.effects) && key in s.rows
    ensures row == s.rows[key] && row.response.Some? && row.response.value.ObjectText? && row.responseStatus.Some?
    ensures row == CompletedRow(row.digest, row.response.value.result, row.responseStatus.value)
  {
    row := s.rows[key];
    var i :| 0 <= i < |s.effects| && s.effects[i].key == key;
    assert Backed(s.rows, s.effects[i]);
  }

  /** No committed row is pending, so a duplicate insert is always answered by a completed row. */
  lemma DuplicateDecision(s: State, id: nat)
    requires LedgerOk(s.rows, s.effects) && id in s.attempts && AttemptOk(s, id, s.attempts[id])
    requires s.attempts[id].phase.Inserted?
    ensures var a := s.attempts[id];
            var decision := Decide(a.request, a.phase.affected, VisibleRow(s, a));
            && decision != Refuse(InProgress) && decision != Refuse(OutcomeUnknown)
            && (decision.Execute? <==> a.phase.affected != 0)
            && (decision.Replay? ==> decision.answer.replayed && AnswerBacked(s.rows, a.request, decision.answer))
  {
    var a := s.attempts[id];
    if a.phase.affected == 0 {
      var row := RowIsCompleted(s, a.request.key);
    }
  }

  /** Steps that change one attempt and at most lock its own key. */
  lemma LocalStepKeepsInv(s: State, t: State, id: nat)
    requires Inv(s) && id in t.attempts
    requires t.rows == s.rows && t.effects == s.effects && t.fences == s.fences
    requires t.attempts == s.attempts[id := t.attempts[id]]
    requires t.locks == s.locks
             || (LockFree(s, id, t.attempts[id].request.key) && t.locks == s.locks[t.attempts[id].request.key := id])
    requires id in s.attempts ==> !s.attempts[id].phase.Closed?
    requires AttemptOk(t, id, t.attempts[id]) && ContactOk(t.attempts[id])
    ensures Inv(t)
  {
    forall other | other in t.attempts
      ensures AttemptOk(t, other, t.attempts[other]) && ContactOk(t.attempts[other])
    {
      if other != id {
        assert AttemptOk(s, other, s.attempts[other]) && ContactOk(s.attempts[other]);
      }
    }
    forall i | 0 <= i < |t.effects| ensures EffectOwned(t.attempts, t.effects[i]) {
      assert EffectOwned(s.attempts, s.effects[i]);
    }
  }

  lemma FlipKeepsInv(s: State, resource: string, fence: Fence)
    requires Inv(s) && Enabled(s, FlipFence(resource, fence))
    ensures Inv(Apply(s, FlipFence(resource, fence)))
  {
    var t := Apply(s, FlipFence(resource, fence));
    forall id | id in t.attempts ensures AttemptOk(t, id, t.attempts[id]) && ContactOk(t.attempts[id]) {
      assert AttemptOk(s, id, s.attempts[id]) && ContactOk(s.attempts[id]);
    }
  }

  /** A step in which the transaction of one attempt reads, or writes its own draft. */
  predicate Local(step: Step) {
    !step.Commit? && !step.Rollback? && !step.Settle? && !step.FlipFence?
  }

  lemma SelectKeepsInv(s: State, id: nat)
    requires Inv(s) && Enabled(s, SelectForUpdate(id))
    ensures Inv(Apply(s, SelectForUpdate(id)))
  {
    assert AttemptOk(s, id, s.attempts[id]);
    DuplicateDecision(s, id);
    LocalStepKeepsInv(s, Apply(s, SelectForUpdate(id)), id);
  }

  lemma LocalKeepsAttempt(s: State, step: Step)
    requires Enabled(s, step) && Local(step) && !step.SelectForUpdate?
    requires !step.Begin? ==> AttemptOk(s, step.id, s.attempts[step.id])
    ensures var t := Apply(s, step);
            && step.id in t.attempts && AttemptOk(t, step.id, t.attempts[step.id]) && ContactOk(t.attempts[step.id])
  {
  }

  lemma LocalKeepsInv(s: State, step: Step)
    requires Inv(s) && Enabled(s, step) && Local(step)
    ensures Inv(Apply(s, step))
  {
    if step.SelectForUpdate? {
      SelectKeepsInv(s, step.id);
    } else {
      if !step.Begin? { assert AttemptOk(s, step.id, s.attempts[step.id]); }
      LocalKeepsAttempt(s, step);
      LocalStepKeepsInv(s, Apply(s, step), step.id);
    }
  }

  /** Every step of every attempt keeps the invariant. */
  lemma StepKeepsInv(s: State, step: Step)
    requires Inv(s) && Enabled(s, step)
    ensures Inv(Apply(s, step))
  {
    if Local(step) {
      LocalKeepsInv(s, step);
    } else if step.FlipFence? {
      FlipKeepsInv(s, step.resource, step.fence);
    } else {
      assert AttemptOk(s, step.id, s.attempts[step.id]) && ContactOk(s.attempts[step.id]);
      if step.Commit? {
        CommitKeepsInv(s, step.id, Some(Succeeded(s.attempts[step.id].phase.answer)));
      } else if step.Rollback? {
        RollbackKeepsInv(s, step.id, Some(Failed(s.attempts[step.id].phase.code)));
      } else if step.applied {
        CommitKeepsInv(s, step.id, s.attempts[step.id].reply);
      } else {
        RollbackKeepsInv(s, step.id, s.attempts[step.id].reply);
      }
    }
  }

  // ---------- Whole runs ----------

  /** Step i leads from one state to the next. */
  ghost predicate Linked(run: seq<State>, steps: seq<Step>, i: nat) {
    && i < |steps| && i + 1 < |run|
    && Enabled(run[i], steps[i]) && run[i + 1] == Apply(run[i], steps[i])
  }

  /** A run: states and the steps between them, from an empty command table. */
  ghost predicate IsRun(run: seq<State>, steps: seq<Step>) {
    && |run| == |steps| + 1
    && Init(run[0])
    && forall i: nat | i < |steps| :: Linked(run, steps, i)
  }

  lemma {:induction false} RunKeepsInv(run: seq<State>, steps: seq<Step>, n: nat)
    requires IsRun(run, steps) && n < |run|
    ensures Inv(run[n])
    decreases n
  {
    if n == 0 {
      InitHolds(run[0]);
    } else {
      RunKeepsInv(run, steps, n - 1);
      assert Linked(run, steps, n - 1);
      StepKeepsInv(run[n - 1], steps[n - 1]);
    }
  }

  ghost function EffectsUnder(effects: seq<Effect>, key: CommandKey): nat {
    if effects == [] then 0
    else EffectsUnder(effects[..|effects| - 1], key) + if effects[|effects| - 1].key == key then 1 else 0
  }

  lemma {:induction false} CountDistinct(effects: seq<Effect>, key: CommandKey)
    requires forall i, j | 0 <= i < j < |effects| :: effects[i].key != effects[j].key
    ensures EffectsUnder(effects, key) <= 1
    ensures EffectsUnder(effects, key) == 1 <==> exists i :: 0 <= i < |effects| && effects[i].key == key
  {
    if effects != [] {
      var init := effects[..|effects| - 1];
      CountDistinct(init, key);
      assert forall i | 0 <= i < |init| :: init[i] == effects[i];
    }
  }

  lemma LedgerCounts(s: State, key: CommandKey)
    requires Inv(s)
    ensures EffectsUnder(s.effects, key) <= 1
    ensures EffectsUnder(s.effects, key) == 1 <==> key in s.rows
    ensures key in s.rows ==> s.rows[key].status == Completed
  {
    CountDistinct(s.effects, key);
    assert forall i | 0 <= i < |s.effects| :: Backed(s.rows, s.effects[i]);
  }

  /** In every state of every run, an effect is committed at most once per (command, actor, key). */
  lemma AtMostOneEffect(run: seq<State>, steps: seq<Step>, n: nat, key: CommandKey)
    requires IsRun(run, steps) && n < |run|
    ensures EffectsUnder(run[n].effects, key) <= 1
    ensures EffectsUnder(run[n].effects, key) == 1 <==> key in run[n].rows
    ensures key in run[n].rows ==> run[n].rows[key].status == Completed
  {
    RunKeepsInv(run, steps, n);
    LedgerCounts(run[n], key);
  }

  /** Every success, fresh or replayed, reports the one committed effect of its key and its own digest. */
  lemma SuccessReportsTheEffect(run: seq<State>, steps: seq<Step>, n: nat, id: nat) returns (e: Effect)
    requires IsRun(run, steps) && n < |run| && id in run[n].attempts
    requires run[n].attempts[id].reply.Some? && run[n].attempts[id].reply.value.Succeeded?
    ensures e in run[n].effects && EffectsUnder(run[n].effects, e.key) == 1
    ensures var a := run[n].attempts[id];
            && e.key == a.request.key && e.digest == a.request.digest
            && e.result == a.reply.value.answer.result && e.status == a.reply.value.answer.status
  {
    RunKeepsInv(run, steps, n);
    var s := run[n];
    var a := s.attempts[id];
    assert AttemptOk(s, id, a);
    CountDistinct(s.effects, a.request.key);
    var i :| 0 <= i < |s.effects| && s.effects[i].key == a.request.key;
    assert Backed(s.rows, s.effects[i]);
    e := s.effects[i];
  }

  /** Two callers told success under one key got the same result, status and request digest. */
  lemma SuccessesAgree(run: seq<State>, steps: seq<Step>, n: nat, id: nat, other: nat)
    requires IsRun(run, steps) && n < |run| && id in run[n].attempts && other in run[n].attempts
    requires var a := run[n].attempts[id]; var b := run[n].attempts[other];
             && a.request.key == b.request.key
             && a.reply.Some? && a.reply.value.Succeeded? && b.reply.Some? && b.reply.value.Succeeded?
    ensures var a := run[n].attempts[id]; var b := run[n].attempts[other];
            && a.request.digest == b.request.digest
            && a.reply.value.answer.result == b.reply.value.answer.result
            && a.reply.value.answer.status == b.reply.value.answer.status
  {
    RunKeepsInv(run, steps, n);
    assert AttemptOk(run[n], id, run[n].attempts[id]) && AttemptOk(run[n], other, run[n].attempts[other]);
  }

  /** An attempt told any error but the unknown outcome has committed nothing, then and ever after. */
  lemma DefiniteErrorCommittedNothing(run: seq<State>, steps: seq<Step>, m: nat, n: nat, id: nat)
    requires IsRun(run, steps) && m <= n < |run| && id in run[m].attempts
    requires run[m].attempts[id].reply.Some? && run[m].attempts[id].reply.value.Failed?
    requires run[m].attempts[id].reply.value.code != OutcomeUnknown
    ensures forall i | 0 <= i < |run[n].effects| :: run[n].effects[i].attempt != id
  {
    ReplyIsFinal(run, steps, m, n, id);
    RunKeepsInv(run, steps, n);
    assert forall i | 0 <= i < |run[n].effects| :: EffectOwned(run[n].attempts, run[n].effects[i]);
  }

  lemma StepKeepsReply(s: State, step: Step, id: nat)
    requires Enabled(s, step) && id in s.attempts && s.attempts[id].reply.Some?
    ensures id in Apply(s, step).attempts
    ensures Apply(s, step).attempts[id].reply == s.attempts[id].reply
    ensures Apply(s, step).attempts[id].request == s.attempts[id].request
  {
  }

  lemma {:induction false} ReplyIsFinal(run: seq<State>, steps: seq<Step>, m: nat, n: nat, id: nat)
    requires IsRun(run, steps) && m <= n < |run| && id in run[m].attempts && run[m].attempts[id].reply.Some?
    ensures id in run[n].attempts && run[n].attempts[id].reply == run[m].attempts[id].reply
    ensures run[n].attempts[id].request == run[m].attempts[id].request
    decreases n
  {
    if m < n {
      ReplyIsFinal(run, steps, m, n - 1, id);
      assert Linked(run, steps, n - 1);
      StepKeepsReply(run[n - 1], steps[n - 1], id);
    }
  }

  /** The one fence row under which a command may write. */
  ghost predicate RequiredFence(fences: map<string, Fence>, resource: string) {
    resource in fences && fences[resource] == Fence("fastify-v1", 2, true)
  }

  /** Each effect was committed while its fence row had the required owner, generation and flag. */
  lemma EffectsCommitUnderTheFence(run: seq<State>, steps: seq<Step>, n: nat)
    requires IsRun(run, steps) && n < |steps| && |run[n + 1].effects| != |run[n].effects|
    ensures (steps[n].Commit? || steps[n].Settle?)
    ensures var id := steps[n].id;
            id in run[n].attempts && RequiredFence(run[n].fences, run[n].attempts[id].request.resource)
    ensures forall e | e in run[n + 1].effects :: e.fenceHeld
  {
    RunKeepsInv(run, steps, n);
    RunKeepsInv(run, steps, n + 1);
    assert Linked(run, steps, n);
    if steps[n].Commit? || steps[n].Settle? {
      assert AttemptOk(run[n], steps[n].id, run[n].attempts[steps[n].id]);
    }
  }

  /** Turned away by its fence: it has written nothing, and is rolled back. */
  ghost predicate TurnedAway(a: Attempt) {
    && a.draft.None?
    && (a.phase == Failing(FenceRejected) || a.phase == Failing(DriverFailed) || a.phase == Closed(false))
    && (a.reply.None? || a.reply == Some(Failed(FenceRejected)) || a.reply == Some(Failed(DriverFailed))
        || a.reply == Some(Failed(OutcomeUnknown)))
  }

  lemma StepKeepsTurnedAway(s: State, step: Step, id: nat)
    requires Enabled(s, step) && id in s.attempts && TurnedAway(s.attempts[id])
    ensures id in Apply(s, step).attempts && TurnedAway(Apply(s, step).attempts[id])
  {
  }

  lemma {:induction false} StaysTurnedAway(run: seq<State>, steps: seq<Step>, m: nat, n: nat, id: nat)
    requires IsRun(run, steps) && m <= n < |run| && id in run[m].attempts && TurnedAway(run[m].attempts[id])
    ensures id in run[n].attempts && TurnedAway(run[n].attempts[id])
    decreases n - m
  {
    if m < n {
      StaysTurnedAway(run, steps, m, n - 1, id);
      assert Linked(run, steps, n - 1);
      StepKeepsTurnedAway(run[n - 1], steps[n - 1], id);
    }
  }

  /**
  A fence check passes exactly if the row is there with that owner, that generation and the flag. An
  attempt that fails it is told so, unless the connection is lost, and never commits anything.
  */
  lemma FenceDecides(run: seq<State>, steps: seq<Step>, m: nat, n: nat, id: nat)
    requires IsRun(run, steps) && m < n < |run| && steps[m] == CheckFence(id)
    ensures id in run[m].attempts && id in run[m + 1].attempts && id in run[n].attempts
    ensures var required := RequiredFence(run[m].fences, run[m].attempts[id].request.resource);
            && run[m + 1].attempts[id].phase == (if required then Fenced else Failing(FenceRejected))
            && (!required ==>
                  && TurnedAway(run[n].attempts[id])
                  && forall i | 0 <= i < |run[n].effects| :: run[n].effects[i].attempt != id)
  {
    RunKeepsInv(run, steps, m);
    assert Linked(run, steps, m);
    assert AttemptOk(run[m], id, run[m].attempts[id]);
    if TurnedAway(run[m + 1].attempts[id]) {
      StaysTurnedAway(run, steps, m + 1, n, id);
      RunKeepsInv(run, steps, n);
      assert forall i | 0 <= i < |run[n].effects| :: EffectOwned(run[n].attempts, run[n].effects[i]);
    } else {
      StillThere(run, steps, m, n, id);
    }
  }

  lemma StepKeepsAttempt(s: State, step: Step, id: nat)
    requires Enabled(s, step) && id in s.attempts
    ensures id in Apply(s, step).attempts
  {
  }

  lemma {:induction false} StillThere(run: seq<State>, steps: seq<Step>, m: nat, n: nat, id: nat)
    requires IsRun(run, steps) && m <= n < |run| && id in run[m].attempts
    ensures id in run[n].attempts
    decreases n - m
  {
    if m < n {
      StillThere(run, steps, m, n - 1, id);
      assert Linked(run, steps, n - 1);
      StepKeepsAttempt(run[n - 1], steps[n - 1], id);
    }
  }

  /** The conflict branches that guard against a pending or missing row are never taken. */
  lemma NeverInProgress(run: seq<State>, steps: seq<Step>, n: nat, id: nat)
    requires IsRun(run, steps) && n < |run| && id in run[n].attempts
    ensures run[n].attempts[id].reply != Some(Failed(InProgress))
    ensures run[n].attempts[id].phase.Ran? ==> CompletionMatches(run[n].attempts[id])
    ensures run[n].attempts[id].phase.Inserted? ==> VisibleRow(run[n], run[n].attempts[id]).Some?
  {
    RunKeepsInv(run, steps, n);
    assert AttemptOk(run[n], id, run[n].attempts[id]);
  }

  // ---------- Two ways through the machine ----------

  /** Neither a new attempt nor an effect that throws. */
  predicate Quiet(step: Step) {
    !step.Begin? && (step.RunEffect? ==> step.outcome.Returned?)
  }

  /** States linked by steps, from anywhere. */
  ghost predicate IsPath(states: seq<State>, steps: seq<Step>) {
    && |states| == |steps| + 1
    && forall i: nat | i < |steps| :: Linked(states, steps, i)
  }

  function With(s: State, id: nat, a: Attempt): State {
    s.(attempts := s.attempts[id := a])
  }

  function Locked(s: State, id: nat, a: Attempt): State {
    s.(attempts := s.attempts[id := a], locks := s.locks[a.request.key := id])
  }

  /** The state after a fresh effect under a free key. */
  function Committed(s: State, id: nat, request: Request, result: string): State {
    var row := CompletedRow(request.digest, result, 200);
    s.(rows := s.rows[request.key := row],
       effects := s.effects + [Effect(id, request.key, request.digest, result, 200, true)],
       locks := Release(s.locks[request.key := id], id),
       attempts := s.attempts[id :=
         Attempt(request, Closed(true), Some(row), Some(Succeeded(Answer(false, result, 200))))])
  }

  /** The phases in which an attempt holds its new key. */
  function Holding(s: State, id: nat, request: Request, phase: Phase, row: Row): State {
    Locked(s, id, Attempt(request, phase, Some(row), None))
  }

  lemma KeyIsClaimed(s: State, id: nat, request: Request)
    requires id in s.attempts && s.attempts[id] == Attempt(request, Fenced, None, None)
    requires request.key !in s.rows && request.key !in s.locks
    ensures Enabled(s, InsertIgnore(id))
    ensures Apply(s, InsertIgnore(id)) == Holding(s, id, request, Inserted(1), PendingRow(request))
    ensures Enabled(Apply(s, InsertIgnore(id)), SelectForUpdate(id))
    ensures Apply(Apply(s, InsertIgnore(id)), SelectForUpdate(id))
        == Holding(s, id, request, Executing, PendingRow(request))
  {
  }

  lemma KeyIsTaken(s: State, id: nat, request: Request, next: Phase)
    requires id in s.attempts && s.attempts[id] == Attempt(request, Fenced, None, None)
    requires request.key in s.rows && request.key !in s.locks
    requires next == ClaimedAttempt(s, request).phase
    ensures AfterInsert(s, id) == With(s, id, Attempt(request, Inserted(0), None, None))
    ensures Enabled(AfterInsert(s, id), SelectForUpdate(id))
    ensures AfterSelect(AfterInsert(s, id), id) == Locked(s, id, Attempt(request, next, None, None))
  {
  }

  lemma LockedIsOwnWork(s: State, id: nat, a: Attempt)
    requires id in s.attempts && a.request == s.attempts[id].request
    ensures OwnWork(s, Locked(s, id, a), id, a.request)
  {
  }

  /** The attempt after the two statements that claim a key, when nobody else holds it. */
  function ClaimedAttempt(s: State, request: Request): Attempt {
    if request.key !in s.rows then Attempt(request, Executing, Some(PendingRow(request)), None)
    else
      match Decide(request, 0, Some(s.rows[request.key]))
      case Execute => Attempt(request, Executing, None, None)
      case Replay(answer) => Attempt(request, Returning(answer), None, None)
      case Refuse(code) => Attempt(request, Failing(code), None, None)
  }

  lemma ClaimIsLocked(s: State, id: nat, request: Request)
    requires id in s.attempts && s.attempts[id] == Attempt(request, Fenced, None, None) && request.key !in s.locks
    ensures var t := AfterInsert(s, id);
            && Enabled(s, InsertIgnore(id)) && Enabled(t, SelectForUpdate(id))
            && AfterSelect(t, id) == Locked(s, id, ClaimedAttempt(s, request))
  {
    if request.key in s.rows {
      KeyIsTaken(s, id, request, ClaimedAttempt(s, request).phase);
    } else {
      KeyIsClaimed(s, id, request);
    }
  }

  /** What those statements lead to. */
  lemma ClaimDecision(s: State, id: nat, request: Request)
    requires LedgerOk(s.rows, s.effects)
    requires id in s.attempts && s.attempts[id] == Attempt(request, Fenced, None, None)
    ensures var a := ClaimedAttempt(s, request);
            && OwnWork(s, Locked(s, id, a), id, request) && Driven(Locked(s, id, a), id)
            && if request.key !in s.rows then a.phase.Executing?
               else if s.rows[request.key].digest != request.digest then a.phase == Failing(KeyReused)
               else && a.phase.Returning? && a.phase.answer.replayed
                    && s.rows[request.key] == CompletedRow(request.digest, a.phase.answer.result, a.phase.answer.status)
  {
    LockedIsOwnWork(s, id, ClaimedAttempt(s, request));
    if request.key in s.rows {
      var row := RowIsCompleted(s, request.key);
    }
  }

  lemma EffectIsCompleted(s: State, id: nat, request: Request, result: string)
    requires id in s.attempts && ResolvedStatus(request, 200) == Some(200)
    ensures var t := Holding(s, id, request, Executing, PendingRow(request));
            var u := Holding(s, id, request, Ran(result, 200), PendingRow(request));
            var row := CompletedRow(request.digest, result, 200);
            var v := Holding(s, id, request, Returning(Answer(false, result, 200)), row);
            && Enabled(t, RunEffect(id, Returned(result, 200))) && Apply(t, RunEffect(id, Returned(result, 200))) == u
            && Enabled(u, MarkCompleted(id)) && Apply(u, MarkCompleted(id)) == v
  {
  }

  lemma EffectIsCommitted(s: State, id: nat, request: Request, result: string)
    requires id in s.attempts && FenceActive(s.fences, request.resource)
    ensures var row := CompletedRow(request.digest, result, 200);
            var v := Holding(s, id, request, Returning(Answer(false, result, 200)), row);
            Enabled(v, Commit(id)) && Apply(v, Commit(id)) == Committed(s, id, request, result)
  {
  }

  /** An attempt under a free key and an active fence, answered with status 200, can be carried through. */
  lemma ExecutionPath(s: State, id: nat, request: Request, result: string)
    returns (states: seq<State>, steps: seq<Step>)
    requires id in s.attempts && s.attempts[id] == Attempt(request, Begun, None, None)
    requires FenceActive(s.fences, request.resource) && request.key !in s.rows && request.key !in s.locks
    requires ResolvedStatus(request, 200) == Some(200)
    ensures IsPath(states, steps) && states[0] == s && states[|steps|] == Committed(s, id, request, result)
    ensures forall step | step in steps :: Quiet(step)
  {
    var pending, row := PendingRow(request), CompletedRow(request.digest, result, 200);
    var fenced := With(s, id, Attempt(request, Fenced, None, None));
    assert Apply(s, CheckFence(id)) == fenced;
    KeyIsClaimed(fenced, id, request);
    EffectIsCompleted(fenced, id, request, result);
    EffectIsCommitted(fenced, id, request, result);
    states := [s, fenced,
               Holding(fenced, id, request, Inserted(1), pending),
               Holding(fenced, id, request, Executing, pending),
               Holding(fenced, id, request, Ran(result, 200), pending),
               Holding(fenced, id, request, Returning(Answer(false, result, 200)), row),
               Committed(fenced, id, request, result)];
    steps := [CheckFence(id), InsertIgnore(id), SelectForUpdate(id),
              RunEffect(id, Returned(result, 200)), MarkCompleted(id), Commit(id)];
    assert Committed(fenced, id, request, result) == Committed(s, id, request, result);
  }

  /** Without its fence an attempt is rolled back and answered so. */
  function Rejected(s: State, id: nat, request: Request): State {
    s.(locks := Release(s.locks, id),
       attempts := s.attempts[id := Attempt(request, Closed(false), None, Some(Failed(FenceRejected)))])
  }

  lemma RejectionPath(s: State, id: nat, request: Request) returns (states: seq<State>, steps: seq<Step>)
    requires id in s.attempts && s.attempts[id] == Attempt(request, Begun, None, None)
    requires !FenceActive(s.fences, request.resource)
    ensures IsPath(states, steps) && states[0] == s && states[|steps|] == Rejected(s, id, request)
    ensures forall step | step in steps :: Quiet(step)
  {
    var s1 := With(s, id, Attempt(request, Failing(FenceRejected), None, None));
    states := [s, s1, Rejected(s, id, request)];
    steps := [CheckFence(id), Rollback(id)];
    assert Apply(s, CheckFence(id)) == s1;
    assert Apply(s1, Rollback(id)) == Rejected(s, id, request);
  }

  /** How an attempt stood before it ended does not show afterwards. */
  lemma EndsAlike(s: State, id: nat, a: Attempt, request: Request, result: string, code: Code)
    ensures Committed(With(s, id, a), id, request, result) == Committed(s, id, request, result)
    ensures Rejected(With(s, id, a), id, request) == Rejected(s, id, request)
    ensures Thrown(With(s, id, a), id, request, code) == Thrown(s, id, request, code)
  {
  }

  /** An effect that throws is rolled back and answered so. */
  function Thrown(s: State, id: nat, request: Request, code: Code): State {
    s.(locks := Release(s.locks[request.key := id], id),
       attempts := s.attempts[id := Attempt(request, Closed(false), None, Some(Failed(code)))])
  }

  lemma EffectThrows(s: State, id: nat, request: Request, status: int, text: string)
    requires id in s.attempts
    ensures var t := Holding(s, id, request, Executing, PendingRow(request));
            var u := Holding(s, id, request, Failing(RunFailed(status, text)), PendingRow(request));
            && Enabled(t, RunEffect(id, Threw(status, text))) && Apply(t, RunEffect(id, Threw(status, text))) == u
            && Enabled(u, Rollback(id)) && Apply(u, Rollback(id)) == Thrown(s, id, request, RunFailed(status, text))
  {
  }

  /** An attempt under a free key and an active fence comes to run its effect. */
  lemma ClaimingPath(s: State, id: nat, request: Request) returns (states: seq<State>, steps: seq<Step>)
    requires id in s.attempts && s.attempts[id] == Attempt(request, Begun, None, None)
    requires FenceActive(s.fences, request.resource) && request.key !in s.rows && request.key !in s.locks
    ensures IsPath(states, steps) && states[0] == s
    ensures states[|steps|] == Holding(s, id, request, Executing, PendingRow(request))
    ensures forall step | step in steps :: Quiet(step)
  {
    var pending := PendingRow(request);
    var fenced := With(s, id, Attempt(request, Fenced, None, None));
    assert Apply(s, CheckFence(id)) == fenced;
    KeyIsClaimed(fenced, id, request);
    states := [s, fenced,
               Holding(fenced, id, request, Inserted(1), pending),
               Holding(fenced, id, request, Executing, pending)];
    steps := [CheckFence(id), InsertIgnore(id), SelectForUpdate(id)];
    assert Holding(fenced, id, request, Executing, pending) == Holding(s, id, request, Executing, pending);
  }

  // ---------- The status of an answer ----------

  /** A status that the configuration of a request can give. */
  ghost predicate Gives(request: Request, status: int) {
    exists computed :: ResolvedStatus(request, computed) == Some(status)
  }

  ghost predicate PhaseStatusOk(a: Attempt) {
    match a.phase
    case Ran(_, status) => Gives(a.request, status)
    case Returning(answer) => answer.replayed || Gives(a.request, answer.status)
    case _ => true
  }

  ghost predicate EffectStatusOk(attempts: map<nat, Attempt>, e: Effect) {
    e.attempt in attempts && Gives(attempts[e.attempt].request, e.status)
  }

  /** Each fresh answer and each committed effect has a status its own request can give. */
  ghost predicate StatusesOk(s: State) {
    && (forall id | id in s.attempts :: PhaseStatusOk(s.attempts[id]))
    && (forall i | 0 <= i < |s.effects| :: EffectStatusOk(s.attempts, s.effects[i]))
  }

  lemma StepKeepsPhaseStatus(s: State, step: Step, id: nat)
    requires StatusesOk(s) && Enabled(s, step) && id in Apply(s, step).attempts
    ensures PhaseStatusOk(Apply(s, step).attempts[id])
  {
    if id in s.attempts {
      assert PhaseStatusOk(s.attempts[id]);
    }
    if step.RunEffect? && step.outcome.Returned? && step.id == id {
      var status := ResolvedStatus(s.attempts[id].request, step.outcome.computedStatus);
      assert status.Some? ==> Gives(s.attempts[id].request, status.value);
    }
  }

  lemma StepKeepsStatuses(s: State, step: Step)
    requires StatusesOk(s) && Enabled(s, step)
    ensures StatusesOk(Apply(s, step))
  {
    var t := Apply(s, step);
    forall id | id in t.attempts ensures PhaseStatusOk(t.attempts[id]) {
      StepKeepsPhaseStatus(s, step, id);
    }
    forall i | 0 <= i < |t.effects| ensures EffectStatusOk(t.attempts, t.effects[i]) {
      if i < |s.effects| {
        assert EffectStatusOk(s.attempts, s.effects[i]);
      } else {
        assert PhaseStatusOk(s.attempts[step.id]);
      }
    }
  }

  /** The status that the configuration asks for, given the one its function computes from the result. */
  ghost predicate StatusFits(request: Request, computed: int, status: int) {
    && (request.responseStatus.Default? ==> status == 200)
    && (request.responseStatus.Constant? ==> status == request.responseStatus.status)
    && (request.responseStatus.Computed? ==> status == computed)
    && (request.validateStatus ==> 200 <= status <= 299)
  }

  /** Before step n the effect of the attempt has returned this result, and the status fits it. */
  ghost predicate HasRun(steps: seq<Step>, n: nat, id: nat, request: Request, result: string, status: int) {
    exists m, computed ::
      && 0 <= m < n <= |steps| && steps[m] == RunEffect(id, Returned(result, computed))
      && StatusFits(request, computed, status)
  }

  /** What an attempt holds of a fresh effect, and has answered with. */
  ghost predicate Fresh(a: Attempt, has: (string, int) -> bool) {
    && (a.phase.Ran? ==> has(a.phase.result, a.phase.status))
    && (a.phase.Returning? && !a.phase.answer.replayed ==> has(a.phase.answer.result, a.phase.answer.status))
    && (a.reply.Some? && a.reply.value.Succeeded? && !a.reply.value.answer.replayed ==>
          has(a.reply.value.answer.result, a.reply.value.answer.status))
  }

  lemma StepKeepsFresh(s: State, step: Step, id: nat, has: (string, int) -> bool)
    requires Enabled(s, step) && id in Apply(s, step).attempts
    requires id in s.attempts ==> Fresh(s.attempts[id], has)
    requires step.RunEffect? && step.id == id && step.outcome.Returned? ==>
               forall status | ResolvedStatus(s.attempts[id].request, step.outcome.computedStatus) == Some(status) ::
                 has(step.outcome.result, status)
    ensures Fresh(Apply(s, step).attempts[id], has)
    ensures id in s.attempts ==> Apply(s, step).attempts[id].request == s.attempts[id].request
  {
  }

  /** A status is given exactly if it is the one asked for, and only a checked one outside 200 to 299 is refused. */
  lemma StatusIsFit(request: Request, computed: int, status: int)
    ensures ResolvedStatus(request, computed) == Some(status) <==> StatusFits(request, computed, status)
    ensures ResolvedStatus(request, computed).None? ==> request.validateStatus
  {
  }

  lemma {:induction false} FreshHasRun(run: seq<State>, steps: seq<Step>, n: nat, id: nat, has: (string, int) -> bool)
    requires IsRun(run, steps) && n < |run| && id in run[n].attempts
    requires forall result, status | HasRun(steps, n, id, run[n].attempts[id].request, result, status) ::
               has(result, status)
    ensures Fresh(run[n].attempts[id], has)
    decreases n
  {
    if n > 0 {
      var s, step := run[n - 1], steps[n - 1];
      assert Linked(run, steps, n - 1);
      if id in s.attempts {
        StepKeepsFresh(s, step, id, (result, status) => true);
        FreshHasRun(run, steps, n - 1, id, has);
        if step.RunEffect? && step.id == id && step.outcome.Returned? {
          forall status | ResolvedStatus(s.attempts[id].request, step.outcome.computedStatus) == Some(status)
            ensures has(step.outcome.result, status)
          {
            StatusIsFit(s.attempts[id].request, step.outcome.computedStatus, status);
            assert HasRun(steps, n, id, s.attempts[id].request, step.outcome.result, status);
          }
        }
      }
      StepKeepsFresh(s, step, id, has);
    }
  }

  /**
  A fresh success reports the result that its own effect has returned, with the configured status: 200
  by default, a constant, or what the configured function gave; a validated one is a 2xx.
  */
  lemma FreshSuccessIsOwn(run: seq<State>, steps: seq<Step>, n: nat, id: nat, answer: Answer)
    requires IsRun(run, steps) && n < |run| && id in run[n].attempts
    requires run[n].attempts[id].reply == Some(Succeeded(answer)) && !answer.replayed
    ensures exists m, computed ::
              && 0 <= m < n && steps[m] == RunEffect(id, Returned(answer.result, computed))
              && StatusFits(run[n].attempts[id].request, computed, answer.status)
  {
    FreshHasRun(run, steps, n, id, (result, status) =>
      HasRun(steps, n, id, run[n].attempts[id].request, result, status));
  }

  // ---------- One command from beginning to end ----------

  /** The database as one caller drives it, statement by statement. */
  class CommandDatabase {
    var state: State

    constructor (fences: map<string, Fence>)
      ensures Init(state) && Inv(state) && state.fences == fences
    {
      state := State(fences, map[], map[], map[], []);
      new;
      InitHolds(state);
    }

    method Take(step: Step)
      requires Inv(state) && Enabled(state, step)
      modifies this
      ensures Inv(state) && state == Apply(old(state), step)
    {
      StepKeepsInv(state, step);
      state := Apply(state, step);
    }

    /** INSERT IGNORE and SELECT ... FOR UPDATE: an absent key is claimed, a present one is compared. */
    method Claim(id: nat)
      requires Inv(state) && Driven(state, id) && state.attempts[id].phase.Fenced?
      requires state.attempts[id].request.key !in state.locks
      modifies this
      ensures Inv(state) && Driven(state, id) && OwnWork(old(state), state, id, old(state.attempts[id].request))
      ensures var rows := old(state.rows); var a := state.attempts[id];
              if a.request.key !in rows then a.phase.Executing?
              else if rows[a.request.key].digest != a.request.digest then a.phase == Failing(KeyReused)
              else && a.phase.Returning? && a.phase.answer.replayed
                   && rows[a.request.key]
                      == CompletedRow(a.request.digest, a.phase.answer.result, a.phase.answer.status)
    {
      ghost var request := state.attempts[id].request;
      assert AttemptOk(state, id, state.attempts[id]);
      ClaimIsLocked(state, id, request);
      ClaimDecision(state, id, request);
      Take(InsertIgnore(id));
      Take(SelectForUpdate(id));
    }

    /** The fence check, INSERT IGNORE and SELECT ... FOR UPDATE. */
    method Admit(id: nat, request: Request)
      requires Inv(state) && id !in state.attempts && request.key !in state.locks
      modifies this
      ensures Inv(state) && OwnWork(old(state), state, id, request)
      ensures Driven(state, id)
      ensures var rows := old(state.rows); var phase := state.attempts[id].phase;
              if !FenceActive(state.fences, request.resource) then phase == Failing(FenceRejected)
              else if request.key !in rows then phase.Executing?
              else if rows[request.key].digest != request.digest then phase == Failing(KeyReused)
              else && phase.Returning? && phase.answer.replayed
                   && rows[request.key] == CompletedRow(request.digest, phase.answer.result, phase.answer.status)
    {
      Take(Begin(id, request));
      Take(CheckFence(id));
      assert OwnWork(old(state), state, id, request) && state.locks == old(state.locks);
      if state.attempts[id].phase.Fenced? {
        Claim(id);
      }
    }

    /** options.run and the UPDATE to completed. */
    method Perform(id: nat, outcome: RunOutcome)
      requires Inv(state) && Driven(state, id) && state.attempts[id].phase.Executing?
      modifies this
      ensures Inv(state) && Driven(state, id) && OwnWork(old(state), state, id, old(state.attempts[id].request))
      ensures state.locks == old(state.locks)
      ensures var phase := state.attempts[id].phase;
              match outcome
              case Threw(status, text) => phase == Failing(RunFailed(status, text))
              case Returned(result, computed) =>
                match ResolvedStatus(state.attempts[id].request, computed)
                case None => phase == Failing(InvalidStatus)
                case Some(status) => phase == Returning(Answer(false, result, status))
    {
      Take(RunEffect(id, outcome));
      if state.attempts[id].phase.Ran? {
        assert AttemptOk(state, id, state.attempts[id]);
        Take(MarkCompleted(id));
      }
    }

    /** The commit, or the rollback of a failed attempt. */
    method Finish(id: nat) returns (reply: Reply)
      requires Inv(state) && Driven(state, id)
      requires state.attempts[id].phase.Failing? || state.attempts[id].phase.Returning?
      modifies this
      ensures Inv(state) && state.fences == old(state.fences)
      ensures state.locks == Release(old(state.locks), id)
      ensures state.attempts.Keys == old(state.attempts.Keys)
      ensures forall other | other in state.attempts && other != id ::
                state.attempts[other] == old(state.attempts[other])
      ensures state.attempts[id].request == old(state.attempts[id].request) && state.attempts[id].reply == Some(reply)
      ensures match old(state.attempts[id].phase)
              case Failing(code) => reply == Failed(code) && Unwritten(old(state), state)
              case Returning(answer) =>
                && reply == Succeeded(answer)
                && (answer.replayed ==> Unwritten(old(state), state))
                && (!answer.replayed ==>
                      var request := old(state.attempts[id].request);
                      var row := CompletedRow(request.digest, answer.result, answer.status);
                      && state.rows == old(state.rows)[request.key := row]
                      && state.effects == old(state.effects)
                           + [Effect(id, request.key, request.digest, answer.result, answer.status, true)])
              case _ => true
    {
      assert AttemptOk(state, id, state.attempts[id]);
      if state.attempts[id].phase.Failing? {
        Take(Rollback(id));
      } else {
        Take(Commit(id));
      }
      reply := state.attempts[id].reply.value;
    }

    /** executeIdempotentCommand from the moment its key is free until it replies, without a lost connection. */
    method ExecuteIdempotentCommand(id: nat, request: Request, outcome: RunOutcome) returns (reply: Reply)
      requires Inv(state) && id !in state.attempts && request.key !in state.locks
      modifies this
      ensures Inv(state) && state.fences == old(state.fences)
      ensures request.key !in state.locks
      ensures forall other | other != id && other in old(state.attempts) ::
                other in state.attempts && state.attempts[other] == old(state.attempts)[other]
      ensures id in state.attempts && state.attempts.Keys == old(state.attempts.Keys) + {id}
      ensures state.attempts[id].request == request && state.attempts[id].reply == Some(reply)
      ensures var rows := old(state.rows);
              if !RequiredFence(old(state.fences), request.resource) then
                reply == Failed(FenceRejected) && Unwritten(old(state), state)
              else if request.key in rows then
                && Unwritten(old(state), state)
                && (if rows[request.key].digest != request.digest then reply == Failed(KeyReused)
                    else && reply.Succeeded? && reply.answer.replayed
                         && rows[request.key] == CompletedRow(request.digest, reply.answer.result, reply.answer.status))
              else match outcome
                case Threw(status, text) => reply == Failed(RunFailed(status, text)) && Unwritten(old(state), state)
                case Returned(result, computed) =>
                  match ResolvedStatus(request, computed)
                  case None => reply == Failed(InvalidStatus) && Unwritten(old(state), state)
                  case Some(status) =>
                    && reply == Succeeded(Answer(false, result, status))
                    && state.rows == rows[request.key := CompletedRow(request.digest, result, status)]
                    && state.effects == old(state.effects)
                         + [Effect(id, request.key, request.digest, result, status, true)]
    {
      Admit(id, request);
      if state.attempts[id].phase.Executing? {
        Perform(id, outcome);
      }
      reply := Finish(id);
    }

    /** A caller that retries with the same key gets the first answer again, and the second effect never runs. */
    method RetryReplays(first: nat, second: nat, request: Request, outcome: RunOutcome, again: RunOutcome)
      returns (reply: Reply, replay: Reply)
      requires Inv(state) && first !in state.attempts && second !in state.attempts && first != second
      requires request.key !in state.locks
      modifies this
      ensures reply.Succeeded? ==>
                && replay == Succeeded(Answer(true, reply.answer.result, reply.answer.status))
                && |state.effects| <= |old(state.effects)| + 1
    {
      reply := ExecuteIdempotentCommand(first, request, outcome);
      replay := ExecuteIdempotentCommand(second, request, again);
    }
  }

  /** Between two states only attempt id moved, on its own key, and nothing was committed. */
  ghost predicate OwnWork(s: State, t: State, id: nat, request: Request) {
    && Unwritten(s, t) && t.fences == s.fences
    && t.attempts.Keys == s.attempts.Keys + {id}
    && (forall other | other in s.attempts && other != id :: t.attempts[other] == s.attempts[other])
    && t.attempts[id].request == request
    && (forall key | key in t.locks ::
          (key == request.key && t.locks[key] == id) || (key in s.locks && s.locks[key] == t.locks[key]))
  }

  ghost predicate Unwritten(s: State, t: State) {
    t.rows == s.rows && t.effects == s.effects
  }
}
