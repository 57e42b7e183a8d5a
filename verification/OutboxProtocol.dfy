/**
Any number of workers running the loop of apps/worker/src/server.ts against one outbox
table, with fences that are switched, leases that expire, workers that crash and commits
whose acknowledgement is lost. A transaction is one step here, taken under its fence;
OutboxTransactions has its statements and its locks.
*/
module OutboxProtocol {
  import opened Wrappers
  import opened Outbox

  /** How far a worker is with the row it holds. */
  datatype Stage = Fresh | Delivered | ToPause | ToFail(permanent: bool)

  datatype Worker = Idle | Holding(claimed: Claimed, stage: Stage) | Stopped

  /** One committed dispatch transaction: the message and the recipients it served. */
  datatype Dispatch = Dispatch(id: nat, recipients: seq<nat>)

  /** How often a message was claimed and paused so far. */
  datatype History = History(claims: nat, pauses: nat)

  datatype State = State(
    now: nat, rows: Table, nextId: nat,
    outboxFence: bool, filesFence: bool,
    workers: map<string, Worker>,
    dispatches: seq<Dispatch>,
    history: map<nat, History>)

  datatype Step =
    | Tick(duration: nat)
    | Enqueue(topic: Topic, name: string, maxAttempts: nat, availableAt: nat)
    | SetFences(outbox: bool, files: bool)
    | StartWorker(w: string)
    | Crash(w: string)
    | Claim(w: string, at: nat, swept: set<nat>, pick: Option<nat>, acknowledged: bool)
    | Deliver(w: string)
    | MeetFence(w: string)
    | Break(w: string, permanent: bool)
    | CommitDispatch(w: string, recipients: seq<nat>, at: nat, acknowledged: bool)
    | CommitCompletion(w: string, acknowledged: bool)
    | Pause(w: string, acknowledged: bool)
    | Fail(w: string, acknowledged: bool)

  ghost predicate Init(s: State) {
    s.rows == map[] && s.nextId == 0 && s.workers == map[] && s.dispatches == [] && s.history == map[]
  }

  predicate Distinct(users: seq<nat>) {
    forall i, j | 0 <= i < j < |users| :: users[i] != users[j]
  }

  predicate Holds(s: State, w: string, stage: Stage) {
    w in s.workers && s.workers[w].Holding? && s.workers[w].stage == stage
  }

  predicate Fails(s: State, w: string) {
    w in s.workers && s.workers[w].Holding? && s.workers[w].stage.ToFail?
  }

  /** The fence the dispatch transaction of a topic checks. */
  predicate FenceFor(s: State, topic: Topic) {
    if topic.FileScan? then s.filesFence else s.outboxFence
  }

  /** A claim may bury rows whose lease is exhausted and take one that is eligible, by its own reading of the clock. */
  predicate Claimable(rows: Table, at: nat, swept: set<nat>, pick: Option<nat>) {
    && (forall id | id in swept :: id in rows && Exhausted(rows[id], at))
    && (pick.Some? ==> pick.value in rows && Eligible(rows[pick.value], at))
  }

  predicate Enabled(s: State, step: Step) {
    match step
    case Tick(_) => true
    case Enqueue(_, name, maxAttempts, _) => maxAttempts >= 1 && !KeyTaken(s.rows, Root(name))
    case SetFences(_, _) => true
    case StartWorker(w) => w !in s.workers
    case Crash(w) => w in s.workers
    case Claim(w, at, swept, pick, _) =>
      && w in s.workers && s.workers[w].Idle? && s.outboxFence && at <= s.now
      && Claimable(s.rows, at, swept, pick)
    case Deliver(w) =>
      && Holds(s, w, Fresh)
      && (s.workers[w].claimed.topic.EmailDeliver? || s.workers[w].claimed.topic.SmsDeliver?)
    case MeetFence(w) =>
      && (Holds(s, w, Fresh) || Holds(s, w, Delivered))
      && !FenceFor(s, s.workers[w].claimed.topic)
    case Break(w, _) => Holds(s, w, Fresh) || Holds(s, w, Delivered)
    case CommitDispatch(w, recipients, _, _) =>
      && Holds(s, w, Fresh) && Transactional(s.workers[w].claimed.topic)
      && FenceFor(s, s.workers[w].claimed.topic) && Distinct(recipients)
    case CommitCompletion(w, _) => Holds(s, w, Delivered) && s.outboxFence
    case Pause(w, _) => Holds(s, w, ToPause)
    case Fail(w, _) => Fails(s, w)
  }

  function At(s: State, w: string, stage: Stage): State
    requires w in s.workers && s.workers[w].Holding?
  {
    s.(workers := s.workers[w := s.workers[w].(stage := stage)])
  }

  function Becomes(s: State, w: string, worker: Worker): State {
    s.(workers := s.workers[w := worker])
  }

  /** One row, its history and one worker change together. */
  function Moved(s: State, w: string, worker: Worker, id: nat, row: Message, h: History): State {
    s.(workers := s.workers[w := worker], rows := s.rows[id := row], history := s.history[id := h])
  }

  /** The row is leased; without the acknowledgement the worker stops. */
  function Leased(s: State, w: string, id: nat, at: nat, acknowledged: bool): State
    requires id in s.rows && id in s.history
  {
    var row := LeasedTo(s.rows[id], w, at);
    Moved(s, w, if acknowledged then Holding(ClaimOf(id, row), Fresh) else Stopped,
          id, row, s.history[id].(claims := s.history[id].claims + 1))
  }

  function Buried(rows: Table, at: nat, swept: set<nat>): Table {
    map id | id in rows :: if id in swept then Swept(rows[id], at) else rows[id]
  }

  function AfterClaim(s: State, w: string, at: nat, swept: set<nat>, pick: Option<nat>, acknowledged: bool): State {
    var u := s.(rows := Buried(s.rows, at, swept));
    if pick.Some? && pick.value in u.rows && pick.value in s.history
    then Leased(u, w, pick.value, at, acknowledged) else u
  }

  /** A committed dispatch: new rows, a new entry of the ledger, and histories for the new rows. */
  function Served(s: State, w: string, worker: Worker, d: Dispatch, rows: Table, nextId: nat): State {
    s.(workers := s.workers[w := worker], rows := rows, nextId := nextId,
       dispatches := s.dispatches + [d],
       history := map id | id in rows :: if id in s.history then s.history[id] else History(0, 0))
  }

  function AfterDispatch(s: State, w: string, recipients: seq<nat>, at: nat, acknowledged: bool): State
    requires w in s.workers && s.workers[w].Holding?
  {
    var c := s.workers[w].claimed;
    if !Owned(s.rows, c.id, w) then At(s, w, ToFail(false))
    else
      var (rows, nextId) := Dispatched(s.rows, s.nextId, c.id, recipients, at);
      Served(s, w, if acknowledged then Idle else s.workers[w].(stage := ToFail(false)),
             Dispatch(c.id, recipients), rows, nextId)
  }

  function AfterCompletion(s: State, w: string, acknowledged: bool): State
    requires w in s.workers && s.workers[w].Holding?
  {
    var c := s.workers[w].claimed;
    if !Owned(s.rows, c.id, w) || c.id !in s.history then At(s, w, ToFail(false))
    else
      Moved(s, w, if acknowledged then Idle else s.workers[w].(stage := ToFail(false)),
            c.id, CompletedRow(s.rows[c.id]), s.history[c.id])
  }

  function AfterPause(s: State, w: string, acknowledged: bool): State
    requires w in s.workers && s.workers[w].Holding?
  {
    var id := s.workers[w].claimed.id;
    if !Owned(s.rows, id, w) || id !in s.history then Becomes(s, w, Stopped)
    else
      Moved(s, w, if acknowledged then Idle else Stopped,
            id, PausedRow(s.rows[id], s.now), s.history[id].(pauses := s.history[id].pauses + 1))
  }

  function AfterFail(s: State, w: string, acknowledged: bool): State
    requires Fails(s, w)
  {
    var c := s.workers[w].claimed;
    if !Owned(s.rows, c.id, w) || c.id !in s.history then Becomes(s, w, Stopped)
    else
      Moved(s, w, if acknowledged then Idle else Stopped,
            c.id, FailedRow(s.rows[c.id], c, s.workers[w].stage.permanent, s.now), s.history[c.id])
  }

  function Apply(s: State, step: Step): State
    requires Enabled(s, step)
  {
    match step
    case Tick(duration) => s.(now := s.now + duration)
    case Enqueue(topic, name, maxAttempts, availableAt) =>
      s.(rows := s.rows[s.nextId := Message(topic, Root(name), Pending, availableAt, 0, maxAttempts, None)],
         nextId := s.nextId + 1,
         history := s.history[s.nextId := History(0, 0)])
    case SetFences(outbox, files) => s.(outboxFence := outbox, filesFence := files)
    case StartWorker(w) => Becomes(s, w, Idle)
    case Crash(w) => Becomes(s, w, Stopped)
    case Claim(w, at, swept, pick, acknowledged) => AfterClaim(s, w, at, swept, pick, acknowledged)
    case Deliver(w) => At(s, w, Delivered)
    case MeetFence(w) => At(s, w, ToPause)
    case Break(w, permanent) => At(s, w, ToFail(permanent))
    case CommitDispatch(w, recipients, at, acknowledged) => AfterDispatch(s, w, recipients, at, acknowledged)
    case CommitCompletion(w, acknowledged) => AfterCompletion(s, w, acknowledged)
    case Pause(w, acknowledged) => AfterPause(s, w, acknowledged)
    case Fail(w, acknowledged) => AfterFail(s, w, acknowledged)
  }

  // ---------- The invariant of one row ----------

  /** Attempts, lease and status of a row fit together, and attempts are claims less pauses. */
  ghost predicate RowOk(m: Message, h: History) {
    && m.attempts <= m.maxAttempts && m.maxAttempts >= 1
    && (m.status.Pending? ==> m.attempts < m.maxAttempts && m.lease.None?)
    && (m.status.Processing? ==> m.attempts >= 1 && m.lease.Some?)
    && (Terminal(m) ==> m.lease.None?)
    && m.attempts + h.pauses == h.claims
    && (m.dedup.Child? ==> m.topic.EmailDeliver?)
  }

  /** The holder of a lease has stopped, or remembers the row exactly. */
  ghost predicate HolderOk(workers: map<string, Worker>, id: nat, m: Message) {
    m.status.Processing? && m.lease.Some? ==>
      var w := m.lease.value.holder;
      && w in workers
      && (workers[w].Stopped? || (workers[w].Holding? && workers[w].claimed == ClaimOf(id, m)))
  }

  ghost predicate RowsOk(s: State) {
    && Below(s.rows, s.nextId)
    && s.history.Keys == s.rows.Keys
    && (forall id | id in s.rows :: RowOk(s.rows[id], s.history[id]) && HolderOk(s.workers, id, s.rows[id]))
  }

  /** A worker in memory never runs ahead of the row it claimed. */
  ghost predicate WorkerOk(s: State, w: string) {
    w in s.workers && s.workers[w].Holding? ==>
      var c := s.workers[w].claimed;
      && c.id in s.rows && c.topic == s.rows[c.id].topic && c.dedup == s.rows[c.id].dedup
      && c.maxAttempts == s.rows[c.id].maxAttempts
      && (s.workers[w].stage.Delivered? ==> c.topic.EmailDeliver? || c.topic.SmsDeliver?)
  }

  // ---------- The ledger of dispatches ----------

  ghost predicate IsDispatched(dispatches: seq<Dispatch>, id: nat) {
    exists k :: 0 <= k < |dispatches| && dispatches[k].id == id
  }

  ghost predicate DispatchOk(rows: Table, d: Dispatch) {
    && d.id in rows && rows[d.id].status.Completed? && Transactional(rows[d.id].topic)
    && (rows[d.id].topic.NotificationDispatch? ==>
          forall user | user in d.recipients :: KeyTaken(rows, Child(rows[d.id].dedup, user)))
  }

  /** A child key exists only through the committed dispatch of its parent to that recipient. */
  ghost predicate ChildOk(rows: Table, dispatches: seq<Dispatch>, key: DedupKey) {
    key.Child? ==>
      exists k :: && 0 <= k < |dispatches| && dispatches[k].id in rows
                  && rows[dispatches[k].id].dedup == key.parent
                  && rows[dispatches[k].id].topic.NotificationDispatch?
                  && key.user in dispatches[k].recipients
  }

  ghost predicate LedgerOk(rows: Table, dispatches: seq<Dispatch>) {
    && UniqueKeys(rows)
    && (forall k | 0 <= k < |dispatches| :: DispatchOk(rows, dispatches[k]))
    && (forall k, l | 0 <= k < l < |dispatches| :: dispatches[k].id != dispatches[l].id)
    && (forall id | id in rows && Transactional(rows[id].topic) && rows[id].status.Completed? ::
          IsDispatched(dispatches, id))
    && (forall id | id in rows :: ChildOk(rows, dispatches, rows[id].dedup))
  }

  ghost predicate Inv(s: State) {
    && RowsOk(s)
    && (forall w | w in s.workers :: WorkerOk(s, w))
    && LedgerOk(s.rows, s.dispatches)
  }

  // ---------- What a step may do to one message ----------

  datatype Move = Stay | ClaimMove | SweepMove | CompleteMove | PauseMove | FailMove

  /** The six ways a row may go from m to m', none of which leaves a terminal row. */
  predicate Moves(move: Move, m: Message, m': Message) {
    && SameMessage(m, m')
    && match move
       case Stay => m' == m
       case ClaimMove => !Terminal(m) && m'.status.Processing? && m'.attempts == m.attempts + 1
       case SweepMove => m.status.Processing? && m'.status.Dead? && m'.attempts == m.attempts == m.maxAttempts
       case CompleteMove => m.status.Processing? && m'.status.Completed? && m'.attempts == m.attempts
       case PauseMove => m.status.Processing? && m'.status.Pending? && m'.attempts + 1 == m.attempts
       case FailMove =>
         m.status.Processing? && m'.attempts == m.attempts
         && (m'.status.Dead? || (m'.status.Pending? && m.attempts < m.maxAttempts))
  }

  /** What the step does to message id. */
  function MoveOf(s: State, step: Step, id: nat): Move
    requires Enabled(s, step) && id in s.rows && id in Apply(s, step).rows
  {
    var m, m' := s.rows[id], Apply(s, step).rows[id];
    if m' == m then Stay
    else match step
      case Claim(_, _, _, _, _) => if m'.status.Dead? then SweepMove else ClaimMove
      case CommitDispatch(_, _, _, _) => CompleteMove
      case CommitCompletion(_, _) => CompleteMove
      case Pause(_, _) => PauseMove
      case Fail(_, _) => FailMove
      case _ => Stay
  }

  // ---------- Every step keeps the invariant ----------

  lemma InitHolds(s: State)
    requires Init(s)
    ensures Inv(s)
  {
  }

  /** Statements that leave keys, topics and transactional completions alone leave the ledger alone. */
  lemma LedgerFrame(rows: Table, rows': Table, dispatches: seq<Dispatch>)
    requires LedgerOk(rows, dispatches) && rows'.Keys == rows.Keys
    requires forall id | id in rows ::
               && rows'[id].topic == rows[id].topic && rows'[id].dedup == rows[id].dedup
               && (Transactional(rows[id].topic) ==> (rows'[id].status.Completed? <==> rows[id].status.Completed?))
    ensures LedgerOk(rows', dispatches)
  {
    forall k | 0 <= k < |dispatches| ensures DispatchOk(rows', dispatches[k]) {
      var d := dispatches[k];
      assert DispatchOk(rows, d);
      if rows[d.id].topic.NotificationDispatch? {
        forall user | user in d.recipients ensures KeyTaken(rows', Child(rows'[d.id].dedup, user)) {
          KeyKept(rows, rows', Child(rows[d.id].dedup, user));
        }
      }
    }
    forall id | id in rows' ensures ChildOk(rows', dispatches, rows'[id].dedup) {
      ChildKept(rows, rows', dispatches, dispatches, rows[id].dedup);
    }
  }

  lemma KeyKept(rows: Table, rows': Table, key: DedupKey)
    requires KeyTaken(rows, key)
    requires forall id | id in rows :: id in rows' && rows'[id].dedup == rows[id].dedup
    ensures KeyTaken(rows', key)
  {
    var id :| id in rows && rows[id].dedup == key;
    assert rows'[id].dedup == key;
  }

  lemma ChildKept(rows: Table, rows': Table, dispatches: seq<Dispatch>, dispatches': seq<Dispatch>, key: DedupKey)
    requires ChildOk(rows, dispatches, key) && dispatches <= dispatches'
    requires forall id | id in rows ::
               id in rows' && rows'[id].dedup == rows[id].dedup && rows'[id].topic == rows[id].topic
    ensures ChildOk(rows', dispatches', key)
  {
    if key.Child? {
      var k :| && 0 <= k < |dispatches| && dispatches[k].id in rows
               && rows[dispatches[k].id].dedup == key.parent
               && rows[dispatches[k].id].topic.NotificationDispatch?
               && key.user in dispatches[k].recipients;
      assert dispatches'[k] == dispatches[k];
    }
  }

  /** A worker may change unless it would forget a lease it still holds. */
  ghost predicate MayBecome(s: State, w: string, worker: Worker) {
    forall id | id in s.rows && Owned(s.rows, id, w) ::
      worker.Stopped? || (worker.Holding? && worker.claimed == ClaimOf(id, s.rows[id]))
  }

  lemma WorkerFrame(s: State, w: string, worker: Worker)
    requires Inv(s) && MayBecome(s, w, worker) && WorkerOk(Becomes(s, w, worker), w)
    ensures Inv(Becomes(s, w, worker))
  {
    var t := Becomes(s, w, worker);
    forall id | id in t.rows ensures RowOk(t.rows[id], t.history[id]) && HolderOk(t.workers, id, t.rows[id]) {
      assert HolderOk(s.workers, id, s.rows[id]);
    }
    forall v | v in t.workers ensures WorkerOk(t, v) {
      assert v != w ==> WorkerOk(s, v);
    }
  }

  /** Steps that only move a worker along. */
  predicate Internal(step: Step) {
    step.Deliver? || step.MeetFence? || step.Break? || step.Crash? || step.StartWorker?
  }

  lemma InternalKeepsInv(s: State, step: Step)
    requires Inv(s) && Enabled(s, step) && Internal(step)
    ensures Inv(Apply(s, step))
  {
    var worker := Apply(s, step).workers[step.w];
    assert Apply(s, step) == Becomes(s, step.w, worker);
    forall id | id in s.rows && Owned(s.rows, id, step.w)
      ensures worker.Stopped? || (worker.Holding? && worker.claimed == ClaimOf(id, s.rows[id]))
    {
      assert HolderOk(s.workers, id, s.rows[id]);
    }
    assert WorkerOk(s, step.w);
    WorkerFrame(s, step.w, worker);
  }

  lemma EnqueueKeepsInv(s: State, step: Step)
    requires Inv(s) && Enabled(s, step) && step.Enqueue?
    ensures Inv(Apply(s, step))
  {
    var t := Apply(s, step);
    forall id | id in t.rows ensures RowOk(t.rows[id], t.history[id]) && HolderOk(t.workers, id, t.rows[id]) {
      if id != s.nextId { assert RowOk(s.rows[id], s.history[id]) && HolderOk(s.workers, id, s.rows[id]); }
    }
    forall w | w in t.workers ensures WorkerOk(t, w) { assert WorkerOk(s, w); }
    EnqueueKeepsLedger(s, step);
  }

  lemma EnqueueKeepsLedger(s: State, step: Step)
    requires Below(s.rows, s.nextId) && LedgerOk(s.rows, s.dispatches) && Enabled(s, step) && step.Enqueue?
    ensures LedgerOk(Apply(s, step).rows, s.dispatches)
  {
    var rows := Apply(s, step).rows;
    forall k | 0 <= k < |s.dispatches| ensures DispatchOk(rows, s.dispatches[k]) {
      var d := s.dispatches[k];
      assert DispatchOk(s.rows, d);
      if rows[d.id].topic.NotificationDispatch? {
        forall user | user in d.recipients ensures KeyTaken(rows, Child(rows[d.id].dedup, user)) {
          KeyKept(s.rows, rows, Child(s.rows[d.id].dedup, user));
        }
      }
    }
    forall id | id in rows ensures ChildOk(rows, s.dispatches, rows[id].dedup) {
      if id != s.nextId { ChildKept(s.rows, rows, s.dispatches, s.dispatches, s.rows[id].dedup); }
    }
  }

  /** The new row of a move keeps what never changes, and what the ledger says about it. */
  predicate SameToLedger(m: Message, m': Message) {
    && SameMessage(m, m')
    && (Transactional(m.topic) ==> (m'.status.Completed? <==> m.status.Completed?))
  }

  lemma MovedRowsOk(s: State, w: string, worker: Worker, id: nat, row: Message, h: History)
    requires RowsOk(s) && id in s.rows && RowOk(row, h) && HolderOk(s.workers[w := worker], id, row)
    requires forall other | other in s.rows && other != id :: !Owned(s.rows, other, w)
    ensures RowsOk(Moved(s, w, worker, id, row, h))
  {
    var t := Moved(s, w, worker, id, row, h);
    forall other | other in t.rows
      ensures RowOk(t.rows[other], t.history[other]) && HolderOk(t.workers, other, t.rows[other])
    {
      if other != id { assert RowOk(s.rows[other], s.history[other]) && HolderOk(s.workers, other, s.rows[other]); }
    }
  }

  /** One row moves, one worker with it. */
  lemma MovedKeepsInv(s: State, w: string, worker: Worker, id: nat, row: Message, h: History)
    requires Inv(s) && id in s.rows && RowOk(row, h) && HolderOk(s.workers[w := worker], id, row)
    requires SameToLedger(s.rows[id], row)
    requires WorkerOk(Moved(s, w, worker, id, row, h), w)
    requires forall other | other in s.rows && other != id :: !Owned(s.rows, other, w)
    ensures Inv(Moved(s, w, worker, id, row, h))
  {
    var t := Moved(s, w, worker, id, row, h);
    MovedRowsOk(s, w, worker, id, row, h);
    forall v | v in t.workers ensures WorkerOk(t, v) {
      if v != w { assert WorkerOk(s, v); }
    }
    MovedLedger(s.rows, id, row, s.dispatches);
  }

  lemma MovedLedger(rows: Table, id: nat, row: Message, dispatches: seq<Dispatch>)
    requires LedgerOk(rows, dispatches) && id in rows && SameToLedger(rows[id], row)
    ensures LedgerOk(rows[id := row], dispatches)
  {
    LedgerFrame(rows, rows[id := row], dispatches);
  }

  /** A worker holds the lease of one row at most. */
  lemma OwnsOne(s: State, w: string, id: nat)
    requires Inv(s) && w in s.workers && s.workers[w].Holding? && s.workers[w].claimed.id == id
    ensures forall other | other in s.rows && other != id :: !Owned(s.rows, other, w)
    ensures Owned(s.rows, id, w) ==> s.workers[w].claimed == ClaimOf(id, s.rows[id])
  {
    forall other | other in s.rows && Owned(s.rows, other, w)
      ensures s.workers[w].claimed == ClaimOf(other, s.rows[other])
    {
      assert HolderOk(s.workers, other, s.rows[other]);
    }
  }

  lemma SettleKeepsInv(s: State, step: Step)
    requires Inv(s) && Enabled(s, step) && (step.CommitCompletion? || step.Pause? || step.Fail?)
    ensures Inv(Apply(s, step))
  {
    var t := Apply(s, step);
    var w, id := step.w, s.workers[step.w].claimed.id;
    assert WorkerOk(s, w);
    OwnsOne(s, w, id);
    assert RowOk(s.rows[id], s.history[id]);
    if Owned(s.rows, id, w) {
      MovedKeepsInv(s, w, t.workers[w], id, t.rows[id], t.history[id]);
      assert t == Moved(s, w, t.workers[w], id, t.rows[id], t.history[id]);
    } else {
      WorkerFrame(s, w, t.workers[w]);
    }
  }

  lemma BuryingKeepsRows(s: State, at: nat, swept: set<nat>)
    requires RowsOk(s)
    ensures RowsOk(s.(rows := Buried(s.rows, at, swept)))
  {
    var t := s.(rows := Buried(s.rows, at, swept));
    forall id | id in t.rows ensures RowOk(t.rows[id], t.history[id]) && HolderOk(t.workers, id, t.rows[id]) {
      assert RowOk(s.rows[id], s.history[id]) && HolderOk(s.workers, id, s.rows[id]);
    }
  }

  lemma BuryingKeepsInv(s: State, at: nat, swept: set<nat>)
    requires Inv(s)
    ensures Inv(s.(rows := Buried(s.rows, at, swept)))
  {
    var t := s.(rows := Buried(s.rows, at, swept));
    BuryingKeepsRows(s, at, swept);
    forall w | w in t.workers ensures WorkerOk(t, w) { assert WorkerOk(s, w); }
    LedgerFrame(s.rows, t.rows, s.dispatches);
  }

  lemma IdleOwnsNothing(s: State, w: string)
    requires Inv(s) && w in s.workers && s.workers[w].Idle?
    ensures forall id | id in s.rows :: !Owned(s.rows, id, w)
  {
    forall id | id in s.rows ensures !Owned(s.rows, id, w) {
      assert HolderOk(s.workers, id, s.rows[id]);
    }
  }

  function LeaseWorker(w: string, id: nat, row: Message, acknowledged: bool): Worker {
    if acknowledged then Holding(ClaimOf(id, row), Fresh) else Stopped
  }

  lemma LeaseFits(s: State, w: string, id: nat, at: nat, acknowledged: bool)
    requires id in s.rows && id in s.history && RowOk(s.rows[id], s.history[id]) && Eligible(s.rows[id], at)
    ensures var row := LeasedTo(s.rows[id], w, at);
            var worker := LeaseWorker(w, id, row, acknowledged);
            var h := s.history[id].(claims := s.history[id].claims + 1);
            && Leased(s, w, id, at, acknowledged) == Moved(s, w, worker, id, row, h)
            && RowOk(row, h) && HolderOk(s.workers[w := worker], id, row) && SameToLedger(s.rows[id], row)
            && WorkerOk(Moved(s, w, worker, id, row, h), w)
  {
  }

  lemma LeaseKeepsInv(s: State, w: string, id: nat, at: nat, acknowledged: bool)
    requires Inv(s) && w in s.workers && s.workers[w].Idle? && id in s.rows && Eligible(s.rows[id], at)
    ensures Inv(Leased(s, w, id, at, acknowledged))
  {
    assert RowOk(s.rows[id], s.history[id]);
    IdleOwnsNothing(s, w);
    LeaseFits(s, w, id, at, acknowledged);
    var row := LeasedTo(s.rows[id], w, at);
    MovedKeepsInv(s, w, LeaseWorker(w, id, row, acknowledged), id, row,
                  s.history[id].(claims := s.history[id].claims + 1));
  }

  lemma ClaimKeepsInv(s: State, w: string, at: nat, swept: set<nat>, pick: Option<nat>, acknowledged: bool)
    requires Inv(s) && w in s.workers && s.workers[w].Idle? && Claimable(s.rows, at, swept, pick)
    ensures Inv(AfterClaim(s, w, at, swept, pick, acknowledged))
  {
    BuryingKeepsInv(s, at, swept);
    if pick.Some? {
      LeaseKeepsInv(s.(rows := Buried(s.rows, at, swept)), w, pick.value, at, acknowledged);
    }
  }

  // ---------- The dispatch transaction ----------

  lemma ServedRows(s: State, w: string, worker: Worker, d: Dispatch, at: nat, rows: Table, nextId: nat)
    requires RowsOk(s) && Owned(s.rows, d.id, w)
    requires DispatchEffect(s.rows, s.nextId, d.id, d.recipients, at, rows, nextId)
    requires forall other | other in s.rows && other != d.id :: !Owned(s.rows, other, w)
    ensures RowsOk(Served(s, w, worker, d, rows, nextId))
  {
    var t := Served(s, w, worker, d, rows, nextId);
    forall other | other in t.rows
      ensures RowOk(t.rows[other], t.history[other]) && HolderOk(t.workers, other, t.rows[other])
    {
      if other in s.rows { assert RowOk(s.rows[other], s.history[other]) && HolderOk(s.workers, other, s.rows[other]); }
    }
  }

  lemma ServedWorkers(s: State, w: string, worker: Worker, d: Dispatch, at: nat, rows: Table, nextId: nat)
    requires w in s.workers && s.workers[w].Holding? && forall v | v in s.workers :: WorkerOk(s, v)
    requires d.id in s.rows && DispatchEffect(s.rows, s.nextId, d.id, d.recipients, at, rows, nextId)
    requires worker.Idle? || worker == s.workers[w].(stage := ToFail(false))
    ensures var t := Served(s, w, worker, d, rows, nextId); forall v | v in t.workers :: WorkerOk(t, v)
  {
    var t := Served(s, w, worker, d, rows, nextId);
    forall v | v in t.workers ensures WorkerOk(t, v) {
      assert WorkerOk(s, v);
    }
  }

  lemma ServedOld(s: State, d: Dispatch, at: nat, rows: Table, nextId: nat)
    requires LedgerOk(s.rows, s.dispatches)
    requires d.id in s.rows && s.rows[d.id].status.Processing? && Transactional(s.rows[d.id].topic)
    requires DispatchEffect(s.rows, s.nextId, d.id, d.recipients, at, rows, nextId)
    ensures var all := s.dispatches + [d];
            && (forall k | 0 <= k < |all| :: DispatchOk(rows, all[k]))
            && (forall k, l | 0 <= k < l < |all| :: all[k].id != all[l].id)
  {
    var all := s.dispatches + [d];
    forall k | 0 <= k < |all| ensures DispatchOk(rows, all[k]) {
      if k < |s.dispatches| { DispatchStaysOk(s, rows, d.id, k); }
    }
    forall k, l | 0 <= k < l < |all| ensures all[k].id != all[l].id {
      assert DispatchOk(s.rows, s.dispatches[k]);
    }
  }

  lemma DispatchStaysOk(s: State, rows: Table, id: nat, k: nat)
    requires LedgerOk(s.rows, s.dispatches) && k < |s.dispatches|
    requires id in s.rows && s.rows[id].status.Processing?
    requires forall other | other in s.rows && other != id :: other in rows && rows[other] == s.rows[other]
    requires id in rows && rows[id] == CompletedRow(s.rows[id])
    ensures DispatchOk(rows, s.dispatches[k])
  {
    var d := s.dispatches[k];
    assert DispatchOk(s.rows, d);
    if s.rows[d.id].topic.NotificationDispatch? {
      forall user | user in d.recipients ensures KeyTaken(rows, Child(rows[d.id].dedup, user)) {
        KeyKept(s.rows, rows, Child(s.rows[d.id].dedup, user));
      }
    }
  }

  lemma DispatchedStay(dispatches: seq<Dispatch>, d: Dispatch, id: nat)
    requires IsDispatched(dispatches, id) || d.id == id
    ensures IsDispatched(dispatches + [d], id)
  {
    var all := dispatches + [d];
    if IsDispatched(dispatches, id) {
      var k :| 0 <= k < |dispatches| && dispatches[k].id == id;
      assert all[k].id == id;
    } else {
      assert all[|dispatches|].id == id;
    }
  }

  lemma ServedCompletions(s: State, d: Dispatch, at: nat, rows: Table, nextId: nat)
    requires LedgerOk(s.rows, s.dispatches) && d.id in s.rows
    requires DispatchEffect(s.rows, s.nextId, d.id, d.recipients, at, rows, nextId)
    ensures forall id | id in rows && Transactional(rows[id].topic) && rows[id].status.Completed? ::
              IsDispatched(s.dispatches + [d], id)
  {
    forall id | id in rows && Transactional(rows[id].topic) && rows[id].status.Completed?
      ensures IsDispatched(s.dispatches + [d], id)
    {
      DispatchedStay(s.dispatches, d, id);
    }
  }

  lemma ServedChildren(s: State, d: Dispatch, at: nat, rows: Table, nextId: nat)
    requires LedgerOk(s.rows, s.dispatches) && d.id in s.rows
    requires DispatchEffect(s.rows, s.nextId, d.id, d.recipients, at, rows, nextId)
    ensures forall id | id in rows :: ChildOk(rows, s.dispatches + [d], rows[id].dedup)
  {
    var all := s.dispatches + [d];
    forall id | id in rows ensures ChildOk(rows, all, rows[id].dedup) {
      if id in s.rows {
        ChildKept(s.rows, rows, s.dispatches, all, s.rows[id].dedup);
      } else {
        assert all[|s.dispatches|] == d;
      }
    }
  }

  lemma ServedKeepsInv(s: State, w: string, worker: Worker, d: Dispatch, at: nat, rows: Table, nextId: nat)
    requires Inv(s) && w in s.workers && s.workers[w].Holding? && s.workers[w].claimed.id == d.id
    requires Owned(s.rows, d.id, w) && Transactional(s.rows[d.id].topic)
    requires DispatchEffect(s.rows, s.nextId, d.id, d.recipients, at, rows, nextId)
    requires worker.Idle? || worker == s.workers[w].(stage := ToFail(false))
    ensures Inv(Served(s, w, worker, d, rows, nextId))
  {
    OwnsOne(s, w, d.id);
    ServedRows(s, w, worker, d, at, rows, nextId);
    ServedWorkers(s, w, worker, d, at, rows, nextId);
    ServedOld(s, d, at, rows, nextId);
    ServedCompletions(s, d, at, rows, nextId);
    ServedChildren(s, d, at, rows, nextId);
  }

  lemma DispatchKeepsInv(s: State, w: string, users: seq<nat>, at: nat, acknowledged: bool)
    requires Inv(s) && w in s.workers && s.workers[w].Holding? && Transactional(s.workers[w].claimed.topic)
    ensures Inv(AfterDispatch(s, w, users, at, acknowledged))
  {
    var id := s.workers[w].claimed.id;
    assert WorkerOk(s, w);
    OwnsOne(s, w, id);
    if Owned(s.rows, id, w) {
      var (rows, nextId) := Dispatched(s.rows, s.nextId, id, users, at);
      DispatchedEffect(s.rows, s.nextId, id, users, at);
      ServedKeepsInv(s, w, if acknowledged then Idle else s.workers[w].(stage := ToFail(false)),
                     Dispatch(id, users), at, rows, nextId);
    } else {
      WorkerFrame(s, w, s.workers[w].(stage := ToFail(false)));
    }
  }

  /** Every step of every worker, of the clock and of the operators keeps the invariant. */
  lemma StepKeepsInv(s: State, step: Step)
    requires Inv(s) && Enabled(s, step)
    ensures Inv(Apply(s, step))
  {
    if Internal(step) {
      InternalKeepsInv(s, step);
    } else if step.CommitCompletion? || step.Pause? || step.Fail? {
      SettleKeepsInv(s, step);
    } else if step.Claim? {
      ClaimKeepsInv(s, step.w, step.at, step.swept, step.pick, step.acknowledged);
    } else if step.CommitDispatch? {
      DispatchKeepsInv(s, step.w, step.recipients, step.at, step.acknowledged);
    } else if step.Enqueue? {
      EnqueueKeepsInv(s, step);
    } else {
      ClockKeepsInv(s, Apply(s, step));
    }
  }

  lemma ClockKeepsInv(s: State, t: State)
    requires Inv(s) && t == s.(now := t.now, outboxFence := t.outboxFence, filesFence := t.filesFence)
    ensures Inv(t)
  {
    forall w | w in t.workers ensures WorkerOk(t, w) { assert WorkerOk(s, w); }
  }

  // ---------- Whole runs ----------

  /** Step i leads from one state to the next. */
  ghost predicate Linked(run: seq<State>, steps: seq<Step>, i: nat) {
    && i < |steps| && i + 1 < |run|
    && Enabled(run[i], steps[i]) && run[i + 1] == Apply(run[i], steps[i])
  }

  ghost predicate IsRun(run: seq<State>, steps: seq<Step>) {
    && |run| == |steps| + 1
    && Init(run[0])
    && forall i: nat | i < |steps| :: Linked(run, steps, i)
  }

  lemma {:induction false} RunKeepsInv(run: seq<State>, steps: seq<Step>, n: nat)
    requires IsRun(run, steps) && n < |run|
    ensures Inv(run[n])
    decreases n
  {
    if n == 0 {
      InitHolds(run[0]);
    } else {
      RunKeepsInv(run, steps, n - 1);
      assert Linked(run, steps, n - 1);
      StepKeepsInv(run[n - 1], steps[n - 1]);
    }
  }

  ghost function DispatchesOf(dispatches: seq<Dispatch>, id: nat): nat {
    if dispatches == [] then 0
    else DispatchesOf(dispatches[..|dispatches| - 1], id) + if dispatches[|dispatches| - 1].id == id then 1 else 0
  }

  lemma {:induction false} CountDispatches(dispatches: seq<Dispatch>, id: nat)
    requires forall k, l | 0 <= k < l < |dispatches| :: dispatches[k].id != dispatches[l].id
    ensures DispatchesOf(dispatches, id) == if IsDispatched(dispatches, id) then 1 else 0
  {
    if dispatches != [] {
      var init := dispatches[..|dispatches| - 1];
      CountDispatches(init, id);
      assert forall k | 0 <= k < |init| :: init[k] == dispatches[k];
    }
  }

  /** A message of a transactional topic has one committed dispatch if it is completed, and none otherwise. */
  lemma ExactlyOnceDispatch(run: seq<State>, steps: seq<Step>, n: nat, id: nat)
    requires IsRun(run, steps) && n < |run| && id in run[n].rows && Transactional(run[n].rows[id].topic)
    ensures DispatchesOf(run[n].dispatches, id) == if run[n].rows[id].status.Completed? then 1 else 0
  {
    RunKeepsInv(run, steps, n);
    var s := run[n];
    CountDispatches(s.dispatches, id);
    assert forall k | 0 <= k < |s.dispatches| :: DispatchOk(s.rows, s.dispatches[k]);
  }

  /** The one committed dispatch of a notification has exactly one email child per recipient, and no other child. */
  lemma OneChildPerRecipient(run: seq<State>, steps: seq<Step>, n: nat, d: Dispatch, user: nat)
    requires IsRun(run, steps) && n < |run| && d in run[n].dispatches
    requires d.id in run[n].rows && run[n].rows[d.id].topic.NotificationDispatch?
    ensures var key := Child(run[n].rows[d.id].dedup, user);
            if user in d.recipients then
              exists id :: && id in run[n].rows && run[n].rows[id].dedup == key && run[n].rows[id].topic.EmailDeliver?
                           && forall other | other in run[n].rows && run[n].rows[other].dedup == key :: other == id
            else !KeyTaken(run[n].rows, key)
  {
    RunKeepsInv(run, steps, n);
    var s := run[n];
    var key := Child(s.rows[d.id].dedup, user);
    var k :| 0 <= k < |s.dispatches| && s.dispatches[k] == d;
    assert DispatchOk(s.rows, s.dispatches[k]);
    if user in d.recipients {
      assert KeyTaken(s.rows, key);
      var id :| id in s.rows && s.rows[id].dedup == key;
      assert RowOk(s.rows[id], s.history[id]);
    } else if KeyTaken(s.rows, key) {
      var l := ChildTakenByDispatch(s, d.id, user);
    }
  }

  /** When the dispatch transaction commits no child key is taken, so it queues one row for every recipient. */
  lemma DispatchQueuesEveryone(run: seq<State>, steps: seq<Step>, n: nat)
    requires IsRun(run, steps) && Linked(run, steps, n) && steps[n].CommitDispatch?
    requires |run[n + 1].dispatches| > |run[n].dispatches|
    requires run[n].workers[steps[n].w].claimed.topic.NotificationDispatch?
    ensures run[n + 1].nextId == run[n].nextId + |steps[n].recipients|
  {
    RunKeepsInv(run, steps, n);
    var s, step := run[n], steps[n];
    var c := s.workers[step.w].claimed;
    assert run[n + 1] == Apply(s, step);
    assert WorkerOk(s, step.w);
    forall user | user in step.recipients ensures !KeyTaken(s.rows, Child(c.dedup, user)) {
      NoChildBeforeDispatch(s, c.id, user);
    }
    QueueAddsAll(s.rows, s.nextId, c.dedup, step.recipients, step.at);
  }

  lemma ChildTakenByDispatch(s: State, id: nat, user: nat) returns (k: nat)
    requires Inv(s) && id in s.rows && KeyTaken(s.rows, Child(s.rows[id].dedup, user))
    ensures k < |s.dispatches| && s.dispatches[k].id == id && user in s.dispatches[k].recipients
    ensures s.rows[id].status.Completed?
  {
    var key := Child(s.rows[id].dedup, user);
    var child :| child in s.rows && s.rows[child].dedup == key;
    assert ChildOk(s.rows, s.dispatches, s.rows[child].dedup);
    k :| && 0 <= k < |s.dispatches| && s.dispatches[k].id in s.rows
         && s.rows[s.dispatches[k].id].dedup == key.parent
         && key.user in s.dispatches[k].recipients;
    assert DispatchOk(s.rows, s.dispatches[k]);
  }

  lemma NoChildBeforeDispatch(s: State, id: nat, user: nat)
    requires Inv(s) && id in s.rows && !s.rows[id].status.Completed?
    ensures !KeyTaken(s.rows, Child(s.rows[id].dedup, user))
  {
    if KeyTaken(s.rows, Child(s.rows[id].dedup, user)) {
      var k := ChildTakenByDispatch(s, id, user);
    }
  }

  /** Attempt counts, leases and claims of every row of every reachable state. */
  lemma ReachableRow(run: seq<State>, steps: seq<Step>, n: nat, id: nat)
    requires IsRun(run, steps) && n < |run| && id in run[n].rows
    ensures id in run[n].history && RowOk(run[n].rows[id], run[n].history[id])
    ensures run[n].history[id].claims <= run[n].rows[id].maxAttempts + run[n].history[id].pauses
    ensures forall w | w in run[n].workers && run[n].workers[w].Holding? && Owned(run[n].rows, id, w) ::
              run[n].workers[w].claimed == ClaimOf(id, run[n].rows[id])
  {
    RunKeepsInv(run, steps, n);
    var s := run[n];
    assert RowOk(s.rows[id], s.history[id]) && HolderOk(s.workers, id, s.rows[id]);
  }

  // ---------- Progress of one message ----------

  /** What a claim does to one row. */
  lemma ClaimedRow(s: State, step: Step, id: nat)
    requires s.history.Keys == s.rows.Keys && Enabled(s, step) && step.Claim? && id in s.rows
    ensures var rows := Apply(s, step).rows;
            && id in rows
            && rows[id] == if step.pick == Some(id) then LeasedTo(s.rows[id], step.w, step.at)
                           else if id in step.swept then Swept(s.rows[id], step.at) else s.rows[id]
  {
  }

  lemma ClaimMoves(s: State, step: Step, id: nat)
    requires s.history.Keys == s.rows.Keys && Enabled(s, step) && step.Claim? && id in s.rows
    requires RowOk(s.rows[id], s.history[id])
    ensures var t := Apply(s, step);
            && id in t.rows
            && (t.rows[id] == s.rows[id]
                || Moves(SweepMove, s.rows[id], t.rows[id])
                || Moves(ClaimMove, s.rows[id], t.rows[id]))
  {
    ClaimedRow(s, step, id);
  }

  lemma DispatchMoves(s: State, w: string, users: seq<nat>, at: nat, acknowledged: bool, id: nat)
    requires Below(s.rows, s.nextId) && UniqueKeys(s.rows)
    requires w in s.workers && s.workers[w].Holding? && id in s.rows
    ensures var t := AfterDispatch(s, w, users, at, acknowledged);
            id in t.rows && (t.rows[id] == s.rows[id] || Moves(CompleteMove, s.rows[id], t.rows[id]))
  {
    var c := s.workers[w].claimed;
    if Owned(s.rows, c.id, w) { DispatchedEffect(s.rows, s.nextId, c.id, users, at); }
  }

  lemma SettleMoves(s: State, step: Step, id: nat)
    requires Enabled(s, step) && (step.CommitCompletion? || step.Pause? || step.Fail?) && id in s.rows
    requires s.history.Keys == s.rows.Keys && RowOk(s.rows[id], s.history[id])
    requires var c := s.workers[step.w].claimed;
             Owned(s.rows, c.id, step.w) ==> c == ClaimOf(c.id, s.rows[c.id])
    ensures id in Apply(s, step).rows
    ensures Moves(MoveOf(s, step, id), s.rows[id], Apply(s, step).rows[id])
  {
  }

  /** Every step moves a message along its life cycle, or leaves it alone. */
  lemma StepMoves(s: State, step: Step, id: nat)
    requires Inv(s) && Enabled(s, step) && id in s.rows
    ensures id in Apply(s, step).rows
    ensures Moves(MoveOf(s, step, id), s.rows[id], Apply(s, step).rows[id])
  {
    if step.Claim? {
      ClaimMoves(s, step, id);
    } else if step.CommitDispatch? {
      DispatchMoves(s, step.w, step.recipients, step.at, step.acknowledged, id);
    } else if step.CommitCompletion? || step.Pause? || step.Fail? {
      assert RowOk(s.rows[id], s.history[id]);
      OwnsOne(s, step.w, s.workers[step.w].claimed.id);
      SettleMoves(s, step, id);
    }
  }

  /** Completed and dead rows never change again. */
  lemma {:induction false} TerminalIsFinal(run: seq<State>, steps: seq<Step>, m: nat, n: nat, id: nat)
    requires IsRun(run, steps) && m <= n < |run| && id in run[m].rows && Terminal(run[m].rows[id])
    ensures id in run[n].rows && run[n].rows[id] == run[m].rows[id]
    decreases n - m
  {
    if m < n {
      TerminalIsFinal(run, steps, m, n - 1, id);
      RunKeepsInv(run, steps, n - 1);
      assert Linked(run, steps, n - 1);
      StepMoves(run[n - 1], steps[n - 1], id);
    }
  }

  /** Strictly decreased by every move of a message but a pause. */
  function Measure(m: Message): int {
    if Terminal(m) then 0
    else if m.status.Pending? then 2 * (m.maxAttempts - m.attempts)
    else 2 * (m.maxAttempts - m.attempts) + 1
  }

  lemma MoveDecreases(s: State, step: Step, id: nat)
    requires Inv(s) && Enabled(s, step) && id in s.rows
    ensures id in Apply(s, step).rows
    ensures 0 <= Measure(Apply(s, step).rows[id]) && Measure(s.rows[id]) <= 2 * s.rows[id].maxAttempts
    ensures MoveOf(s, step, id).Stay? ==> Apply(s, step).rows[id] == s.rows[id]
    ensures !MoveOf(s, step, id).Stay? && !MoveOf(s, step, id).PauseMove? ==>
              Measure(Apply(s, step).rows[id]) < Measure(s.rows[id])
    ensures MoveOf(s, step, id).PauseMove? ==> step.Pause?
  {
    StepMoves(s, step, id);
    StepKeepsInv(s, step);
    assert RowOk(s.rows[id], s.history[id]) && RowOk(Apply(s, step).rows[id], Apply(s, step).history[id]);
  }

  ghost predicate RowChanged(run: seq<State>, i: nat, id: nat)
    requires i + 1 < |run|
  {
    id in run[i].rows && id in run[i + 1].rows && run[i + 1].rows[id] != run[i].rows[id]
  }

  /** How often message id moved between two points of a run. */
  ghost function MovesBetween(run: seq<State>, m: nat, n: nat, id: nat): nat
    requires m <= n < |run|
    decreases n
  {
    if m == n then 0
    else MovesBetween(run, m, n - 1, id) + if RowChanged(run, n - 1, id) then 1 else 0
  }

  /** No pause moves message id between two points of a run. */
  ghost predicate Unpaused(run: seq<State>, steps: seq<Step>, m: nat, n: nat, id: nat)
    requires m <= n < |run| && |run| == |steps| + 1
  {
    forall i | m <= i < n && RowChanged(run, i, id) :: !steps[i].Pause?
  }

  lemma LastMove(run: seq<State>, steps: seq<Step>, i: nat, id: nat)
    requires IsRun(run, steps) && i < |steps| && id in run[i].rows
    ensures id in run[i + 1].rows
    ensures run[i + 1].rows[id] == run[i].rows[id] || steps[i].Pause?
            || Measure(run[i + 1].rows[id]) < Measure(run[i].rows[id])
  {
    RunKeepsInv(run, steps, i);
    assert Linked(run, steps, i);
    MoveDecreases(run[i], steps[i], id);
  }

  /** Without pauses a message moves at most twice per remaining attempt. */
  lemma {:induction false} MovesAreBounded(run: seq<State>, steps: seq<Step>, m: nat, n: nat, id: nat)
    requires IsRun(run, steps) && m <= n < |run| && id in run[m].rows
    requires Unpaused(run, steps, m, n, id)
    ensures id in run[n].rows
    ensures MovesBetween(run, m, n, id) + Measure(run[n].rows[id]) <= Measure(run[m].rows[id])
    decreases n
  {
    if m < n {
      assert Unpaused(run, steps, m, n - 1, id);
      MovesAreBounded(run, steps, m, n - 1, id);
      LastMove(run, steps, n - 1, id);
      assert RowChanged(run, n - 1, id) ==> !steps[n - 1].Pause?;
    }
  }

  /**
  A message that is not finished cannot get stuck, nor is it taken too early. A pending one is claimable
  exactly from the time it is available. A leased one is touched exactly once the lease is older than
  300 seconds: claimed if it is available and has an attempt left, and swept if it has none.
  */
  lemma NoMessageIsStuck(run: seq<State>, steps: seq<Step>, n: nat, id: nat, now: nat)
    requires IsRun(run, steps) && n < |run| && id in run[n].rows && !Terminal(run[n].rows[id])
    ensures var m := run[n].rows[id];
            && (m.status.Pending? ==> !Exhausted(m, now) && (Eligible(m, now) <==> m.availableAt <= now))
            && (m.status.Processing? ==>
                  && m.lease.Some?
                  && (Exhausted(m, now) <==> m.lease.value.since + 300_000 < now && m.attempts == m.maxAttempts)
                  && (Eligible(m, now) <==> m.lease.value.since + 300_000 < now && m.attempts < m.maxAttempts
                                            && m.availableAt <= now))
  {
    RunKeepsInv(run, steps, n);
    assert RowOk(run[n].rows[id], run[n].history[id]);
  }

  /** No claim, whatever its clock and whatever it sweeps, changes a row whose lease is at most 300 seconds old. */
  lemma LiveLeaseIsKept(s: State, step: Step, id: nat)
    requires Inv(s) && Enabled(s, step) && step.Claim? && id in s.rows && s.rows[id].status.Processing?
    requires s.rows[id].lease.Some? && s.now <= s.rows[id].lease.value.since + 300_000
    ensures id in Apply(s, step).rows && Apply(s, step).rows[id] == s.rows[id]
  {
    assert RowOk(s.rows[id], s.history[id]);
  }

  /** The claim of a worker that finds no row locked: it buries all exhausted rows and takes the first eligible one. */
  function FullClaim(s: State, w: string): Step {
    var exhausted := set id | id in s.rows && Exhausted(s.rows[id], s.now);
    Claim(w, s.now, exhausted, Pick(s.rows, s.now, {}, s.nextId), true)
  }

  /**
  With the fence up, an idle worker can make that claim, which buries what is exhausted and takes a
  row if one is eligible.
  */
  lemma ClaimMakesProgress(s: State, w: string, id: nat)
    requires Inv(s) && s.outboxFence && w in s.workers && s.workers[w].Idle? && id in s.rows
    requires Eligible(s.rows[id], s.now) || Exhausted(s.rows[id], s.now)
    ensures Enabled(s, FullClaim(s, w))
    ensures var t := Apply(s, FullClaim(s, w));
            && id in t.rows
            && (Exhausted(s.rows[id], s.now) ==> t.rows[id].status.Dead?)
            && (Eligible(s.rows[id], s.now) ==> t.workers[w].Holding?)
  {
    PickIsFirst(s.rows, s.now, {}, s.nextId);
  }
}
