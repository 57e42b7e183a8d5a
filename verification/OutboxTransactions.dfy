/**
The transactions of the outbox workers, lock by lock. Claim, dispatch and completion each check
their fence under a share lock that lives to the end of the transaction, write rows that nobody
else sees and nobody else can write, and then commit. A claim locks the rows it buries one at a
time, and a dispatch looks up and inserts its children one at a time. Every run of this machine is
a run of OutboxProtocol, where each transaction is one step under its fence.
*/
module OutboxTransactions {
  import opened Wrappers
  import opened Outbox
  import P = OutboxProtocol

  datatype Kind = ToClaim | ToDispatch | ToComplete

  /** A claim is halfway after its sweep. */
  datatype Phase = Checked | Halfway | Ready

  /**
  An open transaction, its reading of the clock, the rows it has written, and how far a dispatch
  is with the recipients it has read: it is done with the first ones, and may have looked up the
  next. Written rows are locked, and so are the child keys that it has found or inserted.
  */
  datatype Tx = Tx(
    kind: Kind, phase: Phase, at: nat, writes: Table, pick: Option<nat>,
    recipients: seq<nat>, done: nat, looked: bool, children: seq<Message>)

  /** gaps(k, key): the lookup of the absent key k locks a gap in which key would be inserted. */
  type Gaps = (DedupKey, DedupKey) -> bool

  /** The committed state, one open transaction per worker, and who checked the fence on the pool. */
  datatype System = System(base: P.State, txs: map<string, Tx>, pool: set<string>)

  datatype Step =
    | Single(step: P.Step)
    | CheckFence(w: string, kind: Kind, at: nat, recipients: seq<nat>)
    | SweepRow(w: string, id: nat)
    | EndSweep(w: string)
    | LeaseRow(w: string)
    | LookUp(w: string)
    | InsertChild(w: string)
    | CompleteRow(w: string)
    | Commit(w: string, acknowledged: bool)
    | Rollback(w: string)
    | CheckPool(w: string)
    | Deliver(w: string)

  ghost predicate Init(s: System) {
    P.Init(s.base) && s.txs == map[] && s.pool == {}
  }

  // ---------- Locks ----------

  /** The transaction has the share lock on the fence of the file worker; otherwise on that of the outbox. */
  predicate UsesFiles(b: P.State, w: string, tx: Tx) {
    tx.kind.ToDispatch? && w in b.workers && b.workers[w].Holding? && b.workers[w].claimed.topic.FileScan?
  }

  predicate FenceUp(b: P.State, w: string, tx: Tx) {
    if UsesFiles(b, w, tx) then b.filesFence else b.outboxFence
  }

  predicate Dispatching(b: P.State, w: string, tx: Tx) {
    tx.kind.ToDispatch? && w in b.workers && b.workers[w].Holding?
  }

  /** The key of a child that the transaction has found or inserted. */
  predicate KeyLocked(b: P.State, w: string, tx: Tx, key: DedupKey) {
    && Dispatching(b, w, tx) && tx.done <= |tx.recipients|
    && key.Child? && key.parent == b.workers[w].claimed.dedup && key.user in tx.recipients[..tx.done]
  }

  /** A key in a gap that the transaction has locked by looking up an absent one. */
  predicate GapLocked(gaps: Gaps, b: P.State, w: string, tx: Tx, key: DedupKey) {
    && Dispatching(b, w, tx)
    && exists k | 0 <= k < |tx.recipients| ::
         && (k < tx.done || (k == tx.done && tx.looked))
         && var absent := Child(b.workers[w].claimed.dedup, tx.recipients[k]);
            !KeyTaken(b.rows, absent) && gaps(absent, key)
  }

  /** No transaction but that of w has written the row, or found it by its key. */
  predicate RowFree(s: System, w: string, id: nat) {
    forall v | v in s.txs && v != w ::
      id !in s.txs[v].writes && !(id in s.base.rows && KeyLocked(s.base, v, s.txs[v], s.base.rows[id].dedup))
  }

  predicate KeyFree(s: System, w: string, key: DedupKey) {
    forall v | v in s.txs && v != w :: !KeyLocked(s.base, v, s.txs[v], key)
  }

  predicate GapFree(gaps: Gaps, s: System, w: string, key: DedupKey) {
    forall v | v in s.txs && v != w :: !GapLocked(gaps, s.base, v, s.txs[v], key)
  }

  function LockedByOthers(s: System, w: string): set<nat> {
    set id | id in s.base.rows && !RowFree(s, w, id)
  }

  // ---------- The statements ----------

  predicate MayCheck(b: P.State, w: string, kind: Kind) {
    match kind
    case ToClaim => w in b.workers && b.workers[w].Idle? && b.outboxFence
    case ToDispatch =>
      && P.Holds(b, w, P.Fresh) && Transactional(b.workers[w].claimed.topic)
      && P.FenceFor(b, b.workers[w].claimed.topic)
    case ToComplete => P.Holds(b, w, P.Delivered) && b.outboxFence
  }

  predicate In(s: System, w: string, kind: Kind, phase: Phase) {
    w in s.txs && s.txs[w].kind == kind && s.txs[w].phase == phase
  }

  /** Only the dispatch of a notification reads recipients, each once. */
  predicate MayRead(b: P.State, w: string, kind: Kind, recipients: seq<nat>) {
    && P.Distinct(recipients)
    && (recipients != [] ==>
          kind.ToDispatch? && P.Holds(b, w, P.Fresh) && b.workers[w].claimed.topic.NotificationDispatch?)
  }

  function Since(m: Message): nat {
    if m.lease.Some? then m.lease.value.since else 0
  }

  /** The order in which a sweep meets the rows: by the time of the lease, then by id. */
  predicate Scanned(rows: Table, i: nat, j: nat) {
    && i in rows && j in rows
    && (Since(rows[i]) < Since(rows[j]) || (Since(rows[i]) == Since(rows[j]) && i < j))
  }

  /** A row that the sweep still has to bury: exhausted, and behind those it has buried. */
  predicate ToSweep(b: P.State, tx: Tx, id: nat) {
    && id in b.rows && Exhausted(b.rows[id], tx.at)
    && forall j | j in tx.writes :: Scanned(b.rows, j, id)
  }

  predicate NextToSweep(b: P.State, tx: Tx, id: nat) {
    ToSweep(b, tx, id) && forall j | j in b.rows && ToSweep(b, tx, j) && j != id :: Scanned(b.rows, id, j)
  }

  /** The dispatch is in its loop, with a recipient left. */
  predicate InLoop(s: System, w: string) {
    && In(s, w, ToDispatch, Checked) && w in s.base.workers && s.base.workers[w].Holding?
    && s.txs[w].done < |s.txs[w].recipients|
  }

  function NextKey(s: System, w: string): DedupKey
    requires InLoop(s, w)
  {
    Child(s.base.workers[w].claimed.dedup, s.txs[w].recipients[s.txs[w].done])
  }

  /** No other transaction has written a row that has the key. */
  predicate ReadFree(s: System, w: string, key: DedupKey) {
    forall id | id in s.base.rows && s.base.rows[id].dedup == key :: RowFree(s, w, id)
  }

  predicate MayComplete(s: System, w: string) {
    In(s, w, ToComplete, Checked) || (In(s, w, ToDispatch, Checked) && s.txs[w].done == |s.txs[w].recipients|)
  }

  predicate OnPool(b: P.State, w: string) {
    P.Holds(b, w, P.Fresh) && (b.workers[w].claimed.topic.EmailDeliver? || b.workers[w].claimed.topic.SmsDeliver?)
  }

  /** Statements that are transactions of their own, and the ends of workers; a lock may make them wait. */
  predicate MayTakeSingle(gaps: Gaps, s: System, step: P.Step) {
    match step
    case Enqueue(_, name, _, _) => forall v | v in s.txs :: !GapLocked(gaps, s.base, v, s.txs[v], Root(name))
    case SetFences(outbox, files) =>
      forall w | w in s.txs ::
        if UsesFiles(s.base, w, s.txs[w]) then files == s.base.filesFence else outbox == s.base.outboxFence
    case MeetFence(w) => w !in s.txs
    case Pause(w, _) => w !in s.txs && P.Enabled(s.base, step) && RowFree(s, w, s.base.workers[w].claimed.id)
    case Fail(w, _) => w !in s.txs && P.Enabled(s.base, step) && RowFree(s, w, s.base.workers[w].claimed.id)
    case Claim(_, _, _, _, _) => false
    case CommitDispatch(_, _, _, _) => false
    case CommitCompletion(_, _) => false
    case Deliver(_) => false
    case _ => true
  }

  predicate Enabled(gaps: Gaps, s: System, step: Step) {
    match step
    case Single(single) => MayTakeSingle(gaps, s, single) && P.Enabled(s.base, single)
    case CheckFence(w, kind, at, recipients) =>
      w !in s.txs && MayCheck(s.base, w, kind) && at <= s.base.now && MayRead(s.base, w, kind, recipients)
    case SweepRow(w, id) =>
      In(s, w, ToClaim, Checked) && NextToSweep(s.base, s.txs[w], id) && RowFree(s, w, id)
    case EndSweep(w) =>
      In(s, w, ToClaim, Checked) && forall id | id in s.base.rows :: !ToSweep(s.base, s.txs[w], id)
    case LeaseRow(w) => In(s, w, ToClaim, Halfway)
    case LookUp(w) =>
      && InLoop(s, w) && !s.txs[w].looked
      && KeyFree(s, w, NextKey(s, w)) && ReadFree(s, w, NextKey(s, w))
    case InsertChild(w) =>
      && InLoop(s, w) && s.txs[w].looked
      && KeyFree(s, w, NextKey(s, w)) && GapFree(gaps, s, w, NextKey(s, w))
    case CompleteRow(w) =>
      && MayComplete(s, w) && w in s.base.workers && s.base.workers[w].Holding?
      && RowFree(s, w, s.base.workers[w].claimed.id)
    case Commit(w, _) =>
      && w in s.txs && s.txs[w].phase.Ready? && w in s.base.workers
      && (s.txs[w].kind.ToClaim? || s.base.workers[w].Holding?)
    case Rollback(w) => w in s.txs && s.txs[w].kind.ToClaim?
    case CheckPool(w) => w !in s.txs && OnPool(s.base, w) && s.base.outboxFence
    case Deliver(w) => w in s.pool && w !in s.txs && OnPool(s.base, w)
  }

  /** What one turn of the loop inserts: a child whose key is not taken. */
  function LastChild(rows: Table, parent: DedupKey, user: nat, at: nat): seq<Message> {
    if KeyTaken(rows, Child(parent, user)) then [] else [ChildMessage(parent, user, at)]
  }

  /** The children of the recipients whose key is not taken. */
  function FreshChildren(rows: Table, parent: DedupKey, users: seq<nat>, at: nat): seq<Message> {
    if users == [] then []
    else
      var user := users[|users| - 1];
      FreshChildren(rows, parent, users[..|users| - 1], at) + LastChild(rows, parent, user, at)
  }

  /** The rows with new ones under the next ids. */
  function Appended(rows: Table, nextId: nat, children: seq<Message>): Table {
    if children == [] then rows
    else Appended(rows, nextId, children[..|children| - 1])[nextId + |children| - 1 := children[|children| - 1]]
  }

  function AfterLease(s: System, w: string): Tx
    requires w in s.txs
  {
    var tx := s.txs[w];
    var pick := Pick(s.base.rows + tx.writes, tx.at, LockedByOthers(s, w), s.base.nextId);
    if pick.Some? && pick.value in s.base.rows
    then tx.(phase := Ready, pick := pick,
             writes := tx.writes[pick.value := LeasedTo(s.base.rows[pick.value], w, tx.at)])
    else tx.(phase := Ready)
  }

  function AfterSweep(s: System, w: string, id: nat): Tx
    requires w in s.txs && id in s.base.rows
  {
    s.txs[w].(writes := s.txs[w].writes[id := Swept(s.base.rows[id], s.txs[w].at)])
  }

  /** A child that is found is passed over; one that is not found is to be inserted. */
  function AfterLookUp(s: System, w: string): Tx
    requires InLoop(s, w)
  {
    if KeyTaken(s.base.rows, NextKey(s, w)) then s.txs[w].(done := s.txs[w].done + 1)
    else s.txs[w].(looked := true)
  }

  /** INSERT IGNORE: a key that has been taken since the lookup is passed over, too. */
  function AfterInsert(s: System, w: string): Tx
    requires InLoop(s, w)
  {
    var tx := s.txs[w];
    var inserted := LastChild(s.base.rows, s.base.workers[w].claimed.dedup, tx.recipients[tx.done], tx.at);
    tx.(done := tx.done + 1, looked := false, children := tx.children + inserted)
  }

  // ---------- The commit ----------

  function NextWorker(b: P.State, w: string, tx: Tx, acknowledged: bool): P.Worker
    requires w in b.workers && (tx.kind.ToClaim? || b.workers[w].Holding?)
  {
    if !tx.kind.ToClaim? then if acknowledged then P.Idle else b.workers[w].(stage := P.ToFail(false))
    else if tx.pick.None? || tx.pick.value !in tx.writes then b.workers[w]
    else if acknowledged then P.Holding(ClaimOf(tx.pick.value, tx.writes[tx.pick.value]), P.Fresh)
    else P.Stopped
  }

  /** The counts that the proofs keep of claims and pauses. */
  function NextHistory(b: P.State, tx: Tx, rows: Table): map<nat, P.History> {
    if tx.kind.ToClaim? then
      if tx.pick.Some? && tx.pick.value in b.history
      then b.history[tx.pick.value := b.history[tx.pick.value].(claims := b.history[tx.pick.value].claims + 1)]
      else b.history
    else if tx.kind.ToDispatch? then map id | id in rows :: if id in b.history then b.history[id] else P.History(0, 0)
    else b.history
  }

  /** What the transaction wrote becomes visible. */
  function Merged(b: P.State, w: string, tx: Tx, acknowledged: bool): P.State
    requires w in b.workers && (tx.kind.ToClaim? || b.workers[w].Holding?)
  {
    var rows := Appended(b.rows + tx.writes, b.nextId, tx.children);
    b.(rows := rows, nextId := b.nextId + |tx.children|,
       workers := b.workers[w := NextWorker(b, w, tx, acknowledged)],
       dispatches := if tx.kind.ToDispatch? then b.dispatches + [P.Dispatch(b.workers[w].claimed.id, tx.recipients)]
                     else b.dispatches,
       history := NextHistory(b, tx, rows))
  }

  function Began(kind: Kind, at: nat, recipients: seq<nat>): Tx {
    Tx(kind, Checked, at, map[], None, recipients, 0, false, [])
  }

  function WithTx(s: System, w: string, tx: Tx): System {
    s.(txs := s.txs[w := tx])
  }

  /** The worker whose transaction and pool check a single step ends. */
  function Ends(step: P.Step): set<string> {
    match step
    case Crash(w) => {w}
    case Break(w, _) => {w}
    case MeetFence(w) => {w}
    case _ => {}
  }

  function Apply(gaps: Gaps, s: System, step: Step): System
    requires Enabled(gaps, s, step)
  {
    match step
    case Single(single) =>
      System(P.Apply(s.base, single), s.txs - Ends(single), s.pool - Ends(single))
    case CheckFence(w, kind, at, recipients) => WithTx(s, w, Began(kind, at, recipients))
    case SweepRow(w, id) => WithTx(s, w, AfterSweep(s, w, id))
    case EndSweep(w) => WithTx(s, w, s.txs[w].(phase := Halfway))
    case LeaseRow(w) => WithTx(s, w, AfterLease(s, w))
    case LookUp(w) => WithTx(s, w, AfterLookUp(s, w))
    case InsertChild(w) => WithTx(s, w, AfterInsert(s, w))
    case CompleteRow(w) =>
      var id := s.base.workers[w].claimed.id;
      if Owned(s.base.rows, id, w)
      then WithTx(s, w, s.txs[w].(phase := Ready, writes := map[id := CompletedRow(s.base.rows[id])]))
      else s.(base := P.At(s.base, w, P.ToFail(false)), txs := s.txs - {w})
    case Commit(w, acknowledged) => s.(base := Merged(s.base, w, s.txs[w], acknowledged), txs := s.txs - {w})
    case Rollback(w) => s.(txs := s.txs - {w})
    case CheckPool(w) => s.(pool := s.pool + {w})
    case Deliver(w) => s.(base := P.Apply(s.base, P.Deliver(w)), pool := s.pool - {w})
  }

  // ---------- What an open transaction may rely on ----------

  /** Each row a claim has written is the one it saw: exhausted and buried, or eligible and leased. */
  ghost predicate ClaimOk(b: P.State, w: string, tx: Tx)
    requires w in b.workers
  {
    && b.workers[w].Idle? && tx.recipients == [] && tx.children == []
    && (forall id | id in tx.writes ::
          && id in b.rows
          && if tx.pick == Some(id)
             then Eligible(b.rows[id], tx.at) && tx.writes[id] == LeasedTo(b.rows[id], w, tx.at)
             else Exhausted(b.rows[id], tx.at) && tx.writes[id] == Swept(b.rows[id], tx.at))
    && (tx.pick.Some? ==> tx.pick.value in tx.writes && tx.phase.Ready?)
  }

  /** Once the lease is completed in private, the row is still owned. */
  ghost predicate CompletionOk(b: P.State, w: string, tx: Tx)
    requires w in b.workers && b.workers[w].Holding?
  {
    var id := b.workers[w].claimed.id;
    && tx.pick.None?
    && if tx.phase.Ready?
       then Owned(b.rows, id, w) && tx.writes == map[id := CompletedRow(b.rows[id])]
       else tx.writes == map[]
  }

  ghost predicate DispatchOk(b: P.State, w: string, tx: Tx) {
    && P.Holds(b, w, P.Fresh) && Transactional(b.workers[w].claimed.topic) && CompletionOk(b, w, tx)
    && P.Distinct(tx.recipients) && (tx.recipients != [] ==> b.workers[w].claimed.topic.NotificationDispatch?)
    && tx.done <= |tx.recipients| && (tx.looked ==> tx.done < |tx.recipients|)
    && !tx.phase.Halfway? && (tx.phase.Ready? ==> tx.done == |tx.recipients|)
    && tx.children == FreshChildren(b.rows, b.workers[w].claimed.dedup, tx.recipients[..tx.done], tx.at)
  }

  ghost predicate TxOk(b: P.State, w: string, tx: Tx) {
    && w in b.workers && tx.at <= b.now && FenceUp(b, w, tx)
    && match tx.kind
       case ToClaim => ClaimOk(b, w, tx)
       case ToDispatch => DispatchOk(b, w, tx)
       case ToComplete =>
         && P.Holds(b, w, P.Delivered) && CompletionOk(b, w, tx) && tx.recipients == [] && tx.children == []
         && !tx.phase.Halfway?
  }

  /** The rows and keys of two transactions are different. */
  ghost predicate TxsApart(b: P.State, v: string, x: Tx, w: string, y: Tx) {
    x.writes.Keys !! y.writes.Keys && forall key :: !(KeyLocked(b, v, x, key) && KeyLocked(b, w, y, key))
  }

  /** No row and no key is locked twice. */
  ghost predicate Apart(s: System) {
    forall v, w | v in s.txs && w in s.txs && v != w :: TxsApart(s.base, v, s.txs[v], w, s.txs[w])
  }

  ghost predicate Inv(s: System) {
    && P.Inv(s.base)
    && (forall w | w in s.txs :: TxOk(s.base, w, s.txs[w]))
    && Apart(s)
  }

  // ---------- The commit is the atomic step ----------

  function AtomicStep(b: P.State, w: string, tx: Tx, acknowledged: bool): P.Step {
    match tx.kind
    case ToClaim =>
      var swept := if tx.pick.Some? then tx.writes.Keys - {tx.pick.value} else tx.writes.Keys;
      P.Claim(w, tx.at, swept, tx.pick, acknowledged)
    case ToDispatch => P.CommitDispatch(w, tx.recipients, tx.at, acknowledged)
    case ToComplete => P.CommitCompletion(w, acknowledged)
  }

  lemma ClaimWrites(b: P.State, w: string, tx: Tx)
    requires w in b.workers && ClaimOk(b, w, tx)
    ensures var swept := if tx.pick.Some? then tx.writes.Keys - {tx.pick.value} else tx.writes.Keys;
            && P.Claimable(b.rows, tx.at, swept, tx.pick)
            && var buried := P.Buried(b.rows, tx.at, swept);
            b.rows + tx.writes
            == if tx.pick.Some? then buried[tx.pick.value := LeasedTo(buried[tx.pick.value], w, tx.at)] else buried
  {
  }

  lemma ClaimIsAtomic(b: P.State, w: string, tx: Tx, acknowledged: bool)
    requires b.history.Keys == b.rows.Keys && TxOk(b, w, tx) && tx.kind.ToClaim?
    ensures P.Enabled(b, AtomicStep(b, w, tx, acknowledged))
    ensures P.Apply(b, AtomicStep(b, w, tx, acknowledged)) == Merged(b, w, tx, acknowledged)
  {
    ClaimWrites(b, w, tx);
    var rows := b.rows + tx.writes;
    assert Appended(rows, b.nextId, tx.children) == rows;
    if tx.pick.None? {
      assert b.workers[w := b.workers[w]] == b.workers;
    }
  }

  lemma CompletionIsAtomic(b: P.State, w: string, tx: Tx, acknowledged: bool)
    requires b.history.Keys == b.rows.Keys && TxOk(b, w, tx) && tx.kind.ToComplete? && tx.phase.Ready?
    ensures P.Enabled(b, AtomicStep(b, w, tx, acknowledged))
    ensures P.Apply(b, AtomicStep(b, w, tx, acknowledged)) == Merged(b, w, tx, acknowledged)
  {
    var id := b.workers[w].claimed.id;
    assert b.rows + tx.writes == b.rows[id := CompletedRow(b.rows[id])];
    assert b.history[id := b.history[id]] == b.history;
  }

  lemma {:induction false} AppendedRows(rows: Table, nextId: nat, children: seq<Message>)
    requires Below(rows, nextId)
    ensures var t := Appended(rows, nextId, children);
            && Below(t, nextId + |children|)
            && (forall id | id in t :: if id in rows then t[id] == rows[id]
                                       else nextId <= id && t[id] == children[id - nextId])
            && (forall id | id in rows :: id in t)
  {
    if children != [] {
      AppendedRows(rows, nextId, children[..|children| - 1]);
    }
  }

  lemma KeyOfLater(rows: Table, before: Table, nextId: nat, parent: DedupKey, init: seq<nat>, user: nat, at: nat)
    requires user !in init
    requires forall id | id in rows :: id in before && before[id] == rows[id]
    requires forall id | id in before && id !in rows :: nextId <= id && IsChild(before[id], parent, init, at)
    ensures KeyTaken(before, Child(parent, user)) <==> KeyTaken(rows, Child(parent, user))
  {
    if KeyTaken(rows, Child(parent, user)) {
      var id :| id in rows && rows[id].dedup == Child(parent, user);
      assert before[id].dedup == Child(parent, user);
    }
  }

  lemma {:induction false} AppendLast(rows: Table, nextId: nat, children: seq<Message>, last: seq<Message>)
    requires |last| <= 1
    ensures Appended(rows, nextId, children + last)
         == if last == [] then Appended(rows, nextId, children)
            else Appended(rows, nextId, children)[nextId + |children| := last[0]]
  {
    if last == [] {
      assert children + last == children;
    } else {
      assert (children + last)[..|children|] == children;
    }
  }

  lemma QueueKeepsLater(rows: Table, nextId: nat, parent: DedupKey, init: seq<nat>, user: nat, at: nat)
    requires Below(rows, nextId) && UniqueKeys(rows) && user !in init
    ensures KeyTaken(QueueChildren(rows, nextId, parent, init, at).0, Child(parent, user))
       <==> KeyTaken(rows, Child(parent, user))
  {
    QueueAdds(rows, nextId, parent, init, at);
    KeyOfLater(rows, QueueChildren(rows, nextId, parent, init, at).0, nextId, parent, init, user, at);
  }

  /** The last turn of the loop, decided by the rows before the first one. */
  lemma QueueLast(rows: Table, nextId: nat, parent: DedupKey, users: seq<nat>, at: nat)
    requires users != []
    requires var before := QueueChildren(rows, nextId, parent, users[..|users| - 1], at).0;
             var key := Child(parent, users[|users| - 1]);
             KeyTaken(before, key) <==> KeyTaken(rows, key)
    ensures var last := LastChild(rows, parent, users[|users| - 1], at);
            var (before, id) := QueueChildren(rows, nextId, parent, users[..|users| - 1], at);
            QueueChildren(rows, nextId, parent, users, at)
            == (if last == [] then before else before[id := last[0]], id + |last|)
  {
  }

  lemma AppendedTurn(rows: Table, nextId: nat, earlier: seq<Message>, last: seq<Message>, before: Table, queued: Table)
    requires |last| <= 1 && before == Appended(rows, nextId, earlier)
    requires queued == if last == [] then before else before[nextId + |earlier| := last[0]]
    ensures queued == Appended(rows, nextId, earlier + last)
  {
    AppendLast(rows, nextId, earlier, last);
  }

  /**
  The loop of the dispatcher inserts exactly the fresh children: an earlier recipient takes no key
  of a later one.
  */
  lemma {:induction false} QueueIsAppended(rows: Table, nextId: nat, parent: DedupKey, users: seq<nat>, at: nat)
    requires Below(rows, nextId) && UniqueKeys(rows) && P.Distinct(users)
    ensures QueueChildren(rows, nextId, parent, users, at).0
         == Appended(rows, nextId, FreshChildren(rows, parent, users, at))
    ensures QueueChildren(rows, nextId, parent, users, at).1 == nextId + |FreshChildren(rows, parent, users, at)|
  {
    if users != [] {
      var init, user := users[..|users| - 1], users[|users| - 1];
      QueueIsAppended(rows, nextId, parent, init, at);
      QueueKeepsLater(rows, nextId, parent, init, user, at);
      QueueLast(rows, nextId, parent, users, at);
      AppendedTurn(rows, nextId, FreshChildren(rows, parent, init, at), LastChild(rows, parent, user, at),
                   QueueChildren(rows, nextId, parent, init, at).0, QueueChildren(rows, nextId, parent, users, at).0);
    }
  }

  lemma {:induction false} UpdateThenAppend(rows: Table, nextId: nat, children: seq<Message>, id: nat, row: Message)
    requires id < nextId
    ensures Appended(rows[id := row], nextId, children) == Appended(rows, nextId, children)[id := row]
  {
    if children != [] {
      UpdateThenAppend(rows, nextId, children[..|children| - 1], id, row);
    }
  }

  lemma CompletedAppended(rows: Table, nextId: nat, id: nat, children: seq<Message>)
    requires Below(rows, nextId) && id in rows
    ensures var queued, completed := Appended(rows, nextId, children), CompletedRow(rows[id]);
            && id in queued && queued[id] == rows[id]
            && Appended(rows + map[id := completed], nextId, children) == queued[id := completed]
  {
    assert rows + map[id := CompletedRow(rows[id])] == rows[id := CompletedRow(rows[id])];
    UpdateThenAppend(rows, nextId, children, id, CompletedRow(rows[id]));
    AppendedRows(rows, nextId, children);
  }

  lemma QueuedIsAppended(rows: Table, nextId: nat, parent: DedupKey, users: seq<nat>, at: nat, children: seq<Message>)
    requires Below(rows, nextId) && UniqueKeys(rows) && P.Distinct(users)
    requires children == FreshChildren(rows, parent, users, at)
    ensures QueueChildren(rows, nextId, parent, users, at)
         == (Appended(rows, nextId, children), nextId + |children|)
  {
    QueueIsAppended(rows, nextId, parent, users, at);
    var (queued, next) := QueueChildren(rows, nextId, parent, users, at);
  }

  /** The table a dispatch commits, whether it was computed before or at the commit. */
  lemma DispatchedIsAppended(rows: Table, nextId: nat, id: nat, users: seq<nat>, at: nat, children: seq<Message>)
    requires Below(rows, nextId) && UniqueKeys(rows) && id in rows && P.Distinct(users)
    requires users != [] ==> rows[id].topic.NotificationDispatch?
    requires children == FreshChildren(rows, rows[id].dedup, users, at)
    ensures Dispatched(rows, nextId, id, users, at)
         == (Appended(rows + map[id := CompletedRow(rows[id])], nextId, children), nextId + |children|)
  {
    CompletedAppended(rows, nextId, id, children);
    if rows[id].topic.NotificationDispatch? {
      QueuedIsAppended(rows, nextId, rows[id].dedup, users, at, children);
    } else {
      assert users == [] && children == [];
    }
  }

  lemma DispatchedRows(b: P.State, w: string, tx: Tx)
    requires Below(b.rows, b.nextId) && UniqueKeys(b.rows) && P.WorkerOk(b, w)
    requires tx.kind.ToDispatch? && tx.phase.Ready? && w in b.workers && DispatchOk(b, w, tx)
    ensures Dispatched(b.rows, b.nextId, b.workers[w].claimed.id, tx.recipients, tx.at)
         == (Appended(b.rows + tx.writes, b.nextId, tx.children), b.nextId + |tx.children|)
  {
    assert tx.recipients[..tx.done] == tx.recipients;
    DispatchedIsAppended(b.rows, b.nextId, b.workers[w].claimed.id, tx.recipients, tx.at, tx.children);
  }

  lemma DispatchIsAtomic(b: P.State, w: string, tx: Tx, acknowledged: bool)
    requires P.Inv(b) && TxOk(b, w, tx) && tx.kind.ToDispatch? && tx.phase.Ready?
    ensures P.Enabled(b, AtomicStep(b, w, tx, acknowledged))
    ensures P.Apply(b, AtomicStep(b, w, tx, acknowledged)) == Merged(b, w, tx, acknowledged)
  {
    assert P.WorkerOk(b, w);
    DispatchedRows(b, w, tx);
    assert Owned(b.rows, b.workers[w].claimed.id, w);
  }

  // ---------- What others do while a transaction is open ----------

  lemma {:induction false} FreshFrame(rows: Table, rows': Table, parent: DedupKey, users: seq<nat>, at: nat)
    requires forall user | user in users ::
               KeyTaken(rows', Child(parent, user)) <==> KeyTaken(rows, Child(parent, user))
    ensures FreshChildren(rows', parent, users, at) == FreshChildren(rows, parent, users, at)
  {
    if users != [] {
      FreshFrame(rows, rows', parent, users[..|users| - 1], at);
      assert users[|users| - 1] in users;
    }
  }

  /** Its worker, its fence, its rows and its keys are as they were. */
  ghost predicate Undisturbed(b: P.State, b': P.State, w: string, tx: Tx) {
    && w in b.workers && w in b'.workers && b'.workers[w] == b.workers[w] && b.now <= b'.now
    && (FenceUp(b, w, tx) ==> FenceUp(b', w, tx))
    && (forall id | id in tx.writes && id in b.rows :: id in b'.rows && b'.rows[id] == b.rows[id])
    && (forall key | KeyLocked(b, w, tx, key) :: KeyTaken(b'.rows, key) <==> KeyTaken(b.rows, key))
  }

  lemma TxFrame(b: P.State, b': P.State, w: string, tx: Tx)
    requires TxOk(b, w, tx) && Undisturbed(b, b', w, tx)
    ensures TxOk(b', w, tx)
  {
    if tx.kind.ToDispatch? {
      var parent := b.workers[w].claimed.dedup;
      forall user | user in tx.recipients[..tx.done]
        ensures KeyTaken(b'.rows, Child(parent, user)) <==> KeyTaken(b.rows, Child(parent, user))
      {
        assert KeyLocked(b, w, tx, Child(parent, user));
      }
      FreshFrame(b.rows, b'.rows, parent, tx.recipients[..tx.done], tx.at);
    }
  }

  lemma OthersStayApart(s: System, t: System)
    requires Apart(s) && t.txs.Keys <= s.txs.Keys
    requires forall w | w in t.txs :: t.txs[w] == s.txs[w] && Undisturbed(s.base, t.base, w, s.txs[w])
    ensures Apart(t)
  {
    forall v, w, key | v in t.txs && w in t.txs && v != w && KeyLocked(t.base, v, t.txs[v], key)
      ensures !KeyLocked(t.base, w, t.txs[w], key)
    {
      assert KeyLocked(s.base, v, s.txs[v], key) && !KeyLocked(s.base, w, s.txs[w], key);
    }
  }

  /** When the other transactions are undisturbed, the invariant needs only the new committed state. */
  lemma OthersKeepInv(s: System, t: System)
    requires Inv(s) && P.Inv(t.base) && t.txs.Keys <= s.txs.Keys
    requires forall w | w in t.txs :: t.txs[w] == s.txs[w] && Undisturbed(s.base, t.base, w, s.txs[w])
    ensures Inv(t)
  {
    forall w | w in t.txs ensures TxOk(t.base, w, t.txs[w]) {
      TxFrame(s.base, t.base, w, s.txs[w]);
    }
    OthersStayApart(s, t);
  }

  /** Old rows keep their key, and no new row has this one. */
  lemma KeyFrame(rows: Table, rows': Table, key: DedupKey)
    requires forall id | id in rows :: id in rows' && rows'[id].dedup == rows[id].dedup
    requires forall id | id in rows' && id !in rows :: rows'[id].dedup != key
    ensures KeyTaken(rows', key) <==> KeyTaken(rows, key)
  {
    if KeyTaken(rows, key) {
      P.KeyKept(rows, rows', key);
    }
  }

  /** A single step writes the row of its own worker at most, and adds no child. */
  lemma SingleRows(gaps: Gaps, s: System, step: P.Step)
    requires Below(s.base.rows, s.base.nextId) && P.Enabled(s.base, step) && MayTakeSingle(gaps, s, step)
    ensures var b, b' := s.base, P.Apply(s.base, step);
            && (forall id | id in b.rows :: id in b'.rows && b'.rows[id].dedup == b.rows[id].dedup)
            && (forall id | id in b.rows && b'.rows[id] != b.rows[id] ::
                  (step.Pause? || step.Fail?) && RowFree(s, step.w, id) && step.w !in s.txs)
            && (forall id | id in b'.rows && id !in b.rows :: b'.rows[id].dedup.Root?)
  {
  }

  lemma SingleWorker(gaps: Gaps, s: System, step: P.Step, w: string)
    requires P.Enabled(s.base, step) && MayTakeSingle(gaps, s, step)
    requires w in s.txs && w in s.base.workers && w !in Ends(step)
    ensures w in P.Apply(s.base, step).workers && P.Apply(s.base, step).workers[w] == s.base.workers[w]
  {
  }

  lemma SingleFence(gaps: Gaps, s: System, step: P.Step, w: string)
    requires P.Enabled(s.base, step) && MayTakeSingle(gaps, s, step) && w in s.txs && FenceUp(s.base, w, s.txs[w])
    requires w in s.base.workers && w !in Ends(step)
    ensures FenceUp(P.Apply(s.base, step), w, s.txs[w]) && s.base.now <= P.Apply(s.base, step).now
  {
    SingleWorker(gaps, s, step, w);
  }

  lemma SingleUndisturbed(gaps: Gaps, s: System, step: P.Step, w: string)
    requires Below(s.base.rows, s.base.nextId) && P.Enabled(s.base, step) && MayTakeSingle(gaps, s, step)
    requires w in s.txs && TxOk(s.base, w, s.txs[w]) && w !in Ends(step)
    ensures Undisturbed(s.base, P.Apply(s.base, step), w, s.txs[w])
  {
    var b, b', tx := s.base, P.Apply(s.base, step), s.txs[w];
    SingleRows(gaps, s, step);
    SingleWorker(gaps, s, step, w);
    SingleFence(gaps, s, step, w);
    forall key | KeyLocked(b, w, tx, key) ensures KeyTaken(b'.rows, key) <==> KeyTaken(b.rows, key) {
      KeyFrame(b.rows, b'.rows, key);
    }
  }

  lemma SingleKeepsInv(gaps: Gaps, s: System, step: Step)
    requires Inv(s) && Enabled(gaps, s, step) && step.Single?
    ensures Inv(Apply(gaps, s, step))
  {
    P.StepKeepsInv(s.base, step.step);
    var t := Apply(gaps, s, step);
    forall w | w in t.txs ensures Undisturbed(s.base, t.base, w, s.txs[w]) {
      assert TxOk(s.base, w, s.txs[w]);
      SingleUndisturbed(gaps, s, step.step, w);
    }
    OthersKeepInv(s, t);
  }

  // ---------- What a commit does to the others ----------

  lemma WritesKeepKeys(b: P.State, w: string, tx: Tx)
    requires TxOk(b, w, tx)
    ensures forall id | id in tx.writes :: id in b.rows && tx.writes[id].dedup == b.rows[id].dedup
  {
  }

  lemma {:induction false} FreshAreChildren(rows: Table, parent: DedupKey, users: seq<nat>, at: nat)
    ensures forall m | m in FreshChildren(rows, parent, users, at) :: IsChild(m, parent, users, at)
  {
    if users != [] {
      FreshAreChildren(rows, parent, users[..|users| - 1], at);
    }
  }

  lemma ChildrenAreLocked(b: P.State, w: string, tx: Tx)
    requires TxOk(b, w, tx)
    ensures forall m | m in tx.children :: KeyLocked(b, w, tx, m.dedup)
  {
    if tx.kind.ToDispatch? {
      FreshAreChildren(b.rows, b.workers[w].claimed.dedup, tx.recipients[..tx.done], tx.at);
    }
  }

  /** The rows after a commit: written ones, untouched ones and new children. */
  lemma MergedRows(b: P.State, w: string, tx: Tx, acknowledged: bool)
    requires Below(b.rows, b.nextId) && TxOk(b, w, tx) && (tx.kind.ToClaim? || b.workers[w].Holding?)
    ensures var rows := Merged(b, w, tx, acknowledged).rows;
            && (forall id | id in b.rows :: id in rows && rows[id].dedup == b.rows[id].dedup)
            && (forall id | id in b.rows && id !in tx.writes :: rows[id] == b.rows[id])
            && (forall id | id in rows && id !in b.rows :: KeyLocked(b, w, tx, rows[id].dedup))
  {
    WritesKeepKeys(b, w, tx);
    ChildrenAreLocked(b, w, tx);
    AppendedRows(b.rows + tx.writes, b.nextId, tx.children);
  }

  lemma CommitUndisturbed(b: P.State, v: string, other: Tx, acknowledged: bool, w: string, tx: Tx)
    requires Below(b.rows, b.nextId) && TxOk(b, v, other) && TxOk(b, w, tx) && w != v && TxsApart(b, v, other, w, tx)
    requires other.kind.ToClaim? || b.workers[v].Holding?
    ensures Undisturbed(b, Merged(b, v, other, acknowledged), w, tx)
  {
    var b' := Merged(b, v, other, acknowledged);
    MergedRows(b, v, other, acknowledged);
    forall key | KeyLocked(b, w, tx, key) ensures KeyTaken(b'.rows, key) <==> KeyTaken(b.rows, key) {
      KeyFrame(b.rows, b'.rows, key);
    }
  }

  lemma CommitIsAtomic(gaps: Gaps, s: System, w: string, acknowledged: bool)
    requires Inv(s) && Enabled(gaps, s, Commit(w, acknowledged))
    ensures P.Enabled(s.base, AtomicStep(s.base, w, s.txs[w], acknowledged))
    ensures P.Apply(s.base, AtomicStep(s.base, w, s.txs[w], acknowledged)) == Merged(s.base, w, s.txs[w], acknowledged)
  {
    match s.txs[w].kind
    case ToClaim => ClaimIsAtomic(s.base, w, s.txs[w], acknowledged);
    case ToDispatch => DispatchIsAtomic(s.base, w, s.txs[w], acknowledged);
    case ToComplete => CompletionIsAtomic(s.base, w, s.txs[w], acknowledged);
  }

  lemma CommitKeepsInv(gaps: Gaps, s: System, step: Step)
    requires Inv(s) && Enabled(gaps, s, step) && step.Commit?
    ensures Inv(Apply(gaps, s, step))
  {
    CommitIsAtomic(gaps, s, step.w, step.acknowledged);
    P.StepKeepsInv(s.base, AtomicStep(s.base, step.w, s.txs[step.w], step.acknowledged));
    var t := Apply(gaps, s, step);
    forall v | v in t.txs ensures Undisturbed(s.base, t.base, v, s.txs[v]) {
      assert TxOk(s.base, v, s.txs[v]) && TxOk(s.base, step.w, s.txs[step.w]);
      CommitUndisturbed(s.base, step.w, s.txs[step.w], step.acknowledged, v, s.txs[v]);
    }
    OthersKeepInv(s, t);
  }

  // ---------- A transaction's own statements ----------

  lemma OwnKeepsInv(s: System, w: string, tx: Tx)
    requires Inv(s) && TxOk(s.base, w, tx)
    requires forall v | v in s.txs && v != w :: s.txs[v].writes.Keys !! tx.writes.Keys
    requires forall v, key | v in s.txs && v != w && KeyLocked(s.base, v, s.txs[v], key) ::
               !KeyLocked(s.base, w, tx, key)
    ensures Inv(WithTx(s, w, tx))
  {
  }

  /** The row a claim takes is locked by nobody and eligible, and not one it has just buried. */
  lemma LeasedRow(b: P.State, w: string, tx: Tx, locked: set<nat>)
    requires w in b.workers && ClaimOk(b, w, tx) && tx.pick.None?
    ensures var pick := Pick(b.rows + tx.writes, tx.at, locked, b.nextId);
            pick.Some? && pick.value in b.rows ==>
              pick.value !in locked && pick.value !in tx.writes && Eligible(b.rows[pick.value], tx.at)
  {
    PickIsFirst(b.rows + tx.writes, tx.at, locked, b.nextId);
  }

  /** Rows that other transactions have written are not written by a claim that skips them. */
  lemma SkipsLocked(s: System, w: string, tx: Tx, tx': Tx, id: nat)
    requires forall v | v in s.txs :: s.txs[v].writes.Keys <= s.base.rows.Keys
    requires forall v | v in s.txs && v != w :: s.txs[v].writes.Keys !! tx.writes.Keys
    requires id !in LockedByOthers(s, w) && tx'.writes.Keys <= tx.writes.Keys + {id}
    ensures forall v | v in s.txs && v != w :: s.txs[v].writes.Keys !! tx'.writes.Keys
  {
    forall v, i | v in s.txs && v != w && i in s.txs[v].writes ensures i !in tx'.writes {
      assert !RowFree(s, w, i);
    }
  }

  lemma WritesAreRows(s: System)
    requires Inv(s)
    ensures forall v | v in s.txs :: s.txs[v].writes.Keys <= s.base.rows.Keys
  {
    forall v | v in s.txs ensures s.txs[v].writes.Keys <= s.base.rows.Keys {
      assert TxOk(s.base, v, s.txs[v]);
    }
  }

  lemma LeasedTxOk(s: System, w: string)
    requires w in s.txs && TxOk(s.base, w, s.txs[w]) && s.txs[w].kind.ToClaim? && s.txs[w].pick.None?
    ensures TxOk(s.base, w, AfterLease(s, w))
  {
    LeasedRow(s.base, w, s.txs[w], LockedByOthers(s, w));
  }

  lemma LeaseKeepsInv(gaps: Gaps, s: System, step: Step)
    requires Inv(s) && Enabled(gaps, s, step) && step.LeaseRow?
    ensures Inv(Apply(gaps, s, step))
  {
    var tx, tx' := s.txs[step.w], AfterLease(s, step.w);
    assert TxOk(s.base, step.w, tx);
    LeasedTxOk(s, step.w);
    if tx'.writes != tx.writes {
      LeasedRow(s.base, step.w, tx, LockedByOthers(s, step.w));
      WritesAreRows(s);
      SkipsLocked(s, step.w, tx, tx', tx'.pick.value);
    }
    OwnKeepsInv(s, step.w, tx');
  }

  /** Another worker's memory may change. */
  lemma WorkerUndisturbed(b: P.State, v: string, worker: P.Worker, w: string, tx: Tx)
    requires TxOk(b, w, tx) && w != v
    ensures Undisturbed(b, P.Becomes(b, v, worker), w, tx)
  {
  }

  lemma WorkerKeepsInv(s: System, t: System, v: string, worker: P.Worker)
    requires Inv(s) && P.Inv(t.base) && t.base == P.Becomes(s.base, v, worker) && t.txs == s.txs - {v}
    ensures Inv(t)
  {
    forall w | w in t.txs ensures t.txs[w] == s.txs[w] && Undisturbed(s.base, t.base, w, s.txs[w]) {
      WorkerUndisturbed(s.base, v, worker, w, s.txs[w]);
    }
    OthersKeepInv(s, t);
  }

  lemma LostLeaseKeepsInv(s: System, w: string)
    requires Inv(s) && w in s.txs && P.Enabled(s.base, P.Break(w, false))
    ensures Inv(s.(base := P.At(s.base, w, P.ToFail(false)), txs := s.txs - {w}))
  {
    P.StepKeepsInv(s.base, P.Break(w, false));
    WorkerKeepsInv(s, s.(base := P.At(s.base, w, P.ToFail(false)), txs := s.txs - {w}), w,
                   s.base.workers[w].(stage := P.ToFail(false)));
  }

  lemma CompleteKeepsInv(gaps: Gaps, s: System, step: Step)
    requires Inv(s) && Enabled(gaps, s, step) && step.CompleteRow?
    ensures Inv(Apply(gaps, s, step))
  {
    assert TxOk(s.base, step.w, s.txs[step.w]);
    if Owned(s.base.rows, s.base.workers[step.w].claimed.id, step.w) {
      OwnKeepsInv(s, step.w, Apply(gaps, s, step).txs[step.w]);
    } else {
      LostLeaseKeepsInv(s, step.w);
    }
  }

  lemma CheckKeepsInv(gaps: Gaps, s: System, step: Step)
    requires Inv(s) && Enabled(gaps, s, step) && step.CheckFence?
    ensures Inv(Apply(gaps, s, step))
  {
    OwnKeepsInv(s, step.w, Began(step.kind, step.at, step.recipients));
  }

  lemma SweepKeepsInv(gaps: Gaps, s: System, step: Step)
    requires Inv(s) && Enabled(gaps, s, step) && step.SweepRow?
    ensures Inv(Apply(gaps, s, step))
  {
    assert TxOk(s.base, step.w, s.txs[step.w]);
    OwnKeepsInv(s, step.w, AfterSweep(s, step.w, step.id));
  }

  lemma EndSweepKeepsInv(gaps: Gaps, s: System, step: Step)
    requires Inv(s) && Enabled(gaps, s, step) && step.EndSweep?
    ensures Inv(Apply(gaps, s, step))
  {
    assert TxOk(s.base, step.w, s.txs[step.w]);
    OwnKeepsInv(s, step.w, s.txs[step.w].(phase := Halfway));
  }

  /** One more turn of the loop adds what the recipient's key, as committed, asks for. */
  lemma TurnIsFresh(rows: Table, parent: DedupKey, users: seq<nat>, n: nat, at: nat)
    requires n < |users|
    ensures FreshChildren(rows, parent, users[..n + 1], at)
         == FreshChildren(rows, parent, users[..n], at) + LastChild(rows, parent, users[n], at)
  {
    assert users[..n + 1][..n] == users[..n];
  }

  lemma TurnLocks(s: System, w: string, tx: Tx, key: DedupKey)
    requires InLoop(s, w) && tx.kind.ToDispatch? && tx.recipients == s.txs[w].recipients
    requires tx.done <= s.txs[w].done + 1 && KeyLocked(s.base, w, tx, key)
    ensures KeyLocked(s.base, w, s.txs[w], key) || key == NextKey(s, w)
  {
    var n := s.txs[w].done;
    var k :| 0 <= k < tx.done && tx.recipients[k] == key.user;
    if k < n {
      assert s.txs[w].recipients[..n][k] == key.user;
    }
  }

  /** A turn of the loop that locks at most the next key, which no other transaction has locked. */
  lemma TurnKeepsInv(s: System, w: string, tx: Tx)
    requires Inv(s) && InLoop(s, w) && KeyFree(s, w, NextKey(s, w)) && TxOk(s.base, w, tx)
    requires tx.kind.ToDispatch? && tx.recipients == s.txs[w].recipients && tx.done <= s.txs[w].done + 1
    requires tx.writes == map[]
    ensures Inv(WithTx(s, w, tx))
  {
    forall v, key | v in s.txs && v != w && KeyLocked(s.base, v, s.txs[v], key)
      ensures !KeyLocked(s.base, w, tx, key)
    {
      if KeyLocked(s.base, w, tx, key) {
        TurnLocks(s, w, tx, key);
      }
    }
    OwnKeepsInv(s, w, tx);
  }

  lemma LookUpIsOk(s: System, w: string)
    requires InLoop(s, w) && TxOk(s.base, w, s.txs[w]) && !s.txs[w].looked
    ensures TxOk(s.base, w, AfterLookUp(s, w))
  {
    var tx := s.txs[w];
    TurnIsFresh(s.base.rows, s.base.workers[w].claimed.dedup, tx.recipients, tx.done, tx.at);
  }

  lemma InsertIsOk(s: System, w: string)
    requires InLoop(s, w) && TxOk(s.base, w, s.txs[w])
    ensures TxOk(s.base, w, AfterInsert(s, w))
  {
    var tx := s.txs[w];
    TurnIsFresh(s.base.rows, s.base.workers[w].claimed.dedup, tx.recipients, tx.done, tx.at);
  }

  lemma LookUpKeepsInv(gaps: Gaps, s: System, step: Step)
    requires Inv(s) && Enabled(gaps, s, step) && step.LookUp?
    ensures Inv(Apply(gaps, s, step))
  {
    assert TxOk(s.base, step.w, s.txs[step.w]);
    LookUpIsOk(s, step.w);
    TurnKeepsInv(s, step.w, AfterLookUp(s, step.w));
  }

  lemma InsertKeepsInv(gaps: Gaps, s: System, step: Step)
    requires Inv(s) && Enabled(gaps, s, step) && step.InsertChild?
    ensures Inv(Apply(gaps, s, step))
  {
    assert TxOk(s.base, step.w, s.txs[step.w]);
    InsertIsOk(s, step.w);
    TurnKeepsInv(s, step.w, AfterInsert(s, step.w));
  }

  lemma DeliverKeepsInv(gaps: Gaps, s: System, step: Step)
    requires Inv(s) && Enabled(gaps, s, step) && step.Deliver?
    ensures Inv(Apply(gaps, s, step))
  {
    P.StepKeepsInv(s.base, P.Deliver(step.w));
    assert s.txs - {step.w} == s.txs;
    WorkerKeepsInv(s, Apply(gaps, s, step), step.w, s.base.workers[step.w].(stage := P.Delivered));
  }

  lemma RollbackKeepsInv(gaps: Gaps, s: System, step: Step)
    requires Inv(s) && Enabled(gaps, s, step) && step.Rollback?
    ensures Inv(Apply(gaps, s, step))
  {
    assert forall v | v in s.txs :: TxOk(s.base, v, s.txs[v]);
    OthersKeepInv(s, Apply(gaps, s, step));
  }

  /** The statements that find, bury and lease rows, and queue children. */
  predicate Loops(step: Step) {
    step.SweepRow? || step.EndSweep? || step.LeaseRow? || step.LookUp? || step.InsertChild?
  }

  lemma LoopKeepsInv(gaps: Gaps, s: System, step: Step)
    requires Inv(s) && Enabled(gaps, s, step) && Loops(step)
    ensures Inv(Apply(gaps, s, step))
  {
    if step.SweepRow? {
      SweepKeepsInv(gaps, s, step);
    } else if step.EndSweep? {
      EndSweepKeepsInv(gaps, s, step);
    } else if step.LeaseRow? {
      LeaseKeepsInv(gaps, s, step);
    } else if step.LookUp? {
      LookUpKeepsInv(gaps, s, step);
    } else {
      InsertKeepsInv(gaps, s, step);
    }
  }

  lemma PoolKeepsInv(gaps: Gaps, s: System, step: Step)
    requires Inv(s) && Enabled(gaps, s, step) && step.CheckPool?
    ensures Inv(Apply(gaps, s, step))
  {
    assert Apply(gaps, s, step).base == s.base && Apply(gaps, s, step).txs == s.txs;
  }

  /** Every statement, commit, rollback and single step keeps the invariant of rows, ledger, locks and fences. */
  lemma StepKeepsInv(gaps: Gaps, s: System, step: Step)
    requires Inv(s) && Enabled(gaps, s, step)
    ensures Inv(Apply(gaps, s, step))
  {
    if Loops(step) {
      LoopKeepsInv(gaps, s, step);
    } else if step.Single? {
      SingleKeepsInv(gaps, s, step);
    } else if step.CheckFence? {
      CheckKeepsInv(gaps, s, step);
    } else if step.CompleteRow? {
      CompleteKeepsInv(gaps, s, step);
    } else if step.Commit? {
      CommitKeepsInv(gaps, s, step);
    } else if step.Rollback? {
      RollbackKeepsInv(gaps, s, step);
    } else if step.CheckPool? {
      PoolKeepsInv(gaps, s, step);
    } else {
      DeliverKeepsInv(gaps, s, step);
    }
  }

  // ---------- Every run is a run of the atomic machine ----------

  /** The atomic step that this step is, if the committed state notices it at all. */
  function Projection(gaps: Gaps, s: System, step: Step): Option<P.Step>
    requires Enabled(gaps, s, step)
  {
    match step
    case Single(single) => Some(single)
    case CompleteRow(w) =>
      if Owned(s.base.rows, s.base.workers[w].claimed.id, w) then None else Some(P.Break(w, false))
    case Commit(w, acknowledged) => Some(AtomicStep(s.base, w, s.txs[w], acknowledged))
    case Deliver(w) => Some(P.Deliver(w))
    case _ => None
  }

  lemma StepRefines(gaps: Gaps, s: System, step: Step)
    requires Inv(s) && Enabled(gaps, s, step)
    ensures match Projection(gaps, s, step)
            case None => Apply(gaps, s, step).base == s.base
            case Some(atomic) => P.Enabled(s.base, atomic) && Apply(gaps, s, step).base == P.Apply(s.base, atomic)
  {
    if step.Commit? {
      CommitIsAtomic(gaps, s, step.w, step.acknowledged);
    } else if step.CompleteRow? {
      assert TxOk(s.base, step.w, s.txs[step.w]);
    }
  }

  /** Step i leads from one state to the next. */
  ghost predicate Linked(gaps: Gaps, run: seq<System>, steps: seq<Step>, i: nat) {
    && i < |steps| && i + 1 < |run|
    && Enabled(gaps, run[i], steps[i]) && run[i + 1] == Apply(gaps, run[i], steps[i])
  }

  ghost predicate IsRun(gaps: Gaps, run: seq<System>, steps: seq<Step>) {
    && |run| == |steps| + 1
    && Init(run[0])
    && forall i: nat | i < |steps| :: Linked(gaps, run, steps, i)
  }

  lemma {:induction false} RunKeepsInv(gaps: Gaps, run: seq<System>, steps: seq<Step>, n: nat)
    requires IsRun(gaps, run, steps) && n < |run|
    ensures Inv(run[n])
    decreases n
  {
    if n == 0 {
      P.InitHolds(run[0].base);
    } else {
      RunKeepsInv(gaps, run, steps, n - 1);
      assert Linked(gaps, run, steps, n - 1);
      StepKeepsInv(gaps, run[n - 1], steps[n - 1]);
    }
  }

  lemma ExtendAtomic(states: seq<P.State>, steps: seq<P.Step>, step: P.Step)
    requires P.IsRun(states, steps) && P.Enabled(states[|steps|], step)
    ensures P.IsRun(states + [P.Apply(states[|steps|], step)], steps + [step])
  {
    var states', steps' := states + [P.Apply(states[|steps|], step)], steps + [step];
    forall i: nat | i < |steps'| ensures P.Linked(states', steps', i) {
      if i < |steps| {
        assert P.Linked(states, steps, i);
        assert states'[i] == states[i] && states'[i + 1] == states[i + 1] && steps'[i] == steps[i];
      }
    }
  }

  /** What is committed after n steps is a state of a run of the atomic machine. */
  lemma {:induction false} RunRefines(gaps: Gaps, run: seq<System>, steps: seq<Step>, n: nat)
    returns (states: seq<P.State>, atomic: seq<P.Step>)
    requires IsRun(gaps, run, steps) && n < |run|
    ensures P.IsRun(states, atomic) && states[|atomic|] == run[n].base
    decreases n
  {
    if n == 0 {
      states, atomic := [run[0].base], [];
    } else {
      states, atomic := RunRefines(gaps, run, steps, n - 1);
      RunKeepsInv(gaps, run, steps, n - 1);
      assert Linked(gaps, run, steps, n - 1);
      StepRefines(gaps, run[n - 1], steps[n - 1]);
      var step := Projection(gaps, run[n - 1], steps[n - 1]);
      if step.Some? {
        ExtendAtomic(states, atomic, step.value);
        states, atomic := states + [P.Apply(states[|atomic|], step.value)], atomic + [step.value];
      }
    }
  }

  /** So a transactional message is dispatched exactly once in every interleaving of statements, too. */
  lemma ExactlyOnceDispatch(gaps: Gaps, run: seq<System>, steps: seq<Step>, n: nat, id: nat)
    requires IsRun(gaps, run, steps) && n < |run|
    requires id in run[n].base.rows && Transactional(run[n].base.rows[id].topic)
    ensures P.DispatchesOf(run[n].base.dispatches, id) == if run[n].base.rows[id].status.Completed? then 1 else 0
  {
    var states, atomic := RunRefines(gaps, run, steps, n);
    P.ExactlyOnceDispatch(states, atomic, |atomic|, id);
  }

  // ---------- Fences ----------

  /** Each commit of a claim, dispatch or completion finds the fence still up that it checked at its beginning. */
  lemma CommitsUnderTheFence(gaps: Gaps, run: seq<System>, steps: seq<Step>, n: nat)
    requires IsRun(gaps, run, steps) && n < |steps| && steps[n].Commit?
    ensures steps[n].w in run[n].txs && FenceUp(run[n].base, steps[n].w, run[n].txs[steps[n].w])
    ensures run[n + 1].base.outboxFence == run[n].base.outboxFence
    ensures run[n + 1].base.filesFence == run[n].base.filesFence
  {
    RunKeepsInv(gaps, run, steps, n);
    assert Linked(gaps, run, steps, n);
    assert TxOk(run[n].base, steps[n].w, run[n].txs[steps[n].w]);
  }

  lemma DispatchFence(s: P.State, step: P.Step, id: nat)
    requires P.Inv(s) && P.Enabled(s, step) && step.CommitDispatch? && id in s.rows
    ensures var t := P.Apply(s, step);
            && id in t.rows && (t.rows[id] != s.rows[id] ==> P.FenceFor(s, s.rows[id].topic))
  {
    var c := s.workers[step.w].claimed;
    assert P.WorkerOk(s, step.w);
    if Owned(s.rows, c.id, step.w) {
      DispatchedEffect(s.rows, s.nextId, c.id, step.recipients, step.at);
    }
  }

  lemma CompletionFence(s: P.State, step: P.Step, id: nat)
    requires P.Enabled(s, step) && step.CommitCompletion? && id in s.rows && P.WorkerOk(s, step.w)
    ensures var t := P.Apply(s, step);
            && id in t.rows && (t.rows[id] != s.rows[id] ==> P.FenceFor(s, s.rows[id].topic))
  {
  }

  /** A step of the atomic machine that completes a row or leases one is taken under the fence. */
  lemma AtomicFence(s: P.State, step: P.Step, id: nat)
    requires P.Inv(s) && P.Enabled(s, step) && id in s.rows
    ensures var t := P.Apply(s, step);
            && id in t.rows
            && (t.rows[id].status.Completed? && !s.rows[id].status.Completed? ==> P.FenceFor(s, s.rows[id].topic))
            && (t.rows[id].lease.Some? && t.rows[id].lease != s.rows[id].lease ==> s.outboxFence)
  {
    P.StepMoves(s, step, id);
    P.StepKeepsInv(s, step);
    assert P.RowOk(P.Apply(s, step).rows[id], P.Apply(s, step).history[id]);
    if step.CommitDispatch? {
      DispatchFence(s, step, id);
    } else if step.CommitCompletion? {
      assert P.WorkerOk(s, step.w);
      CompletionFence(s, step, id);
    }
  }

  /** Whenever a row becomes completed, or leased, in the committed state, the fence for it is up at that moment. */
  lemma EffectsUnderTheFence(gaps: Gaps, run: seq<System>, steps: seq<Step>, n: nat, id: nat)
    requires IsRun(gaps, run, steps) && n < |steps| && id in run[n].base.rows
    ensures var b, b' := run[n].base, run[n + 1].base;
            && id in b'.rows
            && (b'.rows[id].status.Completed? && !b.rows[id].status.Completed? ==> P.FenceFor(b, b.rows[id].topic))
            && (b'.rows[id].lease.Some? && b'.rows[id].lease != b.rows[id].lease ==> b.outboxFence)
  {
    RunKeepsInv(gaps, run, steps, n);
    assert Linked(gaps, run, steps, n);
    StepRefines(gaps, run[n], steps[n]);
    var atomic := Projection(gaps, run[n], steps[n]);
    if atomic.Some? {
      AtomicFence(run[n].base, atomic.value, id);
    }
  }

  // ---------- Leases ----------

  /** In every interleaving: a commit of a claim changes no row whose lease is at most 300 seconds old. */
  lemma LiveLeaseIsKept(gaps: Gaps, run: seq<System>, steps: seq<Step>, n: nat, id: nat)
    requires IsRun(gaps, run, steps) && n < |steps| && steps[n].Commit?
    requires steps[n].w in run[n].txs && run[n].txs[steps[n].w].kind.ToClaim?
    requires id in run[n].base.rows && run[n].base.rows[id].status.Processing? && run[n].base.rows[id].lease.Some?
    requires run[n].base.now <= run[n].base.rows[id].lease.value.since + 300_000
    ensures id in run[n + 1].base.rows && run[n + 1].base.rows[id] == run[n].base.rows[id]
  {
    RunKeepsInv(gaps, run, steps, n);
    var s, w := run[n], steps[n].w;
    assert Linked(gaps, run, steps, n);
    CommitIsAtomic(gaps, s, w, steps[n].acknowledged);
    P.LiveLeaseIsKept(s.base, AtomicStep(s.base, w, s.txs[w], steps[n].acknowledged), id);
  }

  // ---------- A check on the pool ----------

  ghost predicate Reachable(gaps: Gaps, s: System) {
    exists run, steps :: IsRun(gaps, run, steps) && run[|steps|] == s
  }

  lemma ReachesNext(gaps: Gaps, s: System, step: Step)
    requires Reachable(gaps, s) && Enabled(gaps, s, step)
    ensures Reachable(gaps, Apply(gaps, s, step))
  {
    var run, steps :| IsRun(gaps, run, steps) && run[|steps|] == s;
    var run', steps' := run + [Apply(gaps, s, step)], steps + [step];
    forall i: nat | i < |steps'| ensures Linked(gaps, run', steps', i) {
      if i < |steps| {
        assert Linked(gaps, run, steps, i);
        assert run'[i] == run[i] && run'[i + 1] == run[i + 1] && steps'[i] == steps[i];
      }
    }
    assert IsRun(gaps, run', steps') && run'[|steps'|] == Apply(gaps, s, step);
  }

  lemma ReachableInv(gaps: Gaps, s: System)
    requires Reachable(gaps, s)
    ensures Inv(s)
  {
    var run, steps :| IsRun(gaps, run, steps) && run[|steps|] == s;
    RunKeepsInv(gaps, run, steps, |steps|);
  }

  lemma LeasesPick(s: System, w: string, id: nat)
    requires s.txs == map[w := Began(ToClaim, s.base.now, []).(phase := Halfway)]
    requires id in s.base.rows && Pick(s.base.rows, s.base.now, {}, s.base.nextId) == Some(id)
    ensures var leased := LeasedTo(s.base.rows[id], w, s.base.now);
            AfterLease(s, w) == Tx(ToClaim, Ready, s.base.now, map[id := leased], Some(id), [], 0, false, [])
  {
    assert LockedByOthers(s, w) == {};
    assert s.base.rows + map[] == s.base.rows;
  }

  lemma CommitsClaim(gaps: Gaps, s: System, w: string, id: nat) returns (t: System)
    requires Reachable(gaps, s) && w in s.base.workers && id in s.base.rows && id in s.base.history
    requires var leased := LeasedTo(s.base.rows[id], w, s.base.now);
             s.txs == map[w := Tx(ToClaim, Ready, s.base.now, map[id := leased], Some(id), [], 0, false, [])]
    ensures Reachable(gaps, t)
    ensures t == System(P.Leased(s.base, w, id, s.base.now, true), map[], s.pool)
  {
    ReachableInv(gaps, s);
    CommitIsAtomic(gaps, s, w, true);
    ReachesNext(gaps, s, Commit(w, true));
    t := Apply(gaps, s, Commit(w, true));
    assert s.txs[w].writes.Keys - {id} == {};
    assert P.Buried(s.base.rows, s.base.now, {}) == s.base.rows;
    assert t.txs == map[];
  }

  /** Alone, a worker claims the first eligible row. */
  lemma Claims(gaps: Gaps, s: System, w: string, id: nat) returns (t: System)
    requires Reachable(gaps, s) && s.txs == map[] && s.base.outboxFence
    requires w in s.base.workers && s.base.workers[w].Idle? && id in s.base.rows && id in s.base.history
    requires Pick(s.base.rows, s.base.now, {}, s.base.nextId) == Some(id)
    requires forall i | i in s.base.rows :: !Exhausted(s.base.rows[i], s.base.now)
    ensures t == s.(base := P.Leased(s.base, w, id, s.base.now, true)) && Reachable(gaps, t)
  {
    var at, began := s.base.now, Began(ToClaim, s.base.now, []);
    ReachesNext(gaps, s, CheckFence(w, ToClaim, at, []));
    var s1 := WithTx(s, w, began);
    ReachesNext(gaps, s1, EndSweep(w));
    var s2 := WithTx(s, w, began.(phase := Halfway));
    assert Apply(gaps, s1, EndSweep(w)) == s2;
    ReachesNext(gaps, s2, LeaseRow(w));
    LeasesPick(s2, w, id);
    var s3 := WithTx(s2, w, AfterLease(s2, w));
    t := CommitsClaim(gaps, s3, w, id);
    assert t.txs == s.txs;
  }

  /** A worker is idle before an outbox with one message. */
  lemma OneQueued(gaps: Gaps, w: string, name: string, topic: Topic, maxAttempts: nat) returns (s: System)
    requires maxAttempts >= 1
    ensures var m := Message(topic, Root(name), Pending, 0, 0, maxAttempts, None);
            s == System(P.State(0, map[0 := m], 1, true, true, map[w := P.Idle], [], map[0 := P.History(0, 0)]),
                        map[], {})
    ensures Reachable(gaps, s)
  {
    var b0 := P.State(0, map[], 0, true, true, map[], [], map[]);
    var s0 := System(b0, map[], {});
    assert IsRun(gaps, [s0], []);
    ReachesNext(gaps, s0, Single(P.StartWorker(w)));
    var s1 := System(b0.(workers := map[w := P.Idle]), map[], {});
    assert Apply(gaps, s0, Single(P.StartWorker(w))) == s1;
    ReachesNext(gaps, s1, Single(P.Enqueue(topic, name, maxAttempts, 0)));
    s := Apply(gaps, s1, Single(P.Enqueue(topic, name, maxAttempts, 0)));
  }

  /** A worker has claimed the one message of an otherwise empty outbox. */
  lemma OneClaimed(gaps: Gaps, w: string, name: string, topic: Topic, maxAttempts: nat) returns (s: System)
    requires maxAttempts >= 1
    ensures Reachable(gaps, s) && s.base.outboxFence && s.txs == map[]
    ensures P.Holds(s.base, w, P.Fresh) && s.base.workers[w].claimed.topic == topic
  {
    var s0 := OneQueued(gaps, w, name, topic, maxAttempts);
    assert Pick(s0.base.rows, 0, {}, 0) == None && Pick(s0.base.rows, 0, {}, 1) == Some(0);
    s := Claims(gaps, s0, w, 0);
  }

  /** With no transaction open, the fence of the outbox can be taken away. */
  lemma FenceGoes(gaps: Gaps, s: System)
    requires Reachable(gaps, s) && s.txs == map[]
    ensures Reachable(gaps, s.(base := s.base.(outboxFence := false)))
  {
    var flip := Single(P.SetFences(false, s.base.filesFence));
    ReachesNext(gaps, s, flip);
    assert Apply(gaps, s, flip) == s.(base := s.base.(outboxFence := false));
  }

  /**
  A check on the pool promises nothing: a reachable state in which a worker has checked its fence,
  the fence is down, and the delivery it was checked for goes ahead.
  */
  lemma PoolCheckIsNotEnough(gaps: Gaps, w: string, name: string, topic: Topic, maxAttempts: nat) returns (s: System)
    requires maxAttempts >= 1 && (topic.EmailDeliver? || topic.SmsDeliver?)
    ensures Reachable(gaps, s) && !s.base.outboxFence
    ensures Enabled(gaps, s, Deliver(w)) && P.Holds(Apply(gaps, s, Deliver(w)).base, w, P.Delivered)
  {
    var s0 := OneClaimed(gaps, w, name, topic, maxAttempts);
    ReachesNext(gaps, s0, CheckPool(w));
    var s1 := s0.(pool := s0.pool + {w});
    FenceGoes(gaps, s1);
    s := s1.(base := s1.base.(outboxFence := false));
  }
}
