/**
Payment transactions that interleave: each locks its payment request with withLockedPaymentRequest
(database/runtime/row-lock.ts), reads the ledger, asks evaluatePaymentCapacity
(apps/web/app/lib/payment-guard.ts) and appends a payment only when it is admitted. The work body
is this model's: the callers of the guard are not part of it.
*/
module PaymentProtocol {
  import opened Wrappers
  import opened RowLocks
  import opened LockProtocol
  import opened PaymentGuard

  /** A payment job: what it pays, the ledger it read, and whether it has appended its payment. */
  datatype Job = Job(request: int, incoming: Id, view: Option<seq<Record>>, appended: bool)

  datatype World = World(locks: State, jobs: seq<Job>, ledgers: map<int, seq<Record>>)

  datatype Event =
    | Request(request: int, incoming: Id)
    | LockRow(tx: nat)
    | Enter(tx: nat)
    | Read(tx: nat)
    | Append(tx: nat)
    | CommitWork(tx: nat)
    | Abort(tx: nat)

  /** The totals of the payment requests do not change. */
  type Totals = map<int, Id>

  function TotalOf(totals: Totals, request: int): Id {
    if request in totals then totals[request] else NotWhole
  }

  function LedgerOf(ledgers: map<int, seq<Record>>, request: int): seq<Record> {
    if request in ledgers then ledgers[request] else []
  }

  function OneRow(request: int): Input {
    Input([Whole(request)], [])
  }

  predicate AtWork(w: World, i: nat) {
    i < |w.locks| == |w.jobs| && w.locks[i].phase == Working
  }

  predicate Possible(totals: Totals, w: World, event: Event) {
    match event
    case Request(request, _) => Enabled(w.locks, Begin(OneRow(request)))
    case LockRow(i) => Enabled(w.locks, Acquire(i))
    case Enter(i) => Enabled(w.locks, StartWork(i))
    case Read(i) => AtWork(w, i) && w.jobs[i].view.None?
    case Append(i) =>
      && AtWork(w, i) && w.jobs[i].view.Some? && !w.jobs[i].appended
      && Admits(TotalOf(totals, w.jobs[i].request), w.jobs[i].view.value, w.jobs[i].incoming)
    case CommitWork(i) => AtWork(w, i)
    case Abort(i) => Enabled(w.locks, Rollback(i))
  }

  /** The ledgers once this job commits. */
  function Posted(ledgers: map<int, seq<Record>>, job: Job): map<int, seq<Record>> {
    if job.appended then ledgers[job.request := LedgerOf(ledgers, job.request) + [Payment(job.incoming)]] else ledgers
  }

  function Next(totals: Totals, w: World, event: Event): World
    requires |w.locks| == |w.jobs| && Possible(totals, w, event)
  {
    match event
    case Request(request, incoming) =>
      w.(locks := Apply(w.locks, Begin(OneRow(request))), jobs := w.jobs + [Job(request, incoming, None, false)])
    case LockRow(i) => w.(locks := Apply(w.locks, Acquire(i)))
    case Enter(i) => w.(locks := Apply(w.locks, StartWork(i)))
    case Read(i) => w.(jobs := w.jobs[i := w.jobs[i].(view := Some(LedgerOf(w.ledgers, w.jobs[i].request)))])
    case Append(i) => w.(jobs := w.jobs[i := w.jobs[i].(appended := true)])
    case CommitWork(i) => w.(locks := Apply(w.locks, Commit(i)), ledgers := Posted(w.ledgers, w.jobs[i]))
    case Abort(i) => w.(locks := Apply(w.locks, Rollback(i)))
  }

  ghost predicate History(totals: Totals, w: World, events: seq<Event>, end: World)
    decreases |events|
  {
    if events == [] then w == end
    else
      && |w.locks| == |w.jobs| && Possible(totals, w, events[0])
      && History(totals, Next(totals, w, events[0]), events[1..], end)
  }

  // ---------- What every reachable state keeps ----------

  /** A job at work has the row of its request, and what it read is still the ledger. */
  predicate JobOk(totals: Totals, ledgers: map<int, seq<Record>>, tx: Tx, job: Job) {
    && tx.plan == [PaymentRequest(job.request)]
    && (tx.phase == Locking ==> job.view.None? && !job.appended)
    && (tx.phase == Working && job.view.Some? ==> job.view.value == LedgerOf(ledgers, job.request))
    && (tx.phase == Working && job.appended ==>
          job.view.Some? && Admits(TotalOf(totals, job.request), job.view.value, job.incoming))
  }

  ghost predicate LedgersInBounds(totals: Totals, ledgers: map<int, seq<Record>>) {
    forall request | request in ledgers :: InBounds(TotalOf(totals, request), ledgers[request])
  }

  ghost predicate WorldInv(totals: Totals, w: World) {
    && LockProtocol.Inv(w.locks)
    && |w.locks| == |w.jobs|
    && (forall i | 0 <= i < |w.jobs| :: JobOk(totals, w.ledgers, w.locks[i], w.jobs[i]))
    && LedgersInBounds(totals, w.ledgers)
  }

  lemma PlanOfOneRow(request: int)
    requires PlanOf(OneRow(request)).Success?
    ensures PlanOf(OneRow(request)).value == [PaymentRequest(request)]
  {
    PlanIsOrdered(OneRow(request));
    var ids := NormalizeLockIds([Whole(request)]).value;
    NormalizedIds([Whole(request)]);
    AscendingIsUnique(ids, [request]);
    assert NormalizeLockIds([]).value == [];
  }

  /** Two jobs at work on one request are the same job. */
  lemma OneJobPerRequest(totals: Totals, w: World, i: nat, j: nat)
    requires WorldInv(totals, w) && AtWork(w, i) && AtWork(w, j) && w.jobs[i].request == w.jobs[j].request
    ensures i == j
  {
    var lock := PaymentRequest(w.jobs[i].request);
    assert JobOk(totals, w.ledgers, w.locks[i], w.jobs[i]) && JobOk(totals, w.ledgers, w.locks[j], w.jobs[j]);
    assert TxOk(w.locks[i]) && TxOk(w.locks[j]);
    assert w.locks[i].plan[0] == lock && w.locks[j].plan[0] == lock;
    assert Holds(w.locks[i], lock) && Holds(w.locks[j], lock);
  }

  lemma PostingStaysInBounds(totals: Totals, w: World, i: nat)
    requires WorldInv(totals, w) && AtWork(w, i)
    ensures LedgersInBounds(totals, Posted(w.ledgers, w.jobs[i]))
  {
    var job := w.jobs[i];
    assert JobOk(totals, w.ledgers, w.locks[i], job);
    if job.appended {
      AdmittedStaysInBounds(TotalOf(totals, job.request), job.view.value, job.incoming);
    }
  }

  lemma CommitKeepsInv(totals: Totals, w: World, i: nat)
    requires WorldInv(totals, w) && AtWork(w, i)
    ensures WorldInv(totals, Next(totals, w, CommitWork(i)))
  {
    var end := Next(totals, w, CommitWork(i));
    StepKeepsInv(w.locks, Commit(i));
    PostingStaysInBounds(totals, w, i);
    forall j | 0 <= j < |end.jobs| ensures JobOk(totals, end.ledgers, end.locks[j], end.jobs[j]) {
      assert JobOk(totals, w.ledgers, w.locks[j], w.jobs[j]);
      if AtWork(w, j) && w.jobs[j].request == w.jobs[i].request {
        OneJobPerRequest(totals, w, i, j);
      }
    }
  }

  lemma RequestKeepsInv(totals: Totals, w: World, request: int, incoming: Id)
    requires WorldInv(totals, w) && Possible(totals, w, Request(request, incoming))
    ensures WorldInv(totals, Next(totals, w, Request(request, incoming)))
  {
    var end := Next(totals, w, Request(request, incoming));
    StepKeepsInv(w.locks, Begin(OneRow(request)));
    PlanOfOneRow(request);
    forall j | 0 <= j < |end.jobs| ensures JobOk(totals, end.ledgers, end.locks[j], end.jobs[j]) {
      if j < |w.jobs| {
        assert JobOk(totals, w.ledgers, w.locks[j], w.jobs[j]);
      }
    }
  }

  lemma LockStepKeepsInv(totals: Totals, w: World, step: Step)
    requires WorldInv(totals, w) && Enabled(w.locks, step) && (step.Acquire? || step.StartWork? || step.Rollback?)
    ensures WorldInv(totals, w.(locks := Apply(w.locks, step)))
  {
    var end := w.(locks := Apply(w.locks, step));
    StepKeepsInv(w.locks, step);
    forall j | 0 <= j < |end.jobs| ensures JobOk(totals, end.ledgers, end.locks[j], end.jobs[j]) {
      assert JobOk(totals, w.ledgers, w.locks[j], w.jobs[j]);
    }
  }

  lemma JobStepKeepsInv(totals: Totals, w: World, i: nat, job: Job)
    requires WorldInv(totals, w) && i < |w.jobs| && JobOk(totals, w.ledgers, w.locks[i], job)
    ensures WorldInv(totals, w.(jobs := w.jobs[i := job]))
  {
    var end := w.(jobs := w.jobs[i := job]);
    forall j | 0 <= j < |end.jobs| ensures JobOk(totals, end.ledgers, end.locks[j], end.jobs[j]) {
      assert JobOk(totals, w.ledgers, w.locks[j], w.jobs[j]);
    }
  }

  lemma EventKeepsInv(totals: Totals, w: World, event: Event)
    requires WorldInv(totals, w) && Possible(totals, w, event)
    ensures WorldInv(totals, Next(totals, w, event))
  {
    match event
    case Request(request, incoming) => RequestKeepsInv(totals, w, request, incoming);
    case LockRow(i) => LockStepKeepsInv(totals, w, Acquire(i));
    case Enter(i) => LockStepKeepsInv(totals, w, StartWork(i));
    case Abort(i) => LockStepKeepsInv(totals, w, Rollback(i));
    case CommitWork(i) => CommitKeepsInv(totals, w, i);
    case Read(i) =>
      assert JobOk(totals, w.ledgers, w.locks[i], w.jobs[i]);
      JobStepKeepsInv(totals, w, i, w.jobs[i].(view := Some(LedgerOf(w.ledgers, w.jobs[i].request))));
    case Append(i) =>
      assert JobOk(totals, w.ledgers, w.locks[i], w.jobs[i]);
      JobStepKeepsInv(totals, w, i, w.jobs[i].(appended := true));
  }

  lemma {:induction false} HistoryKeepsInv(totals: Totals, w: World, events: seq<Event>, end: World)
    requires WorldInv(totals, w) && History(totals, w, events, end)
    ensures WorldInv(totals, end)
    decreases |events|
  {
    if events != [] {
      EventKeepsInv(totals, w, events[0]);
      HistoryKeepsInv(totals, Next(totals, w, events[0]), events[1..], end);
    }
  }

  // ---------- No over-payment ----------

  /**
  From ledgers within bounds, no interleaving of payments leads to a ledger whose net is negative
  or above the total of its request, or that the evaluator refuses.
  */
  lemma NoOverPayment(totals: Totals, ledgers: map<int, seq<Record>>, events: seq<Event>, end: World, request: int)
    requires LedgersInBounds(totals, ledgers)
    requires History(totals, World([], [], ledgers), events, end) && request in end.ledgers
    ensures EvaluateLedger(TotalOf(totals, request), end.ledgers[request]).Success?
    ensures 0 <= PayableSum(end.ledgers[request]) <= TotalOf(totals, request).value
  {
    HistoryKeepsInv(totals, World([], [], ledgers), events, end);
    LedgerMeaning(TotalOf(totals, request), end.ledgers[request]);
  }

  // ---------- Nothing is lost ----------

  /** What one event posts to a request. */
  function PostedBy(w: World, event: Event, request: int): int {
    if event.CommitWork? && event.tx < |w.jobs| && w.jobs[event.tx].request == request
      && w.jobs[event.tx].appended && w.jobs[event.tx].incoming.Whole?
    then w.jobs[event.tx].incoming.value else 0
  }

  /** What the jobs that commit in a history pay to a request. */
  ghost function CommittedTo(totals: Totals, w: World, events: seq<Event>, end: World, request: int): int
    requires History(totals, w, events, end)
    decreases |events|
  {
    if events == [] then 0
    else PostedBy(w, events[0], request) + CommittedTo(totals, Next(totals, w, events[0]), events[1..], end, request)
  }

  lemma EventPosts(totals: Totals, w: World, event: Event, request: int)
    requires WorldInv(totals, w) && Possible(totals, w, event)
    ensures PayableSum(LedgerOf(Next(totals, w, event).ledgers, request))
         == PayableSum(LedgerOf(w.ledgers, request)) + PostedBy(w, event, request)
  {
    if event.CommitWork? && w.jobs[event.tx].appended {
      var job := w.jobs[event.tx];
      assert JobOk(totals, w.ledgers, w.locks[event.tx], job);
      AdmittedStaysInBounds(TotalOf(totals, job.request), job.view.value, job.incoming);
    }
  }

  /** The net of a request grows by exactly the payments that were committed to it. */
  lemma {:induction false} NetIsConserved(totals: Totals, w: World, events: seq<Event>, end: World, request: int)
    requires WorldInv(totals, w) && History(totals, w, events, end)
    ensures PayableSum(LedgerOf(end.ledgers, request))
         == PayableSum(LedgerOf(w.ledgers, request)) + CommittedTo(totals, w, events, end, request)
    decreases |events|
  {
    if events != [] {
      EventPosts(totals, w, events[0], request);
      EventKeepsInv(totals, w, events[0]);
      NetIsConserved(totals, Next(totals, w, events[0]), events[1..], end, request);
    }
  }

  /**
  A job at work reads its ledger once, can append exactly if its payment is admitted on that ledger, does
  so once, and its commit adds that one payment to that one ledger.
  */
  lemma WorkPays(totals: Totals, w: World, i: nat)
    requires WorldInv(totals, w) && AtWork(w, i) && w.jobs[i].view.None?
    ensures Possible(totals, w, Read(i))
    ensures var job := w.jobs[i];
            var ledger := LedgerOf(w.ledgers, job.request);
            var read := Next(totals, w, Read(i));
            && !Possible(totals, read, Read(i))
            && (Possible(totals, read, Append(i)) <==> Admits(TotalOf(totals, job.request), ledger, job.incoming))
            && (Possible(totals, read, Append(i)) ==>
                  var appended := Next(totals, read, Append(i));
                  && !Possible(totals, appended, Append(i)) && Possible(totals, appended, CommitWork(i))
                  && Next(totals, appended, CommitWork(i)).ledgers
                     == w.ledgers[job.request := ledger + [Payment(job.incoming)]])
  {
    assert JobOk(totals, w.ledgers, w.locks[i], w.jobs[i]);
  }

  // ---------- Without the lock ----------

  /** Jobs that read, ask and append with no row locked. */
  datatype Desk = Desk(jobs: seq<Job>, ledgers: map<int, seq<Record>>)

  predicate Unguarded(totals: Totals, d: Desk, event: Event) {
    match event
    case Read(i) => i < |d.jobs| && d.jobs[i].view.None?
    case Append(i) =>
      && i < |d.jobs| && d.jobs[i].view.Some? && !d.jobs[i].appended
      && Admits(TotalOf(totals, d.jobs[i].request), d.jobs[i].view.value, d.jobs[i].incoming)
    case CommitWork(i) => i < |d.jobs|
    case _ => false
  }

  function NextUnguarded(totals: Totals, d: Desk, event: Event): Desk
    requires Unguarded(totals, d, event)
  {
    match event
    case Read(i) => d.(jobs := d.jobs[i := d.jobs[i].(view := Some(LedgerOf(d.ledgers, d.jobs[i].request)))])
    case Append(i) => d.(jobs := d.jobs[i := d.jobs[i].(appended := true)])
    case CommitWork(i) => d.(ledgers := Posted(d.ledgers, d.jobs[i]))
  }

  ghost predicate IsUnguardedRun(totals: Totals, run: seq<Desk>, events: seq<Event>) {
    && |run| == |events| + 1
    && forall i | 0 <= i < |events| ::
         Unguarded(totals, run[i], events[i]) && run[i + 1] == NextUnguarded(totals, run[i], events[i])
  }

  /** The ledger after two payments is accepted and within bounds exactly when both fit the total together. */
  lemma TwoPaymentsFit(total: Id, records: seq<Record>, first: Id, second: Id)
    requires Admits(total, records, first) && Admits(total, records, second)
    ensures InBounds(total, records + [Payment(first)] + [Payment(second)])
       <==> PayableSum(records) + first.value + second.value <= total.value
  {
    var once := records + [Payment(first)];
    var both := once + [Payment(second)];
    AdmittedStaysInBounds(total, records, first);
    AdmittedStaysInBounds(total, records, second);
    SumOfConcat(once, [Payment(second)]);
    SumOfConcat(records, [Payment(second)]);
    AdmitsMeaning(total, records, second);
    AdmitsMeaning(total, once, second);
    LedgerMeaning(total, both);
    if PayableSum(records) + first.value + second.value <= total.value {
      AdmittedStaysInBounds(total, once, second);
    }
  }

  /**
  Without the lock, two payments that read the same ledger are both admitted and both committed;
  the ledger leaves its bounds exactly when the two do not fit the total together.
  */
  lemma ReadingAloneIsNotEnough(totals: Totals, ledgers: map<int, seq<Record>>, request: int, first: Id, second: Id)
    returns (run: seq<Desk>, events: seq<Event>)
    requires Admits(TotalOf(totals, request), LedgerOf(ledgers, request), first)
    requires Admits(TotalOf(totals, request), LedgerOf(ledgers, request), second)
    ensures IsUnguardedRun(totals, run, events)
    ensures run[0] == Desk([Job(request, first, None, false), Job(request, second, None, false)], ledgers)
    ensures var end := LedgerOf(run[|events|].ledgers, request);
            && end == LedgerOf(ledgers, request) + [Payment(first)] + [Payment(second)]
            && (InBounds(TotalOf(totals, request), end)
                <==> PayableSum(LedgerOf(ledgers, request)) + first.value + second.value
                     <= TotalOf(totals, request).value)
  {
    var records := LedgerOf(ledgers, request);
    var once := ledgers[request := records + [Payment(first)]];
    var twice := once[request := records + [Payment(first)] + [Payment(second)]];
    var a0, b0 := Job(request, first, None, false), Job(request, second, None, false);
    var a1, b1 := a0.(view := Some(records)), b0.(view := Some(records));
    var a2, b2 := a1.(appended := true), b1.(appended := true);
    run := [Desk([a0, b0], ledgers), Desk([a1, b0], ledgers), Desk([a1, b1], ledgers), Desk([a2, b1], ledgers),
            Desk([a2, b2], ledgers), Desk([a2, b2], once), Desk([a2, b2], twice)];
    events := [Read(0), Read(1), Append(0), Append(1), CommitWork(0), CommitWork(1)];
    TwoPaymentsFit(TotalOf(totals, request), records, first, second);
  }

  /** Such payments exist for every positive total: each one pays it in full. */
  lemma DoublePayment(totals: Totals, request: int) returns (run: seq<Desk>, events: seq<Event>)
    requires IsSafeInteger(TotalOf(totals, request)) && TotalOf(totals, request).value > 0
    ensures IsUnguardedRun(totals, run, events) && run[0].ledgers == map[]
    ensures PayableSum(LedgerOf(run[|events|].ledgers, request)) == 2 * TotalOf(totals, request).value
  {
    var total := TotalOf(totals, request);
    assert NetFrom(0, []) == Success(0);
    run, events := ReadingAloneIsNotEnough(totals, map[], request, total, total);
    AdmittedStaysInBounds(total, [], total);
    SumOfConcat([] + [Payment(total)], [Payment(total)]);
    assert [] + [Payment(total)] == [Payment(total)];
  }
}
