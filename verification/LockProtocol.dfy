/**
Any number of transactions that lock rows as database/runtime/row-lock.ts does. Row locks are
exclusive and held until the transaction ends; the work takes no further locks.
*/
module LockProtocol {
  import opened RowLocks

  datatype Phase = Locking | Working | Ended

  /** A transaction has been granted the first held locks of its plan. */
  datatype Tx = Tx(plan: seq<Lock>, held: nat, phase: Phase)

  type State = seq<Tx>

  predicate Holds(tx: Tx, lock: Lock) {
    tx.phase != Ended && exists i | 0 <= i < |tx.plan| && i < tx.held :: tx.plan[i] == lock
  }

  predicate IsFree(s: State, lock: Lock) {
    forall j | 0 <= j < |s| :: !Holds(s[j], lock)
  }

  // ---------- Steps ----------

  datatype Step =
    | Begin(input: Input)
    | Acquire(tx: nat)
    | StartWork(tx: nat)
    | Commit(tx: nat)
    | Rollback(tx: nat)

  predicate Waits(tx: Tx) {
    tx.phase == Locking && tx.held < |tx.plan|
  }

  predicate Enabled(s: State, step: Step) {
    match step
    case Begin(input) => PlanOf(input).Success?
    case Acquire(i) => i < |s| && Waits(s[i]) && IsFree(s, s[i].plan[s[i].held])
    case StartWork(i) => i < |s| && s[i].phase == Locking && s[i].held == |s[i].plan|
    case Commit(i) => i < |s| && s[i].phase == Working
    case Rollback(i) => i < |s| && s[i].phase != Ended
  }

  function Apply(s: State, step: Step): State
    requires Enabled(s, step)
  {
    match step
    case Begin(input) => s + [Tx(PlanOf(input).value, 0, Locking)]
    case Acquire(i) => s[i := s[i].(held := s[i].held + 1)]
    case StartWork(i) => s[i := s[i].(phase := Working)]
    case Commit(i) => s[i := s[i].(phase := Ended)]
    case Rollback(i) => s[i := s[i].(phase := Ended)]
  }

  ghost predicate Run(s: State, steps: seq<Step>, end: State)
    decreases |steps|
  {
    if steps == [] then s == end else Enabled(s, steps[0]) && Run(Apply(s, steps[0]), steps[1..], end)
  }

  // ---------- What every reachable state keeps ----------

  predicate TxOk(tx: Tx) {
    Ordered(tx.plan) && tx.held <= |tx.plan| && (tx.phase == Working ==> tx.held == |tx.plan|)
  }

  ghost predicate Exclusive(s: State) {
    forall i, j, lock | 0 <= i < |s| && 0 <= j < |s| && Holds(s[i], lock) && Holds(s[j], lock) :: i == j
  }

  ghost predicate Inv(s: State) {
    (forall i | 0 <= i < |s| :: TxOk(s[i])) && Exclusive(s)
  }

  lemma AcquiredHolds(tx: Tx, lock: Lock)
    requires Waits(tx) && Holds(tx.(held := tx.held + 1), lock)
    ensures Holds(tx, lock) || lock == tx.plan[tx.held]
  {
    var i :| 0 <= i < |tx.plan| && i < tx.held + 1 && tx.plan[i] == lock;
    if i < tx.held {
      assert tx.plan[i] == lock;
    }
  }

  lemma AcquireKeepsInv(s: State, i: nat)
    requires Inv(s) && Enabled(s, Acquire(i))
    ensures Inv(Apply(s, Acquire(i)))
  {
    var t := Apply(s, Acquire(i));
    var wanted := s[i].plan[s[i].held];
    forall a, b, lock | 0 <= a < |t| && 0 <= b < |t| && Holds(t[a], lock) && Holds(t[b], lock) ensures a == b {
      if Holds(t[i], lock) {
        AcquiredHolds(s[i], lock);
      }
      assert !Holds(s[a], wanted) && !Holds(s[b], wanted);
    }
  }

  lemma EndKeepsInv(s: State, i: nat, phase: Phase)
    requires Inv(s) && i < |s| && s[i].phase != Ended && phase != Locking
    requires (phase == Working ==> s[i].held == |s[i].plan|)
    ensures Inv(s[i := s[i].(phase := phase)])
  {
    var t := s[i := s[i].(phase := phase)];
    forall a, b, lock | 0 <= a < |t| && 0 <= b < |t| && Holds(t[a], lock) && Holds(t[b], lock) ensures a == b {
      assert Holds(s[a], lock) && Holds(s[b], lock);
    }
  }

  lemma BeginKeepsInv(s: State, input: Input)
    requires Inv(s) && PlanOf(input).Success?
    ensures Inv(Apply(s, Begin(input)))
  {
    var t := Apply(s, Begin(input));
    PlanIsOrdered(input);
    forall a, b, lock | 0 <= a < |t| && 0 <= b < |t| && Holds(t[a], lock) && Holds(t[b], lock) ensures a == b {
      assert a < |s| && b < |s|;
    }
  }

  lemma StepKeepsInv(s: State, step: Step)
    requires Inv(s) && Enabled(s, step)
    ensures Inv(Apply(s, step))
  {
    match step
    case Begin(input) => BeginKeepsInv(s, input);
    case Acquire(i) => AcquireKeepsInv(s, i);
    case StartWork(i) => EndKeepsInv(s, i, Working);
    case Commit(i) => EndKeepsInv(s, i, Ended);
    case Rollback(i) => EndKeepsInv(s, i, Ended);
  }

  lemma {:induction false} RunKeepsInv(s: State, steps: seq<Step>, end: State)
    requires Inv(s) && Run(s, steps, end)
    ensures Inv(end)
    decreases |steps|
  {
    if steps != [] {
      StepKeepsInv(s, steps[0]);
      RunKeepsInv(Apply(s, steps[0]), steps[1..], end);
    }
  }

  // ---------- Mutual exclusion ----------

  /** Two transactions with a row in common are never at work at the same time. */
  lemma WorkIsExclusive(steps: seq<Step>, s: State, i: nat, j: nat, lock: Lock)
    requires Run([], steps, s)
    requires i < |s| && j < |s| && s[i].phase == Working && s[j].phase == Working
    requires lock in s[i].plan && lock in s[j].plan
    ensures i == j
  {
    RunKeepsInv([], steps, s);
    assert TxOk(s[i]) && TxOk(s[j]);
    assert Holds(s[i], lock) && Holds(s[j], lock);
  }

  // ---------- No deadlock ----------

  /** A step by which a transaction gets on by itself. */
  predicate Advances(step: Step) {
    step.Acquire? || step.StartWork? || step.Commit?
  }

  ghost predicate CanAdvance(s: State) {
    exists step :: Advances(step) && Enabled(s, step)
  }

  predicate Unfinished(s: State, i: nat) {
    i < |s| && s[i].phase != Ended
  }

  predicate AllWait(s: State) {
    forall i: nat | Unfinished(s, i) && i < |s| :: Waits(s[i])
  }

  function Wanted(s: State, i: nat): Lock
    requires i < |s| && Waits(s[i])
  {
    s[i].plan[s[i].held]
  }

  lemma BeforeIsTransitive(a: Lock, b: Lock, c: Lock)
    ensures Before(a, b) && Before(b, c) ==> Before(a, c)
  {
  }

  /** Of the transactions among the first n, one waits for the lock that comes last. */
  lemma {:induction false} LastWanted(s: State, n: nat) returns (last: nat)
    requires AllWait(s) && n <= |s| && exists i: nat :: i < n && Unfinished(s, i)
    ensures last < n && Unfinished(s, last)
    ensures forall i: nat | i < n && Unfinished(s, i) :: !Before(Wanted(s, last), Wanted(s, i))
    decreases n
  {
    if !Unfinished(s, n - 1) {
      last := LastWanted(s, n - 1);
    } else if exists i: nat :: i < n - 1 && Unfinished(s, i) {
      last := LastWanted(s, n - 1);
      if Before(Wanted(s, last), Wanted(s, n - 1)) {
        forall i: nat | i < n - 1 && Unfinished(s, i) ensures !Before(Wanted(s, n - 1), Wanted(s, i)) {
          BeforeIsTransitive(Wanted(s, last), Wanted(s, n - 1), Wanted(s, i));
        }
        last := n - 1;
      }
    } else {
      last := n - 1;
    }
  }

  /** Who holds a lock waits, if at all, for a later one. */
  lemma HolderWantsLater(s: State, j: nat, lock: Lock)
    requires Inv(s) && j < |s| && Waits(s[j]) && Holds(s[j], lock)
    ensures Before(lock, Wanted(s, j))
  {
    assert TxOk(s[j]);
    var i :| 0 <= i < |s[j].plan| && i < s[j].held && s[j].plan[i] == lock;
  }

  lemma SomeoneAdvances(s: State, i: nat)
    requires Inv(s) && Unfinished(s, i)
    ensures CanAdvance(s)
  {
    if AllWait(s) {
      var last := LastWanted(s, |s|);
      var lock := Wanted(s, last);
      forall j | 0 <= j < |s| ensures !Holds(s[j], lock) {
        if Holds(s[j], lock) {
          assert Unfinished(s, j);
          HolderWantsLater(s, j, lock);
        }
      }
      assert Enabled(s, Acquire(last));
    } else {
      var j: nat :| Unfinished(s, j) && j < |s| && !Waits(s[j]);
      assert TxOk(s[j]);
      assert Enabled(s, if s[j].phase == Working then Commit(j) else StartWork(j));
    }
  }

  /** In every reachable state, however many transactions there are, some unfinished one can take its next step. */
  lemma NoDeadlock(steps: seq<Step>, s: State, i: nat)
    requires Run([], steps, s) && Unfinished(s, i)
    ensures CanAdvance(s)
  {
    RunKeepsInv([], steps, s);
    SomeoneAdvances(s, i);
  }

  // ---------- Progress ----------

  function TxRemaining(tx: Tx): nat
    requires tx.held <= |tx.plan|
  {
    if tx.phase == Ended then 0 else |tx.plan| - tx.held + if tx.phase == Locking then 2 else 1
  }

  /** The number of steps the transactions still have to take. */
  function Remaining(s: State): nat
    requires forall i | 0 <= i < |s| :: TxOk(s[i])
  {
    if s == [] then 0 else
      assert TxOk(s[0]);
      TxRemaining(s[0]) + Remaining(s[1..])
  }

  lemma {:induction false} RemainingOfUpdate(s: State, i: nat, tx: Tx)
    requires i < |s| && TxOk(tx) && forall k | 0 <= k < |s| :: TxOk(s[k])
    ensures Remaining(s[i := tx]) == Remaining(s) - TxRemaining(s[i]) + TxRemaining(tx)
    decreases |s|
  {
    if i == 0 {
      assert s[i := tx][1..] == s[1..];
    } else {
      assert s[i := tx][1..] == s[1..][i - 1 := tx];
      RemainingOfUpdate(s[1..], i - 1, tx);
    }
  }

  lemma AdvanceDecreases(s: State, step: Step)
    requires Inv(s) && Enabled(s, step) && Advances(step)
    ensures Inv(Apply(s, step)) && Remaining(Apply(s, step)) == Remaining(s) - 1
  {
    StepKeepsInv(s, step);
    assert TxOk(s[step.tx]) && TxOk(Apply(s, step)[step.tx]);
    RemainingOfUpdate(s, step.tx, Apply(s, step)[step.tx]);
  }

  lemma {:induction false} NoneRemain(s: State)
    requires (forall i | 0 <= i < |s| :: TxOk(s[i])) && Remaining(s) == 0
    ensures forall i | 0 <= i < |s| :: s[i].phase == Ended
  {
    if s != [] {
      NoneRemain(s[1..]);
      assert s == [s[0]] + s[1..];
    }
  }

  /** Whatever they have done so far, all transactions can end, in exactly the steps that remain. */
  lemma {:induction false} AllCanEnd(s: State) returns (steps: seq<Step>, end: State)
    requires Inv(s)
    ensures Run(s, steps, end) && |steps| == Remaining(s)
    ensures |end| == |s| && forall i | 0 <= i < |end| :: end[i].phase == Ended
    decreases Remaining(s)
  {
    if i :| 0 <= i < |s| && s[i].phase != Ended {
      SomeoneAdvances(s, i);
      var step :| Advances(step) && Enabled(s, step);
      AdvanceDecreases(s, step);
      var rest;
      rest, end := AllCanEnd(Apply(s, step));
      steps := [step] + rest;
      assert steps[1..] == rest;
    } else {
      steps, end := [], s;
      NothingRemains(s);
    }
  }

  lemma {:induction false} NothingRemains(s: State)
    requires forall i | 0 <= i < |s| :: TxOk(s[i]) && s[i].phase == Ended
    ensures Remaining(s) == 0
  {
    if s != [] {
      NothingRemains(s[1..]);
    }
  }

  /** No run of such steps is longer: the transactions cannot keep each other busy for ever. */
  lemma {:induction false} RunsAreBounded(s: State, steps: seq<Step>, end: State)
    requires Inv(s) && Run(s, steps, end) && forall step | step in steps :: Advances(step)
    ensures |steps| <= Remaining(s)
    decreases |steps|
  {
    if steps != [] {
      assert Advances(steps[0]);
      AdvanceDecreases(s, steps[0]);
      RunsAreBounded(Apply(s, steps[0]), steps[1..], end);
    }
  }

  // ---------- The order is needed ----------

  /** Two plans that disagree on the order of two rows can block each other for good. */
  lemma DeadlockWithoutOrder(a: Lock, b: Lock)
    requires a != b
    ensures var s: State := [Tx([a, b], 0, Locking), Tx([b, a], 0, Locking)];
            exists t :: Run(s, [Acquire(0), Acquire(1)], t) && Unfinished(t, 0) && !CanAdvance(t)
  {
    var s: State := [Tx([a, b], 0, Locking), Tx([b, a], 0, Locking)];
    var m: State := [Tx([a, b], 1, Locking), Tx([b, a], 0, Locking)];
    var t: State := [Tx([a, b], 1, Locking), Tx([b, a], 1, Locking)];
    assert Apply(s, Acquire(0)) == m && Apply(m, Acquire(1)) == t;
    assert Run(t, [], t) && Run(m, [Acquire(1)], t);
    assert [Acquire(0), Acquire(1)][1..] == [Acquire(1)];
    assert t[0].plan[0] == a && t[1].plan[0] == b;
    assert Holds(t[0], a) && Holds(t[1], b);
    assert !IsFree(t, a) && !IsFree(t, b);
    assert Run(s, [Acquire(0), Acquire(1)], t) && Unfinished(t, 0) && !CanAdvance(t);
  }
}
