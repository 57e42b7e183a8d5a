/**
database/runtime/row-lock.ts: the row locks that a financial transaction takes, one by one, before
its work.
*/
module RowLocks {
  import opened Wrappers

  const MAX_SAFE_INTEGER := 9_007_199_254_740_991

  /** A JavaScript number given as an id. */
  datatype Id = Whole(value: int) | NotWhole

  datatype Lock = PaymentRequest(id: int) | InvoiceException(id: int)

  datatype LockError =
    | BadPaymentRequestId | BadInvoiceExceptionId | NothingToLock | NotOnMySql
    | NoTransactions | NoExecutor | DriverFailed | WorkFailed

  // ---------- normalizeLockIds ----------

  predicate IdOk(id: Id) {
    id.Whole? && 0 < id.value <= MAX_SAFE_INTEGER
  }

  predicate IdsOk(ids: seq<Id>) {
    forall i | 0 <= i < |ids| :: IdOk(ids[i])
  }

  /** The numbers of the Set, in the order in which they were first added. */
  function Distinct(ids: seq<Id>): seq<int>
    requires IdsOk(ids)
  {
    if ids == [] then []
    else
      var front, last := Distinct(ids[..|ids| - 1]), ids[|ids| - 1].value;
      if last in front then front else front + [last]
  }

  function Insert(x: int, sorted: seq<int>): seq<int> {
    if sorted == [] || x <= sorted[0] then [x] + sorted else [sorted[0]] + Insert(x, sorted[1..])
  }

  function Sort(s: seq<int>): seq<int> {
    if s == [] then [] else Insert(s[0], Sort(s[1..]))
  }

  /** None where it throws. */
  function NormalizeLockIds(ids: seq<Id>): Option<seq<int>> {
    if IdsOk(ids) then Some(Sort(Distinct(ids))) else None
  }

  predicate Ascending(s: seq<int>) {
    forall i, j | 0 <= i < j < |s| :: s[i] < s[j]
  }

  predicate NoRepeats(s: seq<int>) {
    forall i, j | 0 <= i < j < |s| :: s[i] != s[j]
  }

  lemma {:induction false} DistinctIsSet(ids: seq<Id>)
    requires IdsOk(ids)
    ensures NoRepeats(Distinct(ids))
    ensures forall x :: x in Distinct(ids) <==> Whole(x) in ids
  {
    if ids != [] {
      var front, last := ids[..|ids| - 1], ids[|ids| - 1];
      DistinctIsSet(front);
      assert ids == front + [last];
    }
  }

  lemma {:induction false} InsertKeeps(x: int, s: seq<int>)
    requires Ascending(s) && x !in s
    ensures Ascending(Insert(x, s))
    ensures forall y :: y in Insert(x, s) <==> y == x || y in s
  {
    if s != [] && x > s[0] {
      var rest := Insert(x, s[1..]);
      InsertKeeps(x, s[1..]);
      forall j | 0 <= j < |rest| ensures s[0] < rest[j] {
        assert rest[j] in rest;
      }
      assert s == [s[0]] + s[1..];
    }
  }

  lemma {:induction false} SortKeeps(s: seq<int>)
    requires NoRepeats(s)
    ensures Ascending(Sort(s))
    ensures forall y :: y in Sort(s) <==> y in s
  {
    if s != [] {
      assert s == [s[0]] + s[1..];
      SortKeeps(s[1..]);
      InsertKeeps(s[0], Sort(s[1..]));
    }
  }

  /**
  Accepted are positive integers below 2^53. The result is strictly ascending and names the ids that were
  given, however often and in whatever order.
  */
  lemma NormalizedIds(ids: seq<Id>)
    ensures NormalizeLockIds(ids).Some? <==> forall id | id in ids :: id.Whole? && 1 <= id.value < 0x20_0000_0000_0000
    ensures NormalizeLockIds(ids).Some? ==>
      && Ascending(NormalizeLockIds(ids).value)
      && (forall x :: x in NormalizeLockIds(ids).value <==> Whole(x) in ids)
  {
    if IdsOk(ids) {
      DistinctIsSet(ids);
      SortKeeps(Distinct(ids));
      forall id | id in ids ensures IdOk(id) {
        var i :| 0 <= i < |ids| && ids[i] == id;
      }
    }
  }

  /** There is only one ascending list of given numbers, so the sorting algorithm does not matter. */
  lemma {:induction false} AscendingIsUnique(s: seq<int>, t: seq<int>)
    requires Ascending(s) && Ascending(t) && forall x :: x in s <==> x in t
    ensures s == t
  {
    assert (s == [] || s[0] in s) && (t == [] || t[0] in t);
    if s != [] {
      assert s[0] in s && s[0] in t && t[0] in t && t[0] in s;
      FirstIsLeast(s, t[0]);
      FirstIsLeast(t, s[0]);
      forall x ensures x in s[1..] <==> x in t[1..] {
        RestWithoutFirst(s, x);
        RestWithoutFirst(t, x);
      }
      AscendingIsUnique(s[1..], t[1..]);
      assert s == [s[0]] + s[1..] && t == [t[0]] + t[1..];
    }
  }

  lemma FirstIsLeast(s: seq<int>, x: int)
    requires Ascending(s) && x in s
    ensures s[0] <= x
  {
    var i :| 0 <= i < |s| && s[i] == x;
  }

  lemma RestWithoutFirst(s: seq<int>, x: int)
    requires Ascending(s) && s != []
    ensures x in s[1..] <==> x in s && x != s[0]
  {
    assert s == [s[0]] + s[1..];
  }

  // ---------- The plan of a transaction ----------

  predicate Before(a: Lock, b: Lock) {
    if a.PaymentRequest? == b.PaymentRequest? then a.id < b.id else a.PaymentRequest?
  }

  predicate Ordered(plan: seq<Lock>) {
    forall i, j | 0 <= i < j < |plan| :: Before(plan[i], plan[j])
  }

  /** Payment requests first, then invoice exceptions. */
  function Plan(paymentRequestIds: seq<int>, invoiceExceptionIds: seq<int>): seq<Lock> {
    seq(|paymentRequestIds|, i requires 0 <= i < |paymentRequestIds| => PaymentRequest(paymentRequestIds[i]))
    + seq(|invoiceExceptionIds|, i requires 0 <= i < |invoiceExceptionIds| => InvoiceException(invoiceExceptionIds[i]))
  }

  datatype Input = Input(paymentRequestIds: seq<Id>, invoiceExceptionIds: seq<Id>)

  function PlanOf(input: Input): Result<seq<Lock>, LockError> {
    var requests, exceptions := NormalizeLockIds(input.paymentRequestIds), NormalizeLockIds(input.invoiceExceptionIds);
    if requests.None? then Failure(BadPaymentRequestId)
    else if exceptions.None? then Failure(BadInvoiceExceptionId)
    else if requests.value == [] && exceptions.value == [] then Failure(NothingToLock)
    else Success(Plan(requests.value, exceptions.value))
  }

  /** Every plan follows the one global order and holds exactly the rows that were asked for. */
  lemma PlanIsOrdered(input: Input)
    requires PlanOf(input).Success?
    ensures Ordered(PlanOf(input).value) && PlanOf(input).value != []
    ensures forall x :: PaymentRequest(x) in PlanOf(input).value <==> Whole(x) in input.paymentRequestIds
    ensures forall x :: InvoiceException(x) in PlanOf(input).value <==> Whole(x) in input.invoiceExceptionIds
  {
    NormalizedIds(input.paymentRequestIds);
    NormalizedIds(input.invoiceExceptionIds);
    PlanNames(NormalizeLockIds(input.paymentRequestIds).value, NormalizeLockIds(input.invoiceExceptionIds).value);
  }

  lemma PlanNames(requests: seq<int>, exceptions: seq<int>)
    ensures forall x :: PaymentRequest(x) in Plan(requests, exceptions) <==> x in requests
    ensures forall x :: InvoiceException(x) in Plan(requests, exceptions) <==> x in exceptions
  {
    var plan := Plan(requests, exceptions);
    forall x ensures PaymentRequest(x) in plan <==> x in requests {
      if x in requests {
        var i :| 0 <= i < |requests| && requests[i] == x;
        assert plan[i] == PaymentRequest(x);
      }
    }
    forall x ensures InvoiceException(x) in plan <==> x in exceptions {
      if x in exceptions {
        var i :| 0 <= i < |exceptions| && exceptions[i] == x;
        assert plan[|requests| + i] == InvoiceException(x);
      }
    }
  }

  // ---------- The wrappers ----------

  function Wholes(numbers: seq<int>): seq<Id> {
    seq(|numbers|, i requires 0 <= i < |numbers| => Whole(numbers[i]))
  }

  /** withLockedPaymentRequests normalizes the ids before withLockedFinancialRows does it again. */
  function PlanOfPaymentRequests(ids: seq<Id>): Result<seq<Lock>, LockError> {
    if ids == [] || NormalizeLockIds(ids).None? then Failure(BadPaymentRequestId)
    else PlanOf(Input(Wholes(NormalizeLockIds(ids).value), []))
  }

  /** withLockedInvoiceExceptions. */
  function PlanOfInvoiceExceptions(ids: seq<Id>): Result<seq<Lock>, LockError> {
    if ids == [] || NormalizeLockIds(ids).None? then Failure(BadInvoiceExceptionId)
    else PlanOf(Input([], Wholes(NormalizeLockIds(ids).value)))
  }

  /** Normalizing twice is normalizing once. */
  lemma NormalizeTwice(ids: seq<Id>)
    requires IdsOk(ids)
    ensures NormalizeLockIds(Wholes(NormalizeLockIds(ids).value)) == NormalizeLockIds(ids)
  {
    var once := NormalizeLockIds(ids).value;
    var again := Wholes(once);
    NormalizedIds(ids);
    forall i | 0 <= i < |again| ensures IdOk(again[i]) {
      assert once[i] in once;
    }
    NormalizedIds(again);
    forall x ensures x in once <==> Whole(x) in again {
      if x in once {
        var i :| 0 <= i < |once| && once[i] == x;
        assert again[i] == Whole(x);
      }
    }
    AscendingIsUnique(NormalizeLockIds(again).value, once);
  }

  /** A wrapper locks what the general form would, except that no ids at all is a bad id. */
  lemma WrappersAgree(ids: seq<Id>)
    ensures PlanOfPaymentRequests(ids) == if ids == [] then Failure(BadPaymentRequestId) else PlanOf(Input(ids, []))
    ensures PlanOfInvoiceExceptions(ids) == if ids == [] then Failure(BadInvoiceExceptionId) else PlanOf(Input([], ids))
  {
    if IdsOk(ids) {
      NormalizeTwice(ids);
    }
  }

  // ---------- withLockedFinancialRows ----------

  /** What the runtime and the driver offer. */
  datatype Runtime = Runtime(onMySql: bool, hasTransaction: bool, hasExecute: bool)

  lemma GrantsNext(granted: seq<Lock>, plan: seq<Lock>, i: nat)
    requires i < |plan|
    ensures granted + plan[..i] + [plan[i]] == granted + plan[..i + 1]
  {
  }

  /** The locks a transaction has been granted, and whether its work ran. */
  class LockSession {
    var granted: seq<Lock>
    var worked: bool

    constructor ()
      ensures granted == [] && !worked
    {
      granted := [];
      worked := false;
    }

    /** One FOR UPDATE: it waits until the row is free, or fails in the driver. */
    method LockRow(lock: Lock, driverOk: bool) returns (ok: bool)
      modifies this`granted
      ensures ok == driverOk && granted == if driverOk then old(granted) + [lock] else old(granted)
    {
      if driverOk {
        granted := granted + [lock];
      }
      ok := driverOk;
    }

    /** The loop over the payment requests, with this many rows locked before it. */
    method LockPaymentRequests(ids: seq<int>, before: nat, failAt: Option<nat>) returns (ok: bool)
      requires before == |granted|
      modifies this`granted
      ensures ok <==> failAt.None? || failAt.value < before || before + |ids| <= failAt.value
      ensures granted == old(granted) + Plan(ids, [])[..if ok then |ids| else failAt.value - before]
    {
      ghost var plan := Plan(ids, []);
      for i := 0 to |ids|
        invariant granted == old(granted) + plan[..i]
        invariant failAt.None? || failAt.value < before || before + i <= failAt.value
      {
        GrantsNext(old(granted), plan, i);
        ok := LockRow(PaymentRequest(ids[i]), failAt != Some(before + i));
        if !ok {
          return;
        }
      }
      ok := true;
    }

    /** The loop over the invoice exceptions. */
    method LockInvoiceExceptions(ids: seq<int>, before: nat, failAt: Option<nat>) returns (ok: bool)
      requires before == |granted|
      modifies this`granted
      ensures ok <==> failAt.None? || failAt.value < before || before + |ids| <= failAt.value
      ensures granted == old(granted) + Plan([], ids)[..if ok then |ids| else failAt.value - before]
    {
      ghost var plan := Plan([], ids);
      for i := 0 to |ids|
        invariant granted == old(granted) + plan[..i]
        invariant failAt.None? || failAt.value < before || before + i <= failAt.value
      {
        GrantsNext(old(granted), plan, i);
        ok := LockRow(InvoiceException(ids[i]), failAt != Some(before + i));
        if !ok {
          return;
        }
      }
      ok := true;
    }

    /**
    withLockedFinancialRows. failAt is the number of locks after which the driver fails, if it
    does; work says whether the work returns.
    */
    method WithLockedFinancialRows(input: Input, runtime: Runtime, failAt: Option<nat>, work: bool)
      returns (result: Result<(), LockError>)
      requires granted == [] && !worked
      modifies this
      ensures PlanOf(input).Failure? ==> result == Failure(PlanOf(input).error) && granted == [] && !worked
      ensures PlanOf(input).Success? ==>
        var plan := PlanOf(input).value;
        if !runtime.onMySql then result == Failure(NotOnMySql) && granted == [] && !worked
        else if !runtime.hasTransaction then result == Failure(NoTransactions) && granted == [] && !worked
        else if !runtime.hasExecute then result == Failure(NoExecutor) && granted == [] && !worked
        else if failAt.Some? && failAt.value < |plan| then
          result == Failure(DriverFailed) && granted == plan[..failAt.value] && !worked
        else granted == plan && worked && result == if work then Success(()) else Failure(WorkFailed)
    {
      var requests := NormalizeLockIds(input.paymentRequestIds);
      var exceptions := NormalizeLockIds(input.invoiceExceptionIds);
      if requests.None? {
        return Failure(BadPaymentRequestId);
      }
      if exceptions.None? {
        return Failure(BadInvoiceExceptionId);
      }
      if |requests.value| == 0 && |exceptions.value| == 0 {
        return Failure(NothingToLock);
      }
      if !runtime.onMySql {
        return Failure(NotOnMySql);
      }
      if !runtime.hasTransaction {
        return Failure(NoTransactions);
      }
      if !runtime.hasExecute {
        return Failure(NoExecutor);
      }
      assert Plan(requests.value, exceptions.value) == Plan(requests.value, []) + Plan([], exceptions.value);
      var ok := LockPaymentRequests(requests.value, 0, failAt);
      if ok {
        ok := LockInvoiceExceptions(exceptions.value, |requests.value|, failAt);
      }
      if !ok {
        return Failure(DriverFailed);
      }
      worked := true;
      result := if work then Success(()) else Failure(WorkFailed);
    }
  }
}
