/**
apps/web/app/lib/payment-guard.ts: what a payment request has been paid, and whether one more
payment may be added. A sum of two safe integers is safe, or no safe integer either before or after
rounding, so unbounded integers give the same answers as JavaScript numbers.
*/
module PaymentGuard {
  import opened Wrappers
  import opened RowLocks

  datatype Record = Record(amount: Id, recordType: string, invoiceExceptionId: Option<Id>)

  datatype GuardError =
    | BadRecordAmount | BadExceptionId | PaymentWithException | RefundWithoutException | BadRecordType
    | BadTotal | BadIncoming | UnsafeSum

  predicate IsSafe(n: int) {
    -MAX_SAFE_INTEGER <= n <= MAX_SAFE_INTEGER
  }

  predicate IsSafeInteger(n: Id) {
    n.Whole? && IsSafe(n.value)
  }

  /** isPayableLedgerRecord. */
  function IsPayable(record: Record): Result<bool, GuardError> {
    if !IsSafeInteger(record.amount)
      || (if record.recordType == "reversal" then record.amount.value >= 0 else record.amount.value <= 0)
    then Failure(BadRecordAmount)
    else if record.invoiceExceptionId.Some? && !IdOk(record.invoiceExceptionId.value) then Failure(BadExceptionId)
    else if record.recordType == "payment" then
      if record.invoiceExceptionId.Some? then Failure(PaymentWithException) else Success(true)
    else if record.recordType == "refund" then
      if record.invoiceExceptionId.None? then Failure(RefundWithoutException) else Success(false)
    else if record.recordType == "correction" || record.recordType == "reversal" then
      Success(record.invoiceExceptionId.None?)
    else Failure(BadRecordType)
  }

  datatype Ledger = Ledger(net: int, remaining: int, withinBounds: bool)

  function Remaining(total: int, paid: int): int {
    if total - paid > 0 then total - paid else 0
  }

  /** The net after these records, starting from this net. */
  function NetFrom(net: int, records: seq<Record>): Result<int, GuardError>
    decreases |records|
  {
    if records == [] then Success(net) else
      var payable := IsPayable(records[0]);
      if payable.Failure? then Failure(payable.error)
      else if !payable.value then NetFrom(net, records[1..])
      else if !IsSafe(net + records[0].amount.value) then Failure(UnsafeSum)
      else NetFrom(net + records[0].amount.value, records[1..])
  }

  function EvaluateLedger(total: Id, records: seq<Record>): Result<Ledger, GuardError> {
    if !IsSafeInteger(total) || total.value < 0 then Failure(BadTotal) else
      var net := NetFrom(0, records);
      if net.Failure? then Failure(net.error)
      else Success(Ledger(net.value, Remaining(total.value, net.value), 0 <= net.value <= total.value))
  }

  /** evaluatePayableLedger. */
  method EvaluatePayableLedger(total: Id, records: seq<Record>) returns (result: Result<Ledger, GuardError>)
    ensures result == EvaluateLedger(total, records)
  {
    if !IsSafeInteger(total) || total.value < 0 {
      return Failure(BadTotal);
    }
    var net := 0;
    for i := 0 to |records|
      invariant NetFrom(0, records) == NetFrom(net, records[i..])
    {
      assert records[i..][1..] == records[i + 1..];
      var payable := IsPayable(records[i]);
      if payable.Failure? {
        return Failure(payable.error);
      }
      if payable.value {
        net := net + records[i].amount.value;
        if !IsSafe(net) {
          return Failure(UnsafeSum);
        }
      }
    }
    result := Success(Ledger(net, Remaining(total.value, net), 0 <= net <= total.value));
  }

  datatype Capacity = Capacity(paid: int, totalPaid: int, remaining: int, wouldExceed: bool, ledgerWithinBounds: bool)

  /** evaluatePaymentCapacity. */
  function EvaluateCapacity(total: Id, records: seq<Record>, incoming: Id): Result<Capacity, GuardError> {
    if !IsSafeInteger(incoming) || incoming.value <= 0 then Failure(BadIncoming) else
      var ledger := EvaluateLedger(total, records);
      if ledger.Failure? then Failure(ledger.error)
      else if !IsSafe(ledger.value.net + incoming.value) then Failure(UnsafeSum)
      else
        var totalPaid := ledger.value.net + incoming.value;
        Success(Capacity(ledger.value.net, totalPaid, Remaining(total.value, totalPaid), totalPaid > total.value,
                         ledger.value.withinBounds))
  }

  // ---------- What the net means ----------

  /**
  A safe amount, negative for a reversal and positive for the other three types; a payment has no
  invoice exception, a refund has one, and an exception has a positive id.
  */
  predicate RecordOk(record: Record) {
    && IsSafeInteger(record.amount)
    && (if record.recordType == "reversal" then record.amount.value < 0 else record.amount.value > 0)
    && record.recordType in ["payment", "refund", "correction", "reversal"]
    && (record.invoiceExceptionId.Some? ==> IdOk(record.invoiceExceptionId.value))
    && (record.recordType == "payment" ==> record.invoiceExceptionId.None?)
    && (record.recordType == "refund" ==> record.invoiceExceptionId.Some?)
  }

  predicate WellFormed(records: seq<Record>) {
    forall i | 0 <= i < |records| :: RecordOk(records[i])
  }

  /** What a record adds to the net: payments, corrections and reversals count, unless for an invoice exception. */
  function Share(record: Record): int {
    if record.recordType in ["payment", "correction", "reversal"] && record.invoiceExceptionId.None?
       && record.amount.Whole?
    then record.amount.value else 0
  }

  lemma PayableMeaning(record: Record)
    ensures IsPayable(record).Success? <==> RecordOk(record)
    ensures IsPayable(record).Success? ==> Share(record) == if IsPayable(record).value then record.amount.value else 0
  {
  }

  function PayableSum(records: seq<Record>): int {
    if records == [] then 0 else Share(records[0]) + PayableSum(records[1..])
  }

  predicate SumsSafe(records: seq<Record>) {
    forall k | 0 <= k <= |records| :: IsSafe(PayableSum(records[..k]))
  }

  lemma {:induction false} SumOfConcat(a: seq<Record>, b: seq<Record>)
    ensures PayableSum(a + b) == PayableSum(a) + PayableSum(b)
  {
    if a == [] {
      assert a + b == b;
    } else {
      SumOfConcat(a[1..], b);
      assert (a + b)[1..] == a[1..] + b;
    }
  }

  predicate SumsSafeFrom(net: int, records: seq<Record>) {
    forall k | 0 <= k <= |records| :: IsSafe(net + PayableSum(records[..k]))
  }

  lemma SumsSafeStep(net: int, records: seq<Record>)
    requires records != [] && IsSafe(net)
    ensures SumsSafeFrom(net, records) <==> SumsSafeFrom(net + Share(records[0]), records[1..])
  {
    forall k | 0 <= k < |records|
      ensures PayableSum(records[..k + 1]) == Share(records[0]) + PayableSum(records[1..][..k])
    {
      assert records[..k + 1][1..] == records[1..][..k];
    }
    if SumsSafeFrom(net + Share(records[0]), records[1..]) {
      forall k | 0 <= k <= |records| ensures IsSafe(net + PayableSum(records[..k])) {
        if k > 0 {
          assert IsSafe(net + Share(records[0]) + PayableSum(records[1..][..k - 1]));
        }
      }
    }
  }

  lemma {:induction false} NetMeaning(net: int, records: seq<Record>)
    requires IsSafe(net)
    ensures NetFrom(net, records).Success? <==> WellFormed(records) && SumsSafeFrom(net, records)
    ensures NetFrom(net, records).Success? ==> NetFrom(net, records).value == net + PayableSum(records)
    decreases |records|
  {
    if records != [] {
      SumsSafeStep(net, records);
      PayableMeaning(records[0]);
      assert WellFormed(records) <==> RecordOk(records[0]) && WellFormed(records[1..]) by {
        assert records == [records[0]] + records[1..];
      }
      if IsPayable(records[0]).Success? {
        var next := net + Share(records[0]);
        if IsSafe(next) {
          NetMeaning(next, records[1..]);
        } else {
          assert records[1..][..0] == [] && !SumsSafeFrom(next, records[1..]);
        }
      }
    }
  }

  /**
  The evaluator accepts exactly the ledgers of well-formed records whose running sums all stay
  safe. The net is then the sum of the payable amounts, and what remains is the rest of the total, if any.
  */
  lemma LedgerMeaning(total: Id, records: seq<Record>)
    ensures EvaluateLedger(total, records).Success? <==>
      IsSafeInteger(total) && total.value >= 0 && WellFormed(records) && SumsSafe(records)
    ensures EvaluateLedger(total, records).Success? ==>
              var ledger := EvaluateLedger(total, records).value;
              && ledger.net == PayableSum(records)
              && (ledger.withinBounds <==> 0 <= ledger.net <= total.value)
              && ledger.remaining >= 0
              && (if ledger.net <= total.value then ledger.net + ledger.remaining == total.value
                  else ledger.remaining == 0)
  {
    NetMeaning(0, records);
  }

  // ---------- The order of the records ----------

  lemma {:induction false} SumWithout(records: seq<Record>, i: nat)
    requires i < |records|
    ensures PayableSum(records) == Share(records[i]) + PayableSum(records[..i] + records[i + 1..])
  {
    if i == 0 {
      assert records[..0] + records[1..] == records[1..];
    } else {
      SumWithout(records[1..], i - 1);
      assert (records[..i] + records[i + 1..])[1..] == records[1..][..i - 1] + records[1..][i..];
    }
  }

  lemma Without<T>(s: seq<T>, x: T) returns (i: nat)
    requires x in multiset(s)
    ensures i < |s| && s[i] == x && multiset(s[..i] + s[i + 1..]) == multiset(s) - multiset{x}
  {
    i :| 0 <= i < |s| && s[i] == x;
    assert s == s[..i] + [s[i]] + s[i + 1..];
  }

  function Gain(n: int): int {
    if n > 0 then n else 0
  }

  function Loss(n: int): int {
    if n < 0 then n else 0
  }

  /** The sum of the given part of every share. */
  function Parts(part: int -> int, records: seq<Record>): int {
    if records == [] then 0 else part(Share(records[0])) + Parts(part, records[1..])
  }

  function PositiveSum(records: seq<Record>): int {
    Parts(Gain, records)
  }

  function NegativeSum(records: seq<Record>): int {
    Parts(Loss, records)
  }

  lemma {:induction false} SumOfParts(records: seq<Record>)
    ensures PayableSum(records) == PositiveSum(records) + NegativeSum(records)
    ensures NegativeSum(records) <= 0 <= PositiveSum(records)
  {
    if records != [] {
      SumOfParts(records[1..]);
    }
  }

  lemma {:induction false} PartsOfConcat(part: int -> int, a: seq<Record>, b: seq<Record>)
    ensures Parts(part, a + b) == Parts(part, a) + Parts(part, b)
  {
    if a == [] {
      assert a + b == b;
    } else {
      PartsOfConcat(part, a[1..], b);
      assert (a + b)[1..] == a[1..] + b;
    }
  }

  lemma {:induction false} PartsWithout(part: int -> int, records: seq<Record>, i: nat)
    requires i < |records|
    ensures Parts(part, records) == part(Share(records[i])) + Parts(part, records[..i] + records[i + 1..])
  {
    if i == 0 {
      assert records[..0] + records[1..] == records[1..];
    } else {
      PartsWithout(part, records[1..], i - 1);
      assert (records[..i] + records[i + 1..])[1..] == records[1..][..i - 1] + records[1..][i..];
    }
  }

  lemma {:induction false} PartsOfPermutation(part: int -> int, a: seq<Record>, b: seq<Record>)
    requires multiset(a) == multiset(b)
    ensures Parts(part, a) == Parts(part, b)
    decreases |a|
  {
    assert |a| == |multiset(a)| == |multiset(b)| == |b|;
    if a != [] {
      assert a == [a[0]] + a[1..] && a[0] in multiset(a);
      var i := Without(b, a[0]);
      PartsWithout(part, b, i);
      PartsOfPermutation(part, a[1..], b[..i] + b[i + 1..]);
    }
  }

  lemma SumOfPermutation(a: seq<Record>, b: seq<Record>)
    requires multiset(a) == multiset(b)
    ensures PayableSum(a) == PayableSum(b)
  {
    PartsOfPermutation(Gain, a, b);
    PartsOfPermutation(Loss, a, b);
    SumOfParts(a);
    SumOfParts(b);
  }

  /** Whenever the records of one ledger are accepted in two orders, the net is the same. */
  lemma NetIgnoresOrder(total: Id, a: seq<Record>, b: seq<Record>)
    requires multiset(a) == multiset(b)
    requires EvaluateLedger(total, a).Success? && EvaluateLedger(total, b).Success?
    ensures EvaluateLedger(total, a) == EvaluateLedger(total, b)
  {
    LedgerMeaning(total, a);
    LedgerMeaning(total, b);
    SumOfPermutation(a, b);
  }

  function Payment(amount: Id): Record {
    Record(amount, "payment", None)
  }

  function Reversal(amount: int): Record {
    Record(Whole(amount), "reversal", None)
  }

  /** But being accepted does depend on the order: a running sum may be unsafe in one order only. */
  lemma AcceptanceDependsOnOrder()
    ensures var max := MAX_SAFE_INTEGER;
            var a := [Payment(Whole(max)), Payment(Whole(1)), Reversal(-1)];
            var b := [Payment(Whole(max)), Reversal(-1), Payment(Whole(1))];
            && multiset(a) == multiset(b)
            && EvaluateLedger(Whole(max), a) == Failure(UnsafeSum)
            && EvaluateLedger(Whole(max), b) == Success(Ledger(max, 0, true))
  {
    var max := MAX_SAFE_INTEGER;
    var p, q, r := Payment(Whole(max)), Payment(Whole(1)), Reversal(-1);
    assert [p, q, r][1..] == [q, r] && [p, r, q][1..] == [r, q] && [r, q][1..] == [q] && [q][1..] == [];
    assert NetFrom(0, [p, q, r]) == NetFrom(max, [q, r]) == Failure(UnsafeSum);
    assert NetFrom(0, [p, r, q]) == NetFrom(max, [r, q]) == NetFrom(max - 1, [q]) == NetFrom(max, []);
  }

  /** The records with a non-zero part can come first, and their shares then add up to the sum of the parts. */
  lemma {:induction false} PartFirst(part: int -> int, records: seq<Record>) returns (other: seq<Record>, k: nat)
    requires forall n :: part(n) == 0 || part(n) == n
    ensures multiset(other) == multiset(records) && k <= |other| && PayableSum(other[..k]) == Parts(part, records)
  {
    if records == [] {
      other, k := [], 0;
    } else {
      assert records == [records[0]] + records[1..];
      var rest, m := PartFirst(part, records[1..]);
      if part(Share(records[0])) == 0 {
        other, k := rest + [records[0]], m;
        assert other[..k] == rest[..m];
      } else {
        other, k := [records[0]] + rest, m + 1;
        assert other[..k][1..] == rest[..m];
      }
    }
  }

  /** Every running sum lies between the negative and the positive sum. */
  lemma PrefixBounds(records: seq<Record>, k: nat)
    requires k <= |records|
    ensures NegativeSum(records) <= PayableSum(records[..k]) <= PositiveSum(records)
  {
    assert records == records[..k] + records[k..];
    PartsOfConcat(Gain, records[..k], records[k..]);
    PartsOfConcat(Loss, records[..k], records[k..]);
    SumOfParts(records[..k]);
    SumOfParts(records[k..]);
  }

  lemma WellFormedPermutation(a: seq<Record>, b: seq<Record>)
    requires multiset(a) == multiset(b) && WellFormed(a)
    ensures WellFormed(b)
  {
    forall i | 0 <= i < |b| ensures RecordOk(b[i]) {
      assert b[i] in multiset(b);
      assert b[i] in a;
    }
  }

  predicate SumsFit(records: seq<Record>) {
    PositiveSum(records) <= MAX_SAFE_INTEGER && -MAX_SAFE_INTEGER <= NegativeSum(records)
  }

  lemma FittingSumsAreSafe(records: seq<Record>, other: seq<Record>)
    requires multiset(other) == multiset(records) && SumsFit(records)
    ensures SumsSafe(other)
  {
    PartsOfPermutation(Gain, other, records);
    PartsOfPermutation(Loss, other, records);
    forall k | 0 <= k <= |other| ensures IsSafe(PayableSum(other[..k])) {
      PrefixBounds(other, k);
    }
  }

  /**
  A ledger is accepted in every order of its records exactly when it is well formed, its positive
  payable amounts add up to a safe integer, and so do its negative ones.
  */
  lemma AcceptedInEveryOrder(total: Id, records: seq<Record>)
    ensures (forall other: seq<Record> | multiset(other) == multiset(records) :: EvaluateLedger(total, other).Success?)
       <==> IsSafeInteger(total) && total.value >= 0 && WellFormed(records) && SumsFit(records)
  {
    if forall other: seq<Record> | multiset(other) == multiset(records) :: EvaluateLedger(total, other).Success? {
      assert EvaluateLedger(total, records).Success?;
      LedgerMeaning(total, records);
      var gainsFirst, k := PartFirst(Gain, records);
      LedgerMeaning(total, gainsFirst);
      var lossesFirst, m := PartFirst(Loss, records);
      LedgerMeaning(total, lossesFirst);
    }
    if IsSafeInteger(total) && total.value >= 0 && WellFormed(records) && SumsFit(records) {
      forall other: seq<Record> | multiset(other) == multiset(records) ensures EvaluateLedger(total, other).Success? {
        WellFormedPermutation(records, other);
        FittingSumsAreSafe(records, other);
        LedgerMeaning(total, other);
      }
    }
  }

  /** From a safe net towards a safe net there is always a record to go on with. */
  lemma NextSafe(net: int, records: seq<Record>) returns (i: nat)
    requires records != [] && WellFormed(records) && IsSafe(net) && IsSafe(net + PayableSum(records))
    ensures i < |records| && IsSafe(net + Share(records[i]))
  {
    if j :| 0 <= j < |records| && (if net >= 0 then Share(records[j]) <= 0 else Share(records[j]) >= 0) {
      i := j;
      assert IsPayable(records[i]).Success?;
    } else {
      i := 0;
      SameSigns(net >= 0, records[1..]);
    }
  }

  lemma {:induction false} SameSigns(positive: bool, records: seq<Record>)
    requires forall i | 0 <= i < |records| :: if positive then Share(records[i]) > 0 else Share(records[i]) < 0
    ensures if positive then PayableSum(records) >= 0 else PayableSum(records) <= 0
  {
    if records != [] {
      SameSigns(positive, records[1..]);
    }
  }

  lemma Others(records: seq<Record>, i: nat) returns (others: seq<Record>)
    requires i < |records| && WellFormed(records)
    ensures |others| < |records| && WellFormed(others)
    ensures multiset(records) == multiset{records[i]} + multiset(others)
    ensures PayableSum(records) == Share(records[i]) + PayableSum(others)
  {
    others := records[..i] + records[i + 1..];
    SumWithout(records, i);
    assert records == records[..i] + [records[i]] + records[i + 1..];
  }

  /** A next record before an order of the others. */
  lemma {:induction false} SafeOrder(net: int, records: seq<Record>) returns (other: seq<Record>)
    requires WellFormed(records) && IsSafe(net) && IsSafe(net + PayableSum(records))
    ensures multiset(other) == multiset(records) && SumsSafeFrom(net, other)
    decreases |records|
  {
    other := [];
    if records != [] {
      var i := NextSafe(net, records);
      var others := Others(records, i);
      var rest := SafeOrder(net + Share(records[i]), others);
      other := [records[i]] + rest;
      assert other[1..] == rest;
      SumsSafeStep(net, other);
    }
  }

  /** It is accepted in some order exactly when it is well formed and its net is a safe integer. */
  lemma AcceptedInSomeOrder(total: Id, records: seq<Record>)
    ensures (exists other: seq<Record> :: multiset(other) == multiset(records) && EvaluateLedger(total, other).Success?)
       <==> IsSafeInteger(total) && total.value >= 0 && WellFormed(records) && IsSafe(PayableSum(records))
  {
    if other: seq<Record> :| multiset(other) == multiset(records) && EvaluateLedger(total, other).Success? {
      LedgerMeaning(total, other);
      WellFormedPermutation(other, records);
      SumOfPermutation(other, records);
      assert other[..|other|] == other;
    }
    if IsSafeInteger(total) && total.value >= 0 && WellFormed(records) && IsSafe(PayableSum(records)) {
      var other := SafeOrder(0, records);
      WellFormedPermutation(records, other);
      LedgerMeaning(total, other);
    }
  }

  // ---------- One more payment ----------

  /** The caller goes on only if the ledger is within bounds and the payment would not exceed the total. */
  predicate Admits(total: Id, records: seq<Record>, incoming: Id) {
    var capacity := EvaluateCapacity(total, records, incoming);
    capacity.Success? && capacity.value.ledgerWithinBounds && !capacity.value.wouldExceed
  }

  predicate InBounds(total: Id, records: seq<Record>) {
    var ledger := EvaluateLedger(total, records);
    ledger.Success? && ledger.value.withinBounds
  }

  /** An admitted payment can be added: the evaluator accepts the longer ledger, and it is within bounds. */
  lemma AdmittedStaysInBounds(total: Id, records: seq<Record>, incoming: Id)
    requires Admits(total, records, incoming)
    ensures InBounds(total, records + [Payment(incoming)])
    ensures PayableSum(records + [Payment(incoming)]) == PayableSum(records) + incoming.value
  {
    var more := records + [Payment(incoming)];
    LedgerMeaning(total, records);
    LedgerMeaning(total, more);
    SumOfConcat(records, [Payment(incoming)]);
    assert PayableSum([Payment(incoming)]) == Share(Payment(incoming)) + PayableSum([]);
    forall k | 0 <= k <= |more| ensures IsSafe(PayableSum(more[..k])) {
      if k <= |records| {
        assert more[..k] == records[..k];
      } else {
        assert more[..k] == more;
      }
    }
  }

  /**
  The capacity is known for a positive safe amount on an accepted ledger if together they stay safe. It
  counts the amount on top of the net, and what that leaves of the total, if anything.
  */
  lemma CapacityMeaning(total: Id, records: seq<Record>, incoming: Id)
    ensures EvaluateCapacity(total, records, incoming).Success? <==>
              && IsSafeInteger(incoming) && incoming.value > 0 && EvaluateLedger(total, records).Success?
              && IsSafe(PayableSum(records) + incoming.value)
    ensures EvaluateCapacity(total, records, incoming).Success? ==>
            var capacity := EvaluateCapacity(total, records, incoming).value;
            && capacity.paid == PayableSum(records) && capacity.totalPaid == PayableSum(records) + incoming.value
            && (capacity.wouldExceed <==> capacity.totalPaid > total.value)
            && (if capacity.wouldExceed then capacity.remaining == 0
                else capacity.totalPaid + capacity.remaining == total.value)
            && (capacity.ledgerWithinBounds <==> InBounds(total, records))
  {
    LedgerMeaning(total, records);
  }

  /** Admitted is exactly: a positive safe amount that, added to a ledger within bounds, stays within the total. */
  lemma AdmitsMeaning(total: Id, records: seq<Record>, incoming: Id)
    ensures Admits(total, records, incoming) <==>
      && InBounds(total, records) && IsSafeInteger(incoming) && incoming.value > 0
      && PayableSum(records) + incoming.value <= total.value
  {
    LedgerMeaning(total, records);
  }
}
