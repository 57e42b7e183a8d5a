/**
The transactions that change the active price of a supplier and SKU, statement by statement: approved
changes (apps/api/src/modules/approvals/supply-approval-effects.ts) and direct writes of factories
(apps/api/src/modules/suppliers/writes.ts). Any number of them interleave. Both lock the version row
of the price; an approval does so before it reads the active price, a direct write after.
*/
module PriceTransactions {
  import opened Wrappers
  import opened RowLocks
  import opened ColumnReference
  import opened ApprovalEffects
  import opened FactoryWrites

  /**
  One transaction: what it writes, the version it expects, the active price it has read under lock
  together with the version at that moment, and whether it has the version row and has written.
  */
  datatype Writer = Writer(
    direct: bool, change: Change, expected: int,
    read: Option<Reading>, versionLocked: bool, written: bool)

  datatype Reading = Reading(current: Option<nat>, version: int)

  datatype State = State(prices: seq<Price>, versions: map<Resource, int>, writers: map<nat, Writer>)

  datatype Step =
    | Begin(n: nat, direct: bool, change: Change, expected: int)
    | ReadActive(n: nat)
    | LockVersion(n: nat)
    | Write(n: nat)
    | Commit(n: nat)
    | Abort(n: nat)

  predicate SameKey(a: Change, b: Change) {
    a.supplier == b.supplier && a.sku == b.sku
  }

  function VersionRow(change: Change): Resource {
    PriceVersion(PriceKey(change.supplier, change.sku))
  }

  function CurrentVersion(s: State, change: Change): int {
    VersionOf(s.versions, VersionRow(change))
  }

  function Current(s: State, change: Change): Option<nat> {
    LatestActive(s.prices, change.supplier, change.sku)
  }

  // ---------- Locks ----------

  /** A locking read waits for a writer that has locked the row it finds, or has written behind it. */
  predicate MayRead(s: State, n: nat)
    requires n in s.writers
  {
    forall m | m in s.writers && m != n && SameKey(s.writers[m].change, s.writers[n].change) ::
      && !s.writers[m].written
      && (s.writers[m].read.Some? && s.writers[m].read.value.current.Some? ==>
            s.writers[m].read.value.current != Current(s, s.writers[n].change))
  }

  predicate VersionFree(s: State, n: nat)
    requires n in s.writers
  {
    forall m | m in s.writers && m != n && s.writers[m].versionLocked ::
      VersionRow(s.writers[m].change) != VersionRow(s.writers[n].change)
  }

  /** A locking read that found no row has locked the gap, and an insert waits for it. */
  predicate GapFree(s: State, n: nat)
    requires n in s.writers
  {
    forall m | m in s.writers && m != n && SameKey(s.writers[m].change, s.writers[n].change) ::
      s.writers[m].read.Some? ==> s.writers[m].read.value.current.Some?
  }

  /** gaps: the isolation level locks gaps, as repeatable read does and read committed does not. */
  predicate Enabled(gaps: bool, s: State, step: Step) {
    match step
    case Begin(n, _, _, _) => n !in s.writers
    case ReadActive(n) =>
      n in s.writers && s.writers[n].read.None? && s.writers[n].versionLocked == !s.writers[n].direct && MayRead(s, n)
    case LockVersion(n) =>
      && n in s.writers && !s.writers[n].versionLocked && s.writers[n].read.Some? == s.writers[n].direct
      && VersionFree(s, n)
    case Write(n) =>
      && n in s.writers && s.writers[n].read.Some? && s.writers[n].versionLocked && !s.writers[n].written
      && (gaps ==> GapFree(s, n))
    case Commit(n) => n in s.writers && s.writers[n].written && s.writers[n].read.Some?
    case Abort(n) => n in s.writers
  }

  // ---------- The statements ----------

  /** What a writer finds wrong with the active price it reads. */
  predicate Objects(s: State, w: Writer) {
    var current := Current(s, w.change);
    if w.direct then current.Some? && w.change.effectiveFrom <= s.prices[current.value].effectiveFrom
    else current != w.change.currentAgreement
  }

  function Gone(s: State, n: nat): State {
    s.(writers := s.writers - {n})
  }

  function With(s: State, n: nat, w: Writer): State {
    s.(writers := s.writers[n := w])
  }

  /** UPDATE ... WHERE id = ? AND status = 'active' changes no row. */
  predicate NothingToRetire(s: State, current: Option<nat>) {
    current.Some? && (current.value >= |s.prices| || !s.prices[current.value].active)
  }

  function AfterCommit(s: State, n: nat): State
    requires n in s.writers && s.writers[n].read.Some?
  {
    var w := s.writers[n];
    var current := w.read.value.current;
    if NothingToRetire(s, current) || CurrentVersion(s, w.change) != w.expected then Gone(s, n)
    else
      State(Replace(s.prices, w.change.(currentAgreement := current)),
            s.versions[VersionRow(w.change) := w.expected + 1], s.writers - {n})
  }

  /** A transaction that is refused, aborted or chosen by the deadlock detection is rolled back. */
  function Apply(gaps: bool, s: State, step: Step): State
    requires Enabled(gaps, s, step)
  {
    match step
    case Begin(n, direct, change, expected) => With(s, n, Writer(direct, change, expected, None, false, false))
    case ReadActive(n) =>
      var w := s.writers[n];
      if Objects(s, w) then Gone(s, n)
      else With(s, n, w.(read := Some(Reading(Current(s, w.change), CurrentVersion(s, w.change)))))
    case LockVersion(n) =>
      if CurrentVersion(s, s.writers[n].change) != s.writers[n].expected then Gone(s, n)
      else With(s, n, s.writers[n].(versionLocked := true))
    case Write(n) => With(s, n, s.writers[n].(written := true))
    case Commit(n) => AfterCommit(s, n)
    case Abort(n) => Gone(s, n)
  }

  // ---------- The version and the active price of other keys ----------

  /** Where the digits of the supplier end is where the colon is. */
  lemma ColonIsUnique(x: string, sku: string, y: string, other: string)
    requires (forall i | 0 <= i < |x| :: IsDigit(x[i])) && (forall i | 0 <= i < |y| :: IsDigit(y[i]))
    requires x + ":" + sku == y + ":" + other
    ensures x == y && sku == other
  {
    var text := x + ":" + sku;
    assert text[|x|] == ':' && forall i | 0 <= i < |x| :: text[i] == x[i];
    assert text[|y|] == (y + ":" + other)[|y|] == ':' && forall i | 0 <= i < |y| :: text[i] == y[i];
    assert x == text[..|x|] && y == text[..|y|] && sku == text[|x| + 1..] && other == text[|y| + 1..];
  }

  lemma OneKeyPerVersionRow(a: Change, b: Change)
    ensures VersionRow(a) == VersionRow(b) <==> SameKey(a, b)
  {
    if VersionRow(a) == VersionRow(b) {
      ColonIsUnique(Decimal(a.supplier), a.sku, Decimal(b.supplier), b.sku);
      DecimalReadsBack(a.supplier);
      DecimalReadsBack(b.supplier);
    }
  }

  lemma {:induction false} SameLatest(a: seq<Price>, b: seq<Price>, supplier: nat, sku: string)
    requires |a| == |b|
    requires forall i | 0 <= i < |a| ::
               && (ActiveFor(a[i], supplier, sku) <==> ActiveFor(b[i], supplier, sku))
               && a[i].effectiveFrom == b[i].effectiveFrom
    ensures LatestActive(a, supplier, sku) == LatestActive(b, supplier, sku)
  {
    if a != [] {
      SameLatest(a[..|a| - 1], b[..|b| - 1], supplier, sku);
    }
  }

  /** Replacing the active price of one supplier and SKU changes that of no other. */
  lemma ReplaceElsewhere(prices: seq<Price>, change: Change, supplier: nat, sku: string)
    requires change.supplier != supplier || change.sku != sku
    requires LatestActive(prices, change.supplier, change.sku) == change.currentAgreement
    ensures LatestActive(Replace(prices, change), supplier, sku) == LatestActive(prices, supplier, sku)
  {
    var after := Replace(prices, change);
    assert after[|prices|] == Proposed(change) && after[..|prices|][..] == after[..|prices|];
    SameLatest(after[..|prices|], prices, supplier, sku);
  }

  // ---------- What every interleaving keeps ----------

  /** What a writer has read is the active price, still. */
  ghost predicate UpToDate(s: State, w: Writer) {
    w.read.Some? ==> w.read.value.current == Current(s, w.change)
  }

  /** Whoever has the version row has it alone, and at the version it expects. */
  ghost predicate VersionOk(s: State, n: nat)
    requires n in s.writers
  {
    s.writers[n].versionLocked ==> CurrentVersion(s, s.writers[n].change) == s.writers[n].expected && VersionFree(s, n)
  }

  ghost predicate OrderOk(w: Writer) {
    && (w.written ==> w.versionLocked && w.read.Some?)
    && (w.read.Some? && !w.direct ==> w.versionLocked)
    && (w.versionLocked && w.direct ==> w.read.Some?)
  }

  /** The check that a writer has made on the price it read still stands. */
  ghost predicate CheckOk(s: State, w: Writer) {
    w.read.Some? ==>
      var current := w.read.value.current;
      if !w.direct then current == w.change.currentAgreement
      else current.Some? ==>
             current.value < |s.prices| && s.prices[current.value].effectiveFrom < w.change.effectiveFrom
  }

  ghost predicate Locks(s: State) {
    && OneActivePrice(s.prices)
    && forall n | n in s.writers :: VersionOk(s, n) && OrderOk(s.writers[n]) && CheckOk(s, s.writers[n])
  }

  /**
  What was read is up to date as long as the version stays; once the version has moved on, a price is
  active where the writer has found none. An approval reads at the version that it expects.
  */
  ghost predicate ReadingOk(s: State, w: Writer) {
    w.read.Some? ==>
      var reading := w.read.value;
      && reading.version <= CurrentVersion(s, w.change)
      && (!w.direct ==> reading.version == w.expected)
      && if reading.version == CurrentVersion(s, w.change) then UpToDate(s, w)
         else reading.current.None? && Current(s, w.change).Some?
  }

  /** No two writers have read, and so locked, the same price. */
  ghost predicate RowsApart(s: State) {
    forall m, n | && m in s.writers && n in s.writers && m != n && SameKey(s.writers[m].change, s.writers[n].change)
                  && s.writers[m].read.Some? && s.writers[n].read.Some? ::
      s.writers[m].read.value.current.Some? ==>
        s.writers[m].read.value.current != s.writers[n].read.value.current
  }

  /** The invariant that row locks and the version row give. */
  ghost predicate VersionInv(s: State) {
    Locks(s) && RowsApart(s) && forall n | n in s.writers :: ReadingOk(s, s.writers[n])
  }

  /** Two readers of one key have both found nothing, and neither has written. */
  ghost predicate ReadersOk(s: State) {
    forall m, n | && m in s.writers && n in s.writers && m != n && SameKey(s.writers[m].change, s.writers[n].change)
                  && s.writers[m].read.Some? && s.writers[n].read.Some? ::
      s.writers[m].read.value.current.None? && !s.writers[m].written
  }

  /** The invariant that gap locks give. */
  ghost predicate GapInv(s: State) {
    Locks(s) && ReadersOk(s) && forall n | n in s.writers :: UpToDate(s, s.writers[n])
  }

  /** A writer that commits has read the active price at the version that it expects. */
  predicate ReadAtExpected(s: State, step: Step) {
    step.Commit? && step.n in s.writers && s.writers[step.n].read.Some? ==>
      s.writers[step.n].read.value.version == s.writers[step.n].expected
  }

  /** No direct writer reads with an expected version that the price has yet to reach. */
  predicate NotAhead(s: State, step: Step) {
    step.ReadActive? && step.n in s.writers && s.writers[step.n].direct ==>
      s.writers[step.n].expected <= CurrentVersion(s, s.writers[step.n].change)
  }

  /** A commit of a writer that is up to date replaces the active price. */
  lemma CommitKeepsLocks(s: State, n: nat)
    requires Locks(s) && n in s.writers && s.writers[n].written && s.writers[n].read.Some? && UpToDate(s, s.writers[n])
    ensures Locks(AfterCommit(s, n))
  {
    var t, w := AfterCommit(s, n), s.writers[n];
    assert VersionOk(s, n) && OrderOk(w);
    if t != Gone(s, n) {
      ReplaceKeepsOneActive(s.prices, w.change.(currentAgreement := w.read.value.current));
    }
    forall m | m in t.writers ensures VersionOk(t, m) && OrderOk(t.writers[m]) && CheckOk(t, t.writers[m]) {
      assert VersionOk(s, m) && OrderOk(s.writers[m]) && CheckOk(s, s.writers[m]);
    }
  }

  lemma CommitElsewhere(s: State, n: nat, other: Change)
    requires n in s.writers && s.writers[n].read.Some? && UpToDate(s, s.writers[n])
    requires !SameKey(s.writers[n].change, other)
    ensures Current(AfterCommit(s, n), other) == Current(s, other)
  {
    var w := s.writers[n];
    ReplaceElsewhere(s.prices, w.change.(currentAgreement := w.read.value.current), other.supplier, other.sku);
  }

  lemma OwnStepKeepsLocks(gaps: bool, s: State, step: Step)
    requires Locks(s) && Enabled(gaps, s, step) && !step.Commit? && step.n in Apply(gaps, s, step).writers
    ensures var t := Apply(gaps, s, step);
            VersionOk(t, step.n) && OrderOk(t.writers[step.n]) && CheckOk(t, t.writers[step.n])
  {
    if step.n in s.writers {
      assert VersionOk(s, step.n) && OrderOk(s.writers[step.n]) && CheckOk(s, s.writers[step.n]);
    }
  }

  lemma OtherStepKeepsLocks(gaps: bool, s: State, step: Step, m: nat)
    requires Locks(s) && Enabled(gaps, s, step) && !step.Commit? && m in Apply(gaps, s, step).writers && m != step.n
    ensures var t := Apply(gaps, s, step);
            VersionOk(t, m) && OrderOk(t.writers[m]) && CheckOk(t, t.writers[m])
  {
    assert VersionOk(s, m) && OrderOk(s.writers[m]) && CheckOk(s, s.writers[m]);
  }

  lemma StepKeepsLocks(gaps: bool, s: State, step: Step)
    requires Locks(s) && Enabled(gaps, s, step) && !step.Commit?
    ensures Locks(Apply(gaps, s, step))
  {
    var t := Apply(gaps, s, step);
    forall m | m in t.writers ensures VersionOk(t, m) && OrderOk(t.writers[m]) && CheckOk(t, t.writers[m]) {
      if m == step.n {
        OwnStepKeepsLocks(gaps, s, step);
      } else {
        OtherStepKeepsLocks(gaps, s, step, m);
      }
    }
  }

  lemma StepKeepsRowsApart(gaps: bool, s: State, step: Step)
    requires VersionInv(s) && Enabled(gaps, s, step)
    ensures RowsApart(Apply(gaps, s, step))
  {
    if step.ReadActive? && Apply(gaps, s, step) != Gone(s, step.n) {
      assert MayRead(s, step.n);
    }
  }

  /**
  A commit keeps one active price exactly if its writer has read at the version that it expects. One
  that has read at an earlier version has found no price, and puts a second one beside what is active.
  */
  lemma CommitExactly(gaps: bool, s: State, n: nat)
    requires VersionInv(s) && Enabled(gaps, s, Commit(n))
    ensures OneActivePrice(AfterCommit(s, n).prices) <==> ReadAtExpected(s, Commit(n))
    ensures ReadAtExpected(s, Commit(n)) <==> UpToDate(s, s.writers[n])
    ensures !ReadAtExpected(s, Commit(n)) ==>
              s.writers[n].direct && s.writers[n].read.value.current.None? && Current(s, s.writers[n].change).Some?
  {
    var w, t := s.writers[n], AfterCommit(s, n);
    assert VersionOk(s, n) && OrderOk(w) && ReadingOk(s, w);
    if UpToDate(s, w) {
      CommitKeepsLocks(s, n);
    } else {
      var i := Current(s, w.change).value;
      LatestActiveIsLatest(s.prices, w.change.supplier, w.change.sku);
      assert ActiveFor(t.prices[i], w.change.supplier, w.change.sku);
      assert ActiveFor(t.prices[|s.prices|], w.change.supplier, w.change.sku);
    }
  }

  lemma CommitKeepsReading(s: State, n: nat, m: nat)
    requires VersionInv(s) && n in s.writers && s.writers[n].written && s.writers[n].read.Some?
    requires UpToDate(s, s.writers[n]) && m in s.writers && m != n
    ensures ReadingOk(AfterCommit(s, n), s.writers[m])
  {
    var w, t := s.writers[n], AfterCommit(s, n);
    assert VersionOk(s, n) && OrderOk(w) && ReadingOk(s, w) && ReadingOk(s, s.writers[m]);
    if !SameKey(w.change, s.writers[m].change) {
      CommitElsewhere(s, n, s.writers[m].change);
      OneKeyPerVersionRow(w.change, s.writers[m].change);
    } else if t != Gone(s, n) {
      CommitKeepsLocks(s, n);
      var i := |s.prices|;
      assert ActiveFor(t.prices[i], w.change.supplier, w.change.sku);
      LatestActiveIsLatest(t.prices, w.change.supplier, w.change.sku);
    }
  }

  lemma StepKeepsReading(gaps: bool, s: State, step: Step, m: nat)
    requires Enabled(gaps, s, step) && !step.Commit? && m in Apply(gaps, s, step).writers
    requires m in s.writers ==> ReadingOk(s, s.writers[m]) && VersionOk(s, m) && OrderOk(s.writers[m])
    ensures ReadingOk(Apply(gaps, s, step), Apply(gaps, s, step).writers[m])
  {
  }

  /** Of all steps exactly a commit of a writer that has read at another version ends the invariant. */
  lemma StepKeepsVersionInv(gaps: bool, s: State, step: Step)
    requires VersionInv(s) && Enabled(gaps, s, step)
    ensures VersionInv(Apply(gaps, s, step)) <==> ReadAtExpected(s, step)
    ensures OneActivePrice(Apply(gaps, s, step).prices) <==> ReadAtExpected(s, step)
  {
    var t := Apply(gaps, s, step);
    if step.Commit? {
      CommitExactly(gaps, s, step.n);
      if ReadAtExpected(s, step) {
        CommitKeepsLocks(s, step.n);
        forall m | m in t.writers ensures ReadingOk(t, t.writers[m]) {
          CommitKeepsReading(s, step.n, m);
        }
      }
    } else {
      StepKeepsLocks(gaps, s, step);
      forall m | m in t.writers ensures ReadingOk(t, t.writers[m]) {
        if m in s.writers {
          assert ReadingOk(s, s.writers[m]) && VersionOk(s, m) && OrderOk(s.writers[m]);
        }
        StepKeepsReading(gaps, s, step, m);
      }
    }
    StepKeepsRowsApart(gaps, s, step);
  }

  /** Two readers after a step other than a read were readers before it; and what they read, nobody has replaced. */
  lemma ReadersBefore(s: State, step: Step, m: nat, n: nat)
    requires ReadersOk(s) && Enabled(true, s, step) && !step.ReadActive?
    requires var t := Apply(true, s, step);
             && m in t.writers && n in t.writers && m != n && SameKey(t.writers[m].change, t.writers[n].change)
             && t.writers[m].read.Some? && t.writers[n].read.Some?
    ensures Apply(true, s, step).writers[m].read.value.current.None? && !Apply(true, s, step).writers[m].written
  {
    assert m in s.writers && n in s.writers;
  }

  lemma NewReader(s: State, n: nat, m: nat)
    requires GapInv(s) && Enabled(true, s, ReadActive(n)) && m in s.writers && m != n && s.writers[m].read.Some?
    requires SameKey(s.writers[m].change, s.writers[n].change)
    ensures s.writers[m].read.value.current.None? && !s.writers[m].written
    ensures Current(s, s.writers[n].change).None?
  {
    assert UpToDate(s, s.writers[m]);
  }

  lemma StepKeepsReaders(s: State, step: Step)
    requires GapInv(s) && Enabled(true, s, step)
    ensures ReadersOk(Apply(true, s, step))
  {
    var t := Apply(true, s, step);
    forall m, n | && m in t.writers && n in t.writers && m != n && SameKey(t.writers[m].change, t.writers[n].change)
                  && t.writers[m].read.Some? && t.writers[n].read.Some?
      ensures t.writers[m].read.value.current.None? && !t.writers[m].written
    {
      if !step.ReadActive? {
        ReadersBefore(s, step, m, n);
      } else if m == step.n {
        NewReader(s, m, n);
      } else if n == step.n {
        NewReader(s, n, m);
      } else {
        assert m in s.writers && n in s.writers;
      }
    }
  }

  lemma StepKeepsGapInv(s: State, step: Step)
    requires GapInv(s) && Enabled(true, s, step)
    ensures GapInv(Apply(true, s, step))
  {
    var t := Apply(true, s, step);
    if step.Commit? {
      assert UpToDate(s, s.writers[step.n]);
      CommitKeepsLocks(s, step.n);
    } else {
      StepKeepsLocks(true, s, step);
    }
    StepKeepsReaders(s, step);
    forall m | m in t.writers ensures UpToDate(t, t.writers[m]) {
      if m in s.writers {
        assert UpToDate(s, s.writers[m]);
        if step.Commit? && !SameKey(s.writers[step.n].change, s.writers[m].change) {
          CommitElsewhere(s, step.n, s.writers[m].change);
        }
      }
    }
  }

  // ---------- Whole runs ----------

  /** Step i leads from one state to the next. */
  ghost predicate Linked(gaps: bool, run: seq<State>, steps: seq<Step>, i: nat) {
    && i < |steps| && i + 1 < |run|
    && Enabled(gaps, run[i], steps[i]) && run[i + 1] == Apply(gaps, run[i], steps[i])
  }

  ghost predicate IsRun(gaps: bool, run: seq<State>, steps: seq<Step>) {
    && |run| == |steps| + 1
    && OneActivePrice(run[0].prices) && run[0].writers == map[]
    && forall i: nat | i < |steps| :: Linked(gaps, run, steps, i)
  }

  lemma {:induction false} RunKeepsGapInv(run: seq<State>, steps: seq<Step>, n: nat)
    requires IsRun(true, run, steps) && n < |run|
    ensures GapInv(run[n])
    decreases n
  {
    if n > 0 {
      RunKeepsGapInv(run, steps, n - 1);
      assert Linked(true, run, steps, n - 1);
      StepKeepsGapInv(run[n - 1], steps[n - 1]);
    }
  }

  lemma {:induction false} RunKeepsVersionInv(gaps: bool, run: seq<State>, steps: seq<Step>, n: nat)
    requires IsRun(gaps, run, steps) && n < |run|
    requires forall i | 0 <= i < n :: ReadAtExpected(run[i], steps[i])
    ensures VersionInv(run[n])
    decreases n
  {
    if n > 0 {
      RunKeepsVersionInv(gaps, run, steps, n - 1);
      assert Linked(gaps, run, steps, n - 1);
      StepKeepsVersionInv(gaps, run[n - 1], steps[n - 1]);
    }
  }

  /**
  With or without gap locks: there is one active price per supplier and SKU all the time exactly if
  each writer that commits has read at the version that it expects.
  */
  lemma {:induction false} OneActiveExactly(gaps: bool, run: seq<State>, steps: seq<Step>, n: nat)
    requires IsRun(gaps, run, steps) && n < |run|
    ensures (forall k | 0 <= k <= n :: OneActivePrice(run[k].prices))
       <==> (forall i | 0 <= i < n :: ReadAtExpected(run[i], steps[i]))
    decreases n
  {
    if n > 0 {
      OneActiveExactly(gaps, run, steps, n - 1);
      if forall i | 0 <= i < n - 1 :: ReadAtExpected(run[i], steps[i]) {
        RunKeepsVersionInv(gaps, run, steps, n - 1);
        assert Linked(gaps, run, steps, n - 1);
        StepKeepsVersionInv(gaps, run[n - 1], steps[n - 1]);
      }
    }
  }

  /** The run has gap locks, or every writer that commits in it has read at the version that it expects. */
  ghost predicate Guarded(gaps: bool, run: seq<State>, steps: seq<Step>) {
    gaps || forall i | 0 <= i < |steps| && i < |run| :: ReadAtExpected(run[i], steps[i])
  }

  ghost predicate NoneAhead(s: State) {
    forall n | n in s.writers && s.writers[n].direct && s.writers[n].read.Some? ::
      s.writers[n].expected <= s.writers[n].read.value.version
  }

  lemma StepKeepsNoneAhead(gaps: bool, s: State, step: Step)
    requires VersionInv(s) && NoneAhead(s) && Enabled(gaps, s, step) && NotAhead(s, step)
    ensures NoneAhead(Apply(gaps, s, step)) && ReadAtExpected(s, step)
  {
    if step.Commit? {
      assert VersionOk(s, step.n) && OrderOk(s.writers[step.n]) && ReadingOk(s, s.writers[step.n]);
    }
  }

  lemma {:induction false} RunOfNoneAhead(gaps: bool, run: seq<State>, steps: seq<Step>, n: nat)
    requires IsRun(gaps, run, steps) && n < |run| && forall i | 0 <= i < n :: NotAhead(run[i], steps[i])
    ensures NoneAhead(run[n]) && forall i | 0 <= i < n :: ReadAtExpected(run[i], steps[i])
    decreases n
  {
    if n > 0 {
      RunOfNoneAhead(gaps, run, steps, n - 1);
      RunKeepsVersionInv(gaps, run, steps, n - 1);
      assert Linked(gaps, run, steps, n - 1);
      StepKeepsNoneAhead(gaps, run[n - 1], steps[n - 1]);
    }
  }

  /** It is enough that no direct writer is ahead of the version when it reads. */
  lemma NotAheadIsGuarded(gaps: bool, run: seq<State>, steps: seq<Step>)
    requires IsRun(gaps, run, steps) && forall i | 0 <= i < |steps| :: NotAhead(run[i], steps[i])
    ensures Guarded(gaps, run, steps)
  {
    RunOfNoneAhead(gaps, run, steps, |steps|);
  }

  /** There is one active price per supplier and SKU in every interleaving of their statements. */
  lemma OneActiveAlways(gaps: bool, run: seq<State>, steps: seq<Step>, n: nat)
    requires IsRun(gaps, run, steps) && n < |run| && Guarded(gaps, run, steps)
    ensures OneActivePrice(run[n].prices) && Locks(run[n])
  {
    if gaps {
      RunKeepsGapInv(run, steps, n);
    } else {
      RunKeepsVersionInv(gaps, run, steps, n);
    }
  }

  /** A writer that is about to commit replaces the price that is active now, and its checks hold now. */
  lemma CommitsOnTheCurrentPrice(gaps: bool, run: seq<State>, steps: seq<Step>, i: nat)
    requires IsRun(gaps, run, steps) && i < |steps| && steps[i].Commit? && Guarded(gaps, run, steps)
    ensures var s, n := run[i], steps[i].n;
            && n in s.writers && UpToDate(s, s.writers[n]) && CheckOk(s, s.writers[n])
            && CurrentVersion(s, s.writers[n].change) == s.writers[n].expected
  {
    OneActiveAlways(gaps, run, steps, i);
    var s, n := run[i], steps[i].n;
    assert Linked(gaps, run, steps, i);
    assert VersionOk(s, n) && OrderOk(s.writers[n]) && CheckOk(s, s.writers[n]);
    if gaps {
      RunKeepsGapInv(run, steps, i);
    } else {
      RunKeepsVersionInv(gaps, run, steps, i);
      CommitExactly(gaps, s, n);
    }
  }

  /** The statements of a direct write are, at its commit, the one step WritePrice on the tables of that moment. */
  lemma DirectCommitIsAtomic(gaps: bool, run: seq<State>, steps: seq<Step>, i: nat, t: Tables, w: PriceWrite)
    requires IsRun(gaps, run, steps) && i < |steps| && steps[i].Commit? && Guarded(gaps, run, steps)
    requires steps[i].n in run[i].writers && run[i].writers[steps[i].n].direct
    requires t.prices == run[i].prices && t.versions == run[i].versions
    requires HasActiveRelation(t.relations, w.factory, w.supplier, w.sku) && IdOk(w.objectVersion) && w.claimHeld
    requires run[i].writers[steps[i].n].change == AsChange(w, run[i].writers[steps[i].n].change.currentAgreement)
    requires run[i].writers[steps[i].n].expected == w.objectVersion.value
    ensures WritePrice(t, w).Success?
    ensures WritePrice(t, w).value.prices == run[i + 1].prices && WritePrice(t, w).value.versions == run[i + 1].versions
  {
    CommitsOnTheCurrentPrice(gaps, run, steps, i);
    var s, n := run[i], steps[i].n;
    assert Linked(gaps, run, steps, i);
    assert run[i + 1] == AfterCommit(s, n);
    var current := Current(s, s.writers[n].change);
    assert s.writers[n].change.(currentAgreement := current) == AsChange(w, current);
  }

  /** And those of an approved change are the one step of the approval effect. */
  lemma ApprovalCommitIsAtomic(gaps: bool, run: seq<State>, steps: seq<Step>, i: nat, t: Tables, approval: Approval,
                               actor: int)
    requires IsRun(gaps, run, steps) && i < |steps| && steps[i].Commit? && Guarded(gaps, run, steps)
    requires steps[i].n in run[i].writers && !run[i].writers[steps[i].n].direct
    requires t.prices == run[i].prices && t.versions == run[i].versions
    requires approval.entity in t.changes && t.changes[approval.entity] == run[i].writers[steps[i].n].change
    requires run[i].writers[steps[i].n].change.decision.None? && approval.payload.Fields?
    requires approval.payload.priceResource
          == Some(PriceKey(t.changes[approval.entity].supplier, t.changes[approval.entity].sku))
    requires IdOk(approval.payload.priceVersion)
    requires approval.payload.priceVersion.value == run[i].writers[steps[i].n].expected
    requires VersionRow(t.changes[approval.entity]) in t.versions
    ensures ApplySupplierPrice(t, approval, Approved, actor).Success?
    ensures var after := ApplySupplierPrice(t, approval, Approved, actor).value;
            after.prices == run[i + 1].prices && after.versions == run[i + 1].versions
  {
    CommitsOnTheCurrentPrice(gaps, run, steps, i);
    var s, n := run[i], steps[i].n;
    assert Linked(gaps, run, steps, i);
    assert run[i + 1] == AfterCommit(s, n);
    assert s.writers[n].change.(currentAgreement := Current(s, s.writers[n].change)) == s.writers[n].change;
  }

  // ---------- Ways through the machine ----------

  ghost predicate ReachableFrom(gaps: bool, s: State, t: State) {
    exists run, steps :: IsRun(gaps, run, steps) && run[0] == s && run[|steps|] == t
  }

  lemma ReachesNext(gaps: bool, s: State, t: State, step: Step)
    requires ReachableFrom(gaps, s, t) && Enabled(gaps, t, step)
    ensures ReachableFrom(gaps, s, Apply(gaps, t, step))
  {
    var run, steps :| IsRun(gaps, run, steps) && run[0] == s && run[|steps|] == t;
    var run', steps' := run + [Apply(gaps, t, step)], steps + [step];
    forall i: nat | i < |steps'| ensures Linked(gaps, run', steps', i) {
      if i < |steps| {
        assert Linked(gaps, run, steps, i);
        assert run'[i] == run[i] && run'[i + 1] == run[i + 1] && steps'[i] == steps[i];
      }
    }
    assert IsRun(gaps, run', steps') && run'[0] == s && run'[|steps'|] == Apply(gaps, t, step);
  }

  /** Two writers of one key have begun, and nobody else. */
  function Two(s: State, a: Writer, b: Writer): State {
    s.(writers := map[0 := a, 1 := b])
  }

  function Starting(direct: bool, change: Change, expected: int): Writer {
    Writer(direct, change, expected, None, false, false)
  }

  lemma TwoBegin(gaps: bool, s: State, a: Writer, b: Writer)
    requires s.writers == map[] && OneActivePrice(s.prices)
    requires a == Starting(a.direct, a.change, a.expected) && b == Starting(b.direct, b.change, b.expected)
    ensures ReachableFrom(gaps, s, Two(s, a, b))
  {
    assert IsRun(gaps, [s], []);
    ReachesNext(gaps, s, s, Begin(0, a.direct, a.change, a.expected));
    var t := With(s, 0, a);
    ReachesNext(gaps, s, t, Begin(1, b.direct, b.change, b.expected));
    assert With(t, 1, b) == Two(s, a, b);
  }

  /** A direct write that has read, at the version of the moment, that there is no active price. */
  function NoneFound(s: State, change: Change, expected: int): Writer {
    Starting(true, change, expected).(read := Some(Reading(None, CurrentVersion(s, change))))
  }

  lemma BothReadNone(gaps: bool, s: State, first: Change, second: Change, e: int, f: int)
    requires s.writers == map[] && OneActivePrice(s.prices) && SameKey(first, second) && Current(s, first).None?
    ensures ReachableFrom(gaps, s, Two(s, NoneFound(s, first, e), NoneFound(s, second, f)))
  {
    var a0, b0 := Starting(true, first, e), Starting(true, second, f);
    var a, b := NoneFound(s, first, e), NoneFound(s, second, f);
    TwoBegin(gaps, s, a0, b0);
    ReachesNext(gaps, s, Two(s, a0, b0), ReadActive(0));
    assert Apply(gaps, Two(s, a0, b0), ReadActive(0)) == Two(s, a, b0);
    ReachesNext(gaps, s, Two(s, a, b0), ReadActive(1));
    assert Apply(gaps, Two(s, a, b0), ReadActive(1)) == Two(s, a, b);
  }

  /** Two direct writes of a key that has no active price both read so, and the first one gets the version row. */
  lemma TwoFirstPrices(gaps: bool, s: State, first: Change, second: Change, expected: int)
    returns (t: State, a: Writer, b: Writer)
    requires s.writers == map[] && OneActivePrice(s.prices) && SameKey(first, second) && Current(s, first).None?
    ensures ReachableFrom(gaps, s, t) && t == Two(s, a, b)
    ensures var read := Some(Reading(None, CurrentVersion(s, first)));
            && a == Writer(true, first, CurrentVersion(s, first), read, true, false)
            && b == Writer(true, second, expected, read, false, false)
  {
    var a0 := NoneFound(s, first, CurrentVersion(s, first));
    a, b := a0.(versionLocked := true), NoneFound(s, second, expected);
    BothReadNone(gaps, s, first, second, CurrentVersion(s, first), expected);
    ReachesNext(gaps, s, Two(s, a0, b), LockVersion(0));
    t := Two(s, a, b);
    assert Apply(gaps, Two(s, a0, b), LockVersion(0)) == t;
  }

  // ---------- Without gap locks, and ahead of the version ----------

  /** A writer that has read and locks the version goes on to its commit. */
  lemma Finishes(gaps: bool, s: State, t: State, n: nat)
    requires ReachableFrom(gaps, s, t) && n in t.writers && t.writers[n].read.Some? && t.writers[n].versionLocked
    requires !t.writers[n].written && (gaps ==> GapFree(t, n))
    ensures ReachableFrom(gaps, s, AfterCommit(With(t, n, t.writers[n].(written := true)), n))
  {
    ReachesNext(gaps, s, t, Write(n));
    ReachesNext(gaps, s, With(t, n, t.writers[n].(written := true)), Commit(n));
  }

  /** It has read that there is no active price, and has not come to the version row yet. */
  predicate HasFoundNone(w: Writer) {
    w.direct && w.read.Some? && w.read.value.current.None? && !w.versionLocked && !w.written
  }

  /** The active price of the key, if there is one, starts before this moment. */
  predicate StartsBefore(s: State, change: Change, moment: int) {
    Current(s, change).Some? ==> s.prices[Current(s, change).value].effectiveFrom < moment
  }

  /** A direct write begins and reads beside a writer of the key that has found no price. */
  lemma ReadsBeside(s: State, t: State, b: Writer, change: Change) returns (u: State)
    requires ReachableFrom(false, s, t) && t.writers == map[0 := b] && HasFoundNone(b) && SameKey(b.change, change)
    requires StartsBefore(t, change, change.effectiveFrom)
    ensures var read := Some(Reading(Current(t, change), CurrentVersion(t, change)));
            u == Two(t, b, Starting(true, change, CurrentVersion(t, change)).(read := read))
    ensures ReachableFrom(false, s, u)
  {
    var a0 := Starting(true, change, CurrentVersion(t, change));
    ReachesNext(false, s, t, Begin(1, true, change, CurrentVersion(t, change)));
    var t1 := Two(t, b, a0);
    assert Apply(false, t, Begin(1, true, change, CurrentVersion(t, change))) == t1;
    ReachesNext(false, s, t1, ReadActive(1));
    u := Two(t, b, a0.(read := Some(Reading(Current(t, change), CurrentVersion(t, change)))));
    assert Apply(false, t1, ReadActive(1)) == u;
  }

  /** And it locks the version. */
  lemma LocksBeside(s: State, t: State, b: Writer, change: Change) returns (u: State)
    requires ReachableFrom(false, s, t) && t.writers == map[0 := b] && HasFoundNone(b) && SameKey(b.change, change)
    requires StartsBefore(t, change, change.effectiveFrom)
    ensures var read := Some(Reading(Current(t, change), CurrentVersion(t, change)));
            u == Two(t, b, Writer(true, change, CurrentVersion(t, change), read, true, false))
    ensures ReachableFrom(false, s, u)
  {
    var before := ReadsBeside(s, t, b, change);
    ReachesNext(false, s, before, LockVersion(1));
    u := Two(t, b, before.writers[1].(versionLocked := true));
    assert Apply(false, before, LockVersion(1)) == u;
  }

  /** And it commits. */
  lemma WritesBeside(s: State, t: State, b: Writer, change: Change) returns (u: State)
    requires ReachableFrom(false, s, t) && t.writers == map[0 := b] && HasFoundNone(b) && SameKey(b.change, change)
    requires StartsBefore(t, change, change.effectiveFrom) && OneActivePrice(t.prices)
    ensures ReachableFrom(false, s, u) && u.writers == t.writers
    ensures u.prices == Replace(t.prices, change.(currentAgreement := Current(t, change)))
    ensures CurrentVersion(u, change) == CurrentVersion(t, change) + 1
  {
    var locked := LocksBeside(s, t, b, change);
    Finishes(false, s, locked, 1);
    u := AfterCommit(With(locked, 1, locked.writers[1].(written := true)), 1);
    LatestActiveIsLatest(t.prices, change.supplier, change.sku);
    assert u.writers == t.writers;
  }

  lemma ReplacedStarts(t: State, u: State, change: Change)
    requires OneActivePrice(t.prices)
    requires u.prices == Replace(t.prices, change.(currentAgreement := Current(t, change)))
    ensures OneActivePrice(u.prices) && Current(u, change).Some?
    ensures u.prices[Current(u, change).value].effectiveFrom == change.effectiveFrom
  {
    ReplaceKeepsOneActive(t.prices, change.(currentAgreement := Current(t, change)));
    assert ActiveFor(u.prices[|t.prices|], change.supplier, change.sku);
    LatestActiveIsLatest(u.prices, change.supplier, change.sku);
  }

  /** Prices of one key, each of which starts after the one before it. */
  ghost predicate Successive(change: Change, between: seq<Change>) {
    && (forall k | 0 <= k < |between| :: SameKey(change, between[k]))
    && (forall k | 0 < k < |between| :: between[k - 1].effectiveFrom < between[k].effectiveFrom)
  }

  /** So the version comes as far as there are such writes. */
  lemma {:induction false} VersionMovesOn(s: State, t: State, b: Writer, between: seq<Change>) returns (u: State)
    requires ReachableFrom(false, s, t) && t.writers == map[0 := b] && OneActivePrice(t.prices)
    requires HasFoundNone(b) && Successive(b.change, between)
    requires if between == [] then Current(t, b.change).Some?
             else StartsBefore(t, between[0], between[0].effectiveFrom)
    ensures ReachableFrom(false, s, u) && u.writers == t.writers && OneActivePrice(u.prices)
    ensures CurrentVersion(u, b.change) == CurrentVersion(t, b.change) + |between| && Current(u, b.change).Some?
    decreases |between|
  {
    u := t;
    if between != [] {
      u := WritesBeside(s, t, b, between[0]);
      ReplacedStarts(t, u, between[0]);
      u := VersionMovesOn(s, u, b, between[1..]);
    }
  }

  /** Ahead by as many versions as have passed since, it adds its price beside the active one. */
  lemma LateCommit(s: State, t: State, b: Writer) returns (end: State)
    requires ReachableFrom(false, s, t) && t.writers == map[0 := b] && HasFoundNone(b)
    requires CurrentVersion(t, b.change) == b.expected && Current(t, b.change).Some?
    ensures ReachableFrom(false, s, end) && !OneActivePrice(end.prices)
    ensures end.prices == t.prices + [Proposed(b.change)] && CurrentVersion(end, b.change) == b.expected + 1
  {
    var change := b.change;
    ReachesNext(false, s, t, LockVersion(0));
    var locked := With(t, 0, b.(versionLocked := true));
    assert Apply(false, t, LockVersion(0)) == locked;
    Finishes(false, s, locked, 0);
    end := AfterCommit(With(locked, 0, locked.writers[0].(written := true)), 0);
    LatestActiveIsLatest(t.prices, change.supplier, change.sku);
    var i := Current(t, change).value;
    assert ActiveFor(end.prices[i], change.supplier, change.sku);
    assert ActiveFor(end.prices[|t.prices|], change.supplier, change.sku);
  }

  lemma OneReadsNone(s: State, change: Change, expected: int)
    requires s.writers == map[] && OneActivePrice(s.prices) && Current(s, change).None?
    ensures ReachableFrom(false, s, s.(writers := map[0 := NoneFound(s, change, expected)]))
  {
    assert IsRun(false, [s], []);
    ReachesNext(false, s, s, Begin(0, true, change, expected));
    var t := With(s, 0, Starting(true, change, expected));
    ReachesNext(false, s, t, ReadActive(0));
    assert Apply(false, t, ReadActive(0)) == s.(writers := map[0 := NoneFound(s, change, expected)]);
  }

  /**
  A direct writer reads that there is no active price and sends any later version. As many direct
  writes as it is ahead commit before it comes to the version row; then it adds a second active price.
  */
  lemma AheadOfTheVersion(s: State, late: Change, between: seq<Change>) returns (end: State)
    requires s.writers == map[] && OneActivePrice(s.prices) && Current(s, late).None?
    requires between != [] && Successive(late, between)
    ensures ReachableFrom(false, s, end) && !OneActivePrice(end.prices)
    ensures end.prices[|end.prices| - 1] == Proposed(late)
    ensures CurrentVersion(end, late) == CurrentVersion(s, late) + |between| + 1
  {
    var b := NoneFound(s, late, CurrentVersion(s, late) + |between|);
    OneReadsNone(s, late, b.expected);
    var t := VersionMovesOn(s, s.(writers := map[0 := b]), b, between);
    end := LateCommit(s, t, b);
  }

  // ---------- Who can wait for whom ----------

  /** The next statement of a writer need not wait. */
  predicate Advances(gaps: bool, s: State, n: nat) {
    && n in s.writers
    && var w := s.writers[n];
    if w.written then Enabled(gaps, s, Commit(n))
    else if w.read.Some? && w.versionLocked then Enabled(gaps, s, Write(n))
    else if !w.versionLocked && w.read.Some? == w.direct then Enabled(gaps, s, LockVersion(n))
    else Enabled(gaps, s, ReadActive(n))
  }

  /** Approvals alone, or direct writes alone that have found an active price to replace. */
  ghost predicate OneKind(s: State) {
    || (forall n | n in s.writers :: !s.writers[n].direct)
    || (forall n | n in s.writers ::
          s.writers[n].direct && (s.writers[n].read.Some? ==> s.writers[n].read.value.current.Some?))
  }

  /** They take their locks in one order, so one of them can always go on. */
  lemma OneKindAdvances(gaps: bool, s: State) returns (n: nat)
    requires Locks(s) && OneKind(s) && s.writers != map[]
    ensures Advances(gaps, s, n)
  {
    forall m | m in s.writers ensures VersionOk(s, m) && OrderOk(s.writers[m]) {}
    if m :| m in s.writers && s.writers[m].versionLocked {
      n := m;
    } else if m :| m in s.writers && s.writers[m].read.Some? {
      n := m;
    } else {
      n :| n in s.writers;
    }
  }

  /** An approval and a direct write take them in opposite orders, and can block each other for good. */
  lemma OppositeOrders(gaps: bool, s: State, approved: Change, written: Change) returns (t: State)
    requires s.writers == map[] && OneActivePrice(s.prices) && SameKey(approved, written)
    requires Current(s, written).Some? && s.prices[Current(s, written).value].effectiveFrom < written.effectiveFrom
    ensures ReachableFrom(gaps, s, t) && t.writers.Keys == {0, 1}
    ensures !Advances(gaps, t, 0) && !Advances(gaps, t, 1)
  {
    var v, current := CurrentVersion(s, written), Current(s, written);
    var a0, b0 := Starting(false, approved, v), Starting(true, written, v);
    TwoBegin(gaps, s, a0, b0);
    ReachesNext(gaps, s, Two(s, a0, b0), LockVersion(0));
    var a1 := a0.(versionLocked := true);
    assert Apply(gaps, Two(s, a0, b0), LockVersion(0)) == Two(s, a1, b0);
    ReachesNext(gaps, s, Two(s, a1, b0), ReadActive(1));
    var b1 := b0.(read := Some(Reading(current, v)));
    t := Two(s, a1, b1);
    assert Apply(gaps, Two(s, a1, b0), ReadActive(1)) == t;
  }

  /** And gap locks let two first prices of a key block each other. */
  lemma GapsBlock(s: State, first: Change, second: Change, expected: int) returns (t: State)
    requires s.writers == map[] && OneActivePrice(s.prices) && SameKey(first, second) && Current(s, first).None?
    ensures ReachableFrom(true, s, t) && t.writers.Keys == {0, 1}
    ensures !Advances(true, t, 0) && !Advances(true, t, 1)
  {
    var a, b;
    t, a, b := TwoFirstPrices(true, s, first, second, expected);
  }
}
