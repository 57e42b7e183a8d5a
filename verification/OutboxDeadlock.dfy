/**
When the transactions of the outbox workers can block each other. A dispatch locks the keys of
its children one recipient at a time, in the order in which the query happened to return the
recipients; a sweep locks the rows it buries one at a time. The server resolves a deadlock by
rolling a transaction back, which costs its message an attempt.
*/
module OutboxDeadlock {
  import opened Wrappers
  import opened Outbox
  import P = OutboxProtocol
  import opened OutboxTransactions

  /** No gap locks, as under READ COMMITTED. */
  const NO_GAPS: Gaps := (k, key) => false

  /** The statements and the commit of an open transaction. */
  predicate Own(step: Step) {
    step.SweepRow? || step.EndSweep? || step.LeaseRow? || step.LookUp? || step.InsertChild? || step.CompleteRow?
    || step.Commit?
  }

  /** The transaction of w can take its next step without waiting for a lock. */
  ghost predicate Advances(gaps: Gaps, s: System, w: string) {
    exists step :: Own(step) && step.w == w && Enabled(gaps, s, step)
  }

  /** Every open transaction waits for a lock. */
  ghost predicate Stuck(gaps: Gaps, s: System) {
    s.txs != map[] && forall w | w in s.txs :: !Advances(gaps, s, w)
  }

  // ---------- The condition ----------

  /** The key of the child for a recipient of the dispatch. */
  function KeyOf(s: System, w: string, k: nat): DedupKey
    requires w in s.txs && Dispatching(s.base, w, s.txs[w]) && k < |s.txs[w].recipients|
  {
    Child(s.base.workers[w].claimed.dedup, s.txs[w].recipients[k])
  }

  /** Every dispatch takes the keys of its children in one order. */
  ghost predicate InOrder(s: System, rank: DedupKey -> nat) {
    forall w, i, j | w in s.txs && Dispatching(s.base, w, s.txs[w]) && 0 <= i < j < |s.txs[w].recipients| ::
      rank(KeyOf(s, w, i)) < rank(KeyOf(s, w, j))
  }

  /** No lookup of one dispatch locks a gap in which another one inserts. */
  ghost predicate GapsApart(gaps: Gaps, s: System) {
    forall v, w, i, j ::
      && v in s.txs && w in s.txs && v != w && Dispatching(s.base, v, s.txs[v]) && Dispatching(s.base, w, s.txs[w])
      && 0 <= i < |s.txs[v].recipients| && 0 <= j < |s.txs[w].recipients|
      ==> !gaps(KeyOf(s, v, i), KeyOf(s, w, j))
  }

  predicate Sweeping(s: System, v: string) {
    In(s, v, ToClaim, Checked)
  }

  predicate ChildOf(s: System, w: string, key: DedupKey)
    requires w in s.txs && Dispatching(s.base, w, s.txs[w])
  {
    key.Child? && key.parent == s.base.workers[w].claimed.dedup && key.user in s.txs[w].recipients
  }

  /** No sweep buries a child that a dispatch may find. */
  ghost predicate SweepsApart(s: System) {
    forall v, w, id | v in s.txs && s.txs[v].kind.ToClaim? && w in s.txs && Dispatching(s.base, w, s.txs[w])
                      && id in s.base.rows && Exhausted(s.base.rows[id], s.txs[v].at) ::
      !ChildOf(s, w, s.base.rows[id].dedup)
  }

  ghost predicate Orderly(gaps: Gaps, s: System, rank: DedupKey -> nat) {
    InOrder(s, rank) && GapsApart(gaps, s) && SweepsApart(s)
  }

  // ---------- Somebody can go on ----------

  /** Ready to commit, or a claim that skips locked rows: these wait for nobody. */
  predicate Free(tx: Tx) {
    tx.phase.Ready? || (tx.kind.ToClaim? && tx.phase.Halfway?)
  }

  lemma FreeAdvances(gaps: Gaps, s: System, w: string)
    requires Inv(s) && w in s.txs && Free(s.txs[w])
    ensures Advances(gaps, s, w)
  {
    assert TxOk(s.base, w, s.txs[w]);
    if s.txs[w].phase.Ready? {
      assert Enabled(gaps, s, Commit(w, true));
    } else {
      assert Enabled(gaps, s, LeaseRow(w));
    }
  }

  /** A sweep has a first row to bury, unless it has none. */
  lemma {:induction false} FirstToSweep(b: P.State, tx: Tx, ids: set<nat>) returns (id: nat)
    requires ids != {} && forall i | i in ids :: ToSweep(b, tx, i)
    ensures id in ids && forall i | i in ids && i != id :: Scanned(b.rows, id, i)
    decreases |ids|
  {
    var i :| i in ids;
    if ids == {i} {
      id := i;
    } else {
      var rest := ids - {i};
      assert rest != {} by {
        assert ids == rest + {i};
      }
      id := FirstToSweep(b, tx, rest);
      if !Scanned(b.rows, id, i) {
        id := i;
      }
    }
  }

  lemma NextRow(b: P.State, tx: Tx) returns (id: nat)
    requires exists i :: i in b.rows && ToSweep(b, tx, i)
    ensures NextToSweep(b, tx, id)
  {
    var ids := set i | i in b.rows && ToSweep(b, tx, i);
    var i :| i in b.rows && ToSweep(b, tx, i);
    assert i in ids;
    id := FirstToSweep(b, tx, ids);
  }

  /** The row that a sweep wants next. */
  ghost function RowWanted(b: P.State, tx: Tx): (id: nat)
    requires exists i :: NextToSweep(b, tx, i)
    ensures NextToSweep(b, tx, id)
  {
    var id :| NextToSweep(b, tx, id);
    id
  }

  /** Of several rows, one is scanned last. */
  lemma {:induction false} LastScanned(rows: Table, ws: set<string>, wanted: map<string, nat>) returns (w: string)
    requires ws != {} && forall v | v in ws :: v in wanted && wanted[v] in rows
    ensures w in ws && forall v | v in ws :: !Scanned(rows, wanted[w], wanted[v])
    decreases |ws|
  {
    w :| w in ws;
    if ws != {w} {
      var rest := ws - {w};
      assert rest != {} by {
        assert ws == rest + {w};
      }
      var v := LastScanned(rows, rest, wanted);
      if Scanned(rows, wanted[w], wanted[v]) {
        w := v;
      }
    }
  }

  ghost predicate OnlySweepsWrite(s: System) {
    forall v | v in s.txs :: s.txs[v].writes == map[] || Sweeping(s, v)
  }

  lemma NobodyFree(s: System)
    requires Inv(s) && forall v | v in s.txs :: !Free(s.txs[v])
    ensures OnlySweepsWrite(s)
  {
    forall v | v in s.txs ensures s.txs[v].writes == map[] || Sweeping(s, v) {
      assert TxOk(s.base, v, s.txs[v]);
    }
  }

  lemma NotFound(s: System, v: string, w: string, id: nat)
    requires SweepsApart(s) && Sweeping(s, w) && ToSweep(s.base, s.txs[w], id) && v in s.txs
    ensures !KeyLocked(s.base, v, s.txs[v], s.base.rows[id].dedup)
  {
    if KeyLocked(s.base, v, s.txs[v], s.base.rows[id].dedup) {
      assert ChildOf(s, v, s.base.rows[id].dedup);
    }
  }

  lemma NotWritten(b: P.State, tx: Tx, id: nat, wanted: nat)
    requires ToSweep(b, tx, wanted) && !Scanned(b.rows, id, wanted)
    ensures id !in tx.writes
  {
  }

  /** The row that is scanned last is not locked by another sweep, nor by a dispatch that has found it. */
  lemma LastSweepIsFree(s: System, w: string, wanted: map<string, nat>)
    requires SweepsApart(s) && OnlySweepsWrite(s) && Sweeping(s, w) && w in wanted
    requires forall v | Sweeping(s, v) ::
               v in wanted && ToSweep(s.base, s.txs[v], wanted[v]) && !Scanned(s.base.rows, wanted[w], wanted[v])
    ensures RowFree(s, w, wanted[w])
  {
    forall v | v in s.txs && v != w
      ensures wanted[w] !in s.txs[v].writes && !KeyLocked(s.base, v, s.txs[v], s.base.rows[wanted[w]].dedup)
    {
      NotFound(s, v, w, wanted[w]);
      if Sweeping(s, v) {
        NotWritten(s.base, s.txs[v], wanted[w], wanted[v]);
      }
    }
  }

  ghost function RowsWanted(s: System): (wanted: map<string, nat>)
    requires forall v | Sweeping(s, v) :: exists i :: NextToSweep(s.base, s.txs[v], i)
    ensures forall v :: v in wanted <==> Sweeping(s, v)
    ensures forall v | v in wanted :: v in s.txs && wanted[v] in s.base.rows && NextToSweep(s.base, s.txs[v], wanted[v])
  {
    map v | v in s.txs && Sweeping(s, v) :: RowWanted(s.base, s.txs[v])
  }

  lemma SweepAdvances(gaps: Gaps, s: System, w: string, id: nat)
    requires Sweeping(s, w) && NextToSweep(s.base, s.txs[w], id) && RowFree(s, w, id)
    ensures Advances(gaps, s, w)
  {
    assert Enabled(gaps, s, SweepRow(w, id));
  }

  lemma LastSweepAdvances(gaps: Gaps, s: System) returns (w: string)
    requires SweepsApart(s) && OnlySweepsWrite(s) && exists v :: Sweeping(s, v)
    requires forall v | Sweeping(s, v) :: exists i :: NextToSweep(s.base, s.txs[v], i)
    ensures w in s.txs && Advances(gaps, s, w)
  {
    var wanted := RowsWanted(s);
    var v :| Sweeping(s, v);
    assert v in wanted.Keys;
    w := LastScanned(s.base.rows, wanted.Keys, wanted);
    assert w in wanted && forall v | Sweeping(s, v) :: !Scanned(s.base.rows, wanted[w], wanted[v]);
    LastSweepIsFree(s, w, wanted);
    SweepAdvances(gaps, s, w, wanted[w]);
  }

  lemma SomeSweepAdvances(gaps: Gaps, s: System) returns (w: string)
    requires Inv(s) && SweepsApart(s) && exists v :: Sweeping(s, v)
    requires forall v | v in s.txs :: !Free(s.txs[v])
    ensures w in s.txs && Advances(gaps, s, w)
  {
    if v :| Sweeping(s, v) && forall i | i in s.base.rows :: !ToSweep(s.base, s.txs[v], i) {
      w := v;
      assert Enabled(gaps, s, EndSweep(w));
    } else {
      forall v | Sweeping(s, v) ensures exists i :: NextToSweep(s.base, s.txs[v], i) {
        var i := NextRow(s.base, s.txs[v]);
      }
      NobodyFree(s);
      w := LastSweepAdvances(gaps, s);
    }
  }

  /** Nobody claims, so no row is written. */
  ghost predicate Unclaimed(s: System) {
    forall v | v in s.txs :: !Free(s.txs[v]) && !s.txs[v].kind.ToClaim?
  }

  lemma NothingWritten(s: System)
    requires Inv(s) && Unclaimed(s)
    ensures forall v | v in s.txs :: s.txs[v].writes == map[]
  {
    forall v | v in s.txs ensures s.txs[v].writes == map[] {
      assert TxOk(s.base, v, s.txs[v]);
    }
  }

  /** A dispatch past its loop completes a message that is not a child, so nobody has found it. */
  lemma PastTheLoop(gaps: Gaps, s: System, w: string)
    requires Inv(s) && Unclaimed(s) && w in s.txs && s.txs[w].kind.ToDispatch? && !InLoop(s, w)
    ensures Advances(gaps, s, w)
  {
    assert TxOk(s.base, w, s.txs[w]) && P.WorkerOk(s.base, w);
    var id := s.base.workers[w].claimed.id;
    assert P.RowOk(s.base.rows[id], s.base.history[id]);
    NothingWritten(s);
    assert RowFree(s, w, id);
    assert Enabled(gaps, s, CompleteRow(w));
  }

  /** Of the dispatches in their loops, one wants the key of the highest rank. */
  lemma {:induction false} LastInLoop(s: System, rank: DedupKey -> nat, ws: set<string>) returns (w: string)
    requires ws != {} && forall v | v in ws :: InLoop(s, v)
    ensures w in ws && forall v | v in ws :: rank(NextKey(s, v)) <= rank(NextKey(s, w))
    decreases |ws|
  {
    w :| w in ws;
    if ws != {w} {
      var rest := ws - {w};
      assert rest != {} by {
        assert ws == rest + {w};
      }
      var v := LastInLoop(s, rank, rest);
      if rank(NextKey(s, w)) < rank(NextKey(s, v)) {
        w := v;
      }
    }
  }

  /** A key that a dispatch in its loop has locked ranks below the one it wants. */
  lemma LockedRanksBelow(s: System, rank: DedupKey -> nat, v: string, key: DedupKey)
    requires InOrder(s, rank) && InLoop(s, v) && KeyLocked(s.base, v, s.txs[v], key)
    ensures rank(key) < rank(NextKey(s, v))
  {
    var tx := s.txs[v];
    var i :| 0 <= i < tx.done && tx.recipients[..tx.done][i] == key.user;
    assert KeyOf(s, v, i) == key && KeyOf(s, v, tx.done) == NextKey(s, v);
  }

  lemma LastIsFree(gaps: Gaps, s: System, rank: DedupKey -> nat, w: string)
    requires InOrder(s, rank) && GapsApart(gaps, s) && InLoop(s, w)
    requires forall v | v in s.txs :: s.txs[v].writes == map[]
    requires forall v | v in s.txs && s.txs[v].kind.ToDispatch? :: InLoop(s, v)
    requires forall v | InLoop(s, v) :: rank(NextKey(s, v)) <= rank(NextKey(s, w))
    ensures var key := NextKey(s, w); KeyFree(s, w, key) && ReadFree(s, w, key) && GapFree(gaps, s, w, key)
  {
    var key := NextKey(s, w);
    forall v | v in s.txs && v != w
      ensures !KeyLocked(s.base, v, s.txs[v], key) && !GapLocked(gaps, s.base, v, s.txs[v], key)
    {
      if KeyLocked(s.base, v, s.txs[v], key) {
        LockedRanksBelow(s, rank, v, key);
      }
      if Dispatching(s.base, v, s.txs[v]) {
        forall k | 0 <= k < |s.txs[v].recipients|
          ensures !gaps(Child(s.base.workers[v].claimed.dedup, s.txs[v].recipients[k]), key)
        {
          assert !gaps(KeyOf(s, v, k), KeyOf(s, w, s.txs[w].done));
        }
      }
    }
  }

  lemma SomeLoopAdvances(gaps: Gaps, s: System, rank: DedupKey -> nat, w: string)
    requires Inv(s) && Unclaimed(s) && InOrder(s, rank) && GapsApart(gaps, s) && InLoop(s, w)
    requires forall v | v in s.txs && s.txs[v].kind.ToDispatch? :: InLoop(s, v)
    requires forall v | InLoop(s, v) :: rank(NextKey(s, v)) <= rank(NextKey(s, w))
    ensures Advances(gaps, s, w)
  {
    NothingWritten(s);
    LastIsFree(gaps, s, rank, w);
    if s.txs[w].looked {
      assert Enabled(gaps, s, InsertChild(w));
    } else {
      assert Enabled(gaps, s, LookUp(w));
    }
  }

  lemma CompletionAdvances(gaps: Gaps, s: System, w: string)
    requires Inv(s) && Unclaimed(s) && w in s.txs && forall v | v in s.txs :: s.txs[v].kind.ToComplete?
    ensures Advances(gaps, s, w)
  {
    assert TxOk(s.base, w, s.txs[w]);
    NothingWritten(s);
    assert Enabled(gaps, s, CompleteRow(w));
  }

  lemma SomeDispatchAdvances(gaps: Gaps, s: System, rank: DedupKey -> nat) returns (w: string)
    requires Inv(s) && Unclaimed(s) && InOrder(s, rank) && GapsApart(gaps, s)
    requires exists v :: v in s.txs && s.txs[v].kind.ToDispatch?
    ensures w in s.txs && Advances(gaps, s, w)
  {
    if v :| v in s.txs && s.txs[v].kind.ToDispatch? && !InLoop(s, v) {
      w := v;
      PastTheLoop(gaps, s, w);
    } else {
      var ws := set u | u in s.txs && InLoop(s, u);
      var v :| v in s.txs && s.txs[v].kind.ToDispatch?;
      assert v in ws;
      w := LastInLoop(s, rank, ws);
      assert forall u | InLoop(s, u) :: u in ws;
      SomeLoopAdvances(gaps, s, rank, w);
    }
  }

  lemma UnclaimedAdvances(gaps: Gaps, s: System, rank: DedupKey -> nat) returns (w: string)
    requires Inv(s) && Unclaimed(s) && InOrder(s, rank) && GapsApart(gaps, s) && s.txs != map[]
    ensures w in s.txs && Advances(gaps, s, w)
  {
    if exists v :: v in s.txs && s.txs[v].kind.ToDispatch? {
      w := SomeDispatchAdvances(gaps, s, rank);
    } else {
      w :| w in s.txs;
      CompletionAdvances(gaps, s, w);
    }
  }

  /** A free transaction can go on, else a sweep, else a dispatch past its loop or in it, else anyone. */
  lemma SomeAdvances(gaps: Gaps, s: System, rank: DedupKey -> nat) returns (w: string)
    requires Inv(s) && s.txs != map[] && Orderly(gaps, s, rank)
    ensures w in s.txs && Advances(gaps, s, w)
  {
    if v :| v in s.txs && Free(s.txs[v]) {
      w := v;
      FreeAdvances(gaps, s, w);
    } else if v :| v in s.txs && s.txs[v].kind.ToClaim? {
      assert s.txs[v].phase.Checked?;
      assert Sweeping(s, v);
      w := SomeSweepAdvances(gaps, s);
    } else {
      w := UnclaimedAdvances(gaps, s, rank);
    }
  }

  /**
  No reachable state blocks all open transactions, if the dispatches take their children's keys in
  one order, no lookup locks a gap in which another dispatch inserts, and no sweep wants a child
  that a dispatch may have found.
  */
  lemma NoDeadlock(gaps: Gaps, run: seq<System>, steps: seq<Step>, n: nat, rank: DedupKey -> nat)
    requires IsRun(gaps, run, steps) && n < |run| && Orderly(gaps, run[n], rank)
    ensures !Stuck(gaps, run[n])
  {
    RunKeepsInv(gaps, run, steps, n);
    if run[n].txs != map[] {
      var w := SomeAdvances(gaps, run[n], rank);
    }
  }

  /** Recipients in ascending order of their ids, and no gap locks: enough for any number of dispatches. */
  lemma NoDeadlockById(run: seq<System>, steps: seq<Step>, n: nat)
    requires IsRun(NO_GAPS, run, steps) && n < |run| && SweepsApart(run[n])
    requires forall w, i, j | w in run[n].txs && 0 <= i < j < |run[n].txs[w].recipients| ::
               run[n].txs[w].recipients[i] < run[n].txs[w].recipients[j]
    ensures !Stuck(NO_GAPS, run[n])
  {
    NoDeadlock(NO_GAPS, run, steps, n, (key: DedupKey) => if key.Child? then key.user else 0);
  }

  // ---------- Every open transaction can end ----------

  ghost predicate Leads(gaps: Gaps, s: System, steps: seq<Step>, end: System)
    decreases |steps|
  {
    if steps == [] then s == end
    else Enabled(gaps, s, steps[0]) && Leads(gaps, Apply(gaps, s, steps[0]), steps[1..], end)
  }

  /** The open claims have read the clock within the time of a lease. */
  predicate Prompt(txs: map<string, Tx>) {
    forall v, w | v in txs && w in txs && txs[v].kind.ToClaim? && txs[w].kind.ToClaim? ::
      txs[v].at <= txs[w].at + LEASE_MS
  }

  function RowsToSweep(b: P.State, tx: Tx): set<nat> {
    set id | id in b.rows && ToSweep(b, tx, id)
  }

  /** How many steps the transaction has left at most. */
  function Left(b: P.State, tx: Tx): nat {
    match tx.phase
    case Ready => 1
    case Halfway => 2
    case Checked =>
      match tx.kind
      case ToClaim => 3 + |RowsToSweep(b, tx)|
      case ToDispatch =>
        if tx.done < |tx.recipients| then 2 * (|tx.recipients| - tx.done) + (if tx.looked then 1 else 2) else 2
      case ToComplete => 2
  }

  /** A row that a commit writes is not exhausted for a claim that read the clock within the time of a lease. */
  lemma WrittenIsFine(b: P.State, w: string, tx: Tx, at: nat, id: nat)
    requires TxOk(b, w, tx) && id in tx.writes && (tx.kind.ToClaim? ==> at <= tx.at + LEASE_MS)
    ensures !Exhausted(tx.writes[id], at)
  {
  }

  lemma ChildIsFine(b: P.State, w: string, tx: Tx, at: nat, k: nat)
    requires TxOk(b, w, tx) && k < |tx.children|
    ensures !Exhausted(tx.children[k], at)
  {
    if tx.kind.ToDispatch? {
      FreshAreChildren(b.rows, b.workers[w].claimed.dedup, tx.recipients[..tx.done], tx.at);
      assert tx.children[k] in tx.children;
    }
  }

  lemma MergedRow(b: P.State, w: string, tx: Tx, acknowledged: bool, id: nat)
    requires Below(b.rows, b.nextId) && w in b.workers && (tx.kind.ToClaim? || b.workers[w].Holding?)
    requires tx.writes.Keys <= b.rows.Keys && id in Merged(b, w, tx, acknowledged).rows
    ensures var row := Merged(b, w, tx, acknowledged).rows[id];
            if id in tx.writes then row == tx.writes[id]
            else if id in b.rows then row == b.rows[id]
            else b.nextId <= id && id - b.nextId < |tx.children| && row == tx.children[id - b.nextId]
  {
    AppendedRows(b.rows + tx.writes, b.nextId, tx.children);
  }

  /** What is exhausted for an open claim after the commit of another one was it before, too. */
  lemma StillExhausted(b: P.State, w: string, tx: Tx, acknowledged: bool, at: nat, id: nat)
    requires Below(b.rows, b.nextId) && TxOk(b, w, tx) && (tx.kind.ToClaim? || b.workers[w].Holding?)
    requires tx.kind.ToClaim? ==> at <= tx.at + LEASE_MS
    requires var rows := Merged(b, w, tx, acknowledged).rows; id in rows && Exhausted(rows[id], at)
    ensures id in b.rows && id !in tx.writes && Merged(b, w, tx, acknowledged).rows[id] == b.rows[id]
  {
    WritesKeepKeys(b, w, tx);
    MergedRow(b, w, tx, acknowledged, id);
    if id in tx.writes {
      WrittenIsFine(b, w, tx, at, id);
    } else if id !in b.rows {
      ChildIsFine(b, w, tx, at, id - b.nextId);
    }
  }

  lemma SubsetIsSmaller(a: set<nat>, b: set<nat>)
    requires a <= b
    ensures |a| <= |b| && (a != b ==> |a| < |b|)
  {
    assert b == a + (b - a);
    if a != b {
      assert b - a != {} by {
        assert b - a == {} ==> b == a;
      }
    }
  }

  /** Its transaction is the same, but for how far it is, and so is what it has claimed. */
  predicate SameTx(s: System, t: System, v: string)
    requires v in t.txs
  {
    && v in s.txs && t.txs[v].kind == s.txs[v].kind && t.txs[v].at == s.txs[v].at
    && t.txs[v].recipients == s.txs[v].recipients
    && v in s.base.workers && v in t.base.workers && t.base.workers[v] == s.base.workers[v]
  }

  /** Nothing is exhausted for an open claim that was not before. */
  ghost predicate NoneExhausted(s: System, t: System) {
    forall v, id | v in t.txs && t.txs[v].kind.ToClaim?
                   && id in t.base.rows && Exhausted(t.base.rows[id], t.txs[v].at) ::
      id in s.base.rows && t.base.rows[id] == s.base.rows[id]
  }

  ghost predicate Shrinks(s: System, t: System) {
    (forall v | v in t.txs :: SameTx(s, t, v)) && NoneExhausted(s, t)
  }

  lemma GapsApartKept(gaps: Gaps, s: System, t: System)
    requires GapsApart(gaps, s) && forall v | v in t.txs :: SameTx(s, t, v)
    ensures GapsApart(gaps, t)
  {
    forall v, w, i, j |
      && v in t.txs && w in t.txs && v != w && Dispatching(t.base, v, t.txs[v]) && Dispatching(t.base, w, t.txs[w])
      && 0 <= i < |t.txs[v].recipients| && 0 <= j < |t.txs[w].recipients|
      ensures !gaps(KeyOf(t, v, i), KeyOf(t, w, j))
    {
      assert SameTx(s, t, v) && SameTx(s, t, w);
      assert KeyOf(t, v, i) == KeyOf(s, v, i) && KeyOf(t, w, j) == KeyOf(s, w, j);
    }
  }

  lemma SweepsApartKept(s: System, t: System)
    requires SweepsApart(s) && Shrinks(s, t)
    ensures SweepsApart(t)
  {
    forall v, w, id | v in t.txs && t.txs[v].kind.ToClaim? && w in t.txs && Dispatching(t.base, w, t.txs[w])
                      && id in t.base.rows && Exhausted(t.base.rows[id], t.txs[v].at)
      ensures !ChildOf(t, w, t.base.rows[id].dedup)
    {
      assert SameTx(s, t, v) && SameTx(s, t, w);
      assert t.base.rows[id] == s.base.rows[id] && !ChildOf(s, w, s.base.rows[id].dedup);
    }
  }

  lemma OrderlyKept(gaps: Gaps, s: System, t: System, rank: DedupKey -> nat)
    requires Orderly(gaps, s, rank) && Prompt(s.txs) && Shrinks(s, t)
    ensures Orderly(gaps, t, rank) && Prompt(t.txs)
  {
    assert forall w | w in t.txs && Dispatching(t.base, w, t.txs[w]) ::
        SameTx(s, t, w) && Dispatching(s.base, w, s.txs[w]);
    forall w, i, j | w in t.txs && Dispatching(t.base, w, t.txs[w]) && 0 <= i < j < |t.txs[w].recipients|
      ensures rank(KeyOf(t, w, i)) < rank(KeyOf(t, w, j))
    {
      assert KeyOf(t, w, i) == KeyOf(s, w, i) && KeyOf(t, w, j) == KeyOf(s, w, j);
    }
    GapsApartKept(gaps, s, t);
    SweepsApartKept(s, t);
    forall v, w | v in t.txs && w in t.txs && t.txs[v].kind.ToClaim? && t.txs[w].kind.ToClaim?
      ensures t.txs[v].at <= t.txs[w].at + LEASE_MS
    {
      assert SameTx(s, t, v) && SameTx(s, t, w);
    }
  }

  // ---------- An own step shrinks what is left ----------

  /** A statement: the transaction stays open, with less left to do. */
  ghost predicate ComesCloser(s: System, t: System, w: string) {
    && t.base == s.base && w in s.txs && w in t.txs && t.txs == s.txs[w := t.txs[w]]
    && t.txs[w].kind == s.txs[w].kind && t.txs[w].at == s.txs[w].at && t.txs[w].recipients == s.txs[w].recipients
    && Left(t.base, t.txs[w]) < Left(s.base, s.txs[w])
  }

  lemma SweepCloser(gaps: Gaps, s: System, w: string, id: nat)
    requires Enabled(gaps, s, SweepRow(w, id))
    ensures ComesCloser(s, Apply(gaps, s, SweepRow(w, id)), w)
  {
    var tx, tx' := s.txs[w], AfterSweep(s, w, id);
    assert RowsToSweep(s.base, tx') <= RowsToSweep(s.base, tx) by {
      forall i | i in RowsToSweep(s.base, tx') ensures ToSweep(s.base, tx, i) {
        assert forall j | j in tx.writes :: j in tx'.writes;
      }
    }
    assert id in RowsToSweep(s.base, tx);
    assert id in tx'.writes && !Scanned(s.base.rows, id, id);
    SubsetIsSmaller(RowsToSweep(s.base, tx'), RowsToSweep(s.base, tx));
  }

  lemma StatementCloser(gaps: Gaps, s: System, step: Step)
    requires Enabled(gaps, s, step) && Own(step) && step.w in Apply(gaps, s, step).txs
    ensures ComesCloser(s, Apply(gaps, s, step), step.w)
  {
    if step.SweepRow? {
      SweepCloser(gaps, s, step.w, step.id);
    }
  }

  /** The end of a transaction, by its commit or by the loss of its lease. */
  ghost predicate Leaves(s: System, t: System, w: string) {
    && t.txs == s.txs - {w}
    && (forall v | v in t.txs :: SameTx(s, t, v) && Undisturbed(s.base, t.base, v, s.txs[v]))
    && NoneExhausted(s, t)
  }

  lemma CommitIsApart(s: System, t: System, w: string, acknowledged: bool, v: string)
    requires v in s.txs && v != w && TxOk(s.base, v, s.txs[v])
    requires w in s.txs && w in s.base.workers && (s.txs[w].kind.ToClaim? || s.base.workers[w].Holding?)
    requires t.base == Merged(s.base, w, s.txs[w], acknowledged) && t.txs == s.txs - {w}
    ensures SameTx(s, t, v)
  {
  }

  lemma CommitExhaustsNone(s: System, t: System, w: string, acknowledged: bool)
    requires Below(s.base.rows, s.base.nextId) && Prompt(s.txs) && w in s.txs && TxOk(s.base, w, s.txs[w])
    requires s.txs[w].kind.ToClaim? || s.base.workers[w].Holding?
    requires t.base == Merged(s.base, w, s.txs[w], acknowledged) && t.txs == s.txs - {w}
    ensures NoneExhausted(s, t)
  {
    forall v, id | v in t.txs && t.txs[v].kind.ToClaim? && id in t.base.rows && Exhausted(t.base.rows[id], t.txs[v].at)
      ensures id in s.base.rows && t.base.rows[id] == s.base.rows[id]
    {
      StillExhausted(s.base, w, s.txs[w], acknowledged, t.txs[v].at, id);
    }
  }

  lemma CommitLeaves(gaps: Gaps, s: System, w: string, acknowledged: bool)
    requires Inv(s) && Prompt(s.txs) && Enabled(gaps, s, Commit(w, acknowledged))
    ensures Leaves(s, Apply(gaps, s, Commit(w, acknowledged)), w)
  {
    var t := Apply(gaps, s, Commit(w, acknowledged));
    forall v | v in t.txs ensures SameTx(s, t, v) && Undisturbed(s.base, t.base, v, s.txs[v]) {
      assert TxOk(s.base, v, s.txs[v]) && TxOk(s.base, w, s.txs[w]);
      CommitIsApart(s, t, w, acknowledged, v);
      CommitUndisturbed(s.base, w, s.txs[w], acknowledged, v, s.txs[v]);
    }
    CommitExhaustsNone(s, t, w, acknowledged);
  }

  lemma LostLeaseLeaves(gaps: Gaps, s: System, w: string)
    requires Inv(s) && Enabled(gaps, s, CompleteRow(w)) && !Owned(s.base.rows, s.base.workers[w].claimed.id, w)
    ensures Leaves(s, Apply(gaps, s, CompleteRow(w)), w)
  {
    var t := Apply(gaps, s, CompleteRow(w));
    forall v | v in t.txs ensures SameTx(s, t, v) && Undisturbed(s.base, t.base, v, s.txs[v]) {
      assert TxOk(s.base, v, s.txs[v]);
    }
  }

  lemma StatementOrLeaves(gaps: Gaps, s: System, step: Step)
    requires Inv(s) && Prompt(s.txs) && Enabled(gaps, s, step) && Own(step)
    ensures var t := Apply(gaps, s, step); ComesCloser(s, t, step.w) || Leaves(s, t, step.w)
  {
    if step.w in Apply(gaps, s, step).txs {
      StatementCloser(gaps, s, step);
    } else if step.Commit? {
      CommitLeaves(gaps, s, step.w, step.acknowledged);
    } else {
      LostLeaseLeaves(gaps, s, step.w);
    }
  }

  lemma CloserShrinks(s: System, t: System, w: string)
    requires Inv(s) && (ComesCloser(s, t, w) || Leaves(s, t, w))
    ensures Shrinks(s, t)
  {
    if ComesCloser(s, t, w) {
      forall v | v in t.txs ensures SameTx(s, t, v) {
        assert TxOk(s.base, v, s.txs[v]);
      }
    }
  }

  // ---------- Counting what is left ----------

  /** How many statements and commits the open transactions have left at most. */
  ghost function Remaining(b: P.State, txs: map<string, Tx>): nat
    decreases |txs|
  {
    if txs == map[] then 0
    else
      var w :| w in txs;
      assert (txs - {w}).Keys == txs.Keys - {w};
      Left(b, txs[w]) + Remaining(b, txs - {w})
  }

  lemma {:induction false} RemainingSplits(b: P.State, txs: map<string, Tx>, w: string)
    requires w in txs
    ensures Remaining(b, txs) == Left(b, txs[w]) + Remaining(b, txs - {w})
    decreases |txs|
  {
    var v :| v in txs && Remaining(b, txs) == Left(b, txs[v]) + Remaining(b, txs - {v});
    if v != w {
      assert (txs - {v}).Keys == txs.Keys - {v} && (txs - {w}).Keys == txs.Keys - {w};
      RemainingSplits(b, txs - {v}, w);
      RemainingSplits(b, txs - {w}, v);
      assert txs - {v} - {w} == txs - {w} - {v};
    }
  }

  lemma OneFewer(txs: map<string, Tx>, w: string)
    requires w in txs
    ensures |txs| == |txs - {w}| + 1
  {
    assert (txs - {w}).Keys == txs.Keys - {w} && txs.Keys == (txs.Keys - {w}) + {w};
    assert |txs| == |txs.Keys| && |txs - {w}| == |(txs - {w}).Keys|;
  }

  lemma OneMoreTime(most: nat, n: nat, left: nat, sum: nat)
    requires left <= most && sum <= most * n
    ensures left + sum <= most * (n + 1)
  {
  }

  lemma {:induction false} RemainingBound(b: P.State, txs: map<string, Tx>, most: nat)
    requires forall w | w in txs :: Left(b, txs[w]) <= most
    ensures Remaining(b, txs) <= most * |txs|
    decreases |txs|
  {
    if txs == map[] {
      assert Remaining(b, txs) == 0;
    } else {
      var w :| w in txs;
      OneFewer(txs, w);
      RemainingSplits(b, txs, w);
      RemainingBound(b, txs - {w}, most);
      OneMoreTime(most, |txs - {w}|, Left(b, txs[w]), Remaining(b, txs - {w}));
    }
  }

  lemma {:induction false} RemainingShrinks(b: P.State, b': P.State, txs: map<string, Tx>)
    requires forall v | v in txs :: Left(b', txs[v]) <= Left(b, txs[v])
    ensures Remaining(b', txs) <= Remaining(b, txs)
    decreases |txs|
  {
    if txs != map[] {
      var w :| w in txs && Remaining(b, txs) == Left(b, txs[w]) + Remaining(b, txs - {w});
      assert (txs - {w}).Keys == txs.Keys - {w};
      RemainingSplits(b', txs, w);
      RemainingShrinks(b, b', txs - {w});
    }
  }

  /** A sweep that others leave alone has no more to do than before. */
  lemma LeftShrinks(s: System, t: System, w: string, v: string)
    requires Leaves(s, t, w) && v in t.txs && s.txs[v].writes.Keys <= s.base.rows.Keys
    ensures Left(t.base, t.txs[v]) <= Left(s.base, t.txs[v])
  {
    var tx := t.txs[v];
    assert tx == s.txs[v] && Undisturbed(s.base, t.base, v, tx) && SameTx(s, t, v);
    if Sweeping(t, v) {
      forall id | id in RowsToSweep(t.base, tx) ensures id in RowsToSweep(s.base, tx) {
        assert t.base.rows[id] == s.base.rows[id];
        forall j | j in tx.writes ensures Scanned(s.base.rows, j, id) {
          assert Scanned(t.base.rows, j, id) && t.base.rows[j] == s.base.rows[j];
        }
      }
      SubsetIsSmaller(RowsToSweep(t.base, tx), RowsToSweep(s.base, tx));
    }
  }

  lemma CloserLowers(s: System, t: System, w: string)
    requires w in s.txs && ComesCloser(s, t, w)
    ensures Remaining(t.base, t.txs) < Remaining(s.base, s.txs)
  {
    RemainingSplits(s.base, s.txs, w);
    RemainingSplits(t.base, t.txs, w);
    assert t.txs - {w} == s.txs - {w};
  }

  lemma LeavingLowers(s: System, t: System, w: string)
    requires w in s.txs && Leaves(s, t, w) && forall v | v in s.txs :: s.txs[v].writes.Keys <= s.base.rows.Keys
    ensures Remaining(t.base, t.txs) < Remaining(s.base, s.txs)
  {
    RemainingSplits(s.base, s.txs, w);
    forall v | v in t.txs ensures Left(t.base, t.txs[v]) <= Left(s.base, t.txs[v]) {
      assert SameTx(s, t, v);
      LeftShrinks(s, t, w, v);
    }
    RemainingShrinks(s.base, t.base, t.txs);
  }

  lemma OneStepLowers(s: System, t: System, w: string)
    requires Inv(s) && w in s.txs && (ComesCloser(s, t, w) || Leaves(s, t, w))
    ensures Remaining(t.base, t.txs) < Remaining(s.base, s.txs)
  {
    if ComesCloser(s, t, w) {
      CloserLowers(s, t, w);
    } else {
      WritesAreRows(s);
      LeavingLowers(s, t, w);
    }
  }

  lemma {:induction false} AllEnd(gaps: Gaps, s: System, rank: DedupKey -> nat) returns (steps: seq<Step>, end: System)
    requires Inv(s) && Orderly(gaps, s, rank) && Prompt(s.txs)
    ensures Leads(gaps, s, steps, end) && end.txs == map[] && |steps| <= Remaining(s.base, s.txs)
    ensures forall step | step in steps :: Own(step)
    decreases Remaining(s.base, s.txs)
  {
    if s.txs == map[] {
      steps, end := [], s;
    } else {
      var w := SomeAdvances(gaps, s, rank);
      var step :| Own(step) && step.w == w && Enabled(gaps, s, step);
      var t := Apply(gaps, s, step);
      StepKeepsInv(gaps, s, step);
      StatementOrLeaves(gaps, s, step);
      CloserShrinks(s, t, w);
      OrderlyKept(gaps, s, t, rank);
      OneStepLowers(s, t, w);
      var rest;
      rest, end := AllEnd(gaps, t, rank);
      steps := [step] + rest;
    }
  }

  function ExhaustedRows(b: P.State, at: nat): set<nat> {
    set id | id in b.rows && Exhausted(b.rows[id], at)
  }

  lemma LeftBound(b: P.State, tx: Tx, recipients: nat, exhausted: nat)
    requires |tx.recipients| <= recipients && |ExhaustedRows(b, tx.at)| <= exhausted
    ensures Left(b, tx) <= 2 * recipients + exhausted + 3
  {
    SubsetIsSmaller(RowsToSweep(b, tx), ExhaustedRows(b, tx.at));
  }

  lemma AllLeftBound(b: P.State, txs: map<string, Tx>, recipients: nat, exhausted: nat)
    requires forall w | w in txs ::
               |txs[w].recipients| <= recipients && |ExhaustedRows(b, txs[w].at)| <= exhausted
    ensures Remaining(b, txs) <= (2 * recipients + exhausted + 3) * |txs|
  {
    forall w | w in txs ensures Left(b, txs[w]) <= 2 * recipients + exhausted + 3 {
      LeftBound(b, txs[w], recipients, exhausted);
    }
    RemainingBound(b, txs, 2 * recipients + exhausted + 3);
  }

  /**
  Under the same condition the open transactions can all end, with the recipients they have read, in
  at most two of their own steps for each recipient, one for each exhausted row, and three more.
  */
  lemma AllCanEnd(gaps: Gaps, run: seq<System>, steps: seq<Step>, n: nat, rank: DedupKey -> nat,
                  recipients: nat, exhausted: nat)
    returns (more: seq<Step>, end: System)
    requires IsRun(gaps, run, steps) && n < |run| && Orderly(gaps, run[n], rank) && Prompt(run[n].txs)
    requires forall w | w in run[n].txs ::
               |run[n].txs[w].recipients| <= recipients && |ExhaustedRows(run[n].base, run[n].txs[w].at)| <= exhausted
    ensures Leads(gaps, run[n], more, end) && end.txs == map[]
    ensures |more| <= (2 * recipients + exhausted + 3) * |run[n].txs|
    ensures forall step | step in more :: Own(step)
  {
    RunKeepsInv(gaps, run, steps, n);
    AllLeftBound(run[n].base, run[n].txs, recipients, exhausted);
    more, end := AllEnd(gaps, run[n], rank);
  }
}
