/**
Deadlocks of outbox workers that do happen: two dispatches of one message, whose lease expired in
between, that read their recipients in crossed orders; and under gap locks any two dispatches that
look up their first child before either of them inserts.
*/
module OutboxContention {
  import opened Wrappers
  import opened Outbox
  import P = OutboxProtocol
  import opened OutboxTransactions
  import opened OutboxDeadlock

  // ---------- Two dispatches of one message ----------

  /** The dispatch of w wants a key that the transaction of v has locked. */
  ghost predicate WaitsFor(s: System, w: string, v: string) {
    v != w && v in s.txs && InLoop(s, w) && KeyLocked(s.base, v, s.txs[v], NextKey(s, w))
  }

  ghost predicate BlockEachOther(s: System, v: string, w: string, a: seq<nat>, b: seq<nat>) {
    && v in s.txs && w in s.txs && s.txs[v].recipients == a && s.txs[w].recipients == b
    && WaitsFor(s, v, w) && WaitsFor(s, w, v)
  }

  /** The first element of a that is also in b. */
  function FirstCommon(a: seq<nat>, b: seq<nat>): Option<nat> {
    if a == [] then None else if a[0] in b then Some(a[0]) else FirstCommon(a[1..], b)
  }

  lemma {:induction false} FirstCommonAt(a: seq<nat>, b: seq<nat>, k: nat) returns (i: nat)
    requires k < |a| && a[k] in b
    ensures i <= k && FirstCommon(a, b) == Some(a[i]) && a[i] in b && forall j | 0 <= j < i :: a[j] !in b
  {
    if a[0] in b {
      i := 0;
    } else {
      i := FirstCommonAt(a[1..], b, k - 1);
      i := i + 1;
    }
  }

  /** Two dispatches wait for each other only if they do not begin with the same common recipient. */
  lemma CrossedOrders(s: System, v: string, w: string, a: seq<nat>, b: seq<nat>)
    requires Inv(s) && BlockEachOther(s, v, w, a, b)
    ensures s.base.workers[v].claimed.dedup == s.base.workers[w].claimed.dedup
    ensures FirstCommon(a, b) != FirstCommon(b, a)
  {
    var m, n := s.txs[v].done, s.txs[w].done;
    var p :| 0 <= p < m && a[..m][p] == b[n];
    var q :| 0 <= q < n && b[..n][q] == a[m];
    assert a[p] in b && b[q] in a;
    var i := FirstCommonAt(a, b, p);
    var j := FirstCommonAt(b, a, q);
    if a[i] == b[j] {
      var key := Child(s.base.workers[v].claimed.dedup, a[i]);
      assert a[..m][i] == a[i] && b[..n][j] == b[j];
      assert KeyLocked(s.base, v, s.txs[v], key) && KeyLocked(s.base, w, s.txs[w], key);
      assert false;
    }
  }

  // ---------- Two transactions ----------

  function Pair(b: P.State, v: string, tv: Tx, w: string, tw: Tx): System {
    System(b, map[v := tv, w := tw], {})
  }

  /** A dispatch between two turns of its loop. */
  predicate AtTurn(b: P.State, w: string, tx: Tx) {
    Dispatching(b, w, tx) && tx.phase.Checked? && !tx.looked && tx.done <= |tx.recipients|
  }

  /** No child has been queued yet. */
  ghost predicate NoChildren(b: P.State) {
    forall id | id in b.rows :: b.rows[id].dedup.Root?
  }

  /** Nobody has locked the key of the next child, and it is absent. */
  lemma NextIsFree(s: System, v: string, w: string)
    requires v != w && s.txs.Keys == {v, w} && InLoop(s, v) && NoChildren(s.base)
    requires s.txs[w].done <= |s.txs[w].recipients|
    requires s.txs[v].recipients[s.txs[v].done] !in s.txs[w].recipients[..s.txs[w].done]
    ensures KeyFree(s, v, NextKey(s, v)) && ReadFree(s, v, NextKey(s, v)) && !KeyTaken(s.base.rows, NextKey(s, v))
    ensures GapFree(NO_GAPS, s, v, NextKey(s, v))
  {
    assert !KeyLocked(s.base, w, s.txs[w], NextKey(s, v));
    assert !GapLocked(NO_GAPS, s.base, w, s.txs[w], NextKey(s, v));
  }

  lemma LooksUp(gaps: Gaps, s: System, w: string)
    requires Reachable(gaps, s) && InLoop(s, w) && !s.txs[w].looked
    requires KeyFree(s, w, NextKey(s, w)) && ReadFree(s, w, NextKey(s, w)) && !KeyTaken(s.base.rows, NextKey(s, w))
    ensures Reachable(gaps, WithTx(s, w, s.txs[w].(looked := true)))
  {
    ReachesNext(gaps, s, LookUp(w));
  }

  lemma Inserts(gaps: Gaps, s: System, w: string)
    requires Reachable(gaps, s) && InLoop(s, w) && s.txs[w].looked
    requires KeyFree(s, w, NextKey(s, w)) && GapFree(gaps, s, w, NextKey(s, w))
    ensures Reachable(gaps, WithTx(s, w, AfterInsert(s, w)))
  {
    ReachesNext(gaps, s, InsertChild(w));
  }

  /** One turn for a recipient that the other dispatch has not locked. */
  lemma Turn(b: P.State, v: string, tv: Tx, w: string, tw: Tx) returns (tv': Tx)
    requires v != w && Reachable(NO_GAPS, Pair(b, v, tv, w, tw)) && NoChildren(b)
    requires AtTurn(b, v, tv) && AtTurn(b, w, tw) && tv.done < |tv.recipients|
    requires tv.recipients[tv.done] !in tw.recipients[..tw.done]
    ensures tv' == tv.(done := tv.done + 1, children := tv'.children)
    ensures Reachable(NO_GAPS, Pair(b, v, tv', w, tw))
  {
    var s := Pair(b, v, tv, w, tw);
    NextIsFree(s, v, w);
    LooksUp(NO_GAPS, s, v);
    var s1 := Pair(b, v, tv.(looked := true), w, tw);
    assert WithTx(s, v, tv.(looked := true)) == s1;
    NextIsFree(s1, v, w);
    tv' := AfterInsert(s1, v);
    Inserts(NO_GAPS, s1, v);
    assert WithTx(s1, v, tv') == Pair(b, v, tv', w, tw);
  }

  lemma {:induction false} Proceed(b: P.State, v: string, tv: Tx, w: string, tw: Tx, n: nat) returns (tv': Tx)
    requires v != w && Reachable(NO_GAPS, Pair(b, v, tv, w, tw)) && NoChildren(b)
    requires AtTurn(b, v, tv) && AtTurn(b, w, tw) && tv.done <= n <= |tv.recipients|
    requires forall k | tv.done <= k < n :: tv.recipients[k] !in tw.recipients[..tw.done]
    ensures tv' == tv.(done := n, children := tv'.children)
    ensures Reachable(NO_GAPS, Pair(b, v, tv', w, tw))
    decreases n - tv.done
  {
    if tv.done == n {
      tv' := tv;
    } else {
      tv' := Turn(b, v, tv, w, tw);
      tv' := Proceed(b, v, tv', w, tw, n);
    }
  }

  lemma Swapped(b: P.State, v: string, tv: Tx, w: string, tw: Tx)
    requires v != w
    ensures Pair(b, v, tv, w, tw) == Pair(b, w, tw, v, tv)
  {
  }

  /** Two dispatches in their loops that wait for each other are all there is, so nobody can go on. */
  lemma WaitersAreStuck(gaps: Gaps, b: P.State, v: string, tv: Tx, w: string, tw: Tx)
    requires AtTurn(b, v, tv) && AtTurn(b, w, tw)
    requires var s := Pair(b, v, tv, w, tw); WaitsFor(s, v, w) && WaitsFor(s, w, v)
    ensures Stuck(gaps, Pair(b, v, tv, w, tw))
  {
    var s := Pair(b, v, tv, w, tw);
    assert v in s.txs;
    forall u, step | u in s.txs && Own(step) && step.w == u ensures !Enabled(gaps, s, step) {
      assert u == v || u == w;
      assert !KeyFree(s, u, NextKey(s, u));
    }
  }

  /** The first k at or after i for which a[k] is in b. */
  function FirstFrom(a: seq<nat>, i: nat, b: seq<nat>): (k: nat)
    requires i <= |a|
    ensures i <= k <= |a| && (k < |a| ==> a[k] in b) && forall j | i <= j < k :: a[j] !in b
    decreases |a| - i
  {
    if i == |a| || a[i] in b then i else FirstFrom(a, i + 1, b)
  }

  lemma {:induction false} NoneCommon(a: seq<nat>, b: seq<nat>)
    requires forall j | 0 <= j < |a| :: a[j] !in b
    ensures FirstCommon(a, b) == None
  {
    if a != [] {
      NoneCommon(a[1..], b);
    }
  }

  lemma FirstCommonIs(a: seq<nat>, b: seq<nat>)
    ensures FirstCommon(a, b) == var i := FirstFrom(a, 0, b); if i < |a| then Some(a[i]) else None
  {
    var i := FirstFrom(a, 0, b);
    if i < |a| {
      var j := FirstCommonAt(a, b, i);
      assert j == i;
    } else {
      NoneCommon(a, b);
    }
  }

  /** A dispatch goes on until it meets a child that the other one has locked, at k at the latest. */
  lemma ProceedToWait(b: P.State, v: string, tv: Tx, w: string, tw: Tx, k: nat) returns (tv': Tx)
    requires v != w && Reachable(NO_GAPS, Pair(b, v, tv, w, tw)) && NoChildren(b)
    requires AtTurn(b, v, tv) && AtTurn(b, w, tw) && tv.done <= k < |tv.recipients|
    requires tv.recipients[k] in tw.recipients[..tw.done]
    requires b.workers[v].claimed.dedup == b.workers[w].claimed.dedup
    ensures tv' == tv.(done := tv'.done, children := tv'.children) && tv.done <= tv'.done <= k
    ensures Reachable(NO_GAPS, Pair(b, v, tv', w, tw)) && WaitsFor(Pair(b, v, tv', w, tw), v, w)
  {
    var n := FirstFrom(tv.recipients, tv.done, tw.recipients[..tw.done]);
    assert n <= k;
    tv' := Proceed(b, v, tv, w, tw, n);
  }

  /** Where crossed lists have the first common recipients: each one later in the other list. */
  lemma CrossedPlaces(rv: seq<nat>, rw: seq<nat>) returns (i: nat, j: nat, p: nat, q: nat)
    requires P.Distinct(rv) && FirstCommon(rv, rw) != FirstCommon(rw, rv)
    ensures i < p < |rv| && j < q < |rw| && rv[i] == rw[q] && rw[j] == rv[p] && rw[j] !in rv[..i + 1]
    ensures (forall k | 0 <= k < i :: rv[k] !in rw) && (forall k | 0 <= k < j :: rw[k] !in rv)
  {
    FirstCommonIs(rv, rw);
    FirstCommonIs(rw, rv);
    i, j := FirstFrom(rv, 0, rw), FirstFrom(rw, 0, rv);
    q :| 0 <= q < |rw| && rw[q] == rv[i];
    p :| 0 <= p < |rv| && rv[p] == rw[j];
    assert forall k | 0 <= k < i + 1 :: rv[k] != rv[p];
  }

  /** Each takes the recipients before its first common one, and this one. */
  lemma FirstTurns(b: P.State, v: string, tv: Tx, w: string, tw: Tx, i: nat, j: nat) returns (tv': Tx, tw': Tx)
    requires v != w && Reachable(NO_GAPS, Pair(b, v, tv, w, tw)) && NoChildren(b)
    requires AtTurn(b, v, tv) && AtTurn(b, w, tw) && tv.done == tw.done == 0
    requires i < |tv.recipients| && j < |tw.recipients|
    requires forall k | 0 <= k <= j :: tw.recipients[k] !in tv.recipients[..i + 1]
    ensures tv' == tv.(done := i + 1, children := tv'.children)
    ensures tw' == tw.(done := j + 1, children := tw'.children)
    ensures Reachable(NO_GAPS, Pair(b, v, tv', w, tw'))
  {
    tv' := Proceed(b, v, tv, w, tw, i + 1);
    Swapped(b, v, tv', w, tw);
    tw' := Proceed(b, w, tw, v, tv', j + 1);
    Swapped(b, v, tv', w, tw');
  }

  /** Each goes on until it meets a child of the other. */
  lemma LastTurns(b: P.State, v: string, tv: Tx, w: string, tw: Tx, p: nat, q: nat) returns (tv': Tx, tw': Tx)
    requires v != w && Reachable(NO_GAPS, Pair(b, v, tv, w, tw)) && NoChildren(b)
    requires AtTurn(b, v, tv) && AtTurn(b, w, tw) && b.workers[v].claimed.dedup == b.workers[w].claimed.dedup
    requires tv.done <= p < |tv.recipients| && tv.recipients[p] in tw.recipients[..tw.done]
    requires tw.done <= q < |tw.recipients| && tw.recipients[q] in tv.recipients[..tv.done]
    ensures tv' == tv.(done := tv'.done, children := tv'.children) && AtTurn(b, v, tv')
    ensures tw' == tw.(done := tw'.done, children := tw'.children) && AtTurn(b, w, tw')
    ensures var s := Pair(b, v, tv', w, tw'); Reachable(NO_GAPS, s) && WaitsFor(s, v, w) && WaitsFor(s, w, v)
  {
    tv' := ProceedToWait(b, v, tv, w, tw, p);
    Swapped(b, v, tv', w, tw);
    assert tv.recipients[..tv.done] <= tv'.recipients[..tv'.done];
    tw' := ProceedToWait(b, w, tw, v, tv', q);
    Swapped(b, v, tv', w, tw');
    assert tw.recipients[..tw.done] <= tw'.recipients[..tw'.done];
  }

  /**
  Crossed lists: v takes its first common recipient, w takes its own, which is another one, and then
  each goes on until it meets a child of the other.
  */
  lemma CrossedListsBlock(b: P.State, at: nat, v: string, w: string, rv: seq<nat>, rw: seq<nat>) returns (s: System)
    requires v != w && NoChildren(b) && P.Distinct(rv) && P.Distinct(rw) && FirstCommon(rv, rw) != FirstCommon(rw, rv)
    requires Dispatching(b, v, Began(ToDispatch, at, rv)) && Dispatching(b, w, Began(ToDispatch, at, rw))
    requires b.workers[v].claimed.dedup == b.workers[w].claimed.dedup
    requires Reachable(NO_GAPS, Pair(b, v, Began(ToDispatch, at, rv), w, Began(ToDispatch, at, rw)))
    ensures Reachable(NO_GAPS, s) && Stuck(NO_GAPS, s) && BlockEachOther(s, v, w, rv, rw)
  {
    var i, j, p, q := CrossedPlaces(rv, rw);
    var tv, tw := FirstTurns(b, v, Began(ToDispatch, at, rv), w, Began(ToDispatch, at, rw), i, j);
    assert rv[p] == rw[..j + 1][j] && rw[q] == rv[..i + 1][i];
    tv, tw := LastTurns(b, v, tv, w, tw, p, q);
    s := Pair(b, v, tv, w, tw);
    WaitersAreStuck(NO_GAPS, b, v, tv, w, tw);
  }

  // ---------- How two dispatches come to be open ----------

  /** Two workers hold notifications that nobody has dispatched, and both fences are up. */
  ghost predicate TwoHold(b: P.State, v: string, x: DedupKey, w: string, y: DedupKey) {
    && b.outboxFence && NoChildren(b) && P.Holds(b, v, P.Fresh) && P.Holds(b, w, P.Fresh)
    && b.workers[v].claimed.topic.NotificationDispatch? && b.workers[v].claimed.dedup == x
    && b.workers[w].claimed.topic.NotificationDispatch? && b.workers[w].claimed.dedup == y
  }

  lemma Begins(gaps: Gaps, s: System, w: string, recipients: seq<nat>)
    requires Reachable(gaps, s) && w !in s.txs && P.Holds(s.base, w, P.Fresh) && s.base.outboxFence
    requires s.base.workers[w].claimed.topic.NotificationDispatch? && P.Distinct(recipients)
    ensures Reachable(gaps, WithTx(s, w, Began(ToDispatch, s.base.now, recipients)))
  {
    ReachesNext(gaps, s, CheckFence(w, ToDispatch, s.base.now, recipients));
  }

  lemma BothBegin(gaps: Gaps, b: P.State, v: string, x: DedupKey, w: string, y: DedupKey, rv: seq<nat>, rw: seq<nat>)
    requires v != w && TwoHold(b, v, x, w, y) && Reachable(gaps, System(b, map[], {}))
    requires P.Distinct(rv) && P.Distinct(rw)
    ensures Reachable(gaps, Pair(b, v, Began(ToDispatch, b.now, rv), w, Began(ToDispatch, b.now, rw)))
  {
    var s, tv, tw := System(b, map[], {}), Began(ToDispatch, b.now, rv), Began(ToDispatch, b.now, rw);
    Begins(gaps, s, v, rv);
    Begins(gaps, WithTx(s, v, tv), w, rw);
    assert WithTx(WithTx(s, v, tv), w, tw) == Pair(b, v, tv, w, tw);
  }

  lemma Takes(gaps: Gaps, s: System, step: P.Step)
    requires Reachable(gaps, s) && s.txs == map[] && s.pool == {} && P.Enabled(s.base, step)
    requires step.Tick? || step.StartWorker? || step.Enqueue? || step.Break? || step.Fail?
    ensures Reachable(gaps, System(P.Apply(s.base, step), map[], {}))
  {
    ReachesNext(gaps, s, Single(step));
    assert Apply(gaps, s, Single(step)) == System(P.Apply(s.base, step), map[], {});
  }

  /** A lease expires, and a second worker claims the message that the first one is still to dispatch. */
  lemma OneMessageTwice(gaps: Gaps, v: string, w: string, name: string) returns (b: P.State)
    requires v != w
    ensures TwoHold(b, v, Root(name), w, Root(name)) && Reachable(gaps, System(b, map[], {}))
    ensures b.workers.Keys == {v, w} && b.workers[w].claimed.id == 0
    ensures b.nextId == 1 && b.rows.Keys == {0} && Owned(b.rows, 0, w)
    ensures b.rows[0].topic.NotificationDispatch? && b.rows[0].dedup == Root(name)
  {
    var s0 := OneQueued(gaps, v, name, NotificationDispatch, 2);
    Takes(gaps, s0, P.StartWorker(w));
    var s1 := System(P.Apply(s0.base, P.StartWorker(w)), map[], {});
    assert Pick(s1.base.rows, 0, {}, 0) == None && Pick(s1.base.rows, 0, {}, 1) == Some(0);
    var s2 := Claims(gaps, s1, v, 0);
    Takes(gaps, s2, P.Tick(LEASE_MS + 1));
    var s3 := System(P.Apply(s2.base, P.Tick(LEASE_MS + 1)), map[], {});
    var now := s3.base.now;
    assert Pick(s3.base.rows, now, {}, 0) == None && Pick(s3.base.rows, now, {}, 1) == Some(0);
    var s4 := Claims(gaps, s3, w, 0);
    b := s4.base;
    assert s4 == System(b, map[], {});
  }

  function Queued(name: string): Message {
    Message(NotificationDispatch, Root(name), Pending, 0, 0, 1, None)
  }

  lemma TwoQueued(gaps: Gaps, v: string, w: string, name: string, other: string) returns (s: System)
    requires v != w && name != other
    ensures var h := P.History(0, 0);
            s == System(P.State(0, map[0 := Queued(name), 1 := Queued(other)], 2, true, true,
                                map[v := P.Idle, w := P.Idle], [], map[0 := h, 1 := h]), map[], {})
    ensures Reachable(gaps, s)
  {
    var s0 := OneQueued(gaps, v, name, NotificationDispatch, 1);
    Takes(gaps, s0, P.StartWorker(w));
    var s1 := System(P.Apply(s0.base, P.StartWorker(w)), map[], {});
    var add := P.Enqueue(NotificationDispatch, other, 1, 0);
    assert !KeyTaken(s1.base.rows, Root(other));
    Takes(gaps, s1, add);
    s := System(P.Apply(s1.base, add), map[], {});
  }

  lemma FirstOfTwo(name: string, other: string)
    ensures Pick(map[0 := Queued(name), 1 := Queued(other)], 0, {}, 2) == Some(0)
  {
    var rows := map[0 := Queued(name), 1 := Queued(other)];
    assert Pick(rows, 0, {}, 0) == None && Pick(rows, 0, {}, 1) == Some(0);
  }

  lemma SecondOfTwo(rows: Table, v: string, name: string, other: string)
    requires rows == map[0 := LeasedTo(Queued(name), v, 0), 1 := Queued(other)]
    ensures Pick(rows, 0, {}, 2) == Some(1)
  {
    assert Pick(rows, 0, {}, 0) == None && Pick(rows, 0, {}, 1) == None;
  }

  /** Two messages, each claimed by a worker of its own. */
  lemma TwoMessages(gaps: Gaps, v: string, w: string, name: string, other: string) returns (b: P.State)
    requires v != w && name != other
    ensures TwoHold(b, v, Root(name), w, Root(other)) && Reachable(gaps, System(b, map[], {}))
  {
    var s0 := TwoQueued(gaps, v, w, name, other);
    FirstOfTwo(name, other);
    var s1 := Claims(gaps, s0, v, 0);
    SecondOfTwo(s1.base.rows, v, name, other);
    var s2 := Claims(gaps, s1, w, 1);
    b := s2.base;
    assert s2 == System(b, map[], {});
  }

  // ---------- Crossed lists ----------

  /** Any two lists with different first common recipients can block two dispatches of one message. */
  lemma CrossedLists(v: string, w: string, name: string, a: seq<nat>, b: seq<nat>) returns (s: System)
    requires v != w && P.Distinct(a) && P.Distinct(b) && FirstCommon(a, b) != FirstCommon(b, a)
    ensures Reachable(NO_GAPS, s) && Stuck(NO_GAPS, s) && BlockEachOther(s, v, w, a, b)
  {
    var base := OneMessageTwice(NO_GAPS, v, w, name);
    BothBegin(NO_GAPS, base, v, Root(name), w, Root(name), a, b);
    s := CrossedListsBlock(base, base.now, v, w, a, b);
  }

  /** Without gap locks, two dispatches can block each other exactly if their first common recipients differ. */
  lemma BlockExactlyWhenCrossed(v: string, w: string, a: seq<nat>, b: seq<nat>)
    requires v != w && P.Distinct(a) && P.Distinct(b)
    ensures (exists s :: Reachable(NO_GAPS, s) && BlockEachOther(s, v, w, a, b))
       <==> FirstCommon(a, b) != FirstCommon(b, a)
  {
    if s :| Reachable(NO_GAPS, s) && BlockEachOther(s, v, w, a, b) {
      ReachableInv(NO_GAPS, s);
      CrossedOrders(s, v, w, a, b);
    } else if FirstCommon(a, b) != FirstCommon(b, a) {
      var s := CrossedLists(v, w, "", a, b);
    }
  }

  // ---------- Gap locks ----------

  /** Each has looked up its first child, and the other one's insert falls into its gap. */
  lemma GapWaitersAreStuck(gaps: Gaps, b: P.State, v: string, tv: Tx, w: string, tw: Tx)
    requires v != w && Dispatching(b, v, tv) && Dispatching(b, w, tw) && tv.phase.Checked? && tw.phase.Checked?
    requires tv.looked && tw.looked && tv.done < |tv.recipients| && tw.done < |tw.recipients|
    requires var s := Pair(b, v, tv, w, tw);
             GapLocked(gaps, b, w, tw, NextKey(s, v)) && GapLocked(gaps, b, v, tv, NextKey(s, w))
    ensures Stuck(gaps, Pair(b, v, tv, w, tw))
  {
    var s := Pair(b, v, tv, w, tw);
    assert v in s.txs;
    forall u, step | u in s.txs && Own(step) && step.w == u ensures !Enabled(gaps, s, step) {
      assert u == v || u == w;
      assert !GapFree(gaps, s, u, NextKey(s, u));
    }
  }

  lemma GapsBlock(gaps: Gaps, b: P.State, v: string, x: DedupKey, w: string, y: DedupKey, rv: seq<nat>, rw: seq<nat>)
    returns (s: System)
    requires v != w && TwoHold(b, v, x, w, y) && Reachable(gaps, System(b, map[], {}))
    requires P.Distinct(rv) && P.Distinct(rw) && rv != [] && rw != []
    requires gaps(Child(x, rv[0]), Child(y, rw[0])) && gaps(Child(y, rw[0]), Child(x, rv[0]))
    ensures Reachable(gaps, s) && Stuck(gaps, s)
    ensures s.base == b && s.txs.Keys == {v, w} && s.txs[v].recipients == rv && s.txs[w].recipients == rw
  {
    var tv, tw := Began(ToDispatch, b.now, rv), Began(ToDispatch, b.now, rw);
    BothBegin(gaps, b, v, x, w, y, rv, rw);
    var s0 := Pair(b, v, tv, w, tw);
    NextIsFree(s0, v, w);
    LooksUp(gaps, s0, v);
    var s1 := Pair(b, v, tv.(looked := true), w, tw);
    assert WithTx(s0, v, tv.(looked := true)) == s1;
    NextIsFree(s1, w, v);
    LooksUp(gaps, s1, w);
    s := Pair(b, v, tv.(looked := true), w, tw.(looked := true));
    assert WithTx(s1, w, tw.(looked := true)) == s;
    GapWaitersAreStuck(gaps, b, v, tv.(looked := true), w, tw.(looked := true));
  }

  /**
  Under gap locks two workers that dispatch different notifications can block each other with their
  first children already, if each absent key lies in the gap that the lookup of the other one locks.
  */
  lemma GapsBlockTwoMessages(gaps: Gaps, v: string, w: string, name: string, other: string, a: seq<nat>, b: seq<nat>)
    returns (s: System)
    requires v != w && name != other && P.Distinct(a) && P.Distinct(b) && a != [] && b != []
    requires gaps(Child(Root(name), a[0]), Child(Root(other), b[0]))
    requires gaps(Child(Root(other), b[0]), Child(Root(name), a[0]))
    ensures Reachable(gaps, s) && Stuck(gaps, s)
    ensures s.txs.Keys == {v, w} && s.txs[v].recipients == a && s.txs[w].recipients == b
    ensures TwoHold(s.base, v, Root(name), w, Root(other))
  {
    var base := TwoMessages(gaps, v, w, name, other);
    s := GapsBlock(gaps, base, v, Root(name), w, Root(other), a, b);
  }

  /** A lookup locks the gap it has searched, so under gap locks one order for the recipients is not enough. */
  lemma GapsBlockOneOrder(gaps: Gaps, v: string, w: string, name: string, a: seq<nat>) returns (s: System)
    requires v != w && P.Distinct(a) && a != [] && gaps(Child(Root(name), a[0]), Child(Root(name), a[0]))
    ensures Reachable(gaps, s) && Stuck(gaps, s)
    ensures s.txs.Keys == {v, w} && s.txs[v].recipients == a && s.txs[w].recipients == a
    ensures TwoHold(s.base, v, Root(name), w, Root(name))
  {
    var base := OneMessageTwice(gaps, v, w, name);
    s := GapsBlock(gaps, base, v, Root(name), w, Root(name), a, a);
  }

  // ---------- A sweep and a late dispatch ----------

  function Solo(b: P.State, w: string, tx: Tx): System {
    System(b, map[w := tx], {})
  }

  lemma SoloTurn(b: P.State, w: string, tx: Tx) returns (tx': Tx)
    requires Reachable(NO_GAPS, Solo(b, w, tx)) && NoChildren(b) && AtTurn(b, w, tx) && tx.done < |tx.recipients|
    ensures tx' == tx.(done := tx.done + 1, children := tx'.children) && Reachable(NO_GAPS, Solo(b, w, tx'))
  {
    var s := Solo(b, w, tx);
    assert !KeyTaken(b.rows, NextKey(s, w));
    LooksUp(NO_GAPS, s, w);
    var s1 := Solo(b, w, tx.(looked := true));
    assert WithTx(s, w, tx.(looked := true)) == s1;
    tx' := AfterInsert(s1, w);
    Inserts(NO_GAPS, s1, w);
    assert WithTx(s1, w, tx') == Solo(b, w, tx');
  }

  lemma CompletesSolo(b: P.State, w: string, tx: Tx) returns (s: System)
    requires Reachable(NO_GAPS, Solo(b, w, tx)) && AtTurn(b, w, tx) && tx.done == |tx.recipients|
    requires Owned(b.rows, b.workers[w].claimed.id, w)
    ensures var id := b.workers[w].claimed.id;
            s == Solo(b, w, tx.(phase := Ready, writes := map[id := CompletedRow(b.rows[id])]))
    ensures Reachable(NO_GAPS, s)
  {
    var id := b.workers[w].claimed.id;
    ReachesNext(NO_GAPS, Solo(b, w, tx), CompleteRow(w));
    s := Solo(b, w, tx.(phase := Ready, writes := map[id := CompletedRow(b.rows[id])]));
    assert Apply(NO_GAPS, Solo(b, w, tx), CompleteRow(w)) == s;
  }

  lemma CommitsSolo(b: P.State, w: string, tx: Tx) returns (b': P.State)
    requires Reachable(NO_GAPS, Solo(b, w, tx)) && AtTurn(b, w, tx) && tx.done == |tx.recipients|
    requires Owned(b.rows, b.workers[w].claimed.id, w)
    ensures b' == P.AfterDispatch(b, w, tx.recipients, tx.at, true) && Reachable(NO_GAPS, System(b', map[], {}))
  {
    var s1 := CompletesSolo(b, w, tx);
    ReachesNext(NO_GAPS, s1, Commit(w, true));
    ReachableInv(NO_GAPS, s1);
    CommitIsAtomic(NO_GAPS, s1, w, true);
    b' := Apply(NO_GAPS, s1, Commit(w, true)).base;
    assert Apply(NO_GAPS, s1, Commit(w, true)) == System(b', map[], {});
  }

  /** Undisturbed, the owner of a notification dispatches it to two recipients. */
  lemma DispatchesTwo(b: P.State, w: string, recipients: seq<nat>) returns (b': P.State)
    requires Reachable(NO_GAPS, System(b, map[], {})) && NoChildren(b) && b.outboxFence && P.Holds(b, w, P.Fresh)
    requires b.workers[w].claimed.topic.NotificationDispatch? && Owned(b.rows, b.workers[w].claimed.id, w)
    requires |recipients| == 2 && P.Distinct(recipients)
    ensures b' == P.AfterDispatch(b, w, recipients, b.now, true) && Reachable(NO_GAPS, System(b', map[], {}))
  {
    var s := System(b, map[], {});
    Begins(NO_GAPS, s, w, recipients);
    assert WithTx(s, w, Began(ToDispatch, b.now, recipients)) == Solo(b, w, Began(ToDispatch, b.now, recipients));
    var tx := SoloTurn(b, w, Began(ToDispatch, b.now, recipients));
    tx := SoloTurn(b, w, tx);
    b' := CommitsSolo(b, w, tx);
  }

  /** The row after a claim whose delivery failed. */
  function Retried(m: Message, now: nat): Message {
    m.(status := Pending, availableAt := now + DelaySeconds(m.attempts + 1) * 1_000, attempts := m.attempts + 1,
       lease := None)
  }

  lemma BreaksAndFails(b: P.State, w: string, id: nat)
    requires id in b.rows && id in b.history && w in b.workers && b.workers[w].Idle?
    requires b.rows[id].attempts + 1 < b.rows[id].maxAttempts
    ensures var b1 := P.Leased(b, w, id, b.now, true);
            && P.Enabled(b1, P.Break(w, false))
            && var b2 := P.Apply(b1, P.Break(w, false));
            && P.Enabled(b2, P.Fail(w, true))
            && var b3 := P.Apply(b2, P.Fail(w, true));
            b3 == b.(rows := b.rows[id := Retried(b.rows[id], b.now)], history := b3.history)
  {
    var row := LeasedTo(b.rows[id], w, b.now);
    var b1 := P.Leased(b, w, id, b.now, true);
    var b2 := P.Apply(b1, P.Break(w, false));
    assert b2.workers[w] == P.Holding(ClaimOf(id, row), P.ToFail(false)) && b2.rows[id] == row;
    assert Owned(b2.rows, id, w);
    var b3 := P.Apply(b2, P.Fail(w, true));
    assert b3.rows == b.rows[id := FailedRow(row, ClaimOf(id, row), false, b.now)];
    assert b3.workers == b.workers;
  }

  lemma HasHistory(b: P.State)
    requires Reachable(NO_GAPS, System(b, map[], {}))
    ensures b.history.Keys == b.rows.Keys
  {
    ReachableInv(NO_GAPS, System(b, map[], {}));
  }

  /** A worker claims a row, fails to deliver it and is idle again. */
  lemma ClaimsAndFails(b: P.State, w: string, id: nat) returns (b': P.State)
    requires Reachable(NO_GAPS, System(b, map[], {})) && b.outboxFence && id in b.rows && id in b.history
    requires w in b.workers && b.workers[w].Idle? && Pick(b.rows, b.now, {}, b.nextId) == Some(id)
    requires b.rows[id].attempts + 1 < b.rows[id].maxAttempts
    requires forall i | i in b.rows :: !Exhausted(b.rows[i], b.now)
    ensures Reachable(NO_GAPS, System(b', map[], {}))
    ensures b' == b.(rows := b.rows[id := Retried(b.rows[id], b.now)], history := b'.history)
  {
    BreaksAndFails(b, w, id);
    var s1 := Claims(NO_GAPS, System(b, map[], {}), w, id);
    Takes(NO_GAPS, s1, P.Break(w, false));
    var s2 := System(P.Apply(s1.base, P.Break(w, false)), map[], {});
    Takes(NO_GAPS, s2, P.Fail(w, true));
    b' := P.Apply(s2.base, P.Fail(w, true));
  }

  /** A child that was tried a number of times and may be tried again from a moment on. */
  function Tried(parent: DedupKey, user: nat, attempts: nat, moment: nat): Message {
    ChildMessage(parent, user, moment).(attempts := attempts)
  }

  /** The message is completed, and both of its children were tried a number of times. */
  ghost predicate BothTried(b: P.State, parent: DedupKey, u: nat, u': nat, attempts: nat) {
    && b.outboxFence && b.nextId == 3 && b.rows.Keys == {0, 1, 2}
    && b.rows[0].status.Completed? && b.rows[0].dedup.Root?
    && b.rows[1].availableAt <= b.now
    && b.rows[1] == Tried(parent, u, attempts, b.rows[1].availableAt)
    && b.rows[2] == Tried(parent, u', attempts, b.rows[1].availableAt)
  }

  lemma FirstChildIsNext(b: P.State, parent: DedupKey, u: nat, u': nat, attempts: nat)
    requires BothTried(b, parent, u, u', attempts) && attempts < CHILD_MAX_ATTEMPTS
    ensures Pick(b.rows, b.now, {}, 3) == Some(1)
    ensures forall i | i in b.rows :: !Exhausted(b.rows[i], b.now)
  {
    assert Pick(b.rows, b.now, {}, 1) == None;
    assert Pick(b.rows, b.now, {}, 2) == Some(1);
  }

  lemma SecondChildIsNext(rows: Table, now: nat)
    requires rows.Keys == {0, 1, 2} && Eligible(rows[2], now) && !Eligible(rows[1], now) && !Eligible(rows[0], now)
    ensures Pick(rows, now, {}, 3) == Some(2)
  {
    assert Pick(rows, now, {}, 1) == None && Pick(rows, now, {}, 2) == None;
  }

  lemma BothRetried(b: P.State, parent: DedupKey, u: nat, u': nat, attempts: nat)
    requires BothTried(b, parent, u, u', attempts)
    ensures var one := b.rows[1 := Retried(b.rows[1], b.now)];
            && !Eligible(one[1], b.now)
            && forall t: P.State |
                 && t.outboxFence && t.nextId == 3 && t.now == b.now + 3_600_000
                 && t.rows == one[2 := Retried(b.rows[2], b.now)] ::
                 BothTried(t, parent, u, u', attempts + 1)
  {
    DelayDoubles(attempts + 1);
  }

  /** Each child is tried once more. */
  lemma OneMoreTry(b: P.State, w: string, parent: DedupKey, u: nat, u': nat, attempts: nat) returns (b': P.State)
    requires Reachable(NO_GAPS, System(b, map[], {})) && w in b.workers && b.workers[w].Idle?
    requires BothTried(b, parent, u, u', attempts) && attempts + 1 < CHILD_MAX_ATTEMPTS
    ensures Reachable(NO_GAPS, System(b', map[], {})) && b'.workers == b.workers
    ensures BothTried(b', parent, u, u', attempts + 1)
  {
    BothRetried(b, parent, u, u', attempts);
    FirstChildIsNext(b, parent, u, u', attempts);
    HasHistory(b);
    var b1 := ClaimsAndFails(b, w, 1);
    SecondChildIsNext(b1.rows, b1.now);
    HasHistory(b1);
    var b2 := ClaimsAndFails(b1, w, 2);
    Takes(NO_GAPS, System(b2, map[], {}), P.Tick(3_600_000));
    b' := P.Apply(b2, P.Tick(3_600_000));
  }

  lemma {:induction false} TriedUntil(b: P.State, w: string, parent: DedupKey, u: nat, u': nat, attempts: nat)
    returns (b': P.State)
    requires Reachable(NO_GAPS, System(b, map[], {})) && w in b.workers && b.workers[w].Idle?
    requires BothTried(b, parent, u, u', attempts) && attempts < CHILD_MAX_ATTEMPTS
    ensures Reachable(NO_GAPS, System(b', map[], {})) && b'.workers == b.workers
    ensures BothTried(b', parent, u, u', CHILD_MAX_ATTEMPTS - 1)
    decreases CHILD_MAX_ATTEMPTS - attempts
  {
    b' := b;
    if attempts + 1 < CHILD_MAX_ATTEMPTS {
      b' := OneMoreTry(b, w, parent, u, u', attempts);
      b' := TriedUntil(b', w, parent, u, u', attempts + 1);
    }
  }

  /** Both children have lost the lease of their last attempt, taken at the same moment. */
  ghost predicate BothExhausted(b: P.State, parent: DedupKey, u: nat, u': nat) {
    && b.outboxFence && b.rows.Keys == {0, 1, 2} && b.rows[0].status.Completed? && b.rows[0].dedup.Root?
    && Exhausted(b.rows[1], b.now) && b.rows[1].dedup == Child(parent, u)
    && Exhausted(b.rows[2], b.now) && b.rows[2].dedup == Child(parent, u')
    && Since(b.rows[1]) == Since(b.rows[2])
  }

  lemma BothLeased(b: P.State, w: string, y: string, parent: DedupKey, u: nat, u': nat)
    requires BothTried(b, parent, u, u', CHILD_MAX_ATTEMPTS - 1) && b.history.Keys == b.rows.Keys
    ensures var b1 := P.Leased(b, w, 1, b.now, true);
            && b1.history.Keys == b1.rows.Keys
            && BothExhausted(P.Apply(P.Leased(b1, y, 2, b.now, true), P.Tick(LEASE_MS + 1)), parent, u, u')
  {
  }

  lemma LastTry(b: P.State, w: string, y: string, parent: DedupKey, u: nat, u': nat) returns (b': P.State)
    requires Reachable(NO_GAPS, System(b, map[], {})) && BothTried(b, parent, u, u', CHILD_MAX_ATTEMPTS - 1)
    requires w != y && w in b.workers && b.workers[w].Idle? && y in b.workers && b.workers[y].Idle?
    ensures Reachable(NO_GAPS, System(b', map[], {})) && BothExhausted(b', parent, u, u')
    ensures forall v | v in b.workers && v != w && v != y :: v in b'.workers && b'.workers[v] == b.workers[v]
  {
    HasHistory(b);
    BothLeased(b, w, y, parent, u, u');
    FirstChildIsNext(b, parent, u, u', CHILD_MAX_ATTEMPTS - 1);
    var s1 := Claims(NO_GAPS, System(b, map[], {}), w, 1);
    SecondChildIsNext(s1.base.rows, b.now);
    var s2 := Claims(NO_GAPS, s1, y, 2);
    assert s2 == System(s2.base, map[], {});
    Takes(NO_GAPS, s2, P.Tick(LEASE_MS + 1));
    b' := P.Apply(s2.base, P.Tick(LEASE_MS + 1));
  }

  /** A sweep has buried the first child, and a dispatch that comes too late has found the second. */
  lemma SweepWaitersAreStuck(b: P.State, v: string, tv: Tx, c: string, tc: Tx, parent: DedupKey, u: nat, u': nat)
    requires v != c && u != u' && BothExhausted(b, parent, u, u') && AtTurn(b, v, tv)
    requires b.workers[v].claimed.dedup == parent && tv.recipients == [u', u] && tv.done == 1
    requires tc == Began(ToClaim, b.now, []).(writes := map[1 := Swept(b.rows[1], b.now)])
    ensures Stuck(NO_GAPS, Pair(b, v, tv, c, tc))
  {
    var s := Pair(b, v, tv, c, tc);
    assert v in s.txs;
    assert tv.recipients[..1] == [u'];
    assert KeyLocked(b, v, tv, b.rows[2].dedup) && ToSweep(b, tc, 2);
    forall x, step | x in s.txs && Own(step) && step.w == x ensures !Enabled(NO_GAPS, s, step) {
      assert x == v || x == c;
      if x == v {
        assert NextKey(s, v) == b.rows[1].dedup && 1 in s.txs[c].writes && !RowFree(s, v, 1);
      } else {
        assert 1 in tc.writes && !Scanned(b.rows, 1, 1);
        assert !RowFree(s, c, 2) && !ToSweep(b, tc, 0) && !ToSweep(b, tc, 1);
      }
    }
  }

  lemma BuriesFirst(b: P.State, v: string, tv: Tx, c: string, parent: DedupKey, u: nat, u': nat) returns (tc: Tx)
    requires v != c && u != u' && BothExhausted(b, parent, u, u') && AtTurn(b, v, tv) && tv.done == 0
    requires tv.writes == map[] && c in b.workers && b.workers[c].Idle?
    requires Reachable(NO_GAPS, System(b, map[v := tv], {}))
    ensures tc == Began(ToClaim, b.now, []).(writes := map[1 := Swept(b.rows[1], b.now)])
    ensures Reachable(NO_GAPS, Pair(b, v, tv, c, tc))
  {
    var s, began := System(b, map[v := tv], {}), Began(ToClaim, b.now, []);
    ReachesNext(NO_GAPS, s, CheckFence(c, ToClaim, b.now, []));
    var s1 := Pair(b, v, tv, c, began);
    assert Apply(NO_GAPS, s, CheckFence(c, ToClaim, b.now, [])) == s1;
    assert NextToSweep(b, began, 1) && RowFree(s1, c, 1);
    ReachesNext(NO_GAPS, s1, SweepRow(c, 1));
    tc := began.(writes := map[1 := Swept(b.rows[1], b.now)]);
    assert Apply(NO_GAPS, s1, SweepRow(c, 1)) == Pair(b, v, tv, c, tc);
  }

  lemma SecondIsFree(b: P.State, v: string, tv: Tx, c: string, tc: Tx, parent: DedupKey, u: nat, u': nat)
    requires v != c && u != u' && BothExhausted(b, parent, u, u') && AtTurn(b, v, tv)
    requires b.workers[v].claimed.dedup == parent && tv.recipients == [u', u] && tv.done == 0
    requires tc.kind.ToClaim? && tc.writes.Keys == {1}
    ensures var s := Pair(b, v, tv, c, tc);
            && InLoop(s, v) && KeyTaken(b.rows, NextKey(s, v))
            && KeyFree(s, v, NextKey(s, v)) && ReadFree(s, v, NextKey(s, v))
  {
    var s := Pair(b, v, tv, c, tc);
    assert NextKey(s, v) == b.rows[2].dedup;
    assert RowFree(s, v, 2);
  }

  lemma FindsSecond(b: P.State, v: string, tv: Tx, c: string, tc: Tx, parent: DedupKey, u: nat, u': nat)
    returns (s: System)
    requires v != c && u != u' && BothExhausted(b, parent, u, u') && AtTurn(b, v, tv)
    requires b.workers[v].claimed.dedup == parent && tv.recipients == [u', u] && tv.done == 0
    requires tc.kind.ToClaim? && tc.writes.Keys == {1} && Reachable(NO_GAPS, Pair(b, v, tv, c, tc))
    ensures s == Pair(b, v, tv.(done := 1), c, tc) && Reachable(NO_GAPS, s)
  {
    var s0 := Pair(b, v, tv, c, tc);
    SecondIsFree(b, v, tv, c, tc, parent, u, u');
    ReachesNext(NO_GAPS, s0, LookUp(v));
    s := Pair(b, v, tv.(done := 1), c, tc);
    assert WithTx(s0, v, tv.(done := 1)) == s;
  }

  lemma SweepAndDispatchBlock(b: P.State, v: string, c: string, parent: DedupKey, u: nat, u': nat) returns (s: System)
    requires v != c && u != u' && BothExhausted(b, parent, u, u') && Reachable(NO_GAPS, System(b, map[], {}))
    requires P.Holds(b, v, P.Fresh) && c in b.workers && b.workers[c].Idle?
    requires b.workers[v].claimed.topic.NotificationDispatch? && b.workers[v].claimed.dedup == parent
    ensures Reachable(NO_GAPS, s) && Stuck(NO_GAPS, s) && s.txs.Keys == {v, c}
    ensures Sweeping(s, c) && s.txs[v].recipients == [u', u]
  {
    var tv := Began(ToDispatch, b.now, [u', u]);
    Begins(NO_GAPS, System(b, map[], {}), v, [u', u]);
    assert WithTx(System(b, map[], {}), v, tv) == System(b, map[v := tv], {});
    var tc := BuriesFirst(b, v, tv, c, parent, u, u');
    s := FindsSecond(b, v, tv, c, tc, parent, u, u');
    SweepWaitersAreStuck(b, v, tv.(done := 1), c, tc, parent, u, u');
  }

  lemma BothQueued(b: P.State, w: string, name: string, u: nat, u': nat)
    requires b.rows.Keys == {0} && b.nextId == 1 && Owned(b.rows, 0, w) && b.outboxFence && P.Holds(b, w, P.Fresh)
    requires b.workers[w].claimed.id == 0 && b.rows[0].topic.NotificationDispatch? && b.rows[0].dedup == Root(name)
    requires u != u'
    ensures var t := P.AfterDispatch(b, w, [u, u'], b.now, true);
            BothTried(t, Root(name), u, u', 0) && t.workers == b.workers[w := P.Idle]
  {
    var rows, parent := b.rows, Root(name);
    assert [u, u'][..1] == [u] && [u][..0] == [];
    assert QueueChildren(rows, 1, parent, [], b.now) == (rows, 1);
    assert !KeyTaken(rows, Child(parent, u));
    var one := rows[1 := ChildMessage(parent, u, b.now)];
    assert QueueChildren(rows, 1, parent, [u], b.now) == (one, 2);
    assert !KeyTaken(one, Child(parent, u'));
    assert QueueChildren(rows, 1, parent, [u, u'], b.now) == (one[2 := ChildMessage(parent, u', b.now)], 3);
  }

  /**
  Without gap locks, too: a worker whose message was dispatched by another one in the meantime finds
  its children, and one of them may be what a sweep wants next.
  */
  lemma SweepMeetsLateDispatch(v: string, w: string, y: string, c: string, name: string, u: nat, u': nat)
    returns (s: System)
    requires v != w && v != y && v != c && w != y && w != c && y != c && u != u'
    ensures Reachable(NO_GAPS, s) && Stuck(NO_GAPS, s) && s.txs.Keys == {v, c}
    ensures Sweeping(s, c) && s.txs[v].recipients == [u', u]
  {
    var parent := Root(name);
    var b := OneMessageTwice(NO_GAPS, v, w, name);
    Takes(NO_GAPS, System(b, map[], {}), P.StartWorker(y));
    var b1 := P.Apply(b, P.StartWorker(y));
    Takes(NO_GAPS, System(b1, map[], {}), P.StartWorker(c));
    var b2 := P.Apply(b1, P.StartWorker(c));
    var b3 := DispatchesTwo(b2, w, [u, u']);
    BothQueued(b2, w, name, u, u');
    var b4 := TriedUntil(b3, w, parent, u, u', 0);
    var b5 := LastTry(b4, w, y, parent, u, u');
    s := SweepAndDispatchBlock(b5, v, c, parent, u, u');
  }

}
