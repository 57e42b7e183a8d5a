/**
The outbox table of apps/worker/src/server.ts: the statements that claim, complete, pause
and fail a message, and the class that runs them in place.

Time is one clock in milliseconds. A deduplication key is a caller's own key or the key the
notification dispatcher derives from its message and a recipient.
*/
module Outbox {
  import opened Wrappers

  datatype Topic = EmailDeliver | SmsDeliver | ReminderEvaluate | FileScan | NotificationDispatch | DomainEvent

  datatype Status = Pending | Processing | Completed | Dead

  datatype DedupKey = Root(name: string) | Child(parent: DedupKey, user: nat)

  datatype Lease = Lease(holder: string, since: nat)

  datatype Message = Message(
    topic: Topic, dedup: DedupKey, status: Status, availableAt: nat,
    attempts: nat, maxAttempts: nat, lease: Option<Lease>)

  type Table = map<nat, Message>

  /** What a worker keeps in memory of the row it claimed, with the attempt already counted. */
  datatype Claimed = Claimed(id: nat, topic: Topic, dedup: DedupKey, attempts: nat, maxAttempts: nat)

  const LEASE_MS := 300_000
  const PAUSE_MS := 1_000
  const CHILD_MAX_ATTEMPTS := 8

  /** The topics whose effect and completion are one transaction. */
  predicate Transactional(topic: Topic) {
    topic.FileScan? || topic.NotificationDispatch? || topic.DomainEvent?
  }

  predicate Terminal(m: Message) {
    m.status.Completed? || m.status.Dead?
  }

  // ---------- The statements ----------

  predicate Expired(m: Message, now: nat) {
    m.lease.Some? && m.lease.value.since + LEASE_MS < now
  }

  predicate Exhausted(m: Message, now: nat) {
    m.status.Processing? && Expired(m, now) && m.attempts >= m.maxAttempts
  }

  /** UPDATE ... SET status = 'dead' for every exhausted lease. */
  function Swept(m: Message, now: nat): Message {
    if Exhausted(m, now) then m.(status := Dead, lease := None) else m
  }

  function Sweep(rows: Table, now: nat): Table {
    map id | id in rows :: Swept(rows[id], now)
  }

  predicate Eligible(m: Message, now: nat) {
    && m.attempts < m.maxAttempts
    && m.availableAt <= now
    && (m.status.Pending? || (m.status.Processing? && Expired(m, now)))
  }

  /** The row SELECT ... ORDER BY available_at, id LIMIT 1 SKIP LOCKED returns among ids below n. */
  function Pick(rows: Table, now: nat, locked: set<nat>, n: nat): Option<nat> {
    if n == 0 then None
    else
      var best := Pick(rows, now, locked, n - 1);
      var id := n - 1;
      if id in rows && id !in locked && Eligible(rows[id], now)
         && (best.None? || best.value !in rows || rows[id].availableAt < rows[best.value].availableAt)
      then Some(id) else best
  }

  function LeasedTo(m: Message, worker: string, now: nat): Message {
    m.(status := Processing, lease := Some(Lease(worker, now)), attempts := m.attempts + 1)
  }

  function ClaimOf(id: nat, m: Message): Claimed {
    Claimed(id, m.topic, m.dedup, m.attempts, m.maxAttempts)
  }

  /** WHERE id = ? AND status = 'processing' AND locked_by = ?. */
  predicate Owned(rows: Table, id: nat, worker: string) {
    id in rows && rows[id].status.Processing? && rows[id].lease.Some? && rows[id].lease.value.holder == worker
  }

  function CompletedRow(m: Message): Message {
    m.(status := Completed, lease := None)
  }

  function PausedRow(m: Message, now: nat): Message {
    m.(status := Pending, availableAt := now + PAUSE_MS,
       attempts := if m.attempts >= 1 then m.attempts - 1 else 0, lease := None)
  }

  function Power2(n: nat): nat {
    if n == 0 then 1 else 2 * Power2(n - 1)
  }

  function DelaySeconds(attempts: nat): nat {
    var delay := Power2(if attempts < 10 then attempts else 10) * 5;
    if delay < 3_600 then delay else 3_600
  }

  /** Whether fail buries the message, from what the worker remembers of it. */
  predicate Buries(c: Claimed, permanent: bool) {
    permanent || c.attempts >= c.maxAttempts
  }

  function FailedRow(m: Message, c: Claimed, permanent: bool, now: nat): Message {
    m.(status := if Buries(c, permanent) then Dead else Pending,
       availableAt := now + DelaySeconds(c.attempts) * 1_000, lease := None)
  }

  predicate KeyTaken(rows: Table, key: DedupKey) {
    exists id :: id in rows && rows[id].dedup == key
  }

  function ChildMessage(parent: DedupKey, user: nat, now: nat): Message {
    Message(EmailDeliver, Child(parent, user), Pending, now, 0, CHILD_MAX_ATTEMPTS, None)
  }

  /** The loop of dispatchNotification: one child per recipient whose key is not taken yet. */
  function QueueChildren(rows: Table, nextId: nat, parent: DedupKey, users: seq<nat>, now: nat): (r: (Table, nat))
  {
    if users == [] then (rows, nextId)
    else
      var (before, id) := QueueChildren(rows, nextId, parent, users[..|users| - 1], now);
      var user := users[|users| - 1];
      if KeyTaken(before, Child(parent, user)) then (before, id)
      else (before[id := ChildMessage(parent, user, now)], id + 1)
  }

  /** The table after the committed dispatch of message id. */
  function Dispatched(rows: Table, nextId: nat, id: nat, users: seq<nat>, now: nat): (Table, nat)
    requires id in rows
  {
    var (queued, next) := if rows[id].topic.NotificationDispatch?
      then QueueChildren(rows, nextId, rows[id].dedup, users, now) else (rows, nextId);
    (if id in queued then queued[id := CompletedRow(queued[id])] else queued, next)
  }

  // ---------- What the statements achieve ----------

  /** Pick returns an eligible unlocked row with the earliest available_at and, among those, the least id. */
  lemma {:induction false} PickIsFirst(rows: Table, now: nat, locked: set<nat>, n: nat)
    ensures var best := Pick(rows, now, locked, n);
            && (best.Some? ==>
                  && best.value < n && best.value in rows && best.value !in locked && Eligible(rows[best.value], now)
                  && forall id | id in rows && id < n && id !in locked && Eligible(rows[id], now) ::
                       rows[best.value].availableAt < rows[id].availableAt
                       || (rows[best.value].availableAt == rows[id].availableAt && best.value <= id))
            && (best.None? ==> forall id | id in rows && id < n && id !in locked :: !Eligible(rows[id], now))
  {
    if n > 0 { PickIsFirst(rows, now, locked, n - 1); }
  }

  /** Same message, whatever happened to its lease, attempts and times. */
  predicate SameMessage(m: Message, m': Message) {
    m'.topic == m.topic && m'.dedup == m.dedup && m'.maxAttempts == m.maxAttempts
  }

  /** Eligible exactly from this moment on, and leased to nobody. */
  ghost predicate EligibleFrom(m: Message, moment: nat) {
    m.lease.None? && forall now :: Eligible(m, now) <==> moment <= now
  }

  /**
  A claim that is paused leaves the row as it was, but pending, with the attempts it had, and
  eligible exactly from one second after the pause.
  */
  lemma PauseUndoesClaim(m: Message, worker: string, claimedAt: nat, now: nat)
    requires Eligible(m, claimedAt)
    ensures var paused := PausedRow(LeasedTo(m, worker, claimedAt), now);
            && EligibleFrom(paused, now + PAUSE_MS)
            && paused.attempts == m.attempts
            && paused == m.(status := Pending, availableAt := now + PAUSE_MS, lease := None)
  {
  }

  lemma {:induction false} PowersGrow(m: nat, n: nat)
    requires m <= n
    ensures 1 <= Power2(m) <= Power2(n)
    decreases n
  {
    if m < n {
      PowersGrow(m, n - 1);
    } else if n > 0 {
      PowersGrow(n - 1, n - 1);
    }
  }

  /** The delay starts at five seconds and doubles with every attempt, up to an hour. */
  lemma DelayDoubles(attempts: nat)
    ensures DelaySeconds(0) == 5
    ensures DelaySeconds(attempts + 1)
         == if 2 * DelaySeconds(attempts) < 3_600 then 2 * DelaySeconds(attempts) else 3_600
    ensures 5 <= DelaySeconds(attempts) <= 3_600
  {
    PowersGrow(0, if attempts < 10 then attempts else 10);
    assert Power2(3) == 8 && Power2(6) == 8 * Power2(3) && Power2(9) == 8 * Power2(6);
    if attempts >= 10 {
      assert Power2(10) == 1024;
    } else if attempts < 9 {
      PowersGrow(attempts, 8);
      PowersGrow(attempts + 1, 9);
      assert Power2(8) == 256 && Power2(9) == 512;
    }
  }

  /**
  A holder that fails the row it remembers buries it exactly when the error is permanent or no
  attempt is left; otherwise the row keeps its attempts and is eligible exactly from the delay on,
  between five seconds and an hour.
  */
  lemma FailDelays(id: nat, m: Message, permanent: bool, now: nat)
    ensures var failed := FailedRow(m, ClaimOf(id, m), permanent, now);
            && failed.attempts == m.attempts
            && (if permanent || m.attempts >= m.maxAttempts
                then failed.status.Dead? && forall at :: !Eligible(failed, at) && !Exhausted(failed, at)
                else
                  var delay := DelaySeconds(m.attempts) * 1_000;
                  5_000 <= delay <= 3_600_000 && EligibleFrom(failed, now + delay))
  {
    DelayDoubles(m.attempts);
  }

  ghost predicate UniqueKeys(rows: Table) {
    forall i, j | i in rows && j in rows && rows[i].dedup == rows[j].dedup :: i == j
  }

  ghost predicate Below(rows: Table, nextId: nat) {
    forall id | id in rows :: id < nextId
  }

  predicate IsChild(m: Message, parent: DedupKey, users: seq<nat>, now: nat) {
    m.dedup.Child? && m.dedup.user in users && m == ChildMessage(parent, m.dedup.user, now)
  }

  /** Queueing keeps every row, and adds exactly the children of the recipients. */
  lemma {:induction false} QueueAdds(rows: Table, nextId: nat, parent: DedupKey, users: seq<nat>, now: nat)
    requires Below(rows, nextId) && UniqueKeys(rows)
    ensures var (queued, next) := QueueChildren(rows, nextId, parent, users, now);
            && nextId <= next && Below(queued, next) && UniqueKeys(queued)
            && (forall id | id in rows :: id in queued && queued[id] == rows[id])
            && (forall id | id in queued && id !in rows :: nextId <= id && IsChild(queued[id], parent, users, now))
            && (forall user | user in users :: KeyTaken(queued, Child(parent, user)))
  {
    if users != [] {
      var init, user := users[..|users| - 1], users[|users| - 1];
      QueueAdds(rows, nextId, parent, init, now);
      var (before, id) := QueueChildren(rows, nextId, parent, init, now);
      var (queued, next) := QueueChildren(rows, nextId, parent, users, now);
      forall other | other in users ensures KeyTaken(queued, Child(parent, other)) {
        if other in init {
          var k :| k in before && before[k].dedup == Child(parent, other);
          assert queued[k].dedup == Child(parent, other);
        } else {
          assert other == user;
          if !KeyTaken(before, Child(parent, user)) { assert queued[id].dedup == Child(parent, user); }
        }
      }
    }
  }

  /** When no child key is taken yet, every distinct recipient gets a row of its own. */
  lemma {:induction false} QueueAddsAll(rows: Table, nextId: nat, parent: DedupKey, users: seq<nat>, now: nat)
    requires Below(rows, nextId) && UniqueKeys(rows)
    requires forall i, j | 0 <= i < j < |users| :: users[i] != users[j]
    requires forall user | user in users :: !KeyTaken(rows, Child(parent, user))
    ensures QueueChildren(rows, nextId, parent, users, now).1 == nextId + |users|
  {
    if users != [] {
      var init, user := users[..|users| - 1], users[|users| - 1];
      QueueAddsAll(rows, nextId, parent, init, now);
      QueueAdds(rows, nextId, parent, init, now);
      var before := QueueChildren(rows, nextId, parent, init, now).0;
      forall id | id in before ensures before[id].dedup != Child(parent, user) {
        assert !KeyTaken(rows, Child(parent, user));
        assert id in rows || IsChild(before[id], parent, init, now);
      }
    }
  }

  /** A committed dispatch completes its message, keeps the other rows and adds only its children, one per recipient. */
  ghost predicate DispatchEffect(rows: Table, nextId: nat, id: nat, users: seq<nat>, now: nat, rows': Table, next: nat)
    requires id in rows
  {
    && nextId <= next && Below(rows', next) && UniqueKeys(rows')
    && (forall other | other in rows && other != id :: other in rows' && rows'[other] == rows[other])
    && id in rows' && rows'[id] == CompletedRow(rows[id])
    && (forall other | other in rows' && other !in rows ::
          nextId <= other && rows[id].topic.NotificationDispatch? && IsChild(rows'[other], rows[id].dedup, users, now))
    && (rows[id].topic.NotificationDispatch? ==>
          forall user | user in users :: KeyTaken(rows', Child(rows[id].dedup, user)))
  }

  lemma DispatchedEffect(rows: Table, nextId: nat, id: nat, users: seq<nat>, now: nat)
    requires Below(rows, nextId) && UniqueKeys(rows) && id in rows
    ensures var (rows', next) := Dispatched(rows, nextId, id, users, now);
            DispatchEffect(rows, nextId, id, users, now, rows', next)
  {
    if rows[id].topic.NotificationDispatch? {
      QueueAdds(rows, nextId, rows[id].dedup, users, now);
      var queued := QueueChildren(rows, nextId, rows[id].dedup, users, now).0;
      var rows' := queued[id := CompletedRow(queued[id])];
      forall user | user in users ensures KeyTaken(rows', Child(rows[id].dedup, user)) {
        var k :| k in queued && queued[k].dedup == Child(rows[id].dedup, user);
        assert rows'[k].dedup == Child(rows[id].dedup, user);
      }
    }
  }

  // ---------- The table in place ----------

  class OutboxTable {
    var rows: Table
    var nextId: nat

    ghost predicate Valid()
      reads this
    {
      Below(rows, nextId) && UniqueKeys(rows)
    }

    constructor ()
      ensures Valid() && rows == map[]
    {
      rows, nextId := map[], 0;
    }

    method Enqueue(topic: Topic, name: string, maxAttempts: nat, availableAt: nat) returns (inserted: bool)
      requires Valid()
      modifies this
      ensures Valid()
      ensures inserted <==> !KeyTaken(old(rows), Root(name))
      ensures !inserted ==> rows == old(rows)
      ensures inserted ==>
                rows == old(rows)[old(nextId) := Message(topic, Root(name), Pending, availableAt, 0, maxAttempts, None)]
    {
      inserted := !KeyTaken(rows, Root(name));
      if inserted {
        rows := rows[nextId := Message(topic, Root(name), Pending, availableAt, 0, maxAttempts, None)];
        nextId := nextId + 1;
      }
    }

    /** claim: bury exhausted leases, then lease the first eligible unlocked row. The fence is checked first. */
    method Claim(worker: string, now: nat, locked: set<nat>, fenceActive: bool) returns (claimed: Option<Claimed>)
      requires Valid()
      modifies this`rows
      ensures Valid()
      ensures !fenceActive ==> claimed.None? && rows == old(rows)
      ensures fenceActive ==>
                var swept := Sweep(old(rows), now);
                if claimed.None? then
                  && rows == swept
                  && forall id | id in swept && id !in locked :: !Eligible(swept[id], now)
                else
                  && var id := claimed.value.id;
                  && id in swept && id !in locked && Eligible(swept[id], now)
                  && rows == swept[id := LeasedTo(swept[id], worker, now)]
                  && claimed.value == ClaimOf(id, rows[id])
                  && forall other | other in swept && other !in locked && Eligible(swept[other], now) ::
                       swept[id].availableAt <= swept[other].availableAt
      ensures forall id | id in old(rows) && old(rows)[id].status.Processing? && old(rows)[id].lease.Some?
                          && now <= old(rows)[id].lease.value.since + 300_000 ::
                id in rows && rows[id] == old(rows)[id]
    {
      claimed := None;
      if fenceActive {
        rows := Sweep(rows, now);
        var pick := Pick(rows, now, locked, nextId);
        PickIsFirst(rows, now, locked, nextId);
        if pick.Some? {
          var id := pick.value;
          rows := rows[id := LeasedTo(rows[id], worker, now)];
          claimed := Some(ClaimOf(id, rows[id]));
        }
      }
    }

    /** completeLease; false where it throws because the lease was lost. */
    method CompleteLease(id: nat, worker: string) returns (done: bool)
      requires Valid()
      modifies this`rows
      ensures Valid() && done == Owned(old(rows), id, worker)
      ensures rows == if done then old(rows)[id := CompletedRow(old(rows)[id])] else old(rows)
    {
      done := Owned(rows, id, worker);
      if done {
        rows := rows[id := CompletedRow(rows[id])];
      }
    }

    /** pause: the holder gives the attempt of its claim back, and anyone may claim the row a second later. */
    method Pause(id: nat, worker: string, now: nat) returns (done: bool)
      requires Valid()
      modifies this`rows
      ensures Valid() && done == Owned(old(rows), id, worker)
      ensures rows - {id} == old(rows) - {id} && (!done ==> rows == old(rows))
      ensures done ==> id in rows && SameMessage(old(rows)[id], rows[id]) && !Owned(rows, id, worker)
      ensures done && 1 <= old(rows)[id].attempts <= old(rows)[id].maxAttempts ==>
                rows[id].attempts + 1 == old(rows)[id].attempts && EligibleFrom(rows[id], now + PAUSE_MS)
    {
      done := Owned(rows, id, worker);
      if done {
        rows := rows[id := PausedRow(rows[id], now)];
      }
    }

    /** fail: the holder buries its row or lets it wait for the delay; the attempt stays counted. */
    method Fail(c: Claimed, worker: string, permanent: bool, now: nat) returns (done: bool)
      requires Valid()
      modifies this`rows
      ensures Valid() && done == Owned(old(rows), c.id, worker)
      ensures rows - {c.id} == old(rows) - {c.id} && (!done ==> rows == old(rows))
      ensures done ==>
                && c.id in rows && SameMessage(old(rows)[c.id], rows[c.id]) && !Owned(rows, c.id, worker)
                && rows[c.id].attempts == old(rows)[c.id].attempts
                && (rows[c.id].status.Dead? <==> permanent || c.attempts >= c.maxAttempts)
      ensures done && c == ClaimOf(c.id, old(rows)[c.id]) && !rows[c.id].status.Dead? ==>
                EligibleFrom(rows[c.id], now + DelaySeconds(c.attempts) * 1_000)
    {
      done := Owned(rows, c.id, worker);
      if done {
        FailDelays(c.id, rows[c.id], permanent, now);
        rows := rows[c.id := FailedRow(rows[c.id], c, permanent, now)];
      }
    }

    /** dispatchNotification's transaction: a child per recipient, then the lease; a lost lease rolls all back. */
    method DispatchNotification(c: Claimed, worker: string, users: seq<nat>, now: nat) returns (done: bool)
      requires Valid() && c.topic.NotificationDispatch?
      requires c.id in rows ==> rows[c.id].topic == c.topic && rows[c.id].dedup == c.dedup
      modifies this
      ensures Valid() && done == Owned(old(rows), c.id, worker)
      ensures !done ==> rows == old(rows) && nextId == old(nextId)
      ensures done ==> (rows, nextId) == Dispatched(old(rows), old(nextId), c.id, users, now)
    {
      var before, id := rows, nextId;
      for i := 0 to |users|
        invariant (rows, nextId) == QueueChildren(before, id, c.dedup, users[..i], now)
      {
        assert users[..i + 1][..i] == users[..i];
        if !KeyTaken(rows, Child(c.dedup, users[i])) {
          rows := rows[nextId := ChildMessage(c.dedup, users[i], now)];
          nextId := nextId + 1;
        }
      }
      assert users[..|users|] == users;
      QueueAdds(before, id, c.dedup, users, now);
      done := CompleteLease(c.id, worker);
      if !done {
        rows, nextId := before, id;
      }
      assert c.id in before ==> before[c.id] == QueueChildren(before, id, c.dedup, users, now).0[c.id];
    }
  }
}
