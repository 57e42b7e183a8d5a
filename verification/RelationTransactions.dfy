/**
The transactions that activate relations of suppliers and SKUs, statement by statement: approved
changes (apps/api/src/modules/approvals/supply-approval-effects.ts), direct writes of factories and
submissions (apps/api/src/modules/suppliers/writes.ts). Each locks its own row; an approved primary
then takes the mark from the other primaries of its factory and SKU.
*/
module RelationTransactions {
  import opened Wrappers
  import opened RowLocks
  import opened ApprovalEffects
  import opened FactoryWrites

  /** An approval of the relation with this id by an actor, or a write, which a factory may do directly. */
  datatype Job = Approve(id: int, actor: int, now: nat) | Put(id: int, write: SkuWrite, direct: bool)

  /** It has its row, as it read it, or has also demoted these others. */
  datatype Phase = Begun | Holding(relation: Relation) | Demoted(relation: Relation, others: set<int>)

  datatype Writer = Writer(job: Job, phase: Phase)

  datatype State = State(relations: map<int, Relation>, writers: map<nat, Writer>)

  datatype Step =
    | Begin(n: nat, job: Job)
    | LockRow(n: nat)
    | DemoteOthers(n: nat)
    | Commit(n: nat)
    | Abort(n: nat)

  predicate SameGroup(a: Relation, b: Relation) {
    a.factory == b.factory && a.sku == b.sku
  }

  /** The row as the job is going to hold it. */
  function Target(s: State, job: Job): Option<Relation> {
    match job
    case Approve(id, _, _) => if id in s.relations then Some(s.relations[id]) else None
    case Put(_, w, direct) => Some(NewRow(w, direct))
  }

  /** A direct write is active at once, any other one is submitted for approval. */
  function NewRow(w: SkuWrite, direct: bool): Relation {
    if direct then Written(w) else Written(w).(status := Pending)
  }

  /** The other relations of its factory and SKU that have the mark. */
  function OtherPrimaries(relations: map<int, Relation>, id: int, relation: Relation): set<int> {
    set k | k in relations && k != id && SameGroup(relations[k], relation) && relations[k].isPrimary
  }

  /** An approval finds its row pending; the row a write finds is its own, or it finds none. */
  predicate Finds(s: State, job: Job) {
    match job
    case Approve(id, _, _) => id in s.relations && s.relations[id].status == Pending
    case Put(id, w, _) =>
      if id in s.relations then SameRelation(s.relations[id], w)
      else forall k | k in s.relations :: !SameRelation(s.relations[k], w)
  }

  /** Its own row is not held or demoted by another, nor an insert of the same factory, supplier and SKU under way. */
  predicate RowFree(s: State, n: nat, job: Job) {
    forall m | m in s.writers && m != n && !s.writers[m].phase.Begun? ::
      && s.writers[m].job.id != job.id
      && (s.writers[m].phase.Demoted? ==> job.id !in s.writers[m].phase.others)
      && (s.writers[m].job.Put? && job.Put? ==> !SameRelation(Written(s.writers[m].job.write), job.write))
  }

  /** ranges: an update locks all it scans, as repeatable read does; then nobody else is at work in the group. */
  predicate RangeFree(s: State, n: nat, relation: Relation) {
    forall m | m in s.writers && m != n && s.writers[m].phase.Demoted? ::
      !SameGroup(s.writers[m].phase.relation, relation)
  }

  predicate GroupFree(s: State, n: nat, relation: Relation) {
    forall m | m in s.writers && m != n && !s.writers[m].phase.Begun? ::
      !SameGroup(s.writers[m].phase.relation, relation)
  }

  /** The rows that are demoted are held by nobody else. */
  predicate OthersFree(s: State, n: nat, others: set<int>) {
    forall m | m in s.writers && m != n && !s.writers[m].phase.Begun? ::
      s.writers[m].job.id !in others && (s.writers[m].phase.Demoted? ==> s.writers[m].phase.others !! others)
  }

  predicate Demotes(w: Writer) {
    w.phase.Holding? && w.job.Approve? && w.phase.relation.isPrimary
  }

  predicate Enabled(ranges: bool, s: State, step: Step) {
    match step
    case Begin(n, _) => n !in s.writers
    case LockRow(n) =>
      && n in s.writers && s.writers[n].phase.Begun? && RowFree(s, n, s.writers[n].job)
      && (ranges && Target(s, s.writers[n].job).Some? ==> RangeFree(s, n, Target(s, s.writers[n].job).value))
    case DemoteOthers(n) =>
      && n in s.writers && Demotes(s.writers[n])
      && OthersFree(s, n, OtherPrimaries(s.relations, s.writers[n].job.id, s.writers[n].phase.relation))
      && (ranges ==> GroupFree(s, n, s.writers[n].phase.relation))
    case Commit(n) =>
      n in s.writers && (s.writers[n].phase.Demoted? || (s.writers[n].phase.Holding? && !Demotes(s.writers[n])))
    case Abort(n) => n in s.writers
  }

  /** The rows that were demoted lose their mark, and its own row is written. */
  function Merged(relations: map<int, Relation>, w: Writer): map<int, Relation>
    requires !w.phase.Begun?
  {
    match w.job
    case Put(id, write, direct) => relations[id := NewRow(write, direct)]
    case Approve(id, actor, now) =>
      var others := if w.phase.Demoted? then w.phase.others else {};
      var kept := map k | k in relations ::
        if k in others then relations[k].(isPrimary := false, updatedAt := now) else relations[k];
      kept[id := w.phase.relation.(status := Active, reviewedBy := Some(actor), updatedAt := now)]
  }

  function With(s: State, n: nat, phase: Phase): State
    requires n in s.writers
  {
    s.(writers := s.writers[n := s.writers[n].(phase := phase)])
  }

  function Gone(s: State, n: nat): State {
    s.(writers := s.writers - {n})
  }

  function Apply(ranges: bool, s: State, step: Step): State
    requires Enabled(ranges, s, step)
  {
    match step
    case Begin(n, job) => s.(writers := s.writers[n := Writer(job, Begun)])
    case LockRow(n) =>
      var job := s.writers[n].job;
      if !Finds(s, job) || Target(s, job).None? then Gone(s, n) else With(s, n, Holding(Target(s, job).value))
    case DemoteOthers(n) =>
      var w := s.writers[n];
      With(s, n, Demoted(w.phase.relation, OtherPrimaries(s.relations, w.job.id, w.phase.relation)))
    case Commit(n) => State(Merged(s.relations, s.writers[n]), s.writers - {n})
    case Abort(n) => Gone(s, n)
  }

  // ---------- What every interleaving keeps ----------

  /** A row that a writer holds is as it read it. */
  ghost predicate HeldOk(s: State, n: nat)
    requires n in s.writers
  {
    var w := s.writers[n];
    && (!w.phase.Begun? ==>
          && RowFree(s, n, w.job)
          && if w.job.Approve? then w.job.id in s.relations && s.relations[w.job.id] == w.phase.relation
                                    && w.phase.relation.status == Pending
             else w.phase.relation == NewRow(w.job.write, w.job.direct) && Finds(s, w.job))
    && (w.phase.Demoted? ==> w.job.Approve? && w.phase.relation.isPrimary)
  }

  /** The invariant that row locks give. */
  ghost predicate RowInv(s: State) {
    OnePrimary(s.relations) && forall n | n in s.writers :: HeldOk(s, n)
  }

  /** Under range locks, what an approval has demoted still are all other primaries of its group. */
  ghost predicate WriterOk(s: State, n: nat)
    requires n in s.writers
  {
    var w := s.writers[n];
    && HeldOk(s, n)
    && (w.phase.Demoted? ==>
          && w.phase.others == OtherPrimaries(s.relations, w.job.id, w.phase.relation)
          && GroupFree(s, n, w.phase.relation))
  }

  ghost predicate Inv(s: State) {
    OnePrimary(s.relations) && forall n | n in s.writers :: WriterOk(s, n)
  }

  /** A direct write that commits is undisputed at that moment. */
  ghost predicate UndisputedCommit(s: State, step: Step) {
    step.Commit? && step.n in s.writers && s.writers[step.n].job.Put? && s.writers[step.n].job.direct ==>
      Undisputed(TablesOf(s), s.writers[step.n].job.write, s.writers[step.n].job.id)
  }

  function TablesOf(s: State): Tables {
    Tables(map[], map[], s.relations, [], map[], map[], map[], map[], [])
  }

  /** Of all commits exactly a disputed direct write ends the uniqueness of active primaries. */
  lemma CommitKeepsPrimary(s: State, n: nat)
    requires Inv(s) && Enabled(true, s, Commit(n))
    ensures OnePrimary(Merged(s.relations, s.writers[n])) <==> UndisputedCommit(s, Commit(n))
  {
    assert WriterOk(s, n);
    if s.writers[n].job.Put? && s.writers[n].job.direct {
      OnePrimaryExactly(TablesOf(s), s.writers[n].job.write, s.writers[n].job.id);
    }
  }

  lemma CommitKeepsWriter(s: State, n: nat, m: nat)
    requires Inv(s) && Enabled(true, s, Commit(n)) && m in s.writers && m != n
    ensures WriterOk(Apply(true, s, Commit(n)), m)
  {
    assert WriterOk(s, n) && WriterOk(s, m);
  }

  lemma StepKeepsInv(s: State, step: Step)
    requires Inv(s) && Enabled(true, s, step)
    ensures Inv(Apply(true, s, step)) <==> UndisputedCommit(s, step)
  {
    var t := Apply(true, s, step);
    if step.Commit? {
      CommitKeepsPrimary(s, step.n);
    }
    forall m | m in t.writers ensures WriterOk(t, m) {
      if m in s.writers {
        if step.Commit? {
          CommitKeepsWriter(s, step.n, m);
        } else {
          assert WriterOk(s, m);
        }
      }
    }
  }

  // ---------- Whole runs ----------

  /** Step i leads from one state to the next. */
  ghost predicate Linked(ranges: bool, run: seq<State>, steps: seq<Step>, i: nat) {
    && i < |steps| && i + 1 < |run|
    && Enabled(ranges, run[i], steps[i]) && run[i + 1] == Apply(ranges, run[i], steps[i])
  }

  ghost predicate IsRun(ranges: bool, run: seq<State>, steps: seq<Step>) {
    && |run| == |steps| + 1
    && OnePrimary(run[0].relations) && run[0].writers == map[]
    && forall i: nat | i < |steps| :: Linked(ranges, run, steps, i)
  }

  /**
  With range locks there is one active primary per factory and SKU in every interleaving of the
  statements, as long as each direct write is undisputed when it commits.
  */
  lemma {:induction false} OnePrimaryAlways(run: seq<State>, steps: seq<Step>, n: nat)
    requires IsRun(true, run, steps) && n < |run|
    requires forall i | 0 <= i < n :: UndisputedCommit(run[i], steps[i])
    ensures Inv(run[n])
    decreases n
  {
    if n > 0 {
      OnePrimaryAlways(run, steps, n - 1);
      assert Linked(true, run, steps, n - 1);
      StepKeepsInv(run[n - 1], steps[n - 1]);
    }
  }

  lemma MergedIsDemoted(relations: map<int, Relation>, w: Writer)
    requires !w.phase.Begun? && w.job.Approve? && w.job.id in relations && relations[w.job.id] == w.phase.relation
    requires w.phase.Demoted? ==>
               w.phase.relation.isPrimary && w.phase.others == OtherPrimaries(relations, w.job.id, w.phase.relation)
    requires w.phase.Demoted? <== w.phase.relation.isPrimary
    ensures var kept := if w.phase.Demoted? then Demote(relations, w.job.id, w.job.now) else relations;
            Merged(relations, w)
            == kept[w.job.id := w.phase.relation.(
                 status := Active, reviewedBy := Some(w.job.actor), updatedAt := w.job.now)]
  {
  }

  lemma ApprovalIsEffect(s: State, n: nat, hash: Relation -> string, t: Tables, approval: Approval)
    requires Enabled(true, s, Commit(n)) && WriterOk(s, n) && s.writers[n].job.Approve?
    requires t.relations == s.relations && approval.entity == s.writers[n].job.id
    requires approval.payload.Fields? && IdOk(approval.payload.targetVersion)
    requires HasVersion(t, SkuVersion(approval.entity), approval.payload.targetVersion.value)
    requires approval.entity in t.relations && approval.payload.targetHash == Some(hash(t.relations[approval.entity]))
    ensures var job := s.writers[n].job;
            var after := ApplySupplierSku(hash, t, approval, Approved, job.actor, job.now);
            after.Success? && after.value.relations == Apply(true, s, Commit(n)).relations
  {
    MergedIsDemoted(s.relations, s.writers[n]);
  }

  /** The statements of an approval are, at its commit, the one step of the effect on the tables of that moment. */
  lemma ApprovalCommitIsAtomic(run: seq<State>, steps: seq<Step>, i: nat, hash: Relation -> string, t: Tables,
                               approval: Approval)
    requires IsRun(true, run, steps) && i < |steps| && steps[i].Commit?
    requires forall k | 0 <= k < i :: UndisputedCommit(run[k], steps[k])
    requires steps[i].n in run[i].writers && run[i].writers[steps[i].n].job.Approve?
    requires t.relations == run[i].relations && approval.entity == run[i].writers[steps[i].n].job.id
    requires approval.payload.Fields? && IdOk(approval.payload.targetVersion)
    requires HasVersion(t, SkuVersion(approval.entity), approval.payload.targetVersion.value)
    requires approval.entity in t.relations && approval.payload.targetHash == Some(hash(t.relations[approval.entity]))
    ensures var job := run[i].writers[steps[i].n].job;
            var after := ApplySupplierSku(hash, t, approval, Approved, job.actor, job.now);
            after.Success? && after.value.relations == run[i + 1].relations
  {
    OnePrimaryAlways(run, steps, i);
    assert Linked(true, run, steps, i);
    assert WriterOk(run[i], steps[i].n);
    ApprovalIsEffect(run[i], steps[i].n, hash, t, approval);
  }

  // ---------- With or without range locks ----------

  /** Every other active primary of its group is one that the approval has demoted, so none has entered since. */
  ghost predicate NoneEntered(s: State, w: Writer) {
    w.phase.Demoted? ==>
      forall k | && k in s.relations && k != w.job.id && ActivePrimary(s.relations[k])
                 && SameGroup(s.relations[k], w.phase.relation) ::
        k in w.phase.others
  }

  /** A commit of a direct write that is undisputed, or of an approval into whose group no primary has entered. */
  ghost predicate KeepsPrimary(s: State, step: Step) {
    step.Commit? && step.n in s.writers ==>
      if s.writers[step.n].job.Put? then UndisputedCommit(s, step) else NoneEntered(s, s.writers[step.n])
  }

  lemma ApprovalExactly(ranges: bool, s: State, n: nat)
    requires RowInv(s) && Enabled(ranges, s, Commit(n)) && s.writers[n].job.Approve?
    ensures OnePrimary(Merged(s.relations, s.writers[n])) <==> NoneEntered(s, s.writers[n])
  {
    assert HeldOk(s, n);
    var w, after := s.writers[n], Merged(s.relations, s.writers[n]);
    if !NoneEntered(s, w) {
      var k :| && k in s.relations && k != w.job.id && ActivePrimary(s.relations[k])
               && SameGroup(s.relations[k], w.phase.relation) && k !in w.phase.others;
      assert ActivePrimary(after[k]) && ActivePrimary(after[w.job.id]);
    }
  }

  /** Which commits keep one active primary, whether or not updates lock ranges. */
  lemma CommitExactly(ranges: bool, s: State, n: nat)
    requires RowInv(s) && Enabled(ranges, s, Commit(n))
    ensures OnePrimary(Merged(s.relations, s.writers[n])) <==> KeepsPrimary(s, Commit(n))
  {
    assert HeldOk(s, n);
    match s.writers[n].job
    case Approve(_, _, _) => ApprovalExactly(ranges, s, n);
    case Put(id, write, direct) =>
      if direct {
        OnePrimaryExactly(TablesOf(s), write, id);
      }
  }

  lemma CommitKeepsHeld(ranges: bool, s: State, n: nat, m: nat)
    requires RowInv(s) && Enabled(ranges, s, Commit(n)) && m in s.writers && m != n
    ensures HeldOk(Apply(ranges, s, Commit(n)), m)
  {
    assert HeldOk(s, n) && HeldOk(s, m);
  }

  lemma StepKeepsRows(ranges: bool, s: State, step: Step)
    requires RowInv(s) && Enabled(ranges, s, step)
    ensures RowInv(Apply(ranges, s, step)) <==> KeepsPrimary(s, step)
    ensures OnePrimary(Apply(ranges, s, step).relations) <==> KeepsPrimary(s, step)
  {
    var t := Apply(ranges, s, step);
    if step.Commit? {
      CommitExactly(ranges, s, step.n);
    }
    forall m | m in t.writers ensures HeldOk(t, m) {
      if m in s.writers {
        if step.Commit? {
          CommitKeepsHeld(ranges, s, step.n, m);
        } else {
          assert HeldOk(s, m);
        }
      }
    }
  }

  lemma {:induction false} RunKeepsRows(ranges: bool, run: seq<State>, steps: seq<Step>, n: nat)
    requires IsRun(ranges, run, steps) && n < |run|
    requires forall i | 0 <= i < n :: KeepsPrimary(run[i], steps[i])
    ensures RowInv(run[n])
    decreases n
  {
    if n > 0 {
      RunKeepsRows(ranges, run, steps, n - 1);
      assert Linked(ranges, run, steps, n - 1);
      StepKeepsRows(ranges, run[n - 1], steps[n - 1]);
    }
  }

  /**
  One active primary per factory and SKU holds all the time exactly if each direct write is undisputed
  when it commits, and no active primary has entered the group of an approval between its demotion and
  its commit.
  */
  lemma {:induction false} OnePrimaryThroughout(ranges: bool, run: seq<State>, steps: seq<Step>, n: nat)
    requires IsRun(ranges, run, steps) && n < |run|
    ensures (forall k | 0 <= k <= n :: OnePrimary(run[k].relations))
       <==> (forall i | 0 <= i < n :: KeepsPrimary(run[i], steps[i]))
    decreases n
  {
    if n > 0 {
      OnePrimaryThroughout(ranges, run, steps, n - 1);
      if forall i | 0 <= i < n - 1 :: KeepsPrimary(run[i], steps[i]) {
        RunKeepsRows(ranges, run, steps, n - 1);
        assert Linked(ranges, run, steps, n - 1);
        StepKeepsRows(ranges, run[n - 1], steps[n - 1]);
      }
    }
  }

  // ---------- Without range locks ----------

  ghost predicate ReachableFrom(ranges: bool, s: State, t: State) {
    exists run, steps :: IsRun(ranges, run, steps) && run[0] == s && run[|steps|] == t
  }

  lemma ReachesNext(ranges: bool, s: State, t: State, step: Step)
    requires ReachableFrom(ranges, s, t) && Enabled(ranges, t, step)
    ensures ReachableFrom(ranges, s, Apply(ranges, t, step))
  {
    var run, steps :| IsRun(ranges, run, steps) && run[0] == s && run[|steps|] == t;
    var run', steps' := run + [Apply(ranges, t, step)], steps + [step];
    forall i: nat | i < |steps'| ensures Linked(ranges, run', steps', i) {
      if i < |steps| {
        assert Linked(ranges, run, steps, i);
        assert run'[i] == run[i] && run'[i + 1] == run[i + 1] && steps'[i] == steps[i];
      }
    }
    assert IsRun(ranges, run', steps') && run'[0] == s && run'[|steps'|] == Apply(ranges, t, step);
  }

  /** A pending primary, and no other relation of its group that has the mark. */
  ghost predicate LonePrimary(s: State, id: int) {
    && s.writers == map[] && OnePrimary(s.relations)
    && id in s.relations && s.relations[id].status == Pending && s.relations[id].isPrimary
    && OtherPrimaries(s.relations, id, s.relations[id]) == {}
  }

  function Two(s: State, a: Writer, b: Writer): State {
    s.(writers := map[0 := a, 1 := b])
  }

  /** An approval has demoted the others, of which there are none, before a direct write begins. */
  lemma ApprovalDemotes(s: State, approval: Job, write: Job) returns (t: State)
    requires approval.Approve? && LonePrimary(s, approval.id)
    ensures t == Two(s, Writer(approval, Demoted(s.relations[approval.id], {})), Writer(write, Begun))
    ensures ReachableFrom(false, s, t)
  {
    var relation := s.relations[approval.id];
    assert IsRun(false, [s], []);
    ReachesNext(false, s, s, Begin(0, approval));
    var s1 := s.(writers := map[0 := Writer(approval, Begun)]);
    ReachesNext(false, s, s1, LockRow(0));
    var s2 := s.(writers := map[0 := Writer(approval, Holding(relation))]);
    assert Apply(false, s1, LockRow(0)) == s2;
    ReachesNext(false, s, s2, DemoteOthers(0));
    var s3 := s.(writers := map[0 := Writer(approval, Demoted(relation, {}))]);
    assert Apply(false, s2, DemoteOthers(0)) == s3;
    ReachesNext(false, s, s3, Begin(1, write));
    t := Apply(false, s3, Begin(1, write));
  }

  /**
  Without them a new primary that is written directly between the demotion and the commit of an
  approval is not demoted, although it is undisputed when it commits.
  */
  lemma RangesAreNeeded(s: State, approval: Job, write: Job) returns (before: State, end: State)
    requires approval.Approve? && LonePrimary(s, approval.id)
    requires write.Put? && write.direct && write.write.isPrimary && write.id !in s.relations && Finds(s, write)
    requires SameGroup(Written(write.write), s.relations[approval.id])
    requires forall k | k in s.relations && SameGroup(s.relations[k], s.relations[approval.id]) ::
               !ActivePrimary(s.relations[k])
    ensures ReachableFrom(false, s, before) && Enabled(false, before, Commit(1)) && UndisputedCommit(before, Commit(1))
    ensures ReachableFrom(false, s, end) && !OnePrimary(end.relations)
    ensures Enabled(false, Apply(false, before, Commit(1)), Commit(0))
    ensures end == Apply(false, Apply(false, before, Commit(1)), Commit(0))
  {
    var t := ApprovalDemotes(s, approval, write);
    ReachesNext(false, s, t, LockRow(1));
    before := Apply(false, t, LockRow(1));
    assert before == Two(s, t.writers[0], Writer(write, Holding(Written(write.write))));
    ReachesNext(false, s, before, Commit(1));
    var middle := Apply(false, before, Commit(1));
    ReachesNext(false, s, middle, Commit(0));
    end := Apply(false, middle, Commit(0));
    assert ActivePrimary(end.relations[approval.id]) && ActivePrimary(end.relations[write.id]);
  }
}
