/**
Runs of approval effects (apps/api/src/modules/approvals/supply-approval-effects.ts): the
statements of one transaction in their order, its rollback, and what holds over any number of
them, between submissions and the direct writes of factories.
*/
module ApprovalRuns {
  import opened Wrappers
  import opened RowLocks
  import opened ApprovalEffects
  import opened ColumnReference
  import opened FactoryWrites

  // ---------- One transaction, statement by statement ----------

  class Database {
    /** What other transactions see, and the draft of the open transaction. */
    var committed: Tables
    var draft: Tables

    constructor (t: Tables)
      ensures committed == t && draft == t
    {
      committed, draft := t, t;
    }

    /** UPDATE resource_versions SET version = version + 1 WHERE ... AND version = ?; the rows affected. */
    method BumpVersion(resource: Resource, version: int) returns (affected: nat)
      modifies this`draft
      ensures affected == if HasVersion(old(draft), resource, version) then 1 else 0
      ensures draft == if affected == 1
        then old(draft).(versions := old(draft).versions[resource := version + 1]) else old(draft)
    {
      if HasVersion(draft, resource, version) {
        draft := draft.(versions := draft.versions[resource := version + 1]);
        return 1;
      }
      return 0;
    }

    method DoSupplierSku(hash: Relation -> string, approval: Approval, decision: Decision, actor: int, now: nat)
      returns (error: Option<EffectError>)
      modifies this`draft
      ensures match ApplySupplierSku(hash, old(draft), approval, decision, actor, now)
              case Success(t) => error == None && draft == t
              case Failure(e) => error == Some(e)
    {
      var p, id := approval.payload, approval.entity;
      if p.NotJson? {
        return Some(Conflict);
      }
      if p.JsonNull? {
        return Some(Crash);
      }
      if !IdOk(p.targetVersion) || p.targetHash.None? {
        return Some(Conflict);
      }
      if id !in draft.relations {
        return Some(Missing);
      }
      var relation := draft.relations[id];
      if !HasVersion(draft, SkuVersion(id), p.targetVersion.value) || hash(relation) != p.targetHash.value {
        return Some(Conflict);
      }
      if decision == Approved && relation.isPrimary {
        draft := draft.(relations := Demote(draft.relations, id, now));
      }
      if draft.relations[id].status != Pending || draft.relations[id].updatedAt != relation.updatedAt {
        return Some(Conflict);
      }
      var status := if decision == Approved then Active else Inactive;
      var reviewed := draft.relations[id].(status := status, reviewedBy := Some(actor), updatedAt := now);
      draft := draft.(relations := draft.relations[id := reviewed]);
      var bumped := BumpVersion(SkuVersion(id), p.targetVersion.value);
      if bumped != 1 {
        return Some(Conflict);
      }
      error := None;
    }

    method DoSupplierPrice(approval: Approval, decision: Decision, actor: int) returns (error: Option<EffectError>)
      modifies this`draft
      ensures match ApplySupplierPrice(old(draft), approval, decision, actor)
              case Success(t) => error == None && draft == t
              case Failure(e) => error == Some(e)
    {
      var p, id := approval.payload, approval.entity;
      if p.NotJson? {
        return Some(Conflict);
      }
      if p.JsonNull? {
        return Some(Crash);
      }
      if p.priceResource.None? || p.priceResource.value == "" || !IdOk(p.priceVersion) {
        return Some(Conflict);
      }
      if id !in draft.changes {
        return Some(Missing);
      }
      var change := draft.changes[id];
      if change.decision.Some? || p.priceResource.value != PriceKey(change.supplier, change.sku)
        || !HasVersion(draft, PriceVersion(p.priceResource.value), p.priceVersion.value)
      {
        return Some(Conflict);
      }
      if decision == Approved {
        if LatestActive(draft.prices, change.supplier, change.sku) != change.currentAgreement {
          return Some(Conflict);
        }
        if change.currentAgreement.Some? {
          var i := change.currentAgreement.value;
          draft := draft.(prices :=
            draft.prices[i := draft.prices[i].(effectiveTo := Some(change.effectiveFrom - 1), active := false)]);
        }
        draft := draft.(prices := draft.prices + [Proposed(change)]);
        var bumped := BumpVersion(PriceVersion(p.priceResource.value), p.priceVersion.value);
        if bumped != 1 {
          return Some(Conflict);
        }
      }
      draft := draft.(changes := draft.changes[id := change.(decision := Some(decision), reviewedBy := Some(actor))]);
      error := None;
    }

    /** The loop over the candidates fills planIds and marks their items. */
    method MarkCandidates(candidates: seq<Id>, decision: Decision)
      returns (error: Option<EffectError>, planIds: seq<int>)
      modifies this`draft
      ensures match MarkItems(old(draft).items, candidates, decision)
              case Success(m) => error == None && planIds == m.planIds && draft == old(draft).(items := m.items)
              case Failure(e) => error == Some(e)
    {
      planIds := [];
      for i := 0 to |candidates|
        invariant MarkItems(old(draft).items, candidates[..i], decision) == Success(Marked(draft.items, planIds))
        invariant draft == old(draft).(items := draft.items)
      {
        assert candidates[..i + 1][..i] == candidates[..i];
        var candidate := candidates[i];
        if IdOk(candidate) {
          if candidate.value !in draft.items {
            MarkFails(old(draft).items, candidates, decision, i + 1);
            return Some(Missing), planIds;
          }
          planIds := AddOnce(planIds, draft.items[candidate.value].plan);
          if decision == Approved {
            var approved := draft.items[candidate.value].(completion := "exception_approved");
            draft := draft.(items := draft.items[candidate.value := approved]);
          }
        }
      }
      assert candidates[..|candidates|] == candidates;
      error := None;
    }

    /** The loop over the plans. */
    method UpdateAllPlans(planIds: seq<int>, now: nat) returns (error: Option<EffectError>)
      modifies this`draft
      ensures match UpdatePlans(old(draft).plans, old(draft).items, planIds, now)
              case Success(plans) => error == None && draft == old(draft).(plans := plans)
              case Failure(e) => error == Some(e)
    {
      for i := 0 to |planIds|
        invariant UpdatePlans(old(draft).plans, old(draft).items, planIds[..i], now) == Success(draft.plans)
        invariant draft == old(draft).(plans := draft.plans)
      {
        assert planIds[..i + 1][..i] == planIds[..i];
        var updated := UpdatePlan(draft.plans, draft.items, planIds[i], now);
        if updated.Failure? {
          PlansFail(old(draft).plans, old(draft).items, planIds, now, i + 1);
          return Some(updated.error);
        }
        draft := draft.(plans := updated.value);
      }
      assert planIds[..|planIds|] == planIds;
      error := None;
    }

    method DoPlanDeviation(approval: Approval, decision: Decision, now: nat) returns (error: Option<EffectError>)
      modifies this`draft
      ensures match ApplyPlanDeviation(old(draft), approval, decision, now)
              case Success(t) => error == None && draft == t
              case Failure(e) => error == Some(e)
    {
      var p := approval.payload;
      if !p.Fields? || p.candidates.None? {
        return Some(Conflict);
      }
      var planIds;
      error, planIds := MarkCandidates(p.candidates.value, decision);
      if error.Some? {
        return;
      }
      var orders := UpdateOrder(draft, approval, decision, now);
      if orders.Failure? {
        return Some(orders.error);
      }
      draft := draft.(orders := orders.value);
      error := UpdateAllPlans(PlansToUpdate(approval, planIds), now);
    }

    method DoEffect(s: Setting, approval: Approval, decision: Decision, actor: int) returns (error: Option<EffectError>)
      modifies this`draft
      ensures match ApplyEffect(s, old(draft), approval, decision, actor)
              case Success(t) => error == None && draft == t
              case Failure(e) => error == Some(e)
    {
      match approval.effectType
      case SupplierSkuChange => error := DoSupplierSku(s.hash, approval, decision, actor, s.now);
      case SupplierPriceChange => error := DoSupplierPrice(approval, decision, actor);
      case PlanDeviation => error := DoPlanDeviation(approval, decision, s.now);
      case OtherEffect(_) =>
        if s.other.Throws? {
          return Some(s.other.error);
        }
        draft := draft.(items := s.other.items, plans := s.other.plans, orders := s.other.orders);
        error := None;
    }

    /**
    executeEffect in its transaction: the whole effect is committed, or, on any error, the rollback
    leaves every table as it was.
    */
    method ExecuteEffect(s: Setting, effectType: EffectType, claim: Claim) returns (error: Option<EffectError>)
      modifies this
      ensures match Execute(s, old(committed), effectType, claim)
              case Success(t) => error == None && committed == t
              case Failure(e) => error == Some(e) && committed == old(committed)
      ensures draft == committed
    {
      draft := committed;
      var admitted := Admit(s, draft, effectType, claim);
      if admitted.Failure? {
        return Some(admitted.error);
      }
      var (id, decision) := admitted.value;
      error := DoEffect(s, draft.approvals[id], decision, claim.userId);
      if error.None? {
        var bumped := BumpVersion(ApprovalVersion(id), claim.objectVersion);
        if bumped != 1 {
          error := Some(Conflict);
        }
      }
      if error.Some? {
        draft := committed;
        return;
      }
      draft := draft.(effects := draft.effects + [Effect(id, claim.objectVersion, decision)]);
      committed := draft;
    }

    /** INSERT IGNORE INTO resource_versions, and the version that is read back. */
    method EnsureVersion(resource: Resource) returns (version: int)
      modifies this`draft
      ensures version == VersionOf(old(draft).versions, resource) && HasVersion(draft, resource, version)
      ensures draft == old(draft).(versions := old(draft).versions[resource := version])
    {
      if resource !in draft.versions {
        draft := draft.(versions := draft.versions[resource := 1]);
      }
      version := draft.versions[resource];
      assert draft.versions == old(draft).versions[resource := version];
    }

    /** Retire the current price, add the new one and raise the version. */
    method Activate(w: PriceWrite, current: Option<nat>, resource: Resource, version: int)
      requires current.Some? ==> current.value < |draft.prices|
      requires HasVersion(draft, resource, version)
      modifies this`draft
      ensures draft == old(draft).(prices := Replace(old(draft).prices, AsChange(w, current)),
                                   versions := old(draft).versions[resource := version + 1])
    {
      if current.Some? {
        var retired := draft.prices[current.value].(effectiveTo := Some(w.effectiveFrom - 1), active := false);
        draft := draft.(prices := draft.prices[current.value := retired]);
      }
      draft := draft.(prices := draft.prices + [Proposed(AsChange(w, current))]);
      var bumped := BumpVersion(resource, version);
      assert bumped == 1;
    }

    method DoDirectPrice(w: PriceWrite) returns (error: Option<WriteError>)
      modifies this`draft
      ensures match WritePrice(old(draft), w)
              case Success(t) => error == None && draft == t
              case Failure(e) => error == Some(e)
    {
      if !HasActiveRelation(draft.relations, w.factory, w.supplier, w.sku) {
        return Some(Refused);
      }
      var current := LatestActive(draft.prices, w.supplier, w.sku);
      if current.Some? && w.effectiveFrom <= draft.prices[current.value].effectiveFrom {
        return Some(Refused);
      }
      var resource := PriceVersion(PriceKey(w.supplier, w.sku));
      var version := EnsureVersion(resource);
      if !IdOk(w.objectVersion) {
        return Some(BadRequest);
      }
      if w.objectVersion.value != version || !w.claimHeld {
        return Some(Refused);
      }
      ghost var versions := old(draft).versions;
      assert versions[resource := version][resource := version + 1] == versions[resource := version + 1];
      Activate(w, current, resource, version);
      error := None;
    }

    /** The direct branch of writeSupplierPrice in its transaction. */
    method WritePriceDirectly(w: PriceWrite) returns (error: Option<WriteError>)
      modifies this
      ensures match WritePrice(old(committed), w)
              case Success(t) => error == None && committed == t
              case Failure(e) => error == Some(e) && committed == old(committed)
      ensures draft == committed
    {
      draft := committed;
      error := DoDirectPrice(w);
      if error.Some? {
        draft := committed;
      } else {
        committed := draft;
      }
    }

    /** The direct branch of writeSupplierSku in its transaction; id is the id of the row, old or new. */
    method WriteSkuDirectly(w: SkuWrite, id: int)
      modifies this
      ensures committed == WriteSku(old(committed), w, id) && draft == committed
    {
      draft := committed;
      var existing := id in draft.relations;
      draft := draft.(relations := draft.relations[id := Written(w)]);
      var version := EnsureVersion(SkuVersion(id));
      if existing {
        var bumped := BumpVersion(SkuVersion(id), version);
        assert bumped == 1;
      }
      committed := draft;
    }
  }

  lemma {:induction false} MarkFails(items: map<int, PlanItem>, candidates: seq<Id>, decision: Decision, k: nat)
    requires k <= |candidates| && MarkItems(items, candidates[..k], decision).Failure?
    ensures MarkItems(items, candidates, decision) == MarkItems(items, candidates[..k], decision)
    decreases |candidates|
  {
    if k < |candidates| {
      assert candidates[..|candidates| - 1][..k] == candidates[..k];
      MarkFails(items, candidates[..|candidates| - 1], decision, k);
    } else {
      assert candidates[..k] == candidates;
    }
  }

  lemma {:induction false} PlansFail(plans: map<int, Row>, items: map<int, PlanItem>, planIds: seq<int>, now: nat,
                                     k: nat)
    requires k <= |planIds| && UpdatePlans(plans, items, planIds[..k], now).Failure?
    ensures UpdatePlans(plans, items, planIds, now) == UpdatePlans(plans, items, planIds[..k], now)
    decreases |planIds|
  {
    if k < |planIds| {
      assert planIds[..|planIds| - 1][..k] == planIds[..k];
      PlansFail(plans, items, planIds[..|planIds| - 1], now, k);
    } else {
      assert planIds[..k] == planIds;
    }
  }

  // ---------- What an applied effect means ----------

  /**
  An approved price change retires the one active price of its supplier and SKU the day before the
  new one starts, adds the new one as the only active price, and touches no other price.
  */
  lemma PriceEffect(t: Tables, approval: Approval, actor: int)
    requires OneActivePrice(t.prices) && ApplySupplierPrice(t, approval, Approved, actor).Success?
    ensures var after := ApplySupplierPrice(t, approval, Approved, actor).value.prices;
            var change := t.changes[approval.entity];
            && |after| == |t.prices| + 1 && after[|t.prices|] == Proposed(change)
            && (forall i | 0 <= i < |after| :: ActiveFor(after[i], change.supplier, change.sku) <==> i == |t.prices|)
            && (forall i | 0 <= i < |t.prices| ::
                  after[i] == if ActiveFor(t.prices[i], change.supplier, change.sku)
                              then t.prices[i].(effectiveTo := Some(change.effectiveFrom - 1), active := false)
                              else t.prices[i])
  {
    var change := t.changes[approval.entity];
    var after := ApplySupplierPrice(t, approval, Approved, actor).value.prices;
    assert after == Replace(t.prices, change);
    LatestActiveIsLatest(t.prices, change.supplier, change.sku);
    forall i | 0 <= i < |t.prices| && ActiveFor(t.prices[i], change.supplier, change.sku)
      ensures change.currentAgreement == Some(i)
    {
    }
  }

  /** A rejected change decides the request and leaves prices and versions alone. */
  lemma PriceRejection(t: Tables, approval: Approval, actor: int)
    requires ApplySupplierPrice(t, approval, Rejected, actor).Success?
    ensures var after := ApplySupplierPrice(t, approval, Rejected, actor).value;
            && after == t.(changes := after.changes)
            && after.changes[approval.entity].decision == Some(Rejected)
            && ApplySupplierPrice(after, approval, Rejected, actor) == Failure(Conflict)
            && ApplySupplierPrice(after, approval, Approved, actor) == Failure(Conflict)
  {
  }

  /**
  An approved primary relation is the only active primary of its factory and SKU, and no other fact
  of it changes.
  */
  lemma SkuEffect(s: Setting, t: Tables, approval: Approval, actor: int)
    requires ApplySupplierSku(s.hash, t, approval, Approved, actor, s.now).Success?
    requires t.relations[approval.entity].isPrimary
    ensures var after := ApplySupplierSku(s.hash, t, approval, Approved, actor, s.now).value.relations;
            var target := t.relations[approval.entity];
            && after.Keys == t.relations.Keys
            && (forall k | k in after && after[k].factory == target.factory && after[k].sku == target.sku ::
                  ActivePrimary(after[k]) <==> k == approval.entity)
            && (forall k | k in after && k != approval.entity :: after[k].status == t.relations[k].status)
  {
  }

  // ---------- Plan deviations ----------

  lemma {:induction false} PlansAreOrdering(plans: map<int, Row>, items: map<int, PlanItem>, planIds: seq<int>,
                                            now: nat)
    requires UpdatePlans(plans, items, planIds, now).Success?
    ensures var after := UpdatePlans(plans, items, planIds, now).value;
            && after.Keys == plans.Keys
            && (forall p | p in planIds :: p in plans && plans[p].status == "ordering")
            && (forall p | p in plans ::
                  after[p] == if p in planIds
                              then Row(if PlanComplete(items, p) then "ordered_complete" else "ordering", now)
                              else plans[p])
    decreases |planIds|
  {
    if planIds != [] {
      var front := planIds[..|planIds| - 1];
      PlansAreOrdering(plans, items, front, now);
      assert planIds == front + [planIds[|planIds| - 1]];
    }
  }

  lemma {:induction false} MarkedItems(items: map<int, PlanItem>, candidates: seq<Id>, decision: Decision)
    requires MarkItems(items, candidates, decision).Success?
    ensures var m := MarkItems(items, candidates, decision).value;
            && m.items.Keys == items.Keys
            && (forall c | c in candidates && IdOk(c) :: c.value in items && items[c.value].plan in m.planIds)
            && (forall p | p in m.planIds ::
                  exists c :: c in candidates && IdOk(c) && c.value in items && items[c.value].plan == p)
            && (forall k | k in items ::
                  m.items[k] == if decision == Approved && IdOk(Whole(k)) && Whole(k) in candidates
                                then items[k].(completion := "exception_approved") else items[k])
    decreases |candidates|
  {
    if candidates != [] {
      var front, last := candidates[..|candidates| - 1], candidates[|candidates| - 1];
      MarkedItems(items, front, decision);
      assert candidates == front + [last];
      var m := MarkItems(items, candidates, decision).value;
      forall p | p in m.planIds
        ensures exists c :: c in candidates && IdOk(c) && c.value in items && items[c.value].plan == p
      {
        if p in MarkItems(items, front, decision).value.planIds {
          var c :| c in front && IdOk(c) && c.value in items && items[c.value].plan == p;
          assert c in candidates;
        } else {
          assert last in candidates;
        }
      }
    }
  }

  lemma {:induction false} MarkSucceeds(items: map<int, PlanItem>, candidates: seq<Id>, decision: Decision)
    ensures MarkItems(items, candidates, decision).Success?
       <==> forall c | c in candidates && IdOk(c) :: c.value in items
    ensures MarkItems(items, candidates, decision).Success? ==>
              NoRepeats(MarkItems(items, candidates, decision).value.planIds)
    decreases |candidates|
  {
    if candidates != [] {
      var front, last := candidates[..|candidates| - 1], candidates[|candidates| - 1];
      MarkSucceeds(items, front, decision);
      assert candidates == front + [last];
      if MarkItems(items, front, decision).Success? {
        MarkedItems(items, front, decision);
      }
    }
  }

  /** Plans that are updated once each can be updated exactly if all are being ordered. */
  lemma {:induction false} PlansSucceed(plans: map<int, Row>, items: map<int, PlanItem>, planIds: seq<int>, now: nat)
    requires NoRepeats(planIds)
    ensures UpdatePlans(plans, items, planIds, now).Success?
       <==> forall p | p in planIds :: p in plans && plans[p].status == "ordering"
    decreases |planIds|
  {
    if planIds != [] {
      var front, last := planIds[..|planIds| - 1], planIds[|planIds| - 1];
      PlansSucceed(plans, items, front, now);
      assert planIds == front + [last];
      if UpdatePlans(plans, items, front, now).Success? {
        PlansAreOrdering(plans, items, front, now);
        assert last !in front;
      }
    }
  }

  // ---------- What a claim decides ----------

  /** The action is this word, or a name that ends with a dot and this word. */
  ghost predicate Asks(claim: Claim, word: string) {
    claim.action == word || exists prefix: string :: claim.action == prefix + "." + word
  }

  lemma EndsWithIs(s: string, suffix: string)
    ensures EndsWith(s, suffix) <==> exists prefix: string :: s == prefix + suffix
  {
    if EndsWith(s, suffix) {
      assert s == s[..|s| - |suffix|] + suffix;
    }
  }

  lemma DecisionIsAsked(claim: Claim)
    ensures DecisionOf(claim).Some? <==> Asks(claim, "approve") || Asks(claim, "reject")
    ensures DecisionOf(claim) == Some(Approved) <==> Asks(claim, "approve")
  {
    EndsWithIs(claim.action, ".approve");
    EndsWithIs(claim.action, ".reject");
    forall prefix: string ensures prefix + "." + "approve" == prefix + ".approve" {}
    forall prefix: string ensures prefix + "." + "reject" == prefix + ".reject" {}
  }

  /** What every success says of its claim: who made it, on which approval, and at which version. */
  ghost predicate WasAdmitted(s: Setting, t: Tables, effectType: EffectType, claim: Claim) {
    && claim.objectType == "r2:approval_request" && claim.objectId.Some? && claim.objectId.value > 0
    && claim.objectId.value in t.approvals && claim.userId in s.reviewers
    && var approval := t.approvals[claim.objectId.value];
    && approval.effectType == effectType && approval.requestedBy != claim.userId
    && ApprovalVersion(claim.objectId.value) in t.versions
    && t.versions[ApprovalVersion(claim.objectId.value)] == claim.objectVersion
  }

  lemma VersionStays(s: Setting, t: Tables, claim: Claim, decision: Decision)
    requires claim.objectId.Some? && claim.objectId.value in t.approvals
    requires HasVersion(t, ApprovalVersion(claim.objectId.value), claim.objectVersion)
    ensures var applied := ApplyEffect(s, t, t.approvals[claim.objectId.value], decision, claim.userId);
            applied.Success? ==> HasVersion(applied.value, ApprovalVersion(claim.objectId.value), claim.objectVersion)
  {
  }

  /**
  A claim succeeds only if it approves or rejects, by a reviewer who is not the requester, an approval
  of its type at its version, and then exactly if its effect succeeds. The version goes up by one and the
  decision is recorded: Approved exactly if the action asks to approve.
  */
  lemma ClaimIsObeyed(s: Setting, t: Tables, effectType: EffectType, claim: Claim)
    ensures !Asks(claim, "approve") && !Asks(claim, "reject") ==> Execute(s, t, effectType, claim) == Failure(Conflict)
    ensures WasAdmitted(s, t, effectType, claim) && (Asks(claim, "approve") || Asks(claim, "reject")) ==>
              var decision := if Asks(claim, "approve") then Approved else Rejected;
              Execute(s, t, effectType, claim).Success?
              <==> ApplyEffect(s, t, t.approvals[claim.objectId.value], decision, claim.userId).Success?
    ensures Execute(s, t, effectType, claim).Success? ==>
              && WasAdmitted(s, t, effectType, claim) && (Asks(claim, "approve") || Asks(claim, "reject"))
              && var after, id := Execute(s, t, effectType, claim).value, claim.objectId.value;
              && after.versions[ApprovalVersion(id)] == claim.objectVersion + 1
              && var decision := if Asks(claim, "approve") then Approved else Rejected;
              after.effects == t.effects + [Effect(id, claim.objectVersion, decision)]
  {
    DecisionIsAsked(claim);
    if WasAdmitted(s, t, effectType, claim) && (Asks(claim, "approve") || Asks(claim, "reject")) {
      VersionStays(s, t, claim, if Asks(claim, "approve") then Approved else Rejected);
    }
    if Execute(s, t, effectType, claim).Success? {
      var id := claim.objectId.value;
      var decision := if Asks(claim, "approve") then Approved else Rejected;
      EffectsUntouched(s, t, t.approvals[id], decision, claim.userId);
    }
  }

  lemma EffectsUntouched(s: Setting, t: Tables, approval: Approval, decision: Decision, actor: int)
    requires ApplyEffect(s, t, approval, decision, actor).Success?
    ensures ApplyEffect(s, t, approval, decision, actor).value.effects == t.effects
  {
  }

  /** The tables that a successful claim leaves are those of its decision, but for version and record. */
  lemma DecidedTables(s: Setting, t: Tables, effectType: EffectType, claim: Claim)
    requires Execute(s, t, effectType, claim).Success?
    ensures WasAdmitted(s, t, effectType, claim)
    ensures var after, approval := Execute(s, t, effectType, claim).value, t.approvals[claim.objectId.value];
            var decision := if Asks(claim, "approve") then Approved else Rejected;
            var applied := ApplyEffect(s, t, approval, decision, claim.userId);
            && applied.Success?
            && after == applied.value.(versions := after.versions, effects := after.effects)
  {
    DecisionIsAsked(claim);
  }

  /** The version after a successful claim, next to those that its decision raises. */
  function Raised(versions: map<Resource, int>, claim: Claim): map<Resource, int> {
    if claim.objectId.None? then versions
    else versions[ApprovalVersion(claim.objectId.value) := claim.objectVersion + 1]
  }

  /**
  A claim that approves a price change makes the proposed price the only active one, retires the one
  before and raises the version of supplier and SKU by one; one that rejects it leaves every price and
  every such version alone. Either decides the request for good.
  */
  lemma PriceDecision(s: Setting, t: Tables, claim: Claim)
    requires OneActivePrice(t.prices) && Execute(s, t, SupplierPriceChange, claim).Success?
    ensures WasAdmitted(s, t, SupplierPriceChange, claim)
    ensures var after, id := Execute(s, t, SupplierPriceChange, claim).value, t.approvals[claim.objectId.value].entity;
            && id in t.changes && t.changes[id].decision.None?
            && var change := t.changes[id];
            var price := PriceVersion(Decimal(change.supplier) + ":" + change.sku);
            && price in t.versions
            && if Asks(claim, "approve") then
              && after.changes == t.changes[id := change.(decision := Some(Approved), reviewedBy := Some(claim.userId))]
              && after.versions == Raised(t.versions[price := t.versions[price] + 1], claim)
              && |after.prices| == |t.prices| + 1 && after.prices[|t.prices|] == Proposed(change)
              && (forall i | 0 <= i < |after.prices| ::
                    ActiveFor(after.prices[i], change.supplier, change.sku) <==> i == |t.prices|)
            else
              && Asks(claim, "reject") && after.prices == t.prices && after.versions == Raised(t.versions, claim)
              && after.changes == t.changes[id := change.(decision := Some(Rejected), reviewedBy := Some(claim.userId))]
  {
    ClaimIsObeyed(s, t, SupplierPriceChange, claim);
    DecidedTables(s, t, SupplierPriceChange, claim);
    var approval := t.approvals[claim.objectId.value];
    if Asks(claim, "approve") {
      PriceEffect(t, approval, claim.userId);
    }
  }

  /**
  An admitted claim on a price change succeeds exactly if its payload names the price and its current
  version, the request is undecided, and, to approve it, the agreement it means to replace is the one
  that is active.
  */
  lemma PriceClaimSucceeds(s: Setting, t: Tables, claim: Claim)
    requires OneActivePrice(t.prices) && WasAdmitted(s, t, SupplierPriceChange, claim)
    requires Asks(claim, "approve") || Asks(claim, "reject")
    ensures var approval := t.approvals[claim.objectId.value];
            Execute(s, t, SupplierPriceChange, claim).Success? <==>
              && approval.payload.Fields? && IdOk(approval.payload.priceVersion)
              && approval.entity in t.changes && t.changes[approval.entity].decision.None?
              && var change := t.changes[approval.entity];
              var price := Decimal(change.supplier) + ":" + change.sku;
              && approval.payload.priceResource == Some(price) && PriceVersion(price) in t.versions
              && t.versions[PriceVersion(price)] == approval.payload.priceVersion.value
              && (Asks(claim, "approve") ==>
                    && (change.currentAgreement.Some? ==> change.currentAgreement.value < |t.prices|)
                    && forall i | 0 <= i < |t.prices| ::
                         ActiveFor(t.prices[i], change.supplier, change.sku) <==> change.currentAgreement == Some(i))
  {
    ClaimIsObeyed(s, t, SupplierPriceChange, claim);
    var id := t.approvals[claim.objectId.value].entity;
    if id in t.changes {
      LatestActiveIsLatest(t.prices, t.changes[id].supplier, t.changes[id].sku);
    }
  }

  /** An admitted claim on a relation succeeds exactly if it is pending, with the version and the hash it names. */
  lemma SkuClaimSucceeds(s: Setting, t: Tables, claim: Claim)
    requires WasAdmitted(s, t, SupplierSkuChange, claim) && (Asks(claim, "approve") || Asks(claim, "reject"))
    ensures var approval := t.approvals[claim.objectId.value];
            Execute(s, t, SupplierSkuChange, claim).Success? <==>
              && approval.payload.Fields? && IdOk(approval.payload.targetVersion)
              && approval.entity in t.relations && t.relations[approval.entity].status == Pending
              && approval.payload.targetHash == Some(s.hash(t.relations[approval.entity]))
              && SkuVersion(approval.entity) in t.versions
              && t.versions[SkuVersion(approval.entity)] == approval.payload.targetVersion.value
  {
    ClaimIsObeyed(s, t, SupplierSkuChange, claim);
  }

  /**
  A claim that approves a pending relation activates it, and if it is a primary every other primary of
  its factory and SKU loses its mark; one that rejects it makes it inactive and demotes nobody. Either
  raises the version of the relation by one.
  */
  lemma SkuDecision(s: Setting, t: Tables, claim: Claim)
    requires Execute(s, t, SupplierSkuChange, claim).Success?
    ensures WasAdmitted(s, t, SupplierSkuChange, claim)
    ensures var after, id := Execute(s, t, SupplierSkuChange, claim).value, t.approvals[claim.objectId.value].entity;
            && id in t.relations && t.relations[id].status == Pending && SkuVersion(id) in t.versions
            && after.versions == Raised(t.versions[SkuVersion(id) := t.versions[SkuVersion(id)] + 1], claim)
            && (Asks(claim, "approve") || Asks(claim, "reject")) && after.relations.Keys == t.relations.Keys
            && var target := t.relations[id];
            && after.relations[id] == target.(status := if Asks(claim, "approve") then Active else Inactive,
                                              reviewedBy := Some(claim.userId), updatedAt := s.now)
            && forall k | k in t.relations && k != id ::
                 var r := t.relations[k];
                 after.relations[k] == if Asks(claim, "approve") && target.isPrimary && r.isPrimary
                                          && r.factory == target.factory && r.sku == target.sku
                                       then r.(isPrimary := false, updatedAt := s.now) else r
  {
    ClaimIsObeyed(s, t, SupplierSkuChange, claim);
    DecidedTables(s, t, SupplierSkuChange, claim);
  }

  /** The deviations of an approval concern the plans of the items it names, and its own plan. */
  ghost predicate Concerns(t: Tables, approval: Approval, plan: int) {
    || (approval.entityType == "purchase_plan" && approval.entity == plan)
    || (approval.payload.Fields? && approval.payload.candidates.Some?
        && exists c :: c in approval.payload.candidates.value && IdOk(c) && c.value in t.items
                       && t.items[c.value].plan == plan)
  }

  /** Every item of the plan is within tolerance or approved as an exception. */
  ghost predicate Closed(items: map<int, PlanItem>, plan: int) {
    forall k | k in items && items[k].plan == plan :: items[k].completion in {"within_tolerance", "exception_approved"}
  }

  /**
  A decision about deviations touches the plans it concerns, and no other: each was being ordered, and is
  complete afterwards exactly if all its items are closed.
  */
  lemma DeviationPlans(s: Setting, t: Tables, claim: Claim)
    requires Execute(s, t, PlanDeviation, claim).Success?
    ensures WasAdmitted(s, t, PlanDeviation, claim)
    ensures var after, approval := Execute(s, t, PlanDeviation, claim).value, t.approvals[claim.objectId.value];
            && after.plans.Keys == t.plans.Keys
            && (forall p | Concerns(t, approval, p) :: p in t.plans && t.plans[p].status == "ordering")
            && (forall p | p in t.plans ::
                  after.plans[p] == if !Concerns(t, approval, p) then t.plans[p]
                                    else Row(if Closed(after.items, p) then "ordered_complete" else "ordering", s.now))
  {
    ClaimIsObeyed(s, t, PlanDeviation, claim);
    DecidedTables(s, t, PlanDeviation, claim);
    var approval := t.approvals[claim.objectId.value];
    var decision := if Asks(claim, "approve") then Approved else Rejected;
    var candidates := approval.payload.candidates.value;
    MarkedItems(t.items, candidates, decision);
    var marked := MarkItems(t.items, candidates, decision).value;
    var plans := PlansToUpdate(approval, marked.planIds);
    forall p ensures p in plans <==> Concerns(t, approval, p) {
      PlansAreConcerned(t, approval, marked.planIds, p);
    }
    PlansAreOrdering(t.plans, marked.items, plans, s.now);
    forall p ensures PlanComplete(marked.items, p) <==> Closed(marked.items, p) {}
  }

  /**
  An admitted claim on deviations succeeds exactly if its payload is a list, the items it names are
  there, every plan it concerns is being ordered, and an order it is about is pending.
  */
  lemma DeviationClaimSucceeds(s: Setting, t: Tables, claim: Claim)
    requires WasAdmitted(s, t, PlanDeviation, claim) && (Asks(claim, "approve") || Asks(claim, "reject"))
    ensures var approval := t.approvals[claim.objectId.value];
            Execute(s, t, PlanDeviation, claim).Success? <==>
              && approval.payload.Fields? && approval.payload.candidates.Some?
              && (forall c | c in approval.payload.candidates.value && IdOk(c) :: c.value in t.items)
              && (approval.entityType == "purchase_order" ==>
                    approval.entity in t.orders && t.orders[approval.entity].status == "pending_approval")
              && (forall p | Concerns(t, approval, p) :: p in t.plans && t.plans[p].status == "ordering")
  {
    ClaimIsObeyed(s, t, PlanDeviation, claim);
    var approval := t.approvals[claim.objectId.value];
    var decision := if Asks(claim, "approve") then Approved else Rejected;
    if approval.payload.Fields? && approval.payload.candidates.Some? {
      DeviationSucceeds(s, t, approval, decision);
    }
  }

  lemma DeviationSucceeds(s: Setting, t: Tables, approval: Approval, decision: Decision)
    requires approval.payload.Fields? && approval.payload.candidates.Some?
    ensures ApplyPlanDeviation(t, approval, decision, s.now).Success? <==>
              && (forall c | c in approval.payload.candidates.value && IdOk(c) :: c.value in t.items)
              && (approval.entityType == "purchase_order" ==>
                    approval.entity in t.orders && t.orders[approval.entity].status == "pending_approval")
              && (forall p | Concerns(t, approval, p) :: p in t.plans && t.plans[p].status == "ordering")
  {
    var candidates := approval.payload.candidates.value;
    MarkSucceeds(t.items, candidates, decision);
    var result := MarkItems(t.items, candidates, decision);
    if result.Success? {
      MarkedItems(t.items, candidates, decision);
      var plans := PlansToUpdate(approval, result.value.planIds);
      forall p ensures p in plans <==> Concerns(t, approval, p) {
        PlansAreConcerned(t, approval, result.value.planIds, p);
      }
      PlansSucceed(t.plans, result.value.items, plans, s.now);
    }
  }

  lemma PlansAreConcerned(t: Tables, approval: Approval, planIds: seq<int>, p: int)
    requires approval.payload.Fields? && approval.payload.candidates.Some?
    requires forall c | c in approval.payload.candidates.value && IdOk(c) ::
               c.value in t.items && t.items[c.value].plan in planIds
    requires forall q | q in planIds ::
               exists c :: c in approval.payload.candidates.value && IdOk(c) && c.value in t.items
                           && t.items[c.value].plan == q
    ensures p in PlansToUpdate(approval, planIds) <==> Concerns(t, approval, p)
  {
  }

  /**
  A claim that approves the deviations of an order sends the order to the factory and closes its items;
  one that rejects them marks the order rejected and leaves every item alone. No other order changes.
  */
  lemma DeviationDecision(s: Setting, t: Tables, claim: Claim)
    requires Execute(s, t, PlanDeviation, claim).Success?
    ensures WasAdmitted(s, t, PlanDeviation, claim)
    ensures var after, approval := Execute(s, t, PlanDeviation, claim).value, t.approvals[claim.objectId.value];
            && approval.payload.Fields? && approval.payload.candidates.Some? && after.items.Keys == t.items.Keys
            && (approval.entityType != "purchase_order" ==> after.orders == t.orders)
            && (approval.entityType == "purchase_order" ==>
                  && approval.entity in t.orders && t.orders[approval.entity].status == "pending_approval"
                  && var status := if Asks(claim, "approve") then "factory_confirmation" else "approval_rejected";
                  after.orders == t.orders[approval.entity := Row(status, s.now)])
            && (forall k | k in t.items ::
                  after.items[k] == if Asks(claim, "approve") && IdOk(Whole(k))
                                       && Whole(k) in approval.payload.candidates.value
                                    then t.items[k].(completion := "exception_approved") else t.items[k])
  {
    ClaimIsObeyed(s, t, PlanDeviation, claim);
    DecidedTables(s, t, PlanDeviation, claim);
    var decision := if Asks(claim, "approve") then Approved else Rejected;
    MarkedItems(t.items, t.approvals[claim.objectId.value].payload.candidates.value, decision);
  }

  // ---------- Runs ----------

  /**
  Between effects, requests are submitted: they may add or change relations that are not active
  primaries, change requests, approvals and so on, but no price and no committed effect, and no
  version goes down.
  */
  ghost predicate Submits(t: Tables, after: Tables) {
    && after.prices == t.prices && after.effects == t.effects
    && (forall r | r in t.versions :: r in after.versions && t.versions[r] <= after.versions[r])
    && (forall k | k in after.relations && ActivePrimary(after.relations[k]) ::
          k in t.relations && ActivePrimary(t.relations[k])
          && t.relations[k].factory == after.relations[k].factory && t.relations[k].sku == after.relations[k].sku)
  }

  datatype Event =
    | Submit(after: Tables)
    | Run(setting: Setting, effectType: EffectType, claim: Claim)
    | DirectPrice(price: PriceWrite)
    | DirectSku(relation: SkuWrite, id: int)

  ghost predicate Possible(t: Tables, event: Event) {
    match event
    case Submit(after) => Submits(t, after)
    case DirectSku(w, id) => Targets(t, w, id)
    case _ => true
  }

  /** A refused effect or write is rolled back. */
  function Outcome(t: Tables, event: Event): Tables {
    match event
    case Submit(after) => after
    case Run(s, effectType, claim) =>
      var result := Execute(s, t, effectType, claim);
      if result.Success? then result.value else t
    case DirectPrice(w) =>
      var result := WritePrice(t, w);
      if result.Success? then result.value else t
    case DirectSku(w, id) => WriteSku(t, w, id)
  }

  ghost predicate History(t: Tables, events: seq<Event>, end: Tables)
    decreases |events|
  {
    if events == [] then t == end
    else Possible(t, events[0]) && History(Outcome(t, events[0]), events[1..], end)
  }

  lemma EventKeeps(t: Tables, event: Event)
    requires Kept(t) && Possible(t, event)
    ensures Kept(Outcome(t, event))
  {
    match event
    case Submit(_) =>
    case Run(s, effectType, claim) =>
      if Execute(s, t, effectType, claim).Success? {
        ExecuteKeepsInv(s, t, effectType, claim);
      }
    case DirectPrice(w) =>
      if WritePrice(t, w).Success? {
        PriceWriteKeeps(t, w);
      }
    case DirectSku(w, id) => SkuWriteKeeps(t, w, id);
  }

  /** Any run of effects, submissions and direct writes keeps one active price and the numbering of effects. */
  lemma {:induction false} HistoryKeeps(t: Tables, events: seq<Event>, end: Tables)
    requires Kept(t) && History(t, events, end)
    ensures Kept(end)
    decreases |events|
  {
    if events != [] {
      EventKeeps(t, events[0]);
      HistoryKeeps(Outcome(t, events[0]), events[1..], end);
    }
  }

  /** Every direct write of a primary in the run is undisputed at that moment. */
  ghost predicate AllUndisputed(t: Tables, events: seq<Event>)
    decreases |events|
  {
    events != [] ==>
      && (events[0].DirectSku? ==> Undisputed(t, events[0].relation, events[0].id))
      && AllUndisputed(Outcome(t, events[0]), events[1..])
  }

  /** Only a disputed direct write takes two active primaries into the tables. */
  lemma EventKeepsPrimary(t: Tables, event: Event)
    requires Inv(t) && Possible(t, event)
    ensures OnePrimary(Outcome(t, event).relations) <==> (event.DirectSku? ==> Undisputed(t, event.relation, event.id))
  {
    match event
    case Submit(_) =>
    case Run(s, effectType, claim) =>
      if Execute(s, t, effectType, claim).Success? {
        ExecuteKeepsInv(s, t, effectType, claim);
      }
    case DirectPrice(w) =>
      if WritePrice(t, w).Success? {
        PriceWriteKeeps(t, w);
      }
    case DirectSku(w, id) => OnePrimaryExactly(t, w, id);
  }

  /** A run keeps one active primary per factory and SKU as long as its direct writes are undisputed. */
  lemma {:induction false} HistoryKeepsPrimary(t: Tables, events: seq<Event>, end: Tables)
    requires Inv(t) && History(t, events, end) && AllUndisputed(t, events)
    ensures Inv(end)
    decreases |events|
  {
    if events != [] {
      EventKeeps(t, events[0]);
      EventKeepsPrimary(t, events[0]);
      HistoryKeepsPrimary(Outcome(t, events[0]), events[1..], end);
    }
  }

  /** Over any run, an approval has at most one committed effect per version. */
  lemma OneEffectPerVersion(t: Tables, events: seq<Event>, end: Tables, i: nat, j: nat)
    requires Kept(t) && History(t, events, end)
    requires i < |end.effects| && j < |end.effects|
    requires end.effects[i].approval == end.effects[j].approval
          && end.effects[i].objectVersion == end.effects[j].objectVersion
    ensures i == j
  {
    HistoryKeeps(t, events, end);
  }

  /** A claim whose effect was committed is refused from then on, whatever happens in between. */
  lemma ClaimIsSpent(t: Tables, s: Setting, effectType: EffectType, claim: Claim, events: seq<Event>, end: Tables,
                     later: Setting)
    requires Kept(t) && Execute(s, t, effectType, claim).Success?
    requires History(Execute(s, t, effectType, claim).value, events, end)
    ensures Execute(later, end, effectType, claim).Failure?
  {
    var after := Execute(s, t, effectType, claim).value;
    ExecuteKeepsInv(s, t, effectType, claim);
    var id := claim.objectId.value;
    assert after.effects[|after.effects| - 1] == Effect(id, claim.objectVersion, DecisionOf(claim).value);
    EffectsStay(after, events, end, |after.effects| - 1);
    HistoryKeeps(after, events, end);
    assert end.effects[|after.effects| - 1].objectVersion < end.versions[ApprovalVersion(id)];
  }

  lemma ExecuteAppends(s: Setting, t: Tables, effectType: EffectType, claim: Claim)
    requires Kept(t) && Execute(s, t, effectType, claim).Success?
    ensures var after := Execute(s, t, effectType, claim).value;
            |after.effects| == |t.effects| + 1 && after.effects[..|t.effects|] == t.effects
  {
    var (id, decision) := Admit(s, t, effectType, claim).value;
    ApplyKeeps(s, t, t.approvals[id], decision, claim.userId);
  }

  lemma {:induction false} EffectsStay(t: Tables, events: seq<Event>, end: Tables, i: nat)
    requires Kept(t) && History(t, events, end) && i < |t.effects|
    ensures i < |end.effects| && end.effects[i] == t.effects[i]
    decreases |events|
  {
    if events != [] {
      var event := events[0];
      EventKeeps(t, event);
      if event.Run? && Execute(event.setting, t, event.effectType, event.claim).Success? {
        ExecuteAppends(event.setting, t, event.effectType, event.claim);
        assert Outcome(t, event).effects[..|t.effects|][i] == t.effects[i];
      }
      EffectsStay(Outcome(t, event), events[1..], end, i);
    }
  }
}
