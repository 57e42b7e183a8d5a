/**
The effects of apps/api/src/modules/approvals/supply-approval-effects.ts on the supply tables. An
effect runs inside one transaction: the functions give its new tables, or the error it throws.
A row's id is its key, and the index in the append-only table of prices.
*/
module ApprovalEffects {
  import opened Wrappers
  import opened RowLocks
  import opened ColumnReference

  datatype Decision = Approved | Rejected

  datatype EffectType = SupplierSkuChange | SupplierPriceChange | PlanDeviation | OtherEffect(name: string)

  /** Crash stands for an error that is not a refusal, such as reading a field of null. */
  datatype EffectError = Conflict | Missing | Crash

  // ---------- Tables ----------

  datatype Status = Pending | Active | Inactive

  datatype Relation = Relation(
    factory: int, supplier: int, sku: string, isPrimary: bool, terms: string, requestedBy: int,
    status: Status, reviewedBy: Option<int>, updatedAt: nat)

  /** Dates are day numbers. */
  datatype Price = Price(
    supplier: nat, sku: string, amounts: string, effectiveFrom: int, effectiveTo: Option<int>,
    active: bool, maintainedBy: int)

  datatype Change = Change(
    currentAgreement: Option<nat>, supplier: nat, sku: string, amounts: string, effectiveFrom: int,
    requestedBy: int, decision: Option<Decision>, reviewedBy: Option<int>)

  datatype PlanItem = PlanItem(plan: int, completion: string)

  datatype Row = Row(status: string, updatedAt: nat)

  datatype Resource = SkuVersion(relation: int) | PriceVersion(key: string) | ApprovalVersion(approval: nat)

  /** The fields that an effect reads from the payload of its approval. */
  datatype Payload =
    | NotJson
    | JsonNull
    | Fields(
        targetVersion: Id, targetHash: Option<string>,
        priceResource: Option<string>, priceVersion: Id,
        candidates: Option<seq<Id>>)

  datatype Approval = Approval(
    effectType: EffectType, entityType: string, entity: int, payload: Payload, requestedBy: int)

  /** A committed effect, as its audit entry and its domain event record it. */
  datatype Effect = Effect(approval: nat, objectVersion: int, decision: Decision)

  datatype Tables = Tables(
    approvals: map<nat, Approval>,
    versions: map<Resource, int>,
    relations: map<int, Relation>,
    prices: seq<Price>,
    changes: map<int, Change>,
    items: map<int, PlanItem>,
    plans: map<int, Row>,
    orders: map<int, Row>,
    effects: seq<Effect>)

  predicate HasVersion(t: Tables, resource: Resource, version: int) {
    resource in t.versions && t.versions[resource] == version
  }

  // ---------- applySupplierSku ----------

  /** Every other primary relation of this factory and SKU loses its mark. */
  function Demote(relations: map<int, Relation>, id: int, now: nat): map<int, Relation>
    requires id in relations
  {
    map k | k in relations ::
      if k != id && relations[k].isPrimary
        && relations[k].factory == relations[id].factory && relations[k].sku == relations[id].sku
      then relations[k].(isPrimary := false, updatedAt := now) else relations[k]
  }

  function ApplySupplierSku(hash: Relation -> string, t: Tables, approval: Approval, decision: Decision, actor: int,
                            now: nat)
    : Result<Tables, EffectError>
  {
    var p, id := approval.payload, approval.entity;
    if p.NotJson? then Failure(Conflict)
    else if p.JsonNull? then Failure(Crash)
    else if !IdOk(p.targetVersion) || p.targetHash.None? then Failure(Conflict)
    else if id !in t.relations then Failure(Missing)
    else if !HasVersion(t, SkuVersion(id), p.targetVersion.value) then Failure(Conflict)
    else if hash(t.relations[id]) != p.targetHash.value then Failure(Conflict)
    else if t.relations[id].status != Pending then Failure(Conflict)
    else
      var relation := t.relations[id];
      var others := if decision == Approved && relation.isPrimary then Demote(t.relations, id, now) else t.relations;
      var status := if decision == Approved then Active else Inactive;
      Success(t.(
        relations := others[id := relation.(status := status, reviewedBy := Some(actor), updatedAt := now)],
        versions := t.versions[SkuVersion(id) := p.targetVersion.value + 1]))
  }

  // ---------- applySupplierPrice ----------

  function PriceKey(supplier: nat, sku: string): string {
    Decimal(supplier) + ":" + sku
  }

  predicate ActiveFor(price: Price, supplier: nat, sku: string) {
    price.active && price.supplier == supplier && price.sku == sku
  }

  /** The active price that starts last, and of those the one added last. */
  function LatestActive(prices: seq<Price>, supplier: nat, sku: string): (r: Option<nat>)
    ensures r.Some? ==> r.value < |prices| && ActiveFor(prices[r.value], supplier, sku)
  {
    if prices == [] then None else
      var n := |prices| - 1;
      var before := LatestActive(prices[..n], supplier, sku);
      if ActiveFor(prices[n], supplier, sku)
        && (before.None? || prices[before.value].effectiveFrom <= prices[n].effectiveFrom)
      then Some(n) else before
  }

  function Proposed(change: Change): Price {
    Price(change.supplier, change.sku, change.amounts, change.effectiveFrom, None, true, change.requestedBy)
  }

  /** Retire the current price the day before the new one starts, and add the new one. */
  function Replace(prices: seq<Price>, change: Change): seq<Price>
    requires change.currentAgreement.Some? ==> change.currentAgreement.value < |prices|
  {
    var kept :=
      if change.currentAgreement.None? then prices
      else
        var i := change.currentAgreement.value;
        prices[i := prices[i].(effectiveTo := Some(change.effectiveFrom - 1), active := false)];
    kept + [Proposed(change)]
  }

  function ApplySupplierPrice(t: Tables, approval: Approval, decision: Decision, actor: int)
    : Result<Tables, EffectError>
  {
    var p, id := approval.payload, approval.entity;
    if p.NotJson? then Failure(Conflict)
    else if p.JsonNull? then Failure(Crash)
    else if p.priceResource.None? || p.priceResource.value == "" || !IdOk(p.priceVersion) then Failure(Conflict)
    else if id !in t.changes then Failure(Missing)
    else
      var change := t.changes[id];
      var decided := t.changes[id := change.(decision := Some(decision), reviewedBy := Some(actor))];
      if change.decision.Some? then Failure(Conflict)
      else if p.priceResource.value != PriceKey(change.supplier, change.sku) then Failure(Conflict)
      else if !HasVersion(t, PriceVersion(p.priceResource.value), p.priceVersion.value) then Failure(Conflict)
      else if decision == Rejected then Success(t.(changes := decided))
      else if LatestActive(t.prices, change.supplier, change.sku) != change.currentAgreement then Failure(Conflict)
      else
        Success(t.(
          prices := Replace(t.prices, change),
          versions := t.versions[PriceVersion(p.priceResource.value) := p.priceVersion.value + 1],
          changes := decided))
  }

  // ---------- applyPlanDeviation ----------

  datatype Marked = Marked(items: map<int, PlanItem>, planIds: seq<int>)

  function AddOnce(ids: seq<int>, id: int): seq<int> {
    if id in ids then ids else ids + [id]
  }

  /** The items of the candidates so far, with their plans in the order in which they were met. */
  function MarkItems(items: map<int, PlanItem>, candidates: seq<Id>, decision: Decision): Result<Marked, EffectError> {
    if candidates == [] then Success(Marked(items, [])) else
      var before := MarkItems(items, candidates[..|candidates| - 1], decision);
      var candidate := candidates[|candidates| - 1];
      if before.Failure? || !IdOk(candidate) then before
      else if candidate.value !in before.value.items then Failure(Missing)
      else
        var item := before.value.items[candidate.value];
        Success(Marked(
          if decision == Approved
          then before.value.items[candidate.value := item.(completion := "exception_approved")]
          else before.value.items,
          AddOnce(before.value.planIds, item.plan)))
  }

  /** No item of the plan is open: within tolerance or approved as an exception. */
  predicate PlanComplete(items: map<int, PlanItem>, plan: int) {
    forall k | k in items && items[k].plan == plan ::
      items[k].completion == "within_tolerance" || items[k].completion == "exception_approved"
  }

  function UpdatePlan(plans: map<int, Row>, items: map<int, PlanItem>, plan: int, now: nat)
    : Result<map<int, Row>, EffectError>
  {
    if plan !in plans then Failure(Missing)
    else if plans[plan].status != "ordering" then Failure(Conflict)
    else Success(plans[plan := Row(if PlanComplete(items, plan) then "ordered_complete" else "ordering", now)])
  }

  function UpdatePlans(plans: map<int, Row>, items: map<int, PlanItem>, planIds: seq<int>, now: nat)
    : Result<map<int, Row>, EffectError>
  {
    if planIds == [] then Success(plans) else
      var before := UpdatePlans(plans, items, planIds[..|planIds| - 1], now);
      if before.Failure? then before else UpdatePlan(before.value, items, planIds[|planIds| - 1], now)
  }

  function UpdateOrder(t: Tables, approval: Approval, decision: Decision, now: nat)
    : Result<map<int, Row>, EffectError>
  {
    var id := approval.entity;
    if approval.entityType != "purchase_order" then Success(t.orders)
    else if id !in t.orders then Failure(Missing)
    else if t.orders[id].status != "pending_approval" then Failure(Conflict)
    else Success(t.orders[id := Row(if decision == Approved then "factory_confirmation" else "approval_rejected", now)])
  }

  function PlansToUpdate(approval: Approval, planIds: seq<int>): seq<int> {
    if approval.entityType == "purchase_plan" then AddOnce(planIds, approval.entity) else planIds
  }

  function ApplyPlanDeviation(t: Tables, approval: Approval, decision: Decision, now: nat)
    : Result<Tables, EffectError>
  {
    var p := approval.payload;
    if !p.Fields? || p.candidates.None? then Failure(Conflict)
    else
      var marked := MarkItems(t.items, p.candidates.value, decision);
      if marked.Failure? then Failure(marked.error)
      else
        var orders := UpdateOrder(t, approval, decision, now);
        if orders.Failure? then Failure(orders.error)
        else
          var plans := UpdatePlans(t.plans, marked.value.items, PlansToUpdate(approval, marked.value.planIds), now);
          if plans.Failure? then Failure(plans.error)
          else Success(t.(items := marked.value.items, orders := orders.value, plans := plans.value))
  }

  // ---------- executeEffect ----------

  datatype Claim = Claim(action: string, objectType: string, objectId: Option<nat>, objectVersion: int, userId: int)

  predicate EndsWith(s: string, suffix: string) {
    |suffix| <= |s| && s[|s| - |suffix|..] == suffix
  }

  function DecisionOf(claim: Claim): Option<Decision> {
    if EndsWith(claim.action, ".approve") || claim.action == "approve" then Some(Approved)
    else if EndsWith(claim.action, ".reject") || claim.action == "reject" then Some(Rejected)
    else None
  }

  /** What the effects that are not modelled do: throw, or leave plans, items and orders in any new state. */
  datatype Other =
    | Throws(error: EffectError)
    | Leaves(items: map<int, PlanItem>, plans: map<int, Row>, orders: map<int, Row>)

  /** The surroundings of one effect. */
  datatype Setting = Setting(hash: Relation -> string, reviewers: set<int>, other: Other, now: nat)

  function ApplyEffect(s: Setting, t: Tables, approval: Approval, decision: Decision, actor: int)
    : Result<Tables, EffectError>
  {
    match approval.effectType
    case SupplierSkuChange => ApplySupplierSku(s.hash, t, approval, decision, actor, s.now)
    case SupplierPriceChange => ApplySupplierPrice(t, approval, decision, actor)
    case PlanDeviation => ApplyPlanDeviation(t, approval, decision, s.now)
    case OtherEffect(_) =>
      if s.other.Throws? then Failure(s.other.error)
      else Success(t.(items := s.other.items, plans := s.other.plans, orders := s.other.orders))
  }

  /** The checks that come before the effect itself: the approval and the decision, or the error. */
  function Admit(s: Setting, t: Tables, effectType: EffectType, claim: Claim): Result<(nat, Decision), EffectError> {
    var decision := DecisionOf(claim);
    if decision.None? then Failure(Conflict)
    else if claim.objectType != "r2:approval_request" || claim.objectId.None? || claim.objectId.value == 0
    then Failure(Conflict)
    else if claim.userId !in s.reviewers then Failure(Conflict)
    else if claim.objectId.value !in t.approvals || t.approvals[claim.objectId.value].effectType != effectType
    then Failure(Missing)
    else if t.approvals[claim.objectId.value].requestedBy == claim.userId then Failure(Conflict)
    else if !HasVersion(t, ApprovalVersion(claim.objectId.value), claim.objectVersion) then Failure(Conflict)
    else Success((claim.objectId.value, decision.value))
  }

  /** Raise the version of the approval, and record the effect. */
  function Record(t: Tables, approval: nat, objectVersion: int, decision: Decision): Result<Tables, EffectError> {
    if !HasVersion(t, ApprovalVersion(approval), objectVersion) then Failure(Conflict)
    else Success(t.(
      versions := t.versions[ApprovalVersion(approval) := objectVersion + 1],
      effects := t.effects + [Effect(approval, objectVersion, decision)]))
  }

  function Execute(s: Setting, t: Tables, effectType: EffectType, claim: Claim): Result<Tables, EffectError> {
    var admitted := Admit(s, t, effectType, claim);
    if admitted.Failure? then Failure(admitted.error)
    else
      var (id, decision) := admitted.value;
      var applied := ApplyEffect(s, t, t.approvals[id], decision, claim.userId);
      if applied.Failure? then Failure(applied.error) else Record(applied.value, id, claim.objectVersion, decision)
  }

  // ---------- What every effect keeps ----------

  predicate OneActivePrice(prices: seq<Price>) {
    forall i, j | 0 <= i < j < |prices| && prices[i].active && prices[j].active ::
      prices[i].supplier != prices[j].supplier || prices[i].sku != prices[j].sku
  }

  predicate ActivePrimary(relation: Relation) {
    relation.status == Active && relation.isPrimary
  }

  predicate OnePrimary(relations: map<int, Relation>) {
    forall i, j | && i in relations && j in relations && i != j
                  && ActivePrimary(relations[i]) && ActivePrimary(relations[j]) ::
      relations[i].factory != relations[j].factory || relations[i].sku != relations[j].sku
  }

  /** Each recorded effect is below the version its approval has now, and later ones are above it. */
  predicate EffectsNumbered(effects: seq<Effect>, versions: map<Resource, int>) {
    && (forall i | 0 <= i < |effects| ::
          ApprovalVersion(effects[i].approval) in versions
          && effects[i].objectVersion < versions[ApprovalVersion(effects[i].approval)])
    && (forall i, j | 0 <= i < j < |effects| && effects[i].approval == effects[j].approval ::
          effects[i].objectVersion < effects[j].objectVersion)
  }

  predicate Kept(t: Tables) {
    OneActivePrice(t.prices) && EffectsNumbered(t.effects, t.versions)
  }

  predicate Inv(t: Tables) {
    Kept(t) && OnePrimary(t.relations)
  }

  lemma {:induction false} LatestActiveIsLatest(prices: seq<Price>, supplier: nat, sku: string)
    ensures var r := LatestActive(prices, supplier, sku);
            forall i | 0 <= i < |prices| && ActiveFor(prices[i], supplier, sku) ::
              r.Some? && (prices[i].effectiveFrom < prices[r.value].effectiveFrom
                          || (prices[i].effectiveFrom == prices[r.value].effectiveFrom && i <= r.value))
  {
    if prices != [] {
      LatestActiveIsLatest(prices[..|prices| - 1], supplier, sku);
    }
  }

  lemma ReplaceKeepsOneActive(prices: seq<Price>, change: Change)
    requires OneActivePrice(prices)
    requires LatestActive(prices, change.supplier, change.sku) == change.currentAgreement
    ensures OneActivePrice(Replace(prices, change))
  {
    LatestActiveIsLatest(prices, change.supplier, change.sku);
    forall i | 0 <= i < |prices| && ActiveFor(prices[i], change.supplier, change.sku)
      ensures change.currentAgreement == Some(i)
    {
    }
    var after := Replace(prices, change);
    assert forall i | 0 <= i < |prices| :: !ActiveFor(after[i], change.supplier, change.sku);
  }

  lemma SkuKeepsOnePrimary(s: Setting, t: Tables, approval: Approval, decision: Decision, actor: int)
    requires OnePrimary(t.relations)
    requires ApplySupplierSku(s.hash, t, approval, decision, actor, s.now).Success?
    ensures OnePrimary(ApplySupplierSku(s.hash, t, approval, decision, actor, s.now).value.relations)
  {
    var id := approval.entity;
    var after := ApplySupplierSku(s.hash, t, approval, decision, actor, s.now).value.relations;
    forall i, j | i in after && j in after && i != j && ActivePrimary(after[i]) && ActivePrimary(after[j])
      ensures after[i].factory != after[j].factory || after[i].sku != after[j].sku
    {
      assert i != id ==> after[i].factory == t.relations[i].factory && after[i].sku == t.relations[i].sku;
      assert j != id ==> after[j].factory == t.relations[j].factory && after[j].sku == t.relations[j].sku;
    }
  }

  /** The approvals, their versions and the records of effects are as before. */
  ghost predicate LeavesApprovals(t: Tables, after: Tables) {
    && after.effects == t.effects && after.approvals == t.approvals
    && (forall id :: ApprovalVersion(id) in after.versions <==> ApprovalVersion(id) in t.versions)
    && (forall id | ApprovalVersion(id) in t.versions ::
          after.versions[ApprovalVersion(id)] == t.versions[ApprovalVersion(id)])
  }

  lemma NumberedWithout(t: Tables, after: Tables)
    requires EffectsNumbered(t.effects, t.versions) && LeavesApprovals(t, after)
    ensures EffectsNumbered(after.effects, after.versions)
  {
  }

  lemma SkuKeepsInv(s: Setting, t: Tables, approval: Approval, decision: Decision, actor: int)
    requires ApplySupplierSku(s.hash, t, approval, decision, actor, s.now).Success?
    ensures var after := ApplySupplierSku(s.hash, t, approval, decision, actor, s.now).value;
            LeavesApprovals(t, after) && after.prices == t.prices
  {
  }

  lemma PriceKeepsInv(t: Tables, approval: Approval, decision: Decision, actor: int)
    requires OneActivePrice(t.prices) && ApplySupplierPrice(t, approval, decision, actor).Success?
    ensures var after := ApplySupplierPrice(t, approval, decision, actor).value;
            LeavesApprovals(t, after) && after.relations == t.relations && OneActivePrice(after.prices)
  {
    if decision == Approved {
      ReplaceKeepsOneActive(t.prices, t.changes[approval.entity]);
    }
  }

  lemma DeviationKeepsInv(t: Tables, approval: Approval, decision: Decision, now: nat)
    requires ApplyPlanDeviation(t, approval, decision, now).Success?
    ensures var after := ApplyPlanDeviation(t, approval, decision, now).value;
            LeavesApprovals(t, after) && after.relations == t.relations && after.prices == t.prices
  {
  }

  lemma ApplyKeeps(s: Setting, t: Tables, approval: Approval, decision: Decision, actor: int)
    requires Kept(t) && ApplyEffect(s, t, approval, decision, actor).Success?
    ensures Kept(ApplyEffect(s, t, approval, decision, actor).value)
    ensures LeavesApprovals(t, ApplyEffect(s, t, approval, decision, actor).value)
  {
    var after := ApplyEffect(s, t, approval, decision, actor).value;
    match approval.effectType
    case SupplierSkuChange =>
      SkuKeepsInv(s, t, approval, decision, actor);
      NumberedWithout(t, after);
    case SupplierPriceChange =>
      PriceKeepsInv(t, approval, decision, actor);
      NumberedWithout(t, after);
    case PlanDeviation =>
      DeviationKeepsInv(t, approval, decision, s.now);
      NumberedWithout(t, after);
    case OtherEffect(_) =>
  }

  lemma ApplyKeepsPrimary(s: Setting, t: Tables, approval: Approval, decision: Decision, actor: int)
    requires OnePrimary(t.relations) && ApplyEffect(s, t, approval, decision, actor).Success?
    ensures OnePrimary(ApplyEffect(s, t, approval, decision, actor).value.relations)
  {
    if approval.effectType == SupplierSkuChange {
      SkuKeepsOnePrimary(s, t, approval, decision, actor);
    } else {
      assert ApplyEffect(s, t, approval, decision, actor).value.relations == t.relations;
    }
  }

  lemma RecordKeeps(t: Tables, approval: nat, objectVersion: int, decision: Decision)
    requires Kept(t) && Record(t, approval, objectVersion, decision).Success?
    ensures Kept(Record(t, approval, objectVersion, decision).value)
  {
  }

  /**
  Every committed effect keeps one active price and the numbering of effects, and one primary where
  there was one.
  */
  lemma ExecuteKeepsInv(s: Setting, t: Tables, effectType: EffectType, claim: Claim)
    requires Kept(t) && Execute(s, t, effectType, claim).Success?
    ensures Kept(Execute(s, t, effectType, claim).value)
    ensures OnePrimary(t.relations) ==> Inv(Execute(s, t, effectType, claim).value)
  {
    var (id, decision) := Admit(s, t, effectType, claim).value;
    ApplyKeeps(s, t, t.approvals[id], decision, claim.userId);
    RecordKeeps(ApplyEffect(s, t, t.approvals[id], decision, claim.userId).value, id, claim.objectVersion, decision);
    if OnePrimary(t.relations) {
      ApplyKeepsPrimary(s, t, t.approvals[id], decision, claim.userId);
    }
  }
}
