/**
What a bound factory writes without an approval (apps/api/src/modules/suppliers/writes.ts): prices
and relations of the tier-3 suppliers it manages. Permissions and the evidence file are checked
before; a refused write is rolled back.
*/
module FactoryWrites {
  import opened Wrappers
  import opened RowLocks
  import opened ApprovalEffects
  import opened ColumnReference

  datatype WriteError = BadRequest | Refused

  // ---------- Prices ----------

  datatype PriceWrite = PriceWrite(
    factory: int, supplier: nat, sku: string, amounts: string, effectiveFrom: int,
    objectVersion: Id, claimHeld: bool, actor: int)

  predicate HasActiveRelation(relations: map<int, Relation>, factory: int, supplier: int, sku: string) {
    exists k :: k in relations && relations[k].status == Active && relations[k].factory == factory
                && relations[k].supplier == supplier && relations[k].sku == sku
  }

  /** The version after INSERT IGNORE ... VALUES (..., 1, ...). */
  function VersionOf(versions: map<Resource, int>, resource: Resource): int {
    if resource in versions then versions[resource] else 1
  }

  function AsChange(w: PriceWrite, current: Option<nat>): Change {
    Change(current, w.supplier, w.sku, w.amounts, w.effectiveFrom, w.actor, None, None)
  }

  /** The direct branch of writeSupplierPrice. */
  function WritePrice(t: Tables, w: PriceWrite): Result<Tables, WriteError> {
    var current := LatestActive(t.prices, w.supplier, w.sku);
    var resource := PriceVersion(PriceKey(w.supplier, w.sku));
    if !HasActiveRelation(t.relations, w.factory, w.supplier, w.sku) then Failure(Refused)
    else if current.Some? && w.effectiveFrom <= t.prices[current.value].effectiveFrom then Failure(Refused)
    else if !IdOk(w.objectVersion) then Failure(BadRequest)
    else if w.objectVersion.value != VersionOf(t.versions, resource) || !w.claimHeld then Failure(Refused)
    else
      Success(t.(prices := Replace(t.prices, AsChange(w, current)),
                 versions := t.versions[resource := w.objectVersion.value + 1]))
  }

  /**
  A direct price is the only active one afterwards; the one it replaces ends the day before it
  starts and not before it started itself, and no other price changes.
  */
  lemma WrittenPrice(t: Tables, w: PriceWrite)
    requires OneActivePrice(t.prices) && WritePrice(t, w).Success?
    ensures var after := WritePrice(t, w).value.prices;
            && OneActivePrice(after) && |after| == |t.prices| + 1
            && (forall i | 0 <= i < |after| :: ActiveFor(after[i], w.supplier, w.sku) <==> i == |t.prices|)
            && after[|t.prices|].effectiveFrom == w.effectiveFrom && after[|t.prices|].amounts == w.amounts
            && (forall i | 0 <= i < |t.prices| ::
                  if ActiveFor(t.prices[i], w.supplier, w.sku)
                  then && after[i] == t.prices[i].(effectiveTo := Some(w.effectiveFrom - 1), active := false)
                       && t.prices[i].effectiveFrom <= w.effectiveFrom - 1
                  else after[i] == t.prices[i])
  {
    LatestActiveIsLatest(t.prices, w.supplier, w.sku);
    var change := AsChange(w, LatestActive(t.prices, w.supplier, w.sku));
    ReplaceKeepsOneActive(t.prices, change);
    forall i | 0 <= i < |t.prices| && ActiveFor(t.prices[i], w.supplier, w.sku)
      ensures change.currentAgreement == Some(i)
    {
    }
  }

  /** The version that a write must name: the one there is, or 1 where there is none. */
  function CurrentPriceVersion(t: Tables, w: PriceWrite): int {
    var price := PriceVersion(Decimal(w.supplier) + ":" + w.sku);
    if price in t.versions then t.versions[price] else 1
  }

  /**
  A direct price is written exactly if the factory has an active relation for supplier and SKU, the
  price starts after the active one, and the write names the current version and holds its claim. That
  version, and no other, goes up by one.
  */
  lemma PriceIsWritten(t: Tables, w: PriceWrite)
    requires OneActivePrice(t.prices)
    ensures WritePrice(t, w).Success? <==>
              && (exists k :: && k in t.relations && t.relations[k].status == Active
                              && t.relations[k].factory == w.factory && t.relations[k].supplier == w.supplier
                              && t.relations[k].sku == w.sku)
              && (forall i | 0 <= i < |t.prices| && ActiveFor(t.prices[i], w.supplier, w.sku) ::
                    t.prices[i].effectiveFrom < w.effectiveFrom)
              && IdOk(w.objectVersion) && w.objectVersion.value == CurrentPriceVersion(t, w) && w.claimHeld
    ensures WritePrice(t, w).Success? ==>
              WritePrice(t, w).value.versions
              == t.versions[PriceVersion(Decimal(w.supplier) + ":" + w.sku) := CurrentPriceVersion(t, w) + 1]
  {
    LatestActiveIsLatest(t.prices, w.supplier, w.sku);
  }

  // ---------- Relations ----------

  datatype SkuWrite = SkuWrite(
    factory: int, supplier: int, sku: string, isPrimary: bool, terms: string, actor: int, now: nat)

  predicate SameRelation(r: Relation, w: SkuWrite) {
    r.factory == w.factory && r.supplier == w.supplier && r.sku == w.sku
  }

  /** The id of the relation that is written: of the one that is there, or a new one. */
  ghost predicate Targets(t: Tables, w: SkuWrite, id: int) {
    if id in t.relations then SameRelation(t.relations[id], w)
    else forall k | k in t.relations :: !SameRelation(t.relations[k], w)
  }

  function Written(w: SkuWrite): Relation {
    Relation(w.factory, w.supplier, w.sku, w.isPrimary, w.terms, w.actor, Active, None, w.now)
  }

  /** The direct branch of writeSupplierSku: active at once, and no other relation is touched. */
  function WriteSku(t: Tables, w: SkuWrite, id: int): Tables {
    t.(relations := t.relations[id := Written(w)],
       versions := t.versions[SkuVersion(id) :=
         VersionOf(t.versions, SkuVersion(id)) + if id in t.relations then 1 else 0])
  }

  /** No two rows are for the same factory, supplier and SKU. */
  ghost predicate OneRowEach(relations: map<int, Relation>) {
    forall i, j | i in relations && j in relations && i != j ::
      || relations[i].factory != relations[j].factory || relations[i].supplier != relations[j].supplier
      || relations[i].sku != relations[j].sku
  }

  /**
  A direct relation is active at once, as it was written. A new one starts at version 1, an old one has
  its version raised by one, no other relation or version changes, and no two rows come to be for the
  same factory, supplier and SKU.
  */
  lemma WrittenRelation(t: Tables, w: SkuWrite, id: int)
    requires Targets(t, w, id)
    ensures OneRowEach(t.relations) ==> OneRowEach(WriteSku(t, w, id).relations)
    ensures var after := WriteSku(t, w, id);
            && after == t.(relations := after.relations, versions := after.versions)
            && after.relations.Keys == t.relations.Keys + {id}
            && after.versions.Keys == t.versions.Keys + {SkuVersion(id)}
            && after.relations[id].status == Active && after.relations[id].isPrimary == w.isPrimary
            && after.relations[id].factory == w.factory && after.relations[id].supplier == w.supplier
            && after.relations[id].sku == w.sku && after.relations[id].terms == w.terms
            && (forall k | k in t.relations && k != id :: after.relations[k] == t.relations[k])
            && (forall r | r in t.versions && r != SkuVersion(id) :: after.versions[r] == t.versions[r])
            && (id !in t.relations && SkuVersion(id) !in t.versions ==> after.versions[SkuVersion(id)] == 1)
            && (id in t.relations && SkuVersion(id) in t.versions ==>
                  after.versions[SkuVersion(id)] == t.versions[SkuVersion(id)] + 1)
  {
  }

  /** No other relation of this factory and SKU is an active primary, or this one does not claim to be. */
  predicate Undisputed(t: Tables, w: SkuWrite, id: int) {
    w.isPrimary ==>
      forall k | k in t.relations && k != id && ActivePrimary(t.relations[k]) ::
        t.relations[k].factory != w.factory || t.relations[k].sku != w.sku
  }

  /** A direct write keeps one active primary exactly when it is undisputed: nothing demotes the others. */
  lemma OnePrimaryExactly(t: Tables, w: SkuWrite, id: int)
    requires OnePrimary(t.relations) && Targets(t, w, id)
    ensures OnePrimary(WriteSku(t, w, id).relations) <==> Undisputed(t, w, id)
  {
    var after := WriteSku(t, w, id).relations;
    if !Undisputed(t, w, id) {
      var k :| k in t.relations && k != id && ActivePrimary(t.relations[k])
               && t.relations[k].factory == w.factory && t.relations[k].sku == w.sku;
      assert ActivePrimary(after[k]) && ActivePrimary(after[id]);
    }
  }

  /** Two suppliers of one factory, each written as primary: both are active primaries of the SKU afterwards. */
  lemma TwoPrimaries(t: Tables, first: SkuWrite, second: SkuWrite, i: int, j: int)
    requires Targets(t, first, i) && Targets(WriteSku(t, first, i), second, j)
    requires first.isPrimary && second.isPrimary && first.supplier != second.supplier
    requires first.factory == second.factory && first.sku == second.sku
    ensures var after := WriteSku(WriteSku(t, first, i), second, j).relations;
            && i in after && j in after && i != j && ActivePrimary(after[i]) && ActivePrimary(after[j])
            && !OnePrimary(after)
  {
  }

  // ---------- What both keep ----------

  lemma PriceWriteKeeps(t: Tables, w: PriceWrite)
    requires Kept(t) && WritePrice(t, w).Success?
    ensures Kept(WritePrice(t, w).value) && WritePrice(t, w).value.relations == t.relations
    ensures LeavesApprovals(t, WritePrice(t, w).value)
  {
    WrittenPrice(t, w);
    NumberedWithout(t, WritePrice(t, w).value);
  }

  lemma SkuWriteKeeps(t: Tables, w: SkuWrite, id: int)
    requires Kept(t)
    ensures Kept(WriteSku(t, w, id)) && LeavesApprovals(t, WriteSku(t, w, id))
  {
    NumberedWithout(t, WriteSku(t, w, id));
  }
}
