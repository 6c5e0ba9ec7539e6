/**
 * Pharmacy stock allocation and dispensing (src/services/pharmacyService.ts).
 *
 * Stock is held in batches (`StockItem`); a prescription lists items with a
 * prescribed quantity; a dispense groups the lines handed out against one
 * prescription.  Completing a dispense takes its lines out of stock and
 * recomputes the prescription's status from everything dispensed so far.
 * The database is an immutable `Pharmacy` value; a transaction that throws
 * leaves it as it was.
 */
module Pharmacy {
  import opened Wrappers
  import opened Strings

  // ---------------------------------------------------------------------
  // Records
  // ---------------------------------------------------------------------

  /** A stock batch; a missing expiry date is `None`. */
  datatype StockItem = StockItem(
    stockItemId: string,
    drugId: string,
    location: string,
    qtyOnHand: int,
    expiryDate: Option<int>,
    createdAt: int)

  datatype Pick = Pick(stockItemId: string, qty: int)

  datatype Drug = Drug(drugId: string, name: string, strength: string)

  /** An allergy record; the substance column may be null. */
  datatype Allergy = Allergy(substance: Option<string>)

  datatype RxStatus = PENDING | PARTIAL | DISPENSED

  datatype DispenseStatus = READY | COMPLETED | DispensePartial

  /** One item of a prescription request (`CreateRxInput.items`). */
  datatype RxItemInput = RxItemInput(
    drugId: string,
    dose: string,
    route: string,
    frequency: string,
    durationDays: int,
    quantityPrescribed: int,
    prn: Option<bool>,
    allowGeneric: Option<bool>,
    notes: Option<string>)

  datatype RxInput = RxInput(notes: Option<string>, items: seq<RxItemInput>)

  datatype RxItem = RxItem(
    itemId: string,
    drugId: string,
    dose: string,
    route: string,
    frequency: string,
    durationDays: int,
    quantityPrescribed: int,
    prn: bool,
    allowGeneric: bool,
    notes: Option<string>)

  datatype Prescription = Prescription(
    prescriptionId: string,
    visitId: string,
    doctorId: string,
    patientId: string,
    notes: Option<string>,
    items: seq<RxItem>,
    status: RxStatus)

  datatype Dispense = Dispense(dispenseId: string, prescriptionId: string, pharmacistId: string, status: DispenseStatus)

  /** `DispenseItemInput` */
  datatype DispenseItemInput = DispenseItemInput(
    prescriptionItemId: string,
    stockItemId: Option<string>,
    drugId: string,
    quantity: int,
    unitPrice: Option<int>)

  datatype DispenseItem = DispenseItem(
    dispenseId: string,
    prescriptionItemId: string,
    stockItemId: Option<string>,
    drugId: string,
    quantity: int,
    unitPrice: Option<int>)

  datatype Pharmacy = Pharmacy(
    stock: map<string, StockItem>,
    prescriptions: map<string, Prescription>,
    dispenses: map<string, Dispense>,
    dispenseItems: seq<DispenseItem>)

  /** The errors a pharmacy transaction throws. */
  datatype PharmacyError = NotFound | OutOfStockRace | MissingReference

  // ---------------------------------------------------------------------
  // allocateFEFO
  // ---------------------------------------------------------------------

  /**
   * `orderBy: [{ expiryDate: 'asc' }, { createdAt: 'asc' }]`, with batches
   * without an expiry date last (the database's default for ascending order).
   */
  predicate FefoBefore(a: StockItem, b: StockItem) {
    match (a.expiryDate, b.expiryDate)
    case (Some(x), Some(y)) => x < y || (x == y && a.createdAt <= b.createdAt)
    case (Some(_), None) => true
    case (None, Some(_)) => false
    case (None, None) => a.createdAt <= b.createdAt
  }

  predicate FefoOrdered(batches: seq<StockItem>) {
    forall i, j :: 0 <= i < j < |batches| ==> FefoBefore(batches[i], batches[j])
  }

  /** What the batch query returns: batches of the drug at the location with stock, in FEFO order. */
  predicate IsBatchQueryResult(batches: seq<StockItem>, drugId: string, location: string) {
    && FefoOrdered(batches)
    && forall i :: 0 <= i < |batches| ==>
      batches[i].drugId == drugId && batches[i].location == location && batches[i].qtyOnHand > 0
  }

  function TotalOnHand(batches: seq<StockItem>): int {
    if |batches| == 0 then 0 else batches[0].qtyOnHand + TotalOnHand(batches[1..])
  }

  function PickedQty(picks: seq<Pick>): int {
    if |picks| == 0 then 0 else picks[0].qty + PickedQty(picks[1..])
  }

  function Min(a: int, b: int): int {
    if a <= b then a else b
  }

  /**
   * The allocation loop as a recursion over the batches: stop once nothing
   * is needed, otherwise take `min(qtyOnHand, remaining)` of the next batch.
   */
  function Allocate(batches: seq<StockItem>, remaining: int): (r: (seq<Pick>, int))
    ensures |r.0| <= |batches|
  {
    if |batches| == 0 || remaining <= 0 then ([], remaining)
    else
      var take := Min(batches[0].qtyOnHand, remaining);
      if take > 0 then
        var rest := Allocate(batches[1..], remaining - take);
        ([Pick(batches[0].stockItemId, take)] + rest.0, rest.1)
      else Allocate(batches[1..], remaining)
  }

  predicate AllStocked(batches: seq<StockItem>) {
    forall i :: 0 <= i < |batches| ==> batches[i].qtyOnHand > 0
  }

  /** What is picked plus what is still needed is what was needed. */
  lemma {:induction false} AllocateConserves(batches: seq<StockItem>, needed: int)
    ensures PickedQty(Allocate(batches, needed).0) + Allocate(batches, needed).1 == needed
  {
    if |batches| > 0 && needed > 0 {
      var take := Min(batches[0].qtyOnHand, needed);
      if take > 0 {
        AllocateConserves(batches[1..], needed - take);
      } else {
        AllocateConserves(batches[1..], needed);
      }
    }
  }

  /** From stocked batches, a non-negative need is met as far as the stock allows. */
  lemma {:induction false} AllocateTakesMin(batches: seq<StockItem>, needed: int)
    requires AllStocked(batches) && needed >= 0
    ensures PickedQty(Allocate(batches, needed).0) == Min(needed, TotalOnHand(batches))
    ensures Allocate(batches, needed).1 == needed - Min(needed, TotalOnHand(batches))
  {
    AllocateConserves(batches, needed);
    if |batches| > 0 && needed > 0 {
      var take := Min(batches[0].qtyOnHand, needed);
      AllocateTakesMin(batches[1..], needed - take);
      StockedTotalNonNegative(batches[1..]);
    } else if |batches| > 0 {
      StockedTotalNonNegative(batches);
    }
  }

  lemma {:induction false} StockedTotalNonNegative(batches: seq<StockItem>)
    requires AllStocked(batches)
    ensures TotalOnHand(batches) >= 0
  {
    if |batches| > 0 {
      StockedTotalNonNegative(batches[1..]);
    }
  }

  /** One step of the walk over stocked batches: the first batch is picked, at most all of it. */
  lemma AllocateStep(batches: seq<StockItem>, needed: int)
    requires AllStocked(batches) && |batches| > 0 && needed > 0
    ensures AllStocked(batches[1..])
    ensures var take := Min(batches[0].qtyOnHand, needed);
      && 0 < take <= batches[0].qtyOnHand
      && Allocate(batches, needed) ==
         ([Pick(batches[0].stockItemId, take)] + Allocate(batches[1..], needed - take).0,
          Allocate(batches[1..], needed - take).1)
  {
    var tail := batches[1..];
    forall i | 0 <= i < |tail| ensures tail[i].qtyOnHand > 0 {
      assert tail[i] == batches[i + 1];
    }
  }

  /**
   * From stocked batches, pick `k` comes from batch `k` and takes between 1
   * and all of it, and nothing is picked when nothing is needed.
   */
  lemma {:induction false} AllocateIsGreedyPrefix(batches: seq<StockItem>, needed: int)
    requires AllStocked(batches)
    ensures var picks := Allocate(batches, needed).0;
      forall k :: 0 <= k < |picks| ==>
        picks[k].stockItemId == batches[k].stockItemId && 0 < picks[k].qty <= batches[k].qtyOnHand
    ensures needed <= 0 ==> Allocate(batches, needed) == ([], needed)
  {
    if |batches| > 0 && needed > 0 {
      var take := Min(batches[0].qtyOnHand, needed);
      var tail := batches[1..];
      AllocateStep(batches, needed);
      AllocateIsGreedyPrefix(tail, needed - take);
      var rest := Allocate(tail, needed - take).0;
      var picks := Allocate(batches, needed).0;
      forall k | 1 <= k < |picks|
        ensures picks[k].stockItemId == batches[k].stockItemId && 0 < picks[k].qty <= batches[k].qtyOnHand
      {
        assert picks[k] == rest[k - 1] && batches[k] == tail[k - 1];
      }
    }
  }

  /**
   * Every pick but the last takes its whole batch, and the walk stops
   * before the last batch only once nothing more is needed.
   */
  lemma {:induction false} AllocateTakesWholeBatches(batches: seq<StockItem>, needed: int)
    requires AllStocked(batches)
    ensures var picks := Allocate(batches, needed).0;
      forall k :: 0 <= k < |picks| - 1 ==> picks[k].qty == batches[k].qtyOnHand
    ensures |Allocate(batches, needed).0| < |batches| ==> Allocate(batches, needed).1 <= 0
  {
    if |batches| > 0 && needed > 0 {
      var take := Min(batches[0].qtyOnHand, needed);
      var tail := batches[1..];
      AllocateStep(batches, needed);
      AllocateTakesWholeBatches(tail, needed - take);
      var rest := Allocate(tail, needed - take).0;
      var picks := Allocate(batches, needed).0;
      if |rest| > 0 {
        assert needed - take > 0;
        assert take == batches[0].qtyOnHand;
        forall k | 1 <= k < |picks| - 1
          ensures picks[k].qty == batches[k].qtyOnHand
        {
          assert picks[k] == rest[k - 1] && batches[k] == tail[k - 1];
        }
      }
    }
  }

  /**
   * `allocateFEFO(drugId, location, neededQty)` given the batch query's
   * result: walk the batches in order, taking as much of each as is still
   * needed, until nothing is needed.  Stock is only read.
   */
  method AllocateFEFO(batches: seq<StockItem>, drugId: string, location: string, neededQty: int)
    returns (picks: seq<Pick>, remaining: int)
    requires IsBatchQueryResult(batches, drugId, location)
    ensures (picks, remaining) == Allocate(batches, neededQty)
    ensures |picks| <= |batches|
    ensures forall k :: 0 <= k < |picks| ==>
      picks[k].stockItemId == batches[k].stockItemId && 0 < picks[k].qty <= batches[k].qtyOnHand
    ensures PickedQty(picks) + remaining == neededQty
    ensures neededQty >= 0 ==> PickedQty(picks) == Min(neededQty, TotalOnHand(batches))
    ensures neededQty >= 0 ==> (remaining == 0 <==> TotalOnHand(batches) >= neededQty)
    ensures forall k :: 0 <= k < |picks| - 1 ==> picks[k].qty == batches[k].qtyOnHand
    ensures |picks| < |batches| ==> remaining <= 0
    ensures neededQty <= 0 ==> picks == [] && remaining == neededQty
  {
    picks, remaining := Walk(batches, neededQty);
    assert AllStocked(batches);
    AllocateProperties(batches, neededQty);
  }

  /** The loop of `allocateFEFO`: it computes `Allocate`. */
  method Walk(batches: seq<StockItem>, neededQty: int) returns (picks: seq<Pick>, remaining: int)
    ensures (picks, remaining) == Allocate(batches, neededQty)
  {
    picks := [];
    remaining := neededQty;
    var i := 0;
    assert batches[0..] == batches;
    assert picks + Allocate(batches, neededQty).0 == Allocate(batches, neededQty).0;
    while i < |batches|
      invariant 0 <= i <= |batches|
      invariant Allocate(batches, neededQty) ==
        (picks + Allocate(batches[i..], remaining).0, Allocate(batches[i..], remaining).1)
    {
      if remaining <= 0 {
        break;
      }
      var batch := batches[i];
      var take := Min(batch.qtyOnHand, remaining);
      WalkStep(batches, i, remaining);
      if take > 0 {
        var rest := Allocate(batches[i + 1..], remaining - take);
        assert picks + ([Pick(batch.stockItemId, take)] + rest.0) == (picks + [Pick(batch.stockItemId, take)]) + rest.0;
        picks := picks + [Pick(batch.stockItemId, take)];
        remaining := remaining - take;
      }
      i := i + 1;
    }
    assert Allocate(batches[i..], remaining) == ([], remaining);
    assert picks + [] == picks;
  }

  /** `Allocate` from batch `i` on, unfolded once. */
  lemma WalkStep(batches: seq<StockItem>, i: int, remaining: int)
    requires 0 <= i < |batches| && remaining > 0
    ensures var take := Min(batches[i].qtyOnHand, remaining);
      Allocate(batches[i..], remaining) ==
        if take > 0 then
          ([Pick(batches[i].stockItemId, take)] + Allocate(batches[i + 1..], remaining - take).0,
           Allocate(batches[i + 1..], remaining - take).1)
        else Allocate(batches[i + 1..], remaining)
  {
    assert batches[i..][0] == batches[i];
    assert batches[i..][1..] == batches[i + 1..];
  }

  /** The allocation properties of `Allocate`, gathered for one call. */
  lemma AllocateProperties(batches: seq<StockItem>, needed: int)
    requires AllStocked(batches)
    ensures var (picks, remaining) := Allocate(batches, needed);
      && (forall k :: 0 <= k < |picks| ==>
            picks[k].stockItemId == batches[k].stockItemId && 0 < picks[k].qty <= batches[k].qtyOnHand)
      && PickedQty(picks) + remaining == needed
      && (needed >= 0 ==> PickedQty(picks) == Min(needed, TotalOnHand(batches)))
      && (needed >= 0 ==> (remaining == 0 <==> TotalOnHand(batches) >= needed))
      && (forall k :: 0 <= k < |picks| - 1 ==> picks[k].qty == batches[k].qtyOnHand)
      && (|picks| < |batches| ==> remaining <= 0)
      && (needed <= 0 ==> picks == [] && remaining == needed)
  {
    AllocateConserves(batches, needed);
    AllocateIsGreedyPrefix(batches, needed);
    AllocateTakesWholeBatches(batches, needed);
    if needed >= 0 {
      AllocateTakesMin(batches, needed);
    }
  }

  // ---------------------------------------------------------------------
  // checkAllergy
  // ---------------------------------------------------------------------

  /** `drugName.toLowerCase().includes(substance)` for some drug name. */
  predicate AnyNameMentions(drugNames: seq<string>, substance: string) {
    exists j | 0 <= j < |drugNames| :: Contains(ToLower(drugNames[j]), substance)
  }

  /** An allergy record that raises an alert against these drug names. */
  predicate Hits(a: Allergy, drugNames: seq<string>) {
    var substance := ToLower(a.substance.GetOr(""));
    substance != "" && AnyNameMentions(drugNames, substance)
  }

  /** The alerts, as a plain filter: each hitting record's substance, in record order. */
  function AllergyHits(allergies: seq<Allergy>, drugNames: seq<string>): (r: seq<string>)
    ensures |r| <= |allergies|
    ensures forall s :: s in r <==>
      exists i :: 0 <= i < |allergies| && Hits(allergies[i], drugNames) && allergies[i].substance == Some(s)
  {
    if |allergies| == 0 then []
    else
      var init := AllergyHits(allergies[..|allergies| - 1], drugNames);
      var last := allergies[|allergies| - 1];
      assert forall i :: 0 <= i < |allergies| - 1 ==> allergies[i] == allergies[..|allergies| - 1][i];
      if Hits(last, drugNames) then init + [last.substance.value] else init
  }

  /** One record alerts with its substance exactly when it hits. */
  lemma AllergyHitsSingle(a: Allergy, drugNames: seq<string>)
    ensures AllergyHits([a], drugNames) == if Hits(a, drugNames) then [a.substance.value] else []
  {
    assert [a][..0] == [];
  }

  /** The records are checked one after another: the alerts of two lists are those of each, in turn. */
  lemma {:induction false} AllergyHitsAppend(a: seq<Allergy>, b: seq<Allergy>, drugNames: seq<string>)
    ensures AllergyHits(a + b, drugNames) == AllergyHits(a, drugNames) + AllergyHits(b, drugNames)
    decreases |b|
  {
    if |b| == 0 {
      assert a + b == a;
    } else {
      var ab := a + b;
      assert ab[..|ab| - 1] == a + b[..|b| - 1];
      assert ab[|ab| - 1] == b[|b| - 1];
      AllergyHitsAppend(a, b[..|b| - 1], drugNames);
    }
  }

  /**
   * `checkAllergy(patientId, drugNames)` over the patient's allergy records;
   * `None` stands for a lookup that threw, which yields no alerts.
   */
  method CheckAllergy(records: Option<seq<Allergy>>, drugNames: seq<string>) returns (alerts: seq<string>)
    ensures records.None? ==> alerts == []
    ensures records.Some? ==> alerts == AllergyHits(records.value, drugNames)
  {
    if records.None? {
      return [];
    }
    var allergies := records.value;
    alerts := [];
    var i := 0;
    while i < |allergies|
      invariant 0 <= i <= |allergies|
      invariant alerts == AllergyHits(allergies[..i], drugNames)
    {
      var allergy := allergies[i];
      AllergyHitsStep(allergies, i, drugNames);
      var substance := ToLower(allergy.substance.GetOr(""));
      if substance != "" {
        var hit := MentionsAny(drugNames, substance);
        if hit {
          alerts := alerts + [allergy.substance.value];
        }
      }
      i := i + 1;
    }
    assert allergies[..i] == allergies;
  }

  lemma AllergyHitsStep(allergies: seq<Allergy>, i: int, drugNames: seq<string>)
    requires 0 <= i < |allergies|
    ensures AllergyHits(allergies[..i + 1], drugNames) ==
      AllergyHits(allergies[..i], drugNames) + if Hits(allergies[i], drugNames) then [allergies[i].substance.value] else []
  {
    assert allergies[..i + 1][..i] == allergies[..i];
  }

  /** The inner `some`: whether any lower-cased drug name contains the substance. */
  method MentionsAny(drugNames: seq<string>, substance: string) returns (hit: bool)
    ensures hit <==> AnyNameMentions(drugNames, substance)
  {
    var j := 0;
    while j < |drugNames|
      invariant 0 <= j <= |drugNames|
      invariant forall k :: 0 <= k < j ==> !Contains(ToLower(drugNames[k]), substance)
    {
      if Contains(ToLower(drugNames[j]), substance) {
        return true;
      }
      j := j + 1;
    }
    return false;
  }

  // ---------------------------------------------------------------------
  // createPrescription
  // ---------------------------------------------------------------------

  /** A drug's name and strength joined by a space, trimmed. */
  function DrugLabel(d: Drug): (r: string)
    ensures Trimmed(r)
  {
    Trim(d.name + " " + d.strength)
  }

  /** The label of a catalogue row the items name; nothing for any other row. */
  function NamedLabel(drugIds: seq<string>, d: Drug): (r: Option<string>)
    ensures r.Some? <==> d.drugId in drugIds
    ensures r.Some? ==> r.value == DrugLabel(d)
  {
    if d.drugId in drugIds then Some(DrugLabel(d)) else None
  }

  /** The labels of the catalogue rows the items name, in catalogue order. */
  function DrugNames(catalog: seq<Drug>, drugIds: seq<string>): (r: seq<string>)
    ensures |r| <= |catalog|
  {
    Recognised(catalog, d => NamedLabel(drugIds, d))
  }

  /** A label is listed exactly when some catalogue row named by the items carries it. */
  lemma DrugNamesMembers(catalog: seq<Drug>, drugIds: seq<string>, x: string)
    ensures x in DrugNames(catalog, drugIds) <==>
      exists i :: 0 <= i < |catalog| && catalog[i].drugId in drugIds && x == DrugLabel(catalog[i])
  {
    RecognisedMembers(catalog, d => NamedLabel(drugIds, d), x);
  }

  /** The stored form of one requested item: `prn` false, `allowGeneric` true and `notes` null unless given. */
  function StoreItem(itemId: string, input: RxItemInput): (r: RxItem)
    ensures r.itemId == itemId && r.drugId == input.drugId && r.quantityPrescribed == input.quantityPrescribed
    ensures r.dose == input.dose && r.route == input.route
    ensures r.frequency == input.frequency && r.durationDays == input.durationDays
    ensures r.prn == (input.prn == Some(true))
    ensures r.allowGeneric == (input.allowGeneric != Some(false))
    ensures r.notes == input.notes
  {
    RxItem(itemId, input.drugId, input.dose, input.route, input.frequency,
           input.durationDays, input.quantityPrescribed,
           input.prn.GetOr(false), input.allowGeneric.GetOr(true), input.notes)
  }

  /**
   * `createPrescription`: the prescription is always created; allergy hits
   * are reported beside it and are empty for an empty patient id.  The
   * database-generated ids are parameters, and a new prescription is PENDING.
   */
  function CreatePrescription(
    catalog: seq<Drug>, allergies: Option<seq<Allergy>>,
    prescriptionId: string, itemIds: seq<string>,
    visitId: string, doctorId: string, patientId: string, payload: RxInput): (r: (Prescription, seq<string>))
    requires |itemIds| == |payload.items|
    ensures r.0.visitId == visitId && r.0.doctorId == doctorId && r.0.patientId == patientId
    ensures r.0.notes == payload.notes && r.0.status == PENDING
    ensures |r.0.items| == |payload.items|
    ensures forall k :: 0 <= k < |payload.items| ==> r.0.items[k] == StoreItem(itemIds[k], payload.items[k])
    ensures patientId == "" || allergies.None? ==> r.1 == []
    ensures patientId != "" && allergies.Some? ==>
      r.1 == AllergyHits(allergies.value, DrugNames(catalog, seq(|payload.items|, k requires 0 <= k < |payload.items| => payload.items[k].drugId)))
  {
    var drugIds := seq(|payload.items|, k requires 0 <= k < |payload.items| => payload.items[k].drugId);
    var names := DrugNames(catalog, drugIds);
    var hits := if patientId == "" || allergies.None? then [] else AllergyHits(allergies.value, names);
    var items := seq(|payload.items|, k requires 0 <= k < |payload.items| => StoreItem(itemIds[k], payload.items[k]));
    (Prescription(prescriptionId, visitId, doctorId, patientId, payload.notes, items, PENDING), hits)
  }

  // ---------------------------------------------------------------------
  // startDispense, addDispenseItem
  // ---------------------------------------------------------------------

  /** `startDispense`: a READY dispense under a fresh id; the prescription must exist. */
  function StartDispense(s: Pharmacy, dispenseId: string, prescriptionId: string, pharmacistId: string): (r: Result<Pharmacy, PharmacyError>)
    requires dispenseId !in s.dispenses
    ensures prescriptionId !in s.prescriptions ==> r == Failure(MissingReference)
    ensures r.Success? ==>
      && r.value.dispenses == s.dispenses[dispenseId := Dispense(dispenseId, prescriptionId, pharmacistId, READY)]
      && r.value.stock == s.stock && r.value.prescriptions == s.prescriptions
      && r.value.dispenseItems == s.dispenseItems
  {
    if prescriptionId !in s.prescriptions then Failure(MissingReference)
    else Success(s.(dispenses := s.dispenses[dispenseId := Dispense(dispenseId, prescriptionId, pharmacistId, READY)]))
  }

  /** `addDispenseItem`: one more line; absent stock id and price are stored as null, stock is untouched. */
  function AddDispenseItem(s: Pharmacy, dispenseId: string, item: DispenseItemInput): (r: Result<Pharmacy, PharmacyError>)
    ensures dispenseId !in s.dispenses ==> r == Failure(MissingReference)
    ensures dispenseId in s.dispenses ==> r.Success?
    ensures r.Success? ==>
      && r.value.dispenseItems == s.dispenseItems + [DispenseItem(dispenseId, item.prescriptionItemId,
           item.stockItemId, item.drugId, item.quantity, item.unitPrice)]
      && r.value.stock == s.stock && r.value.dispenses == s.dispenses
      && r.value.prescriptions == s.prescriptions
  {
    if dispenseId !in s.dispenses then Failure(MissingReference)
    else Success(s.(dispenseItems := s.dispenseItems + [DispenseItem(dispenseId, item.prescriptionItemId,
                    item.stockItemId, item.drugId, item.quantity, item.unitPrice)]))
  }

  // ---------------------------------------------------------------------
  // completeDispense
  // ---------------------------------------------------------------------

  /** A dispense line touches stock only when it names a batch (a non-empty stock item id). */
  predicate Touches(item: DispenseItem) {
    item.stockItemId.Some? && item.stockItemId.value != ""
  }

  /** The lines of one dispense, in storage order. */
  function LinesOf(items: seq<DispenseItem>, dispenseId: string): (r: seq<DispenseItem>)
    ensures forall x :: x in r <==> x in items && x.dispenseId == dispenseId
  {
    if |items| == 0 then []
    else if items[0].dispenseId == dispenseId then [items[0]] + LinesOf(items[1..], dispenseId)
    else LinesOf(items[1..], dispenseId)
  }

  /** How much the lines take out of batch `id`. */
  function Demand(lines: seq<DispenseItem>, id: string): int {
    if |lines| == 0 then 0
    else
      var own := if Touches(lines[0]) && lines[0].stockItemId.value == id then lines[0].quantity else 0;
      own + Demand(lines[1..], id)
  }

  /**
   * The decrement loop of `completeDispense`: each touching line takes its
   * quantity out of its batch, one after another; a missing batch or a
   * batch that goes negative aborts.
   */
  function ApplyDecrements(stock: map<string, StockItem>, lines: seq<DispenseItem>): (r: Result<map<string, StockItem>, PharmacyError>)
    ensures r.Failure? ==> r.error == OutOfStockRace || r.error == MissingReference
    ensures r.Success? ==> r.value.Keys == stock.Keys
    ensures r.Success? ==> forall id :: id in stock ==>
      && r.value[id].qtyOnHand == stock[id].qtyOnHand - Demand(lines, id)
      && r.value[id] == stock[id].(qtyOnHand := r.value[id].qtyOnHand)
    ensures r.Success? ==> forall k :: 0 <= k < |lines| && Touches(lines[k]) ==>
      lines[k].stockItemId.value in stock
  {
    if |lines| == 0 then Success(stock)
    else
      var line := lines[0];
      assert forall k :: 1 <= k < |lines| ==> lines[k] == lines[1..][k - 1];
      if !Touches(line) then ApplyDecrements(stock, lines[1..])
      else
        var id := line.stockItemId.value;
        if id !in stock then Failure(MissingReference)
        else
          var updated := stock[id].(qtyOnHand := stock[id].qtyOnHand - line.quantity);
          if updated.qtyOnHand < 0 then Failure(OutOfStockRace)
          else ApplyDecrements(stock[id := updated], lines[1..])
  }

  /** Total dispensed for prescription item `itemId` over every dispense of prescription `pid`. */
  function Cumulative(dispenses: map<string, Dispense>, items: seq<DispenseItem>, pid: string, itemId: string): (r: int)
    ensures (forall i :: 0 <= i < |items| ==> items[i].quantity >= 0) ==> r >= 0
    ensures (forall i :: 0 <= i < |items| ==> items[i].prescriptionItemId != itemId) ==> r == 0
  {
    if |items| == 0 then 0
    else
      var x := items[0];
      (if x.prescriptionItemId == itemId && x.dispenseId in dispenses && dispenses[x.dispenseId].prescriptionId == pid
       then x.quantity else 0)
      + Cumulative(dispenses, items[1..], pid, itemId)
  }

  /** Every prescribed line has been dispensed in at least the prescribed quantity. */
  predicate AllMet(dispenses: map<string, Dispense>, items: seq<DispenseItem>, rx: Prescription) {
    forall k :: 0 <= k < |rx.items| ==>
      Cumulative(dispenses, items, rx.prescriptionId, rx.items[k].itemId) >= rx.items[k].quantityPrescribed
  }

  /** The total over two runs of dispense lines is the sum of the totals of each. */
  lemma {:induction false} CumulativeAppend(dispenses: map<string, Dispense>, a: seq<DispenseItem>, b: seq<DispenseItem>, pid: string, itemId: string)
    ensures Cumulative(dispenses, a + b, pid, itemId) == Cumulative(dispenses, a, pid, itemId) + Cumulative(dispenses, b, pid, itemId)
  {
    if |a| == 0 {
      assert a + b == b;
    } else {
      assert (a + b)[0] == a[0] && (a + b)[1..] == a[1..] + b;
      CumulativeAppend(dispenses, a[1..], b, pid, itemId);
    }
  }

  /** Dispensing more, in non-negative quantities, never turns a fully met prescription back into an unmet one. */
  lemma AllMetMonotone(dispenses: map<string, Dispense>, items: seq<DispenseItem>, more: seq<DispenseItem>, rx: Prescription)
    requires forall i :: 0 <= i < |more| ==> more[i].quantity >= 0
    ensures AllMet(dispenses, items, rx) ==> AllMet(dispenses, items + more, rx)
  {
    forall k | 0 <= k < |rx.items|
      ensures Cumulative(dispenses, items + more, rx.prescriptionId, rx.items[k].itemId)
        >= Cumulative(dispenses, items, rx.prescriptionId, rx.items[k].itemId)
    {
      CumulativeAppend(dispenses, items, more, rx.prescriptionId, rx.items[k].itemId);
    }
  }

  /** The status a completion writes back to the prescription. */
  function FinalStatus(dispenses: map<string, Dispense>, items: seq<DispenseItem>, rx: Prescription): (r: RxStatus)
    ensures r == DISPENSED <==> AllMet(dispenses, items, rx)
    ensures r == DISPENSED || r == PARTIAL
  {
    if AllMet(dispenses, items, rx) then DISPENSED else PARTIAL
  }

  /**
   * `completeDispense(dispenseId, status)`: on success the new state and the
   * prescription's new status; on failure the error and the untouched state.
   */
  function CompleteDispense(s: Pharmacy, dispenseId: string, status: DispenseStatus): (r: (Pharmacy, Result<RxStatus, PharmacyError>))
    ensures dispenseId !in s.dispenses ==> r.1 == Failure(NotFound)
    ensures r.1.Failure? ==> r.0 == s
    ensures r.1.Success? ==>
      && dispenseId in s.dispenses
      && var pid := s.dispenses[dispenseId].prescriptionId;
      && pid in s.prescriptions
      && r.0.stock.Keys == s.stock.Keys
      && (forall id :: id in s.stock ==>
            r.0.stock[id].qtyOnHand == s.stock[id].qtyOnHand - Demand(LinesOf(s.dispenseItems, dispenseId), id))
      && r.0.dispenses == s.dispenses[dispenseId := s.dispenses[dispenseId].(status := status)]
      && r.0.dispenseItems == s.dispenseItems
      && r.0.prescriptions == s.prescriptions[pid := s.prescriptions[pid].(status := r.1.value)]
      && (r.1.value == DISPENSED <==> AllMet(s.dispenses, s.dispenseItems, s.prescriptions[pid]))
      && (r.1.value == DISPENSED || r.1.value == PARTIAL)
  {
    if dispenseId !in s.dispenses then (s, Failure(NotFound))
    else
      var d := s.dispenses[dispenseId];
      if d.prescriptionId !in s.prescriptions then (s, Failure(MissingReference))
      else
        var decremented := ApplyDecrements(s.stock, LinesOf(s.dispenseItems, dispenseId));
        if decremented.Failure? then (s, Failure(decremented.error))
        else
          var dispenses := s.dispenses[dispenseId := d.(status := status)];
          var rx := s.prescriptions[d.prescriptionId];
          var finalStatus := FinalStatus(dispenses, s.dispenseItems, rx);
          SameTotalsAfterStatus(s.dispenses, dispenseId, status, s.dispenseItems, rx);
          (Pharmacy(decremented.value, s.prescriptions[d.prescriptionId := rx.(status := finalStatus)],
                    dispenses, s.dispenseItems),
           Success(finalStatus))
  }

  /** Changing a dispense's status does not move any line to another prescription. */
  lemma SameTotalsAfterStatus(dispenses: map<string, Dispense>, id: string, status: DispenseStatus,
                              items: seq<DispenseItem>, rx: Prescription)
    requires id in dispenses
    ensures AllMet(dispenses[id := dispenses[id].(status := status)], items, rx) <==> AllMet(dispenses, items, rx)
  {
    forall itemId: string {
      SameCumulative(dispenses, id, status, items, rx.prescriptionId, itemId);
    }
  }

  lemma {:induction false} SameCumulative(dispenses: map<string, Dispense>, id: string, status: DispenseStatus,
                                          items: seq<DispenseItem>, pid: string, itemId: string)
    requires id in dispenses
    ensures Cumulative(dispenses[id := dispenses[id].(status := status)], items, pid, itemId)
      == Cumulative(dispenses, items, pid, itemId)
  {
    if |items| > 0 {
      SameCumulative(dispenses, id, status, items[1..], pid, itemId);
    }
  }

  // ---------------------------------------------------------------------
  // Properties
  // ---------------------------------------------------------------------

  /** A positive demand comes from some line that touches the batch. */
  lemma {:induction false} DemandHasSource(lines: seq<DispenseItem>, id: string)
    requires Demand(lines, id) != 0
    ensures exists k :: 0 <= k < |lines| && Touches(lines[k]) && lines[k].stockItemId.value == id
  {
    if Touches(lines[0]) && lines[0].stockItemId.value == id {
    } else {
      DemandHasSource(lines[1..], id);
      var k :| 0 <= k < |lines[1..]| && Touches(lines[1..][k]) && lines[1..][k].stockItemId.value == id;
      assert lines[k + 1] == lines[1..][k];
    }
  }

  /** Some batch the lines touch is asked for more than it holds. */
  predicate Overdrawn(stock: map<string, StockItem>, lines: seq<DispenseItem>)
    requires forall k :: 0 <= k < |lines| && Touches(lines[k]) ==> lines[k].stockItemId.value in stock
  {
    exists k :: 0 <= k < |lines| && Touches(lines[k])
      && Demand(lines, lines[k].stockItemId.value) > stock[lines[k].stockItemId.value].qtyOnHand
  }

  /** The stock after the first line of a completion has been taken out. */
  function AfterLine(stock: map<string, StockItem>, line: DispenseItem): (r: map<string, StockItem>)
    ensures r.Keys == stock.Keys
  {
    if Touches(line) && line.stockItemId.value in stock then
      var id := line.stockItemId.value;
      stock[id := stock[id].(qtyOnHand := stock[id].qtyOnHand - line.quantity)]
    else stock
  }

  /** Demand still to come against the reduced stock is demand in all against the original. */
  lemma DemandShift(stock: map<string, StockItem>, lines: seq<DispenseItem>, j: string)
    requires |lines| > 0 && j in stock
    ensures Demand(lines[1..], j) - AfterLine(stock, lines[0])[j].qtyOnHand == Demand(lines, j) - stock[j].qtyOnHand
  {
  }

  /** When the first line fits, the rest is overdrawn against what is left exactly when all lines are overdrawn. */
  lemma {:induction false} OverdrawnShift(stock: map<string, StockItem>, lines: seq<DispenseItem>)
    requires |lines| > 0
    requires forall k :: 0 <= k < |lines| ==> lines[k].quantity >= 0
    requires forall k :: 0 <= k < |lines| && Touches(lines[k]) ==> lines[k].stockItemId.value in stock
    requires Touches(lines[0]) ==> AfterLine(stock, lines[0])[lines[0].stockItemId.value].qtyOnHand >= 0
    ensures forall k :: 0 <= k < |lines[1..]| && Touches(lines[1..][k]) ==>
      lines[1..][k].stockItemId.value in AfterLine(stock, lines[0])
    ensures Overdrawn(stock, lines) <==> Overdrawn(AfterLine(stock, lines[0]), lines[1..])
  {
    var rest := lines[1..];
    var next := AfterLine(stock, lines[0]);
    assert forall k :: 1 <= k < |lines| ==> lines[k] == rest[k - 1];
    if Overdrawn(next, rest) {
      var k :| 0 <= k < |rest| && Touches(rest[k])
        && Demand(rest, rest[k].stockItemId.value) > next[rest[k].stockItemId.value].qtyOnHand;
      DemandShift(stock, lines, rest[k].stockItemId.value);
      assert lines[k + 1] == rest[k];
    }
    if Overdrawn(stock, lines) {
      var k :| 0 <= k < |lines| && Touches(lines[k])
        && Demand(lines, lines[k].stockItemId.value) > stock[lines[k].stockItemId.value].qtyOnHand;
      var j := lines[k].stockItemId.value;
      DemandShift(stock, lines, j);
      if k == 0 {
        // The first line already fit, so the rest asks more than what is left.
        assert Demand(rest, j) > next[j].qtyOnHand >= 0;
        DemandHasSource(rest, j);
        var m :| 0 <= m < |rest| && Touches(rest[m]) && rest[m].stockItemId.value == j;
      } else {
        assert rest[k - 1] == lines[k];
      }
    }
  }

  /**
   * With non-negative line quantities and every batch present, completion
   * aborts with a stock race exactly when some batch is overdrawn in total.
   */
  lemma {:induction false} RaceIffOverdrawn(stock: map<string, StockItem>, lines: seq<DispenseItem>)
    requires forall k :: 0 <= k < |lines| ==> lines[k].quantity >= 0
    requires forall k :: 0 <= k < |lines| && Touches(lines[k]) ==> lines[k].stockItemId.value in stock
    ensures ApplyDecrements(stock, lines).Failure? <==> Overdrawn(stock, lines)
    ensures ApplyDecrements(stock, lines).Failure? ==> ApplyDecrements(stock, lines).error == OutOfStockRace
  {
    if |lines| == 0 {
      return;
    }
    var line := lines[0];
    var rest := lines[1..];
    var next := AfterLine(stock, line);
    if Touches(line) && next[line.stockItemId.value].qtyOnHand < 0 {
      var id := line.stockItemId.value;
      NonNegativeDemand(rest, id);
      assert Demand(lines, id) > stock[id].qtyOnHand;
      return;
    }
    OverdrawnShift(stock, lines);
    assert forall k :: 0 <= k < |rest| ==> rest[k] == lines[k + 1];
    RaceIffOverdrawn(next, rest);
    assert ApplyDecrements(stock, lines) == ApplyDecrements(next, rest);
  }

  /** A completion that goes through leaves every batch it touched non-negative. */
  lemma {:induction false} NoNegativeStock(stock: map<string, StockItem>, lines: seq<DispenseItem>)
    requires ApplyDecrements(stock, lines).Success?
    ensures forall k :: 0 <= k < |lines| && Touches(lines[k]) ==>
      ApplyDecrements(stock, lines).value[lines[k].stockItemId.value].qtyOnHand >= 0
  {
    if |lines| == 0 {
      return;
    }
    var rest := lines[1..];
    var next := AfterLine(stock, lines[0]);
    assert ApplyDecrements(stock, lines) == ApplyDecrements(next, rest);
    NoNegativeStock(next, rest);
    var result := ApplyDecrements(stock, lines).value;
    forall k | 0 <= k < |lines| && Touches(lines[k])
      ensures result[lines[k].stockItemId.value].qtyOnHand >= 0
    {
      if k > 0 {
        assert lines[k] == rest[k - 1];
      } else {
        var id := lines[0].stockItemId.value;
        if Demand(rest, id) != 0 {
          DemandHasSource(rest, id);
        } else {
          assert result[id].qtyOnHand == next[id].qtyOnHand;
        }
      }
    }
  }

  lemma {:induction false} NonNegativeDemand(lines: seq<DispenseItem>, id: string)
    requires forall k :: 0 <= k < |lines| ==> lines[k].quantity >= 0
    ensures Demand(lines, id) >= 0
  {
    if |lines| > 0 {
      NonNegativeDemand(lines[1..], id);
    }
  }

  /** Nothing prevents completing a dispense twice; its lines then come out of stock twice. */
  lemma CompletingTwiceDecrementsTwice(s: Pharmacy, dispenseId: string, first: DispenseStatus, second: DispenseStatus)
    requires CompleteDispense(s, dispenseId, first).1.Success?
    requires CompleteDispense(CompleteDispense(s, dispenseId, first).0, dispenseId, second).1.Success?
    ensures forall id :: id in s.stock ==>
      CompleteDispense(CompleteDispense(s, dispenseId, first).0, dispenseId, second).0.stock[id].qtyOnHand
      == s.stock[id].qtyOnHand - 2 * Demand(LinesOf(s.dispenseItems, dispenseId), id)
  {
  }

  /** A prescription without items is DISPENSED by any successful completion. */
  lemma EmptyPrescriptionIsDispensed(s: Pharmacy, dispenseId: string, status: DispenseStatus)
    requires CompleteDispense(s, dispenseId, status).1.Success?
    requires s.prescriptions[s.dispenses[dispenseId].prescriptionId].items == []
    ensures CompleteDispense(s, dispenseId, status).1 == Success(DISPENSED)
  {
  }

  /** The requested dispense status does not influence the prescription's status. */
  lemma RequestedStatusIrrelevant(s: Pharmacy, dispenseId: string, a: DispenseStatus, b: DispenseStatus)
    ensures CompleteDispense(s, dispenseId, a).1 == CompleteDispense(s, dispenseId, b).1
  {
  }

  /**
   * A prescription of 30 units: completing a 20-unit dispense leaves it
   * PARTIAL; a second, 10-unit dispense makes it DISPENSED.  The lines of a
   * dispense still READY count as well.
   */
  lemma SplitDispenseExample()
    ensures var s := ExamplePharmacy([DispenseItem("D1", "I1", None, "X", 20, None)]);
      CompleteDispense(s, "D1", COMPLETED).1 == Success(PARTIAL)
    ensures var s := ExamplePharmacy([DispenseItem("D1", "I1", None, "X", 20, None),
                                      DispenseItem("D2", "I1", None, "X", 10, None)]);
      CompleteDispense(s, "D2", COMPLETED).1 == Success(DISPENSED)
  {
    var rx := ExampleRx();
    var a := DispenseItem("D1", "I1", None, "X", 20, None);
    var b := DispenseItem("D2", "I1", None, "X", 10, None);
    var one := [a];
    var two := [a, b];
    var s1 := ExamplePharmacy(one);
    var s2 := ExamplePharmacy(two);
    assert one[1..] == [] && two[1..] == [b] && [b][1..] == [];
    assert rx.prescriptionId == "P1" && |rx.items| == 1;
    assert rx.items[0].itemId == "I1" && rx.items[0].quantityPrescribed == 30;
    assert LinesOf(one, "D1") == one;
    assert Cumulative(s1.dispenses, [], "P1", "I1") == 0;
    assert Cumulative(s1.dispenses, one, "P1", "I1") == 20;
    assert !AllMet(s1.dispenses, one, rx);
    assert LinesOf([b], "D2") == [b];
    assert LinesOf(two, "D2") == [b];
    assert Cumulative(s2.dispenses, [b], "P1", "I1") == 10;
    assert Cumulative(s2.dispenses, two, "P1", "I1") == 30;
    assert AllMet(s2.dispenses, two, rx);
  }

  function ExampleRx(): Prescription {
    Prescription("P1", "V1", "Doc", "Pat", None,
                 [RxItem("I1", "X", "1 tab", "PO", "TID", 5, 30, false, true, None)], PENDING)
  }

  /** Two open dispenses of the example prescription with the given lines. */
  function ExamplePharmacy(lines: seq<DispenseItem>): Pharmacy {
    Pharmacy(map[], map["P1" := ExampleRx()],
             map["D1" := Dispense("D1", "P1", "Ph", READY), "D2" := Dispense("D2", "P1", "Ph", READY)],
             lines)
  }
}
