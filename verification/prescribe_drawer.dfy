/**
 * The prescribing drawer (client/src/components/PrescribeDrawer.tsx): a
 * list of draft items that always holds at least one row, a save that
 * refuses incomplete rows, and the request body it sends.  Numeric inputs
 * hold what `Number` made of the typed text; `None` stands for NaN.
 */
module PrescribeDrawer {
  import opened Wrappers
  import opened Strings
  import Pharmacy

  datatype DraftItem = DraftItem(
    drugId: string,
    dose: string,
    route: string,
    frequency: string,
    durationDays: Option<int>,
    quantityPrescribed: Option<int>)

  /** `Partial<DraftItem>`: the fields an input's change handler sets. */
  datatype ItemChanges = ItemChanges(
    drugId: Option<string>,
    dose: Option<string>,
    route: Option<string>,
    frequency: Option<string>,
    durationDays: Option<Option<int>>,
    quantityPrescribed: Option<Option<int>>)

  datatype Drawer = Drawer(items: seq<DraftItem>, notes: string, saving: bool)

  const DefaultItem := DraftItem("", "", "PO", "TID", Some(5), Some(10))

  const InitialDrawer := Drawer([DefaultItem], "", false)

  const IncompleteMessage := "Please complete all required medication details."

  /** A row with some of its fields replaced: each field the changes carry wins, the others stay. */
  function Merge(item: DraftItem, c: ItemChanges): (r: DraftItem)
    ensures c == ItemChanges(None, None, None, None, None, None) ==> r == item
    ensures c.drugId.Some? ==> r.drugId == c.drugId.value
    ensures c.drugId.None? ==> r.drugId == item.drugId
    ensures c.dose.Some? ==> r.dose == c.dose.value
    ensures c.dose.None? ==> r.dose == item.dose
    ensures c.route.Some? ==> r.route == c.route.value
    ensures c.route.None? ==> r.route == item.route
    ensures c.frequency.Some? ==> r.frequency == c.frequency.value
    ensures c.frequency.None? ==> r.frequency == item.frequency
    ensures c.durationDays.Some? ==> r.durationDays == c.durationDays.value
    ensures c.durationDays.None? ==> r.durationDays == item.durationDays
    ensures c.quantityPrescribed.Some? ==> r.quantityPrescribed == c.quantityPrescribed.value
    ensures c.quantityPrescribed.None? ==> r.quantityPrescribed == item.quantityPrescribed
  {
    DraftItem(
      c.drugId.GetOr(item.drugId), c.dose.GetOr(item.dose), c.route.GetOr(item.route),
      c.frequency.GetOr(item.frequency), c.durationDays.GetOr(item.durationDays),
      c.quantityPrescribed.GetOr(item.quantityPrescribed))
  }

  /** `updateItem(index, changes)`: only the row at `index` changes; an index past the end changes nothing. */
  function UpdateItem(items: seq<DraftItem>, index: int, c: ItemChanges): (r: seq<DraftItem>)
    ensures |r| == |items|
    ensures forall i :: 0 <= i < |items| && i != index ==> r[i] == items[i]
    ensures 0 <= index < |items| ==> r[index] == Merge(items[index], c)
  {
    seq(|items|, i requires 0 <= i < |items| => if i == index then Merge(items[i], c) else items[i])
  }

  /** `addItem()`: a fresh default row at the end. */
  function AddItem(items: seq<DraftItem>): (r: seq<DraftItem>)
    ensures |r| == |items| + 1 && r[..|items|] == items && r[|items|] == DefaultItem
  {
    items + [DefaultItem]
  }

  /** The draft with the item at `index` removed. */
  function Without(items: seq<DraftItem>, index: int): (r: seq<DraftItem>)
    ensures 0 <= index < |items| ==> r == items[..index] + items[index + 1..]
    ensures !(0 <= index < |items|) ==> r == items
  {
    if 0 <= index < |items| then items[..index] + items[index + 1..] else items
  }

  /** `removeItem(index)`: the last remaining row is never removed. */
  function RemoveItem(items: seq<DraftItem>, index: int): (r: seq<DraftItem>)
    ensures |items| == 1 ==> r == items
    ensures |items| != 1 ==> r == Without(items, index)
    ensures |items| >= 1 ==> |r| >= 1
  {
    if |items| == 1 then items else Without(items, index)
  }

  /** A row the save refuses: an empty drug id, dose, route or frequency. */
  predicate Incomplete(item: DraftItem) {
    item.drugId == "" || item.dose == "" || item.route == "" || item.frequency == ""
  }

  /** `Number(n) || 1`: NaN and zero become one; any other value is kept, sign included. */
  function CountOrOne(n: Option<int>): (r: int)
    ensures r != 0
    ensures r == 1 <==> n.None? || n == Some(0) || n == Some(1)
    ensures n.Some? && n.value != 0 ==> r == n.value
  {
    if n.None? || n.value == 0 then 1 else n.value
  }

  /** One item of the request body. */
  function PayloadItem(item: DraftItem): (r: Pharmacy.RxItemInput)
    ensures r.drugId == item.drugId && r.dose == item.dose && r.route == item.route && r.frequency == item.frequency
    ensures r.durationDays == CountOrOne(item.durationDays)
    ensures r.quantityPrescribed == CountOrOne(item.quantityPrescribed)
    ensures r.prn.None? && r.allowGeneric.None? && r.notes.None?
  {
    Pharmacy.RxItemInput(item.drugId, item.dose, item.route, item.frequency,
                         CountOrOne(item.durationDays), CountOrOne(item.quantityPrescribed), None, None, None)
  }

  /** The POST sent by a save: its path, the patient and the prescription body. */
  datatype SaveRequest = SaveRequest(path: string, patientId: string, body: Pharmacy.RxInput)

  /** What pressing save does: an alert and nothing else, or a request with the drawer marked saving. */
  datatype SaveStart = Refused(alert: string) | Sending(request: SaveRequest, drawer: Drawer)

  /** `handleSave` up to the request. */
  function BeginSave(d: Drawer, visitId: string, patientId: string): (r: SaveStart)
    ensures r.Refused? <==> exists i :: 0 <= i < |d.items| && Incomplete(d.items[i])
    ensures r.Refused? ==> r.alert == IncompleteMessage
    ensures r.Sending? ==> r.drawer == d.(saving := true)
    ensures r.Sending? ==> r.request.path == "/visits/" + visitId + "/prescriptions"
    ensures r.Sending? ==> r.request.patientId == patientId && r.request.body.notes == Some(d.notes)
    ensures r.Sending? ==> |r.request.body.items| == |d.items|
    ensures r.Sending? ==> forall i :: 0 <= i < |d.items| ==> r.request.body.items[i] == PayloadItem(d.items[i])
    ensures r.Sending? ==> forall i :: 0 <= i < |d.items| ==>
      r.request.body.items[i].drugId != "" && r.request.body.items[i].dose != ""
  {
    if exists i :: 0 <= i < |d.items| && Incomplete(d.items[i]) then Refused(IncompleteMessage)
    else
      var items := seq(|d.items|, i requires 0 <= i < |d.items| => PayloadItem(d.items[i]));
      Sending(SaveRequest("/visits/" + visitId + "/prescriptions", patientId, Pharmacy.RxInput(Some(d.notes), items)), d.(saving := true))
  }

  /** The answer to the POST: the reported allergy hits (absent reads as none), or an error. */
  datatype SaveResponse = Created(allergyHits: Option<seq<string>>) | Failed(error: Option<string>)

  /** The parts joined by a comma and a space. */
  function CommaList(parts: seq<string>): (r: string)
    ensures |parts| == 1 ==> r == parts[0]
    ensures |parts| >= 1 ==> |r| >= |parts[0]|
  {
    if |parts| == 0 then ""
    else if |parts| == 1 then parts[0]
    else parts[0] + ", " + CommaList(parts[1..])
  }

  /** The alert shown once the POST has returned. */
  function SaveAlert(response: SaveResponse): (r: string)
    ensures response.Failed? && response.error.None? ==> r == "Unable to save prescription"
    ensures response.Failed? && response.error.Some? ==> r == response.error.value
    ensures response.Created? && |response.allergyHits.GetOr([])| == 0 ==> r == "Prescription created."
    ensures response.Created? && |response.allergyHits.GetOr([])| > 0 ==>
      r == "Allergy warning: " + CommaList(response.allergyHits.value)
  {
    match response
    case Failed(error) => error.GetOr("Unable to save prescription")
    case Created(hits) =>
      var listed := hits.GetOr([]);
      if |listed| > 0 then "Allergy warning: " + CommaList(listed) else "Prescription created."
  }

  /** The drawer after the POST: cleared on success, kept on failure, never left saving. */
  function FinishSave(d: Drawer, response: SaveResponse): (r: Drawer)
    ensures !r.saving
    ensures response.Created? ==> r == InitialDrawer
    ensures response.Failed? ==> r.items == d.items && r.notes == d.notes
  {
    match response
    case Created(_) => InitialDrawer
    case Failed(_) => d.(saving := false)
  }

  // ---------------------------------------------------------------------
  // Properties
  // ---------------------------------------------------------------------

  /** Every drawer operation keeps at least one row in the list. */
  predicate HasRows(d: Drawer) {
    |d.items| >= 1
  }

  /** The row count invariant holds initially and is kept by every operation. */
  lemma RowsAlwaysPresent(d: Drawer, index: int, c: ItemChanges, visitId: string, patientId: string, response: SaveResponse)
    requires HasRows(d)
    ensures HasRows(InitialDrawer)
    ensures HasRows(d.(items := UpdateItem(d.items, index, c)))
    ensures HasRows(d.(items := AddItem(d.items)))
    ensures HasRows(d.(items := RemoveItem(d.items, index)))
    ensures BeginSave(d, visitId, patientId).Sending? ==> HasRows(BeginSave(d, visitId, patientId).drawer)
    ensures HasRows(FinishSave(d, response))
  {
  }

  /** Adding a row and removing it again leaves the list as it was. */
  lemma {:induction false} AddThenRemoveIsIdentity(items: seq<DraftItem>)
    requires |items| >= 1
    ensures RemoveItem(AddItem(items), |items|) == items
  {
    var added := AddItem(items);
    assert added[..|items|] == items;
    assert added[|items| + 1..] == [];
  }

  /** Setting the same fields twice is the same as setting them once. */
  lemma UpdateIdempotent(items: seq<DraftItem>, index: int, c: ItemChanges)
    ensures UpdateItem(UpdateItem(items, index, c), index, c) == UpdateItem(items, index, c)
  {
  }

  /** A later change to a field overrides an earlier change to it; changes to other rows commute. */
  lemma UpdatesOfDifferentRowsCommute(items: seq<DraftItem>, i: int, j: int, a: ItemChanges, b: ItemChanges)
    requires i != j
    ensures UpdateItem(UpdateItem(items, i, a), j, b) == UpdateItem(UpdateItem(items, j, b), i, a)
  {
  }

  /** Every count the request carries is non-zero, and positive when the form's value was not negative. */
  lemma CountsNeverZero(d: Drawer, visitId: string, patientId: string)
    requires BeginSave(d, visitId, patientId).Sending?
    ensures forall it :: it in BeginSave(d, visitId, patientId).request.body.items ==>
      it.durationDays != 0 && it.quantityPrescribed != 0
    ensures forall i :: (&& 0 <= i < |d.items|
                         && (d.items[i].durationDays.None? || d.items[i].durationDays.value >= 0)) ==>
      BeginSave(d, visitId, patientId).request.body.items[i].durationDays >= 1
  {
  }

  /** The fresh drawer's single row lacks a drug and a dose, so saving it straight away is refused. */
  lemma FreshDrawerIsRefused(visitId: string, patientId: string)
    ensures BeginSave(InitialDrawer, visitId, patientId) == Refused(IncompleteMessage)
  {
    assert Incomplete(InitialDrawer.items[0]);
  }

  /** A complete default row is sent with five days and ten units. */
  lemma DefaultCountsSent(drugId: string, dose: string)
    requires drugId != "" && dose != ""
    ensures var d := Drawer([DefaultItem.(drugId := drugId, dose := dose)], "", false);
      BeginSave(d, "v1", "p1").Sending?
      && BeginSave(d, "v1", "p1").request.body.items
         == [Pharmacy.RxItemInput(drugId, dose, "PO", "TID", 5, 10, None, None, None)]
  {
    var d := Drawer([DefaultItem.(drugId := drugId, dose := dose)], "", false);
    assert !Incomplete(d.items[0]);
  }

  /** Two reported hits are listed comma-separated. */
  lemma AllergyAlertExample()
    ensures SaveAlert(Created(Some(["Penicillin", "Sulfa"]))) == "Allergy warning: Penicillin, Sulfa"
  {
    assert CommaList(["Penicillin", "Sulfa"]) == "Penicillin" + ", " + CommaList(["Sulfa"]);
  }
}
