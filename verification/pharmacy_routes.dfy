/**
 * Request-level rules of the pharmacy routes (src/routes/pharmacy.ts): the
 * queue's status filter, the guard in front of prescription creation, and
 * the body schemas for drug creation and dispense completion.
 */
module PharmacyRoutes {
  import opened Wrappers
  import opened Strings
  import Pharmacy

  // ---------------------------------------------------------------------
  // GET /prescriptions?status=...
  // ---------------------------------------------------------------------

  /** The `PrescriptionStatus` enumeration's values. */
  function StatusName(st: Pharmacy.RxStatus): string {
    match st
    case PENDING => "PENDING"
    case PARTIAL => "PARTIAL"
    case DISPENSED => "DISPENSED"
  }

  /** One comma-separated token: trimmed, upper-cased, kept if it names a status. */
  function ParseStatusToken(token: string): (r: Option<Pharmacy.RxStatus>)
    ensures r.Some? ==> StatusName(r.value) == ToUpper(Trim(token))
    ensures r.None? ==> forall st: Pharmacy.RxStatus :: StatusName(st) != ToUpper(Trim(token))
  {
    var normalized := ToUpper(Trim(token));
    if normalized == "PENDING" then Some(Pharmacy.PENDING)
    else if normalized == "PARTIAL" then Some(Pharmacy.PARTIAL)
    else if normalized == "DISPENSED" then Some(Pharmacy.DISPENSED)
    else None
  }

  /** The `reduce` over the status tokens: the recognised statuses, in input order. */
  function KeepStatuses(tokens: seq<string>): (r: seq<Pharmacy.RxStatus>)
    ensures |r| <= |tokens|
  {
    Recognised(tokens, ParseStatusToken)
  }

  /** A status is kept exactly when some token names it. */
  lemma KeptStatuses(tokens: seq<string>, st: Pharmacy.RxStatus)
    ensures st in KeepStatuses(tokens) <==> exists i :: 0 <= i < |tokens| && ParseStatusToken(tokens[i]) == Some(st)
  {
    RecognisedMembers(tokens, ParseStatusToken, st);
  }

  /**
   * The statuses the queue is filtered by.  `raw` is the `status` query
   * parameter when it is a single string; otherwise it is `None`.
   */
  function NormalizeStatusFilter(raw: Option<string>): (r: seq<Pharmacy.RxStatus>)
    ensures |r| >= 1
    ensures raw.None? ==> r == [Pharmacy.PENDING]
    ensures raw.Some? && KeepStatuses(Split(raw.value, ',')) != [] ==> r == KeepStatuses(Split(raw.value, ','))
    ensures raw.Some? && KeepStatuses(Split(raw.value, ',')) == [] ==> r == [Pharmacy.PENDING]
  {
    var tokens := if raw.Some? then Split(raw.value, ',') else ["PENDING"];
    StatusNameReadsBack(Pharmacy.PENDING);
    assert raw.None? ==> KeepStatuses(tokens) == [Pharmacy.PENDING] by {
      if raw.None? {
        assert tokens[1..] == [];
      }
    }
    var kept := KeepStatuses(tokens);
    if |kept| > 0 then kept else [Pharmacy.PENDING]
  }

  lemma StatusNameReadsBack(st: Pharmacy.RxStatus)
    ensures ParseStatusToken(StatusName(st)) == Some(st)
  {
    CapitalsFixed(StatusName(st));
  }

  function StatusNames(sts: seq<Pharmacy.RxStatus>): (r: seq<string>)
    ensures |r| == |sts|
    ensures forall i :: 0 <= i < |sts| ==> r[i] == StatusName(sts[i])
  {
    seq(|sts|, i requires 0 <= i < |sts| => StatusName(sts[i]))
  }

  lemma {:induction false} KeepNames(sts: seq<Pharmacy.RxStatus>)
    ensures KeepStatuses(StatusNames(sts)) == sts
  {
    if |sts| > 0 {
      KeepNames(sts[1..]);
      assert StatusNames(sts)[1..] == StatusNames(sts[1..]);
      StatusNameReadsBack(sts[0]);
    }
  }

  /** A non-empty list of statuses, written comma-separated, is read back as it was. */
  lemma StatusFilterRoundTrip(sts: seq<Pharmacy.RxStatus>)
    requires |sts| >= 1
    ensures NormalizeStatusFilter(Some(Join(StatusNames(sts), ','))) == sts
  {
    var names := StatusNames(sts);
    forall i | 0 <= i < |names|
      ensures ',' !in names[i]
    {
      assert names[i] == StatusName(sts[i]);
    }
    SplitJoin(names, ',');
    KeepNames(sts);
  }

  // ---------------------------------------------------------------------
  // POST /visits/:visitId/prescriptions
  // ---------------------------------------------------------------------

  datatype Visit = Visit(visitId: string, patientId: string, doctorId: string)

  /** A JSON error response: its status and its `error` text. */
  datatype RouteError = RouteError(status: int, error: string)

  /** Who a new prescription is attributed to. */
  datatype Attribution = Attribution(visitId: string, doctorId: string, patientId: string)

  /**
   * The guard before `createPrescription`: the visit must exist, and a
   * caller who is a doctor must be the visit's doctor.  The prescription is
   * written by the visit's doctor, for the payload's patient or else the
   * visit's.
   */
  function PrescriptionGuard(visits: map<string, Visit>, visitId: string, callerDoctorId: Option<string>,
                             payloadPatientId: Option<string>): (r: Result<Attribution, RouteError>)
    ensures visitId !in visits ==> r == Failure(RouteError(404, "Visit not found"))
    ensures (&& visitId in visits && callerDoctorId.Some? && callerDoctorId.value != ""
             && callerDoctorId.value != visits[visitId].doctorId) ==>
      r == Failure(RouteError(403, "Forbidden"))
    ensures r.Success? <==>
      (&& visitId in visits
       && (callerDoctorId.None? || callerDoctorId.value == "" || callerDoctorId.value == visits[visitId].doctorId))
    ensures r.Success? ==> r.value.doctorId == visits[visitId].doctorId && r.value.visitId == visitId
    ensures r.Success? && payloadPatientId.Some? ==> r.value.patientId == payloadPatientId.value
    ensures r.Success? && payloadPatientId.None? ==> r.value.patientId == visits[visitId].patientId
  {
    if visitId !in visits then Failure(RouteError(404, "Visit not found"))
    else
      var visit := visits[visitId];
      if callerDoctorId.Some? && callerDoctorId.value != "" && callerDoctorId.value != visit.doctorId then
        Failure(RouteError(403, "Forbidden"))
      else Success(Attribution(visitId, visit.doctorId, payloadPatientId.GetOr(visit.patientId)))
  }

  // ---------------------------------------------------------------------
  // Body schemas
  // ---------------------------------------------------------------------

  /** `CompleteDispenseSchema`: only COMPLETED or PARTIAL. */
  function ParseCompletionStatus(s: string): (r: Option<Pharmacy.DispenseStatus>)
    ensures r.Some? <==> s == "COMPLETED" || s == "PARTIAL"
    ensures r.Some? ==> r.value != Pharmacy.READY
  {
    if s == "COMPLETED" then Some(Pharmacy.COMPLETED)
    else if s == "PARTIAL" then Some(Pharmacy.DispensePartial)
    else None
  }

  /** The body of `POST /drugs`. */
  datatype DrugBody = DrugBody(
    drugId: Option<string>,
    name: string,
    genericName: Option<string>,
    form: string,
    strength: string,
    routeDefault: Option<string>,
    isActive: Option<bool>)

  predicate IsHexDigit(c: char) {
    ('0' <= c <= '9') || ('a' <= c <= 'f') || ('A' <= c <= 'F')
  }

  /** The 8-4-4-4-12 hexadecimal shape a `uuid()` string has. */
  predicate IsUuid(s: string) {
    && |s| == 36
    && s[8] == '-' && s[13] == '-' && s[18] == '-' && s[23] == '-'
    && forall i :: 0 <= i < 36 && i != 8 && i != 13 && i != 18 && i != 23 ==> IsHexDigit(s[i])
  }

  /** `CreateDrugSchema`: non-empty name, form and strength (untrimmed), and an optional UUID id. */
  predicate ValidDrugBody(b: DrugBody) {
    && |b.name| >= 1 && |b.form| >= 1 && |b.strength| >= 1
    && (b.drugId.Some? ==> IsUuid(b.drugId.value))
  }

  /** The schema checks length only: a name of one space is accepted. */
  lemma BlankNameAccepted()
    ensures ValidDrugBody(DrugBody(None, " ", None, "tab", "5 mg", None, None))
  {
  }
}
