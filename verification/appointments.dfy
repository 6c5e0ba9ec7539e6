/**
 * The appointment admission gate (src/services/appointmentService.ts).
 *
 * A booking request names a patient, a doctor, a calendar date and a
 * `[start, end]` range of minutes after that date's UTC midnight.  It is
 * admitted only if both people exist, the range lies inside one of the
 * doctor's weekly availability windows for the date's weekday, no blackout
 * of the doctor overlaps it, and no live appointment of the doctor on that
 * date overlaps it.  The database is an immutable `Store`.
 */
module Appointments {
  import opened Wrappers
  import opened Strings
  import opened Time
  import opened HttpErrors

  /** A weekly availability row of a doctor (`DoctorAvailability`). */
  datatype AvailabilityRow = AvailabilityRow(doctorId: string, dayOfWeek: int, startMin: int, endMin: int)

  /** `AvailabilityWindow`: the selected columns of an availability row. */
  datatype Span = Span(startMin: int, endMin: int)

  /** A period, in absolute milliseconds, during which a doctor takes no bookings. */
  datatype Blackout = Blackout(blackoutId: string, doctorId: string, startAt: int, endAt: int)

  /** A stored appointment; `date` is the instant of a UTC midnight. */
  datatype Appointment = Appointment(
    appointmentId: string,
    patientId: string,
    doctorId: string,
    date: int,
    startTimeMin: int,
    endTimeMin: int,
    status: string)

  datatype Store = Store(
    patients: set<string>,
    doctors: set<string>,
    availability: seq<AvailabilityRow>,
    blackouts: seq<Blackout>,
    appointments: seq<Appointment>)

  /** `CreateAppointmentInput` as far as the gate reads it. */
  datatype CreateRequest = CreateRequest(
    patientId: string,
    doctorId: string,
    date: string,
    startTimeMin: int,
    endTimeMin: int)

  /** `UpdateAppointmentInput`: every field may be omitted. */
  datatype UpdateRequest = UpdateRequest(
    patientId: Option<string>,
    doctorId: Option<string>,
    date: Option<string>,
    startTimeMin: Option<int>,
    endTimeMin: Option<int>)

  const OutsideAvailability := "Requested time is outside doctor availability"
  const BlackedOut := "Doctor is unavailable due to blackout"
  const Overlapping := "Appointment overlaps with an existing appointment"

  // ---------------------------------------------------------------------
  // findFirst
  // ---------------------------------------------------------------------

  /** The position of the first element satisfying `p`, as `findFirst` returns a record. */
  function FindFirst<T>(s: seq<T>, p: T -> bool): (r: Option<nat>)
    ensures r.Some? ==> r.value < |s| && p(s[r.value])
    ensures r.Some? ==> forall i :: 0 <= i < r.value ==> !p(s[i])
    ensures r.None? <==> forall i :: 0 <= i < |s| ==> !p(s[i])
  {
    if |s| == 0 then None
    else if p(s[0]) then Some(0)
    else
      var rest := FindFirst(s[1..], p);
      if rest.None? then None
      else
        assert forall i :: 1 <= i < |s| ==> s[i] == s[1..][i - 1];
        Some(rest.value + 1)
  }

  // ---------------------------------------------------------------------
  // Availability
  // ---------------------------------------------------------------------

  predicate SortedByStart(s: seq<Span>) {
    forall i, j :: 0 <= i < j < |s| ==> s[i].startMin <= s[j].startMin
  }

  /** The windows of `doctorId` for weekday `dow`, in storage order. */
  function MatchingWindows(rows: seq<AvailabilityRow>, doctorId: string, dow: int): (r: seq<Span>)
    ensures forall w :: w in r <==>
      exists i :: 0 <= i < |rows| && rows[i].doctorId == doctorId && rows[i].dayOfWeek == dow
        && w == Span(rows[i].startMin, rows[i].endMin)
  {
    if |rows| == 0 then []
    else
      var rest := MatchingWindows(rows[1..], doctorId, dow);
      assert forall i :: 1 <= i < |rows| ==> rows[i] == rows[1..][i - 1];
      var row := rows[0];
      if row.doctorId == doctorId && row.dayOfWeek == dow
      then [Span(row.startMin, row.endMin)] + rest
      else rest
  }

  function InsertByStart(w: Span, s: seq<Span>): (r: seq<Span>)
    requires SortedByStart(s)
    ensures SortedByStart(r)
    ensures multiset(r) == multiset(s) + multiset{w}
  {
    if |s| == 0 then [w]
    else if w.startMin <= s[0].startMin then [w] + s
    else
      var rest := InsertByStart(w, s[1..]);
      assert s == [s[0]] + s[1..];
      HeadBelowInsert(s[0], w, s[1..], rest);
      [s[0]] + rest
  }

  /** A head no later than every element of a sorted tail keeps the whole sorted. */
  lemma HeadBelowInsert(h: Span, w: Span, tail: seq<Span>, rest: seq<Span>)
    requires h.startMin <= w.startMin
    requires forall x :: x in tail ==> h.startMin <= x.startMin
    requires SortedByStart(rest)
    requires multiset(rest) == multiset(tail) + multiset{w}
    ensures SortedByStart([h] + rest)
  {
    forall k | 0 <= k < |rest|
      ensures h.startMin <= rest[k].startMin
    {
      assert rest[k] in multiset(rest);
      assert rest[k] in tail || rest[k] == w;
    }
    var r := [h] + rest;
    forall i, j | 0 <= i < j < |r|
      ensures r[i].startMin <= r[j].startMin
    {
      if i > 0 {
        assert r[i] == rest[i - 1] && r[j] == rest[j - 1];
      } else {
        assert r[j] == rest[j - 1];
      }
    }
  }

  /** `orderBy: { startMin: 'asc' }` */
  function SortByStart(s: seq<Span>): (r: seq<Span>)
    ensures SortedByStart(r)
    ensures multiset(r) == multiset(s)
  {
    if |s| == 0 then []
    else
      assert s == [s[0]] + s[1..];
      InsertByStart(s[0], SortByStart(s[1..]))
  }

  /**
   * `getDoctorAvailabilityForDate`: the doctor's windows for the UTC
   * weekday of `date`, in ascending `startMin` order.
   */
  function GetDoctorAvailabilityForDate(store: Store, doctorId: string, date: int): (r: seq<Span>)
    ensures SortedByStart(r)
    ensures multiset(r) == multiset(MatchingWindows(store.availability, doctorId, DayOfWeekUTC(date)))
  {
    SortByStart(MatchingWindows(store.availability, doctorId, DayOfWeekUTC(date)))
  }

  /** Closed containment of `[start, end]` in a window. */
  predicate WindowContains(w: Span, start: int, end: int) {
    w.startMin <= start && end <= w.endMin
  }

  /** `windows.some(...)` */
  predicate Fits(windows: seq<Span>, start: int, end: int) {
    exists i | 0 <= i < |windows| :: WindowContains(windows[i], start, end)
  }

  /** Whether a range fits does not depend on the order the windows come in. */
  lemma FitsIgnoresOrder(a: seq<Span>, b: seq<Span>, start: int, end: int)
    requires multiset(a) == multiset(b)
    ensures Fits(a, start, end) <==> Fits(b, start, end)
  {
    if Fits(a, start, end) {
      var i :| 0 <= i < |a| && WindowContains(a[i], start, end);
      assert a[i] in multiset(b);
      var j :| 0 <= j < |b| && b[j] == a[i];
    }
    if Fits(b, start, end) {
      var i :| 0 <= i < |b| && WindowContains(b[i], start, end);
      assert b[i] in multiset(a);
      var j :| 0 <= j < |a| && a[j] == b[i];
    }
  }

  /**
   * The availability test in the doctor's own terms: some availability row
   * of this doctor for the date's weekday contains the range.
   */
  lemma FitsAvailabilityMeans(store: Store, doctorId: string, date: int, start: int, end: int)
    ensures Fits(GetDoctorAvailabilityForDate(store, doctorId, date), start, end) <==>
      exists i :: 0 <= i < |store.availability|
        && store.availability[i].doctorId == doctorId
        && store.availability[i].dayOfWeek == DayOfWeekUTC(date)
        && store.availability[i].startMin <= start && end <= store.availability[i].endMin
  {
    var m := MatchingWindows(store.availability, doctorId, DayOfWeekUTC(date));
    var rows := store.availability;
    FitsIgnoresOrder(GetDoctorAvailabilityForDate(store, doctorId, date), m, start, end);
    if Fits(m, start, end) {
      var k :| 0 <= k < |m| && WindowContains(m[k], start, end);
      assert m[k] in m;
    }
    if exists i :: 0 <= i < |rows| && rows[i].doctorId == doctorId && rows[i].dayOfWeek == DayOfWeekUTC(date)
        && rows[i].startMin <= start && end <= rows[i].endMin {
      var i :| 0 <= i < |rows| && rows[i].doctorId == doctorId && rows[i].dayOfWeek == DayOfWeekUTC(date)
        && rows[i].startMin <= start && end <= rows[i].endMin;
      var w := Span(rows[i].startMin, rows[i].endMin);
      assert w in m;
      var k :| 0 <= k < |m| && m[k] == w;
      assert WindowContains(m[k], start, end);
    }
  }

  // ---------------------------------------------------------------------
  // Blackouts and overlaps
  // ---------------------------------------------------------------------

  /** Half-open overlap of `[s1, e1)` and `[s2, e2)`. */
  predicate Overlaps(s1: int, e1: int, s2: int, e2: int) {
    s1 < e2 && e1 > s2
  }

  /** A blackout of the doctor whose instants overlap the requested range on `date`. */
  predicate BlackoutBlocks(b: Blackout, doctorId: string, date: int, start: int, end: int) {
    b.doctorId == doctorId
    && Overlaps(b.startAt, b.endAt, ComposeDateTime(date, start), ComposeDateTime(date, end))
  }

  /** `hasDoctorBlackout` */
  function HasDoctorBlackout(store: Store, doctorId: string, date: int, start: int, end: int): (r: bool)
    ensures r <==> exists i :: 0 <= i < |store.blackouts| && BlackoutBlocks(store.blackouts[i], doctorId, date, start, end)
  {
    FindFirst(store.blackouts, (b: Blackout) => BlackoutBlocks(b, doctorId, date, start, end)).Some?
  }

  /** `...(excludeId ? { appointmentId: { not: excludeId } } : {})`: only a non-empty id excludes. */
  predicate Excluded(a: Appointment, excludeId: Option<string>) {
    excludeId.Some? && excludeId.value != "" && a.appointmentId == excludeId.value
  }

  /** A stored appointment that the overlap query finds. */
  predicate Conflicts(a: Appointment, doctorId: string, date: int, start: int, end: int, excludeId: Option<string>) {
    && a.doctorId == doctorId
    && a.date == date
    && a.status != "Cancelled"
    && Overlaps(a.startTimeMin, a.endTimeMin, start, end)
    && !Excluded(a, excludeId)
  }

  /** `hasDoctorOverlap` */
  function HasDoctorOverlap(apps: seq<Appointment>, doctorId: string, date: int, start: int, end: int, excludeId: Option<string>): (r: bool)
    ensures r <==> exists i :: 0 <= i < |apps| && Conflicts(apps[i], doctorId, date, start, end, excludeId)
  {
    FindFirst(apps, (a: Appointment) => Conflicts(a, doctorId, date, start, end, excludeId)).Some?
  }

  // ---------------------------------------------------------------------
  // The gate
  // ---------------------------------------------------------------------

  /**
   * `Promise.all([ensurePatientExists, ensureDoctorExists])`.  When both are
   * missing, whichever lookup settles first decides the error; the model
   * takes that order as the oracle `patientFirst`.
   */
  function EnsureParticipants(store: Store, patientId: string, doctorId: string, patientFirst: bool): (r: Outcome<HttpError>)
    ensures r.Pass? <==> patientId in store.patients && doctorId in store.doctors
    ensures r.Fail? ==> r.error.kind == NotFound && r.error.status == Some(404)
    ensures patientId !in store.patients && (patientFirst || doctorId in store.doctors) ==>
      r == Fail(NotFoundError("Patient not found"))
    ensures doctorId !in store.doctors && (!patientFirst || patientId in store.patients) ==>
      r == Fail(NotFoundError("Doctor not found"))
  {
    var patientMissing := patientId !in store.patients;
    var doctorMissing := doctorId !in store.doctors;
    if patientMissing && (patientFirst || !doctorMissing) then Fail(NotFoundError("Patient not found"))
    else if doctorMissing then Fail(NotFoundError("Doctor not found"))
    else Pass
  }

  /** The shared pipeline of `assertCreatable` and `assertUpdatable`. */
  function Admit(store: Store, patientId: string, doctorId: string, date: int, start: int, end: int,
                 excludeId: Option<string>, patientFirst: bool): (r: Outcome<HttpError>)
    ensures r.Pass? <==>
      && patientId in store.patients && doctorId in store.doctors
      && Fits(GetDoctorAvailabilityForDate(store, doctorId, date), start, end)
      && !HasDoctorBlackout(store, doctorId, date, start, end)
      && !HasDoctorOverlap(store.appointments, doctorId, date, start, end, excludeId)
    ensures patientId !in store.patients || doctorId !in store.doctors ==>
      r == EnsureParticipants(store, patientId, doctorId, patientFirst)
    ensures (&& patientId in store.patients && doctorId in store.doctors
             && !Fits(GetDoctorAvailabilityForDate(store, doctorId, date), start, end)) ==>
      r == Fail(NewUnprocessable(OutsideAvailability))
    ensures (&& patientId in store.patients && doctorId in store.doctors
             && Fits(GetDoctorAvailabilityForDate(store, doctorId, date), start, end)
             && HasDoctorBlackout(store, doctorId, date, start, end)) ==>
      r == Fail(NewUnprocessable(BlackedOut))
    ensures (&& patientId in store.patients && doctorId in store.doctors
             && Fits(GetDoctorAvailabilityForDate(store, doctorId, date), start, end)
             && !HasDoctorBlackout(store, doctorId, date, start, end)
             && HasDoctorOverlap(store.appointments, doctorId, date, start, end, excludeId)) ==>
      r == Fail(ConflictError(Overlapping))
  {
    var participants := EnsureParticipants(store, patientId, doctorId, patientFirst);
    if participants.Fail? then participants
    else if !Fits(GetDoctorAvailabilityForDate(store, doctorId, date), start, end) then
      Fail(NewUnprocessable(OutsideAvailability))
    else if HasDoctorBlackout(store, doctorId, date, start, end) then
      Fail(NewUnprocessable(BlackedOut))
    else if HasDoctorOverlap(store.appointments, doctorId, date, start, end, excludeId) then
      Fail(ConflictError(Overlapping))
    else Pass
  }

  /**
   * Why the gate refuses a request: an `HttpError` it throws, or the failed
   * availability query of an Invalid Date.  The weekday of an Invalid Date
   * is NaN; the model takes the database query on that weekday as failing,
   * and the error handler answers a failure that is no `HttpError` with 500
   * (src/middleware/errorHandler.ts).
   */
  datatype Refusal = Refused(error: HttpError) | InvalidDateQuery

  /**
   * The checks of `assertCreatable` and `assertUpdatable` once the date is
   * parsed: `Admit` for a date; for an Invalid Date the participant lookups
   * still run first, and then the availability query fails.
   */
  function AdmitOn(store: Store, patientId: string, doctorId: string, date: Option<int>, start: int, end: int,
                   excludeId: Option<string>, patientFirst: bool): (r: Outcome<Refusal>)
    ensures date.Some? ==> (r.Pass? <==> Admit(store, patientId, doctorId, date.value, start, end, excludeId, patientFirst).Pass?)
    ensures date.Some? && r.Fail? ==>
      r.error == Refused(Admit(store, patientId, doctorId, date.value, start, end, excludeId, patientFirst).error)
    ensures patientId !in store.patients || doctorId !in store.doctors ==>
      r == Fail(Refused(EnsureParticipants(store, patientId, doctorId, patientFirst).error))
    ensures date.None? && patientId in store.patients && doctorId in store.doctors ==> r == Fail(InvalidDateQuery)
  {
    if date.Some? then
      var a := Admit(store, patientId, doctorId, date.value, start, end, excludeId, patientFirst);
      if a.Pass? then Pass else Fail(Refused(a.error))
    else
      var participants := EnsureParticipants(store, patientId, doctorId, patientFirst);
      if participants.Fail? then Fail(Refused(participants.error)) else Fail(InvalidDateQuery)
  }

  /** `assertCreatable` */
  function AssertCreatable(store: Store, dto: CreateRequest, patientFirst: bool): (r: Outcome<Refusal>)
    ensures r.Pass? <==>
      && ToDateOnly(dto.date).Some?
      && dto.patientId in store.patients && dto.doctorId in store.doctors
      && Fits(GetDoctorAvailabilityForDate(store, dto.doctorId, ToDateOnly(dto.date).value), dto.startTimeMin, dto.endTimeMin)
      && !HasDoctorBlackout(store, dto.doctorId, ToDateOnly(dto.date).value, dto.startTimeMin, dto.endTimeMin)
      && !HasDoctorOverlap(store.appointments, dto.doctorId, ToDateOnly(dto.date).value, dto.startTimeMin, dto.endTimeMin, None)
    ensures dto.patientId !in store.patients || dto.doctorId !in store.doctors ==>
      r == Fail(Refused(EnsureParticipants(store, dto.patientId, dto.doctorId, patientFirst).error))
    ensures ToDateOnly(dto.date).None? && dto.patientId in store.patients && dto.doctorId in store.doctors ==>
      r == Fail(InvalidDateQuery)
  {
    AdmitOn(store, dto.patientId, dto.doctorId, ToDateOnly(dto.date), dto.startTimeMin, dto.endTimeMin, None, patientFirst)
  }

  /** `findUnique({ where: { appointmentId } })` */
  function FindAppointment(apps: seq<Appointment>, appointmentId: string): (r: Option<Appointment>)
    ensures r.Some? ==> r.value in apps && r.value.appointmentId == appointmentId
    ensures r.None? <==> forall i :: 0 <= i < |apps| ==> apps[i].appointmentId != appointmentId
  {
    var k := FindFirst(apps, (a: Appointment) => a.appointmentId == appointmentId);
    if k.Some? then Some(apps[k.value]) else None
  }

  /** A date field the update may carry: JavaScript treats a missing or empty one as absent. */
  predicate DateGiven(date: Option<string>) {
    date.Some? && date.value != ""
  }

  /**
   * The date an update validates against: the new one, parsed, or the
   * stored one printed by `toISOString`, cut to ten characters and parsed
   * again.  For a stored year in 0..9999 that is the UTC day of the stored
   * instant; for any other year the cut keeps only the year and month.
   */
  function UpdatedDate(stored: int, date: Option<string>): (r: Option<int>)
    ensures DateGiven(date) ==> r == ToDateOnly(date.value)
    ensures !DateGiven(date) ==> r == ReadBackUtcDay(stored)
    ensures !DateGiven(date) && 0 <= UtcYear(stored) <= 9999 ==>
      r.Some? && r.value % MsPerDay == 0 && r.value <= stored < r.value + MsPerDay
    ensures !DateGiven(date) && IsTimeValue(stored) && !(0 <= UtcYear(stored) <= 9999) ==>
      r.None? || (r.value == DaysFromCivil(UtcYear(stored), UtcMonth(stored), 1) * MsPerDay && r.value <= stored)
  {
    if DateGiven(date) then ToDateOnly(date.value) else ReadBackUtcDay(stored)
  }

  /** `assertUpdatable`: the stored appointment, with the update's fields laid over it, re-validated. */
  function AssertUpdatable(store: Store, appointmentId: string, dto: UpdateRequest, patientFirst: bool): (r: Outcome<Refusal>)
    ensures FindAppointment(store.appointments, appointmentId).None? ==>
      r == Fail(Refused(NotFoundError("Appointment not found")))
    ensures FindAppointment(store.appointments, appointmentId).Some? ==>
      r == AdmitOn(store,
                   dto.patientId.GetOr(FindAppointment(store.appointments, appointmentId).value.patientId),
                   dto.doctorId.GetOr(FindAppointment(store.appointments, appointmentId).value.doctorId),
                   UpdatedDate(FindAppointment(store.appointments, appointmentId).value.date, dto.date),
                   dto.startTimeMin.GetOr(FindAppointment(store.appointments, appointmentId).value.startTimeMin),
                   dto.endTimeMin.GetOr(FindAppointment(store.appointments, appointmentId).value.endTimeMin),
                   Some(appointmentId), patientFirst)
  {
    var found := FindAppointment(store.appointments, appointmentId);
    if found.None? then Fail(Refused(NotFoundError("Appointment not found")))
    else
      var a := found.value;
      AdmitOn(store, dto.patientId.GetOr(a.patientId), dto.doctorId.GetOr(a.doctorId),
              UpdatedDate(a.date, dto.date),
              dto.startTimeMin.GetOr(a.startTimeMin), dto.endTimeMin.GetOr(a.endTimeMin),
              Some(appointmentId), patientFirst)
  }

  // ---------------------------------------------------------------------
  // Properties
  // ---------------------------------------------------------------------

  /** Back-to-back ranges never overlap. */
  lemma AdjacentNeverOverlap(s1: int, e1: int, s2: int, e2: int)
    requires e1 == s2 || e2 == s1
    ensures !Overlaps(s1, e1, s2, e2)
  {
  }

  /** On one date, the minute test and the instant test agree. */
  lemma MinuteOverlapIsInstantOverlap(date: int, s1: int, e1: int, s2: int, e2: int)
    ensures Overlaps(s1, e1, s2, e2) <==>
      Overlaps(ComposeDateTime(date, s1), ComposeDateTime(date, e1), ComposeDateTime(date, s2), ComposeDateTime(date, e2))
  {
    ComposeMonotone(date, s1, e2);
    ComposeMonotone(date, s2, e1);
  }

  /** Cancelled appointments and other doctors' or dates' appointments never conflict. */
  lemma IgnoredAppointments(a: Appointment, doctorId: string, date: int, start: int, end: int, excludeId: Option<string>)
    requires a.status == "Cancelled" || a.doctorId != doctorId || a.date != date || Excluded(a, excludeId)
    ensures !Conflicts(a, doctorId, date, start, end, excludeId)
  {
  }

  /** The appointments left once every record with id `x` is dropped. */
  function WithoutId(apps: seq<Appointment>, x: string): (r: seq<Appointment>)
    ensures forall a :: a in r <==> a in apps && a.appointmentId != x
  {
    if |apps| == 0 then []
    else if apps[0].appointmentId == x then WithoutId(apps[1..], x)
    else [apps[0]] + WithoutId(apps[1..], x)
  }

  /** Excluding a non-empty id is the same as checking against the other records only. */
  lemma {:induction false} ExcludeIsRemove(apps: seq<Appointment>, doctorId: string, date: int, start: int, end: int, x: string)
    requires x != ""
    ensures HasDoctorOverlap(apps, doctorId, date, start, end, Some(x)) ==
      HasDoctorOverlap(WithoutId(apps, x), doctorId, date, start, end, None)
  {
    var other := WithoutId(apps, x);
    if HasDoctorOverlap(apps, doctorId, date, start, end, Some(x)) {
      var i :| 0 <= i < |apps| && Conflicts(apps[i], doctorId, date, start, end, Some(x));
      ExcludedIsOther(apps[i], doctorId, date, start, end, x);
      assert apps[i] in other;
      var j :| 0 <= j < |other| && other[j] == apps[i];
    }
    if HasDoctorOverlap(other, doctorId, date, start, end, None) {
      var j :| 0 <= j < |other| && Conflicts(other[j], doctorId, date, start, end, None);
      ExcludedIsOther(other[j], doctorId, date, start, end, x);
      assert other[j] in apps;
      var i :| 0 <= i < |apps| && apps[i] == other[j];
    }
  }

  /** Excluding a non-empty id rules out exactly the records that carry it. */
  lemma ExcludedIsOther(a: Appointment, doctorId: string, date: int, start: int, end: int, x: string)
    requires x != ""
    ensures Conflicts(a, doctorId, date, start, end, Some(x)) <==>
      a.appointmentId != x && Conflicts(a, doctorId, date, start, end, None)
  {
  }

  /** An empty update: every field omitted. */
  const NoChanges := UpdateRequest(None, None, None, None, None)

  /**
   * Re-validating an unchanged appointment judges it exactly as booking it
   * afresh into a store without it would: it never conflicts with itself.
   */
  lemma UnchangedRescheduleNeverSelfConflicts(store: Store, a: Appointment, patientFirst: bool)
    requires a in store.appointments && a.appointmentId != ""
    requires forall b :: b in store.appointments && b.appointmentId == a.appointmentId ==> b == a
    ensures AssertUpdatable(store, a.appointmentId, NoChanges, patientFirst) ==
      AdmitOn(store.(appointments := WithoutId(store.appointments, a.appointmentId)),
              a.patientId, a.doctorId, ReadBackUtcDay(a.date), a.startTimeMin, a.endTimeMin, None, patientFirst)
    ensures a.date % MsPerDay == 0 && 0 <= UtcYear(a.date) <= 9999 ==> ReadBackUtcDay(a.date) == Some(a.date)
  {
    var found := FindAppointment(store.appointments, a.appointmentId);
    assert found.Some? by {
      var i :| 0 <= i < |store.appointments| && store.appointments[i] == a;
    }
    assert found.value == a;
    var date := ReadBackUtcDay(a.date);
    assert AssertUpdatable(store, a.appointmentId, NoChanges, patientFirst) ==
      AdmitOn(store, a.patientId, a.doctorId, date, a.startTimeMin, a.endTimeMin, Some(a.appointmentId), patientFirst);
    ExcludeOnAnyDate(store, a, date, patientFirst);
    if a.date % MsPerDay == 0 && 0 <= UtcYear(a.date) <= 9999 {
      assert TruncateToUtcDay(a.date) == a.date;
    }
  }

  /** On any date, or none, excluding a record's id judges a booking as removing the record does. */
  lemma ExcludeOnAnyDate(store: Store, a: Appointment, date: Option<int>, patientFirst: bool)
    requires a.appointmentId != ""
    ensures AdmitOn(store, a.patientId, a.doctorId, date, a.startTimeMin, a.endTimeMin, Some(a.appointmentId), patientFirst) ==
      AdmitOn(store.(appointments := WithoutId(store.appointments, a.appointmentId)),
              a.patientId, a.doctorId, date, a.startTimeMin, a.endTimeMin, None, patientFirst)
  {
    if date.Some? {
      ExcludeIsRemove(store.appointments, a.doctorId, date.value, a.startTimeMin, a.endTimeMin, a.appointmentId);
    }
  }

  /** No two live appointments of one doctor on one date overlap. */
  predicate NoDoubleBooking(apps: seq<Appointment>) {
    forall i, j ::
      (&& 0 <= i < |apps| && 0 <= j < |apps| && i != j
       && apps[i].status != "Cancelled" && apps[j].status != "Cancelled"
       && apps[i].doctorId == apps[j].doctorId && apps[i].date == apps[j].date) ==>
      !Overlaps(apps[i].startTimeMin, apps[i].endTimeMin, apps[j].startTimeMin, apps[j].endTimeMin)
  }

  /**
   * Within one request, a booking the gate admits keeps the schedule free
   * of double bookings once it is stored.
   */
  lemma AdmittedBookingKeepsScheduleConsistent(store: Store, n: Appointment, patientFirst: bool)
    requires NoDoubleBooking(store.appointments)
    requires Admit(store, n.patientId, n.doctorId, n.date, n.startTimeMin, n.endTimeMin, None, patientFirst).Pass?
    ensures NoDoubleBooking(store.appointments + [n])
  {
    var apps := store.appointments;
    var all := apps + [n];
    forall i, j | 0 <= i < |all| && 0 <= j < |all| && i != j
      && all[i].status != "Cancelled" && all[j].status != "Cancelled"
      && all[i].doctorId == all[j].doctorId && all[i].date == all[j].date
      ensures !Overlaps(all[i].startTimeMin, all[i].endTimeMin, all[j].startTimeMin, all[j].endTimeMin)
    {
      if i == |apps| {
        assert !Conflicts(apps[j], n.doctorId, n.date, n.startTimeMin, n.endTimeMin, None);
      } else if j == |apps| {
        assert !Conflicts(apps[i], n.doctorId, n.date, n.startTimeMin, n.endTimeMin, None);
      } else {
        assert all[i] == apps[i] && all[j] == apps[j];
      }
    }
  }

  /** The scheduling tests' setting: one Monday window 09:00-10:00 and a 09:00-09:30 booking. */
  function ExampleStore(): Store {
    Store({"P"}, {"D"}, [AvailabilityRow("D", 1, 540, 600)], [],
          [Appointment("A1", "P", "D", 20157 * MsPerDay, 540, 570, "Scheduled")])
  }

  /** A 09:15-09:45 request against the 09:00-09:30 booking is refused with 409 and an "overlaps" message. */
  lemma ExampleOverlapRefused(patientFirst: bool)
    ensures ToDateOnly("2025-03-10") == Some(20157 * MsPerDay)
    ensures AssertCreatable(ExampleStore(), CreateRequest("P", "D", "2025-03-10", 555, 585), patientFirst)
      == Fail(Refused(ConflictError(Overlapping)))
  {
    ExampleDateIsMonday();
    var store := ExampleStore();
    var date := 20157 * MsPerDay;
    FitsAvailabilityMeans(store, "D", date, 555, 585);
    assert store.availability[0].dayOfWeek == DayOfWeekUTC(date);
    assert Conflicts(store.appointments[0], "D", date, 555, 585, None);
  }

  /** The back-to-back 09:30-10:00 request is admitted. */
  lemma ExampleAdjacentAdmitted(patientFirst: bool)
    ensures ToDateOnly("2025-03-10") == Some(20157 * MsPerDay)
    ensures AssertCreatable(ExampleStore(), CreateRequest("P", "D", "2025-03-10", 570, 600), patientFirst) == Pass
  {
    ExampleDateIsMonday();
    var store := ExampleStore();
    var date := 20157 * MsPerDay;
    FitsAvailabilityMeans(store, "D", date, 570, 600);
    assert store.availability[0].dayOfWeek == DayOfWeekUTC(date);
    assert !Conflicts(store.appointments[0], "D", date, 570, 600, None);
  }

  /** 10:00-10:30 does not lie inside the 09:00-10:00 window. */
  lemma ExampleOutsideWindow(patientFirst: bool)
    ensures ToDateOnly("2025-03-10") == Some(20157 * MsPerDay)
    ensures AssertCreatable(ExampleStore(), CreateRequest("P", "D", "2025-03-10", 600, 630), patientFirst)
      == Fail(Refused(NewUnprocessable(OutsideAvailability)))
  {
    ExampleDateIsMonday();
    FitsAvailabilityMeans(ExampleStore(), "D", 20157 * MsPerDay, 600, 630);
  }

  /**
   * Month 13 is an Invalid Date: with both people on file the availability
   * query fails; with the patient missing the lookup answers 404 first.
   */
  lemma ExampleInvalidDate(patientFirst: bool)
    ensures AssertCreatable(ExampleStore(), CreateRequest("P", "D", "2025-13-01", 540, 570), patientFirst)
      == Fail(InvalidDateQuery)
    ensures AssertCreatable(ExampleStore(), CreateRequest("Q", "D", "2025-13-01", 540, 570), patientFirst)
      == Fail(Refused(NotFoundError("Patient not found")))
  {
    var s := "2025-13-01";
    assert s[0..4] == "2025" && s[5..7] == "13" && s[8..10] == "01";
    assert DigitsValue("13") == 13 by {
      assert "13"[..1] == "1";
    }
    ToDateOnlyOfIsoShape(s);
  }
}
