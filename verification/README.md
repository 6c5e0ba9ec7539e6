# Thu-Kha EMR core, modelled in Dafny

This project models the decision-making core of the Thu-Kha EMR system: a
clinic back end and its browser client. Every model is a pure function over
immutable values. The database, the browser state and the external services
appear as inputs or as returned values.

## What is modelled

- **Time helpers** (`Time`). Calendar dates are counted in milliseconds since
  the epoch at UTC midnight. The module covers `toDateOnly`, `toMinutes`,
  `minutesToHHMM`, `dayOfWeekUTC` and `composeDateTime`.
- **HTTP errors** (`HttpErrors`). The `HttpError` class and its status
  subclasses.
- **Appointment admission** (`Appointments`). This is the gate a booking or
  reschedule passes through:
  - both participants exist;
  - the slot lies inside one of the doctor's weekly availability windows;
  - no blackout of the doctor overlaps the slot;
  - no other live appointment of the doctor on that date overlaps it.
- **Pharmacy** (`Pharmacy`):
  - first-expiry-first-out (FEFO) batch allocation;
  - allergy screening;
  - prescription creation;
  - the dispense lifecycle, and the completion transaction. Completion
    decrements stock, refuses to leave a batch negative, and reclassifies
    the prescription.
- **Pharmacy routes** (`PharmacyRoutes`). The queue's status filter, the
  visit and doctor guard on prescribing, and the request-body schemas.
- **Patients** (`Patients`). Contact masking for the log, the search
  paging parameters (with JavaScript `parseInt`), and the patient lookup.
- **Invoice scanner** (`InvoiceScanner`). This is everything after the
  language-model reply arrives: reading the reply content, cutting out the
  JSON object between the outermost braces, and normalising its fields.
- **Client logic**:
  - the visit form's text encoding of diagnoses, medications, labs and
    vitals (`VisitForm`);
  - the prescribing drawer (`PrescribeDrawer`);
  - the add-medication page (`AddDrug`);
  - the settings provider and settings page (`Settings`).
- **Shared helpers**:
  - `Strings`: JavaScript `trim`, `split`, `join`, `padStart`, `indexOf`,
    ASCII case mapping, and `Number()` on decimal integer text;
  - `Wrappers`: `Option`, `Result` and `Outcome`.

Dates and times follow the proleptic Gregorian calendar in UTC. Minutes of the
day are plain integers. JavaScript's truncating `%` is written out as
`Time.JsRemainder`, because Dafny's `%` is Euclidean.

## Model

| member | source | states |
|---|---|---|
| Time.ToDateOnly | src/utils/time.ts:1-3 | A parsed date is a UTC midnight inside the time-value range. Text in none of the date-only forms (`YYYY`, `YYYY-MM`, `YYYY-MM-DD`, with a four-digit or signed six-digit year) is an Invalid Date. |
| Time.ToDateOnlyOfIsoShape | src/utils/time.ts:1-3 | For `YYYY-MM-DD` text, a calendar date parses to its own UTC midnight. A month outside 1..12 or a day outside 1..31 is an Invalid Date. A day past the end of its month is that many days into the next month. |
| Time.ShortFormsAreFirstDays | src/utils/time.ts:1-3 | `YYYY` parses as 1 January of that year, and `YYYY-MM` as the first of that month. |
| Time.ExtendedYearSameDate | src/utils/time.ts:1-3 | `+00YYYY-MM-DD` names the same date as `YYYY-MM-DD`. |
| Time.CivilFromDays | src/services/appointmentService.ts:221 | Every day number is a valid calendar date whose day count is that number: the inverse of the date-to-day count. |
| Time.CivilYearBound | src/services/appointmentService.ts:221 | A day within the time-value range lies in a year of at most six digits. |
| Time.IsoYearText | src/services/appointmentService.ts:221 | `toISOString` writes years 0..9999 as four digits worth the year, and other years as a sign and six digits worth its magnitude. |
| Time.IsoDateText | src/services/appointmentService.ts:221 | The printed date is at least ten characters. For a year in 0..9999 it has the `YYYY-MM-DD` shape, and its fields read back as the year, month and day. |
| Time.ExpandedIsoDateFields | src/services/appointmentService.ts:221 | For a year outside 0..9999, the printed date reads as that date, but its first ten characters read as the first of its month. |
| Time.ToDateOnlyOfIsoDateText | src/services/appointmentService.ts:221 | Parsing the printed form of any valid date with a year of up to six digits gives that date's UTC midnight when it is in range, and an Invalid Date otherwise. For years 0..9999 it is always in range. |
| Time.ReadBackUtcDay | src/services/appointmentService.ts:221 | Parsing the first ten characters of an instant's printed form gives the UTC midnight of its day for years 0..9999. For other years it gives the first of the instant's month, or an Invalid Date when that first precedes the time-value range. |
| Time.TruncateToUtcDay | src/services/appointmentService.ts:221 | A whole number of days, at or before the instant and less than a day before it. |
| Time.NextDateIsOneDayLater | src/utils/time.ts:1-3 | The day count of the next calendar date is exactly one more, across month, year and leap-day boundaries. |
| Time.LeapStep | src/utils/time.ts:1-3 | Each year adds exactly one leap day to the running count when it is a Gregorian leap year, and none otherwise. |
| Time.DayOfWeekUTC | src/utils/time.ts:19-21 | A weekday is always in 0..6. |
| Time.WeekdayOfDay | src/utils/time.ts:19-21 | Day k after the epoch falls on weekday (k + 4) mod 7; 1970-01-01 was a Thursday. |
| Time.NextDateNextWeekday | src/utils/time.ts:19-21 | The next calendar date falls on the next weekday. |
| Time.ComposeDateTime | src/utils/time.ts:23-25 | A minute of the day composed with a UTC midnight stays on that UTC day. |
| Time.ComposeKeepsWeekday | src/utils/time.ts:23-25 | Adding minutes of the day to a date keeps its UTC weekday. |
| Time.ComposeMonotone | src/utils/time.ts:23-25 | On one date, composing preserves both the order and the equality of minute values. |
| Time.ExampleDateIsMonday | src/utils/time.ts:1-3 | 2025-03-10 parses to day 20157, which is a Monday. |
| Time.ToMinutes | src/utils/time.ts:5-8 | Text without a colon gives no minute value. |
| Time.ToMinutesOfFields | src/utils/time.ts:5-8 | `H:M` reads as 60·Number(H) + Number(M) when both fields are numbers, and as nothing otherwise. |
| Time.MinutesToHHMM | src/utils/time.ts:10-17 | For a non-negative count the text is at least two digits, a colon and two digits. |
| Time.HHMMFields | src/utils/time.ts:10-17 | For non-negative minutes, the hour field is at least two digits and reads back as m / 60. The minute field is exactly two digits and reads back as m mod 60. |
| Time.MinutesRoundTrip | src/utils/time.ts:5-17 | For every non-negative minute count m, `toMinutes(minutesToHHMM(m)) = m`. |
| Time.NegativeMinutesDoNotRoundTrip | src/utils/time.ts:5-17 | -1 prints as `-1:-1`, which reads back as -61: the round trip holds only for non-negative minutes. |
| Time.JsRemainder | src/utils/time.ts:12 | The remainder has the dividend's sign and is smaller than the divisor. It differs from the dividend by a multiple of the divisor, so it is the truncated remainder, as JavaScript `%` gives. |
| HttpErrors.NewHttpError | src/utils/httpErrors.ts:1-6 | A base error carries exactly the given status and message. |
| HttpErrors.NewSubclassError | src/utils/httpErrors.ts:8-36 | Each subclass carries its own status, and that status maps back to the subclass. The message defaults to the reason phrase when none is given. |
| HttpErrors.NewUnprocessable | src/services/appointmentService.ts:150 | The error is of the unprocessable-entity kind and carries the given message. Its class is not in the errors module, so it has no status. |
| HttpErrors.KindOfStatus | src/utils/httpErrors.ts:8-36 | Only 400, 401, 403, 404 and 409 name a subclass, and each names the subclass whose status it is. |
| Appointments.MatchingWindows | src/services/appointmentService.ts:20-35 | A window is listed exactly when some availability row belongs to the doctor and the weekday. |
| Appointments.SortByStart | src/services/appointmentService.ts:32-34 | The result is sorted by start minute and is a permutation of its input. |
| Appointments.GetDoctorAvailabilityForDate | src/services/appointmentService.ts:15-49 | Gives the doctor's windows for the date's UTC weekday: a sorted permutation of the matching rows. |
| Appointments.FitsIgnoresOrder | src/services/appointmentService.ts:138-152 | Whether a slot fits does not depend on the order of the windows. |
| Appointments.FitsAvailabilityMeans | src/services/appointmentService.ts:138-152 | A slot fits exactly when one of the doctor's rows for that weekday contains it, closed at both ends. |
| Appointments.HasDoctorBlackout | src/services/appointmentService.ts:51-77 | True exactly when some blackout of the doctor overlaps the slot's instants, half-open. |
| Appointments.HasDoctorOverlap | src/services/appointmentService.ts:79-114 | True exactly when some appointment conflicts. A conflict means the same doctor and date, not cancelled, overlapping half-open, and not the excluded id. |
| Appointments.FindFirst | src/services/appointmentService.ts:61-76 | Gives the first position satisfying the predicate; nothing before it does, and none means no element does. |
| Appointments.EnsureParticipants | src/services/appointmentService.ts:116-136 | Passes exactly when patient and doctor both exist. Otherwise the error is a 404 naming the missing one; when both are missing, the one whose lookup settles first is named. |
| Appointments.Admit | src/services/appointmentService.ts:138-194 | Passes exactly when all four checks hold. Each failure gives the error of the first check that fails, in source order: 404, then the unprocessable-entity error for a slot outside availability, then the unprocessable-entity error for a blackout, then 409 for an overlap. |
| Appointments.AdmitOn | src/services/appointmentService.ts:183-229 | For a date, passes exactly when `Admit` does and fails with `Admit`'s error. For an Invalid Date, a missing participant still gives its 404 first; otherwise the availability query fails. |
| Appointments.AssertCreatable | src/services/appointmentService.ts:183-194 | A new appointment is admitted exactly when the date parses and participants, availability, blackout and overlap all pass, with nothing excluded. A missing participant gives its 404 whatever the date. With both people present, an Invalid Date fails at the availability query. |
| Appointments.FindAppointment | src/services/appointmentService.ts:201-215 | Finds a stored appointment with the id, or reports that none has it. |
| Appointments.UpdatedDate | src/services/appointmentService.ts:219-221 | A given date is parsed and replaces the stored one, so it may be an Invalid Date. Otherwise the stored instant is printed, cut to ten characters and parsed again. For a year in 0..9999 that gives its UTC day. For other years it gives the first of its month, or an Invalid Date. |
| Appointments.AssertUpdatable | src/services/appointmentService.ts:196-229 | An unknown id gives 404. Otherwise the stored appointment, with the update laid over it, goes through the admission gate excluding itself; an Invalid Date in the update takes the failed-query branch. |
| Appointments.AdjacentNeverOverlap | src/services/appointmentService.ts:79-114 | Back-to-back slots never overlap. |
| Appointments.MinuteOverlapIsInstantOverlap | src/services/appointmentService.ts:51-114 | On one date, overlap in minutes and overlap in instants agree. |
| Appointments.IgnoredAppointments | src/services/appointmentService.ts:90-106 | Cancelled, other-doctor, other-date and excluded appointments never conflict. |
| Appointments.WithoutId | src/services/appointmentService.ts:100-106 | Keeps exactly the appointments with a different id. |
| Appointments.ExcludedIsOther | src/services/appointmentService.ts:100-106 | With a non-empty excluded id, a conflict is a conflict with a different id. |
| Appointments.ExcludeIsRemove | src/services/appointmentService.ts:100-106 | Excluding a non-empty id is the same as searching a store without that appointment. |
| Appointments.UnchangedRescheduleNeverSelfConflicts | src/services/appointmentService.ts:196-229 | An update that changes nothing is judged on the stored date read back, as if the appointment were absent from the store. A stored UTC midnight in years 0..9999 reads back as itself. |
| Appointments.ExcludeOnAnyDate | src/services/appointmentService.ts:183-229 | On any date, or an Invalid Date, excluding a record's id gives the same verdict as removing the record. |
| Appointments.AdmittedBookingKeepsScheduleConsistent | src/services/appointmentService.ts:168-194 | Adding an admitted booking to a store without double bookings leaves it without double bookings. |
| Appointments.ExampleOverlapRefused | src/services/appointmentService.ts:168-181 | With 540-570 booked on a Monday, 555-585 is refused with 409. |
| Appointments.ExampleAdjacentAdmitted | src/services/appointmentService.ts:168-194 | With 540-570 booked, the adjacent 570-600 is admitted. |
| Appointments.ExampleOutsideWindow | src/services/appointmentService.ts:138-152 | 600-630 lies outside a 540-600 window and is refused with the unprocessable-entity error. |
| Appointments.ExampleInvalidDate | src/services/appointmentService.ts:183-194 | `2025-13-01` fails at the availability query when both people exist. When the patient is unknown, the 404 comes first. |
| Pharmacy.Allocate | src/services/pharmacyService.ts:15-25 | Never makes more picks than there are batches. |
| Pharmacy.AllocateConserves | src/services/pharmacyService.ts:15-25 | The picked quantities plus the remainder equal the request. |
| Pharmacy.AllocateTakesMin | src/services/pharmacyService.ts:15-25 | For stocked batches, the picked total is the smaller of the request and the stock on hand. |
| Pharmacy.AllocateIsGreedyPrefix | src/services/pharmacyService.ts:17-24 | Picks come from the batches in FEFO order, one per batch, each positive and within the batch. A request of zero or less picks nothing. |
| Pharmacy.AllocateTakesWholeBatches | src/services/pharmacyService.ts:17-24 | Every pick but the last empties its batch. Stopping before the last batch means the request was met. |
| Pharmacy.AllocateFEFO | src/services/pharmacyService.ts:10-26 | The loop computes the greedy FEFO allocation: it conserves quantity, takes the smaller of request and stock, and leaves no remainder exactly when stock suffices. |
| Pharmacy.Walk | src/services/pharmacyService.ts:15-25 | The loop's picks and remainder are those of the greedy allocation. |
| Pharmacy.AllergyHits | src/services/pharmacyService.ts:33-42 | A substance is reported exactly when some allergy names it non-empty and some drug name contains it, ignoring case. At most one alert per allergy. |
| Pharmacy.AllergyHitsSingle | src/services/pharmacyService.ts:33-42 | One record alerts with its substance exactly when it hits, and gives nothing otherwise. |
| Pharmacy.AllergyHitsAppend | src/services/pharmacyService.ts:33-46 | The alerts of two lists of records are those of the first, then those of the second. |
| Pharmacy.CheckAllergy | src/services/pharmacyService.ts:28-47 | The loop reports the allergy hits. A missing allergy table gives no alerts. |
| Pharmacy.MentionsAny | src/services/pharmacyService.ts:36-41 | The inner loop finds a hit exactly when some drug name contains the substance, ignoring case. |
| Pharmacy.DrugLabel | src/services/pharmacyService.ts:57 | A drug's label `name strength` is trimmed. |
| Pharmacy.DrugNames | src/services/pharmacyService.ts:55-57 | There are no more labels than catalogue rows. |
| Pharmacy.DrugNamesMembers | src/services/pharmacyService.ts:55-57 | A label is screened exactly when some catalogue drug whose id the prescription lists has that label. |
| Pharmacy.StoreItem | src/services/pharmacyService.ts:68-78 | A stored item keeps the requested drug, dose, route, frequency, duration and quantity. `prn` defaults to false, `allowGeneric` to true, and notes to null. |
| Pharmacy.CreatePrescription | src/services/pharmacyService.ts:49-85 | The prescription is PENDING with one stored item per requested item. Allergy hits are screened only when a patient id is given. |
| Pharmacy.StartDispense | src/services/pharmacyService.ts:118-126 | An unknown prescription is a failure. Otherwise a READY dispense is recorded for it. |
| Pharmacy.AddDispenseItem | src/services/pharmacyService.ts:128-142 | An unknown dispense is a failure. Otherwise the line is appended. |
| Pharmacy.LinesOf | src/services/pharmacyService.ts:149-157 | Exactly the lines of the given dispense. |
| Pharmacy.ApplyDecrements | src/services/pharmacyService.ts:163-172 | A success keeps the batch ids and leaves every touched batch non-negative. A failure is the stock race or a missing batch. |
| Pharmacy.RaceIffOverdrawn | src/services/pharmacyService.ts:163-172 | The decrement loop fails exactly when some batch's total demand exceeds its stock, and then the failure is the stock race. |
| Pharmacy.NoNegativeStock | src/services/pharmacyService.ts:163-172 | After a successful completion, no touched batch is negative. |
| Pharmacy.Cumulative | src/services/pharmacyService.ts:182-194 | A total over non-negative quantities is non-negative, and an item with no dispense line totals 0. |
| Pharmacy.CumulativeAppend | src/services/pharmacyService.ts:182-194 | The total over two runs of dispense lines is the sum of the two totals. |
| Pharmacy.AllMet | src/services/pharmacyService.ts:191-194 | Every prescribed line has a dispensed total of at least its prescribed quantity, a missing total counting as 0. `FinalStatus` is DISPENSED exactly when this holds. |
| Pharmacy.AllMetMonotone | src/services/pharmacyService.ts:191-194 | Dispensing more, in non-negative quantities, never makes a fully met prescription unmet. |
| Pharmacy.FinalStatus | src/services/pharmacyService.ts:182-197 | DISPENSED exactly when every prescription item has had at least its prescribed quantity dispensed, across all of its dispenses; otherwise PARTIAL. |
| Pharmacy.SameTotalsAfterStatus | src/services/pharmacyService.ts:174-195 | Changing a dispense's status does not change the cumulative totals. |
| Pharmacy.CompleteDispense | src/services/pharmacyService.ts:144-206 | An unknown dispense is NOT_FOUND. A failure leaves the state as it was. A success decrements stock, sets the dispense's status and sets the prescription's recomputed status. |
| Pharmacy.CompletingTwiceDecrementsTwice | src/services/pharmacyService.ts:144-172 | Completing the same dispense twice takes its lines out of stock twice; nothing guards against the repeat. |
| Pharmacy.EmptyPrescriptionIsDispensed | src/services/pharmacyService.ts:192-197 | A prescription with no items is DISPENSED on completion. |
| Pharmacy.RequestedStatusIrrelevant | src/services/pharmacyService.ts:192-204 | The returned prescription status does not depend on the requested COMPLETED or PARTIAL. |
| Pharmacy.SplitDispenseExample | src/services/pharmacyService.ts:182-197 | 20 of 30 dispensed gives PARTIAL; another 10 in a second dispense gives DISPENSED. |
| PharmacyRoutes.ParseStatusToken | src/routes/pharmacy.ts:116-118 | A token is kept exactly when its trimmed upper-case form names a status. |
| PharmacyRoutes.KeepStatuses | src/routes/pharmacy.ts:115-121 | Keeps no more statuses than there are tokens. |
| PharmacyRoutes.KeptStatuses | src/routes/pharmacy.ts:115-121 | A status is kept exactly when some comma-separated token names it. |
| PharmacyRoutes.NormalizeStatusFilter | src/routes/pharmacy.ts:114-123 | No filter or no recognised token gives [PENDING]. Otherwise the recognised statuses in order. |
| PharmacyRoutes.StatusNameReadsBack | src/routes/pharmacy.ts:116-118 | Every status name reads back as its status. |
| PharmacyRoutes.StatusFilterRoundTrip | src/routes/pharmacy.ts:114-123 | A non-empty list of statuses, joined with commas, filters back to itself. |
| PharmacyRoutes.PrescriptionGuard | src/routes/pharmacy.ts:78-100 | 404 for an unknown visit. 403 when the caller is another doctor. Otherwise the visit's doctor, and the payload's patient or else the visit's. |
| PharmacyRoutes.ParseCompletionStatus | src/routes/pharmacy.ts:36-38 | Only COMPLETED and PARTIAL are accepted. |
| PharmacyRoutes.ValidDrugBody | src/routes/pharmacy.ts:26-34 | The create-drug schema's test: name, form and strength of at least one character, and an id, when given, in UUID form. `AddDrug.Payload` promises it of every body the page sends. |
| PharmacyRoutes.BlankNameAccepted | src/routes/pharmacy.ts:26-34 | The schema accepts a name of one space: it checks length, not content. |
| Patients.MaskText | src/modules/patients/index.ts:16-19 | Keeps the length. Masks exactly the characters followed by at least two more on the same line. |
| Patients.MaskKeepsTail | src/modules/patients/index.ts:16-19 | The last two characters stay visible. Text of two or fewer is unchanged. |
| Patients.MaskSingleLine | src/modules/patients/index.ts:16-19 | Single-line text becomes stars followed by its last two characters. |
| Patients.MaskStopsAtLineBreaks | src/modules/patients/index.ts:18 | The pattern's `.` stops at line breaks, so each line keeps its own two-character tail. |
| Patients.MaskIdempotent | src/modules/patients/index.ts:16-19 | Masking twice equals masking once. |
| Patients.MaskContact | src/modules/patients/index.ts:16-19 | A missing contact stays missing. |
| Patients.ParseIntOfIntToString | src/modules/patients/index.ts:34-35 | `parseInt` reads every printed integer back. |
| Patients.ParseIntIgnoresTail | src/modules/patients/index.ts:34-35 | `parseInt` stops at the first non-digit. |
| Patients.ParseInt | src/modules/patients/index.ts:34-35 | A number always begins with a decimal digit after the white space and the sign. It is negative only after a minus sign, and positive only without one. |
| Patients.ParseIntNaN | src/modules/patients/index.ts:34-35 | For every text, NaN exactly when no decimal digit follows the white space and the sign, or a `0x` prefix has no hexadecimal digit after it. |
| Patients.ExampleParseIntNaN | src/modules/patients/index.ts:34-35 | `abc` and the empty text are NaN. |
| Patients.SearchLimit | src/modules/patients/index.ts:34 | Never above 50. NaN or 0 gives 20; any other number is capped at 50. |
| Patients.SearchOffset | src/modules/patients/index.ts:35 | NaN or 0 gives 0; any other number is kept. |
| Patients.LimitRoundTrip | src/modules/patients/index.ts:34-35 | Limits 1..50 are kept, larger ones become 50, and negative ones pass through. Every offset is kept. |
| Patients.PlanSearch | src/modules/patients/index.ts:21-45 | A search runs exactly when the query is non-empty, with the lower-cased term and the derived paging. |
| Patients.GetPatient | src/modules/patients/index.ts:51-100 | 404 exactly for an unknown id. The summary is included exactly for `include=summary`, and the logged contact is masked. |
| InvoiceScanner.NormalizeString | src/services/invoiceScanner.ts:96-102 | Gives a trimmed, non-empty string exactly when the value is a string with visible content. |
| InvoiceScanner.NormalizeStringIdempotent | src/services/invoiceScanner.ts:96-102 | Normalising a normalised string changes nothing. |
| InvoiceScanner.BraceWindow | src/services/invoiceScanner.ts:65-73 | Fails with 502 exactly when there is no `{`, no `}`, or the last `}` comes before the first `{`. Otherwise the slice from the first `{` to the last `}`. |
| InvoiceScanner.WindowStripsChatter | src/services/invoiceScanner.ts:65-73 | Text around a braced object that contains no braces itself is cut away. |
| InvoiceScanner.EnsureJsonObject | src/services/invoiceScanner.ts:65-82 | A missing window gives its error. JSON that does not parse gives a 502. Otherwise the parsed value of the window. |
| InvoiceScanner.PartsText | src/services/invoiceScanner.ts:235-239 | The parts join to text exactly when none of them is a bare string: `'text' in part` throws on a string part. |
| InvoiceScanner.PartsTextSingle | src/services/invoiceScanner.ts:235-239 | A text part gives its text; any other object part gives nothing. |
| InvoiceScanner.PartsTextAppend | src/services/invoiceScanner.ts:235-239 | The text of two runs of parts is the two texts joined, in order. |
| InvoiceScanner.StringPartFails | src/services/invoiceScanner.ts:235-283 | One bare string part turns an otherwise well-formed reply into the generic 502. |
| InvoiceScanner.NormalizeMetadata | src/services/invoiceScanner.ts:243-252 | Vendor, invoice number, currency and destination are each the normalised field of the `metadata` object. A missing, null or non-object `metadata` gives all of them as null. |
| InvoiceScanner.NormalizeLineItem | src/services/invoiceScanner.ts:255-267 | A `null` item fails. Otherwise each of the eight string fields is the normalised field of the item. |
| InvoiceScanner.NormalizeWarnings | src/services/invoiceScanner.ts:242-272 | One warning per raw entry: its normalised text, or the fixed fallback. |
| InvoiceScanner.NormalizeLineItems | src/services/invoiceScanner.ts:254-267 | One item per entry. A `null` entry makes the whole reply fail. |
| InvoiceScanner.InterpretText | src/services/invoiceScanner.ts:241-283 | Fails exactly when the object cannot be cut out and parsed, or a line item is null; the latter gives the generic 502, and every failure is a 502. A success holds the normalised metadata, line items, warnings and raw text of the parsed object, and no warning is empty. |
| InvoiceScanner.Interpret | src/services/invoiceScanner.ts:228-241 | A missing or empty reply gives the empty-response 502. Every failure is a 502. |
| InvoiceScanner.ScanInvoice | src/services/invoiceScanner.ts:186-284 | An empty file gives 400, a missing key 503, and a failed call the generic 502. Every failure carries a status. |
| InvoiceScanner.PartsJoinLikeText | src/services/invoiceScanner.ts:235-241 | Text parts are read as if the joined text had been sent. |
| InvoiceScanner.EmptyPartsReachBraceCheck | src/services/invoiceScanner.ts:228-241 | An empty parts array passes the emptiness check and fails at the brace check, while empty text fails earlier. |
| VisitForm.TrimNonEmpty | client/src/components/VisitForm.tsx:91-94 | Each kept part is trimmed and non-empty, and there are no more of them than parts. |
| VisitForm.TrimNonEmptyMembers | client/src/components/VisitForm.tsx:91-94 | A text is kept exactly when it is non-empty and some part trims to it. |
| VisitForm.TrimNonEmptyAppend | client/src/components/VisitForm.tsx:91-94 | The parts are read one after another, so the kept texts stay in their order. |
| VisitForm.Lines | client/src/components/VisitForm.tsx:91-94 | Each kept line is trimmed and non-empty, and a text is kept exactly when it is non-empty and some line of the text trims to it. |
| VisitForm.LinesOfFirstLine | client/src/components/VisitForm.tsx:91-94 | The first line of a text, trimmed, comes first unless it is blank, followed by the lines after it. |
| VisitForm.ParseMedication | client/src/components/VisitForm.tsx:100-106 | The first field is the drug. A dosage is present exactly when a non-empty second field exists, and then it is that field. |
| VisitForm.ParseMedications | client/src/components/VisitForm.tsx:96-107 | One medication per non-blank line, each read from its line, in order. |
| VisitForm.ParseLab | client/src/components/VisitForm.tsx:112-119 | The first field is the test. When the second field is given, the value is `Number` of it, and nothing when that is not a number; otherwise no value. The unit is the third field when given. |
| VisitForm.ParseLabs | client/src/components/VisitForm.tsx:108-121 | One lab per non-blank line, each read from its line, in order. |
| VisitForm.BuildObservation | client/src/components/VisitForm.tsx:349-376 | No observation exactly when every field is blank. Otherwise the note is the trimmed note. Each of the six vitals is present exactly when its field is non-blank, and then it is the field's trimmed text. |
| VisitForm.HandleSubmit | client/src/components/VisitForm.tsx:88-134 | Date, doctor and department pass through unchanged. The reason is the trimmed text when not blank. The diagnoses are the non-blank trimmed lines, the medications and labs are read line by line, and the observation is the one built from the fields. |
| VisitForm.ToState | client/src/components/VisitForm.tsx:312-347 | An absent reason becomes an empty field; diagnoses, medications and labs become their one-per-line texts. |
| VisitForm.LabParts | client/src/components/VisitForm.tsx:325-336 | A unit without a value leaves an empty second field, so the unit stays third. |
| VisitForm.MedicationRoundTrip | client/src/components/VisitForm.tsx:100-106 | A clean medication's line parses back to it. |
| VisitForm.LabRoundTrip | client/src/components/VisitForm.tsx:112-119 | A clean lab's line parses back to it. |
| VisitForm.MedicationsRoundTrip | client/src/components/VisitForm.tsx:319-323 | The medications text parses back to the list. |
| VisitForm.LabsRoundTrip | client/src/components/VisitForm.tsx:324-338 | The labs text parses back to the list. |
| VisitForm.ObservationRoundTrip | client/src/components/VisitForm.tsx:339-376 | The form fields of a clean observation rebuild it. |
| VisitForm.FormRoundTrip | client/src/components/VisitForm.tsx:312-347 | Loading clean visit values into the form and submitting returns the same values. |
| VisitForm.UnitWithoutValueStaysThird | client/src/components/VisitForm.tsx:330-336 | A glucose lab with a unit and no value prints as `Glucose\|\|mg/dL` and parses back. |
| VisitForm.LookupDoctor | client/src/components/VisitForm.tsx:60-66 | Finds a listed doctor with the id, or reports that none is listed. |
| VisitForm.SelectDoctor | client/src/components/VisitForm.tsx:154-161 | Sets the doctor, and the department from the list or else empty. Nothing else changes. |
| VisitForm.SyncDepartment | client/src/components/VisitForm.tsx:72-86 | Changes nothing unless the chosen doctor is listed. |
| VisitForm.SyncIdempotent | client/src/components/VisitForm.tsx:72-86 | Synchronising twice equals synchronising once. |
| VisitForm.SelectedDoctorInSync | client/src/components/VisitForm.tsx:72-161 | A state just set by selecting a doctor is already synchronised. |
| Settings.Persist | client/src/context/SettingsProvider.tsx:46-48 | Writes every field as it is: name, logo, users and doctors. |
| Settings.Latest | client/src/pages/Settings.tsx:31-32 | The last entry of a list, and none exactly for an empty list. |
| Settings.UpdateSettings | client/src/context/SettingsProvider.tsx:50-53 | Only the given fields change. |
| Settings.AddUser | client/src/context/SettingsProvider.tsx:55-57 | Appends the user; nothing else changes. |
| Settings.AddDoctor | client/src/context/SettingsProvider.tsx:59-61 | Appends the doctor; nothing else changes. |
| Settings.Restore | client/src/context/SettingsProvider.tsx:31-44 | Nothing stored changes nothing. Otherwise a truthy name or logo, and an array of users or doctors, replace the current value. |
| Settings.ReloadRestores | client/src/context/SettingsProvider.tsx:31-48 | Reloading what was persisted restores the users and doctors, and the name and logo when they are not empty. An empty name comes back as the default. |
| Settings.RestoreIdempotent | client/src/context/SettingsProvider.tsx:31-44 | Restoring twice equals restoring once. |
| Settings.HandleSave | client/src/pages/Settings.tsx:45-48 | The name saved is the trimmed entry, or the default when it is blank. It is never empty. Nothing else changes. |
| Settings.SaveUnchangedNameIsNoOp | client/src/pages/Settings.tsx:24-48 | Saving the page as opened changes nothing when the stored name is clean. |
| Settings.SavedNameSurvivesReload | client/src/pages/Settings.tsx:45-48 | A saved name survives persist and reload. |
| Settings.HandleLogoLoaded | client/src/pages/Settings.tsx:34-43 | Only the logo changes. |
| Settings.HandleAddUser | client/src/pages/Settings.tsx:50-57 | A blank email changes nothing. Otherwise the trimmed user is added and the fields cleared. |
| Settings.HandleAddDoctor | client/src/pages/Settings.tsx:59-67 | A blank name or department changes nothing. Otherwise the trimmed doctor is added and the form cleared. |
| Settings.AddUserKeepsClean | client/src/pages/Settings.tsx:50-57 | Every stored user has a trimmed non-empty email, and adding keeps it so. |
| Settings.AddDoctorKeepsClean | client/src/pages/Settings.tsx:59-67 | Every stored doctor has a trimmed non-empty name and department, and adding keeps it so. |
| Settings.AddedUserIsLatest | client/src/pages/Settings.tsx:31-57 | The user just added is the latest one shown. |
| Settings.AddedDoctorIsLatest | client/src/pages/Settings.tsx:31-67 | The doctor just added is the latest one shown. |
| AddDrug.Payload | client/src/pages/AddDrug.tsx:51-66 | The request body passes the server's schema. Its fields are the trimmed entries, and optional ones are left out when blank. |
| AddDrug.Submit | client/src/pages/AddDrug.tsx:32-68 | Ignored while saving. Refused exactly when a required field is blank. Otherwise sends a valid body. |
| AddDrug.Finish | client/src/pages/AddDrug.tsx:69-85 | Saving ends. Success resets the form and keeps the created drug. Failure keeps the form and shows the error or the fallback. |
| AddDrug.PayloadRoundTrip | client/src/pages/AddDrug.tsx:51-66 | Every body the page can produce is produced from its own fields. |
| AddDrug.PaddingIgnored | client/src/pages/AddDrug.tsx:39-66 | Surrounding spaces in the fields do not change the body. |
| AddDrug.NoSecondRequestWhileSaving | client/src/pages/AddDrug.tsx:34 | A submit handled against the state a sending submit produced is ignored. |
| AddDrug.BlankFormRefused | client/src/pages/AddDrug.tsx:16-49 | The empty initial form is refused. |
| AddDrug.RepeatAfterSuccessRefused | client/src/pages/AddDrug.tsx:43-72 | Submitting again right after a success is refused, because the form was reset. |
| AddDrug.BlankNameRefusedByPage | client/src/pages/AddDrug.tsx:39-49 | The page refuses a one-space name that the server's schema would accept. |
| PrescribeDrawer.Merge | client/src/components/PrescribeDrawer.tsx:34 | Each field the changes carry replaces the row's field, and every other field stays. No changes leave the row as it was. |
| PrescribeDrawer.UpdateItem | client/src/components/PrescribeDrawer.tsx:32-36 | Only the given row changes, by merging the changes into it. |
| PrescribeDrawer.AddItem | client/src/components/PrescribeDrawer.tsx:38-40 | Appends a default row. |
| PrescribeDrawer.RemoveItem | client/src/components/PrescribeDrawer.tsx:42-44 | The last remaining row is never removed. |
| PrescribeDrawer.RowsAlwaysPresent | client/src/components/PrescribeDrawer.tsx:28-80 | Every drawer operation keeps at least one row. |
| PrescribeDrawer.AddThenRemoveIsIdentity | client/src/components/PrescribeDrawer.tsx:38-44 | Removing the row just added restores the list. |
| PrescribeDrawer.UpdateIdempotent | client/src/components/PrescribeDrawer.tsx:32-36 | Applying the same changes twice equals applying them once. |
| PrescribeDrawer.UpdatesOfDifferentRowsCommute | client/src/components/PrescribeDrawer.tsx:32-36 | Updates to different rows commute. |
| PrescribeDrawer.CountOrOne | client/src/components/PrescribeDrawer.tsx:62-63 | Never 0. A missing or zero count becomes 1; other counts are kept. |
| PrescribeDrawer.BeginSave | client/src/components/PrescribeDrawer.tsx:46-66 | Refused exactly when some row lacks drug, dose, route or frequency. Otherwise posts every row, with counts defaulted, to the visit's prescriptions. |
| PrescribeDrawer.CountsNeverZero | client/src/components/PrescribeDrawer.tsx:57-65 | No posted item has a zero duration or quantity. |
| PrescribeDrawer.FreshDrawerIsRefused | client/src/components/PrescribeDrawer.tsx:18-50 | The initial drawer, whose default row has no drug or dose, is refused. |
| PrescribeDrawer.SaveAlert | client/src/components/PrescribeDrawer.tsx:67-76 | Allergy hits give a warning listing them. Otherwise a success message, or the error or the fallback. |
| PrescribeDrawer.FinishSave | client/src/components/PrescribeDrawer.tsx:67-79 | Saving ends. Success resets the drawer; failure keeps the rows and notes. |
| PrescribeDrawer.AllergyAlertExample | client/src/components/PrescribeDrawer.tsx:67-69 | Two hits are listed comma-separated after "Allergy warning: ". |
| Wrappers.RecognisedMembers | src/routes/pharmacy.ts:115-121 | A value is kept exactly when some input maps to it. |
| Strings.JoinSplit | client/src/components/VisitForm.tsx:91-94 | Joining the pieces of a split restores the text. |
| Strings.SplitJoin | client/src/components/VisitForm.tsx:318-338 | Splitting joined pieces that avoid the separator restores them. |
| Strings.Trim | src/routes/pharmacy.ts:116 | The result has no surrounding white space. It is empty exactly for all-space text, and trimmed text is unchanged. |
| Strings.TrimIsSlice | src/routes/pharmacy.ts:116 | The trimmed text is a piece of the text with nothing but white space before and after it. |
| Strings.NumberOfIntToString | client/src/components/VisitForm.tsx:114 | `Number(String(i)) = i` for every integer. |

## Left out

- The database and its queries are inputs: the store, stock, visits and catalogue are values passed in. Ordering by `createdAt`, `take`, `select` shapes and includes are not modelled beyond what a decision reads.
- Raw-SQL fallback in `getDoctorAvailabilityForDate`: the model reads the availability rows directly, whichever path the source takes to fetch them.
- Concurrency: `Promise.all` in `assertCreatable` is the `patientFirst` parameter. The overlap check is not atomic with the insert in the source; the model judges one request against one store.
- FEFO order is a precondition: the `orderBy` of `allocateFEFO` is stated as a predicate the batches satisfy, not computed.
- `receiveStock`, `getPharmacyQueue`'s query and `dispensedAt`: stock receipt is outside the core; the queue's result is a database read; the completion time is a clock.
- Authentication, role checks, the rate limiter and the `validate` middleware's error format; the request schemas are modelled only where a decision depends on them.
- The invoice scanner's language-model call, API key lookup, model name and image encoding: the key and the reply are parameters, and `JSON.parse` is a function parameter.
- `normalizeNumber` and `normalizeDate` in the invoice scanner: floating-point parsing and lenient date parsing are not part of this model; those fields are left out of the normalised records.
- JavaScript `Number()` is modelled for decimal integer text only (blank text is 0). Fractional, exponent and hexadecimal forms (`Number("0x10")` is 16) and `Infinity` read as NaN in the model, so a lab value in one of those forms is dropped where the browser keeps it.
- VisitForm.BuildObservation: the form hands each vital to `Number`; the model keeps the vital as its trimmed text (`Option<string>`) and does not convert it.
- `parseInt` is exact: precision loss beyond 2^53 is not modelled.
- Case mapping is ASCII only; Unicode case folding is not modelled.
- Browser effects: `localStorage`, `FileReader`, `window.alert` and React state are values; the logo file read is the `dataUrl` parameter of `Settings.HandleLogoLoaded`. The settings page's `widgetEnabled` toggle is not in the provider source and is not modelled.
- Stored settings whose `appName` or `logo` are non-string JSON values are not modelled; stored fields are strings or absent.
- Translation (`t()`) is the identity.
- `UnprocessableEntityError`: the appointment service raises it, but `src/utils/httpErrors.ts` does not define it. The model gives it no status (`HttpErrors.NewUnprocessable`); the status an error handler would send is not part of this model.
- PharmacyRoutes.KeepStatuses: its own contract bounds only the length; membership is stated by `PharmacyRoutes.KeptStatuses`.
- Pharmacy.DrugNames: its own contract bounds only the length; membership is stated by `Pharmacy.DrugNamesMembers`.
- Pharmacy.Allocate: its own contract bounds only the number of picks; what it computes is stated by the allocation lemmas.
- Time.ToDateOnly: only the date-only forms of the ECMAScript date-time string format are read. V8 falls back to a legacy parser for other text, which the model does not have; such text is an Invalid Date here.
- The availability query of an Invalid Date: the weekday it is handed is NaN, and what the database layer does with it is not part of this model. The model takes the query as failing (`Appointments.InvalidDateQuery`), which the error handler (`src/middleware/errorHandler.ts`) would answer with 500.
- Patients.MaskText: Dafny strings are sequences of Unicode scalar values, while JavaScript counts UTF-16 code units. The two agree on text in the Basic Multilingual Plane. For a contact with an astral character, such as an emoji, lengths and masked positions differ: `"😀abc"` masks to `"***bc"` in JavaScript and to `"**bc"` in the model.
- `JSON.parse` is an unconstrained parameter of the invoice scanner. Text that starts with `{`, ends with `}` and parses is always an object, but the model does not require that of the parameter; a non-object result is read like an object without the expected keys.
- Appointments.UpdatedDate: for a stored instant outside the time-value range (more than 8.64e15 ms from the epoch) `toISOString` throws a `RangeError`. A `Date` never holds such an instant, so the model does not raise that error, and its contract says nothing of the read-back day there.
- Time.IsoYearText: the digits of a year of seven or more digits are promised, but not their value; no time value lies in such a year.
- Strings.Trim: its own contract does not say that the result is a piece of the text; `Strings.TrimIsSlice` states that, kept apart so that every caller of `Trim` does not carry it.
- VisitForm.TrimNonEmpty: its own contract does not say which texts are kept; `VisitForm.TrimNonEmptyMembers` states that, and `VisitForm.TrimNonEmptyAppend` their order.
- Time.ToMinutes: its own contract states only the missing-colon case; the value is stated by `Time.ToMinutesOfFields`.
