/**
 * The visit form (client/src/components/VisitForm.tsx).  Its text areas hold
 * diagnoses one per line, medications as `drug|dosage` lines and labs as
 * `test|value|unit` lines; `toState` writes stored values into the fields
 * and the submit handler reads them back.  Vital signs are carried as the
 * text that is handed to `Number`.
 */
module VisitForm {
  import opened Wrappers
  import opened Strings

  datatype Medication = Medication(drugName: string, dosage: Option<string>)

  datatype Lab = Lab(testName: string, resultValue: Option<int>, unit: Option<string>)

  datatype Observation = Observation(
    noteText: Option<string>,
    bpSystolic: Option<string>,
    bpDiastolic: Option<string>,
    heartRate: Option<string>,
    temperatureC: Option<string>,
    spo2: Option<string>,
    bmi: Option<string>)

  /** `VisitFormInitialValues` and `VisitFormSubmitValues` share this shape. */
  datatype VisitValues = VisitValues(
    visitDate: string,
    doctorId: string,
    department: string,
    reason: Option<string>,
    diagnoses: seq<string>,
    medications: seq<Medication>,
    labs: seq<Lab>,
    observation: Option<Observation>)

  datatype FormState = FormState(
    visitDate: string,
    doctorId: string,
    department: string,
    reason: string,
    diagnoses: string,
    medications: string,
    labs: string,
    obsNote: string,
    bpSystolic: string,
    bpDiastolic: string,
    heartRate: string,
    temperatureC: string,
    spo2: string,
    bmi: string)

  datatype Doctor = Doctor(doctorId: string, name: string, department: string)

  // ---------------------------------------------------------------------
  // Reading the text areas
  // ---------------------------------------------------------------------

  /** Every part trimmed, the empty results dropped, the rest kept in order. */
  function TrimNonEmpty(parts: seq<string>): (r: seq<string>)
    ensures |r| <= |parts|
    ensures forall i :: 0 <= i < |r| ==> r[i] != "" && Trimmed(r[i])
  {
    if |parts| == 0 then []
    else
      var t := Trim(parts[0]);
      if t == "" then TrimNonEmpty(parts[1..]) else [t] + TrimNonEmpty(parts[1..])
  }

  /** The non-blank lines of a text area, trimmed, in the order they are written. */
  function Lines(text: string): (r: seq<string>)
    ensures forall i :: 0 <= i < |r| ==> r[i] != "" && Trimmed(r[i])
    ensures forall x :: x in r <==> x != "" && SomePartTrimsTo(Split(text, '\n'), x)
  {
    TrimNonEmptyMembers(Split(text, '\n'));
    TrimNonEmpty(Split(text, '\n'))
  }

  /** Some part trims to `x`. */
  predicate SomePartTrimsTo(parts: seq<string>, x: string) {
    |parts| > 0 && (Trim(parts[0]) == x || SomePartTrimsTo(parts[1..], x))
  }

  /** A text is kept exactly when it is non-empty and some part trims to it. */
  lemma TrimNonEmptyMembers(parts: seq<string>)
    ensures forall x :: x in TrimNonEmpty(parts) <==> x != "" && SomePartTrimsTo(parts, x)
  {
    forall x {
      TrimNonEmptyMember(parts, x);
    }
  }

  lemma {:induction false} TrimNonEmptyMember(parts: seq<string>, x: string)
    ensures x in TrimNonEmpty(parts) <==> x != "" && SomePartTrimsTo(parts, x)
  {
    if |parts| > 0 {
      var tail := parts[1..];
      var t := Trim(parts[0]);
      TrimNonEmptyMember(tail, x);
      assert TrimNonEmpty(parts) == if t == "" then TrimNonEmpty(tail) else [t] + TrimNonEmpty(tail);
    }
  }

  /** The `|`-separated fields of a line, each trimmed. */
  function Fields(line: string): (r: seq<string>)
    ensures |r| >= 1
  {
    var parts := Split(line, '|');
    seq(|parts|, i requires 0 <= i < |parts| => Trim(parts[i]))
  }

  /** The field at position `i`, or undefined. */
  function FieldAt(fields: seq<string>, i: nat): Option<string> {
    if i < |fields| then Some(fields[i]) else None
  }

  /** A truthy field, or nothing. */
  function GivenField(fields: seq<string>, i: nat): (r: Option<string>)
    ensures r.Some? <==> Given(FieldAt(fields, i))
    ensures r.Some? ==> r == FieldAt(fields, i)
  {
    if Given(FieldAt(fields, i)) then FieldAt(fields, i) else None
  }

  function ParseMedication(line: string): (m: Medication)
    ensures m.drugName == Fields(line)[0]
    ensures m.dosage.Some? <==> |Fields(line)| >= 2 && Fields(line)[1] != ""
    ensures m.dosage.Some? ==> m.dosage.value == Fields(line)[1]
  {
    var f := Fields(line);
    Medication(f[0], GivenField(f, 1))
  }

  /** A lab value is kept only if it is non-empty and `Number` reads it. */
  function ParseLab(line: string): (l: Lab)
    ensures l.testName == Fields(line)[0]
    ensures l.resultValue.Some? ==> Given(FieldAt(Fields(line), 1)) && NumberValue(Fields(line)[1]) == l.resultValue
    ensures Given(FieldAt(Fields(line), 1)) ==> l.resultValue == NumberValue(Fields(line)[1])
    ensures l.unit == GivenField(Fields(line), 2)
  {
    var f := Fields(line);
    var value := FieldAt(f, 1);
    var resultValue := if Given(value) then NumberValue(value.value) else None;
    Lab(f[0], resultValue, GivenField(f, 2))
  }

  function ParseDiagnoses(text: string): seq<string> {
    Lines(text)
  }

  /** One medication per non-blank line, in order. */
  function ParseMedications(text: string): (r: seq<Medication>)
    ensures |r| == |Lines(text)|
    ensures forall i :: 0 <= i < |r| ==> r[i] == ParseMedication(Lines(text)[i])
  {
    var lines := Lines(text);
    seq(|lines|, i requires 0 <= i < |lines| => ParseMedication(lines[i]))
  }

  /** One lab per non-blank line, in order. */
  function ParseLabs(text: string): (r: seq<Lab>)
    ensures |r| == |Lines(text)|
    ensures forall i :: 0 <= i < |r| ==> r[i] == ParseLab(Lines(text)[i])
  {
    var lines := Lines(text);
    seq(|lines|, i requires 0 <= i < |lines| => ParseLab(lines[i]))
  }

  /**
   * The observation the form submits: none when the note and every vital
   * are blank, otherwise the trimmed note and each non-blank vital, trimmed.
   */
  function BuildObservation(s: FormState): (r: Option<Observation>)
    ensures r.None? <==>
      (&& Trim(s.obsNote) == "" && Trim(s.bpSystolic) == "" && Trim(s.bpDiastolic) == ""
       && Trim(s.heartRate) == "" && Trim(s.temperatureC) == "" && Trim(s.spo2) == "" && Trim(s.bmi) == "")
    ensures r.Some? ==> r.value.noteText == Some(Trim(s.obsNote))
    ensures r.Some? ==> (r.value.bpSystolic.Some? <==> Trim(s.bpSystolic) != "")
    ensures r.Some? ==> (r.value.bpDiastolic.Some? <==> Trim(s.bpDiastolic) != "")
    ensures r.Some? ==> (r.value.heartRate.Some? <==> Trim(s.heartRate) != "")
    ensures r.Some? ==> (r.value.temperatureC.Some? <==> Trim(s.temperatureC) != "")
    ensures r.Some? ==> (r.value.spo2.Some? <==> Trim(s.spo2) != "")
    ensures r.Some? ==> (r.value.bmi.Some? <==> Trim(s.bmi) != "")
    ensures r.Some? && r.value.bpSystolic.Some? ==> r.value.bpSystolic.value == Trim(s.bpSystolic)
    ensures r.Some? && r.value.bpDiastolic.Some? ==> r.value.bpDiastolic.value == Trim(s.bpDiastolic)
    ensures r.Some? && r.value.heartRate.Some? ==> r.value.heartRate.value == Trim(s.heartRate)
    ensures r.Some? && r.value.temperatureC.Some? ==> r.value.temperatureC.value == Trim(s.temperatureC)
    ensures r.Some? && r.value.spo2.Some? ==> r.value.spo2.value == Trim(s.spo2)
    ensures r.Some? && r.value.bmi.Some? ==> r.value.bmi.value == Trim(s.bmi)
  {
    var note := Trim(s.obsNote);
    if note == "" && Trim(s.bpSystolic) == "" && Trim(s.bpDiastolic) == "" && Trim(s.heartRate) == ""
       && Trim(s.temperatureC) == "" && Trim(s.spo2) == "" && Trim(s.bmi) == ""
    then None
    else Some(Observation(Some(note), NonBlank(s.bpSystolic), NonBlank(s.bpDiastolic), NonBlank(s.heartRate),
                          NonBlank(s.temperatureC), NonBlank(s.spo2), NonBlank(s.bmi)))
  }

  /** The values `handleSubmit` passes on. */
  function HandleSubmit(s: FormState): (v: VisitValues)
    ensures v.visitDate == s.visitDate && v.doctorId == s.doctorId && v.department == s.department
    ensures v.reason == NonBlank(s.reason)
    ensures v.diagnoses == Lines(s.diagnoses)
    ensures v.medications == ParseMedications(s.medications)
    ensures v.labs == ParseLabs(s.labs)
    ensures v.observation == BuildObservation(s)
  {
    VisitValues(s.visitDate, s.doctorId, s.department, NonBlank(s.reason),
                ParseDiagnoses(s.diagnoses), ParseMedications(s.medications), ParseLabs(s.labs),
                BuildObservation(s))
  }

  // ---------------------------------------------------------------------
  // Writing the text areas
  // ---------------------------------------------------------------------

  /** A medication's line: the drug name, then `|` and the dosage when there is one. */
  function MedicationLine(m: Medication): string {
    if Given(m.dosage) then m.drugName + "|" + m.dosage.value else m.drugName
  }

  /**
   * The parts of a lab line: the test name, the value if any, then the unit
   * if any, with an empty value kept in place so the unit stays third.
   */
  function LabParts(l: Lab): (r: seq<string>)
    ensures 1 <= |r| <= 3 && r[0] == l.testName
    ensures Given(l.unit) ==> |r| == 3 && r[2] == l.unit.value
    ensures l.resultValue.Some? ==> |r| >= 2 && r[1] == IntToString(l.resultValue.value)
    ensures l.resultValue.None? && Given(l.unit) ==> r[1] == ""
    ensures !Given(l.unit) ==> |r| == if l.resultValue.Some? then 2 else 1
  {
    var parts := [l.testName] + (if l.resultValue.Some? then [IntToString(l.resultValue.value)] else []);
    if Given(l.unit) then (if |parts| == 1 then parts + [""] else parts) + [l.unit.value]
    else parts
  }

  function LabLine(l: Lab): string {
    Join(LabParts(l), '|')
  }

  /** The medications text area: one line per medication. */
  function MedicationsText(ms: seq<Medication>): string {
    Join(seq(|ms|, i requires 0 <= i < |ms| => MedicationLine(ms[i])), '\n')
  }

  /** The labs text area: one line per lab. */
  function LabsText(ls: seq<Lab>): string {
    Join(seq(|ls|, i requires 0 <= i < |ls| => LabLine(ls[i])), '\n')
  }

  function OptText(o: Option<string>): string {
    o.GetOr("")
  }

  /**
   * The form state stored values are written into: absent texts become
   * empty fields, lists become one entry per line.
   */
  function ToState(v: VisitValues): (s: FormState)
    ensures s.reason == OptText(v.reason)
    ensures s.diagnoses == Join(v.diagnoses, '\n')
    ensures s.medications == MedicationsText(v.medications) && s.labs == LabsText(v.labs)
  {
    var obs := v.observation;
    FormState(
      v.visitDate, v.doctorId, v.department, OptText(v.reason),
      Join(v.diagnoses, '\n'),
      MedicationsText(v.medications),
      LabsText(v.labs),
      if obs.Some? then OptText(obs.value.noteText) else "",
      if obs.Some? then OptText(obs.value.bpSystolic) else "",
      if obs.Some? then OptText(obs.value.bpDiastolic) else "",
      if obs.Some? then OptText(obs.value.heartRate) else "",
      if obs.Some? then OptText(obs.value.temperatureC) else "",
      if obs.Some? then OptText(obs.value.spo2) else "",
      if obs.Some? then OptText(obs.value.bmi) else "")
  }

  // ---------------------------------------------------------------------
  // Doctor and department
  // ---------------------------------------------------------------------

  /** `doctorLookup.get(id)`: the map is filled in list order, so the last doctor with the id wins. */
  function LookupDoctor(doctors: seq<Doctor>, id: string): (r: Option<Doctor>)
    ensures r.None? <==> forall i :: 0 <= i < |doctors| ==> doctors[i].doctorId != id
    ensures r.Some? ==> r.value.doctorId == id
    ensures r.Some? ==> exists i :: (&& 0 <= i < |doctors| && doctors[i] == r.value
                                     && forall j :: i < j < |doctors| ==> doctors[j].doctorId != id)
  {
    if |doctors| == 0 then None
    else
      var n := |doctors| - 1;
      if doctors[n].doctorId == id then Some(doctors[n])
      else
        var r := LookupDoctor(doctors[..n], id);
        assert forall i :: 0 <= i < n ==> doctors[..n][i] == doctors[i];
        r
  }

  /** Choosing a doctor in the select: the department follows the doctor, or is cleared. */
  function SelectDoctor(s: FormState, doctors: seq<Doctor>, id: string): (r: FormState)
    ensures r.doctorId == id
    ensures LookupDoctor(doctors, id).Some? ==> r.department == LookupDoctor(doctors, id).value.department
    ensures LookupDoctor(doctors, id).None? ==> r.department == ""
    ensures r.(doctorId := s.doctorId, department := s.department) == s
  {
    var doctor := LookupDoctor(doctors, id);
    s.(doctorId := id, department := if doctor.Some? then doctor.value.department else "")
  }

  /** The effect run when the doctor list changes: re-derive the department of a known doctor. */
  function SyncDepartment(s: FormState, doctors: seq<Doctor>): (r: FormState)
    ensures s.doctorId == "" || LookupDoctor(doctors, s.doctorId).None? ==> r == s
    ensures s.doctorId != "" && LookupDoctor(doctors, s.doctorId).Some? ==>
      r == s.(department := LookupDoctor(doctors, s.doctorId).value.department)
  {
    if s.doctorId == "" then s
    else
      var doc := LookupDoctor(doctors, s.doctorId);
      if doc.None? then s
      else if s.department == doc.value.department then s
      else s.(department := doc.value.department)
  }

  /** Re-running the sync changes nothing more. */
  lemma SyncIdempotent(s: FormState, doctors: seq<Doctor>)
    ensures SyncDepartment(SyncDepartment(s, doctors), doctors) == SyncDepartment(s, doctors)
  {
  }

  /** A doctor chosen from a list is already in sync with that list. */
  lemma SelectedDoctorInSync(s: FormState, doctors: seq<Doctor>, id: string)
    ensures SyncDepartment(SelectDoctor(s, doctors, id), doctors) == SelectDoctor(s, doctors, id)
  {
  }

  // ---------------------------------------------------------------------
  // Round trips
  // ---------------------------------------------------------------------

  /** A line that survives the text area unchanged: non-empty, trimmed, no line break. */
  predicate CleanLine(s: string) {
    s != "" && Trimmed(s) && '\n' !in s
  }

  /** A field that survives a `|`-separated line unchanged. */
  predicate CleanField(s: string) {
    Trimmed(s) && '|' !in s && '\n' !in s
  }

  lemma {:induction false} TrimNonEmptyKeeps(parts: seq<string>)
    requires forall i :: 0 <= i < |parts| ==> parts[i] != "" && Trimmed(parts[i])
    ensures TrimNonEmpty(parts) == parts
  {
    if |parts| > 0 {
      TrimNonEmptyKeeps(parts[1..]);
    }
  }

  /** Joining clean lines and reading them back gives the lines. */
  lemma LinesOfJoin(lines: seq<string>)
    requires forall i :: 0 <= i < |lines| ==> CleanLine(lines[i])
    ensures Lines(Join(lines, '\n')) == lines
  {
    if |lines| == 0 {
      assert Split("", '\n') == [""];
      assert TrimNonEmpty([""]) == [];
    } else {
      SplitJoin(lines, '\n');
      TrimNonEmptyKeeps(lines);
    }
  }

  /** Reading a list of parts is reading each one in turn: the kept lines stay in their order. */
  lemma {:induction false} TrimNonEmptyAppend(a: seq<string>, b: seq<string>)
    ensures TrimNonEmpty(a + b) == TrimNonEmpty(a) + TrimNonEmpty(b)
  {
    if |a| == 0 {
      assert a + b == b;
    } else {
      assert (a + b)[0] == a[0] && (a + b)[1..] == a[1..] + b;
      TrimNonEmptyAppend(a[1..], b);
    }
  }

  /** The first line of a text comes first, trimmed, unless it is blank; the lines after it follow. */
  lemma LinesOfFirstLine(first: string, rest: string)
    requires '\n' !in first
    ensures Lines(first + "\n" + rest) ==
      (if Trim(first) == "" then [] else [Trim(first)]) + Lines(rest)
  {
    var s := first + "\n" + rest;
    IndexOfFirst(first, rest, '\n');
    assert s[..|first|] == first && s[|first| + 1..] == rest;
    SplitStep(s, '\n');
    TrimNonEmptyAppend([first], Split(rest, '\n'));
  }

  /** Trimmed fields split back out of a line unchanged. */
  lemma FieldsOfJoin(parts: seq<string>)
    requires |parts| >= 1
    requires forall i :: 0 <= i < |parts| ==> CleanField(parts[i])
    ensures Fields(Join(parts, '|')) == parts
  {
    SplitJoin(parts, '|');
  }

  /** A `|`-joined line keeps the first character of its first part and the last of its last. */
  lemma {:induction false} JoinEdges(parts: seq<string>, sep: char)
    requires |parts| >= 1 && parts[0] != "" && parts[|parts| - 1] != ""
    ensures |Join(parts, sep)| > 0
    ensures Join(parts, sep)[0] == parts[0][0]
    ensures Join(parts, sep)[|Join(parts, sep)| - 1] == parts[|parts| - 1][|parts[|parts| - 1]| - 1]
  {
    if |parts| > 1 {
      var tail := parts[1..];
      assert tail[|tail| - 1] == parts[|parts| - 1];
      if tail[0] == "" && |tail| == 1 {
        assert false;
      }
      if |tail| > 1 || tail[0] != "" {
        JoinEdgesTail(tail, sep);
      }
    }
  }

  lemma {:induction false} JoinEdgesTail(parts: seq<string>, sep: char)
    requires |parts| >= 1 && parts[|parts| - 1] != ""
    ensures |Join(parts, sep)| > 0
    ensures Join(parts, sep)[|Join(parts, sep)| - 1] == parts[|parts| - 1][|parts[|parts| - 1]| - 1]
  {
    if |parts| > 1 {
      var tail := parts[1..];
      assert tail[|tail| - 1] == parts[|parts| - 1];
      JoinEdgesTail(tail, sep);
    }
  }

  /** No part holds the separator or a line break: neither does the line. */
  lemma {:induction false} JoinAvoids(parts: seq<string>, sep: char, c: char)
    requires c != sep
    requires forall i :: 0 <= i < |parts| ==> c !in parts[i]
    ensures c !in Join(parts, sep)
  {
    if |parts| > 1 {
      JoinAvoids(parts[1..], sep, c);
    }
  }

  /** Clean fields, the first and last with text, join into a clean line that splits back into them. */
  lemma CleanJoin(parts: seq<string>)
    requires |parts| >= 1 && parts[0] != "" && parts[|parts| - 1] != ""
    requires forall i :: 0 <= i < |parts| ==> CleanField(parts[i])
    ensures CleanLine(Join(parts, '|'))
    ensures Fields(Join(parts, '|')) == parts
  {
    assert Trimmed(parts[0]) && Trimmed(parts[|parts| - 1]);
    FieldsOfJoin(parts);
    JoinEdges(parts, '|');
    JoinAvoids(parts, '|', '\n');
  }

  predicate CleanMedication(m: Medication) {
    && m.drugName != "" && CleanField(m.drugName)
    && (m.dosage.Some? ==> m.dosage.value != "" && CleanField(m.dosage.value))
  }

  /** A clean medication's line is a clean line, and it reads back as the medication. */
  lemma MedicationRoundTrip(m: Medication)
    requires CleanMedication(m)
    ensures CleanLine(MedicationLine(m))
    ensures ParseMedication(MedicationLine(m)) == m
  {
    var parts := if m.dosage.Some? then [m.drugName, m.dosage.value] else [m.drugName];
    assert Join(parts, '|') == MedicationLine(m);
    CleanJoin(parts);
  }

  predicate CleanLab(l: Lab) {
    && l.testName != "" && CleanField(l.testName)
    && (l.unit.Some? ==> l.unit.value != "" && CleanField(l.unit.value))
  }

  lemma IntTextIsClean(i: int)
    ensures IntToString(i) != "" && CleanField(IntToString(i))
    ensures NumberValue(IntToString(i)) == Some(i)
  {
    var t := IntToString(i);
    IntTextShape(i);
    assert forall k :: 0 <= k < |t| ==> t[k] != '|' && t[k] != '\n';
    NumberOfIntToString(i);
  }

  /** The parts of a clean lab's line are clean fields and the first and last have text. */
  lemma LabPartsClean(l: Lab)
    requires CleanLab(l)
    ensures forall i :: 0 <= i < |LabParts(l)| ==> CleanField(LabParts(l)[i])
    ensures LabParts(l)[0] != "" && LabParts(l)[|LabParts(l)| - 1] != ""
  {
    var parts := LabParts(l);
    if l.resultValue.Some? {
      IntTextIsClean(l.resultValue.value);
    }
    assert CleanField("");
    forall i | 0 <= i < |parts|
      ensures CleanField(parts[i])
    {
      if i == 1 && l.resultValue.Some? {
        assert parts[1] == IntToString(l.resultValue.value);
      }
    }
  }

  /** A clean lab's line is a clean line that splits back into its parts. */
  lemma LabLineClean(l: Lab)
    requires CleanLab(l)
    ensures CleanLine(LabLine(l))
    ensures Fields(LabLine(l)) == LabParts(l)
  {
    LabPartsClean(l);
    CleanJoin(LabParts(l));
  }

  /** A clean lab's line reads back as the lab, value and unit in place. */
  lemma LabRoundTrip(l: Lab)
    requires CleanLab(l)
    ensures CleanLine(LabLine(l))
    ensures ParseLab(LabLine(l)) == l
  {
    LabLineClean(l);
    var parts := LabParts(l);
    if l.resultValue.Some? {
      IntTextIsClean(l.resultValue.value);
      assert Given(FieldAt(parts, 1));
    }
    assert GivenField(parts, 2) == l.unit;
  }

  lemma MedicationsRoundTrip(ms: seq<Medication>)
    requires forall i :: 0 <= i < |ms| ==> CleanMedication(ms[i])
    ensures ParseMedications(MedicationsText(ms)) == ms
  {
    var lines := seq(|ms|, i requires 0 <= i < |ms| => MedicationLine(ms[i]));
    forall i | 0 <= i < |ms|
      ensures CleanLine(lines[i]) && ParseMedication(lines[i]) == ms[i]
    {
      MedicationRoundTrip(ms[i]);
    }
    LinesOfJoin(lines);
  }

  lemma LabsRoundTrip(ls: seq<Lab>)
    requires forall i :: 0 <= i < |ls| ==> CleanLab(ls[i])
    ensures ParseLabs(LabsText(ls)) == ls
  {
    var lines := seq(|ls|, i requires 0 <= i < |ls| => LabLine(ls[i]));
    forall i | 0 <= i < |ls|
      ensures CleanLine(lines[i]) && ParseLab(lines[i]) == ls[i]
    {
      LabRoundTrip(ls[i]);
    }
    LinesOfJoin(lines);
  }

  predicate CleanVital(o: Option<string>) {
    o.Some? ==> o.value != "" && Trimmed(o.value)
  }

  /** An observation that `buildObservation` reproduces: a trimmed note and clean, not all empty. */
  predicate CleanObservation(o: Observation) {
    && o.noteText.Some? && Trimmed(o.noteText.value)
    && CleanVital(o.bpSystolic) && CleanVital(o.bpDiastolic) && CleanVital(o.heartRate)
    && CleanVital(o.temperatureC) && CleanVital(o.spo2) && CleanVital(o.bmi)
    && (|| o.noteText.value != "" || o.bpSystolic.Some? || o.bpDiastolic.Some? || o.heartRate.Some?
        || o.temperatureC.Some? || o.spo2.Some? || o.bmi.Some?)
  }

  lemma VitalRoundTrip(o: Option<string>)
    requires CleanVital(o)
    ensures NonBlank(OptText(o)) == o
  {
  }

  predicate CleanValues(v: VisitValues) {
    && (v.reason.Some? ==> v.reason.value != "" && Trimmed(v.reason.value))
    && (forall i :: 0 <= i < |v.diagnoses| ==> CleanLine(v.diagnoses[i]))
    && (forall i :: 0 <= i < |v.medications| ==> CleanMedication(v.medications[i]))
    && (forall i :: 0 <= i < |v.labs| ==> CleanLab(v.labs[i]))
    && (v.observation.Some? ==> CleanObservation(v.observation.value))
  }

  /** Observation fields written into the form are rebuilt as they were. */
  lemma ObservationRoundTrip(v: VisitValues)
    requires v.observation.Some? ==> CleanObservation(v.observation.value)
    ensures BuildObservation(ToState(v)) == v.observation
  {
    var s := ToState(v);
    if v.observation.Some? {
      var o := v.observation.value;
      VitalRoundTrip(o.bpSystolic);
      VitalRoundTrip(o.bpDiastolic);
      VitalRoundTrip(o.heartRate);
      VitalRoundTrip(o.temperatureC);
      VitalRoundTrip(o.spo2);
      VitalRoundTrip(o.bmi);
      assert Trim(s.obsNote) == o.noteText.value;
    }
  }

  /** Writing clean values into the form and submitting it unchanged gives the same values back. */
  lemma FormRoundTrip(v: VisitValues)
    requires CleanValues(v)
    ensures HandleSubmit(ToState(v)) == v
  {
    var s := ToState(v);
    assert NonBlank(s.reason) == v.reason;
    LinesOfJoin(v.diagnoses);
    MedicationsRoundTrip(v.medications);
    LabsRoundTrip(v.labs);
    ObservationRoundTrip(v);
    assert HandleSubmit(s) == VisitValues(v.visitDate, v.doctorId, v.department, v.reason, v.diagnoses,
                                          v.medications, v.labs, v.observation);
  }

  /**
   * A lab with a unit but no value is written `test||unit`, so the unit is
   * read back as the unit and not as a value.
   */
  lemma UnitWithoutValueStaysThird()
    ensures LabLine(Lab("Glucose", None, Some("mg/dL"))) == "Glucose||mg/dL"
    ensures ParseLab("Glucose||mg/dL") == Lab("Glucose", None, Some("mg/dL"))
  {
    var l := Lab("Glucose", None, Some("mg/dL"));
    assert LabParts(l) == ["Glucose", "", "mg/dL"];
    assert Join(["Glucose", "", "mg/dL"], '|') == "Glucose||mg/dL";
    GlucoseLabClean();
    LabRoundTrip(l);
  }

  lemma GlucoseLabClean()
    ensures CleanLab(Lab("Glucose", None, Some("mg/dL")))
  {
  }
}
