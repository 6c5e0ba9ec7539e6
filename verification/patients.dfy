/**
 * The patient routes (src/modules/patients/index.ts): the contact mask used
 * when a lookup is logged, the paging parameters of the name search, and the
 * 404 of a lookup by id.  `parseInt` is modelled for decimal and `0x`
 * hexadecimal digit runs.
 */
module Patients {
  import opened Wrappers
  import opened Strings

  // ---------------------------------------------------------------------
  // maskContact
  // ---------------------------------------------------------------------

  /**
   * Whether `/.(?=.{2})/` matches at position `i`: the character there and
   * the two after it all exist and none ends a line.
   */
  predicate MaskedAt(s: string, i: int) {
    && 0 <= i && i + 2 < |s|
    && !IsLineTerminator(s[i]) && !IsLineTerminator(s[i + 1]) && !IsLineTerminator(s[i + 2])
  }

  /** A contact with every character but the last two replaced by '*'. */
  function MaskText(s: string): (r: string)
    ensures |r| == |s|
    ensures forall i :: 0 <= i < |s| ==> r[i] == if MaskedAt(s, i) then '*' else s[i]
  {
    seq(|s|, i requires 0 <= i < |s| => if MaskedAt(s, i) then '*' else s[i])
  }

  /** `maskContact(contact)`: a missing or empty contact is returned as it is. */
  function MaskContact(contact: Option<string>): (r: Option<string>)
    ensures contact.None? ==> r.None?
    ensures contact.Some? ==> r == Some(MaskText(contact.value))
  {
    match contact
    case None => None
    case Some(s) => if s == "" then contact else Some(MaskText(s))
  }

  /** The mask keeps the length, and the last two characters are always kept. */
  lemma MaskKeepsTail(s: string)
    ensures |MaskText(s)| == |s|
    ensures |s| >= 2 ==> MaskText(s)[|s| - 2..] == s[|s| - 2..]
    ensures |s| <= 2 ==> MaskText(s) == s
  {
  }

  /** Without line breaks, everything but the last two characters becomes `*`. */
  lemma MaskSingleLine(s: string)
    requires forall i :: 0 <= i < |s| ==> !IsLineTerminator(s[i])
    ensures forall i :: 0 <= i < |s| - 2 ==> MaskText(s)[i] == '*'
    ensures |s| >= 2 ==> MaskText(s) == seq(|s| - 2, _ => '*') + s[|s| - 2..]
  {
    if |s| >= 2 {
      var expected := seq(|s| - 2, _ => '*') + s[|s| - 2..];
      assert forall i :: 0 <= i < |s| ==> MaskText(s)[i] == expected[i];
    }
  }

  /** A character is kept when a line break follows within two places: the mask is per line. */
  lemma MaskStopsAtLineBreaks()
    ensures MaskText("12345\n678") == "***45\n*78"
  {
    var s := "12345\n678";
    var expected := "***45\n*78";
    assert !MaskedAt(s, 3) && !MaskedAt(s, 4) && !MaskedAt(s, 5) && !MaskedAt(s, 7) && !MaskedAt(s, 8);
    assert MaskedAt(s, 0) && MaskedAt(s, 1) && MaskedAt(s, 2) && MaskedAt(s, 6);
    assert forall i :: 0 <= i < |s| ==> MaskText(s)[i] == expected[i];
  }

  /** The mask replaces only characters that are not line breaks by `*`, so masking twice masks the same places. */
  lemma MaskIdempotent(s: string)
    ensures MaskText(MaskText(s)) == MaskText(s)
  {
    var m := MaskText(s);
    assert forall i :: 0 <= i < |s| ==> (IsLineTerminator(m[i]) <==> IsLineTerminator(s[i]));
    assert forall i :: 0 <= i < |s| ==> (MaskedAt(m, i) <==> MaskedAt(s, i));
  }

  // ---------------------------------------------------------------------
  // parseInt
  // ---------------------------------------------------------------------

  /** The value of `c` as a digit in base 10 or 16, if it is one. */
  function RadixDigit(c: char, radix: nat): (r: Option<nat>)
    requires radix == 10 || radix == 16
    ensures r.Some? ==> r.value < radix
    ensures radix == 10 ==> (r.Some? <==> IsDigit(c))
    ensures radix == 10 && IsDigit(c) ==> r == Some(c as int - '0' as int)
  {
    if '0' <= c <= '9' then Some(c as int - '0' as int)
    else if radix == 16 && 'a' <= c <= 'f' then Some(c as int - 'a' as int + 10)
    else if radix == 16 && 'A' <= c <= 'F' then Some(c as int - 'A' as int + 10)
    else None
  }

  predicate AllRadixDigits(s: string, radix: nat)
    requires radix == 10 || radix == 16
  {
    forall i :: 0 <= i < |s| ==> RadixDigit(s[i], radix).Some?
  }

  /** The length of the longest prefix of `s` made of digits. */
  function DigitRun(s: string, radix: nat): (n: nat)
    requires radix == 10 || radix == 16
    ensures n <= |s| && AllRadixDigits(s[..n], radix)
    ensures n < |s| ==> RadixDigit(s[n], radix).None?
  {
    if |s| == 0 || RadixDigit(s[0], radix).None? then 0
    else
      var n := 1 + DigitRun(s[1..], radix);
      assert forall i :: 1 <= i < n ==> s[..n][i] == s[1..][..n - 1][i - 1];
      n
  }

  /** The value of a run of digits, most significant first. */
  function RunValue(s: string, radix: nat): nat
    requires radix == 10 || radix == 16
    requires AllRadixDigits(s, radix)
  {
    if |s| == 0 then 0
    else RunValue(s[..|s| - 1], radix) * radix + RadixDigit(s[|s| - 1], radix).value
  }

  /** The digits after the sign: a `0x` or `0X` prefix selects base 16; no digits is NaN. */
  function Unsigned(rest: string): (r: Option<nat>)
  {
    var hex := |rest| >= 2 && rest[0] == '0' && (rest[1] == 'x' || rest[1] == 'X');
    var body := if hex then rest[2..] else rest;
    var radix := if hex then 16 else 10;
    var n := DigitRun(body, radix);
    if n == 0 then None else Some(RunValue(body[..n], radix))
  }

  /** The text `parseInt` reads digits from: leading white space and one sign skipped. */
  function AfterSign(s: string): (u: string)
    ensures |u| <= |s|
  {
    var t := TrimStart(s);
    if |t| > 0 && (t[0] == '-' || t[0] == '+') then t[1..] else t
  }

  /**
   * `parseInt(s)`: leading white space is skipped, one sign is read, and
   * the longest run of digits after that is the value.  Trailing text after
   * the digits is ignored.  A number always starts with a decimal digit
   * (the `0` of a `0x` prefix included), and only a minus sign makes it
   * negative.
   */
  function ParseInt(s: string): (r: Option<int>)
    ensures r.Some? ==> |AfterSign(s)| > 0 && IsDigit(AfterSign(s)[0])
    ensures r.Some? && r.value < 0 ==> |TrimStart(s)| > 0 && TrimStart(s)[0] == '-'
    ensures r.Some? && r.value > 0 ==> |TrimStart(s)| > 0 && TrimStart(s)[0] != '-'
  {
    var t := TrimStart(s);
    if |t| > 0 && t[0] == '-' then
      (match Unsigned(t[1..]) case None => None case Some(m) => Some(-(m as int)))
    else if |t| > 0 && t[0] == '+' then
      (match Unsigned(t[1..]) case None => None case Some(m) => Some(m as int))
    else
      (match Unsigned(t) case None => None case Some(m) => Some(m as int))
  }

  /** Base-10 runs have the value decimal digits have. */
  lemma {:induction false} DecimalRun(s: string)
    requires AllDigits(s)
    ensures AllRadixDigits(s, 10) && RunValue(s, 10) == DigitsValue(s)
  {
    if |s| > 0 {
      DecimalRun(s[..|s| - 1]);
    }
  }

  /** A decimal run with nothing after it is read whole. */
  lemma {:induction false} WholeRun(s: string)
    requires AllDigits(s)
    ensures DigitRun(s, 10) == |s|
  {
    if |s| > 0 {
      WholeRun(s[1..]);
    }
  }

  /** `parseInt(String(n)) == n` for every integer. */
  lemma ParseIntOfIntToString(i: int)
    ensures ParseInt(IntToString(i)) == Some(i)
  {
    var s := IntToString(i);
    var digits := NatToString(if i < 0 then -i else i);
    assert TrimStart(s) == s by {
      assert !IsSpace(s[0]);
    }
    var rest := if i < 0 then s[1..] else s;
    assert rest == digits;
    WholeRun(digits);
    DecimalRun(digits);
    assert digits[..|digits|] == digits;
  }

  /** A run of decimal digits is read up to the first character that is not a digit. */
  lemma {:induction false} RunOfPrefix(d: string, tail: string)
    requires AllDigits(d)
    requires |tail| == 0 || !IsDigit(tail[0])
    ensures DigitRun(d + tail, 10) == |d|
  {
    if |d| > 0 {
      assert (d + tail)[1..] == d[1..] + tail;
      RunOfPrefix(d[1..], tail);
    }
  }

  /** A decimal run is read up to the first character that is not a digit. */
  lemma UnsignedPrefix(d: string, tail: string)
    requires |d| >= 1 && AllDigits(d)
    requires |tail| == 0 || (!IsDigit(tail[0]) && tail[0] != 'x' && tail[0] != 'X')
    ensures Unsigned(d + tail) == Some(DigitsValue(d))
  {
    var s := d + tail;
    assert |s| >= 2 ==> s[1] == if |d| >= 2 then d[1] else tail[0];
    RunOfPrefix(d, tail);
    assert s[..|d|] == d;
    DecimalRun(d);
  }

  /** Text after the digits is ignored, so `parseInt("12abc")` is 12. */
  lemma ParseIntIgnoresTail(d: string, tail: string)
    requires |d| >= 1 && AllDigits(d)
    requires |tail| == 0 || (!IsDigit(tail[0]) && tail[0] != 'x' && tail[0] != 'X')
    ensures ParseInt(d + tail) == Some(DigitsValue(d))
  {
    DigitStart(d + tail);
    UnsignedPrefix(d, tail);
  }

  /** Text starting with a digit has no white space or sign to skip. */
  lemma DigitStart(s: string)
    requires |s| > 0 && IsDigit(s[0])
    ensures TrimStart(s) == s && s[0] != '-' && s[0] != '+'
  {
  }

  lemma ParseIntStopsAtNonDigit()
    ensures ParseInt("12abc") == Some(12)
  {
    assert "12abc" == "12" + "abc";
    ParseIntIgnoresTail("12", "abc");
    assert DigitsValue("12") == 12 by {
      assert "12"[..1] == "1";
    }
  }

  /**
   * `parseInt` is NaN exactly when no digit opens the text after the white
   * space and the sign, or when a `0x` prefix has no hexadecimal digit
   * after it.
   */
  lemma ParseIntNaN(s: string)
    ensures var u := AfterSign(s);
      ParseInt(s) == None <==>
        || |u| == 0 || !IsDigit(u[0])
        || (|u| >= 2 && u[0] == '0' && (u[1] == 'x' || u[1] == 'X') && (|u| == 2 || RadixDigit(u[2], 16).None?))
  {
    var u := AfterSign(s);
    var hex := |u| >= 2 && u[0] == '0' && (u[1] == 'x' || u[1] == 'X');
    assert Unsigned(u).None? <==> DigitRun(if hex then u[2..] else u, if hex then 16 else 10) == 0;
  }

  /** "abc" and the empty string are NaN. */
  lemma ExampleParseIntNaN()
    ensures ParseInt("abc") == None
    ensures ParseInt("") == None
  {
    assert TrimStart("abc") == "abc";
  }

  // ---------------------------------------------------------------------
  // GET /patients?query=&limit=&offset=
  // ---------------------------------------------------------------------

  /** `parseInt` of an optional query parameter; an absent one reads as NaN. */
  function ParseParam(raw: Option<string>): Option<int> {
    if raw.None? then None else ParseInt(raw.value)
  }

  /** The page size of a search: the parsed limit, 20 when it is missing, zero or unreadable, and never above 50. */
  function SearchLimit(raw: Option<string>): (r: int)
    ensures r <= 50
    ensures ParseParam(raw).None? || ParseParam(raw) == Some(0) ==> r == 20
    ensures ParseParam(raw).Some? && ParseParam(raw).value != 0 ==>
      r == if ParseParam(raw).value < 50 then ParseParam(raw).value else 50
  {
    var p := ParseParam(raw);
    var requested := if p.None? || p.value == 0 then 20 else p.value;
    if requested < 50 then requested else 50
  }

  /** The offset of a search: the parsed offset, or 0 when it is missing or unreadable. */
  function SearchOffset(raw: Option<string>): (r: int)
    ensures ParseParam(raw).None? ==> r == 0
    ensures ParseParam(raw).Some? ==> r == ParseParam(raw).value
  {
    ParseParam(raw).GetOr(0)
  }

  /** What the search runs: the lower-cased term and the paging window. */
  datatype SearchPlan = SearchPlan(term: string, limit: int, offset: int)

  /** The search handler, after the schema's non-empty `query` requirement; `None` is a rejected request. */
  function PlanSearch(query: Option<string>, limit: Option<string>, offset: Option<string>): (r: Option<SearchPlan>)
    ensures r.Some? <==> query.Some? && query.value != ""
    ensures r.Some? ==> r.value.term == ToLower(query.value)
    ensures r.Some? ==> r.value.limit == SearchLimit(limit) && r.value.offset == SearchOffset(offset)
  {
    if query.None? || query.value == "" then None
    else Some(SearchPlan(ToLower(query.value), SearchLimit(limit), SearchOffset(offset)))
  }

  /** A page size the caller writes from 1 to 50 is used as written; a larger one is cut to 50. */
  lemma LimitRoundTrip(n: int)
    ensures 1 <= n <= 50 ==> SearchLimit(Some(IntToString(n))) == n
    ensures n > 50 ==> SearchLimit(Some(IntToString(n))) == 50
    ensures n < 0 ==> SearchLimit(Some(IntToString(n))) == n
    ensures SearchOffset(Some(IntToString(n))) == n
  {
    ParseIntOfIntToString(n);
  }

  /** No limit, a limit of zero, and one that is not a number all give the default page of 20. */
  lemma LimitDefaults()
    ensures SearchLimit(None) == 20
    ensures SearchLimit(Some("0")) == 20
    ensures SearchLimit(Some("abc")) == 20
    ensures SearchOffset(None) == 0
  {
    ParseIntOfIntToString(0);
    assert IntToString(0) == "0";
    ExampleParseIntNaN();
  }

  // ---------------------------------------------------------------------
  // GET /patients/:id
  // ---------------------------------------------------------------------

  datatype Patient = Patient(patientId: string, name: string, contact: Option<string>)

  /** The lookup's answer: the patient, whether the visit summary was asked for, and the masked contact it logs. */
  datatype PatientDetail = PatientDetail(patient: Patient, withSummary: bool, loggedContact: Option<string>)

  /** `GET /patients/:id`: 404 for an unknown id; `include=summary` adds the recent-visit summary. */
  function GetPatient(patients: map<string, Patient>, id: string, includeParam: Option<string>): (r: Result<PatientDetail, int>)
    ensures id !in patients <==> r == Failure(404)
    ensures r.Success? ==> r.value.patient == patients[id]
    ensures r.Success? ==> (r.value.withSummary <==> includeParam == Some("summary"))
    ensures r.Success? ==> r.value.loggedContact == MaskContact(patients[id].contact)
  {
    if id !in patients then Failure(404)
    else
      var p := patients[id];
      Success(PatientDetail(p, includeParam == Some("summary"), MaskContact(p.contact)))
  }
}
