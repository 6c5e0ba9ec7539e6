/**
 * The invoice scanner (src/services/invoiceScanner.ts): it sends an invoice
 * image to a language model, cuts the JSON object out of the reply, and
 * normalises what it finds.  The model's reply, the API key and `JSON.parse`
 * are parameters; the number and date fields are not part of this model.
 */
module InvoiceScanner {
  import opened Wrappers
  import opened Strings

  /** A JavaScript value as `JSON.parse` produces it, plus `undefined` for a missing property. */
  datatype JsValue =
    | Undefined
    | Null
    | Bool(b: bool)
    | Num(n: int)
    | Str(s: string)
    | Arr(items: seq<JsValue>)
    | Obj(fields: map<string, JsValue>)

  /** `InvoiceScanError`: a message and an optional HTTP status. */
  datatype ScanError = ScanError(message: string, statusCode: Option<int>)

  const EmptyFileMessage := "Invoice file is empty."
  const NoKeyMessage := "OpenAI API key is not configured. Set OPENAI_API_KEY to enable invoice scanning."
  const NoBracesMessage := "Unable to parse invoice response from OpenAI."
  const InvalidJsonMessage := "Invoice parsing returned invalid JSON data."
  const EmptyReplyMessage := "OpenAI returned an empty response for the invoice."
  const FallbackMessage := "Unable to analyze the invoice automatically. Please enter details manually."
  const UnspecifiedWarning := "Unspecified issue detected during parsing."

  /** `value.prop` on a parsed value: `undefined` unless it is an object holding the key. */
  function Get(v: JsValue, key: string): (r: JsValue)
    ensures r != Undefined ==> v.Obj? && key in v.fields && r == v.fields[key]
  {
    if v.Obj? && key in v.fields then v.fields[key] else Undefined
  }

  // ---------------------------------------------------------------------
  // normalizeString
  // ---------------------------------------------------------------------

  /** `normalizeString(value)`: a string with something in it, trimmed; anything else is null. */
  function NormalizeString(v: JsValue): (r: Option<string>)
    ensures r.Some? <==> v.Str? && Trim(v.s) != ""
    ensures r.Some? ==> r.value == Trim(v.s) && r.value != "" && Trimmed(r.value)
  {
    if v.Str? && Trim(v.s) != "" then Some(Trim(v.s)) else None
  }

  /** Normalising a normalised string gives it back. */
  lemma NormalizeStringIdempotent(v: JsValue)
    ensures NormalizeString(v).Some? ==> NormalizeString(Str(NormalizeString(v).value)) == NormalizeString(v)
  {
  }

  // ---------------------------------------------------------------------
  // ensureJsonObject
  // ---------------------------------------------------------------------

  /**
   * The brace window of `ensureJsonObject`: from the first `{` to the last
   * `}` inclusive; 502 when either is missing or they are out of order.
   */
  function BraceWindow(content: string): (r: Result<string, ScanError>)
    ensures r.Failure? <==>
      ('{' !in content || '}' !in content || LastIndexOf(content, '}') <= IndexOf(content, '{'))
    ensures r.Failure? ==> r.error == ScanError(NoBracesMessage, Some(502))
    ensures r.Success? ==> r.value == content[IndexOf(content, '{')..LastIndexOf(content, '}') + 1]
    ensures r.Success? ==> |r.value| >= 2 && r.value[0] == '{' && r.value[|r.value| - 1] == '}'
  {
    var first := IndexOf(content, '{');
    var last := LastIndexOf(content, '}');
    if first == -1 || last == -1 || last <= first then Failure(ScanError(NoBracesMessage, Some(502)))
    else Success(content[first..last + 1])
  }

  /** `ensureJsonObject(content)`, with `JSON.parse` a parameter; its failure is another 502. */
  function EnsureJsonObject(content: string, jsonParse: string -> Option<JsValue>): (r: Result<JsValue, ScanError>)
    ensures BraceWindow(content).Failure? ==> r == Failure(BraceWindow(content).error)
    ensures BraceWindow(content).Success? && jsonParse(BraceWindow(content).value).None? ==>
      r == Failure(ScanError(InvalidJsonMessage, Some(502)))
    ensures r.Success? ==> r == Success(jsonParse(BraceWindow(content).value).value)
  {
    match BraceWindow(content)
    case Failure(e) => Failure(e)
    case Success(slice) =>
      match jsonParse(slice)
      case None => Failure(ScanError(InvalidJsonMessage, Some(502)))
      case Some(v) => Success(v)
  }

  /** A character found at `k` and nowhere before it is the first occurrence. */
  lemma IndexOfAt(c: string, ch: char, k: int)
    requires 0 <= k < |c| && c[k] == ch && ch !in c[..k]
    ensures IndexOf(c, ch) == k
  {
    assert forall j :: 0 <= j < k ==> c[..k][j] == c[j];
    assert forall j :: k < j < |c| ==> c[..j][k] == ch;
  }

  /** A character found at `k` and nowhere after it is the last occurrence. */
  lemma LastIndexOfAt(c: string, ch: char, k: int)
    requires 0 <= k < |c| && c[k] == ch && ch !in c[k + 1..]
    ensures LastIndexOf(c, ch) == k
  {
    assert forall j :: k < j < |c| ==> c[k + 1..][j - k - 1] == c[j];
  }

  /** Text before the first `{` and after the last `}` is cut away, whatever the braces enclose. */
  lemma WindowStripsChatter(prefix: string, body: string, suffix: string)
    requires '{' !in prefix && '}' !in suffix
    ensures BraceWindow(prefix + "{" + body + "}" + suffix) == Success("{" + body + "}")
  {
    var c := prefix + "{" + body + "}" + suffix;
    var last := |prefix| + |body| + 1;
    WindowPieces(prefix, body, suffix);
    IndexOfAt(c, '{', |prefix|);
    LastIndexOfAt(c, '}', last);
  }

  lemma WindowPieces(prefix: string, body: string, suffix: string)
    ensures var c := prefix + "{" + body + "}" + suffix;
      var last := |prefix| + |body| + 1;
      && c[..|prefix|] == prefix && c[|prefix|] == '{'
      && c[last] == '}' && c[last + 1..] == suffix
      && c[|prefix|..last + 1] == "{" + body + "}"
  {
    var c := prefix + "{" + body + "}" + suffix;
    var last := |prefix| + |body| + 1;
    assert c[..|prefix|] == prefix;
    assert c[last + 1..] == suffix;
    assert c[|prefix|..last + 1] == "{" + body + "}";
  }

  // ---------------------------------------------------------------------
  // scanInvoice
  // ---------------------------------------------------------------------

  /** One element of a reply given as an array of parts. */
  datatype Part = TextPart(text: string) | StringPart(value: string) | OtherPart

  /** The model's message content. */
  datatype Content = Text(text: string) | Parts(parts: seq<Part>)

  /** What the completion call did: threw, or answered with a content that may be missing. */
  datatype Reply = CallFailed | Answered(content: Option<Content>)

  datatype Metadata = Metadata(
    vendor: Option<string>,
    invoiceNumber: Option<string>,
    currency: Option<string>,
    destination: Option<string>)

  datatype LineItem = LineItem(
    brandName: Option<string>,
    genericName: Option<string>,
    form: Option<string>,
    strength: Option<string>,
    packageDescription: Option<string>,
    batchNumber: Option<string>,
    notes: Option<string>,
    suggestedLocation: Option<string>)

  datatype ScanResult = ScanResult(
    metadata: Metadata,
    lineItems: seq<LineItem>,
    warnings: seq<string>,
    rawText: Option<string>)

  /**
   * The text of a parts array.  `'text' in part` throws for a string part,
   * so such a reply fails (`None`) instead of contributing its string.
   */
  function PartsText(parts: seq<Part>): (r: Option<string>)
    ensures r.None? <==> exists i :: 0 <= i < |parts| && parts[i].StringPart?
  {
    if |parts| == 0 then Some("")
    else
      var rest := PartsText(parts[1..]);
      assert forall i :: 1 <= i < |parts| ==> parts[i] == parts[1..][i - 1];
      match parts[0]
      case StringPart(_) => None
      case TextPart(t) => if rest.None? then None else Some(t + rest.value)
      case OtherPart => rest
  }

  /** A text part contributes its text and any other object part contributes nothing. */
  lemma PartsTextSingle(t: string)
    ensures PartsText([TextPart(t)]) == Some(t)
    ensures PartsText([OtherPart]) == Some("")
  {
    assert [TextPart(t)][1..] == [] && [OtherPart][1..] == [];
    assert t + "" == t;
  }

  /** The parts are read in order: the text of two runs of parts is the two texts joined. */
  lemma {:induction false} PartsTextAppend(a: seq<Part>, b: seq<Part>)
    requires PartsText(a).Some? && PartsText(b).Some?
    ensures PartsText(a + b) == Some(PartsText(a).value + PartsText(b).value)
  {
    if |a| == 0 {
      assert a + b == b;
      assert "" + PartsText(b).value == PartsText(b).value;
    } else {
      assert (a + b)[0] == a[0] && (a + b)[1..] == a[1..] + b;
      assert PartsText(a[1..]).Some?;
      PartsTextAppend(a[1..], b);
      var x, y := PartsText(a[1..]).value, PartsText(b).value;
      if a[0].TextPart? {
        assert a[0].text + (x + y) == (a[0].text + x) + y;
      }
    }
  }

  /** The invoice metadata, a missing or null object read as empty, with each string field normalised. */
  function NormalizeMetadata(parsed: JsValue): (m: Metadata)
    ensures m.vendor == NormalizeString(Get(Get(parsed, "metadata"), "vendor"))
    ensures m.invoiceNumber == NormalizeString(Get(Get(parsed, "metadata"), "invoiceNumber"))
    ensures m.currency == NormalizeString(Get(Get(parsed, "metadata"), "currency"))
    ensures m.destination == NormalizeString(Get(Get(parsed, "metadata"), "destination"))
  {
    var meta := Get(parsed, "metadata");
    var source := if meta.Undefined? || meta.Null? then Obj(map[]) else meta;
    Metadata(NormalizeString(Get(source, "vendor")), NormalizeString(Get(source, "invoiceNumber")),
             NormalizeString(Get(source, "currency")), NormalizeString(Get(source, "destination")))
  }

  /** One line item; reading a property of `null` throws, so a null item fails. */
  function NormalizeLineItem(item: JsValue): (r: Option<LineItem>)
    ensures r.None? <==> item.Null?
    ensures r.Some? ==> r.value.brandName == NormalizeString(Get(item, "brandName"))
    ensures r.Some? ==> r.value.genericName == NormalizeString(Get(item, "genericName"))
    ensures r.Some? ==> r.value.form == NormalizeString(Get(item, "form"))
    ensures r.Some? ==> r.value.strength == NormalizeString(Get(item, "strength"))
    ensures r.Some? ==> r.value.packageDescription == NormalizeString(Get(item, "packageDescription"))
    ensures r.Some? ==> r.value.batchNumber == NormalizeString(Get(item, "batchNumber"))
    ensures r.Some? ==> r.value.notes == NormalizeString(Get(item, "notes"))
    ensures r.Some? ==> r.value.suggestedLocation == NormalizeString(Get(item, "suggestedLocation"))
  {
    if item.Null? then None
    else Some(LineItem(
      NormalizeString(Get(item, "brandName")), NormalizeString(Get(item, "genericName")),
      NormalizeString(Get(item, "form")), NormalizeString(Get(item, "strength")),
      NormalizeString(Get(item, "packageDescription")), NormalizeString(Get(item, "batchNumber")),
      NormalizeString(Get(item, "notes")), NormalizeString(Get(item, "suggestedLocation"))))
  }

  /** The line items of the parsed reply, or `None` when one of them is null. */
  function NormalizeLineItems(items: seq<JsValue>): (r: Option<seq<LineItem>>)
    ensures r.None? <==> exists i :: 0 <= i < |items| && items[i].Null?
    ensures r.Some? ==> |r.value| == |items|
    ensures r.Some? ==> forall i :: 0 <= i < |items| ==> Some(r.value[i]) == NormalizeLineItem(items[i])
  {
    if |items| == 0 then Some([])
    else
      var rest := NormalizeLineItems(items[1..]);
      assert forall i :: 1 <= i < |items| ==> items[i] == items[1..][i - 1];
      match NormalizeLineItem(items[0])
      case None => None
      case Some(first) => if rest.None? then None else Some([first] + rest.value)
  }

  /** Each raw warning normalised, with a fixed text standing in for one that is not a usable string. */
  function NormalizeWarnings(raw: seq<JsValue>): (r: seq<string>)
    ensures |r| == |raw|
    ensures forall i :: 0 <= i < |raw| ==> r[i] == NormalizeString(raw[i]).GetOr(UnspecifiedWarning)
  {
    seq(|raw|, i requires 0 <= i < |raw| => NormalizeString(raw[i]).GetOr(UnspecifiedWarning))
  }

  /** A property read as an array, or the empty array when it is anything else. */
  function ArrayOrEmpty(v: JsValue): seq<JsValue> {
    if v.Arr? then v.items else []
  }

  /** The reply text once it is known: the brace window parsed, then every part normalised. */
  function InterpretText(text: string, jsonParse: string -> Option<JsValue>): (r: Result<ScanResult, ScanError>)
    ensures r.Failure? ==> r.error.statusCode == Some(502)
    ensures EnsureJsonObject(text, jsonParse).Failure? ==> r == Failure(EnsureJsonObject(text, jsonParse).error)
    ensures r.Success? ==> EnsureJsonObject(text, jsonParse).Success?
    ensures r.Success? ==>
      |r.value.warnings| == |ArrayOrEmpty(Get(EnsureJsonObject(text, jsonParse).value, "warnings"))|
    ensures r.Success? ==>
      |r.value.lineItems| == |ArrayOrEmpty(Get(EnsureJsonObject(text, jsonParse).value, "lineItems"))|
    ensures r.Success? ==> forall i :: 0 <= i < |r.value.warnings| ==> r.value.warnings[i] != ""
    ensures r.Failure? <==>
      || EnsureJsonObject(text, jsonParse).Failure?
      || NormalizeLineItems(ArrayOrEmpty(Get(EnsureJsonObject(text, jsonParse).value, "lineItems"))).None?
    ensures EnsureJsonObject(text, jsonParse).Success? && r.Failure? ==>
      r.error == ScanError(FallbackMessage, Some(502))
    ensures r.Success? ==>
      var parsed := EnsureJsonObject(text, jsonParse).value;
      && r.value.metadata == NormalizeMetadata(parsed)
      && r.value.lineItems == NormalizeLineItems(ArrayOrEmpty(Get(parsed, "lineItems"))).value
      && r.value.warnings == NormalizeWarnings(ArrayOrEmpty(Get(parsed, "warnings")))
      && r.value.rawText == NormalizeString(Get(parsed, "rawText"))
  {
    match EnsureJsonObject(text, jsonParse)
    case Failure(e) => Failure(e)
    case Success(parsed) =>
      var items := NormalizeLineItems(ArrayOrEmpty(Get(parsed, "lineItems")));
      if items.None? then Failure(ScanError(FallbackMessage, Some(502)))
      else Success(ScanResult(NormalizeMetadata(parsed), items.value,
                              NormalizeWarnings(ArrayOrEmpty(Get(parsed, "warnings"))),
                              NormalizeString(Get(parsed, "rawText"))))
  }

  /** The text of a message, or `None` when reading it throws. */
  function ContentText(c: Content): (r: Option<string>)
    ensures c.Text? ==> r == Some(c.text)
    ensures c.Parts? ==> r == PartsText(c.parts)
  {
    match c
    case Text(t) => Some(t)
    case Parts(parts) => PartsText(parts)
  }

  /** The part of `scanInvoice` inside its `try`, after the completion call. */
  function Interpret(content: Option<Content>, jsonParse: string -> Option<JsValue>): (r: Result<ScanResult, ScanError>)
    ensures content.None? || content == Some(Text("")) ==> r == Failure(ScanError(EmptyReplyMessage, Some(502)))
    ensures content.Some? && content != Some(Text("")) && ContentText(content.value).None? ==>
      r == Failure(ScanError(FallbackMessage, Some(502)))
    ensures content.Some? && content != Some(Text("")) && ContentText(content.value).Some? ==>
      r == InterpretText(ContentText(content.value).value, jsonParse)
    ensures r.Failure? ==> r.error.statusCode == Some(502)
  {
    match content
    case None => Failure(ScanError(EmptyReplyMessage, Some(502)))
    case Some(c) =>
      if c == Text("") then Failure(ScanError(EmptyReplyMessage, Some(502)))
      else match ContentText(c)
        case None => Failure(ScanError(FallbackMessage, Some(502)))
        case Some(t) => InterpretText(t, jsonParse)
  }

  /** `scanInvoice(buffer)`, given the API key from the environment and what the model answered. */
  function ScanInvoice(bufferLength: nat, apiKey: Option<string>, reply: Reply,
                       jsonParse: string -> Option<JsValue>): (r: Result<ScanResult, ScanError>)
    ensures bufferLength == 0 <==> r == Failure(ScanError(EmptyFileMessage, Some(400)))
    ensures bufferLength > 0 && (apiKey.None? || apiKey == Some("")) ==>
      r == Failure(ScanError(NoKeyMessage, Some(503)))
    ensures bufferLength > 0 && apiKey.Some? && apiKey != Some("") && reply.CallFailed? ==>
      r == Failure(ScanError(FallbackMessage, Some(502)))
    ensures r.Failure? ==> r.error.statusCode.Some?
    ensures r.Failure? && bufferLength > 0 && apiKey.Some? && apiKey != Some("") ==>
      r.error.statusCode == Some(502)
  {
    if bufferLength == 0 then Failure(ScanError(EmptyFileMessage, Some(400)))
    else if apiKey.None? || apiKey == Some("") then Failure(ScanError(NoKeyMessage, Some(503)))
    else match reply
      case CallFailed => Failure(ScanError(FallbackMessage, Some(502)))
      case Answered(content) => Interpret(content, jsonParse)
  }

  /** Without string parts, the parts array always yields a text. */
  lemma TextPartsReadable(parts: seq<Part>)
    requires forall i :: 0 <= i < |parts| ==> !parts[i].StringPart?
    ensures PartsText(parts).Some?
  {
  }

  /** A reply given as parts is read as the joined text of its text parts. */
  lemma PartsJoinLikeText(parts: seq<Part>, t: string, jsonParse: string -> Option<JsValue>)
    requires PartsText(parts) == Some(t) && t != ""
    ensures Interpret(Some(Parts(parts)), jsonParse) == Interpret(Some(Text(t)), jsonParse)
  {
    assert Interpret(Some(Parts(parts)), jsonParse) == InterpretText(t, jsonParse);
  }

  /** An empty parts array is truthy, so it reaches the brace check instead of the empty-reply error. */
  lemma EmptyPartsReachBraceCheck(jsonParse: string -> Option<JsValue>)
    ensures Interpret(Some(Parts([])), jsonParse) == Failure(ScanError(NoBracesMessage, Some(502)))
    ensures Interpret(Some(Text("")), jsonParse) == Failure(ScanError(EmptyReplyMessage, Some(502)))
  {
  }

  /** One string part is enough to turn a well-formed reply into the generic 502. */
  lemma StringPartFails(jsonParse: string -> Option<JsValue>)
    ensures Interpret(Some(Parts([TextPart("{}"), StringPart("x")])), jsonParse)
      == Failure(ScanError(FallbackMessage, Some(502)))
  {
    assert PartsText([TextPart("{}"), StringPart("x")]).None?;
  }
}
