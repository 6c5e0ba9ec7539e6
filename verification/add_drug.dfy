/**
 * The add-medication page (client/src/pages/AddDrug.tsx): the form is
 * trimmed and checked before a drug is created, optional fields are sent
 * only when non-blank, and a success clears the form.  Messages are the
 * untranslated texts.
 */
module AddDrug {
  import opened Wrappers
  import opened Strings
  import Pharmacy
  import PharmacyRoutes

  datatype DrugForm = DrugForm(
    name: string,
    genericName: string,
    form: string,
    strength: string,
    routeDefault: string,
    isActive: bool)

  datatype FeedbackKind = Succeeded | Errored

  datatype Feedback = Feedback(kind: FeedbackKind, message: string)

  datatype Page = Page(form: DrugForm, saving: bool, feedback: Option<Feedback>, created: Option<Pharmacy.Drug>)

  const EmptyForm := DrugForm("", "", "", "", "", true)

  const InitialPage := Page(EmptyForm, false, None, None)

  const RequiredMessage := "Name, form, and strength are required to add a medication."
  const AddedMessage := "Medication added successfully."
  const FallbackMessage := "Unable to add medication. Please try again."

  /** The body of the create request built from a form whose required fields are present. */
  function Payload(f: DrugForm): (b: PharmacyRoutes.DrugBody)
    requires Trim(f.name) != "" && Trim(f.form) != "" && Trim(f.strength) != ""
    ensures PharmacyRoutes.ValidDrugBody(b)
    ensures b.drugId.None? && b.isActive == Some(f.isActive)
    ensures b.name == Trim(f.name) && b.form == Trim(f.form) && b.strength == Trim(f.strength)
    ensures b.genericName == NonBlank(f.genericName) && b.routeDefault == NonBlank(f.routeDefault)
  {
    PharmacyRoutes.DrugBody(None, Trim(f.name), NonBlank(f.genericName), Trim(f.form), Trim(f.strength),
                            NonBlank(f.routeDefault), Some(f.isActive))
  }

  /** What a submit does before the request returns. */
  datatype SubmitStart =
    | Ignored
    | Invalid(page: Page)
    | Sending(payload: PharmacyRoutes.DrugBody, page: Page)

  /** `handleSubmit` up to the request. */
  function Submit(p: Page): (r: SubmitStart)
    ensures p.saving <==> r.Ignored?
    ensures r.Invalid? <==>
      !p.saving && (Trim(p.form.name) == "" || Trim(p.form.form) == "" || Trim(p.form.strength) == "")
    ensures r.Invalid? ==> r.page == p.(feedback := Some(Feedback(Errored, RequiredMessage)), created := None)
    ensures r.Sending? ==> r.page == p.(saving := true, feedback := None, created := None)
    ensures r.Sending? ==> PharmacyRoutes.ValidDrugBody(r.payload) && r.payload.isActive == Some(p.form.isActive)
  {
    if p.saving then Ignored
    else
      var cleared := p.(feedback := None, created := None);
      var f := p.form;
      if Trim(f.name) == "" || Trim(f.form) == "" || Trim(f.strength) == "" then
        Invalid(cleared.(feedback := Some(Feedback(Errored, RequiredMessage))))
      else Sending(Payload(f), cleared.(saving := true))
  }

  /** The answer to the create request. */
  datatype CreateResponse = Created(drug: Pharmacy.Drug) | Failed(error: Option<string>)

  /** The page once the request has returned: cleared on success, the form kept on failure. */
  function Finish(p: Page, response: CreateResponse): (r: Page)
    ensures !r.saving
    ensures response.Created? ==> r == Page(EmptyForm, false, Some(Feedback(Succeeded, AddedMessage)), Some(response.drug))
    ensures response.Failed? ==> r.form == p.form && r.created == p.created
    ensures response.Failed? ==> r.feedback == Some(Feedback(Errored, response.error.GetOr(FallbackMessage)))
  {
    match response
    case Created(drug) => Page(EmptyForm, false, Some(Feedback(Succeeded, AddedMessage)), Some(drug))
    case Failed(error) => p.(saving := false, feedback := Some(Feedback(Errored, error.GetOr(FallbackMessage))))
  }

  // ---------------------------------------------------------------------
  // Properties
  // ---------------------------------------------------------------------

  /** The form a request body would be typed into. */
  function FormOf(b: PharmacyRoutes.DrugBody): DrugForm {
    DrugForm(b.name, b.genericName.GetOr(""), b.form, b.strength, b.routeDefault.GetOr(""), b.isActive.GetOr(true))
  }

  /** A body the page can produce: trimmed required fields, optional ones present only when non-blank. */
  predicate Producible(b: PharmacyRoutes.DrugBody) {
    && b.drugId.None? && b.isActive.Some?
    && b.name != "" && Trimmed(b.name) && b.form != "" && Trimmed(b.form)
    && b.strength != "" && Trimmed(b.strength)
    && (b.genericName.Some? ==> b.genericName.value != "" && Trimmed(b.genericName.value))
    && (b.routeDefault.Some? ==> b.routeDefault.value != "" && Trimmed(b.routeDefault.value))
  }

  /** Every body the page sends is producible. */
  lemma PayloadProducible(f: DrugForm)
    requires Trim(f.name) != "" && Trim(f.form) != "" && Trim(f.strength) != ""
    ensures Producible(Payload(f))
  {
  }

  /** Typing a producible body into the form sends exactly that body. */
  lemma PayloadRoundTrip(b: PharmacyRoutes.DrugBody)
    requires Producible(b)
    ensures Trim(FormOf(b).name) != "" && Trim(FormOf(b).form) != "" && Trim(FormOf(b).strength) != ""
    ensures Payload(FormOf(b)) == b
  {
    FieldsReadBack(b);
  }

  /** The trimmed fields of a producible body are the body's own. */
  lemma FieldsReadBack(b: PharmacyRoutes.DrugBody)
    requires Producible(b)
    ensures Trim(b.name) == b.name && Trim(b.form) == b.form && Trim(b.strength) == b.strength
    ensures NonBlank(b.genericName.GetOr("")) == b.genericName
    ensures NonBlank(b.routeDefault.GetOr("")) == b.routeDefault
  {
  }

  /** Padding the fields with spaces does not change what is sent. */
  lemma PaddingIgnored(f: DrugForm)
    requires Trim(f.name) != "" && Trim(f.form) != "" && Trim(f.strength) != ""
    ensures var g := f.(name := Trim(f.name), form := Trim(f.form), strength := Trim(f.strength),
                        genericName := Trim(f.genericName), routeDefault := Trim(f.routeDefault));
      Payload(g) == Payload(f)
  {
    TrimIdempotent(f.name);
    TrimIdempotent(f.form);
    TrimIdempotent(f.strength);
    TrimIdempotent(f.genericName);
    TrimIdempotent(f.routeDefault);
  }

  /**
   * A submit handled against the page state that the previous submit
   * produced is ignored.  This is a property of the state value only: two
   * clicks that React hands the same stale state are not covered.
   */
  lemma NoSecondRequestWhileSaving(p: Page)
    requires Submit(p).Sending?
    ensures Submit(Submit(p).page) == Ignored
  {
  }

  /** A blank form is refused. */
  lemma BlankFormRefused()
    ensures Submit(InitialPage).Invalid?
  {
    assert Trim("") == "";
  }

  /** After a success the form is blank again, so submitting it once more is refused. */
  lemma RepeatAfterSuccessRefused(p: Page, drug: Pharmacy.Drug)
    ensures Submit(Finish(p, Created(drug))).Invalid?
  {
    assert Trim("") == "";
  }

  /** A name of spaces is refused here although the route's schema would accept it. */
  lemma BlankNameRefusedByPage()
    ensures Submit(InitialPage.(form := DrugForm(" ", "", "tab", "5 mg", "", true))).Invalid?
    ensures PharmacyRoutes.ValidDrugBody(PharmacyRoutes.DrugBody(None, " ", None, "tab", "5 mg", None, None))
  {
    assert AllSpace(" ");
    PharmacyRoutes.BlankNameAccepted();
  }
}
