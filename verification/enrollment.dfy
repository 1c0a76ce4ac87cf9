/** The enrollment wizard page (src/pages/Enrollment.tsx): a three-step machine — choose the
    applicant kind, fill in the personal or company data, upload the documents — over one
    record of everything entered so far, which going back never loses. */
module Enrollment {
  import opened Common
  import DocumentUpload
  import Api

  /** Everything entered so far (`formData`). Optional properties are `None` until a form
      sets them. */
  datatype FormData = FormData(
    userType: Option<UserKind>, nombre: string, email: string, celular: string,
    razonSocial: Option<string>, rfc: Option<string>, representanteLegal: Option<string>,
    webhookUrl: Option<string>, websiteUrl: Option<string>, fixedIp: Option<string>,
    documents: DocumentUpload.Documents)

  /** What the personal form hands over. */
  datatype PersonalData = PersonalData(nombre: string, email: string, celular: string,
                                       webhookUrl: Option<string>, websiteUrl: Option<string>, fixedIp: Option<string>)

  /** What the company form hands over: its five fields, plus the URLs and IP it was given
      as initial data and passes back untouched. */
  datatype CompanyData = CompanyData(razonSocial: string, rfc: string, representanteLegal: string,
                                     email: string, celular: string,
                                     webhookUrl: Option<string>, websiteUrl: Option<string>, fixedIp: Option<string>)

  datatype Wizard = Wizard(step: int, data: FormData)

  const Start := Wizard(1, FormData(None, "", "", "", None, None, None, None, None, None, DocumentUpload.NoDocuments))

  // ---------------------------------------------------------------------------
  // Handlers
  // ---------------------------------------------------------------------------

  /** `handleUserTypeSelect`: records the kind and moves to the data step. */
  function SelectUserType(w: Wizard, k: UserKind): (r: Wizard)
    ensures r.step == 2 && r.data.userType == Some(k)
    ensures r.data.(userType := w.data.userType) == w.data
  {
    Wizard(2, w.data.(userType := Some(k)))
  }

  /** `handlePersonalInfoSubmit`: merges the six fields and moves to the documents. */
  function PersonalInfoSubmit(w: Wizard, p: PersonalData): (r: Wizard)
    ensures r.step == 3
    ensures r.data.nombre == p.nombre && r.data.email == p.email && r.data.celular == p.celular
    ensures r.data.webhookUrl == p.webhookUrl && r.data.websiteUrl == p.websiteUrl && r.data.fixedIp == p.fixedIp
    ensures r.data.userType == w.data.userType && r.data.documents == w.data.documents
    ensures r.data.razonSocial == w.data.razonSocial && r.data.rfc == w.data.rfc
    ensures r.data.representanteLegal == w.data.representanteLegal
  {
    Wizard(3, w.data.(nombre := p.nombre, email := p.email, celular := p.celular,
                      webhookUrl := p.webhookUrl, websiteUrl := p.websiteUrl, fixedIp := p.fixedIp))
  }

  /** `handleCompanyInfoSubmit`: merges the company fields and moves to the documents. */
  function CompanyInfoSubmit(w: Wizard, c: CompanyData): (r: Wizard)
    ensures r.step == 3
    ensures r.data.razonSocial == Some(c.razonSocial) && r.data.rfc == Some(c.rfc)
    ensures r.data.representanteLegal == Some(c.representanteLegal)
    ensures r.data.email == c.email && r.data.celular == c.celular
    ensures r.data.webhookUrl == c.webhookUrl && r.data.websiteUrl == c.websiteUrl && r.data.fixedIp == c.fixedIp
    ensures r.data.userType == w.data.userType && r.data.documents == w.data.documents
    ensures r.data.nombre == w.data.nombre
  {
    Wizard(3, w.data.(razonSocial := Some(c.razonSocial), rfc := Some(c.rfc),
                      representanteLegal := Some(c.representanteLegal), email := c.email, celular := c.celular,
                      webhookUrl := c.webhookUrl, websiteUrl := c.websiteUrl, fixedIp := c.fixedIp))
  }

  /** `handleBack`: one step back, never below the first; the data stays. */
  function Back(w: Wizard): (r: Wizard)
    ensures w.step > 1 ==> r.step == w.step - 1
    ensures w.step <= 1 ==> r.step == w.step
    ensures r.data == w.data
  {
    if w.step > 1 then w.(step := w.step - 1) else w
  }

  /** `handleDocumentSubmit`: stores the documents and builds the submission from the data
      with those documents; the wizard needs a chosen kind here. */
  function DocumentSubmit(w: Wizard, docs: DocumentUpload.Documents): (r: (Wizard, Api.Submission))
    requires w.data.userType.Some?
    ensures r.0 == w.(data := w.data.(documents := docs))
    ensures r.1.documents == docs && r.1.userType == w.data.userType.value
    ensures r.1.email == w.data.email && r.1.celular == w.data.celular && r.1.nombre == Some(w.data.nombre)
    ensures r.1.razonSocial == w.data.razonSocial && r.1.rfc == w.data.rfc
    ensures r.1.representanteLegal == w.data.representanteLegal
    ensures r.1.webhookUrl == w.data.webhookUrl && r.1.websiteUrl == w.data.websiteUrl && r.1.fixedIp == w.data.fixedIp
  {
    var d := w.data.(documents := docs);
    (w.(data := d),
     Api.Submission(d.userType.value, d.email, d.celular, Some(d.nombre), d.razonSocial, d.rfc,
                    d.representanteLegal, d.webhookUrl, d.websiteUrl, d.fixedIp, docs))
  }

  // ---------------------------------------------------------------------------
  // What is on screen
  // ---------------------------------------------------------------------------

  /** The step's heading (`getStepTitle`). */
  function StepTitle(step: int): (t: string)
    ensures t != "" <==> 1 <= step <= 3
  {
    if step == 1 then "Tipo de Usuario"
    else if step == 2 then "Información Personal"
    else if step == 3 then "Documentos Requeridos"
    else ""
  }

  /** The line under the heading (`getStepDescription`); at step 2 it depends on the kind,
      and anything but a natural person reads as a company. */
  function StepDescription(step: int, userType: Option<UserKind>): (t: string)
    ensures t != "" <==> 1 <= step <= 3
    ensures step == 2 ==> (t == "Complete sus datos personales" <==> userType == Some(Fisica))
  {
    if step == 1 then "Seleccione el tipo de registro que desea realizar"
    else if step == 2 then
      (if userType == Some(Fisica) then "Complete sus datos personales" else "Complete los datos de su empresa")
    else if step == 3 then "Cargue los documentos necesarios para completar su registro"
    else ""
  }

  /** The form shown, with the initial data it is given. */
  datatype Screen =
    | KindChooser
    | PersonalForm(personal: PersonalData)
    | CompanyForm(company: CompanyData)
    | DocumentForm(kind: Option<UserKind>, initialDocuments: DocumentUpload.Documents)
    | NoForm

  function CurrentScreen(w: Wizard): Screen {
    var d := w.data;
    if w.step == 1 then KindChooser
    else if w.step == 2 && d.userType == Some(Fisica) then
      PersonalForm(PersonalData(d.nombre, d.email, d.celular, d.webhookUrl, d.websiteUrl, d.fixedIp))
    else if w.step == 2 && d.userType == Some(Moral) then
      CompanyForm(CompanyData(OrEmpty(d.razonSocial), OrEmpty(d.rfc), OrEmpty(d.representanteLegal),
                              d.email, d.celular, d.webhookUrl, d.websiteUrl, d.fixedIp))
    else if w.step == 3 then DocumentForm(d.userType, d.documents)
    else NoForm
  }

  /** At the data step the personal form shows exactly for a natural person and the company
      form exactly for a company. */
  lemma DataStepForm(w: Wizard)
    requires w.step == 2
    ensures CurrentScreen(w).PersonalForm? <==> w.data.userType == Some(Fisica)
    ensures CurrentScreen(w).CompanyForm? <==> w.data.userType == Some(Moral)
  {
  }

  // ---------------------------------------------------------------------------
  // The machine
  // ---------------------------------------------------------------------------

  /** What the user can do: each event comes from a button of the form on screen. */
  datatype Event =
    | ChooseKind(k: UserKind)
    | PersonalSubmitted(p: PersonalData)
    | CompanySubmitted(c: CompanyData)
    | GoBack
    | DocumentsSubmitted(docs: DocumentUpload.Documents)

  predicate Enabled(w: Wizard, e: Event) {
    var sc := CurrentScreen(w);
    match e
    case ChooseKind(_) => sc.KindChooser?
    case PersonalSubmitted(_) => sc.PersonalForm?
    case CompanySubmitted(_) => sc.CompanyForm?
    case GoBack => sc.PersonalForm? || sc.CompanyForm? || sc.DocumentForm?
    case DocumentsSubmitted(_) => sc.DocumentForm?
  }

  /** The states the page can be in: a step from 1 to 3, and a kind chosen past the first. */
  predicate Valid(w: Wizard) {
    1 <= w.step <= 3 && (w.step >= 2 ==> w.data.userType.Some?)
  }

  /** One event; a disabled one (no such button on screen) changes nothing. */
  function Apply(w: Wizard, e: Event): (r: Wizard)
    requires Valid(w)
    ensures Valid(r)
    ensures !Enabled(w, e) ==> r == w
  {
    if !Enabled(w, e) then w
    else
      match e
      case ChooseKind(k) => SelectUserType(w, k)
      case PersonalSubmitted(p) => PersonalInfoSubmit(w, p)
      case CompanySubmitted(c) => CompanyInfoSubmit(w, c)
      case GoBack => Back(w)
      case DocumentsSubmitted(docs) => DocumentSubmit(w, docs).0
  }

  function Run(w: Wizard, es: seq<Event>): Wizard
    requires Valid(w)
    decreases |es|
  {
    if es == [] then w else Run(Apply(w, es[0]), es[1..])
  }

  /** Whatever the user does, the page stays in a valid state: no screen without a form, and
      a kind always known from the data step on. */
  lemma {:induction false} RunStaysValid(es: seq<Event>)
    ensures Valid(Run(Start, es))
    ensures !CurrentScreen(Run(Start, es)).NoForm?
  {
    RunFromValid(Start, es);
  }

  lemma {:induction false} RunFromValid(w: Wizard, es: seq<Event>)
    requires Valid(w)
    ensures Valid(Run(w, es))
    ensures !CurrentScreen(Run(w, es)).NoForm?
    decreases |es|
  {
    if es == [] {
      ValidShowsForm(w);
    } else {
      RunFromValid(Apply(w, es[0]), es[1..]);
    }
  }

  /** A valid state always shows a form. */
  lemma ValidShowsForm(w: Wizard)
    requires Valid(w)
    ensures !CurrentScreen(w).NoForm?
  {
    if w.step == 2 {
      match w.data.userType.value
      case Fisica =>
      case Moral =>
    }
  }

  /** Going back from the documents shows the personal form again filled with exactly what
      was submitted. */
  lemma BackRestoresPersonal(w: Wizard, p: PersonalData)
    requires Valid(w) && Enabled(w, PersonalSubmitted(p))
    ensures CurrentScreen(Back(PersonalInfoSubmit(w, p))) == PersonalForm(p)
  {
  }

  /** Going back from the documents shows the company form again filled with exactly what
      was submitted. */
  lemma BackRestoresCompany(w: Wizard, c: CompanyData)
    requires Valid(w) && Enabled(w, CompanySubmitted(c))
    ensures CurrentScreen(Back(CompanyInfoSubmit(w, c))) == CompanyForm(c)
  {
  }

  /** Going back from the documents keeps the documents last submitted; files picked on the
      document form but not submitted are not part of the wizard's data and are dropped.
      Submitting the data form again shows the document form with exactly those documents. */
  lemma DocumentsSurviveBack(w: Wizard, e: Event)
    requires w.step == 3 && w.data.userType.Some?
    requires e.PersonalSubmitted? || e.CompanySubmitted?
    ensures CurrentScreen(Back(w)).PersonalForm? || CurrentScreen(Back(w)).CompanyForm?
    ensures Back(w).data.documents == w.data.documents
    ensures Enabled(Back(w), e) ==>
              CurrentScreen(Apply(Back(w), e)) == DocumentForm(w.data.userType, w.data.documents)
  {
    ValidShowsForm(Back(w));
  }
}
