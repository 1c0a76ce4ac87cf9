/** The personal-data step of the enrollment wizard for natural persons
    (src/components/enrollment/PersonalInfoForm.tsx): six fields, three required and three
    optional, over the shared form state. */
module PersonalInfo {
  import opened Common
  import opened Text
  import opened FieldRules
  import Forms

  datatype Field = Nombre | Email | Celular | WebhookUrl | WebsiteUrl | FixedIp

  const AllFields: set<Field> := {Nombre, Email, Celular, WebhookUrl, WebsiteUrl, FixedIp}

  type State = Forms.FormState<Field>

  /** The validator the form runs for each field. The URL parser is a parameter. */
  function FieldError(parse: UrlParser, f: Field, v: string): string {
    match f
    case Nombre => ValidateNombre(v)
    case Email => ValidateEmail(v)
    case Celular => ValidateCelular(v)
    case WebhookUrl => ValidateWebhookUrl(v, parse)
    case WebsiteUrl => ValidateWebsiteUrl(v, parse)
    case FixedIp => ValidateFixedIp(v)
  }

  /** A field's value is acceptable, stated with the reference patterns rather than the
      validators. */
  ghost predicate FieldAccepted(parse: UrlParser, f: Field, v: string) {
    match f
    case Nombre => SpanAtLeast(v, 3) && NamePattern(v)
    case Email => EmailPattern(v)
    case Celular => !IsBlank(v) && |DigitsOf(v)| == 10
    case WebhookUrl => IsBlank(v) || (parse(v).Some? && StartsWith(parse(v).value, "http"))
    case WebsiteUrl => IsBlank(v) || (parse(v).Some? && StartsWith(parse(v).value, "http"))
    case FixedIp => IsBlank(v) || IpPattern(v)
  }

  lemma FieldErrorEmptyIff(parse: UrlParser, f: Field, v: string)
    ensures FieldError(parse, f, v) == "" <==> FieldAccepted(parse, f, v)
  {
  }

  function Validator(parse: UrlParser): Forms.Validator<Field> {
    (f, v) => FieldError(parse, f, v)
  }

  /** Typing into a field (`handleChange`). */
  function Change(st: State, parse: UrlParser, f: Field, v: string): (r: State)
    ensures Forms.ValueOf(r, f) == v
    ensures f in st.touched ==> Forms.ErrorOf(r, f) == FieldError(parse, f, v)
    ensures f !in st.touched ==> r.errors == st.errors
    ensures r.touched == st.touched
    ensures forall g :: g != f ==> Forms.ValueOf(r, g) == Forms.ValueOf(st, g) && Forms.ErrorOf(r, g) == Forms.ErrorOf(st, g)
  {
    Forms.HandleChange(st, Validator(parse), f, v)
  }

  /** The text an input hands to `handleChange`: the phone input stops at ten characters. */
  function InputValue(f: Field, typed: string): (v: string)
    ensures f == Celular ==> |v| <= 10 && StartsWith(typed, v)
    ensures f != Celular ==> v == typed
  {
    if f == Celular then Forms.Clip(typed, 10) else typed
  }

  /** Typing or pasting into a field's input. */
  function Input(st: State, parse: UrlParser, f: Field, typed: string): (r: State)
    ensures Forms.ValueOf(r, f) == InputValue(f, typed)
    ensures forall g :: g != f ==> Forms.ValueOf(r, g) == Forms.ValueOf(st, g)
  {
    Change(st, parse, f, InputValue(f, typed))
  }

  /** Leaving a field (`handleBlur`). */
  function Blur(st: State, parse: UrlParser, f: Field): (r: State)
    ensures r.values == st.values
    ensures r.touched == st.touched + {f}
    ensures Forms.ErrorOf(r, f) == FieldError(parse, f, Forms.ValueOf(st, f))
    ensures forall g :: g != f ==> Forms.ErrorOf(r, g) == Forms.ErrorOf(st, g)
  {
    Forms.HandleBlur(st, Validator(parse), f)
  }

  /** Pressing "Continuar" (`handleSubmit`): all six fields become touched and show their
      verdicts, and the data goes on to the wizard iff every verdict is empty. */
  function Submit(st: State, parse: UrlParser): (r: Forms.SubmitOutcome<Field>)
    ensures r.state.touched == AllFields
    ensures r.state.values == st.values
    ensures forall g :: Forms.ErrorOf(r.state, g) == FieldError(parse, g, Forms.ValueOf(st, g))
    ensures r.submitted.Some? <==> forall g :: FieldError(parse, g, Forms.ValueOf(st, g)) == ""
    ensures r.submitted.Some? ==> r.submitted.value == st.values
  {
    AllFieldsComplete();
    Forms.HandleSubmit(st, Validator(parse), AllFields)
  }

  lemma AllFieldsComplete()
    ensures forall g :: g in AllFields
  {
    forall g ensures g in AllFields {
      match g
      case Nombre =>
      case Email =>
      case Celular =>
      case WebhookUrl =>
      case WebsiteUrl =>
      case FixedIp =>
    }
  }

  /** The data goes on exactly when every field meets its pattern: a name of letters with at
      least three trimmed characters, an address of the email shape, ten digits in the phone,
      http(s) URLs or nothing, and a dotted quad or nothing. */
  lemma SubmitAcceptsIff(st: State, parse: UrlParser)
    ensures Submit(st, parse).submitted.Some? <==> forall g :: FieldAccepted(parse, g, Forms.ValueOf(st, g))
  {
    forall g ensures FieldError(parse, g, Forms.ValueOf(st, g)) == "" <==> FieldAccepted(parse, g, Forms.ValueOf(st, g)) {
      FieldErrorEmptyIff(parse, g, Forms.ValueOf(st, g));
    }
  }
}
