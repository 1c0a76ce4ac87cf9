/** The company-data step of the enrollment wizard for legal entities
    (src/components/enrollment/CompanyInfoForm.tsx): five required fields over the shared form
    state, with the RFC upper-cased as it is typed. */
module CompanyInfo {
  import opened Common
  import opened Text
  import opened FieldRules
  import Forms

  datatype Field = RazonSocial | Rfc | RepresentanteLegal | Email | Celular

  const AllFields: set<Field> := {RazonSocial, Rfc, RepresentanteLegal, Email, Celular}

  type State = Forms.FormState<Field>

  /** The validator the form runs for each field. Email and phone follow the same rules as
      on the personal form. */
  function FieldError(f: Field, v: string): string {
    match f
    case RazonSocial => ValidateRazonSocial(v)
    case Rfc => ValidateRfc(v)
    case RepresentanteLegal => ValidateRepresentante(v)
    case Email => ValidateEmail(v)
    case Celular => ValidateCelular(v)
  }

  /** A field's value is acceptable, stated with the reference patterns rather than the
      validators. */
  ghost predicate FieldAccepted(f: Field, v: string) {
    match f
    case RazonSocial => SpanAtLeast(v, 3)
    case Rfc => !IsBlank(v) && RfcPattern(Upper(v))
    case RepresentanteLegal => SpanAtLeast(v, 3) && NamePattern(v)
    case Email => EmailPattern(v)
    case Celular => !IsBlank(v) && |DigitsOf(v)| == 10
  }

  lemma FieldErrorEmptyIff(f: Field, v: string)
    ensures FieldError(f, v) == "" <==> FieldAccepted(f, v)
  {
  }

  function Validator(): Forms.Validator<Field> {
    (f, v) => FieldError(f, v)
  }

  /** Typing into a field (`handleChange`). */
  function Change(st: State, f: Field, v: string): (r: State)
    ensures Forms.ValueOf(r, f) == v
    ensures f in st.touched ==> Forms.ErrorOf(r, f) == FieldError(f, v)
    ensures f !in st.touched ==> r.errors == st.errors
    ensures r.touched == st.touched
    ensures forall g :: g != f ==> Forms.ValueOf(r, g) == Forms.ValueOf(st, g) && Forms.ErrorOf(r, g) == Forms.ErrorOf(st, g)
  {
    Forms.HandleChange(st, Validator(), f, v)
  }

  /** The text an input hands to `handleChange`: the RFC input stops at thirteen characters
      and upper-cases them (which can lengthen them: `ß` becomes "SS", a ligature such as `ﬃ`
      three capitals), the phone input stops at ten. */
  function InputValue(f: Field, typed: string): (v: string)
    ensures f == Rfc ==> |v| <= 3 * 13 && Upper(v) == v && v == Upper(Forms.Clip(typed, 13))
    ensures f == Celular ==> |v| <= 10 && StartsWith(typed, v)
    ensures f != Rfc && f != Celular ==> v == typed
  {
    match f
    case Rfc => UpperIdempotent(Forms.Clip(typed, 13)); Upper(Forms.Clip(typed, 13))
    case Celular => Forms.Clip(typed, 10)
    case _ => typed
  }

  /** Typing or pasting into a field's input. */
  function Input(st: State, f: Field, typed: string): (r: State)
    ensures Forms.ValueOf(r, f) == InputValue(f, typed)
    ensures forall g :: g != f ==> Forms.ValueOf(r, g) == Forms.ValueOf(st, g)
  {
    Change(st, f, InputValue(f, typed))
  }

  /** Whatever is typed into the RFC input, the stored RFC is in capitals, and its verdict
      is the verdict the validator gives the clipped text as typed. */
  lemma RfcInputIsUpper(st: State, typed: string)
    ensures Upper(Forms.ValueOf(Input(st, Rfc, typed), Rfc)) == Forms.ValueOf(Input(st, Rfc, typed), Rfc)
    ensures FieldError(Rfc, Forms.ValueOf(Input(st, Rfc, typed), Rfc)) == ValidateRfc(Forms.Clip(typed, 13))
  {
    RfcCaseInsensitive(Forms.Clip(typed, 13));
  }

  /** Leaving a field (`handleBlur`). */
  function Blur(st: State, f: Field): (r: State)
    ensures r.values == st.values
    ensures r.touched == st.touched + {f}
    ensures Forms.ErrorOf(r, f) == FieldError(f, Forms.ValueOf(st, f))
    ensures forall g :: g != f ==> Forms.ErrorOf(r, g) == Forms.ErrorOf(st, g)
  {
    Forms.HandleBlur(st, Validator(), f)
  }

  lemma AllFieldsComplete()
    ensures forall g :: g in AllFields
  {
    forall g ensures g in AllFields {
      match g
      case RazonSocial =>
      case Rfc =>
      case RepresentanteLegal =>
      case Email =>
      case Celular =>
    }
  }

  /** Pressing "Continuar" (`handleSubmit`): all five fields become touched and show their
      verdicts, and the data goes on to the wizard iff every verdict is empty. */
  function Submit(st: State): (r: Forms.SubmitOutcome<Field>)
    ensures r.state.touched == AllFields
    ensures r.state.values == st.values
    ensures forall g :: Forms.ErrorOf(r.state, g) == FieldError(g, Forms.ValueOf(st, g))
    ensures r.submitted.Some? <==> forall g :: FieldError(g, Forms.ValueOf(st, g)) == ""
    ensures r.submitted.Some? ==> r.submitted.value == st.values
  {
    AllFieldsComplete();
    Forms.HandleSubmit(st, Validator(), AllFields)
  }

  /** The data goes on exactly when every field meets its pattern: at least three trimmed
      characters of company name, an RFC of the documented shape in any case, a
      representative's name of letters, an address of the email shape and ten digits. */
  lemma SubmitAcceptsIff(st: State)
    ensures Submit(st).submitted.Some? <==> forall g :: FieldAccepted(g, Forms.ValueOf(st, g))
  {
    forall g ensures FieldError(g, Forms.ValueOf(st, g)) == "" <==> FieldAccepted(g, Forms.ValueOf(st, g)) {
      FieldErrorEmptyIff(g, Forms.ValueOf(st, g));
    }
  }

  /** An accepted submission carries an RFC of at most thirteen characters whose upper case
      has 12 or 13; an RFC stored in capitals, as every typed one is, has 12 or 13 itself. */
  lemma SubmittedRfcLength(st: State)
    requires Submit(st).submitted.Some?
    ensures |Upper(Forms.ValueOf(st, Rfc))| == 12 || |Upper(Forms.ValueOf(st, Rfc))| == 13
    ensures |Forms.ValueOf(st, Rfc)| <= 13
    ensures Upper(Forms.ValueOf(st, Rfc)) == Forms.ValueOf(st, Rfc) ==>
              |Forms.ValueOf(st, Rfc)| == 12 || |Forms.ValueOf(st, Rfc)| == 13
  {
    assert FieldError(Rfc, Forms.ValueOf(st, Rfc)) == "";
  }
}
