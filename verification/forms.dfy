/** The state shared by the two enrollment data forms (personal and company): the values
    typed so far, the error shown under each field and the fields the user has left at least
    once, with the three event handlers both forms implement the same way
    (`handleChange`, `handleBlur`, `handleSubmit`). A form supplies its own validator. */
module Forms {
  import opened Common
  import opened Text

  /** `formData`, `errors` and `touched`. A key missing from `values` is an `undefined`
      property; a key missing from `errors` shows no error. */
  datatype FormState<F> = FormState(values: map<F, string>, errors: map<F, string>, touched: set<F>)

  /** The error message a form's validators give a field's value ("" when valid). */
  type Validator<!F> = (F, string) -> string

  /** A field's value as the validators read it: `formData[field] || ''`. */
  function ValueOf<F>(st: FormState<F>, f: F): string {
    if f in st.values then st.values[f] else ""
  }

  /** The error under a field; a missing entry reads as no error. */
  function ErrorOf<F>(st: FormState<F>, f: F): string {
    if f in st.errors then st.errors[f] else ""
  }

  /** A freshly mounted form: the initial data, no errors, nothing touched. */
  function Mount<F(!new)>(initial: map<F, string>): (st: FormState<F>)
    ensures forall f :: ValueOf(st, f) == (if f in initial then initial[f] else "")
    ensures forall f :: ErrorOf(st, f) == "" && f !in st.touched
  {
    FormState(initial, map[], {})
  }

  /** `handleChange`: stores the new value, and re-validates that field only when it has
      been touched; every other field keeps its value and its error. */
  function HandleChange<F(!new)>(st: FormState<F>, validate: Validator<F>, f: F, v: string): (r: FormState<F>)
    ensures f in r.values && ValueOf(r, f) == v
    ensures f in st.touched ==> f in r.errors && ErrorOf(r, f) == validate(f, v)
    ensures f !in st.touched ==> r.errors == st.errors
    ensures r.touched == st.touched
    ensures forall g :: g != f ==> (g in r.values <==> g in st.values) && ValueOf(r, g) == ValueOf(st, g)
    ensures forall g :: g != f ==> (g in r.errors <==> g in st.errors) && ErrorOf(r, g) == ErrorOf(st, g)
  {
    var errors := if f in st.touched then st.errors[f := validate(f, v)] else st.errors;
    FormState(st.values[f := v], errors, st.touched)
  }

  /** `handleBlur`: marks the field touched and shows the verdict on its current value;
      values, the other fields' errors and the other fields' touched marks stay. */
  function HandleBlur<F(!new)>(st: FormState<F>, validate: Validator<F>, f: F): (r: FormState<F>)
    ensures r.values == st.values
    ensures r.touched == st.touched + {f}
    ensures f in r.errors && ErrorOf(r, f) == validate(f, ValueOf(st, f))
    ensures forall g :: g != f ==> (g in r.errors <==> g in st.errors) && ErrorOf(r, g) == ErrorOf(st, g)
  {
    FormState(st.values, st.errors[f := validate(f, ValueOf(st, f))], st.touched + {f})
  }

  /** The state after a submit attempt, and the data handed to `onSubmit`, if it was called. */
  datatype SubmitOutcome<F> = SubmitOutcome(state: FormState<F>, submitted: Option<map<F, string>>)

  /** `handleSubmit`: validates every field of the form, replaces the errors with exactly
      those verdicts, marks exactly those fields touched, and calls `onSubmit` with the form
      data iff every verdict is empty. */
  function HandleSubmit<F(!new)>(st: FormState<F>, validate: Validator<F>, fields: set<F>): (r: SubmitOutcome<F>)
    ensures r.state.values == st.values
    ensures r.state.touched == fields
    ensures r.state.errors.Keys == fields
    ensures forall g :: g in fields ==> ErrorOf(r.state, g) == validate(g, ValueOf(st, g))
    ensures r.submitted.Some? <==> forall g :: g in fields ==> validate(g, ValueOf(st, g)) == ""
    ensures r.submitted.Some? ==> r.submitted.value == st.values
  {
    var errors := map g | g in fields :: validate(g, ValueOf(st, g));
    var submitted := if forall g :: g in fields ==> errors[g] == "" then Some(st.values) else None;
    SubmitOutcome(FormState(st.values, errors, fields), submitted)
  }

  /** What an `<input maxLength={n}>` lets through of the text typed or pasted into it: the
      first `n` characters. */
  function Clip(typed: string, n: nat): (r: string)
    ensures |r| <= n
    ensures StartsWith(typed, r)
    ensures r == typed || |r| == n
  {
    if |typed| <= n then typed else typed[..n]
  }
}
