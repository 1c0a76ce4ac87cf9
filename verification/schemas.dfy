/** The zod schemas behind the three payment forms (src/utils/validation.ts): generating a QR
    charge, sending a push charge and querying payment status. Parsing a record yields the
    list of issues zod reports, in schema order; the form submits exactly when that list is
    empty. String checks all run (zod keeps going after a failed refinement), while a number
    field that is not a number reports its type error alone. */
module Schemas {
  import opened Text

  // ---------------------------------------------------------------------------
  // Numbers
  // ---------------------------------------------------------------------------

  /** What `valueAsNumber` hands the schema: `NaN` for an empty or unparsable input, otherwise
      the decimal the user typed, `units / 10^scale`. */
  datatype Num = NotANumber | Dec(units: int, scale: nat)

  function Pow10(n: nat): (r: nat)
    ensures r >= 1
  {
    if n == 0 then 1 else 10 * Pow10(n - 1)
  }

  /** Two decimals denote the same number. */
  predicate SameValue(a: Num, b: Num)
    requires a.Dec? && b.Dec?
  {
    a.units * Pow10(b.scale) == b.units * Pow10(a.scale)
  }

  /** A check failing on a field: the field's name and zod's message. */
  datatype Issue = Issue(path: string, message: string)

  /** One zod check on a field: no issue when it holds, its message when it fails. */
  function Check(ok: bool, path: string, message: string): (r: seq<Issue>)
    ensures r == [] <==> ok
    ensures !ok ==> r == [Issue(path, message)]
  {
    if ok then [] else [Issue(path, message)]
  }

  // ---------------------------------------------------------------------------
  // Fields
  // ---------------------------------------------------------------------------

  /** `apiKey`: `min(1)` then `length(128)`; both messages for the empty key. */
  function ApiKeyIssues(s: string): (r: seq<Issue>)
    ensures r == [] <==> |s| == 128
    ensures s == [] ==> |r| == 2
  {
    Check(|s| >= 1, "apiKey", "API Key es requerida")
    + Check(|s| == 128, "apiKey", "API Key debe tener exactamente 128 caracteres")
  }

  /** Largest amount in cents: 999,999,999,999.99 pesos. */
  const MaxCents := 99_999_999_999_999

  /** `monto`: a number, positive, at most 999999999999.99 and a multiple of 0.01. */
  function MontoIssues(m: Num): seq<Issue> {
    match m
    case NotANumber => [Issue("monto", "Monto debe ser un número")]
    case Dec(u, k) =>
      Check(u > 0, "monto", "Monto debe ser mayor a 0")
      + Check(u * 100 <= MaxCents * Pow10(k), "monto", "Monto máximo excedido")
      + Check((u * 100) % Pow10(k) == 0, "monto", "Monto debe tener máximo 2 decimales")
  }

  /** A character of the class `[\x20-\x7E]`: printable ASCII. */
  predicate IsPrintableAscii(c: char) {
    0x20 <= c as int <= 0x7E
  }

  /** `concepto`: non-empty, at most 40 characters, printable ASCII only. */
  function ConceptoIssues(s: string): seq<Issue> {
    Check(|s| >= 1, "concepto", "Concepto es requerido")
    + Check(|s| <= 40, "concepto", "Concepto debe tener máximo 40 caracteres")
    + Check(forall i :: 0 <= i < |s| ==> IsPrintableAscii(s[i]), "concepto",
            "Concepto debe contener solo caracteres ASCII")
  }

  /** The pattern `^\d{m,n}$`. */
  predicate DigitsBetween(s: string, m: nat, n: nat) {
    m <= |s| <= n && AllDigits(s)
  }

  /** `referenciaNumerica`: one to seven digits. */
  function ReferenciaIssues(s: string): seq<Issue> {
    Check(DigitsBetween(s, 1, 7), "referenciaNumerica", "Referencia debe ser un número de 1-7 dígitos")
  }

  /** `celularCliente` (push only): exactly ten digits. */
  function CelularClienteIssues(s: string): seq<Issue> {
    Check(DigitsBetween(s, 10, 10), "celularCliente", "Número de celular debe tener exactamente 10 dígitos")
  }

  /** `folioCodi`: between 10 and 20 characters. */
  function FolioIssues(s: string): seq<Issue> {
    Check(|s| >= 10, "folioCodi", "Folio debe tener al menos 10 caracteres")
    + Check(|s| <= 20, "folioCodi", "Folio debe tener máximo 20 caracteres")
  }

  /** A whole-number field (`tpg`, `npg`): a number, an integer, at least 1 and, when a
      maximum is given, at most that. */
  function CountIssues(path: string, m: Num, max: int, bounded: bool): seq<Issue> {
    match m
    case NotANumber => [Issue(path, "Debe ser un número")]
    case Dec(u, k) =>
      Check(u % Pow10(k) == 0, path, "Debe ser un número entero")
      + Check(u >= Pow10(k), path, "Mínimo 1")
      + (if bounded then Check(u <= max * Pow10(k), path, "Máximo 100") else [])
  }

  /** The pattern `^(\d{8}|0)$`. */
  predicate DateOrZero(s: string) {
    s == "0" || DigitsBetween(s, 8, 8)
  }

  function DateIssues(path: string, s: string): seq<Issue> {
    Check(DateOrZero(s), path, "Formato debe ser YYYYMMDD o 0")
  }

  // ---------------------------------------------------------------------------
  // Schemas
  // ---------------------------------------------------------------------------

  datatype QrForm = QrForm(apiKey: string, monto: Num, concepto: string, referenciaNumerica: string, vigencia: string)

  datatype PushForm = PushForm(base: QrForm, celularCliente: string)

  datatype ConsultaForm = ConsultaForm(apiKey: string, folioCodi: string, tpg: Num, npg: Num,
                                       fechaInicial: string, fechaFinal: string)

  /** `qrFormSchema`; `vigencia` is any string and reports nothing. */
  function QrIssues(f: QrForm): seq<Issue> {
    ApiKeyIssues(f.apiKey) + MontoIssues(f.monto) + ConceptoIssues(f.concepto)
    + ReferenciaIssues(f.referenciaNumerica)
  }

  /** `pushFormSchema`: the QR schema extended with `celularCliente`. */
  function PushIssues(f: PushForm): seq<Issue> {
    QrIssues(f.base) + CelularClienteIssues(f.celularCliente)
  }

  /** `consultaFormSchema`. */
  function ConsultaIssues(f: ConsultaForm): seq<Issue> {
    ApiKeyIssues(f.apiKey) + FolioIssues(f.folioCodi)
    + CountIssues("tpg", f.tpg, 100, true) + CountIssues("npg", f.npg, 0, false)
    + DateIssues("fechaInicial", f.fechaInicial) + DateIssues("fechaFinal", f.fechaFinal)
  }

  // ---------------------------------------------------------------------------
  // What each schema accepts
  // ---------------------------------------------------------------------------

  /** An amount given in cents is accepted exactly when it is between one cent and the
      maximum. */
  lemma MontoAsCents(c: int)
    ensures MontoIssues(Dec(c, 2)) == [] <==> 0 < c <= MaxCents
  {
  }

  /** The verdict on an amount depends on its value only, not on how many decimals were
      typed ("5", "5.0" and "5.00" are judged alike). */
  lemma {:induction false} MontoValueOnly(a: Num, b: Num)
    requires a.Dec? && b.Dec? && SameValue(a, b)
    ensures MontoIssues(a) == MontoIssues(b)
  {
    var u1, k1, u2, k2 := a.units, a.scale, b.units, b.scale;
    var p1, p2 := Pow10(k1), Pow10(k2);
    assert u1 * p2 == u2 * p1;
    PositiveScaled(u1, p2);
    PositiveScaled(u2, p1);
    assert u1 > 0 <==> u2 > 0;
    AtMostScaled(u1 * 100, MaxCents * p1, p2);
    AtMostScaled(u2 * 100, MaxCents * p2, p1);
    assert u1 * 100 * p2 == u2 * 100 * p1;
    assert MaxCents * p1 * p2 == MaxCents * p2 * p1;
    assert u1 * 100 <= MaxCents * p1 <==> u2 * 100 <= MaxCents * p2;
    DivisibleScaled(u1 * 100, p1, p2);
    DivisibleScaled(u2 * 100, p2, p1);
    assert p1 * p2 == p2 * p1;
    assert (u1 * 100) % p1 == 0 <==> (u2 * 100) % p2 == 0;
  }

  /** Every accepted amount is a whole number of cents within range. */
  lemma AcceptedMontoIsCents(m: Num)
    requires MontoIssues(m) == []
    ensures m.Dec? && (m.units * 100) % Pow10(m.scale) == 0
    ensures var c := (m.units * 100) / Pow10(m.scale);
      SameValue(m, Dec(c, 2)) && 0 < c <= MaxCents
  {
    var u, p := m.units, Pow10(m.scale);
    var c := (u * 100) / p;
    assert u * 100 == c * p;
    MontoValueOnly(m, Dec(c, 2));
    MontoAsCents(c);
  }

  lemma MulNonNeg(a: int, b: int)
    requires a >= 0 && b >= 0
    ensures a * b >= 0
  {
  }

  /** `x > 0` survives scaling by a positive factor, both ways. */
  lemma PositiveScaled(x: int, p: int)
    requires p > 0
    ensures x > 0 <==> x * p > 0
  {
    if x > 0 {
      MulNonNeg(x - 1, p);
      assert x * p == (x - 1) * p + p;
    } else {
      MulNonNeg(-x, p);
      assert x * p == -((-x) * p);
    }
  }

  /** `x <= y` survives scaling by a positive factor, both ways. */
  lemma AtMostScaled(x: int, y: int, p: int)
    requires p > 0
    ensures x <= y <==> x * p <= y * p
  {
    if x > y {
      MulNonNeg(x - y - 1, p);
      assert (x - y) * p == (x - y - 1) * p + p;
    } else {
      MulNonNeg(y - x, p);
      assert (y - x) * p == y * p - x * p;
    }
  }

  /** Divisibility survives scaling both sides by a positive factor. */
  lemma DivisibleScaled(x: int, d: int, p: int)
    requires d > 0 && p > 0
    ensures x % d == 0 <==> (x * p) % (d * p) == 0
  {
    var q, r := x / d, x % d;
    assert x == d * q + r;
    assert x * p == (d * p) * q + r * p;
    MulNonNeg(r, p);
    AtMostScaled(r + 1, d, p);
    assert (r + 1) * p == r * p + p;
    ModUnique(x * p, d * p, q, r * p);
    PositiveScaled(r, p);
  }

  /** The remainder is determined by any quotient-remainder decomposition. */
  lemma ModUnique(x: int, d: int, q: int, r: int)
    requires d > 0 && x == d * q + r && 0 <= r < d
    ensures x % d == r
  {
    var q', r' := x / d, x % d;
    assert d * q' + r' == x;
    assert d * (q - q') == r' - r;
    if q > q' {
      MulNonNeg(d, q - q' - 1);
    } else if q < q' {
      MulNonNeg(d, q' - q - 1);
    }
  }

  /** The API key is accepted exactly when it has 128 characters, whatever they are. */
  lemma ApiKeyAcceptsIff(s: string)
    ensures ApiKeyIssues(s) == [] <==> |s| == 128
  {
  }

  /** A QR request is accepted exactly when: a 128-character key, an amount of one cent to
      999,999,999,999.99 pesos in whole cents, a concept of 1 to 40 printable ASCII
      characters, and a reference of 1 to 7 digits; the expiry is never checked. */
  lemma QrAcceptsIff(f: QrForm)
    ensures QrIssues(f) == [] <==>
      && |f.apiKey| == 128
      && f.monto.Dec? && f.monto.units > 0 && (f.monto.units * 100) % Pow10(f.monto.scale) == 0
      && f.monto.units * 100 <= MaxCents * Pow10(f.monto.scale)
      && 1 <= |f.concepto| <= 40 && (forall i :: 0 <= i < |f.concepto| ==> IsPrintableAscii(f.concepto[i]))
      && 1 <= |f.referenciaNumerica| <= 7 && AllDigits(f.referenciaNumerica)
  {
  }

  /** The expiry never affects the verdict. */
  lemma QrIgnoresVigencia(f: QrForm, v: string)
    ensures QrIssues(f.(vigencia := v)) == QrIssues(f)
  {
  }

  /** A push request is accepted exactly when its QR part is and the phone is ten digits. */
  lemma PushAcceptsIff(f: PushForm)
    ensures PushIssues(f) == [] <==>
      QrIssues(f.base) == [] && |f.celularCliente| == 10 && AllDigits(f.celularCliente)
  {
  }

  /** A whole number given as an integer is accepted exactly in 1..100 (`tpg`) or from 1 up
      (`npg`). */
  lemma CountAsInteger(n: int)
    ensures CountIssues("tpg", Dec(n, 0), 100, true) == [] <==> 1 <= n <= 100
    ensures CountIssues("npg", Dec(n, 0), 0, false) == [] <==> 1 <= n
  {
  }

  /** The verdict on a whole-number field depends on its value only. */
  lemma {:induction false} CountValueOnly(path: string, a: Num, b: Num, max: int, bounded: bool)
    requires a.Dec? && b.Dec? && SameValue(a, b)
    ensures CountIssues(path, a, max, bounded) == CountIssues(path, b, max, bounded)
  {
    var u1, k1, u2, k2 := a.units, a.scale, b.units, b.scale;
    var p1, p2 := Pow10(k1), Pow10(k2);
    assert u1 * p2 == u2 * p1;
    DivisibleScaled(u1, p1, p2);
    DivisibleScaled(u2, p2, p1);
    assert p1 * p2 == p2 * p1;
    assert u1 % p1 == 0 <==> u2 % p2 == 0;
    AtMostScaled(p1, u1, p2);
    AtMostScaled(p2, u2, p1);
    assert u1 >= p1 <==> u2 >= p2;
    AtMostScaled(u1, max * p1, p2);
    AtMostScaled(u2, max * p2, p1);
    assert max * p1 * p2 == max * p2 * p1;
    assert u1 <= max * p1 <==> u2 <= max * p2;
  }

  /** Every accepted `tpg` is a whole number from 1 to 100, and every accepted `npg` a whole
      number from 1 up. */
  lemma AcceptedCountIsInteger(path: string, m: Num, max: int, bounded: bool)
    requires CountIssues(path, m, max, bounded) == []
    ensures m.Dec? && m.units % Pow10(m.scale) == 0
    ensures var n := m.units / Pow10(m.scale);
      SameValue(m, Dec(n, 0)) && 1 <= n && (bounded ==> n <= max)
  {
    var n := m.units / Pow10(m.scale);
    assert m.units == n * Pow10(m.scale);
    CountValueOnly(path, m, Dec(n, 0), max, bounded);
  }

  /** A status query is accepted exactly when: a 128-character key, a folio of 10 to 20
      characters, whole numbers `tpg` in 1..100 and `npg` from 1, and each date eight digits or
      "0", with no calendar check and no order between the two dates. */
  lemma ConsultaAcceptsIff(f: ConsultaForm)
    ensures ConsultaIssues(f) == [] <==>
      && |f.apiKey| == 128
      && 10 <= |f.folioCodi| <= 20
      && f.tpg.Dec? && f.tpg.units % Pow10(f.tpg.scale) == 0
      && Pow10(f.tpg.scale) <= f.tpg.units <= 100 * Pow10(f.tpg.scale)
      && f.npg.Dec? && f.npg.units % Pow10(f.npg.scale) == 0 && Pow10(f.npg.scale) <= f.npg.units
      && (f.fechaInicial == "0" || (|f.fechaInicial| == 8 && AllDigits(f.fechaInicial)))
      && (f.fechaFinal == "0" || (|f.fechaFinal| == 8 && AllDigits(f.fechaFinal)))
  {
  }

  /** "0" and any eight digits pass, including ones that are no calendar date. */
  lemma DatesUnchecked()
    ensures DateIssues("fechaInicial", "0") == []
    ensures DateIssues("fechaInicial", "99999999") == []
    ensures DateIssues("fechaInicial", "00") != []
  {
  }
}
