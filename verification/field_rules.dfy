/** The hand-written field validators of the two enrollment forms
    (src/components/enrollment/PersonalInfoForm.tsx and CompanyInfoForm.tsx). Each returns an
    error message, the empty string meaning "valid". Every regular expression is given twice:
    once as the pattern reads, once as the check a reader would compute, with a lemma tying
    the two together. */
module FieldRules {
  import opened Common
  import opened Text

  // ---------------------------------------------------------------------------
  // Trimmed length
  // ---------------------------------------------------------------------------

  /** Two non-space characters at least `k - 1` positions apart: what `trim().length >= k`
      says without computing the trimmed string. */
  ghost predicate SpanAtLeast(v: string, k: nat) {
    exists i: nat, j: nat :: NonSpacePair(v, i, j) && i + k - 1 <= j
  }

  predicate NonSpacePair(v: string, i: nat, j: nat) {
    i <= j < |v| && !IsSpace(v[i]) && !IsSpace(v[j])
  }

  /** The trimmed value is at least `k` long exactly when two non-space characters sit at
      least `k - 1` apart. */
  lemma TrimLengthAtLeast(v: string, k: nat)
    requires k >= 1
    ensures |Trim(v)| >= k <==> SpanAtLeast(v, k)
  {
    var lead := LeadingSpaces(v);
    var r := Trim(v);
    if |r| >= k {
      assert NonSpacePair(v, lead, lead + |r| - 1) by {
        assert v[lead] == r[0];
        assert v[lead + |r| - 1] == r[|r| - 1];
      }
    }
    if SpanAtLeast(v, k) {
      var i: nat, j: nat :| NonSpacePair(v, i, j) && i + k - 1 <= j;
      TrimBounds(v, i, j);
    }
  }

  /** Every non-space character lies inside the trimmed part. */
  lemma TrimBounds(v: string, i: nat, j: nat)
    requires NonSpacePair(v, i, j)
    ensures |Trim(v)| >= j - i + 1
  {
    var lead := LeadingSpaces(v);
    var trail := TrailingSpaces(v);
    assert !IsBlank(v);
    assert lead <= i && j < |v| - trail;
  }

  // ---------------------------------------------------------------------------
  // Person names (nombre, representanteLegal)
  // ---------------------------------------------------------------------------

  /** A character of the class `[a-zA-ZáéíóúÁÉÍÓÚñÑ\s]`. */
  predicate IsNameChar(c: char) {
    ('a' <= c <= 'z') || ('A' <= c <= 'Z') || c in "áéíóúÁÉÍÓÚñÑ" || IsSpace(c)
  }

  /** The pattern `^[a-zA-ZáéíóúÁÉÍÓÚñÑ\s]+$`, tested on the untrimmed value. */
  predicate NamePattern(v: string) {
    |v| > 0 && forall i :: 0 <= i < |v| ==> IsNameChar(v[i])
  }

  /** The outcome of the three ordered checks on a name. */
  datatype NameVerdict = NameMissing | NameShort | NameNotLetters | NameOk

  /** First failing check wins: blank, then fewer than three trimmed characters, then a
      character outside the name class. */
  function CheckName(v: string): (r: NameVerdict)
    ensures r == NameMissing <==> IsBlank(v)
    ensures r == NameShort <==> !IsBlank(v) && !SpanAtLeast(v, 3)
    ensures r == NameNotLetters <==> SpanAtLeast(v, 3) && !NamePattern(v)
    ensures r == NameOk <==> SpanAtLeast(v, 3) && NamePattern(v)
  {
    TrimLengthAtLeast(v, 3);
    TrimLengthAtLeast(v, 1);
    if Trim(v) == [] then NameMissing
    else if |Trim(v)| < 3 then NameShort
    else if !NamePattern(v) then NameNotLetters
    else NameOk
  }

  const NameTooShort := "El nombre debe tener al menos 3 caracteres"
  const NameLettersOnly := "El nombre solo puede contener letras"

  function NameMessage(verdict: NameVerdict, required: string): string {
    match verdict
    case NameMissing => required
    case NameShort => NameTooShort
    case NameNotLetters => NameLettersOnly
    case NameOk => ""
  }

  /** `validateNombre` of the personal form. */
  function ValidateNombre(v: string): (msg: string)
    ensures msg == "" <==> CheckName(v) == NameOk
  {
    NameMessage(CheckName(v), "El nombre es requerido")
  }

  /** `validateRepresentante` of the company form: the same checks with its own "required"
      message. */
  function ValidateRepresentante(v: string): (msg: string)
    ensures msg == "" <==> CheckName(v) == NameOk
  {
    NameMessage(CheckName(v), "El nombre del representante legal es requerido")
  }

  /** The two name validators agree on every value except for the wording of the "required"
      message. */
  lemma NameValidatorsAgree(v: string)
    ensures ValidateNombre(v) == "" <==> ValidateRepresentante(v) == ""
    ensures !IsBlank(v) ==> ValidateNombre(v) == ValidateRepresentante(v)
    ensures ValidateNombre(v) == "" <==> SpanAtLeast(v, 3) && NamePattern(v)
  {
  }

  // ---------------------------------------------------------------------------
  // Razón social
  // ---------------------------------------------------------------------------

  /** `validateRazonSocial`: required and at least three characters once trimmed; any
      characters are allowed. */
  function ValidateRazonSocial(v: string): (msg: string)
    ensures msg == "" <==> SpanAtLeast(v, 3)
  {
    TrimLengthAtLeast(v, 3);
    if Trim(v) == [] then "La razón social es requerida"
    else if |Trim(v)| < 3 then "La razón social debe tener al menos 3 caracteres"
    else ""
  }

  // ---------------------------------------------------------------------------
  // Email
  // ---------------------------------------------------------------------------

  /** A character of the class `[^\s@]`. */
  predicate PlainChar(c: char) {
    !IsSpace(c) && c != '@'
  }

  /** A match of `[^\s@]+`. */
  predicate PlainRun(s: string) {
    |s| > 0 && forall k :: 0 <= k < |s| ==> PlainChar(s[k])
  }

  /** `v` matches `^[^\s@]+@[^\s@]+\.[^\s@]+$` with the `@` at `i` and the `.` at `j`. */
  predicate EmailSplit(v: string, i: nat, j: nat) {
    i < j < |v| && v[i] == '@' && v[j] == '.'
    && PlainRun(v[..i]) && PlainRun(v[i + 1..j]) && PlainRun(v[j + 1..])
  }

  /** The email pattern `^[^\s@]+@[^\s@]+\.[^\s@]+$`. */
  ghost predicate EmailPattern(v: string) {
    exists i: nat, j: nat :: EmailSplit(v, i, j)
  }

  predicate NoSpace(s: string) {
    forall k :: 0 <= k < |s| ==> !IsSpace(s[k])
  }

  /** The pattern as a direct check: no white space, a non-empty part before the first `@`,
      no second `@`, and a `.` strictly inside the part after it. */
  predicate EmailShape(v: string) {
    var at := Find(v, '@');
    var domain := v[if at < |v| then at + 1 else |v|..];
    NoSpace(v) && 0 < at < |v| && '@' !in domain && |domain| >= 3
    && '.' in domain[1..|domain| - 1]
  }

  lemma EmailShapeIffPattern(v: string)
    ensures EmailShape(v) <==> EmailPattern(v)
  {
    if EmailShape(v) {
      ShapeGivesPattern(v);
    }
    if EmailPattern(v) {
      PatternGivesShape(v);
    }
  }

  lemma ShapeGivesPattern(v: string)
    requires EmailShape(v)
    ensures EmailPattern(v)
  {
    var at := Find(v, '@');
    var domain := v[at + 1..];
    var d :| 0 <= d < |domain[1..|domain| - 1]| && domain[1..|domain| - 1][d] == '.';
    var j := at + 2 + d;
    assert v[j] == '.';
    assert forall k :: at + 1 <= k < |v| ==> v[k] == domain[k - at - 1];
    assert EmailSplit(v, at, j);
  }

  lemma PatternGivesShape(v: string)
    requires EmailPattern(v)
    ensures EmailShape(v)
  {
    var i: nat, j: nat :| EmailSplit(v, i, j);
    RunChars(v, 0, i);
    RunChars(v, i + 1, j);
    RunChars(v, j + 1, |v|);
    assert v[..i] == v[0..i] && v[j + 1..] == v[j + 1..|v|];
    assert forall k :: 0 <= k < |v| && k != i ==> v[k] != '@';
    assert NoSpace(v);
    assert Find(v, '@') == i;
    var domain := v[i + 1..];
    assert '@' !in domain;
    assert domain[1..|domain| - 1][j - i - 2] == '.';
  }

  /** Every character of a `[^\s@]+` run inside `v` is plain. */
  lemma RunChars(v: string, a: nat, b: nat)
    requires a <= b <= |v| && PlainRun(v[a..b])
    ensures forall k :: a <= k < b ==> PlainChar(v[k])
  {
    forall k | a <= k < b
      ensures PlainChar(v[k])
    {
      assert v[k] == v[a..b][k - a];
    }
  }

  /** `validateEmail`, shared by both forms. */
  function ValidateEmail(v: string): (msg: string)
    ensures msg == "" <==> EmailPattern(v)
  {
    EmailShapeIffPattern(v);
    if IsBlank(v) then "El correo electrónico es requerido"
    else if !EmailShape(v) then "Ingrese un correo electrónico válido"
    else ""
  }

  /** What an accepted address looks like: exactly one `@`, at index `at`, with a non-empty,
      space-free local part before it and, after it, a domain with a `.` that is neither its
      first nor its last character. */
  predicate AddressAround(v: string, at: nat) {
    && 0 < at < |v|
    && (forall k :: 0 <= k < |v| && k != at ==> v[k] != '@')
    && NoSpace(v[..at])
    && at + 2 <= |v| - 1
    && '.' in v[at + 2..|v| - 1]
  }

  lemma AcceptedEmailShape(v: string)
    requires ValidateEmail(v) == ""
    ensures AddressAround(v, Find(v, '@'))
  {
    PatternGivesShape(v);
    var at := Find(v, '@');
    var domain := v[at + 1..];
    assert forall k :: at < k < |v| ==> v[k] == domain[k - at - 1];
    assert NoSpace(v[..at]) by {
      forall k | 0 <= k < at ensures !IsSpace(v[..at][k]) { assert v[..at][k] == v[k]; }
    }
    var d :| 0 <= d < |domain[1..|domain| - 1]| && domain[1..|domain| - 1][d] == '.';
    assert v[at + 2..|v| - 1][d] == '.';
  }

  // ---------------------------------------------------------------------------
  // Celular
  // ---------------------------------------------------------------------------

  /** `validateCelular`, shared by both forms: required, and exactly ten digits once every
      non-digit is removed. */
  function ValidateCelular(v: string): (msg: string)
    ensures msg == "" <==> !IsBlank(v) && |DigitsOf(v)| == 10
  {
    if IsBlank(v) then "El número de celular es requerido"
    else if |DigitsOf(v)| != 10 then "El celular debe tener 10 dígitos"
    else ""
  }

  /** Counts the digits of `v` in one left-to-right pass. */
  method CountDigits(v: string) returns (n: nat)
    ensures n == |DigitsOf(v)|
  {
    n := 0;
    var i := 0;
    while i < |v|
      invariant 0 <= i <= |v|
      invariant n == |DigitsOf(v[..i])|
    {
      assert v[..i + 1][..i] == v[..i];
      if IsDigit(v[i]) {
        n := n + 1;
      }
      i := i + 1;
    }
    assert v[..i] == v;
  }

  lemma {:induction false} DigitsOfConcat(a: string, b: string)
    ensures DigitsOf(a + b) == DigitsOf(a) + DigitsOf(b)
    decreases |b|
  {
    if b == [] {
      assert a + b == a;
    } else {
      var b' := b[..|b| - 1];
      assert (a + b)[..|a + b| - 1] == a + b';
      DigitsOfConcat(a, b');
    }
  }

  /** Separators are ignored: a number written in two pieces around any non-digit,
      non-space character is accepted exactly when the pieces hold ten digits together. */
  lemma CelularIgnoresSeparators(a: string, b: string, sep: char)
    requires !IsDigit(sep) && !IsSpace(sep)
    ensures ValidateCelular(a + [sep] + b) == "" <==> |DigitsOf(a)| + |DigitsOf(b)| == 10
  {
    var v := a + [sep] + b;
    assert v[|a|] == sep;
    DigitsOfConcat(a + [sep], b);
    DigitsOfConcat(a, [sep]);
    assert DigitsOf([sep]) == [] by {
      assert [sep][..0] == [];
    }
  }

  // ---------------------------------------------------------------------------
  // Fixed IP
  // ---------------------------------------------------------------------------

  /** The octet alternatives `25[0-5]|2[0-4][0-9]|[01]?[0-9][0-9]?` as the pattern reads. */
  predicate OctetPattern(g: string) {
    || (|g| == 3 && g[0] == '2' && g[1] == '5' && '0' <= g[2] <= '5')
    || (|g| == 3 && g[0] == '2' && '0' <= g[1] <= '4' && IsDigit(g[2]))
    || (|g| == 3 && (g[0] == '0' || g[0] == '1') && IsDigit(g[1]) && IsDigit(g[2]))
    || (|g| == 2 && IsDigit(g[0]) && IsDigit(g[1]))
    || (|g| == 1 && IsDigit(g[0]))
  }

  /** One to three digits denoting a number no larger than 255 (leading zeros allowed). */
  predicate IsOctet(g: string) {
    1 <= |g| <= 3 && AllDigits(g) && DecimalValue(g) <= 255
  }

  lemma DecimalValue3(g: string)
    requires |g| == 3 && AllDigits(g)
    ensures DecimalValue(g) == 100 * DigitValue(g[0]) + 10 * DigitValue(g[1]) + DigitValue(g[2])
  {
    var g2 := g[..2];
    var g1 := g2[..1];
    assert g1 == [g[0]] && g1[..0] == [];
    assert DecimalValue(g1) == DigitValue(g[0]);
    assert DecimalValue(g2) == 10 * DigitValue(g[0]) + DigitValue(g[1]);
  }

  lemma DecimalValue2(g: string)
    requires |g| == 2 && AllDigits(g)
    ensures DecimalValue(g) == 10 * DigitValue(g[0]) + DigitValue(g[1])
  {
    var g1 := g[..1];
    assert g1 == [g[0]] && g1[..0] == [];
    assert DecimalValue(g1) == DigitValue(g[0]);
  }

  /** The octet alternatives accept exactly the one-to-three-digit numerals up to 255. */
  lemma OctetPatternIffValue(g: string)
    ensures OctetPattern(g) <==> IsOctet(g)
  {
    if |g| == 3 && AllDigits(g) {
      DecimalValue3(g);
    } else if |g| == 2 && AllDigits(g) {
      DecimalValue2(g);
    } else if |g| == 1 && AllDigits(g) {
      assert g[..0] == [];
      assert DecimalValue(g) == DigitValue(g[0]);
    }
  }

  /** `v` is four octets joined by dots. */
  predicate IpDecomposition(v: string, parts: seq<string>) {
    |parts| == 4 && Join(parts, '.') == v
    && forall k :: 0 <= k < 4 ==> OctetPattern(parts[k])
  }

  /** The pattern `^(?:(?:octet)\.){3}(?:octet)$`. */
  ghost predicate IpPattern(v: string) {
    exists parts :: IpDecomposition(v, parts)
  }

  /** The pattern as a direct check: split on dots, four pieces, each a valid octet. */
  predicate IpShape(v: string) {
    var parts := Split(v, '.');
    |parts| == 4 && forall k :: 0 <= k < 4 ==> IsOctet(parts[k])
  }

  lemma IpShapeIffPattern(v: string)
    ensures IpShape(v) <==> IpPattern(v)
  {
    var parts := Split(v, '.');
    if IpShape(v) {
      JoinSplit(v, '.');
      forall k | 0 <= k < 4 ensures OctetPattern(parts[k]) {
        OctetPatternIffValue(parts[k]);
      }
      assert IpDecomposition(v, parts);
    }
    if IpPattern(v) {
      var ps :| IpDecomposition(v, ps);
      forall k | 0 <= k < 4 ensures IsOctet(ps[k]) && '.' !in ps[k] {
        OctetPatternIffValue(ps[k]);
        assert forall c :: c in ps[k] ==> IsDigit(c);
      }
      SplitJoin(ps, '.');
    }
  }

  /** `validateFixedIp`: optional (blank is fine); otherwise the dotted-quad pattern,
      tested on the untrimmed value. */
  function ValidateFixedIp(v: string): (msg: string)
    ensures msg == "" <==> IsBlank(v) || IpPattern(v)
  {
    IpShapeIffPattern(v);
    if IsBlank(v) then ""
    else if !IpShape(v) then "Ingrese una dirección IP válida (ej: 192.168.1.1)"
    else ""
  }

  /** Because the pattern is tested on the raw value, surrounding white space is rejected. */
  lemma FixedIpRejectsLeadingSpace(v: string, c: char)
    requires IsSpace(c) && v != []
    ensures ValidateFixedIp([c] + v) == "" <==> IsBlank(v)
  {
    var w := [c] + v;
    if IpPattern(w) {
      var ps :| IpDecomposition(w, ps);
      JoinHead(ps, '.');
      OctetPatternIffValue(ps[0]);
      assert false;
    }
    if IsBlank(v) {
      assert IsBlank(w) by {
        assert forall k :: 1 <= k < |w| ==> w[k] == v[k - 1];
      }
    }
    if IsBlank(w) {
      assert forall k :: 0 <= k < |v| ==> v[k] == w[k + 1];
    }
  }

  lemma JoinHead(parts: seq<string>, sep: char)
    requires |parts| > 0 && |parts[0]| > 0
    ensures |Join(parts, sep)| > 0 && Join(parts, sep)[0] == parts[0][0]
  {
  }

  // ---------------------------------------------------------------------------
  // URLs (webhookUrl, websiteUrl)
  // ---------------------------------------------------------------------------

  /** What the WHATWG URL parser reports for a string: no URL, or the URL's protocol.
      The parser itself is not part of this model. */
  type UrlParser = string -> Option<string>

  const UrlProtocolMessage := "La URL debe comenzar con http:// o https://"

  /** The shape shared by `validateWebhookUrl` and `validateWebsiteUrl`: optional, and
      otherwise a parseable URL whose protocol starts with "http". */
  function ValidateUrl(v: string, parse: UrlParser, invalid: string): (msg: string)
    requires invalid != ""
    ensures msg == "" <==> IsBlank(v) || (parse(v).Some? && StartsWith(parse(v).value, "http"))
  {
    if IsBlank(v) then ""
    else match parse(v)
      case None => invalid
      case Some(protocol) => if StartsWith(protocol, "http") then "" else UrlProtocolMessage
  }

  function ValidateWebhookUrl(v: string, parse: UrlParser): string {
    ValidateUrl(v, parse, "Ingrese una URL válida (ej: https://ejemplo.com/webhook)")
  }

  function ValidateWebsiteUrl(v: string, parse: UrlParser): string {
    ValidateUrl(v, parse, "Ingrese una URL válida (ej: https://ejemplo.com)")
  }

  // ---------------------------------------------------------------------------
  // RFC (Mexican tax id)
  // ---------------------------------------------------------------------------

  /** A character of the class `[A-ZÑ&]`. */
  predicate RfcLetter(c: char) {
    ('A' <= c <= 'Z') || c == 'Ñ' || c == '&'
  }

  /** A character of the class `[A-Z0-9]`. */
  predicate RfcAlnum(c: char) {
    ('A' <= c <= 'Z') || IsDigit(c)
  }

  /** `u` matches `[A-ZÑ&]{k}\d{6}[A-Z0-9]{3}`. */
  predicate RfcShape(u: string, k: nat) {
    3 <= k <= 4 && |u| == k + 9
    && (forall i :: 0 <= i < k ==> RfcLetter(u[i]))
    && (forall i :: k <= i < k + 6 ==> IsDigit(u[i]))
    && (forall i :: k + 6 <= i < |u| ==> RfcAlnum(u[i]))
  }

  /** The pattern `^[A-ZÑ&]{3,4}\d{6}[A-Z0-9]{3}$`. */
  ghost predicate RfcPattern(u: string) {
    exists k: nat :: RfcShape(u, k)
  }

  /** The pattern as a direct check: the length decides how many letters lead. */
  predicate RfcCheck(u: string) {
    (|u| == 12 && RfcShape(u, 3)) || (|u| == 13 && RfcShape(u, 4))
  }

  lemma RfcCheckIffPattern(u: string)
    ensures RfcCheck(u) <==> RfcPattern(u)
  {
    if RfcPattern(u) {
      var k: nat :| RfcShape(u, k);
      assert k == 3 || k == 4;
    }
  }

  /** `validateRFC`: required, then the pattern on the upper-cased value. */
  function ValidateRfc(v: string): (msg: string)
    ensures msg == "" <==> !IsBlank(v) && RfcPattern(Upper(v))
    ensures msg == "" ==> |Upper(v)| == 12 || |Upper(v)| == 13
    ensures msg == "" ==> |v| <= 13
  {
    RfcCheckIffPattern(Upper(v));
    if IsBlank(v) then "El RFC es requerido"
    else if !RfcCheck(Upper(v)) then "Ingrese un RFC válido (ej: ABC123456XYZ)"
    else ""
  }

  /** Upper-casing leaves white space alone and never turns anything else into it. */
  lemma {:induction false} UpperKeepsBlank(v: string)
    ensures IsBlank(Upper(v)) <==> IsBlank(v)
  {
    if v != [] {
      UpperKeepsBlank(v[1..]);
      var head, tail := UpperChar(v[0]), Upper(v[1..]);
      assert Upper(v) == head + tail;
      BlankAppend(head, tail);
      if !IsSpace(v[0]) { assert !IsSpace(head[0]); }
      assert IsBlank(v) <==> IsSpace(v[0]) && IsBlank(v[1..]) by {
        if IsSpace(v[0]) && IsBlank(v[1..]) {
          forall i | 1 <= i < |v| ensures IsSpace(v[i]) { assert v[i] == v[1..][i - 1]; }
        }
      }
    }
  }

  /** A value written in capitals and digits only is accepted exactly when it has the RFC
      shape. */
  lemma CapitalsAcceptedIffShape(u: string)
    requires forall i :: 0 <= i < |u| ==> RfcAlnum(u[i])
    ensures ValidateRfc(u) == "" <==> RfcCheck(u)
  {
    CapitalsSettled(u);
    RfcCheckIffPattern(u);
    if RfcCheck(u) { assert !IsSpace(u[0]); }
  }

  /** Upper-casing turns a small `ß` into "SS", so the RFC check reads it as two letters. */
  lemma SharpSStandsForSS(rest: string)
    ensures ValidateRfc("ß" + rest) == ValidateRfc("SS" + rest)
  {
    UpperAppend("ß", rest);
    UpperAppend("SS", rest);
    assert Upper("ß") == "SS" == Upper("SS");
    assert !IsBlank("ß" + rest) && !IsBlank("SS" + rest) by {
      assert ("ß" + rest)[0] == 'ß';
      assert ("SS" + rest)[0] == 'S';
    }
  }

  /** `SSA010101AAA` is written in capitals and digits and has the RFC shape with three
      leading letters. */
  lemma TwelveCharacterRfcShape(u: string)
    requires u == "SSA010101AAA"
    ensures forall i :: 0 <= i < |u| ==> RfcAlnum(u[i])
    ensures RfcShape(u, 3)
  {
  }

  /** An accepted RFC can be eleven characters long as typed: `ß` followed by
      `A010101AAA` upper-cases to the twelve-character `SSA010101AAA`. */
  lemma ElevenCharacterRfcAccepted(rest: string)
    requires rest == "A010101AAA"
    ensures |"ß" + rest| == 11 && ValidateRfc("ß" + rest) == ""
  {
    SharpSStandsForSS(rest);
    TwelveCharacterRfcShape("SS" + rest);
    CapitalsAcceptedIffShape("SS" + rest);
  }

  /** The RFC check ignores case: a value and its upper-cased form get the same message. */
  lemma RfcCaseInsensitive(v: string)
    ensures ValidateRfc(Upper(v)) == ValidateRfc(v)
  {
    UpperIdempotent(v);
    UpperKeepsBlank(v);
    RfcCheckIffPattern(Upper(v));
    RfcCheckIffPattern(Upper(Upper(v)));
  }
}
