/** The pure parts of the HTTP client (src/services/api.ts): the message shown for a failed
    request, the default `x-api-key` header, the headers of each payment call, and the
    multipart body of an enrollment. The transport itself is not modelled. */
module Api {
  import opened Common
  import DocumentUpload

  // ---------------------------------------------------------------------------
  // Error messages
  // ---------------------------------------------------------------------------

  /** One entry of the `errors` list of a validation failure. */
  datatype FieldIssue = FieldIssue(field: string, message: string)

  /** The body of an error response; absent properties are `None`. */
  datatype ErrorBody = ErrorBody(message: Option<string>, error: Option<string>, errors: Option<seq<FieldIssue>>)

  /** What a request can throw: an axios error, with its own message and possibly a response
      body, or anything else. */
  datatype Failure = AxiosFailure(transportMessage: string, body: Option<ErrorBody>) | OtherFailure

  const GenericError := "An unexpected error occurred"

  /** `${field}: ${message}`. */
  function DescribeIssue(e: FieldIssue): string {
    e.field + ": " + e.message
  }

  /** The entries described and joined with ", ", in list order. */
  function DescribeIssues(es: seq<FieldIssue>): string
    requires |es| > 0
  {
    if |es| == 1 then DescribeIssue(es[0]) else DescribeIssue(es[0]) + ", " + DescribeIssues(es[1..])
  }

  /** Describing a list piece by piece: the description of `a + b` is that of `a`, a comma,
      then that of `b`. */
  lemma {:induction false} DescribeIssuesAppend(a: seq<FieldIssue>, b: seq<FieldIssue>)
    requires |a| > 0 && |b| > 0
    ensures DescribeIssues(a + b) == DescribeIssues(a) + ", " + DescribeIssues(b)
    decreases |a|
  {
    if |a| == 1 {
      assert (a + b)[1..] == b;
    } else {
      DescribeIssuesAppend(a[1..], b);
      assert (a + b)[1..] == a[1..] + b;
    }
  }

  /** The description opens with the first entry's field and message. */
  lemma DescribeIssuesStartsWithFirst(es: seq<FieldIssue>)
    requires |es| > 0
    ensures var d := DescribeIssue(es[0]);
      |d| <= |DescribeIssues(es)| && DescribeIssues(es)[..|d|] == d
  {
  }

  /** `getErrorMessage`: for an axios error with a body, the body's non-empty `message`, else
      its non-empty `error`, else its non-empty `errors` described; failing those the axios
      message; for anything else a fixed sentence. */
  function ErrorMessage(f: Failure): (r: string)
    ensures f.OtherFailure? ==> r == GenericError
    ensures f.AxiosFailure? && f.body.Some? && Truthy(f.body.value.message) ==> r == f.body.value.message.value
    ensures f.AxiosFailure? && f.body.Some? && !Truthy(f.body.value.message) && Truthy(f.body.value.error) ==>
      r == f.body.value.error.value
    ensures (f.AxiosFailure? && f.body.Some? && !Truthy(f.body.value.message) && !Truthy(f.body.value.error)
             && f.body.value.errors.Some? && |f.body.value.errors.value| > 0)
            ==> r == DescribeIssues(f.body.value.errors.value)
    ensures (f.AxiosFailure? && (f.body.None? || (!Truthy(f.body.value.message) && !Truthy(f.body.value.error)
             && (f.body.value.errors.None? || f.body.value.errors.value == []))))
            ==> r == f.transportMessage
  {
    match f
    case OtherFailure => GenericError
    case AxiosFailure(transport, body) =>
      if body.Some? then
        var b := body.value;
        if Truthy(b.message) then b.message.value
        else if Truthy(b.error) then b.error.value
        else if b.errors.Some? && |b.errors.value| > 0 then DescribeIssues(b.errors.value)
        else transport
      else transport
  }

  /** The message always comes from the failure itself or is the fixed sentence: one of the
      body's strings, the description of its entries, or the transport message. */
  lemma ErrorMessageSource(f: Failure)
    ensures var r := ErrorMessage(f);
      r == GenericError
      || (f.AxiosFailure? && r == f.transportMessage)
      || (f.AxiosFailure? && f.body.Some? && f.body.value.message == Some(r) && r != "")
      || (f.AxiosFailure? && f.body.Some? && f.body.value.error == Some(r) && r != "")
      || (f.AxiosFailure? && f.body.Some? && f.body.value.errors.Some? && |f.body.value.errors.value| > 0
          && r == DescribeIssues(f.body.value.errors.value))
  {
  }

  // ---------------------------------------------------------------------------
  // The x-api-key header
  // ---------------------------------------------------------------------------

  type Headers = map<string, string>

  const ApiKeyHeader := "x-api-key"

  /** `setApiKey`: a non-empty key becomes the default header, the empty key removes it. */
  function SetApiKey(h: Headers, key: string): (r: Headers)
    ensures key != "" ==> ApiKeyHeader in r && r[ApiKeyHeader] == key
    ensures key == "" ==> ApiKeyHeader !in r
    ensures forall n :: n != ApiKeyHeader ==> (n in r <==> n in h) && (n in r ==> r[n] == h[n])
  {
    if key != "" then h[ApiKeyHeader := key] else h - {ApiKeyHeader}
  }

  /** `clearApiKey`: the header is gone, everything else stays. */
  function ClearApiKey(h: Headers): (r: Headers)
    ensures ApiKeyHeader !in r
    ensures forall n :: n != ApiKeyHeader ==> (n in r <==> n in h) && (n in r ==> r[n] == h[n])
  {
    h - {ApiKeyHeader}
  }

  /** Setting a key and then clearing it leaves the headers as clearing alone does, and
      setting the empty key is clearing. */
  lemma SetThenClear(h: Headers, key: string)
    ensures ClearApiKey(SetApiKey(h, key)) == ClearApiKey(h)
    ensures SetApiKey(h, "") == ClearApiKey(h)
  {
  }

  /** The last key set wins. */
  lemma SetTwice(h: Headers, k1: string, k2: string)
    ensures SetApiKey(SetApiKey(h, k1), k2) == SetApiKey(h, k2)
  {
  }

  // ---------------------------------------------------------------------------
  // Payment calls
  // ---------------------------------------------------------------------------

  datatype Endpoint = Qr | Push | Consulta

  /** The path each payment call posts to. */
  function EndpointPath(e: Endpoint): (p: string)
    ensures |p| > 9 && p[..9] == "/v2/codi/"
  {
    match e
    case Qr => "/v2/codi/qr"
    case Push => "/v2/codi/push"
    case Consulta => "/v2/codi/consulta"
  }

  /** The per-request headers of `generateQR`, `sendPush` and `checkStatus`. */
  function RequestHeaders(apiKey: Option<string>): (r: Headers)
    ensures ApiKeyHeader in r <==> Truthy(apiKey)
    ensures ApiKeyHeader in r ==> r[ApiKeyHeader] == apiKey.value
    ensures forall n :: n in r ==> n == ApiKeyHeader
  {
    if Truthy(apiKey) then map[ApiKeyHeader := apiKey.value] else map[]
  }

  /** Distinct calls post to distinct paths. */
  lemma EndpointPathsDistinct(a: Endpoint, b: Endpoint)
    ensures EndpointPath(a) == EndpointPath(b) <==> a == b
  {
  }

  // ---------------------------------------------------------------------------
  // Enrollment body
  // ---------------------------------------------------------------------------

  /** `EnrollmentSubmission`: what the wizard hands `submitEnrollment`. */
  datatype Submission = Submission(
    userType: UserKind, email: string, celular: string, nombre: Option<string>,
    razonSocial: Option<string>, rfc: Option<string>, representanteLegal: Option<string>,
    webhookUrl: Option<string>, websiteUrl: Option<string>, fixedIp: Option<string>,
    documents: DocumentUpload.Documents)

  /** One `formData.append`: a named text value or a named file. */
  datatype Part = TextPart(name: string, value: string) | FilePart(name: string, file: DocumentUpload.File)

  /** The part name of each document slot. */
  function SlotName(s: DocumentUpload.Slot): string {
    match s
    case Ine => "ine"
    case ConstanciaFiscal => "constanciaFiscal"
    case ComprobanteDomicilio => "comprobanteDomicilio"
    case CaratulaBancaria => "caratulaBancaria"
  }

  /** The slots in the order their files are appended. */
  const SlotOrder: seq<DocumentUpload.Slot> :=
    [DocumentUpload.Ine, DocumentUpload.ConstanciaFiscal, DocumentUpload.ComprobanteDomicilio, DocumentUpload.CaratulaBancaria]

  /** The text parts: kind, contact, then the kind's own fields. */
  function TextParts(s: Submission): seq<Part> {
    [TextPart("userType", UserKindName(s.userType)), TextPart("email", s.email), TextPart("celular", s.celular)]
    + (match s.userType
       case Fisica => [TextPart("nombre", OrEmpty(s.nombre))]
       case Moral => [TextPart("razonSocial", OrEmpty(s.razonSocial)), TextPart("rfc", OrEmpty(s.rfc)),
                      TextPart("representanteLegal", OrEmpty(s.representanteLegal))])
  }

  /** The file parts of the given slots, skipping empty ones. */
  function FileParts(d: DocumentUpload.Documents, slots: seq<DocumentUpload.Slot>): (r: seq<Part>)
    ensures |r| <= |slots|
    ensures forall i :: 0 <= i < |r| ==> r[i].FilePart?
  {
    if slots == [] then []
    else
      (match d.Get(slots[0])
       case Some(f) => [FilePart(SlotName(slots[0]), f)]
       case None => [])
      + FileParts(d, slots[1..])
  }

  /** The multipart body of `submitEnrollment`, in append order. */
  function EnrollmentParts(s: Submission): seq<Part> {
    TextParts(s) + FileParts(s.documents, SlotOrder)
  }

  function Names(ps: seq<Part>): seq<string> {
    seq(|ps|, i requires 0 <= i < |ps| => ps[i].name)
  }

  /** The names of the filled slots, in the fixed slot order. */
  function FilledSlotNames(d: DocumentUpload.Documents, slots: seq<DocumentUpload.Slot>): seq<string> {
    if slots == [] then []
    else (if d.Get(slots[0]).Some? then [SlotName(slots[0])] else []) + FilledSlotNames(d, slots[1..])
  }

  lemma {:induction false} FilePartNames(d: DocumentUpload.Documents, slots: seq<DocumentUpload.Slot>)
    ensures Names(FileParts(d, slots)) == FilledSlotNames(d, slots)
  {
    if slots != [] {
      FilePartNames(d, slots[1..]);
      var rest := FileParts(d, slots[1..]);
      match d.Get(slots[0])
      case Some(f) =>
        var head := [FilePart(SlotName(slots[0]), f)];
        assert FileParts(d, slots) == head + rest;
        NamesAppend(head, rest);
      case None =>
        assert FileParts(d, slots) == [] + rest;
    }
  }

  lemma NamesAppend(a: seq<Part>, b: seq<Part>)
    ensures Names(a + b) == Names(a) + Names(b)
  {
  }

  /** The order of the parts: kind, email, phone, then the name for a person or the three
      company fields for a company, then the filled document slots in their fixed order. */
  lemma EnrollmentPartOrder(s: Submission)
    ensures s.userType == Fisica ==>
      Names(EnrollmentParts(s)) == ["userType", "email", "celular", "nombre"] + FilledSlotNames(s.documents, SlotOrder)
    ensures s.userType == Moral ==>
      Names(EnrollmentParts(s)) == ["userType", "email", "celular", "razonSocial", "rfc", "representanteLegal"]
                                    + FilledSlotNames(s.documents, SlotOrder)
  {
    FilePartNames(s.documents, SlotOrder);
    assert Names(EnrollmentParts(s)) == Names(TextParts(s)) + Names(FileParts(s.documents, SlotOrder));
  }

  /** The value of the first text part with a given name, as a server would read it. */
  function TextValue(ps: seq<Part>, name: string): Option<string> {
    if ps == [] then None
    else if ps[0].TextPart? && ps[0].name == name then Some(ps[0].value)
    else TextValue(ps[1..], name)
  }

  /** The file of the first file part with a given name. */
  function FileValue(ps: seq<Part>, name: string): Option<DocumentUpload.File> {
    if ps == [] then None
    else if ps[0].FilePart? && ps[0].name == name then Some(ps[0].file)
    else FileValue(ps[1..], name)
  }

  lemma {:induction false} TextValueAppend(a: seq<Part>, b: seq<Part>, name: string)
    ensures TextValue(a + b, name) == (if TextValue(a, name).Some? then TextValue(a, name) else TextValue(b, name))
  {
    if a != [] {
      TextValueAppend(a[1..], b, name);
      assert (a + b)[1..] == a[1..] + b;
    } else {
      assert a + b == b;
    }
  }

  lemma {:induction false} FileValueAppend(a: seq<Part>, b: seq<Part>, name: string)
    ensures FileValue(a + b, name) == (if FileValue(a, name).Some? then FileValue(a, name) else FileValue(b, name))
  {
    if a != [] {
      FileValueAppend(a[1..], b, name);
      assert (a + b)[1..] == a[1..] + b;
    } else {
      assert a + b == b;
    }
  }

  lemma {:induction false} NoTextInFileParts(d: DocumentUpload.Documents, slots: seq<DocumentUpload.Slot>, name: string)
    ensures TextValue(FileParts(d, slots), name) == None
  {
    if slots != [] {
      NoTextInFileParts(d, slots[1..], name);
      var head := match d.Get(slots[0]) case Some(f) => [FilePart(SlotName(slots[0]), f)] case None => [];
      assert FileParts(d, slots) == head + FileParts(d, slots[1..]);
      TextValueAppend(head, FileParts(d, slots[1..]), name);
    }
  }

  lemma {:induction false} FilePartsLookup(d: DocumentUpload.Documents, slots: seq<DocumentUpload.Slot>, s: DocumentUpload.Slot)
    requires forall i, j :: 0 <= i < j < |slots| ==> slots[i] != slots[j]
    ensures s in slots ==> FileValue(FileParts(d, slots), SlotName(s)) == d.Get(s)
    ensures s !in slots ==> FileValue(FileParts(d, slots), SlotName(s)) == None
  {
    if slots != [] {
      FilePartsLookup(d, slots[1..], s);
      var head := match d.Get(slots[0]) case Some(f) => [FilePart(SlotName(slots[0]), f)] case None => [];
      assert FileParts(d, slots) == head + FileParts(d, slots[1..]);
      FileValueAppend(head, FileParts(d, slots[1..]), SlotName(s));
      if s == slots[0] {
        assert s !in slots[1..];
      }
    }
  }

  predicate NamedText(p: Part, name: string) {
    p.TextPart? && p.name == name
  }

  /** The first text part with the name is the one found. */
  lemma {:induction false} TextValueAt(ps: seq<Part>, name: string, i: nat)
    requires i < |ps| && NamedText(ps[i], name)
    requires forall j :: 0 <= j < i ==> !NamedText(ps[j], name)
    ensures TextValue(ps, name) == Some(ps[i].value)
  {
    if i > 0 {
      TextValueAt(ps[1..], name, i - 1);
    }
  }

  /** With no text part of the name, nothing is found. */
  lemma {:induction false} TextValueAbsent(ps: seq<Part>, name: string)
    requires forall j :: 0 <= j < |ps| ==> !NamedText(ps[j], name)
    ensures TextValue(ps, name) == None
  {
    if ps != [] {
      TextValueAbsent(ps[1..], name);
    }
  }

  /** Among text parts only, no file is found. */
  lemma {:induction false} FileValueInTextParts(ps: seq<Part>, name: string)
    requires forall j :: 0 <= j < |ps| ==> ps[j].TextPart?
    ensures FileValue(ps, name) == None
  {
    if ps != [] {
      FileValueInTextParts(ps[1..], name);
    }
  }

  /** The text fields read back from a body: each field of the submission is found under its
      name (absent ones as ""), and the other kind's fields, the URLs and the IP are not there
      at all. */
  predicate TextFieldsReadBack(ps: seq<Part>, s: Submission) {
    && TextValue(ps, "userType") == Some(UserKindName(s.userType))
    && TextValue(ps, "email") == Some(s.email)
    && TextValue(ps, "celular") == Some(s.celular)
    && (s.userType == Fisica ==>
          && TextValue(ps, "nombre") == Some(OrEmpty(s.nombre))
          && TextValue(ps, "razonSocial") == None && TextValue(ps, "rfc") == None
          && TextValue(ps, "representanteLegal") == None)
    && (s.userType == Moral ==>
          && TextValue(ps, "nombre") == None
          && TextValue(ps, "razonSocial") == Some(OrEmpty(s.razonSocial))
          && TextValue(ps, "rfc") == Some(OrEmpty(s.rfc))
          && TextValue(ps, "representanteLegal") == Some(OrEmpty(s.representanteLegal)))
    && TextValue(ps, "webhookUrl") == None && TextValue(ps, "websiteUrl") == None
    && TextValue(ps, "fixedIp") == None
  }

  lemma TextPartsReadBack(s: Submission)
    ensures TextFieldsReadBack(TextParts(s), s)
  {
    match s.userType
    case Fisica => FisicaTextReadBack(s);
    case Moral => MoralTextReadBack(s);
  }

  lemma FisicaTextReadBack(s: Submission)
    requires s.userType == Fisica
    ensures TextFieldsReadBack(TextParts(s), s)
  {
    var tp := TextParts(s);
    assert tp == [TextPart("userType", UserKindName(s.userType)), TextPart("email", s.email),
                  TextPart("celular", s.celular), TextPart("nombre", OrEmpty(s.nombre))];
    TextValueAt(tp, "userType", 0);
    TextValueAt(tp, "email", 1);
    TextValueAt(tp, "celular", 2);
    TextValueAt(tp, "nombre", 3);
    TextValueAbsent(tp, "webhookUrl");
    TextValueAbsent(tp, "websiteUrl");
    TextValueAbsent(tp, "fixedIp");
    TextValueAbsent(tp, "razonSocial");
    TextValueAbsent(tp, "rfc");
    TextValueAbsent(tp, "representanteLegal");
  }

  lemma MoralTextReadBack(s: Submission)
    requires s.userType == Moral
    ensures TextFieldsReadBack(TextParts(s), s)
  {
    var tp := TextParts(s);
    assert tp == [TextPart("userType", UserKindName(s.userType)), TextPart("email", s.email),
                  TextPart("celular", s.celular), TextPart("razonSocial", OrEmpty(s.razonSocial)),
                  TextPart("rfc", OrEmpty(s.rfc)), TextPart("representanteLegal", OrEmpty(s.representanteLegal))];
    TextValueAt(tp, "userType", 0);
    TextValueAt(tp, "email", 1);
    TextValueAt(tp, "celular", 2);
    TextValueAt(tp, "razonSocial", 3);
    TextValueAt(tp, "rfc", 4);
    TextValueAt(tp, "representanteLegal", 5);
    TextValueAbsent(tp, "webhookUrl");
    TextValueAbsent(tp, "websiteUrl");
    TextValueAbsent(tp, "fixedIp");
    TextValueAbsent(tp, "nombre");
  }

  /** Reading the whole body back: the text fields as above, and every slot's file found
      under the slot's name exactly when the slot is filled. */
  lemma EnrollmentPartsReadBack(s: Submission)
    ensures TextFieldsReadBack(EnrollmentParts(s), s)
    ensures forall slot :: FileValue(EnrollmentParts(s), SlotName(slot)) == s.documents.Get(slot)
  {
    EnrollmentTextReadBack(s);
    EnrollmentFilesReadBack(s);
  }

  lemma EnrollmentTextReadBack(s: Submission)
    ensures TextFieldsReadBack(EnrollmentParts(s), s)
  {
    EnrollmentTextValues(s);
    TextPartsReadBack(s);
    SameTextValues(EnrollmentParts(s), TextParts(s), s);
  }

  /** The file parts add no text value. */
  lemma EnrollmentTextValues(s: Submission)
    ensures forall name: string :: TextValue(EnrollmentParts(s), name) == TextValue(TextParts(s), name)
  {
    var tp, fp := TextParts(s), FileParts(s.documents, SlotOrder);
    forall name: string ensures TextValue(tp + fp, name) == TextValue(tp, name) {
      TextValueAppend(tp, fp, name);
      NoTextInFileParts(s.documents, SlotOrder, name);
    }
  }

  /** Bodies with the same text values read back the same text fields. */
  lemma SameTextValues(ps: seq<Part>, qs: seq<Part>, s: Submission)
    requires forall name: string :: TextValue(ps, name) == TextValue(qs, name)
    requires TextFieldsReadBack(qs, s)
    ensures TextFieldsReadBack(ps, s)
  {
  }

  lemma EnrollmentFilesReadBack(s: Submission)
    ensures forall slot :: FileValue(EnrollmentParts(s), SlotName(slot)) == s.documents.Get(slot)
  {
    forall slot ensures FileValue(EnrollmentParts(s), SlotName(slot)) == s.documents.Get(slot) {
      EnrollmentFileReadBack(s, slot);
    }
  }

  lemma EnrollmentFileReadBack(s: Submission, slot: DocumentUpload.Slot)
    ensures FileValue(EnrollmentParts(s), SlotName(slot)) == s.documents.Get(slot)
  {
    var tp, fp := TextParts(s), FileParts(s.documents, SlotOrder);
    FileValueAppend(tp, fp, SlotName(slot));
    FileValueInTextParts(tp, SlotName(slot));
    FilePartsLookup(s.documents, SlotOrder, slot);
    assert slot in SlotOrder by {
      match slot
      case Ine => assert SlotOrder[0] == slot;
      case ConstanciaFiscal => assert SlotOrder[1] == slot;
      case ComprobanteDomicilio => assert SlotOrder[2] == slot;
      case CaratulaBancaria => assert SlotOrder[3] == slot;
    }
  }
}
