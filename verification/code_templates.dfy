/** The code-example templates (src/utils/codeTemplates.ts): for each language and payment call
    a text assembled from fixed pieces, the call's URL, the API key and the example payload's
    field lines, in each language's quoting and indentation. A template is thus a fixed head,
    the key, and a fixed tail. */
module CodeTemplates {
  import opened Text
  import Api

  datatype Language = Curl | JavaScript | Python

  const ApiUrl := "http://localhost:3000"

  /** `${API_URL}/v2/codi/<call>`. */
  function Url(e: Api.Endpoint): string {
    ApiUrl + Api.EndpointPath(e)
  }

  /** Every example URL is the server, then `/v2/codi/`, then the call's own path. */
  lemma UrlShape(e: Api.Endpoint)
    ensures |Url(e)| > |ApiUrl| + 9
    ensures Url(e)[..|ApiUrl|] == ApiUrl && Url(e)[|ApiUrl|..|ApiUrl| + 9] == "/v2/codi/"
    ensures Url(e)[|ApiUrl|..] == Api.EndpointPath(e)
  {
    var p := Api.EndpointPath(e);
    assert (ApiUrl + p)[|ApiUrl|..|ApiUrl| + 9] == p[..9];
  }

  /** The examples of distinct calls post to distinct URLs. */
  lemma UrlsDistinct(a: Api.Endpoint, b: Api.Endpoint)
    ensures Url(a) == Url(b) <==> a == b
  {
    Api.EndpointPathsDistinct(a, b);
    UrlShape(a);
    UrlShape(b);
  }

  // ---------------------------------------------------------------------------
  // Texts made of pieces
  // ---------------------------------------------------------------------------

  /** The pieces written one after another. */
  function Concat(ss: seq<string>): string
    decreases |ss|
  {
    if ss == [] then "" else ss[0] + Concat(ss[1..])
  }

  lemma {:induction false} ConcatAppend(a: seq<string>, b: seq<string>)
    ensures Concat(a + b) == Concat(a) + Concat(b)
    decreases |a|
  {
    if a == [] {
      assert a + b == b;
    } else {
      assert (a + b)[1..] == a[1..] + b;
      ConcatAppend(a[1..], b);
      assert Concat(a + b) == a[0] + (Concat(a[1..]) + Concat(b));
    }
  }

  /** Piece `j` starts right after the pieces before it. */
  lemma PieceAt(ss: seq<string>, j: nat)
    requires j < |ss|
    ensures Concat(ss) == Concat(ss[..j]) + ss[j] + Concat(ss[j + 1..])
    ensures OccursAt(Concat(ss), ss[j], |Concat(ss[..j])|)
  {
    assert ss == ss[..j] + ([ss[j]] + ss[j + 1..]);
    ConcatAppend(ss[..j], [ss[j]] + ss[j + 1..]);
    ConcatAppend([ss[j]], ss[j + 1..]);
    assert Concat([ss[j]]) == ss[j] by {
      assert [ss[j]][1..] == [];
    }
    var r := Concat(ss);
    assert r[|Concat(ss[..j])|..|Concat(ss[..j])| + |ss[j]|] == ss[j];
  }

  /** The second piece follows the first. */
  lemma SecondPiece(ss: seq<string>)
    requires |ss| >= 2
    ensures OccursAt(Concat(ss), ss[1], |ss[0]|)
  {
    PieceAt(ss, 1);
    assert ss[..1] == [ss[0]];
    assert Concat(ss[..1]) == ss[0] by {
      assert [ss[0]][1..] == [];
    }
  }

  /** Every piece occurs in the text. */
  lemma PieceOccurs(ss: seq<string>, x: string)
    requires x in ss
    ensures Occurs(Concat(ss), x)
  {
    var j :| 0 <= j < |ss| && ss[j] == x;
    PieceAt(ss, j);
  }

  // ---------------------------------------------------------------------------
  // Example payloads
  // ---------------------------------------------------------------------------

  /** A value in an example body: a string (quoted in every language) or a number (bare). */
  datatype Literal = Quoted(text: string) | Number(text: string)

  datatype Entry = Entry(name: string, value: Literal)

  const QrPayload: seq<Entry> := [
    Entry("monto", Number("99.99")),
    Entry("referenciaNumerica", Quoted("1234567")),
    Entry("concepto", Quoted("Pago de ejemplo")),
    Entry("vigencia", Quoted("0"))]

  /** The fields every template of a call sends, in order. */
  function Payload(e: Api.Endpoint): seq<Entry> {
    match e
    case Qr => QrPayload
    case Push => QrPayload + [Entry("celularCliente", Quoted("5512345678"))]
    case Consulta => [
      Entry("folioCodi", Quoted("321e210838321e210838")),
      Entry("tpg", Number("10")),
      Entry("npg", Number("1")),
      Entry("fechaInicial", Quoted("0")),
      Entry("fechaFinal", Quoted("0"))]
  }

  function Names(p: seq<Entry>): (r: seq<string>)
    ensures |r| == |p|
    ensures forall i :: 0 <= i < |p| ==> r[i] == p[i].name
  {
    if p == [] then [] else [p[0].name] + Names(p[1..])
  }

  /** Only the push examples send the customer's phone. */
  lemma CelularOnlyInPush(e: Api.Endpoint)
    ensures "celularCliente" in Names(Payload(e)) <==> e == Api.Push
  {
    var n := Names(Payload(e));
    if e == Api.Push {
      assert n[4] == "celularCliente";
    }
  }

  /** The push example is the QR example with the phone added at the end. */
  lemma PushExtendsQr()
    ensures Payload(Api.Push)[..|Payload(Api.Qr)|] == Payload(Api.Qr)
    ensures |Payload(Api.Push)| == |Payload(Api.Qr)| + 1
  {
  }

  // ---------------------------------------------------------------------------
  // Field lines
  // ---------------------------------------------------------------------------

  /** cURL bodies are JSON (double quotes); the others use single quotes. */
  function Quote(l: Language): string {
    if l == Curl then "\"" else "'"
  }

  /** Field names are quoted except in the JavaScript object literal. */
  function NameQuote(l: Language): string {
    if l == JavaScript then "" else Quote(l)
  }

  function ValueText(l: Language, v: Literal): string {
    match v
    case Quoted(t) => Quote(l) + t + Quote(l)
    case Number(t) => t
  }

  function Indent(l: Language): string {
    if l == JavaScript then "  " else "    "
  }

  /** One field line, such as `    "monto": 99.99`, as pieces. */
  function LinePieces(l: Language, x: Entry): seq<string> {
    [Indent(l), NameQuote(l), x.name, NameQuote(l), ": ", ValueText(l, x.value)]
  }

  /** The field lines separated by `,` and a line break. */
  function Fields(l: Language, p: seq<Entry>): seq<string>
    decreases |p|
  {
    if |p| == 0 then []
    else if |p| == 1 then LinePieces(l, p[0])
    else LinePieces(l, p[0]) + [",\n"] + Fields(l, p[1..])
  }

  /** Every field's name is written among the field lines. */
  lemma {:induction false} NameInFields(l: Language, p: seq<Entry>, i: nat)
    requires i < |p|
    ensures p[i].name in Fields(l, p)
    decreases |p|
  {
    assert LinePieces(l, p[0])[2] == p[0].name;
    if i > 0 {
      NameInFields(l, p[1..], i - 1);
    }
  }

  // ---------------------------------------------------------------------------
  // The nine templates
  // ---------------------------------------------------------------------------

  /** The text before the URL. */
  function Lead(l: Language): string {
    match l
    case Curl => "curl -X POST "
    case JavaScript => "import axios from 'axios';\n\nconst response = await axios.post('"
    case Python => "import requests\n\nurl = '"
  }

  /** The text that opens the field lines. */
  function BodyOpen(l: Language): string {
    match l
    case Curl => "\" \\\n  -d '{\n"
    case JavaScript => "', {\n"
    case Python => "'\n}\ndata = {\n"
  }

  /** The header lines, ending where the key goes. */
  function HeaderLines(l: Language): string {
    match l
    case Curl => " \\\n  -H \"Content-Type: application/json\" \\\n  -H \"x-api-key: "
    case JavaScript => "\n}, {\n  headers: {\n    'Content-Type': 'application/json',\n    'x-api-key': '"
    case Python => "'\nheaders = {\n    'Content-Type': 'application/json',\n    'x-api-key': '"
  }

  /** The text after everything else. */
  function Closing(l: Language): string {
    match l
    case Curl => "\n  }'"
    case JavaScript => "'\n  }\n});\n\nconsole.log(response.data);"
    case Python => "\n}\n\nresponse = requests.post(url, json=data, headers=headers)\nprint(response.json())"
  }

  /** The pieces before the key: cURL and Python have only the lead, URL and headers there;
      JavaScript has the body first. */
  function HeadPieces(l: Language, e: Api.Endpoint): seq<string> {
    [Lead(l), Url(e)]
    + (if l == JavaScript then [BodyOpen(l)] + Fields(l, Payload(e)) + [HeaderLines(l)] else [HeaderLines(l)])
  }

  /** The pieces after the key. */
  function TailPieces(l: Language, e: Api.Endpoint): seq<string> {
    if l == JavaScript then [Closing(l)]
    else [BodyOpen(l)] + Fields(l, Payload(e)) + [Closing(l)]
  }

  /** The fixed text before the key, and after it. */
  function Head(l: Language, e: Api.Endpoint): string {
    Concat(HeadPieces(l, e))
  }

  function Tail(l: Language, e: Api.Endpoint): string {
    Concat(TailPieces(l, e))
  }

  /** `<language>Templates[<call>](apiKey)`. */
  function Template(l: Language, e: Api.Endpoint, key: string): string {
    Head(l, e) + key + Tail(l, e)
  }

  /** The key follows the fixed head, and the URL follows the lead. */
  lemma TemplateLayout(l: Language, e: Api.Endpoint, key: string)
    ensures OccursAt(Template(l, e, key), key, |Head(l, e)|)
    ensures OccursAt(Template(l, e, key), Url(e), |Lead(l)|)
  {
    Between(Head(l, e), key, Tail(l, e));
    UrlInHead(l, e);
    HeadLifts(l, e, key, Url(e), |Lead(l)|);
  }

  lemma UrlInHead(l: Language, e: Api.Endpoint)
    ensures OccursAt(Head(l, e), Url(e), |Lead(l)|)
  {
    SecondPiece(HeadPieces(l, e));
  }

  /** What occurs in the head occurs at the same place in every output. */
  lemma HeadLifts(l: Language, e: Api.Endpoint, key: string, x: string, j: nat)
    requires OccursAt(Head(l, e), x, j)
    ensures OccursAt(Template(l, e, key), x, j)
  {
    InFront(Head(l, e), key, Tail(l, e), x, j);
  }

  /** What occurs in the tail occurs, shifted by the head and key, in the output. */
  lemma TailLifts(l: Language, e: Api.Endpoint, key: string, x: string, j: nat)
    requires OccursAt(Tail(l, e), x, j)
    ensures OccursAt(Template(l, e, key), x, |Head(l, e)| + |key| + j)
  {
    AtBack(Head(l, e), key, Tail(l, e), x, j);
  }

  /** Reads the key back out of an example: the text between the fixed head and tail. */
  function KeyOf(l: Language, e: Api.Endpoint, s: string): string {
    var h, t := |Head(l, e)|, |Tail(l, e)|;
    if h + t <= |s| then s[h..|s| - t] else ""
  }

  /** Reading the key back gives the key that was put in. */
  lemma KeyRoundTrip(l: Language, e: Api.Endpoint, key: string)
    ensures KeyOf(l, e, Template(l, e, key)) == key
  {
    var h, t := Head(l, e), Tail(l, e);
    Middle(h, key, t);
  }

  /** The text between `a` and `c` in `a + b + c` is `b`. */
  lemma Middle(a: string, b: string, c: string)
    ensures (a + b + c)[|a|..|a + b + c| - |c|] == b
  {
  }

  /** Distinct keys give distinct examples. */
  lemma TemplateInjective(l: Language, e: Api.Endpoint, k1: string, k2: string)
    ensures Template(l, e, k1) == Template(l, e, k2) <==> k1 == k2
  {
    if Template(l, e, k1) == Template(l, e, k2) {
      KeyRoundTrip(l, e, k1);
      KeyRoundTrip(l, e, k2);
    }
  }

  /** `b` sits at index `|a|` of `a + b + c`. */
  lemma Between(a: string, b: string, c: string)
    ensures OccursAt(a + b + c, b, |a|)
  {
    assert (a + b + c)[|a|..|a| + |b|] == b;
  }

  lemma InFront(h: string, key: string, t: string, x: string, j: nat)
    requires OccursAt(h, x, j)
    ensures OccursAt(h + key + t, x, j)
  {
    Between("", h, key + t);
    assert "" + h + (key + t) == h + key + t;
    OccursTransitive(h + key + t, h, 0, x, j);
  }

  lemma AtBack(h: string, key: string, t: string, x: string, j: nat)
    requires OccursAt(t, x, j)
    ensures OccursAt(h + key + t, x, |h| + |key| + j)
  {
    Between(h + key, t, "");
    assert h + key + t + "" == h + key + t;
    OccursTransitive(h + key + t, t, |h + key|, x, j);
  }

  /** An occurrence inside an occurrence is an occurrence. */
  lemma OccursTransitive(s: string, t: string, i: nat, u: string, j: nat)
    requires OccursAt(s, t, i) && OccursAt(t, u, j)
    ensures OccursAt(s, u, i + j)
  {
    forall k | 0 <= k < |u|
      ensures s[i + j + k] == u[k]
    {
      assert u[k] == t[j + k] == s[i + j + k];
    }
  }

  /** A field's name is a piece of the head in JavaScript, of the tail in the others. */
  lemma NameInHeadPieces(e: Api.Endpoint, i: nat)
    requires i < |Payload(e)|
    ensures Payload(e)[i].name in HeadPieces(JavaScript, e)
  {
    NameInFields(JavaScript, Payload(e), i);
  }

  lemma NameInTailPieces(l: Language, e: Api.Endpoint, i: nat)
    requires i < |Payload(e)| && l != JavaScript
    ensures Payload(e)[i].name in TailPieces(l, e)
  {
    NameInFields(l, Payload(e), i);
  }

  /** Every example names every field of its call's payload, whatever the key. */
  lemma FieldNamedInTemplate(l: Language, e: Api.Endpoint, key: string, i: nat)
    requires i < |Payload(e)|
    ensures Occurs(Template(l, e, key), Payload(e)[i].name)
  {
    if l == JavaScript {
      FieldNamedInHead(e, key, i);
    } else {
      FieldNamedInTail(l, e, key, i);
    }
  }

  lemma FieldNamedInHead(e: Api.Endpoint, key: string, i: nat)
    requires i < |Payload(e)|
    ensures Occurs(Template(JavaScript, e, key), Payload(e)[i].name)
  {
    NameInHeadPieces(e, i);
    PieceInFront(HeadPieces(JavaScript, e), key, Tail(JavaScript, e), Payload(e)[i].name);
  }

  lemma FieldNamedInTail(l: Language, e: Api.Endpoint, key: string, i: nat)
    requires i < |Payload(e)| && l != JavaScript
    ensures Occurs(Template(l, e, key), Payload(e)[i].name)
  {
    NameInTailPieces(l, e, i);
    PieceAtBack(Head(l, e), key, TailPieces(l, e), Payload(e)[i].name);
  }

  /** A piece of the head occurs in head, key and tail together. */
  lemma PieceInFront(ps: seq<string>, key: string, t: string, x: string)
    requires x in ps
    ensures Occurs(Concat(ps) + key + t, x)
  {
    PieceOccurs(ps, x);
    var j: nat :| OccursAt(Concat(ps), x, j);
    InFront(Concat(ps), key, t, x, j);
  }

  /** A piece of the tail occurs in head, key and tail together. */
  lemma PieceAtBack(h: string, key: string, ps: seq<string>, x: string)
    requires x in ps
    ensures Occurs(h + key + Concat(ps), x)
  {
    PieceOccurs(ps, x);
    var j: nat :| OccursAt(Concat(ps), x, j);
    AtBack(h, key, Concat(ps), x, j);
  }

  /** In particular every push example mentions the customer's phone. */
  lemma PushTemplateNamesCelular(l: Language, key: string)
    ensures Occurs(Template(l, Api.Push, key), "celularCliente")
  {
    CelularIsLast();
    FieldNamedInTemplate(l, Api.Push, key, 4);
  }

  lemma CelularIsLast()
    ensures |Payload(Api.Push)| == 5 && Payload(Api.Push)[4].name == "celularCliente"
  {
  }
}
