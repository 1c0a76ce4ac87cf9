/** The code generator tool (src/components/tools/CodeGenerator.tsx): the chosen call and
    language, and the key shown in the examples — a placeholder until the stored key is one of
    the 128 characters a valid key has. */
module CodeGenerator {
  import opened Text
  import Api
  import opened CodeTemplates

  const Placeholder := "YOUR_API_KEY_HERE"

  /** The length every accepted API key has. */
  const KeyLength := 128

  datatype Generator = Generator(endpoint: Api.Endpoint, language: Language, displayApiKey: string)

  const Initial := Generator(Api.Qr, Curl, Placeholder)

  /** The key shown is the placeholder or a key of the accepted length. */
  predicate DisplayOk(g: Generator) {
    g.displayApiKey == Placeholder || |g.displayApiKey| == KeyLength
  }

  /** The effect run when the stored key changes: only a key of the accepted length replaces
      the one shown; an empty or short key leaves the last one in place. */
  function KeyChanged(g: Generator, apiKey: string): (r: Generator)
    ensures |apiKey| == KeyLength ==> r.displayApiKey == apiKey
    ensures |apiKey| != KeyLength ==> r == g
    ensures r.endpoint == g.endpoint && r.language == g.language
  {
    if apiKey != "" && |apiKey| == KeyLength then g.(displayApiKey := apiKey) else g
  }

  datatype Event = KeyStored(apiKey: string) | PickEndpoint(e: Api.Endpoint) | PickLanguage(l: Language)

  function Step(g: Generator, ev: Event): (r: Generator)
    ensures DisplayOk(g) ==> DisplayOk(r)
    ensures ev.PickEndpoint? ==> r == g.(endpoint := ev.e)
    ensures ev.PickLanguage? ==> r == g.(language := ev.l)
  {
    match ev
    case KeyStored(k) => KeyChanged(g, k)
    case PickEndpoint(e) => g.(endpoint := e)
    case PickLanguage(l) => g.(language := l)
  }

  function Run(g: Generator, evs: seq<Event>): Generator
    decreases |evs|
  {
    if evs == [] then g else Run(Step(g, evs[0]), evs[1..])
  }

  /** Whatever happens, the examples show the placeholder or a key of the accepted length. */
  lemma {:induction false} DisplayAlwaysOk(g: Generator, evs: seq<Event>)
    requires DisplayOk(g)
    ensures DisplayOk(Run(g, evs))
    decreases |evs|
  {
    if evs != [] {
      DisplayAlwaysOk(Step(g, evs[0]), evs[1..]);
    }
  }

  /** The shown key is the last stored key of the accepted length, or the placeholder when
      there was none. */
  function LastAccepted(shown: string, evs: seq<Event>): string
    decreases |evs|
  {
    if evs == [] then shown
    else if evs[0].KeyStored? && |evs[0].apiKey| == KeyLength then LastAccepted(evs[0].apiKey, evs[1..])
    else LastAccepted(shown, evs[1..])
  }

  lemma {:induction false} DisplayIsLastAccepted(g: Generator, evs: seq<Event>)
    ensures Run(g, evs).displayApiKey == LastAccepted(g.displayApiKey, evs)
    decreases |evs|
  {
    if evs != [] {
      DisplayIsLastAccepted(Step(g, evs[0]), evs[1..]);
    }
  }

  /** `getCode`: the chosen template applied to the shown key; the key can be read back out of
      the example, which posts to the chosen call's URL. */
  function GetCode(g: Generator): (r: string)
    ensures KeyOf(g.language, g.endpoint, r) == g.displayApiKey
    ensures OccursAt(r, Url(g.endpoint), |Lead(g.language)|)
  {
    KeyRoundTrip(g.language, g.endpoint, g.displayApiKey);
    TemplateLayout(g.language, g.endpoint, g.displayApiKey);
    Template(g.language, g.endpoint, g.displayApiKey)
  }

  /** `getLanguageLabel`: a name for every language, no two alike. */
  function LanguageLabel(l: Language): (s: string)
    ensures s != ""
  {
    match l
    case Curl => "cURL"
    case JavaScript => "JavaScript (Axios)"
    case Python => "Python (requests)"
  }

  lemma LanguageLabelsDistinct(a: Language, b: Language)
    ensures LanguageLabel(a) == LanguageLabel(b) <==> a == b
  {
  }

  /** The language's own identifier, as the selector knows it. */
  function LanguageId(l: Language): string {
    match l
    case Curl => "curl"
    case JavaScript => "javascript"
    case Python => "python"
  }

  /** The highlighter's grammar: shell for cURL, the language itself otherwise. */
  function Highlighter(l: Language): (s: string)
    ensures s == "bash" <==> l == Curl
    ensures l != Curl ==> s == LanguageId(l)
  {
    if l == Curl then "bash" else LanguageId(l)
  }
}
