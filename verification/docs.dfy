/** The documentation page (src/pages/Docs.tsx): three sections in a fixed order, the active
    one held as its id, previous/next buttons that move by one position, and the content chosen
    from the active id. */
module Docs {
  const SectionIds: seq<string> := ["getting-started", "api-reference", "error-codes"]

  const First := SectionIds[0]
  const Last := SectionIds[|SectionIds| - 1]

  /** `sections.findIndex(s => s.id === id)`: the position of `id`, or -1. */
  function FindIndex(id: string): (i: int)
    ensures -1 <= i < |SectionIds|
    ensures i >= 0 ==> SectionIds[i] == id
    ensures i == -1 <==> id !in SectionIds
  {
    if id == SectionIds[0] then 0
    else if id == SectionIds[1] then 1
    else if id == SectionIds[2] then 2
    else -1
  }

  /** The "Anterior" button shows on every section but the first. */
  predicate ShowsPrevious(active: string) {
    active != "getting-started"
  }

  /** The "Siguiente" button shows on every section but the last. */
  predicate ShowsNext(active: string) {
    active != "error-codes"
  }

  /** The "Anterior" handler: one position back, nothing at the first. */
  function Previous(active: string): (r: string)
    ensures FindIndex(active) > 0 ==> FindIndex(r) == FindIndex(active) - 1
    ensures FindIndex(active) <= 0 ==> r == active
  {
    var i := FindIndex(active);
    if i > 0 then SectionIds[i - 1] else active
  }

  /** The "Siguiente" handler: one position on, nothing at the last. An id that is not a
      section has position -1 and so moves to the first section. */
  function Next(active: string): (r: string)
    ensures FindIndex(active) < |SectionIds| - 1 ==> FindIndex(r) == FindIndex(active) + 1
    ensures FindIndex(active) == |SectionIds| - 1 ==> r == active
  {
    var i := FindIndex(active);
    if i < |SectionIds| - 1 then SectionIds[i + 1] else active
  }

  /** For a section, the buttons show exactly where they can move. */
  lemma ButtonsShowWhereTheyMove(active: string)
    requires active in SectionIds
    ensures ShowsPrevious(active) <==> FindIndex(active) > 0
    ensures ShowsNext(active) <==> FindIndex(active) < |SectionIds| - 1
  {
  }

  /** Previous undoes Next and Next undoes Previous wherever the button is shown. */
  lemma PreviousNextInverse(active: string)
    requires active in SectionIds
    ensures ShowsNext(active) ==> Previous(Next(active)) == active
    ensures ShowsPrevious(active) ==> Next(Previous(active)) == active
  {
  }

  datatype Event = PickSection(index: nat) | PreviousClicked | NextClicked

  /** A click: the sidebar picks a section from the list; the buttons act only when shown. */
  function Step(active: string, ev: Event): (r: string)
    ensures active in SectionIds ==> r in SectionIds
  {
    match ev
    case PickSection(i) => if i < |SectionIds| then SectionIds[i] else active
    case PreviousClicked => if ShowsPrevious(active) then Previous(active) else active
    case NextClicked => if ShowsNext(active) then Next(active) else active
  }

  function Run(active: string, evs: seq<Event>): string
    decreases |evs|
  {
    if evs == [] then active else Run(Step(active, evs[0]), evs[1..])
  }

  /** From any section, the active id stays one of the three. */
  lemma {:induction false} ActiveAlwaysSection(active: string, evs: seq<Event>)
    requires active in SectionIds
    ensures Run(active, evs) in SectionIds
    decreases |evs|
  {
    if evs != [] {
      ActiveAlwaysSection(Step(active, evs[0]), evs[1..]);
    }
  }

  datatype Page = GettingStartedPage | ApiReferencePage | ErrorCodesPage

  const Pages: seq<Page> := [GettingStartedPage, ApiReferencePage, ErrorCodesPage]

  /** `renderContent`: the page of the active section; any other id falls back to the first. */
  function RenderContent(active: string): (p: Page)
    ensures active in SectionIds ==> p == Pages[FindIndex(active)]
    ensures active !in SectionIds ==> p == GettingStartedPage
  {
    match active
    case "getting-started" => GettingStartedPage
    case "api-reference" => ApiReferencePage
    case "error-codes" => ErrorCodesPage
    case _ => GettingStartedPage
  }

  /** Distinct sections show distinct pages. */
  lemma RenderContentDistinct(a: string, b: string)
    requires a in SectionIds && b in SectionIds
    ensures RenderContent(a) == RenderContent(b) <==> a == b
  {
  }
}
