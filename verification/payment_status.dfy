/** The status-query result panel (src/components/common/PaymentStatusDisplay.tsx): the badge
    each transaction status code gets, and which parts of the panel show for a response. */
module PaymentStatus {
  import opened Common

  /** A badge: its title, text colour and background. */
  datatype StatusInfo = StatusInfo(title: string, color: string, bgColor: string)

  /** `getStatusInfo`: the four known codes of `edoMC`, and a grey "unknown" badge for every
      other code. */
  function GetStatusInfo(edoMC: int): (r: StatusInfo)
    ensures edoMC == 0 ==> r.title == "Completado" && r.color == "text-green-800" && r.bgColor == "bg-green-100"
    ensures edoMC == -1 ==> r.title == "Pendiente" && r.color == "text-yellow-800" && r.bgColor == "bg-yellow-100"
    ensures edoMC == -2 ==> r.title == "Error" && r.color == "text-red-800" && r.bgColor == "bg-red-100"
    ensures edoMC == -3 ==> r.title == "Rechazado" && r.color == "text-red-800" && r.bgColor == "bg-red-100"
    ensures !(-3 <= edoMC <= 0) ==> r.title == "Desconocido" && r.color == "text-gray-800" && r.bgColor == "bg-gray-100"
  {
    if edoMC == 0 then StatusInfo("Completado", "text-green-800", "bg-green-100")
    else if edoMC == -1 then StatusInfo("Pendiente", "text-yellow-800", "bg-yellow-100")
    else if edoMC == -2 then StatusInfo("Error", "text-red-800", "bg-red-100")
    else if edoMC == -3 then StatusInfo("Rechazado", "text-red-800", "bg-red-100")
    else StatusInfo("Desconocido", "text-gray-800", "bg-gray-100")
  }

  /** Reading a title back: the status code it stands for, if it is one of the four. */
  function CodeOfLabel(title: string): Option<int> {
    if title == "Completado" then Some(0)
    else if title == "Pendiente" then Some(-1)
    else if title == "Error" then Some(-2)
    else if title == "Rechazado" then Some(-3)
    else None
  }

  /** The title tells the code back for the four known codes, and no code for any other. */
  lemma LabelRoundTrip(edoMC: int)
    ensures CodeOfLabel(GetStatusInfo(edoMC).title) == (if -3 <= edoMC <= 0 then Some(edoMC) else None)
  {
  }

  /** The badge is red exactly for the failed codes, green exactly for the completed one. */
  lemma StatusColours(edoMC: int)
    ensures GetStatusInfo(edoMC).color == "text-red-800" <==> edoMC == -2 || edoMC == -3
    ensures GetStatusInfo(edoMC).color == "text-green-800" <==> edoMC == 0
  {
  }

  // ---------------------------------------------------------------------------
  // The panel
  // ---------------------------------------------------------------------------

  datatype Transaction = Transaction(folioCodi: string, concepto: string, edoMC: int)

  /** The parts of a status response the panel branches on. */
  datatype Response = Response(account: Option<string>, transactions: Option<seq<Transaction>>, ultPag: Option<bool>)

  /** The list part of the panel. */
  datatype ListView =
    | NoTransactions
    | TransactionList(heading: nat, badges: seq<StatusInfo>, pagination: Option<string>)

  const LastPage := "✓ Esta es la última página"
  const MorePages := "Hay más páginas disponibles"

  /** The list part: the transactions with their badges and the pagination note when the
      response says whether this is the last page, or the empty message. */
  function ListOf(r: Response): (v: ListView)
    ensures v.NoTransactions? <==> r.transactions.None? || r.transactions.value == []
    ensures v.TransactionList? ==> v.heading == |r.transactions.value| && |v.badges| == |r.transactions.value|
    ensures v.TransactionList? ==>
      forall i :: 0 <= i < |v.badges| ==> v.badges[i] == GetStatusInfo(r.transactions.value[i].edoMC)
    ensures v.TransactionList? ==> (v.pagination.Some? <==> r.ultPag.Some?)
    ensures v.TransactionList? ==> (v.pagination == Some(LastPage) <==> r.ultPag == Some(true))
  {
    if r.transactions.Some? && |r.transactions.value| > 0 then
      var txs := r.transactions.value;
      var note := match r.ultPag case None => None case Some(last) => Some(if last then LastPage else MorePages);
      TransactionList(|txs|, seq(|txs|, i requires 0 <= i < |txs| => GetStatusInfo(txs[i].edoMC)), note)
    else NoTransactions
  }

  /** The account box shows exactly when the response carries account data. */
  predicate ShowsAccount(r: Response) {
    r.account.Some?
  }
}
