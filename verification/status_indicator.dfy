/** The health badge in the header (src/components/common/StatusIndicator.tsx): grey while the
    health check is loading, red when it failed or reports "unhealthy", green otherwise. */
module StatusIndicator {
  import opened Common

  /** What the health query reports: loading, failed, and the payload once there is one. */
  datatype Health = Health(isLoading: bool, isError: bool, status: Option<string>)

  datatype Indicator = Indicator(color: string, text: string, pulse: bool)

  const Checking := Indicator("bg-gray-400", "Verificando...", false)
  const Offline := Indicator("bg-red-500", "Sistema Fuera de Línea", false)
  const Operational := Indicator("bg-green-500", "Sistema Operativo", true)

  /** `getStatus`. */
  function GetStatus(h: Health): (r: Indicator)
    ensures r == Checking || r == Offline || r == Operational
    ensures h.isLoading ==> r == Checking
    ensures !h.isLoading ==> (r == Offline <==> h.isError || h.status == Some("unhealthy"))
  {
    if h.isLoading then Checking
    else if h.isError || h.status == Some("unhealthy") then Offline
    else Operational
  }

  /** The dot pulses exactly when the system is reported operational, which includes a
      finished check with no payload. */
  lemma PulseIffOperational(h: Health)
    ensures GetStatus(h).pulse <==> GetStatus(h) == Operational
    ensures GetStatus(h).pulse <==> !h.isLoading && !h.isError && h.status != Some("unhealthy")
    ensures !h.isLoading && !h.isError && h.status.None? ==> GetStatus(h) == Operational
  {
  }
}
