/** The values that flow through the detector: recorded events, request
    metadata, window statistics and decisions. */
module Types {
  import opened JsValues

  /** One recorded request.  `path` is None when the stored value is not a string. */
  datatype Event = Event(
    ip: string,
    path: Option<string>,
    verb: string,
    userAgent: string,
    acceptLanguage: string,
    timestamp: Stamp)

  /** The string-typed fields of a JSON request body (None: absent or not a string). */
  datatype Body = Body(
    path: Option<string>,
    verb: Option<string>,
    userAgent: Option<string>,
    acceptLanguage: Option<string>)

  /** The request metadata the routes read. */
  datatype Request = Request(
    forwardedFor: Option<string>,    // headers["x-forwarded-for"], when it is a string
    ip: string,                      // req.ip
    remoteAddress: Option<string>,   // req.socket.remoteAddress
    originalUrl: string,             // req.originalUrl
    verb: string,                    // req.method
    userAgent: Option<string>,       // req.get("user-agent")
    acceptLanguage: Option<string>,  // req.get("accept-language")
    queryIp: Option<string>,         // req.query.ip, when it is a string
    body: Body)

  /** `{count_10s, count_60s, rpm, unique_paths_60s}`. */
  datatype Stats = Stats(count10s: nat, count60s: nat, rpm: nat, uniquePaths60s: nat)

  const ZeroStats := Stats(0, 0, 0, 0)

  datatype Verdict = Allow | Challenge | Block
  {
    function Name(): string
    {
      match this
      case Allow => "ALLOW"
      case Challenge => "CHALLENGE"
      case Block => "BLOCK"
    }
  }

  datatype Reason =
    | VeryHighRpm | HighRpm
    | Burst10s | ElevatedBurst10s
    | VeryManyUniquePaths | ManyUniquePaths
  {
    function Code(): string
    {
      match this
      case VeryHighRpm => "very_high_rpm"
      case HighRpm => "high_rpm"
      case Burst10s => "burst_10s"
      case ElevatedBurst10s => "elevated_burst_10s"
      case VeryManyUniquePaths => "very_many_unique_paths"
      case ManyUniquePaths => "many_unique_paths"
    }
  }

  /** `{decision, score, reasons}`. */
  datatype Decision = Decision(verdict: Verdict, score: nat, reasons: seq<Reason>)
}
