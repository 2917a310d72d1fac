/**
 The values every other module shares: targets, check results, alerts, and Go's
 64-bit durations. Times and durations are integers counting nanoseconds; Go's
 zero `time.Time` is `None`.
 */
module Domain {

  datatype Option<+T> = None | Some(value: T)

  /** What `net/url` reports about a string it can parse. */
  datatype Url = Url(scheme: string, host: string, hostname: string, port: string)

  /** `url.Parse`, which is not modelled: any function, but the same one for every caller. */
  type UrlParser = string -> Option<Url>

  const SECOND := 1_000_000_000

  const SCHEME_HTTP := "http"
  const SCHEME_HTTPS := "https"
  const SCHEME_TCP := "tcp"

  datatype Target = Target(
    name: string,
    url: string,
    expectedStatus: int,
    httpMethod: string,
    timeout: int,
    interval: int,
    company: string,
    proxy: string,
    certExpiryWarning: int)
  {
    predicate IsTcp(parse: UrlParser) {
      var u := parse(url);
      u.Some? && u.value.scheme == SCHEME_TCP
    }
  }

  datatype Error =
    | Cancelled
    | RequestFailed(reason: string)
    | StatusMismatch(expected: int, actual: int)
    | CertExpiring(host: string, notAfter: int)

  datatype CheckResult = CheckResult(
    target: Target,
    success: bool,
    actualStatus: int,
    error: Option<Error>,
    latency: int,
    timestamp: int,
    attempts: int,
    certNotAfter: Option<int>)

  datatype HealthStatus = Unknown | Healthy | Unhealthy

  datatype AlertKind = Failure | Recovery | Reminder

  datatype Alert = Alert(kind: AlertKind, target: Target, result: CheckResult)

  ghost predicate DistinctNames(targets: seq<Target>) {
    forall i, j :: 0 <= i < j < |targets| ==> targets[i].name != targets[j].name
  }
}
