/**
 Configuration defaults and validation, and what the rest of the program may rely on once a
 configuration has been accepted.
 */
module Config {
  import opened Domain
  import opened Backoff
  import AlertMachine
  import Cadence
  import CheckAll
  import Checker
  import Detection
  import EnvNames
  import Float64
  import Int64
  import Proxy

  const MODE_ONESHOT := "oneshot"
  const MODE_CONTINUOUS := "continuous"
  const LOG_LEVELS := {"debug", "info", "warn", "error"}

  const DEFAULT_METHOD := "GET"
  const DEFAULT_INTERVAL := 30 * SECOND
  const DEFAULT_STATUS := 200
  const DEFAULT_ALERTER_TIMEOUT := 10 * SECOND

  datatype AppConfig = AppConfig(mode: string, logLevel: string, concurrency: int, reminderMultiplier: int)

  datatype HttpConfig = HttpConfig(timeout: int, proxy: string, certExpiryWarning: int)

  datatype AlerterConfig = AlerterConfig(
    kind: string,
    enabled: bool,
    companies: seq<string>,
    timeout: int,
    proxy: string,
    botToken: string,
    chatId: string,
    webhookUrl: string)

  // ---------------------------------------------------------------------------
  // Defaults.

  function DefaultedAlerter(http: HttpConfig, a: AlerterConfig): AlerterConfig {
    a.(timeout := if a.timeout == 0 then DEFAULT_ALERTER_TIMEOUT else a.timeout,
       proxy := if a.proxy == "" then http.proxy else a.proxy)
  }

  function DefaultedTarget(http: HttpConfig, t: Target): Target {
    t.(proxy := if t.proxy == "" then http.proxy else t.proxy,
       certExpiryWarning := if t.certExpiryWarning == 0 then http.certExpiryWarning else t.certExpiryWarning,
       httpMethod := if t.httpMethod == "" then DEFAULT_METHOD else t.httpMethod,
       timeout := if t.timeout == 0 then http.timeout else t.timeout,
       interval := if t.interval == 0 then DEFAULT_INTERVAL else t.interval,
       expectedStatus := if t.expectedStatus == 0 then DEFAULT_STATUS else t.expectedStatus)
  }

  /** Filling in defaults twice is filling them in once. */
  lemma DefaultsAreIdempotent(http: HttpConfig, a: AlerterConfig, t: Target)
    ensures DefaultedAlerter(http, DefaultedAlerter(http, a)) == DefaultedAlerter(http, a)
    ensures DefaultedTarget(http, DefaultedTarget(http, t)) == DefaultedTarget(http, t)
  {
  }

  /** A value stays unless it is zero or empty. */
  predicate Keeps<V(==)>(before: V, after: V, unset: V, fallback: V) {
    if before == unset then after == fallback else after == before
  }

  class Config {
    var app: AppConfig
    var http: HttpConfig
    var retry: RetryConfig
    var listen: string
    var alerters: map<string, AlerterConfig>
    var targets: seq<Target>

    constructor (app: AppConfig, http: HttpConfig, retry: RetryConfig, listen: string,
                 alerters: map<string, AlerterConfig>, targets: seq<Target>)
      ensures this.app == app && this.http == http && this.retry == retry && this.listen == listen
      ensures this.alerters == alerters && this.targets == targets
    {
      this.app, this.http, this.retry, this.listen := app, http, retry, listen;
      this.alerters, this.targets := alerters, targets;
    }

    /** Rewrites alerters and targets in place; no operator-supplied value is overwritten. */
    method ApplyDefaults()
      modifies `alerters, `targets
      ensures alerters.Keys == old(alerters).Keys && |targets| == |old(targets)|
      ensures forall name :: name in alerters ==> alerters[name] == DefaultedAlerter(http, old(alerters)[name])
      ensures forall i :: 0 <= i < |targets| ==> targets[i] == DefaultedTarget(http, old(targets)[i])
      ensures forall name :: name in alerters ==>
                && Keeps(old(alerters)[name].timeout, alerters[name].timeout, 0, 10_000_000_000)
                && Keeps(old(alerters)[name].proxy, alerters[name].proxy, "", http.proxy)
                && alerters[name] == old(alerters)[name].(timeout := alerters[name].timeout, proxy := alerters[name].proxy)
      ensures forall i :: 0 <= i < |targets| ==>
                && Keeps(old(targets)[i].proxy, targets[i].proxy, "", http.proxy)
                && Keeps(old(targets)[i].certExpiryWarning, targets[i].certExpiryWarning, 0, http.certExpiryWarning)
                && Keeps(old(targets)[i].timeout, targets[i].timeout, 0, http.timeout)
                && Keeps(old(targets)[i].interval, targets[i].interval, 0, 30_000_000_000)
                && Keeps(old(targets)[i].expectedStatus, targets[i].expectedStatus, 0, 200)
                && Keeps(old(targets)[i].httpMethod, targets[i].httpMethod, "", "GET")
                && targets[i].name == old(targets)[i].name && targets[i].url == old(targets)[i].url
                && targets[i].company == old(targets)[i].company
    {
      var todo := alerters.Keys;
      while todo != {}
        invariant targets == old(targets)
        invariant todo <= alerters.Keys == old(alerters).Keys
        invariant forall name :: name in alerters ==>
                    alerters[name] == if name in todo then old(alerters)[name] else DefaultedAlerter(http, old(alerters)[name])
        decreases todo
      {
        var name :| name in todo;
        var a := alerters[name];
        if a.timeout == 0 {
          a := a.(timeout := DEFAULT_ALERTER_TIMEOUT);
        }
        if a.proxy == "" {
          a := a.(proxy := http.proxy);
        }
        alerters := alerters[name := a];
        todo := todo - {name};
      }
      ghost var defaulted := alerters;
      for i := 0 to |targets|
        invariant alerters == defaulted
        invariant |targets| == |old(targets)|
        invariant forall j :: 0 <= j < |targets| ==>
                    targets[j] == if j < i then DefaultedTarget(http, old(targets)[j]) else old(targets)[j]
      {
        var t := targets[i];
        if t.proxy == "" {
          t := t.(proxy := http.proxy);
        }
        if t.certExpiryWarning == 0 {
          t := t.(certExpiryWarning := http.certExpiryWarning);
        }
        if t.httpMethod == "" {
          t := t.(httpMethod := DEFAULT_METHOD);
        }
        if t.timeout == 0 {
          t := t.(timeout := http.timeout);
        }
        if t.interval == 0 {
          t := t.(interval := DEFAULT_INTERVAL);
        }
        if t.expectedStatus == 0 {
          t := t.(expectedStatus := DEFAULT_STATUS);
        }
        targets := targets[i := t];
      }
    }

    /** Complains about the first rule that is broken, in the program's order, and says how; or does not complain. */
    method Validate(env: Environment) returns (error: Option<ConfigError>)
      ensures error.None? <==> Acceptable(env, app, http, retry, listen, alerters, targets)
      ensures error.Some? ==>
                && !Meets(env, app, http, retry, listen, alerters, targets, RuleOf(error.value))
                && forall rule: nat :: rule < RuleOf(error.value) ==> Meets(env, app, http, retry, listen, alerters, targets, rule)
      ensures error.Some? ==>
                match error.value
                case BadRetry(problem) => Violates(retry, problem)
                case BadAlerter(name) => name in alerters && !GoodAlerter(env.parse, alerters[name])
                case BadTargets(e) => Spoils(env.parse, targets, e)
                case _ => true
    {
      hide GoodTargets, GoodAlerter, Spoils, Proxy.Validate;
      if app.mode != MODE_ONESHOT && app.mode != MODE_CONTINUOUS {
        return Some(BadMode);
      }
      if EnvNames.Lower(app.logLevel) !in LOG_LEVELS {
        return Some(BadLogLevel);
      }
      if app.concurrency < 1 {
        return Some(BadConcurrency);
      }
      if app.reminderMultiplier < 0 {
        return Some(BadReminderMultiplier);
      }
      if http.timeout <= 0 {
        return Some(BadHttpTimeout);
      }
      if Proxy.Validate(env.parse, http.proxy).Some? {
        return Some(BadHttpProxy);
      }
      if http.certExpiryWarning < 0 {
        return Some(BadCertExpiryWarning);
      }
      var r := ValidateRetry(retry);
      if r.Some? {
        return Some(BadRetry(r.value));
      }
      if listen != "" && !env.splitsHostPort(listen) {
        return Some(BadListen);
      }
      var a := ValidateAlerters(env.parse, alerters);
      if a.Some? {
        return Some(BadAlerter(a.value));
      }
      var t := ValidateTargets(env.parse, targets);
      if t.Some? {
        return Some(BadTargets(t.value));
      }
      error := None;
    }
  }

  /** The two parsers that are not modelled. */
  datatype Environment = Environment(parse: UrlParser, splitsHostPort: string -> bool)

  // ---------------------------------------------------------------------------
  // Validation.

  datatype ConfigError =
    | BadMode | BadLogLevel | BadConcurrency | BadReminderMultiplier | BadHttpTimeout | BadHttpProxy
    | BadCertExpiryWarning | BadRetry(problem: RetryProblem) | BadListen | BadAlerter(name: string) | BadTargets(error: TargetsError)

  /** The rules of a configuration, in the order they are looked at. */
  ghost predicate Meets(env: Environment, app: AppConfig, http: HttpConfig, retry: RetryConfig, listen: string,
                        alerters: map<string, AlerterConfig>, targets: seq<Target>, rule: nat)
  {
    match rule
    case 0 => app.mode == "oneshot" || app.mode == "continuous"
    case 1 => EnvNames.Lower(app.logLevel) in {"debug", "info", "warn", "error"}
    case 2 => app.concurrency >= 1
    case 3 => app.reminderMultiplier >= 0
    case 4 => http.timeout > 0
    case 5 => Proxy.Validate(env.parse, http.proxy).None?
    case 6 => http.certExpiryWarning >= 0
    case 7 => Accepted(retry)
    case 8 => listen != "" ==> env.splitsHostPort(listen)
    case 9 => forall name :: name in alerters ==> GoodAlerter(env.parse, alerters[name])
    case _ => targets != [] && GoodTargets(env.parse, targets)
  }

  /** The rule a complaint is about. */
  function RuleOf(e: ConfigError): nat {
    match e
    case BadMode => 0
    case BadLogLevel => 1
    case BadConcurrency => 2
    case BadReminderMultiplier => 3
    case BadHttpTimeout => 4
    case BadHttpProxy => 5
    case BadCertExpiryWarning => 6
    case BadRetry(_) => 7
    case BadListen => 8
    case BadAlerter(_) => 9
    case BadTargets(_) => 10
  }

  datatype RetryProblem = TooFewAttempts | NonPositiveWait | CapBelowInitialWait | MultiplierBelowOne

  predicate Violates(r: RetryConfig, problem: RetryProblem) {
    match problem
    case TooFewAttempts => r.maxAttempts < 1
    case NonPositiveWait => r.initialWait <= 0
    case CapBelowInitialWait => r.maxWait < r.initialWait
    case MultiplierBelowOne => Float64.Less(r.multiplier, Float64.Finite(1.0))
  }

  function ValidateRetry(r: RetryConfig): (problem: Option<RetryProblem>)
    ensures problem.None? <==> Accepted(r)
    ensures problem.Some? ==> Violates(r, problem.value)
  {
    if r.maxAttempts < 1 then Some(TooFewAttempts)
    else if r.initialWait <= 0 then Some(NonPositiveWait)
    else if r.maxWait < r.initialWait then Some(CapBelowInitialWait)
    else if Float64.Less(r.multiplier, Float64.Finite(1.0)) then Some(MultiplierBelowOne)
    else None
  }

  /** An enabled alerter names a supported channel with its credentials, a positive timeout and a usable proxy. */
  predicate GoodAlerter(parse: UrlParser, a: AlerterConfig) {
    a.enabled ==>
      && (|| (a.kind == "telegram" && a.botToken != "" && a.chatId != "")
          || (a.kind == "mattermost" && a.webhookUrl != ""))
      && a.timeout > 0
      && Proxy.Validate(parse, a.proxy).None?
  }

  /** Goes through the map in any order and names an alerter it rejects. */
  method ValidateAlerters(parse: UrlParser, alerters: map<string, AlerterConfig>) returns (bad: Option<string>)
    ensures bad.None? <==> forall name :: name in alerters ==> GoodAlerter(parse, alerters[name])
    ensures bad.Some? ==> bad.value in alerters && !GoodAlerter(parse, alerters[bad.value])
  {
    var todo := alerters.Keys;
    while todo != {}
      invariant todo <= alerters.Keys
      invariant forall name :: name in alerters && name !in todo ==> GoodAlerter(parse, alerters[name])
      decreases todo
    {
      var name :| name in todo;
      todo := todo - {name};
      var a := alerters[name];
      if a.enabled {
        if a.kind == "telegram" {
          if a.botToken == "" || a.chatId == "" {
            return Some(name);
          }
        } else if a.kind == "mattermost" {
          if a.webhookUrl == "" {
            return Some(name);
          }
        } else {
          return Some(name);
        }
        if a.timeout <= 0 {
          return Some(name);
        }
        if Proxy.Validate(parse, a.proxy).Some? {
          return Some(name);
        }
      }
    }
    bad := None;
  }

  datatype TargetProblem =
    | NameRequired | UrlRequired | DuplicateName(earlier: nat) | InvalidUrl | UnsupportedScheme | MissingHost | MissingPort
    | NonPositiveInterval | NonPositiveTimeout | InvalidStatus | InvalidProxy | HttpProxyForTcp

  datatype TargetsError = NoTargets | BadTarget(index: nat, problem: TargetProblem)

  /** A TCP check needs a direct connection or a SOCKS5 proxy. */
  predicate CarriesTcp(parse: UrlParser, setting: string) {
    || setting == "" || setting == "direct"
    || (parse(setting).Some? && parse(setting).value.scheme in {"socks5", "socks5h"})
  }

  /** A target that is acceptable by itself. */
  predicate GoodTarget(parse: UrlParser, t: Target) {
    && t.name != "" && t.url != ""
    && parse(t.url).Some?
    && var u := parse(t.url).value;
       && u.scheme in {"http", "https", "tcp"}
       && u.host != ""
       && (u.scheme == "tcp" ==> u.port != "" && CarriesTcp(parse, t.proxy))
       && (u.scheme != "tcp" ==> 100 <= t.expectedStatus <= 599)
       && t.interval > 0 && t.timeout > 0
       && Proxy.Validate(parse, t.proxy).None?
  }

  /**
   In plain terms: a target has a name, a URL with a host, times that are positive and a usable
   proxy; over HTTP its expected status is a status code, over TCP it has a port and no HTTP proxy.
   */
  lemma GoodTargetExactly(parse: UrlParser, t: Target)
    ensures GoodTarget(parse, t) <==>
            && t.name != "" && t.url != "" && t.interval > 0 && t.timeout > 0
            && parse(t.url).Some? && parse(t.url).value.host != ""
            && Proxy.Validate(parse, t.proxy).None?
            && match parse(t.url).value.scheme
               case "http" => 100 <= t.expectedStatus <= 599
               case "https" => 100 <= t.expectedStatus <= 599
               case "tcp" =>
                 parse(t.url).value.port != ""
                 && (t.proxy != "" && t.proxy != "direct" ==> parse(t.proxy).value.scheme !in {"http", "https"})
               case _ => false
  {
  }

  /** In plain terms: what is not enabled may be anything, the rest has its channel's credentials. */
  lemma GoodAlerterExactly(parse: UrlParser, a: AlerterConfig)
    ensures GoodAlerter(parse, a) <==>
            || !a.enabled
            || (&& a.timeout > 0 && Proxy.Validate(parse, a.proxy).None?
                && match a.kind
                   case "telegram" => a.botToken != "" && a.chatId != ""
                   case "mattermost" => a.webhookUrl != ""
                   case _ => false)
  {
  }

  /** Each target is good and no two share a name. */
  ghost predicate GoodTargets(parse: UrlParser, targets: seq<Target>) {
    && (forall i :: 0 <= i < |targets| ==> GoodTarget(parse, targets[i]))
    && DistinctNames(targets)
  }

  /** What a complaint about target `i` says about it. */
  ghost predicate Exhibits(parse: UrlParser, targets: seq<Target>, i: nat, problem: TargetProblem)
    requires i < |targets|
  {
    var t := targets[i];
    var u := parse(t.url);
    match problem
    case NameRequired => t.name == ""
    case UrlRequired => t.url == ""
    case DuplicateName(j) => j < i && targets[j].name == t.name && forall k :: 0 <= k < i && targets[k].name == t.name ==> k == j
    case InvalidUrl => u.None?
    case UnsupportedScheme => u.Some? && u.value.scheme !in {SCHEME_HTTP, SCHEME_HTTPS, SCHEME_TCP}
    case MissingHost => u.Some? && u.value.host == ""
    case MissingPort => u.Some? && u.value.scheme == SCHEME_TCP && u.value.port == ""
    case NonPositiveInterval => t.interval <= 0
    case NonPositiveTimeout => t.timeout <= 0
    case InvalidStatus => !t.IsTcp(parse) && !(100 <= t.expectedStatus <= 599)
    case InvalidProxy => Proxy.Validate(parse, t.proxy).Some?
    case HttpProxyForTcp => t.IsTcp(parse) && !CarriesTcp(parse, t.proxy)
  }

  /** The checks of one target after its name is known to be new. */
  function RestOfTarget(parse: UrlParser, t: Target): (problem: Option<TargetProblem>)
    requires t.name != "" && t.url != ""
    ensures problem.None? <==> GoodTarget(parse, t)
    ensures problem.Some? ==> !problem.value.DuplicateName? && Exhibits(parse, [t], 0, problem.value)
  {
    var u := parse(t.url);
    if u.None? then Some(InvalidUrl)
    else if u.value.scheme != SCHEME_HTTP && u.value.scheme != SCHEME_HTTPS && u.value.scheme != SCHEME_TCP then Some(UnsupportedScheme)
    else if u.value.host == "" then Some(MissingHost)
    else if u.value.scheme == SCHEME_TCP && u.value.port == "" then Some(MissingPort)
    else if t.interval <= 0 then Some(NonPositiveInterval)
    else if t.timeout <= 0 then Some(NonPositiveTimeout)
    else if !t.IsTcp(parse) && (t.expectedStatus < 100 || t.expectedStatus > 599) then Some(InvalidStatus)
    else if Proxy.Validate(parse, t.proxy).Some? then Some(InvalidProxy)
    else if t.IsTcp(parse) && t.proxy != "" && t.proxy != Proxy.DIRECT && !Proxy.IsSocks(parse, t.proxy) then Some(HttpProxyForTcp)
    else None
  }

  /** What a complaint about a list of targets says about it. */
  ghost predicate Spoils(parse: UrlParser, targets: seq<Target>, e: TargetsError) {
    match e
    case NoTargets => targets == []
    case BadTarget(i, problem) =>
      && i < |targets|
      && GoodTargets(parse, targets[..i]) && !GoodTargets(parse, targets[..i + 1])
      && Exhibits(parse, targets, i, problem)
  }

  /**
   Accepts exactly the non-empty lists of good targets with distinct names. A complaint is about
   the first target that spoils the list, exhibits the problem it names, and for a repeated name
   points at the only earlier target that has it.
   */
  method ValidateTargets(parse: UrlParser, targets: seq<Target>) returns (error: Option<TargetsError>)
    ensures error.None? <==> targets != [] && GoodTargets(parse, targets)
    ensures error.Some? ==> Spoils(parse, targets, error.value)
  {
    if |targets| == 0 {
      return Some(NoTargets);
    }
    var seen: map<string, nat> := map[];
    for i := 0 to |targets|
      invariant GoodTargets(parse, targets[..i])
      invariant forall name :: name in seen ==> seen[name] < i && targets[seen[name]].name == name
      invariant forall k :: 0 <= k < i ==> targets[k].name in seen && seen[targets[k].name] == k
    {
      var t := targets[i];
      assert targets[..i + 1][i] == t;
      if t.name == "" {
        SpoiledList(parse, targets, i);
        return Some(BadTarget(i, NameRequired));
      }
      if t.url == "" {
        SpoiledList(parse, targets, i);
        return Some(BadTarget(i, UrlRequired));
      }
      if t.name in seen {
        RepeatedName(parse, targets, seen[t.name], i);
        return Some(BadTarget(i, DuplicateName(seen[t.name])));
      }
      seen := seen[t.name := i];
      var problem := RestOfTarget(parse, t);
      if problem.Some? {
        SpoiledList(parse, targets, i);
        return Some(BadTarget(i, problem.value));
      }
      assert targets[..i + 1] == targets[..i] + [t];
    }
    assert targets[..|targets|] == targets;
    error := None;
  }

  lemma SpoiledList(parse: UrlParser, targets: seq<Target>, i: nat)
    requires i < |targets| && !GoodTarget(parse, targets[i])
    ensures !GoodTargets(parse, targets) && !GoodTargets(parse, targets[..i + 1])
  {
    assert targets[..i + 1][i] == targets[i];
  }

  lemma RepeatedName(parse: UrlParser, targets: seq<Target>, j: nat, i: nat)
    requires j < i < |targets| && targets[j].name == targets[i].name
    ensures !GoodTargets(parse, targets) && !GoodTargets(parse, targets[..i + 1])
  {
    assert targets[..i + 1][i] == targets[i] && targets[..i + 1][j] == targets[j];
  }

  /** The configurations the program starts with. */
  ghost predicate Acceptable(env: Environment, app: AppConfig, http: HttpConfig, retry: RetryConfig, listen: string,
                             alerters: map<string, AlerterConfig>, targets: seq<Target>)
  {
    && app.mode in {MODE_ONESHOT, MODE_CONTINUOUS}
    && EnvNames.Lower(app.logLevel) in LOG_LEVELS
    && app.concurrency >= 1 && app.reminderMultiplier >= 0
    && http.timeout > 0 && Proxy.Validate(env.parse, http.proxy).None? && http.certExpiryWarning >= 0
    && Accepted(retry)
    && (listen != "" ==> env.splitsHostPort(listen))
    && (forall name :: name in alerters ==> GoodAlerter(env.parse, alerters[name]))
    && targets != [] && GoodTargets(env.parse, targets)
  }

  /** Acceptance is all the rules together. */
  lemma AcceptableExactly(env: Environment, app: AppConfig, http: HttpConfig, retry: RetryConfig, listen: string,
                          alerters: map<string, AlerterConfig>, targets: seq<Target>)
    ensures Acceptable(env, app, http, retry, listen, alerters, targets)
       <==> forall rule: nat :: rule <= 10 ==> Meets(env, app, http, retry, listen, alerters, targets, rule)
  {
    hide GoodTargets, GoodAlerter, Proxy.Validate, Accepted;
    if forall rule: nat :: rule <= 10 ==> Meets(env, app, http, retry, listen, alerters, targets, rule) {
      assert Meets(env, app, http, retry, listen, alerters, targets, 0) && Meets(env, app, http, retry, listen, alerters, targets, 1);
      assert Meets(env, app, http, retry, listen, alerters, targets, 2) && Meets(env, app, http, retry, listen, alerters, targets, 3);
      assert Meets(env, app, http, retry, listen, alerters, targets, 4) && Meets(env, app, http, retry, listen, alerters, targets, 5);
      assert Meets(env, app, http, retry, listen, alerters, targets, 6) && Meets(env, app, http, retry, listen, alerters, targets, 7);
      assert Meets(env, app, http, retry, listen, alerters, targets, 8) && Meets(env, app, http, retry, listen, alerters, targets, 9);
      assert Meets(env, app, http, retry, listen, alerters, targets, 10);
    }
  }

  /** The mode after the command line had its say; only the two run modes get through. */
  function OverrideMode(configured: string, flag: string): (mode: Option<string>)
    ensures configured in {"oneshot", "continuous"} && mode.Some? ==> mode.value in {"oneshot", "continuous"}
    ensures mode.None? <==> flag !in {"", "oneshot", "continuous"}
    ensures mode.Some? && flag != "" ==> mode.value == flag
    ensures flag == "" ==> mode == Some(configured)
  {
    if flag == "" then Some(configured)
    else if flag != MODE_ONESHOT && flag != MODE_CONTINUOUS then None
    else Some(flag)
  }

  // ---------------------------------------------------------------------------
  // What acceptance buys.

  /** One check per target, as the configured checker sets them up, each in its own surroundings. */
  function JobsFor(parse: UrlParser, retry: RetryConfig, targets: seq<Target>, envs: nat -> Checker.Env): seq<Checker.Job> {
    seq(|targets|, i requires 0 <= i < |targets| => Checker.Job(targets[i], retry.maxAttempts, parse, envs(i)))
  }

  /**
   An accepted configuration meets what the theorems about the layers below ask for: a valid
   concurrent run of its checks, valid bounds for the detection of its outages, loops that keep
   their distance, names that identify targets, and TCP targets the dialer can serve.
   */
  lemma AcceptanceDischargesPreconditions(env: Environment, app: AppConfig, http: HttpConfig,
      retry: RetryConfig, listen: string, alerters: map<string, AlerterConfig>, targets: seq<Target>,
      envs: nat -> Checker.Env, gaveUpAt: seq<int>, platform: Float64.Platform, slack: nat)
    requires Acceptable(env, app, http, retry, listen, alerters, targets)
    requires |gaveUpAt| == |targets| && forall i: nat :: i < |targets| ==> envs(i).Uncancelled()
    ensures CheckAll.Setup(JobsFor(env.parse, retry, targets, envs), retry.maxAttempts, app.concurrency, gaveUpAt).Valid()
    ensures forall i :: 0 <= i < |targets| ==>
              Detection.Bounds(retry, platform, targets[i].timeout, targets[i].interval, slack).Valid()
    ensures forall i, d :: 0 <= i < |targets| && Cadence.IsDraw(targets[i].interval, d)
                           && targets[i].interval + Cadence.JitterSpread(targets[i].interval) <= Int64.TWO_63 ==>
              Cadence.DelayInRange(targets[i].interval, Cadence.NextDelay(targets[i].interval, d))
    ensures DistinctNames(targets)
    ensures forall i :: 0 <= i < |targets| && targets[i].IsTcp(env.parse) ==>
              var d := Proxy.Dialer(env.parse, targets[i].proxy); d.Forward? || d.Tunnel?
    ensures forall name :: name in alerters && alerters[name].enabled ==> alerters[name].kind in {"telegram", "mattermost"}
  {
    forall i | 0 <= i < |targets|
      ensures targets[i].interval > 0 && targets[i].timeout > 0
      ensures targets[i].IsTcp(env.parse) ==> var d := Proxy.Dialer(env.parse, targets[i].proxy); d.Forward? || d.Tunnel?
    {
      assert GoodTarget(env.parse, targets[i]);
    }
    forall i, d | 0 <= i < |targets| && Cadence.IsDraw(targets[i].interval, d)
                  && targets[i].interval + Cadence.JitterSpread(targets[i].interval) <= Int64.TWO_63
      ensures Cadence.DelayInRange(targets[i].interval, Cadence.NextDelay(targets[i].interval, d))
    {
      assert targets[i].interval > 0;
      if targets[i].interval <= Int64.MAX {
        Cadence.DelayInRangeExactly(targets[i].interval);
      }
    }
  }

  /**
   It does not bound the reminder period: a target stays acceptable when its interval grows, so
   with any multiplier of at least two some accepted interval makes the period overflow.
   */
  lemma AcceptanceAllowsUnsoundPeriods(parse: UrlParser, t: Target, multiplier: int)
    requires GoodTarget(parse, t) && multiplier >= 2
    ensures exists interval ::
              && Int64.Fits(interval)
              && GoodTargets(parse, [t.(interval := interval)])
              && !AlertMachine.Policy(multiplier, interval).Sound()
  {
    var interval := Int64.MAX;
    var slow := t.(interval := interval);
    assert GoodTarget(parse, slow);
    assert GoodTargets(parse, [slow]);
    assert AlertMachine.Policy(multiplier, interval).Period() >= 2 * interval by {
      assert (multiplier - 2) * interval >= 0;
    }
    assert !AlertMachine.Policy(multiplier, interval).Sound();
  }

  /**
   Nor does it keep the jitter from overflowing: with the largest interval a target stays
   acceptable, and a large enough draw makes its sleep negative.
   */
  lemma AcceptanceAllowsNegativeSleeps(parse: UrlParser, t: Target)
    requires GoodTarget(parse, t)
    ensures GoodTargets(parse, [t.(interval := Int64.MAX)])
    ensures exists draw :: Cadence.IsDraw(Int64.MAX, draw) && Cadence.NextDelay(Int64.MAX, draw) < 0
  {
    assert GoodTarget(parse, t.(interval := Int64.MAX));
    var draw := Cadence.JitterSpread(Int64.MAX) - 1;
    assert Cadence.IsDraw(Int64.MAX, draw) && Cadence.NextDelay(Int64.MAX, draw) < 0;
  }
}
