/** Proxy settings: empty, "direct", or the URL of an HTTP or SOCKS5 proxy. */
module Proxy {
  import opened Domain

  const DIRECT := "direct"
  const SOCKS_SCHEMES := {"socks5", "socks5h"}
  const SCHEMES := {"http", "https", "socks5", "socks5h"}

  datatype Problem = InvalidUrl | UnsupportedScheme | MissingHost

  /** Usable are the empty setting, "direct", and the URL of a proxy of one of four schemes with a host. */
  function Validate(parse: UrlParser, setting: string): (problem: Option<Problem>)
    ensures problem.None? <==>
            || setting == "" || setting == "direct"
            || (&& parse(setting).Some?
                && parse(setting).value.scheme in {"http", "https", "socks5", "socks5h"}
                && parse(setting).value.host != "")
    ensures problem == Some(InvalidUrl) ==> parse(setting).None?
    ensures problem == Some(UnsupportedScheme) ==>
              parse(setting).Some? && parse(setting).value.scheme !in {"http", "https", "socks5", "socks5h"}
    ensures problem == Some(MissingHost) ==> parse(setting).Some? && parse(setting).value.host == ""
  {
    if setting == "" || setting == DIRECT then None
    else
      var u := parse(setting);
      if u.None? then Some(InvalidUrl)
      else if u.value.scheme !in SCHEMES then Some(UnsupportedScheme)
      else if u.value.host == "" then Some(MissingHost)
      else None
  }

  predicate IsSocks(parse: UrlParser, setting: string) {
    var u := parse(setting);
    u.Some? && u.value.scheme in SOCKS_SCHEMES
  }

  /**
   What becomes of a TCP check: a connection of its own without a proxy, a tunnel through any SOCKS5
   proxy, and an error for every other setting; so for a usable one exactly with an HTTP proxy.
   */
  lemma DialerExactly(parse: UrlParser, setting: string)
    ensures Dialer(parse, setting) == Forward <==> setting == "" || setting == "direct"
    ensures Dialer(parse, setting).Tunnel? <==>
            && setting != "" && setting != "direct"
            && parse(setting).Some? && parse(setting).value.scheme in {"socks5", "socks5h"}
    ensures Dialer(parse, setting).Tunnel? ==> Some(Dialer(parse, setting).proxy) == parse(setting)
    ensures Validate(parse, setting).None? && setting != "" && setting != "direct" ==>
              (Dialer(parse, setting) == NotASocksProxy <==> parse(setting).value.scheme in {"http", "https"})
    ensures Dialer(parse, setting) != UnparsableProxy
    ensures IsSocks(parse, setting) <==> parse(setting).Some? && parse(setting).value.scheme in {"socks5", "socks5h"}
  {
  }

  /** How a TCP check gets its connection. Building the SOCKS5 client itself is library code. */
  datatype Dialing = Forward | Tunnel(proxy: Url) | NotASocksProxy | UnparsableProxy

  function Dialer(parse: UrlParser, setting: string): Dialing {
    if setting == "" || setting == DIRECT then Forward
    else if !IsSocks(parse, setting) then NotASocksProxy
    else
      var u := parse(setting);
      if u.None? then UnparsableProxy else Tunnel(u.value)
  }
}
