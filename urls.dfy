/** The addresses a pyvtt server announces (Engine.getDomain, getUrl,
    getWebsocketUrl and getAuthCallbackUrl in vtt/engine.py). */
module Urls {
  import opened Wrappers
  import opened Text
  import Decimal

  /** The `hosting` settings: domain, port, unix socket path, and the ssl and
      reverse-proxy switches. */
  datatype Hosting = Hosting(domain: string, port: int, socket: string, ssl: bool, reverse: bool)

  /** The hosting settings of a fresh engine, before the settings file is read. */
  const DefaultHosting := Hosting("localhost", 8080, "", false, false)

  /** What the address getters read: whether `--localhost` was given, and the hosting settings. */
  datatype Server = Server(localhost: bool, hosting: Hosting)

  /** A secure scheme is announced behind a reverse proxy or with ssl. */
  predicate Secure(h: Hosting) {
    h.reverse || h.ssl
  }

  /** A host name that a URL parser can tell apart from the port and the path. */
  predicate HostName(d: string) {
    forall k :: 0 <= k < |d| ==> d[k] != ':' && d[k] != '/'
  }

  /** The announced host: `localhost` in `--localhost` mode, otherwise the
      configured domain. It is a host name whenever the configured domain is one. */
  function Domain(s: Server): (d: string)
    ensures s.localhost ==> d == "localhost"
    ensures !s.localhost ==> d == s.hosting.domain
    ensures HostName(s.hosting.domain) ==> HostName(d)
  {
    if s.localhost then "localhost" else s.hosting.domain
  }

  /** The port shown in the announced URLs: none behind a reverse proxy. */
  function ShownPort(h: Hosting): Option<int> {
    if h.reverse then None else Some(h.port)
  }

  /** `:<port>` as an f-string writes it, or nothing. */
  function PortText(port: Option<int>): string {
    match port
    case None => ""
    case Some(p) => ":" + Decimal.IntToString(p)
  }

  function GetUrl(s: Server): (u: string)
    ensures StartsWith(u, "https://") <==> Secure(s.hosting)
    ensures StartsWith(u, "http://") <==> !Secure(s.hosting)
  {
    var suffix := if Secure(s.hosting) then "s" else "";
    var port := PortText(ShownPort(s.hosting));
    var u := "http" + suffix + "://" + Domain(s) + port;
    SchemeOf(u, Secure(s.hosting), "https://", "http://", Domain(s) + port);
    u
  }

  function GetWebsocketUrl(s: Server): (u: string)
    ensures StartsWith(u, "wss://") <==> Secure(s.hosting)
    ensures StartsWith(u, "ws://") <==> !Secure(s.hosting)
    ensures EndsWith(u, "/vtt/websocket")
  {
    var protocol := if Secure(s.hosting) then "wss" else "ws";
    var port := PortText(ShownPort(s.hosting));
    var u := protocol + "://" + Domain(s) + port + "/vtt/websocket";
    SchemeOf(u, Secure(s.hosting), "wss://", "ws://", Domain(s) + port + "/vtt/websocket");
    u
  }

  function GetAuthCallbackUrl(s: Server): (u: string)
    ensures StartsWith(u, "https://") <==> Secure(s.hosting)
    ensures StartsWith(u, "http://") <==> !Secure(s.hosting)
    ensures EndsWith(u, "/vtt/callback")
  {
    var protocol := if Secure(s.hosting) then "https" else "http";
    var port := PortText(ShownPort(s.hosting));
    var u := protocol + "://" + Domain(s) + port + "/vtt/callback";
    SchemeOf(u, Secure(s.hosting), "https://", "http://", Domain(s) + port + "/vtt/callback");
    u
  }

  /** A URL that begins with the secure or the plain scheme begins with exactly
      one of them, as long as the plain one is the secure one without its `s`. */
  lemma SchemeOf(u: string, secure: bool, secureScheme: string, plainScheme: string, rest: string)
    requires |plainScheme| >= 3 && secureScheme == plainScheme[..|plainScheme| - 3] + "s" + "://"
    requires plainScheme[|plainScheme| - 3..] == "://"
    requires u == (if secure then secureScheme else plainScheme) + rest
    ensures StartsWith(u, secureScheme) <==> secure
    ensures StartsWith(u, plainScheme) <==> !secure
  {
    var n := |plainScheme| - 3;
    if secure {
      assert u[..|secureScheme|] == secureScheme;
      assert u[n] == 's' && plainScheme[n] == ':';
    } else {
      assert u[..|plainScheme|] == plainScheme;
      assert u[n] == ':' && secureScheme[n] == 's';
    }
  }

  lemma DefaultPortText()
    ensures Decimal.IntToString(8080) == "8080"
  {
    assert Decimal.DigitChar(8) == '8' && Decimal.DigitChar(0) == '0';
    assert Decimal.NatToString(8) == "8";
    assert Decimal.NatToString(80) == Decimal.NatToString(8) + "0" == "80";
    assert Decimal.NatToString(808) == Decimal.NatToString(80) + "8" == "808";
    assert Decimal.NatToString(8080) == Decimal.NatToString(808) + "0" == "8080";
  }

  lemma DefaultHostingParts(localhost: bool)
    ensures Domain(Server(localhost, DefaultHosting)) == "localhost"
    ensures !Secure(DefaultHosting)
    ensures PortText(ShownPort(DefaultHosting)) == ":8080"
  {
    DefaultPortText();
  }

  /** A fresh engine's default hosting (localhost, port 8080, no ssl, no
      proxy) announces plain http on port 8080. */
  lemma DefaultHostingUrl(localhost: bool)
    ensures GetUrl(Server(localhost, DefaultHosting)) == "http://localhost:8080"
  {
    DefaultHostingParts(localhost);
    assert GetUrl(Server(localhost, DefaultHosting)) == "http" + "" + "://" + "localhost" + ":8080";
  }

  lemma DefaultHostingWebsocketUrl(localhost: bool)
    ensures GetWebsocketUrl(Server(localhost, DefaultHosting)) == "ws://localhost:8080/vtt/websocket"
  {
    DefaultHostingParts(localhost);
    assert GetWebsocketUrl(Server(localhost, DefaultHosting)) == "ws" + "://" + "localhost" + ":8080" + "/vtt/websocket";
  }

  lemma DefaultHostingAuthCallbackUrl(localhost: bool)
    ensures GetAuthCallbackUrl(Server(localhost, DefaultHosting)) == "http://localhost:8080/vtt/callback"
  {
    DefaultHostingParts(localhost);
    assert GetAuthCallbackUrl(Server(localhost, DefaultHosting)) == "http" + "://" + "localhost" + ":8080" + "/vtt/callback";
  }

  /** In `--localhost` mode the announced host is `localhost`, whatever the settings say. */
  lemma LocalhostIgnoresDomain(s: Server, domain: string)
    requires s.localhost
    ensures Domain(s) == "localhost"
    ensures Domain(s.(hosting := s.hosting.(domain := domain))) == "localhost"
  {
  }

  /** The OAuth callback is the server's base URL followed by `/vtt/callback`. */
  lemma AuthCallbackExtendsUrl(s: Server)
    ensures GetAuthCallbackUrl(s) == GetUrl(s) + "/vtt/callback"
  {
  }

  // A reference reading of `scheme://host[:port]path`, used to state what the
  // getters announce without repeating how they build it.

  datatype Endpoint = Endpoint(scheme: string, host: string, port: Option<int>, path: string)

  function ParseEndpoint(url: string): Option<Endpoint> {
    var i := FindAny(url, {':'});
    if StartsWith(url[i..], "://") then
      match ParseAuthority(url[i + 3..])
      case None => None
      case Some(e) => Some(e.(scheme := url[..i]))
    else None
  }

  /** Reads `host[:port]path`, leaving the scheme empty. */
  function ParseAuthority(rest: string): Option<Endpoint> {
    var j := FindAny(rest, {':', '/'});
    if j < |rest| && rest[j] == ':' then
      match ParsePortAndPath(rest[j + 1..])
      case None => None
      case Some((p, path)) => Some(Endpoint("", rest[..j], Some(p), path))
    else
      Some(Endpoint("", rest[..j], None, rest[j..]))
  }

  /** Reads `port path`, the port running up to the first `/`. */
  function ParsePortAndPath(tail: string): Option<(int, string)> {
    var k := FindAny(tail, {'/'});
    match Decimal.ParseInt(tail[..k])
    case None => None
    case Some(p) => Some((p, tail[k..]))
  }

  lemma PortAndPathAssembled(p: int, path: string)
    requires path == [] || path[0] == '/'
    ensures ParsePortAndPath(Decimal.IntToString(p) + path) == Some((p, path))
  {
    var digits := Decimal.IntToString(p);
    var tail := digits + path;
    FindAnyAfter(digits, path, {'/'});
    assert tail[..|digits|] == digits;
    assert tail[|digits|..] == path;
    Decimal.IntToStringRoundTrip(p);
  }

  lemma AuthorityAssembled(host: string, port: Option<int>, path: string)
    requires HostName(host)
    requires path == [] || path[0] == '/'
    ensures ParseAuthority(host + (PortText(port) + path)) == Some(Endpoint("", host, port, path))
  {
    var rest := host + (PortText(port) + path);
    FindAnyAfter(host, PortText(port) + path, {':', '/'});
    assert rest[..|host|] == host;
    match port
    case None =>
      assert rest[|host|..] == path;
    case Some(p) =>
      assert rest[|host| + 1..] == Decimal.IntToString(p) + path;
      PortAndPathAssembled(p, path);
  }

  /** The scheme runs up to the first colon, which must start `://`. */
  lemma SchemeAssembled(scheme: string, rest: string)
    requires forall k :: 0 <= k < |scheme| ==> scheme[k] != ':'
    ensures ParseEndpoint(scheme + ("://" + rest))
         == match ParseAuthority(rest)
            case None => None
            case Some(e) => Some(e.(scheme := scheme))
  {
    var url := scheme + ("://" + rest);
    FindAnyAfter(scheme, "://" + rest, {':'});
    var i := FindAny(url, {':'});
    assert i == |scheme|;
    assert url[i..] == "://" + rest;
    assert StartsWith(url[i..], "://") by { assert url[i..][..3] == "://"; }
    assert url[i + 3..] == rest;
    assert url[..i] == scheme;
  }

  /** The reference reading recovers every part of a URL assembled from a
      colon-free scheme, a host name, an optional port and a path. */
  lemma ParseAssembled(scheme: string, host: string, port: Option<int>, path: string)
    requires forall k :: 0 <= k < |scheme| ==> scheme[k] != ':'
    requires HostName(host)
    requires path == [] || path[0] == '/'
    ensures ParseEndpoint(scheme + "://" + host + PortText(port) + path)
         == Some(Endpoint(scheme, host, port, path))
  {
    var rest := host + (PortText(port) + path);
    assert scheme + "://" + host + PortText(port) + path == scheme + ("://" + rest);
    SchemeAssembled(scheme, rest);
    AuthorityAssembled(host, port, path);
  }

  /** getUrl announces the domain, the port unless behind a reverse proxy,
      and nothing after them. */
  lemma UrlParts(s: Server)
    requires HostName(Domain(s))
    ensures ParseEndpoint(GetUrl(s))
         == Some(Endpoint(if Secure(s.hosting) then "https" else "http", Domain(s), ShownPort(s.hosting), ""))
  {
    var scheme := if Secure(s.hosting) then "https" else "http";
    assert GetUrl(s) == scheme + "://" + Domain(s) + PortText(ShownPort(s.hosting)) + "";
    ParseAssembled(scheme, Domain(s), ShownPort(s.hosting), "");
  }

  lemma WebsocketUrlParts(s: Server)
    requires HostName(Domain(s))
    ensures ParseEndpoint(GetWebsocketUrl(s))
         == Some(Endpoint(if Secure(s.hosting) then "wss" else "ws", Domain(s), ShownPort(s.hosting), "/vtt/websocket"))
  {
    var scheme := if Secure(s.hosting) then "wss" else "ws";
    ParseAssembled(scheme, Domain(s), ShownPort(s.hosting), "/vtt/websocket");
  }

  lemma AuthCallbackUrlParts(s: Server)
    requires HostName(Domain(s))
    ensures ParseEndpoint(GetAuthCallbackUrl(s))
         == Some(Endpoint(if Secure(s.hosting) then "https" else "http", Domain(s), ShownPort(s.hosting), "/vtt/callback"))
  {
    var scheme := if Secure(s.hosting) then "https" else "http";
    ParseAssembled(scheme, Domain(s), ShownPort(s.hosting), "/vtt/callback");
  }
}
