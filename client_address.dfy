/** The request header a pyvtt server reads a client's address from
    (Engine.getClientIp in vtt/engine.py). */
module ClientAddress {
  import opened Wrappers
  import opened Urls

  const ForwardedFor := "HTTP_X_FORWARDED_FOR"
  const RemoteAddr := "REMOTE_ADDR"

  /** The WSGI environ key that names the client. */
  function ClientIpKey(h: Hosting): (key: string)
    ensures key == ForwardedFor <==> (h.socket != "" || h.reverse)
    ensures key == RemoteAddr <==> !(h.socket != "" || h.reverse)
  {
    if h.socket != "" || h.reverse then ForwardedFor else RemoteAddr
  }

  /** `request.environ.get(key)`: the value under the chosen key, or None. */
  function ClientIp(h: Hosting, environ: map<string, string>): (ip: Option<string>)
    ensures ip.Some? <==> ClientIpKey(h) in environ
    ensures ip.Some? ==> ip.value == environ[ClientIpKey(h)]
  {
    var key := ClientIpKey(h);
    if key in environ then Some(environ[key]) else None
  }

  /** Behind a unix socket or a reverse proxy the peer address is not consulted. */
  lemma ProxiedIgnoresRemoteAddr(h: Hosting, environ: map<string, string>, addr: string)
    requires h.socket != "" || h.reverse
    ensures ClientIp(h, environ[RemoteAddr := addr]) == ClientIp(h, environ)
  {
  }

  /** Served directly, a client cannot choose its address with an X-Forwarded-For header. */
  lemma DirectIgnoresForwardedFor(h: Hosting, environ: map<string, string>, forwarded: string)
    requires h.socket == "" && !h.reverse
    ensures ClientIp(h, environ[ForwardedFor := forwarded]) == ClientIp(h, environ)
  {
  }
}
