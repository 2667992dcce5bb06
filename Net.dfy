/**
 * The collaborators of the HTTP/1.1 protocol handler that live in the
 * endpoint layer: the per-host TLS configuration object and the endpoint
 * itself, reduced to the state the protocol handler reads or writes.
 */
module Net {
  import opened Wrappers

  /** An SSLHostConfig, of which only the host name is modelled. */
  class SslHostConfig {
    var hostName: string

    constructor (hostName: string)
      ensures this.hostName == hostName
    {
      this.hostName := hostName;
    }

    method SetHostName(hostName: string)
      modifies this`hostName
      ensures this.hostName == hostName
    {
      this.hostName := hostName;
    }
  }

  /** The endpoint state the protocol handler consults or extends. */
  class Endpoint {
    /** isSSLEnabled(): decides which HTTP Upgrade name a protocol offers. */
    const sslEnabled: bool
    /** isAlpnSupported(): whether TLS ALPN negotiation is available. */
    const alpnSupported: bool
    /** The ALPN names advertised during the TLS handshake, in the order added. */
    var negotiableProtocols: seq<string>
    /** The host name of the default virtual host's TLS configuration. */
    var defaultSslHostConfigName: string
    /** The TLS configurations of the endpoint, in the order added. */
    var sslHostConfigs: seq<SslHostConfig>
    var maxKeepAliveRequests: Int32

    constructor (sslEnabled: bool, alpnSupported: bool, defaultSslHostConfigName: string, maxKeepAliveRequests: Int32)
      ensures this.sslEnabled == sslEnabled && this.alpnSupported == alpnSupported
      ensures this.defaultSslHostConfigName == defaultSslHostConfigName
      ensures this.maxKeepAliveRequests == maxKeepAliveRequests
      ensures negotiableProtocols == [] && sslHostConfigs == []
    {
      this.sslEnabled := sslEnabled;
      this.alpnSupported := alpnSupported;
      this.defaultSslHostConfigName := defaultSslHostConfigName;
      this.maxKeepAliveRequests := maxKeepAliveRequests;
      negotiableProtocols := [];
      sslHostConfigs := [];
    }

    method AddNegotiatedProtocol(name: string)
      modifies this`negotiableProtocols
      ensures negotiableProtocols == old(negotiableProtocols) + [name]
    {
      negotiableProtocols := negotiableProtocols + [name];
    }

    method AddSslHostConfig(config: SslHostConfig)
      modifies this`sslHostConfigs
      ensures sslHostConfigs == old(sslHostConfigs) + [config]
    {
      sslHostConfigs := sslHostConfigs + [config];
    }
  }

  /** The host names of a sequence of TLS configurations, position by position. */
  ghost function HostNames(configs: seq<SslHostConfig>): (r: seq<string>)
    reads configs
    ensures |r| == |configs|
    ensures forall i :: 0 <= i < |configs| ==> r[i] == configs[i].hostName
  {
    seq(|configs|, i reads configs requires 0 <= i < |configs| => configs[i].hostName)
  }

  /** The position of the first occurrence of name in names, or None when it does not occur. */
  function FirstIndexOf(names: seq<string>, name: string): (r: Option<nat>)
    ensures r.None? <==> name !in names
    ensures r.Some? ==> r.value < |names| && names[r.value] == name
                        && forall j :: 0 <= j < r.value ==> names[j] != name
  {
    if names == [] then None
    else if names[0] == name then Some(0)
    else match FirstIndexOf(names[1..], name)
      case None => None
      case Some(i) => Some(i + 1)
  }
}
