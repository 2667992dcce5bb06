/**
 * The upgrade-protocol registry of an HTTP/1.1 connector: the protocols
 * registered with it, and the two lookup maps init derives from them, one
 * keyed by HTTP Upgrade token (section 6.7 of RFC 7230), one keyed by ALPN
 * protocol ID (RFC 7301). Every function here is the specification of one
 * step of the handler's startup; the handler's methods are proved against it.
 */
module UpgradeRegistry {
  import opened Wrappers

  /**
   * An UpgradeProtocol implementation, reduced to the names it answers to.
   * It is an object: two registrations of equal names are still two protocols.
   */
  class UpgradeProtocol {
    /** getHttpUpgradeName(false) */
    const httpUpgradeNameClear: Option<string>
    /** getHttpUpgradeName(true) */
    const httpUpgradeNameSecure: Option<string>
    /** getAlpnName() */
    const alpnName: Option<string>

    constructor (httpUpgradeNameClear: Option<string>, httpUpgradeNameSecure: Option<string>, alpnName: Option<string>)
      ensures this.httpUpgradeNameClear == httpUpgradeNameClear
      ensures this.httpUpgradeNameSecure == httpUpgradeNameSecure
      ensures this.alpnName == alpnName
    {
      this.httpUpgradeNameClear := httpUpgradeNameClear;
      this.httpUpgradeNameSecure := httpUpgradeNameSecure;
      this.alpnName := alpnName;
    }

    /** getHttpUpgradeName(isSSLEnabled): the Upgrade token may differ over TLS. */
    function HttpUpgradeName(isSslEnabled: bool): Option<string> {
      if isSslEnabled then httpUpgradeNameSecure else httpUpgradeNameClear
    }
  }

  /** `name != null && name.length() > 0` */
  predicate IsConfigured(name: Option<string>) {
    name.Some? && |name.value| > 0
  }

  /**
   * What configuring protocols builds: the Upgrade-token map, the ALPN map,
   * and the ALPN names the endpoint is told to advertise.
   */
  datatype Registry = Registry(
    httpUpgrade: map<string, UpgradeProtocol>,
    negotiated: map<string, UpgradeProtocol>,
    advertised: seq<string>)

  const Empty := Registry(map[], map[], [])

  /**
   * The protocol offers an ALPN name the endpoint cannot negotiate and no
   * Upgrade token to fall back on: it is unreachable, and an error is logged.
   */
  predicate AlpnWithNoAlpn(p: UpgradeProtocol, sslEnabled: bool, alpnSupported: bool) {
    IsConfigured(p.alpnName) && !alpnSupported && !IsConfigured(p.HttpUpgradeName(sslEnabled))
  }

  /** One configureUpgradeProtocol call. */
  function Configure(r: Registry, p: UpgradeProtocol, sslEnabled: bool, alpnSupported: bool): (r': Registry)
    ensures forall k :: Get(r'.httpUpgrade, k)
                        == if IsConfigured(p.HttpUpgradeName(sslEnabled)) && k == p.HttpUpgradeName(sslEnabled).value
                           then Some(p) else Get(r.httpUpgrade, k)
    ensures forall k :: Get(r'.negotiated, k)
                        == if alpnSupported && IsConfigured(p.alpnName) && k == p.alpnName.value
                           then Some(p) else Get(r.negotiated, k)
    ensures r'.advertised
            == r.advertised + if alpnSupported && IsConfigured(p.alpnName) then [p.alpnName.value] else []
    ensures !IsConfigured(p.HttpUpgradeName(sslEnabled)) && !IsConfigured(p.alpnName) ==> r' == r
  {
    var upgradeName := p.HttpUpgradeName(sslEnabled);
    var r1 := if IsConfigured(upgradeName) then r.(httpUpgrade := r.httpUpgrade[upgradeName.value := p]) else r;
    if IsConfigured(p.alpnName) && alpnSupported then
      r1.(negotiated := r1.negotiated[p.alpnName.value := p], advertised := r1.advertised + [p.alpnName.value])
    else
      r1
  }

  /** The configureUpgradeProtocol calls of init, in registration order. */
  function ConfigureAll(r: Registry, ps: seq<UpgradeProtocol>, sslEnabled: bool, alpnSupported: bool): Registry {
    if ps == [] then r
    else Configure(ConfigureAll(r, ps[..|ps| - 1], sslEnabled, alpnSupported), ps[|ps| - 1], sslEnabled, alpnSupported)
  }

  /** The protocols of ps, in order, for which init logs the unreachable-protocol error. */
  function AlpnWithNoAlpnOf(ps: seq<UpgradeProtocol>, sslEnabled: bool, alpnSupported: bool): (r: seq<UpgradeProtocol>)
    ensures forall i :: 0 <= i < |r| ==> r[i] in ps && AlpnWithNoAlpn(r[i], sslEnabled, alpnSupported)
    ensures forall i :: 0 <= i < |ps| && AlpnWithNoAlpn(ps[i], sslEnabled, alpnSupported) ==> ps[i] in r
  {
    if ps == [] then []
    else
      var last := ps[|ps| - 1];
      AlpnWithNoAlpnOf(ps[..|ps| - 1], sslEnabled, alpnSupported)
        + if AlpnWithNoAlpn(last, sslEnabled, alpnSupported) then [last] else []
  }

  /** The configured ALPN names of ps, in registration order. */
  function AlpnNames(ps: seq<UpgradeProtocol>): (r: seq<string>)
    ensures forall n :: n in r <==> exists i :: 0 <= i < |ps| && IsConfigured(ps[i].alpnName) && ps[i].alpnName.value == n
  {
    if ps == [] then []
    else
      var last := ps[|ps| - 1];
      AlpnNames(ps[..|ps| - 1]) + if IsConfigured(last.alpnName) then [last.alpnName.value] else []
  }

  /** The last protocol of ps whose name (as given by name) is the configured name k. */
  function LastNamed(ps: seq<UpgradeProtocol>, name: UpgradeProtocol -> Option<string>, k: string): (r: Option<UpgradeProtocol>)
    ensures r.None? <==> forall i :: 0 <= i < |ps| ==> !(IsConfigured(name(ps[i])) && name(ps[i]).value == k)
    ensures r.Some? ==> exists i :: 0 <= i < |ps| && ps[i] == r.value
                          && IsConfigured(name(ps[i])) && name(ps[i]).value == k
                          && forall j :: i < j < |ps| ==> !(IsConfigured(name(ps[j])) && name(ps[j]).value == k)
  {
    if ps == [] then None
    else
      var last := ps[|ps| - 1];
      if IsConfigured(name(last)) && name(last).value == k then Some(last)
      else LastNamed(ps[..|ps| - 1], name, k)
  }

  function UpgradeNameOf(sslEnabled: bool): UpgradeProtocol -> Option<string> {
    (p: UpgradeProtocol) => p.HttpUpgradeName(sslEnabled)
  }

  function AlpnNameOf(): UpgradeProtocol -> Option<string> {
    (p: UpgradeProtocol) => p.alpnName
  }

  function OrElse<T>(first: Option<T>, second: Option<T>): Option<T> {
    if first.Some? then first else second
  }

  /**
   * After init, an Upgrade token resolves to the last registered protocol
   * offering it; a token no protocol offers resolves as before.
   */
  lemma {:induction false} UpgradeLookupAfterConfigureAll(r: Registry, ps: seq<UpgradeProtocol>, sslEnabled: bool, alpnSupported: bool, k: string)
    ensures Get(ConfigureAll(r, ps, sslEnabled, alpnSupported).httpUpgrade, k)
            == OrElse(LastNamed(ps, UpgradeNameOf(sslEnabled), k), Get(r.httpUpgrade, k))
  {
    if ps != [] {
      UpgradeLookupAfterConfigureAll(r, ps[..|ps| - 1], sslEnabled, alpnSupported, k);
    }
  }

  /**
   * With ALPN, an ALPN name resolves to the last registered protocol offering
   * it; without ALPN the ALPN map and the advertised names are left alone.
   */
  lemma {:induction false} NegotiatedLookupAfterConfigureAll(r: Registry, ps: seq<UpgradeProtocol>, sslEnabled: bool, alpnSupported: bool, k: string)
    ensures alpnSupported ==> Get(ConfigureAll(r, ps, sslEnabled, alpnSupported).negotiated, k)
                              == OrElse(LastNamed(ps, AlpnNameOf(), k), Get(r.negotiated, k))
    ensures !alpnSupported ==> ConfigureAll(r, ps, sslEnabled, alpnSupported).negotiated == r.negotiated
  {
    if ps != [] {
      NegotiatedLookupAfterConfigureAll(r, ps[..|ps| - 1], sslEnabled, alpnSupported, k);
    }
  }

  /** With ALPN every configured ALPN name is advertised once per registration, in order; without ALPN none is. */
  lemma {:induction false} AdvertisedAfterConfigureAll(r: Registry, ps: seq<UpgradeProtocol>, sslEnabled: bool, alpnSupported: bool)
    ensures ConfigureAll(r, ps, sslEnabled, alpnSupported).advertised
            == r.advertised + if alpnSupported then AlpnNames(ps) else []
  {
    if ps != [] {
      AdvertisedAfterConfigureAll(r, ps[..|ps| - 1], sslEnabled, alpnSupported);
    }
  }

  /** A protocol for which the error is logged cannot be reached through either map. */
  lemma {:induction false} AlpnWithNoAlpnIsUnreachable(r: Registry, ps: seq<UpgradeProtocol>, sslEnabled: bool, alpnSupported: bool, p: UpgradeProtocol)
    requires AlpnWithNoAlpn(p, sslEnabled, alpnSupported)
    requires p !in r.httpUpgrade.Values && p !in r.negotiated.Values
    ensures p !in ConfigureAll(r, ps, sslEnabled, alpnSupported).httpUpgrade.Values
    ensures p !in ConfigureAll(r, ps, sslEnabled, alpnSupported).negotiated.Values
  {
    if ps != [] {
      var init := ConfigureAll(r, ps[..|ps| - 1], sslEnabled, alpnSupported);
      AlpnWithNoAlpnIsUnreachable(r, ps[..|ps| - 1], sslEnabled, alpnSupported, p);
      var r' := ConfigureAll(r, ps, sslEnabled, alpnSupported);
      forall k | k in r'.httpUpgrade
        ensures r'.httpUpgrade[k] != p
      {
        assert Get(r'.httpUpgrade, k).Some?;
        if Get(init.httpUpgrade, k).Some? {
          assert init.httpUpgrade[k] in init.httpUpgrade.Values;
        }
      }
      forall k | k in r'.negotiated
        ensures r'.negotiated[k] != p
      {
        assert Get(r'.negotiated, k).Some?;
        if Get(init.negotiated, k).Some? {
          assert init.negotiated[k] in init.negotiated.Values;
        }
      }
    }
  }

  /**
   * Two protocols registered under one ALPN name: the later one wins the ALPN
   * lookup, while each keeps its own Upgrade token, if any.
   */
  lemma LaterAlpnRegistrationWins(first: UpgradeProtocol, second: UpgradeProtocol, sslEnabled: bool, k: string)
    requires IsConfigured(first.alpnName) && first.alpnName.value == k
    requires IsConfigured(second.alpnName) && second.alpnName.value == k
    requires first.HttpUpgradeName(sslEnabled) != second.HttpUpgradeName(sslEnabled)
    ensures Get(ConfigureAll(Empty, [first, second], sslEnabled, true).negotiated, k) == Some(second)
    ensures IsConfigured(first.HttpUpgradeName(sslEnabled))
            ==> Get(ConfigureAll(Empty, [first, second], sslEnabled, true).httpUpgrade,
                    first.HttpUpgradeName(sslEnabled).value) == Some(first)
  {
    NegotiatedLookupAfterConfigureAll(Empty, [first, second], sslEnabled, true, k);
    if IsConfigured(first.HttpUpgradeName(sslEnabled)) {
      UpgradeLookupAfterConfigureAll(Empty, [first, second], sslEnabled, true, first.HttpUpgradeName(sslEnabled).value);
    }
  }
}
