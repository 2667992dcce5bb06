/**
 * AbstractHttp11Protocol: the per-endpoint configuration state of an HTTP/1.1
 * connector. It holds the connection limits, the allow-list of trailer header
 * names (section 4.1.2 of RFC 7230), the registry of upgrade protocols, the
 * lazily resolved default TLS host configuration, and the factories that
 * stamp this configuration into new processors.
 */
module Http11 {
  import opened Wrappers
  import opened HeaderNames
  import Net
  import opened UpgradeRegistry
  import opened Processors

  /** a and b differ in at most one element: one add or one remove on a set. */
  ghost predicate SingleChange(a: set<string>, b: set<string>) {
    |(a - b) + (b - a)| <= 1
  }

  lemma AddIsSingleChange(a: set<string>, x: string)
    ensures SingleChange(a, a + {x})
  {
    if x in a {
      assert (a - (a + {x})) + ((a + {x}) - a) == {};
    } else {
      assert (a - (a + {x})) + ((a + {x}) - a) == {x};
    }
  }

  lemma RemoveIsSingleChange(a: set<string>, x: string)
    ensures SingleChange(a, a - {x})
  {
    if x in a {
      assert (a - (a - {x})) + ((a - {x}) - a) == {x};
    } else {
      assert (a - (a - {x})) + ((a - {x}) - a) == {};
    }
  }

  /** states starts at first, and each state differs from the one before it in at most one element. */
  ghost predicate IsTrace(states: seq<set<string>>, first: set<string>) {
    && |states| >= 1
    && states[0] == first
    && forall j :: 0 < j < |states| ==> SingleChange(states[j - 1], states[j])
  }

  /** Every state of states contains all of a or all of b. */
  ghost predicate AboveEither(states: seq<set<string>>, a: set<string>, b: set<string>) {
    forall j :: 0 <= j < |states| ==> a <= states[j] || b <= states[j]
  }

  /** Every state of states contains all of a. */
  ghost predicate AllAbove(states: seq<set<string>>, a: set<string>) {
    forall j :: 0 <= j < |states| ==> a <= states[j]
  }

  /** Appending a state that adds or removes at most one element keeps a trace a trace. */
  lemma ExtendTrace(states: seq<set<string>>, first: set<string>, s: set<string>)
    requires IsTrace(states, first)
    ensures SingleChange(states[|states| - 1], s) ==> IsTrace(states + [s], first)
    ensures forall a :: AllAbove(states, a) && a <= s ==> AllAbove(states + [s], a)
  {
  }

  lemma AllAboveEither(states: seq<set<string>>, a: set<string>, b: set<string>)
    requires AllAbove(states, a)
    ensures AboveEither(states, a, b)
  {
  }

  /** Adding the names of t and then dropping the old names outside t leaves exactly t. */
  lemma ReplaceDiff(before: set<string>, t: set<string>)
    ensures (before + t) - (before - t) == t
  {
  }

  /** A trace followed by a trace that starts where the first one ends. */
  lemma JoinTraces(xs: seq<set<string>>, ys: seq<set<string>>, first: set<string>, a: set<string>, b: set<string>)
    requires IsTrace(xs, first) && IsTrace(ys, xs[|xs| - 1])
    requires AllAbove(xs, a) && AllAbove(ys, b)
    ensures IsTrace(xs + ys[1..], first) && (xs + ys[1..])[|xs + ys[1..]| - 1] == ys[|ys| - 1]
    ensures AboveEither(xs + ys[1..], a, b)
  {
  }

  lemma AboveEitherNonEmpty(states: seq<set<string>>, a: set<string>, b: set<string>)
    requires AboveEither(states, a, b) && a != {} && b != {}
    ensures forall j :: 0 <= j < |states| ==> states[j] != {}
  {
    forall j | 0 <= j < |states|
      ensures states[j] != {}
    {
      var x :| x in (if a <= states[j] then a else b);
    }
  }

  /** One token of the bulk update: toRemove and the live set stay the two sides of the diff. */
  lemma DiffStep(before: set<string>, seen: set<string>, toRemove: set<string>, live: set<string>, x: string)
    requires toRemove == before - seen && live == before + seen
    ensures x in toRemove ==> toRemove - {x} == before - (seen + {x}) && live == before + (seen + {x}) && live + {x} == live
    ensures x !in toRemove ==> toRemove == before - (seen + {x}) && live + {x} == before + (seen + {x})
  {
  }

  /** One removal of removeAll: the live set is the start minus what has been removed so far. */
  lemma RemoveOneStep(start: set<string>, toRemove: set<string>, pending: set<string>, live: set<string>, x: string)
    requires pending <= toRemove && live == start - (toRemove - pending) && x in pending
    ensures live - {x} == start - (toRemove - (pending - {x})) && start - toRemove <= live - {x}
    ensures SingleChange(live, live - {x})
  {
    RemoveIsSingleChange(live, x);
  }

  class AbstractHttp11Protocol {
    const endpoint: Net.Endpoint

    // ------------------------------------------------------------ limits

    /** Largest request body kept for replay (for example during FORM authentication). */
    var maxSavePostSize: Int32
    var maxHttpHeaderSize: Int32
    /** Read timeout used while a request body is uploaded, when not disabled. */
    var connectionUploadTimeout: Int32
    /** When set, the regular timeout applies for the whole connection. */
    var disableUploadTimeout: bool
    /** Pattern of user agents restricted to HTTP/1.0; None for null. */
    var restrictedUserAgents: Option<string>
    var maxTrailerSize: Int32
    var maxExtensionSize: Int32
    var maxSwallowSize: Int32

    // ------------------------------------------------ trailer allow-list

    /** Names allowed in a chunked trailer, stored trimmed and in lower case. */
    var allowedTrailerHeaders: set<string>

    // --------------------------------------------------- upgrade registry

    var upgradeProtocols: seq<UpgradeProtocol>
    var httpUpgradeProtocols: map<string, UpgradeProtocol>
    var negotiatedProtocols: map<string, UpgradeProtocol>

    // ------------------------------------------ default TLS host config

    /** null until the first access resolves it. */
    var defaultSslHostConfig: Net.SslHostConfig?

    /**
     * Every allowed trailer name is normalised, and a resolved default TLS
     * configuration is one of the endpoint's and carries the default host name.
     */
    ghost predicate Valid()
      reads this, endpoint, defaultSslHostConfig
    {
      && (forall h :: h in allowedTrailerHeaders ==> IsNormalized(h))
      && (defaultSslHostConfig != null ==>
            && defaultSslHostConfig in endpoint.sslHostConfigs
            && defaultSslHostConfig.hostName == endpoint.defaultSslHostConfigName)
    }

    constructor (endpoint: Net.Endpoint)
      ensures this.endpoint == endpoint
      ensures maxSavePostSize == 4 * 1024
      ensures maxHttpHeaderSize == 8 * 1024
      ensures connectionUploadTimeout == 300000
      ensures disableUploadTimeout
      ensures restrictedUserAgents == None
      ensures maxTrailerSize == 8192
      ensures maxExtensionSize == 8192
      ensures maxSwallowSize == 2 * 1024 * 1024
      ensures allowedTrailerHeaders == {}
      ensures upgradeProtocols == [] && httpUpgradeProtocols == map[] && negotiatedProtocols == map[]
      ensures defaultSslHostConfig == null
      ensures Valid()
    {
      this.endpoint := endpoint;
      maxSavePostSize := 4 * 1024;
      maxHttpHeaderSize := 8 * 1024;
      connectionUploadTimeout := 300000;
      disableUploadTimeout := true;
      restrictedUserAgents := None;
      maxTrailerSize := 8192;
      maxExtensionSize := 8192;
      maxSwallowSize := 2 * 1024 * 1024;
      allowedTrailerHeaders := {};
      upgradeProtocols := [];
      httpUpgradeProtocols := map[];
      negotiatedProtocols := map[];
      defaultSslHostConfig := null;
    }

    // ------------------------------------------------------------ setters
    // Each stores its argument as given: zero and negative values are kept.

    method SetMaxSavePostSize(value: Int32)
      modifies this`maxSavePostSize
      ensures maxSavePostSize == value
    {
      maxSavePostSize := value;
    }

    method SetMaxHttpHeaderSize(value: Int32)
      modifies this`maxHttpHeaderSize
      ensures maxHttpHeaderSize == value
    {
      maxHttpHeaderSize := value;
    }

    method SetConnectionUploadTimeout(value: Int32)
      modifies this`connectionUploadTimeout
      ensures connectionUploadTimeout == value
    {
      connectionUploadTimeout := value;
    }

    method SetDisableUploadTimeout(isDisabled: bool)
      modifies this`disableUploadTimeout
      ensures disableUploadTimeout == isDisabled
    {
      disableUploadTimeout := isDisabled;
    }

    method SetRestrictedUserAgents(value: Option<string>)
      modifies this`restrictedUserAgents
      ensures restrictedUserAgents == value
    {
      restrictedUserAgents := value;
    }

    method SetMaxTrailerSize(value: Int32)
      modifies this`maxTrailerSize
      ensures maxTrailerSize == value
    {
      maxTrailerSize := value;
    }

    method SetMaxExtensionSize(value: Int32)
      modifies this`maxExtensionSize
      ensures maxExtensionSize == value
    {
      maxExtensionSize := value;
    }

    method SetMaxSwallowSize(value: Int32)
      modifies this`maxSwallowSize
      ensures maxSwallowSize == value
    {
      maxSwallowSize := value;
    }

    // ------------------------------------------------ trailer allow-list

    /**
     * Replaces the allow-list by the names of a comma-separated value (None
     * for null leaves it alone). New names are added first and stale ones
     * removed last, one at a time, so that the live set never passes through
     * a state that contains neither all of the old list nor all of the new list.
     * states records the live set after every single add or remove.
     */
    method SetAllowedTrailerHeaders(commaSeparatedHeaders: Option<string>) returns (ghost states: seq<set<string>>)
      requires Valid()
      modifies this`allowedTrailerHeaders
      ensures Valid()
      ensures commaSeparatedHeaders.None? ==> allowedTrailerHeaders == old(allowedTrailerHeaders)
      ensures commaSeparatedHeaders.Some? ==> allowedTrailerHeaders == TrailerNames(commaSeparatedHeaders.value)
      ensures IsTrace(states, old(allowedTrailerHeaders)) && states[|states| - 1] == allowedTrailerHeaders
      ensures AboveEither(states, old(allowedTrailerHeaders), allowedTrailerHeaders)
      ensures old(allowedTrailerHeaders) != {} && allowedTrailerHeaders != {}
              ==> forall i :: 0 <= i < |states| ==> states[i] != {}
    {
      states := [allowedTrailerHeaders];
      ghost var before := allowedTrailerHeaders;
      if commaSeparatedHeaders.Some? {
        var headers := Split(commaSeparatedHeaders.value);
        states := ReplaceNames(headers);
      } else {
        AllAboveEither(states, before, before);
      }
      if before != {} && allowedTrailerHeaders != {} {
        AboveEitherNonEmpty(states, before, allowedTrailerHeaders);
      }
    }

    /**
     * The body of setAllowedTrailerHeaders for a non-null value: the names of
     * headers are added first and the old names none of them named are
     * removed afterwards, so every intermediate set keeps the old names or
     * the new ones.
     */
    method ReplaceNames(headers: seq<string>) returns (ghost states: seq<set<string>>)
      modifies this`allowedTrailerHeaders
      ensures allowedTrailerHeaders == TokenSet(headers)
      ensures IsTrace(states, old(allowedTrailerHeaders)) && states[|states| - 1] == allowedTrailerHeaders
      ensures AboveEither(states, old(allowedTrailerHeaders), allowedTrailerHeaders)
    {
      ghost var before := allowedTrailerHeaders;
      var toRemove, added := AddNames(headers);
      ghost var live := allowedTrailerHeaders;
      var removed := RemoveAll(toRemove);
      ReplaceDiff(before, TokenSet(headers));
      JoinTraces(added, removed, before, before, live - toRemove);
      states := added + removed[1..];
    }

    /**
     * The loop of setAllowedTrailerHeaders: adds the normalised name of every
     * token of headers and returns the old names that no token named. steps
     * records the live set after each token; no step loses a name.
     */
    method AddNames(headers: seq<string>) returns (toRemove: set<string>, ghost steps: seq<set<string>>)
      modifies this`allowedTrailerHeaders
      ensures allowedTrailerHeaders == old(allowedTrailerHeaders) + TokenSet(headers)
      ensures toRemove == old(allowedTrailerHeaders) - TokenSet(headers)
      ensures IsTrace(steps, old(allowedTrailerHeaders)) && steps[|steps| - 1] == allowedTrailerHeaders
      ensures AllAbove(steps, old(allowedTrailerHeaders))
    {
      ghost var before := allowedTrailerHeaders;
      toRemove := allowedTrailerHeaders;
      steps := [allowedTrailerHeaders];
      for i := 0 to |headers|
        invariant toRemove == before - TokenSet(headers[..i])
        invariant allowedTrailerHeaders == before + TokenSet(headers[..i])
        invariant IsTrace(steps, before) && steps[|steps| - 1] == allowedTrailerHeaders
        invariant AllAbove(steps, before)
      {
        TokenSetStep(headers, i);
        var trimmedHeader := Normalize(headers[i]);
        DiffStep(before, TokenSet(headers[..i]), toRemove, allowedTrailerHeaders, trimmedHeader);
        AddIsSingleChange(allowedTrailerHeaders, trimmedHeader);
        ExtendTrace(steps, before, allowedTrailerHeaders + {trimmedHeader});
        if trimmedHeader in toRemove {
          toRemove := toRemove - {trimmedHeader};
        } else {
          allowedTrailerHeaders := allowedTrailerHeaders + {trimmedHeader};
        }
        steps := steps + [allowedTrailerHeaders];
      }
      assert headers[..|headers|] == headers;
    }

    /**
     * Set.removeAll: removes the names of toRemove from the allow-list one at
     * a time, in no particular order. steps records the live set after each
     * removal; every one of them keeps the names that are not removed.
     */
    method RemoveAll(toRemove: set<string>) returns (ghost steps: seq<set<string>>)
      modifies this`allowedTrailerHeaders
      ensures allowedTrailerHeaders == old(allowedTrailerHeaders) - toRemove
      ensures IsTrace(steps, old(allowedTrailerHeaders)) && steps[|steps| - 1] == allowedTrailerHeaders
      ensures AllAbove(steps, old(allowedTrailerHeaders) - toRemove)
    {
      ghost var start := allowedTrailerHeaders;
      var pending := toRemove;
      steps := [allowedTrailerHeaders];
      while pending != {}
        invariant pending <= toRemove
        invariant allowedTrailerHeaders == start - (toRemove - pending)
        invariant IsTrace(steps, start) && steps[|steps| - 1] == allowedTrailerHeaders
        invariant AllAbove(steps, start - toRemove)
        decreases pending
      {
        var h :| h in pending;
        RemoveOneStep(start, toRemove, pending, allowedTrailerHeaders, h);
        ExtendTrace(steps, start, allowedTrailerHeaders - {h});
        allowedTrailerHeaders := allowedTrailerHeaders - {h};
        pending := pending - {h};
        steps := steps + [allowedTrailerHeaders];
      }
    }

    /** The live allow-list, as the trailer-parsing code consults it. */
    function GetAllowedTrailerHeadersInternal(): (r: set<string>)
      reads this, endpoint, defaultSslHostConfig
      requires Valid()
      ensures r == allowedTrailerHeaders
      ensures forall h :: h in r ==> IsNormalized(h)
    {
      allowedTrailerHeaders
    }

    method AddAllowedTrailerHeader(header: Option<string>)
      requires Valid()
      modifies this`allowedTrailerHeaders
      ensures Valid()
      ensures header.None? ==> allowedTrailerHeaders == old(allowedTrailerHeaders)
      ensures header.Some? ==> allowedTrailerHeaders == old(allowedTrailerHeaders) + {Normalize(header.value)}
    {
      if header.Some? {
        allowedTrailerHeaders := allowedTrailerHeaders + {Normalize(header.value)};
      }
    }

    method RemoveAllowedTrailerHeader(header: Option<string>)
      requires Valid()
      modifies this`allowedTrailerHeaders
      ensures Valid()
      ensures header.None? ==> allowedTrailerHeaders == old(allowedTrailerHeaders)
      ensures header.Some? ==> allowedTrailerHeaders == old(allowedTrailerHeaders) - {Normalize(header.value)}
    {
      if header.Some? {
        allowedTrailerHeaders := allowedTrailerHeaders - {Normalize(header.value)};
      }
    }

    // --------------------------------------------------- upgrade registry

    method AddUpgradeProtocol(upgradeProtocol: UpgradeProtocol)
      modifies this`upgradeProtocols
      ensures upgradeProtocols == old(upgradeProtocols) + [upgradeProtocol]
    {
      upgradeProtocols := upgradeProtocols + [upgradeProtocol];
    }

    /** A fresh array holding the registered protocols in registration order. */
    method FindUpgradeProtocols() returns (a: array<UpgradeProtocol>)
      ensures fresh(a)
      ensures a[..] == upgradeProtocols
    {
      var ps := upgradeProtocols;
      a := new UpgradeProtocol[|ps|](i requires 0 <= i < |ps| => ps[i]);
    }

    /** The two lookup maps and the ALPN names the endpoint advertises. */
    ghost function RegistryState(): Registry
      reads this, endpoint
    {
      Registry(httpUpgradeProtocols, negotiatedProtocols, endpoint.negotiableProtocols)
    }

    /**
     * Enters one protocol in the lookup maps; returns whether the
     * unreachable-protocol error is logged for it.
     */
    method ConfigureUpgradeProtocol(upgradeProtocol: UpgradeProtocol) returns (alpnWithNoAlpn: bool)
      requires Valid()
      modifies this`httpUpgradeProtocols, this`negotiatedProtocols, endpoint`negotiableProtocols
      ensures Valid()
      ensures RegistryState() == Configure(old(RegistryState()), upgradeProtocol, endpoint.sslEnabled, endpoint.alpnSupported)
      ensures alpnWithNoAlpn == AlpnWithNoAlpn(upgradeProtocol, endpoint.sslEnabled, endpoint.alpnSupported)
    {
      // HTTP Upgrade
      var httpUpgradeName := upgradeProtocol.HttpUpgradeName(endpoint.sslEnabled);
      var httpUpgradeConfigured := false;
      if IsConfigured(httpUpgradeName) {
        httpUpgradeProtocols := httpUpgradeProtocols[httpUpgradeName.value := upgradeProtocol];
        httpUpgradeConfigured := true;
      }
      // ALPN
      var alpnName := upgradeProtocol.alpnName;
      alpnWithNoAlpn := false;
      if IsConfigured(alpnName) {
        if endpoint.alpnSupported {
          negotiatedProtocols := negotiatedProtocols[alpnName.value := upgradeProtocol];
          endpoint.AddNegotiatedProtocol(alpnName.value);
        } else if !httpUpgradeConfigured {
          alpnWithNoAlpn := true;
        }
      }
    }

    /** The loop of init: configures every registered protocol, in registration order. */
    method ConfigureUpgradeProtocols() returns (alpnWithNoAlpn: seq<UpgradeProtocol>)
      requires Valid()
      modifies this`httpUpgradeProtocols, this`negotiatedProtocols, endpoint`negotiableProtocols
      ensures Valid()
      ensures RegistryState() == ConfigureAll(old(RegistryState()), upgradeProtocols, endpoint.sslEnabled, endpoint.alpnSupported)
      ensures alpnWithNoAlpn == AlpnWithNoAlpnOf(upgradeProtocols, endpoint.sslEnabled, endpoint.alpnSupported)
    {
      var ps := upgradeProtocols;
      ghost var start := RegistryState();
      alpnWithNoAlpn := [];
      for i := 0 to |ps|
        invariant Valid()
        invariant RegistryState() == ConfigureAll(start, ps[..i], endpoint.sslEnabled, endpoint.alpnSupported)
        invariant alpnWithNoAlpn == AlpnWithNoAlpnOf(ps[..i], endpoint.sslEnabled, endpoint.alpnSupported)
      {
        assert ps[..i + 1][..i] == ps[..i];
        assert ConfigureAll(start, ps[..i + 1], endpoint.sslEnabled, endpoint.alpnSupported)
               == Configure(RegistryState(), ps[i], endpoint.sslEnabled, endpoint.alpnSupported);
        var logged := ConfigureUpgradeProtocol(ps[i]);
        if logged {
          alpnWithNoAlpn := alpnWithNoAlpn + [ps[i]];
        }
      }
      assert ps[..|ps|] == ps;
    }

    /**
     * The upgrade part of init: configures every registered protocol in
     * registration order; returns those for which the error is logged.
     */
    method Init() returns (alpnWithNoAlpn: seq<UpgradeProtocol>)
      requires Valid()
      modifies this`httpUpgradeProtocols, this`negotiatedProtocols, endpoint`negotiableProtocols
      ensures Valid()
      ensures RegistryState() == ConfigureAll(old(RegistryState()), upgradeProtocols, endpoint.sslEnabled, endpoint.alpnSupported)
      ensures alpnWithNoAlpn == AlpnWithNoAlpnOf(upgradeProtocols, endpoint.sslEnabled, endpoint.alpnSupported)
      ensures forall k :: GetUpgradeProtocol(k)
                          == OrElse(LastNamed(upgradeProtocols, UpgradeNameOf(endpoint.sslEnabled), k), old(GetUpgradeProtocol(k)))
      ensures endpoint.alpnSupported ==>
                forall k :: GetNegotiatedProtocol(k)
                            == OrElse(LastNamed(upgradeProtocols, AlpnNameOf(), k), old(GetNegotiatedProtocol(k)))
      ensures !endpoint.alpnSupported ==> negotiatedProtocols == old(negotiatedProtocols)
      ensures endpoint.negotiableProtocols
              == old(endpoint.negotiableProtocols) + if endpoint.alpnSupported then AlpnNames(upgradeProtocols) else []
    {
      var ps := upgradeProtocols;
      ghost var start := RegistryState();
      alpnWithNoAlpn := ConfigureUpgradeProtocols();
      forall k
        ensures GetUpgradeProtocol(k)
                == OrElse(LastNamed(ps, UpgradeNameOf(endpoint.sslEnabled), k), Get(start.httpUpgrade, k))
      {
        UpgradeLookupAfterConfigureAll(start, ps, endpoint.sslEnabled, endpoint.alpnSupported, k);
      }
      forall k
        ensures endpoint.alpnSupported ==>
                  GetNegotiatedProtocol(k) == OrElse(LastNamed(ps, AlpnNameOf(), k), Get(start.negotiated, k))
      {
        NegotiatedLookupAfterConfigureAll(start, ps, endpoint.sslEnabled, endpoint.alpnSupported, k);
      }
      NegotiatedLookupAfterConfigureAll(start, ps, endpoint.sslEnabled, endpoint.alpnSupported, "");
      AdvertisedAfterConfigureAll(start, ps, endpoint.sslEnabled, endpoint.alpnSupported);
    }

    /** The protocol selected by ALPN under negotiatedName, or None (null) on a miss. */
    function GetNegotiatedProtocol(negotiatedName: string): (r: Option<UpgradeProtocol>)
      reads this
      ensures r.Some? <==> negotiatedName in negotiatedProtocols
      ensures r.Some? ==> r.value == negotiatedProtocols[negotiatedName]
    {
      Get(negotiatedProtocols, negotiatedName)
    }

    /** The protocol offered under the Upgrade token upgradedName, or None (null) on a miss. */
    function GetUpgradeProtocol(upgradedName: string): (r: Option<UpgradeProtocol>)
      reads this
      ensures r.Some? <==> upgradedName in httpUpgradeProtocols
      ensures r.Some? ==> r.value == httpUpgradeProtocols[upgradedName]
    {
      Get(httpUpgradeProtocols, upgradedName)
    }

    // ------------------------------------------ default TLS host config

    /**
     * Renames the endpoint's default TLS host; a configuration already
     * resolved as the default is the same object and is renamed with it.
     */
    method SetDefaultSslHostConfigName(defaultSslHostConfigName: string)
      requires Valid()
      modifies endpoint`defaultSslHostConfigName, defaultSslHostConfig
      ensures Valid()
      ensures endpoint.defaultSslHostConfigName == defaultSslHostConfigName
      ensures defaultSslHostConfig == old(defaultSslHostConfig)
      ensures defaultSslHostConfig != null ==> defaultSslHostConfig.hostName == defaultSslHostConfigName
      ensures endpoint.sslHostConfigs == old(endpoint.sslHostConfigs)
    {
      endpoint.defaultSslHostConfigName := defaultSslHostConfigName;
      if defaultSslHostConfig != null {
        defaultSslHostConfig.SetHostName(defaultSslHostConfigName);
      }
    }

    /**
     * Resolves the default TLS configuration on first use: the first of the
     * endpoint's configurations named after the default host, or else a new
     * configuration with that name, added to the endpoint. Once resolved,
     * nothing changes.
     */
    method RegisterDefaultSslHostConfig()
      requires Valid()
      modifies this`defaultSslHostConfig, endpoint`sslHostConfigs
      ensures Valid()
      ensures defaultSslHostConfig != null
      ensures old(defaultSslHostConfig) != null ==>
                defaultSslHostConfig == old(defaultSslHostConfig) && endpoint.sslHostConfigs == old(endpoint.sslHostConfigs)
      ensures old(defaultSslHostConfig) == null ==>
                match Net.FirstIndexOf(old(Net.HostNames(endpoint.sslHostConfigs)), endpoint.defaultSslHostConfigName)
                case Some(i) =>
                  defaultSslHostConfig == old(endpoint.sslHostConfigs)[i] && endpoint.sslHostConfigs == old(endpoint.sslHostConfigs)
                case None =>
                  && fresh(defaultSslHostConfig)
                  && defaultSslHostConfig.hostName == endpoint.defaultSslHostConfigName
                  && endpoint.sslHostConfigs == old(endpoint.sslHostConfigs) + [defaultSslHostConfig]
    {
      if defaultSslHostConfig == null {
        var configs := endpoint.sslHostConfigs;
        var name := endpoint.defaultSslHostConfigName;
        ghost var names := Net.HostNames(configs);
        var i := 0;
        while i < |configs|
          invariant 0 <= i <= |configs|
          invariant defaultSslHostConfig == null
          invariant forall j :: 0 <= j < i ==> names[j] != name
        {
          if name == configs[i].hostName {
            defaultSslHostConfig := configs[i];
            assert Net.FirstIndexOf(names, name) == Some(i);
            break;
          }
          i := i + 1;
        }
        if defaultSslHostConfig == null {
          assert name !in names;
          var created := new Net.SslHostConfig(name);
          defaultSslHostConfig := created;
          endpoint.AddSslHostConfig(created);
        }
      }
    }

    // --------------------------------------------------------- factories

    /** A new HTTP/1.1 processor carrying the handler's current settings. */
    method CreateProcessor() returns (processor: Http11Processor)
      ensures fresh(processor)
      ensures processor.maxKeepAliveRequests == endpoint.maxKeepAliveRequests
      ensures processor.connectionUploadTimeout == connectionUploadTimeout
      ensures processor.disableUploadTimeout == disableUploadTimeout
      ensures processor.restrictedUserAgents == restrictedUserAgents
      ensures processor.maxSavePostSize == maxSavePostSize
    {
      processor := new Http11Processor();
      processor.maxKeepAliveRequests := endpoint.maxKeepAliveRequests;
      processor.connectionUploadTimeout := connectionUploadTimeout;
      processor.disableUploadTimeout := disableUploadTimeout;
      processor.restrictedUserAgents := restrictedUserAgents;
      processor.maxSavePostSize := maxSavePostSize;
    }

    /**
     * The processor for an upgraded connection: the internal adapter exactly
     * when the token carries an internal handler, whatever the socket. A null
     * handler is not an InternalHttpUpgradeHandler, so it gets the external one.
     */
    function CreateUpgradeProcessor<S>(socket: S, upgradeToken: UpgradeToken): (r: UpgradeProcessor<S>)
      ensures r.UpgradeProcessorInternal? <==> upgradeToken.handler.Some? && upgradeToken.handler.value.kind.Internal?
      ensures r.UpgradeProcessorExternal? <==> upgradeToken.handler.None? || upgradeToken.handler.value.kind.External?
      ensures r.socket == socket && r.token == upgradeToken
    {
      if upgradeToken.handler.Some? && upgradeToken.handler.value.kind.Internal? then
        UpgradeProcessorInternal(socket, upgradeToken)
      else
        UpgradeProcessorExternal(socket, upgradeToken)
    }
  }
}
