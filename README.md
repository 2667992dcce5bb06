# AbstractHttp11Protocol, modelled in Dafny

This project models the configuration core of Tomcat 8.5's HTTP/1.1 protocol
handler, `org.apache.coyote.http11.AbstractHttp11Protocol`. It covers five
parts of that class:

- **Trailer-header allow-list.** This is the set of header names that a chunked
  request may send in its trailer (section 4.1.2 of RFC 7230). The names are
  stored trimmed (Java `String.trim`) and in lower case. The model has the bulk
  replace from a comma-separated value, the single add and remove, and the
  internal getter. The bulk replace adds the new names first and removes the
  stale ones only at the end, one name at a time. A ghost trace records the live
  set after every step. The proof shows that every recorded state contains all
  of the old list or all of the new list. So if both lists are non-empty, the
  live set is never empty.
- **Upgrade-protocol registry.** This is the list of registered protocols and
  two maps built from it at `init`. One map is keyed by HTTP Upgrade token
  (section 6.7 of RFC 7230). The other is keyed by ALPN protocol ID (RFC 7301).
  The endpoint is also told which ALPN names to advertise. The maps are
  specified by pure functions (`UpgradeRegistry.Configure`, `ConfigureAll`).
  The handler's methods are proved against them, and lemmas give the lookup
  that results: the last registration under a name wins.
- **Lazy default TLS host configuration.** On first use, the handler takes the
  first of the endpoint's configurations named after the default host. If none
  has that name, it creates one with that name and adds it to the endpoint.
  Once resolved, nothing changes. Renaming the default host also renames a
  configuration that is already resolved.
- **Processor factories.** `createProcessor` copies five settings into a new
  HTTP/1.1 processor. `createUpgradeProcessor` picks the internal or the
  external upgrade adapter from the handler's kind alone.
- **Limits.** These are plain fields with their defaults. Their setters store
  any value as given.

Module layout:

- `Wrappers` has `Option`, which stands for a Java reference that may be null,
  and `Int32`, which stands for Java's `int`.
- `HeaderNames` has `trim`, ASCII lower-casing and `split(",")`, and the
  allow-list a comma-separated value denotes.
- `Net` has the endpoint and `SSLHostConfig`, reduced to the state this class
  reads or writes.
- `UpgradeRegistry` has `UpgradeProtocol` and the pure specification of the
  registry.
- `Processors` has the processors the factories produce.
- `Http11` has the class `AbstractHttp11Protocol`.

Java's `String.split(",")` returns the whole string when it contains no comma,
even an empty one. Otherwise it returns the pieces between commas, minus the
trailing empty ones. So `setAllowedTrailerHeaders("")` puts the empty name into
the allow-list, and `setAllowedTrailerHeaders(",")` empties it. The model
keeps both behaviours.

## Model

| member | source | states |
|---|---|---|
| `HeaderNames.Trim` | apache-tomcat-8.5.49-src/java/org/apache/coyote/http11/AbstractHttp11Protocol.java:376 | The result is a slice of the input that neither starts nor ends with a char at or below U+0020, and every char outside that slice is at or below U+0020 (`String.trim`). |
| `HeaderNames.ToLower` | apache-tomcat-8.5.49-src/java/org/apache/coyote/http11/AbstractHttp11Protocol.java:376 | Keeps the length, maps each char to its lower-case form and leaves no upper-case ASCII letter. |
| `HeaderNames.Normalize` | apache-tomcat-8.5.49-src/java/org/apache/coyote/http11/AbstractHttp11Protocol.java:376 | `trim().toLowerCase()` gives a normalised name (trimmed, no upper case) that is no longer than the input. |
| `HeaderNames.NormalizeFixedPoint` | apache-tomcat-8.5.49-src/java/org/apache/coyote/http11/AbstractHttp11Protocol.java:398 | A name is left unchanged by normalisation exactly when it is already normalised. |
| `HeaderNames.NormalizeIdempotent` | apache-tomcat-8.5.49-src/java/org/apache/coyote/http11/AbstractHttp11Protocol.java:403 | Normalising twice is the same as normalising once, so add and remove agree on an already stored name. |
| `HeaderNames.PiecesCommaFree` | apache-tomcat-8.5.49-src/java/org/apache/coyote/http11/AbstractHttp11Protocol.java:374 | The string is cut at every comma, so no piece holds a comma. |
| `HeaderNames.JoinPieces` | apache-tomcat-8.5.49-src/java/org/apache/coyote/http11/AbstractHttp11Protocol.java:374 | Joining the pieces with commas gives back the input, so the cut loses nothing. |
| `HeaderNames.PiecesJoin` | apache-tomcat-8.5.49-src/java/org/apache/coyote/http11/AbstractHttp11Protocol.java:374 | Comma-free pieces joined with commas are cut back into exactly those pieces. |
| `HeaderNames.DropTrailingEmpty` | apache-tomcat-8.5.49-src/java/org/apache/coyote/http11/AbstractHttp11Protocol.java:374 | The result is a prefix of the input, everything dropped is empty, and the result does not end with an empty string. |
| `HeaderNames.Split` | apache-tomcat-8.5.49-src/java/org/apache/coyote/http11/AbstractHttp11Protocol.java:374 | `split(",")`: no token holds a comma. A value without a comma is its own single token. Otherwise the tokens are the comma pieces minus trailing empty ones. |
| `HeaderNames.SplitJoin` | apache-tomcat-8.5.49-src/java/org/apache/coyote/http11/AbstractHttp11Protocol.java:374 | Comma-free tokens whose last one is non-empty, joined with commas, split back into exactly those tokens. |
| `HeaderNames.ImageSetMembers` | apache-tomcat-8.5.49-src/java/org/apache/coyote/http11/AbstractHttp11Protocol.java:375-382 | A string is in the image set of a list under a map exactly when the map sends some element of the list to it. |
| `HeaderNames.TokenSetIsImage` | apache-tomcat-8.5.49-src/java/org/apache/coyote/http11/AbstractHttp11Protocol.java:375-382 | The set of normalised tokens is the image set of the tokens under normalisation. |
| `HeaderNames.TokenSetMembers` | apache-tomcat-8.5.49-src/java/org/apache/coyote/http11/AbstractHttp11Protocol.java:375-382 | A name is in the set of a token list exactly when some token of the list normalises to it. |
| `HeaderNames.TokenSetStep` | apache-tomcat-8.5.49-src/java/org/apache/coyote/http11/AbstractHttp11Protocol.java:375-382 | Taking one more token adds exactly that token's normalised form. |
| `HeaderNames.TrailerNamesMembers` | apache-tomcat-8.5.49-src/java/org/apache/coyote/http11/AbstractHttp11Protocol.java:373-383 | A name is allowed by a comma-separated value exactly when some token of its `split(",")` normalises to it. |
| `HeaderNames.JoinedNamesReadBack` | apache-tomcat-8.5.49-src/java/org/apache/coyote/http11/AbstractHttp11Protocol.java:368-385 | Normalised comma-free names, the last one non-empty, written with commas between them, are read back as exactly those names. |
| `Http11.AddIsSingleChange` | apache-tomcat-8.5.49-src/java/org/apache/coyote/http11/AbstractHttp11Protocol.java:380 | Adding one name changes the set by at most one element. |
| `Http11.RemoveIsSingleChange` | apache-tomcat-8.5.49-src/java/org/apache/coyote/http11/AbstractHttp11Protocol.java:383 | Removing one name changes the set by at most one element. |
| `Http11.JoinTraces` | apache-tomcat-8.5.49-src/java/org/apache/coyote/http11/AbstractHttp11Protocol.java:375-383 | The add phase's trace followed by the remove phase's trace is one trace, and each of its states contains one of the two kept sets. |
| `Http11.AboveEitherNonEmpty` | apache-tomcat-8.5.49-src/java/org/apache/coyote/http11/AbstractHttp11Protocol.java:369-370 | If every state contains all of the old list or all of the new list, and both lists are non-empty, then no state is empty. |
| `Http11.DiffStep` | apache-tomcat-8.5.49-src/java/org/apache/coyote/http11/AbstractHttp11Protocol.java:377-381 | One token keeps `toRemove` equal to old minus seen and the live set equal to old plus seen, on both branches. |
| `Http11.RemoveOneStep` | apache-tomcat-8.5.49-src/java/org/apache/coyote/http11/AbstractHttp11Protocol.java:383 | One removal keeps the live set equal to the start minus what has been removed, and keeps every name that is not being removed. |
| `Http11.AbstractHttp11Protocol.constructor` | apache-tomcat-8.5.49-src/java/org/apache/coyote/http11/AbstractHttp11Protocol.java:189-347 | Defaults are maxSavePostSize 4096, maxHttpHeaderSize 8192, connectionUploadTimeout 300000, disableUploadTimeout true, restrictedUserAgents null, maxTrailerSize 8192, maxExtensionSize 8192 and maxSwallowSize 2097152. The collections start empty and no default TLS configuration is resolved. |
| `Http11.AbstractHttp11Protocol.SetMaxSavePostSize` | apache-tomcat-8.5.49-src/java/org/apache/coyote/http11/AbstractHttp11Protocol.java:191 | Stores the value as given and changes no other field. |
| `Http11.AbstractHttp11Protocol.SetMaxHttpHeaderSize` | apache-tomcat-8.5.49-src/java/org/apache/coyote/http11/AbstractHttp11Protocol.java:199 | Stores the value as given and changes no other field. |
| `Http11.AbstractHttp11Protocol.SetConnectionUploadTimeout` | apache-tomcat-8.5.49-src/java/org/apache/coyote/http11/AbstractHttp11Protocol.java:208-210 | Stores the value as given and changes no other field. |
| `Http11.AbstractHttp11Protocol.SetDisableUploadTimeout` | apache-tomcat-8.5.49-src/java/org/apache/coyote/http11/AbstractHttp11Protocol.java:221-223 | Stores the flag as given and changes no other field. |
| `Http11.AbstractHttp11Protocol.SetRestrictedUserAgents` | apache-tomcat-8.5.49-src/java/org/apache/coyote/http11/AbstractHttp11Protocol.java:298-300 | Stores the value as given, null included, and changes no other field. |
| `Http11.AbstractHttp11Protocol.SetMaxTrailerSize` | apache-tomcat-8.5.49-src/java/org/apache/coyote/http11/AbstractHttp11Protocol.java:325-327 | Stores the value as given and changes no other field. |
| `Http11.AbstractHttp11Protocol.SetMaxExtensionSize` | apache-tomcat-8.5.49-src/java/org/apache/coyote/http11/AbstractHttp11Protocol.java:335-337 | Stores the value as given and changes no other field. |
| `Http11.AbstractHttp11Protocol.SetMaxSwallowSize` | apache-tomcat-8.5.49-src/java/org/apache/coyote/http11/AbstractHttp11Protocol.java:345-347 | Stores the value as given and changes no other field. |
| `Http11.AbstractHttp11Protocol.SetAllowedTrailerHeaders` | apache-tomcat-8.5.49-src/java/org/apache/coyote/http11/AbstractHttp11Protocol.java:368-385 | Null leaves the set unchanged. Otherwise the set becomes the normalised tokens of the value. The trace of intermediate sets starts at the old set, changes one name per step and ends at the new set. Every state contains the old set or the new set, so none is empty when both are non-empty. |
| `Http11.AbstractHttp11Protocol.ReplaceNames` | apache-tomcat-8.5.49-src/java/org/apache/coyote/http11/AbstractHttp11Protocol.java:373-383 | For a non-null value the set becomes exactly the normalised tokens. The names are added before the stale ones are removed, so every intermediate set contains the old set or the new one. |
| `Http11.AbstractHttp11Protocol.AddNames` | apache-tomcat-8.5.49-src/java/org/apache/coyote/http11/AbstractHttp11Protocol.java:371-382 | The loop adds the normalised name of every token and returns in `toRemove` the old names that no token named. Its trace never loses a name. |
| `Http11.AbstractHttp11Protocol.RemoveAll` | apache-tomcat-8.5.49-src/java/org/apache/coyote/http11/AbstractHttp11Protocol.java:383 | Removes exactly the given names, one at a time. Every intermediate set keeps the names that are not removed. |
| `Http11.AbstractHttp11Protocol.GetAllowedTrailerHeadersInternal` | apache-tomcat-8.5.49-src/java/org/apache/coyote/http11/AbstractHttp11Protocol.java:386-388 | Returns the current contents of the allow-list, and every name in it is normalised. |
| `Http11.AbstractHttp11Protocol.AddAllowedTrailerHeader` | apache-tomcat-8.5.49-src/java/org/apache/coyote/http11/AbstractHttp11Protocol.java:396-400 | Null changes nothing. Otherwise exactly the normalised name is added and no other name changes. |
| `Http11.AbstractHttp11Protocol.RemoveAllowedTrailerHeader` | apache-tomcat-8.5.49-src/java/org/apache/coyote/http11/AbstractHttp11Protocol.java:401-405 | Null changes nothing. Otherwise exactly the normalised name is removed and no other name changes. |
| `Http11.AbstractHttp11Protocol.AddUpgradeProtocol` | apache-tomcat-8.5.49-src/java/org/apache/coyote/http11/AbstractHttp11Protocol.java:413-415 | Appends the protocol to the registration list. |
| `Http11.AbstractHttp11Protocol.FindUpgradeProtocols` | apache-tomcat-8.5.49-src/java/org/apache/coyote/http11/AbstractHttp11Protocol.java:417-419 | Returns a new array holding the registered protocols in registration order. |
| `UpgradeRegistry.Configure` | apache-tomcat-8.5.49-src/java/org/apache/coyote/http11/AbstractHttp11Protocol.java:431-462 | A non-empty Upgrade name maps to the protocol and overwrites any earlier entry. A non-empty ALPN name maps to the protocol and is advertised only when ALPN is supported. Every other key is left alone, and a protocol with neither name changes nothing. |
| `Http11.AbstractHttp11Protocol.ConfigureUpgradeProtocol` | apache-tomcat-8.5.49-src/java/org/apache/coyote/http11/AbstractHttp11Protocol.java:431-462 | The maps and the advertised list become `Configure` of their old values. The error is reported exactly when the ALPN name is non-empty, ALPN is unsupported and the Upgrade name is empty. |
| `UpgradeRegistry.AlpnWithNoAlpnOf` | apache-tomcat-8.5.49-src/java/org/apache/coyote/http11/AbstractHttp11Protocol.java:451-459 | Lists exactly the protocols for which the unreachable-protocol error is logged. |
| `UpgradeRegistry.AlpnNames` | apache-tomcat-8.5.49-src/java/org/apache/coyote/http11/AbstractHttp11Protocol.java:445-448 | A name is listed exactly when some protocol has it as its configured ALPN name. |
| `UpgradeRegistry.LastNamed` | apache-tomcat-8.5.49-src/java/org/apache/coyote/http11/AbstractHttp11Protocol.java:436 | Finds the last protocol offering a name, and nothing when no protocol offers it. |
| `Http11.AbstractHttp11Protocol.ConfigureUpgradeProtocols` | apache-tomcat-8.5.49-src/java/org/apache/coyote/http11/AbstractHttp11Protocol.java:79-81 | The loop of `init`: the maps and the advertised list become `ConfigureAll` of their old values over the registered protocols, in order. It returns exactly the protocols for which the error is logged, in order. |
| `Http11.AbstractHttp11Protocol.Init` | apache-tomcat-8.5.49-src/java/org/apache/coyote/http11/AbstractHttp11Protocol.java:78-82 | Configures every protocol in registration order. An Upgrade token then resolves to the last protocol offering it. With ALPN, an ALPN name resolves the same way and the configured ALPN names are advertised in order. Without ALPN, the ALPN map is unchanged. The protocols reported are exactly the unreachable ones. |
| `UpgradeRegistry.UpgradeLookupAfterConfigureAll` | apache-tomcat-8.5.49-src/java/org/apache/coyote/http11/AbstractHttp11Protocol.java:433-440 | After configuring a list, an Upgrade token resolves to the last protocol offering it, or else to what it resolved to before. |
| `UpgradeRegistry.NegotiatedLookupAfterConfigureAll` | apache-tomcat-8.5.49-src/java/org/apache/coyote/http11/AbstractHttp11Protocol.java:444-450 | With ALPN, an ALPN name resolves to the last protocol offering it, or else to what it resolved to before. Without ALPN, the ALPN map is untouched. |
| `UpgradeRegistry.AdvertisedAfterConfigureAll` | apache-tomcat-8.5.49-src/java/org/apache/coyote/http11/AbstractHttp11Protocol.java:446-448 | The endpoint is told every configured ALPN name, once per registration and in order, and only when ALPN is supported. |
| `UpgradeRegistry.AlpnWithNoAlpnIsUnreachable` | apache-tomcat-8.5.49-src/java/org/apache/coyote/http11/AbstractHttp11Protocol.java:451-459 | A protocol for which the error is logged is in neither map afterwards, so no lookup can reach it. |
| `UpgradeRegistry.LaterAlpnRegistrationWins` | apache-tomcat-8.5.49-src/java/org/apache/coyote/http11/AbstractHttp11Protocol.java:436-447 | When two protocols share an ALPN name, the later one wins the ALPN lookup. The earlier one keeps its own Upgrade token. |
| `Http11.AbstractHttp11Protocol.GetNegotiatedProtocol` | apache-tomcat-8.5.49-src/java/org/apache/coyote/http11/AbstractHttp11Protocol.java:464-466 | Returns the protocol stored under the ALPN name, or null exactly when there is none. |
| `Http11.AbstractHttp11Protocol.GetUpgradeProtocol` | apache-tomcat-8.5.49-src/java/org/apache/coyote/http11/AbstractHttp11Protocol.java:468-470 | Returns the protocol stored under the Upgrade token, or null exactly when there is none. |
| `Wrappers.Get` | apache-tomcat-8.5.49-src/java/org/apache/coyote/http11/AbstractHttp11Protocol.java:465 | `Map.get` returns the stored value, and null exactly when the key is absent. |
| `Http11.AbstractHttp11Protocol.SetDefaultSslHostConfigName` | apache-tomcat-8.5.49-src/java/org/apache/coyote/http11/AbstractHttp11Protocol.java:505-510 | The endpoint takes the new default host name. A resolved default configuration stays the same object and is renamed with it. |
| `Net.FirstIndexOf` | apache-tomcat-8.5.49-src/java/org/apache/coyote/http11/AbstractHttp11Protocol.java:541-546 | Gives the position of the first matching host name, and nothing exactly when no name matches. |
| `Http11.AbstractHttp11Protocol.RegisterDefaultSslHostConfig` | apache-tomcat-8.5.49-src/java/org/apache/coyote/http11/AbstractHttp11Protocol.java:538-553 | Afterwards a default is resolved. On first use it is the first endpoint configuration named after the default host, or else a new configuration with that name appended to the endpoint. When a default was already resolved, nothing changes. |
| `Http11.AbstractHttp11Protocol.CreateProcessor` | apache-tomcat-8.5.49-src/java/org/apache/coyote/http11/AbstractHttp11Protocol.java:916-933 | A new processor carries the current maxKeepAliveRequests, connectionUploadTimeout, disableUploadTimeout, restrictedUserAgents and maxSavePostSize. |
| `Http11.AbstractHttp11Protocol.CreateUpgradeProcessor` | apache-tomcat-8.5.49-src/java/org/apache/coyote/http11/AbstractHttp11Protocol.java:936-946 | The adapter is internal exactly when the token carries a handler of the internal kind. It is external for any other handler and for a null one. It carries the given socket and token. |

## Left out

- Compression settings and `useCompression` are left out. They forward to `CompressionConfig`, which is not part of this model.
- Log output is left out. The unreachable-protocol error is modelled as a returned flag from `ConfigureUpgradeProtocol` and a returned list from `Init`. The info messages are not modelled.
- The SSL getters and setters (lines 559-906) are left out. They delegate to `SSLHostConfig`, whose internals are not part of this model. The model keeps only the lazy resolution they all call first.
- The endpoint pass-throughs are left out: SSL enabled, sendfile, the storage of maxKeepAliveRequests, reloading TLS configurations, and `addSslHostConfig` and `findSslHostConfigs`. So is the constructor's wiring of the connection handler. The endpoint is modelled only by the state this class reads or writes.
- The connection-timeout default is left out. It comes from `Constants`, which is not part of this model.
- `super.init()` at the end of `init` is left out. It belongs to the base class.
- The other plain properties of the class are left out: useKeepAliveResponseHeader, relaxed path and query chars, allowHostHeaderMismatch, rejectIllegalHeaderName, server, serverRemoveAppProvidedValues and secure. They are getter and setter pairs with nothing to prove beyond what the modelled setters show.
- GetAllowedTrailerHeadersInternal: returns the allow-list's contents as a value. The source returns the live `Set` object itself, so a caller holding it sees later updates. That aliasing is not modelled.
- AddUpgradeProtocol: takes a non-null protocol. The source also accepts null, and `init` then throws a NullPointerException when `configureUpgradeProtocol` reads its names. That failure is not modelled.
- `getAllowedTrailerHeaders` is left out. It joins a copy of a hash set, whose order is not specified, and `StringUtils.join` is not part of this model.
- Lower-casing covers only the ASCII letters A-Z. Java's `toLowerCase(Locale.ENGLISH)` also maps non-ASCII letters.
- Null is not modelled for the lookup names or the default host name. In the source, a null default host name makes the scan at line 542 throw a NullPointerException when the endpoint has any TLS configuration. With none, a configuration named null is created and added. `setDefaultSSLHostConfigName(null)` stores null and renames a resolved configuration to null.
- Thread safety is left out: the concurrent set behind the allow-list and the unsynchronised lazy resolution. Every operation is modelled as running alone.
- The processor's own constructor, its adapter and its switch to the upload timeout during a connection are left out. They live in `Http11Processor`, which is not part of this model.
- Upgrade processors are modelled as values, not objects. The socket is a type parameter, and a handler is reduced to an id and its kind.
- The order in which `removeAll` takes the stale names is left open, because a hash set fixes no order. The proofs hold for every order.
