/**
 * The processors the HTTP/1.1 protocol handler manufactures: the default
 * HTTP/1.1 processor, reduced to the settings the handler stamps into it,
 * and the two adapters that run an upgraded connection.
 */
module Processors {
  import opened Wrappers

  /** The settings createProcessor copies into a new Http11Processor. */
  class Http11Processor {
    var maxKeepAliveRequests: Int32
    var connectionUploadTimeout: Int32
    var disableUploadTimeout: bool
    var restrictedUserAgents: Option<string>
    var maxSavePostSize: Int32

    constructor ()
    {
    }
  }

  /**
   * Whether an upgrade handler implements InternalHttpUpgradeHandler (it runs
   * on the connector's own non-blocking I/O) or is a plain servlet
   * HttpUpgradeHandler (it expects the servlet input and output streams).
   */
  datatype HandlerKind = Internal | External

  /** An HttpUpgradeHandler, identified by a number, with its kind. */
  datatype HttpUpgradeHandler = HttpUpgradeHandler(id: nat, kind: HandlerKind)

  /** An UpgradeToken, reduced to the handler it carries; None for a null handler. */
  datatype UpgradeToken = UpgradeToken(handler: Option<HttpUpgradeHandler>)

  /** UpgradeProcessorInternal or UpgradeProcessorExternal, over a socket of type S. */
  datatype UpgradeProcessor<S> =
    | UpgradeProcessorInternal(socket: S, token: UpgradeToken)
    | UpgradeProcessorExternal(socket: S, token: UpgradeToken)
}
