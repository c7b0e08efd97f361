/**
 The connection manager. Only the outcome of the driver's handshake is a parameter;
 the driver itself is not part of this model.
 */
module Connection {
  import opened Wrappers

  /** `connectDB`: with no store URI configured (absent or empty) it gives up without
      attempting; otherwise it reports whether the handshake succeeded. */
  function ConnectDB(mongoURI: Option<string>, handshakeSucceeds: bool): (connected: bool)
    ensures connected ==> handshakeSucceeds
    ensures mongoURI == None || mongoURI == Some("") ==> !connected
    ensures mongoURI.Some? && mongoURI.value != "" && handshakeSucceeds ==> connected
  {
    if !Truthy(mongoURI) then false else handshakeSucceeds
  }

  /** The connection state once a read has run: a read that found the store not ready
      calls `connectDB` once, and only its outcome changes the state. */
  function ReadyAfterRead(readyAtProbe: bool, mongoURI: Option<string>, handshakeSucceeds: bool): bool
  {
    readyAtProbe || ConnectDB(mongoURI, handshakeSucceeds)
  }

  /** Without a configured URI (absent or empty) the layer stays in fallback mode for good. */
  lemma NoUriMeansFallbackForever(mongoURI: Option<string>, readyAtProbe: bool, handshakeSucceeds: bool)
    requires !Truthy(mongoURI)
    ensures ReadyAfterRead(readyAtProbe, mongoURI, handshakeSucceeds) == readyAtProbe
  {
  }
}
