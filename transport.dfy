/**
  * The transport as the relay sees it: connections are opaque handles, and
  * everything the server does to a connection (write a frame, close it) is
  * recorded as an effect, in order.
  */
module Transport {
  type byte = x: int | 0 <= x < 256

  type Bytes = seq<byte>

  /** Identity of one physical websocket connection (the `net.Conn` a handshake upgraded). */
  type ConnId = nat

  /** What a server write puts on a connection. */
  datatype Frame =
    | Notice(text: string)                                  // the "open" / "authenticated" notices
    | Raw(bytes: Bytes)                                     // a client message relayed verbatim
    | Notification(message: string, conversationId: string) // a server-originated notification

  /** One action on the transport. `ok` is false when the write failed (failures are only logged). */
  datatype Effect =
    | Write(conn: ConnId, frame: Frame, ok: bool)
    | Close(conn: ConnId)

  /** A write of `frame` to `conn`, whose outcome is decided by the set of connections failing now. */
  function WriteTo(conn: ConnId, frame: Frame, fails: set<ConnId>): Effect {
    Write(conn, frame, conn !in fails)
  }
}
