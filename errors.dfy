/** The error values of the protocol library (rust-core/src/error.rs), restricted to the
    variants that the modelled code produces, and the library's `Result` alias. */
module Errors {
  /** Why a byte string was refused as a packet; each case is one of the messages that
      `InvalidPacket` carries in the source. */
  datatype InvalidReason =
    | TooSmall                          // "Packet too small"
    | UnknownPacketType(code: int)      // "Unknown packet type: {}"
    | BadRouteLength                    // "Invalid route length"
    | BadRouteUtf8                      // "Invalid route UTF-8: {}"
    | BadPayloadLength                  // "Invalid payload length"
    | BadPayloadData                    // "Invalid payload data"

  datatype ProtocolError =
    | Io
    | Encryption(message: string)
    | Compression(message: string)
    | Timeout
    | InvalidPacket(reason: InvalidReason)
    | VersionMismatch(expected: int, actual: int)
    | Other(message: string)

  /** `Result<T>` = `std::result::Result<T, ProtocolError>`. */
  datatype Result<T> = Ok(value: T) | Err(error: ProtocolError)

  datatype Option<T> = None | Some(value: T)
}
