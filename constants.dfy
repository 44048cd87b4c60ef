/** Crate-wide constants of the protocol library (rust-core/src/lib.rs). */
module Constants {
  /** Version byte written into, and demanded of, every packet header. */
  const PROTOCOL_VERSION: int := 1

  /** Default time a reliable packet waits for its ACK, in milliseconds. */
  const DEFAULT_ACK_TIMEOUT_MS: int := 1000

  /** Default number of retransmissions of an unacknowledged packet. */
  const MAX_RETRANSMIT_ATTEMPTS: int := 3
}
