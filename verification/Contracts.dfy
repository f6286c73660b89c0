/** The wire and storage vocabulary shared by the edge's components. */
module Contracts {
  import opened Text

  datatype Option<+T> = None | Some(value: T)

  /** Instants and durations in nanoseconds, as Go's time package counts them. */
  type Time = int

  type Id = string

  datatype Disposition = NotCreated | Accepted | Unknown

  datatype Scope = KISMock | KISMockUS | AlpacaPaperCrypto | KISLive | OtherScope(name: string)

  /** Quantity and price stay strings: the edge validates them and forwards them unchanged. */
  datatype Command = Command(
    id: Id, scope: Scope, side: string, stockCode: string, quantity: string, price: string)

  /** An empty order id or error code is an absent one. */
  datatype Receipt = Receipt(
    id: Id, disposition: Disposition, brokerOrderId: string, errorCode: string, recordedAt: Time)

  const STORAGE_FAILURE := "storage_failure"
  const SEND_PENDING := "send_pending"
  const BROKER_UNKNOWN := "broker_unknown"
  const INVALID_COMMAND := "invalid_command"
  const COMMAND_NOT_FOUND := "command_not_found"
  const READ_FAILED := "read_failed"
  const RESOLVED_ABSENT := "resolved_absent"
  const CANCEL_NOT_FOUND := "cancel_not_found"
  const CANCEL_SEND_PENDING := "cancel_send_pending"

  /** The scopes that own a broker and so may be reserved and sent. */
  predicate PlaceableScope(scope: Scope) {
    scope == KISMock || scope == KISMockUS || scope == AlpacaPaperCrypto
  }

  /** An id of visible ASCII characters is valid from one to 128 of them. */
  lemma AsciiIds(value: Id)
    requires forall i | 0 <= i < |value| :: '!' <= value[i] <= '~'
    ensures ValidCommandId(value) <==> 1 <= |value| <= 128
  {
    AsciiBytes(value);
  }

  predicate ValidCommandId(value: Id) {
    value != "" && Bytes(value) <= 128 && forall i | 0 <= i < |value| :: '\U{21}' <= value[i] && value[i] != '\U{7F}'
  }
}
