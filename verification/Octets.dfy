/** Bytes as they travel on a serial line, and the packets that the HCI layer hands to a driver. */
module Octets {

  type byte = x: int | 0 <= x < 256

  /** A socket buffer seen by a driver: its packet type and its bytes. */
  datatype Packet = Packet(kind: nat, data: seq<byte>)

  const HCI_COMMAND_PKT := 1
  const HCI_ACLDATA_PKT := 2
  const HCI_SCODATA_PKT := 3
  const HCI_EVENT_PKT := 4

  datatype Option<+T> = None | Some(value: T)
}
