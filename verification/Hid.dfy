/** How src/hid.rs turns what happened on the wire into the three outcomes the daemon acts on. */
module Hid {
  import opened Base

  datatype Protocol = Dongle | UsbCable

  /** One exchange with the device: the write or ioctl failed, waiting for the reply failed, no full
      reply came, or a reply with these command and data bytes came. */
  datatype Wire =
    | WriteError
    | PollError
    | Silence
    | Reply(command: Byte, data: Byte)

  datatype SendResult = Acked | NotAcked | SendFailed

  datatype LinkResult = LinkUp | LinkDown | LinkFailed

  function SendSysparam(protocol: Protocol, wire: Wire): SendResult {
    match protocol
    case Dongle => (
      match wire
      case WriteError => SendFailed
      case PollError => SendFailed
      case Silence => NotAcked
      case Reply(command, _) => if command >= 0x80 then SendFailed else Acked)
    case UsbCable => if wire.WriteError? then SendFailed else Acked
  }

  function LinkState(protocol: Protocol, wire: Wire): LinkResult {
    match protocol
    case UsbCable => LinkUp
    case Dongle =>
      match wire
      case WriteError => LinkFailed
      case PollError => LinkFailed
      case Silence => LinkFailed
      case Reply(command, data) =>
        if command >= 0x80 then LinkFailed else if data == 0 then LinkDown else LinkUp
  }
}
