/** The part of libusb's vocabulary the flashing tool depends on, as values: the
    completion status a callback receives and the eight-byte setup packet that
    precedes the data of a control transfer (section 9.3 of the USB 2.0
    specification). Submission itself is not modelled: a submitted transfer is
    described by a value the callbacks return. */
module Usb {
  import opened Bytes

  /** libusb_transfer_status. */
  datatype Status = Completed | Error | TimedOut | Cancelled | Stall | NoDevice | Overflow

  /** LIBUSB_CONTROL_SETUP_SIZE. */
  const SetupSize := 8

  /** LIBUSB_ENDPOINT_OUT | LIBUSB_REQUEST_TYPE_VENDOR. */
  const VendorOut: byte := 0x40

  /** The exit code of every callback that sees a status other than Completed. */
  const TransferFailedExit := 3

  /** What libusb_fill_control_setup writes: bmRequestType, bRequest, then wValue,
      wIndex and wLength little-endian. Decoding the packet gives back each field. */
  function Setup(requestType: byte, request: byte, value: int, index: int, length: int): (s: seq<byte>)
    requires 0 <= value < 0x1_0000 && 0 <= index < 0x1_0000 && 0 <= length < 0x1_0000
    ensures |s| == SetupSize
    ensures s[0] == requestType && s[1] == request
    ensures U16At(s, 2) == value && U16At(s, 4) == index && U16At(s, 6) == length
  {
    var s := [requestType, request] + Le16(value) + Le16(index) + Le16(length);
    assert s[2..4] == Le16(value) && s[4..6] == Le16(index) && s[6..8] == Le16(length);
    s
  }
}
