/** The hardware sender of sms/sms_sender.go. SendSMSviaHardware repeats the
    exchange of SendSMS; the model proves it against the same ExpectedExchange, so
    the two put the same bytes on the port, read the same way and return the same
    errors. The Twilio sender is not part of this model. */
module SmsSender {
  import opened Wrappers
  import opened GoStrings
  import opened SmsHandler

  /** SendSMSviaHardware: the exchange described by ExpectedExchange. The recipient
      command is formatted in one piece here ("AT+CMGS=\"%s\"\r"), where SendSMS
      appends the CR afterwards; the bytes are the same. */
  method SendSMSviaHardware(port: ModemPort, recipient: Bytes, message: Bytes) returns (err: Option<SmsError>)
    modifies port
    ensures var x := ExpectedExchange(recipient, message, old(port.writes), port.writeFaults, old(port.pending));
            && port.writes == old(port.writes) + x.attempts
            && port.written == old(port.written) + x.written
            && port.readCount == old(port.readCount) + (if x.responseRead then 1 else 0)
            && port.pending == (if x.responseRead then old(port.pending)[Min(ResponseBufferSize, |old(port.pending)|)..]
                                else old(port.pending))
            && err == x.result
  {
    ghost var start, faults, pending, before := port.writes, port.writeFaults, port.pending, port.written;
    var cmd := Ascii("AT+CMGF=1\r");
    var e := port.Write(cmd);
    if e.Some? {
      ExchangeStopsAtFault(recipient, message, start, faults, pending, 0);
      return Some(TextModeFailed(e.value));
    }

    cmd := Ascii("AT+CMGS=\"") + recipient + Ascii("\"\r");
    e := port.Write(cmd);
    if e.Some? {
      ExchangeStopsAtFault(recipient, message, start, faults, pending, 1);
      return Some(PhoneNumberFailed(e.value));
    }
    FrameSteps(recipient, message, before);
    assert port.written == before + FirstCommands(recipient, message, 2);

    e := port.Write(message + [CtrlZ]);
    if e.Some? {
      ExchangeStopsAtFault(recipient, message, start, faults, pending, 2);
      return Some(MessageFailed(e.value));
    }
    assert port.written == (before + FirstCommands(recipient, message, 2)) + MessageCommand(message);
    FrameSteps(recipient, message, before);
    ExchangeWhenWritesSucceed(recipient, message, start, faults, pending);

    var response := port.Read(ResponseBufferSize);
    if !Contains(response, Ascii("OK")) {
      return Some(ModemRejected(response));
    }
    return None;
  }
}
