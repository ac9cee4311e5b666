/** The modem side of SMS delivery (sms/sms_handler.go): the phone-number check,
    the masking used in log lines, and the text-mode AT-command exchange of
    3GPP TS 27.005 (AT+CMGF, section 3.2.3; AT+CMGS, section 3.5.1) over a serial port. */
module SmsHandler {
  import opened Wrappers
  import opened GoStrings

  const Plus: byte := 0x2B   // '+'
  const Star: byte := 0x2A   // '*'
  const Quote: byte := 0x22  // '"'
  const CR: byte := 0x0D     // carriage return ends a command line
  const CtrlZ: byte := 0x1A  // ends the message text of AT+CMGS

  /** Size of the buffer handed to the single read of the modem's answer. */
  const ResponseBufferSize: nat := 1024

  function Min(a: int, b: int): int {
    if a <= b then a else b
  }

  // ---------------------------------------------------------------------------
  // Validators

  /** ValidatePhone: accepted exactly when the number is 10 to 15 bytes long and
      starts with '+'. Nothing else is looked at (in particular not the digits). */
  function ValidatePhone(phone: Bytes): (ok: bool)
    ensures ok <==> 10 <= |phone| <= 15 && phone[0] == Plus
  {
    if |phone| < 10 || |phone| > 15 then false
    else HasPrefix(phone, Ascii("+"))
  }

  /** The verdict depends on the length and the first byte only. */
  lemma ValidatePhoneSeesLengthAndPlus(p: Bytes, q: Bytes)
    requires |p| == |q| && (|p| > 0 ==> p[0] == q[0])
    ensures ValidatePhone(p) == ValidatePhone(q)
  {
  }

  /** The cases of the source's own test table, and a non-digit number that passes. */
  lemma ValidatePhoneExamples()
    ensures ValidatePhone(Ascii("+1234567890"))
    ensures !ValidatePhone(Ascii("123ABC"))
    ensures !ValidatePhone(Ascii("12345"))
    ensures !ValidatePhone(Ascii(""))
    ensures ValidatePhone(Ascii("+ABCDEFGHIJ"))
  {
  }

  /** maskPhone: all but the last four bytes become '*'; a number of at most four
      bytes is shown as "****". */
  function MaskPhone(phone: Bytes): (masked: Bytes)
    ensures |phone| > 4 ==> |masked| == |phone|
    ensures |phone| > 4 ==> masked[|phone| - 4..] == phone[|phone| - 4..]
    ensures |phone| > 4 ==> forall i :: 0 <= i < |phone| - 4 ==> masked[i] == Star
    ensures |phone| <= 4 ==> masked == [Star, Star, Star, Star]
  {
    if |phone| > 4 then Repeat(Star, |phone| - 4) + phone[|phone| - 4..]
    else Ascii("****")
  }

  /** The mask reveals the length and the last four bytes, and nothing else: two
      numbers that agree on those are masked alike. */
  lemma MaskRevealsOnlyLastFour(p: Bytes, q: Bytes)
    requires |p| == |q|
    requires |p| > 4 ==> p[|p| - 4..] == q[|q| - 4..]
    ensures MaskPhone(p) == MaskPhone(q)
  {
    if |p| > 4 {
      var mp, mq := MaskPhone(p), MaskPhone(q);
      assert forall i :: 0 <= i < |p| - 4 ==> mp[i] == mq[i];
      assert forall i :: |p| - 4 <= i < |p| ==> mp[i] == mp[|p| - 4..][i - (|p| - 4)];
      assert forall i :: |p| - 4 <= i < |p| ==> mq[i] == mq[|p| - 4..][i - (|p| - 4)];
    }
  }

  // ---------------------------------------------------------------------------
  // The command frames

  /** AT+CMGF=1: switch the modem to text mode. */
  function TextModeCommand(): Bytes {
    Ascii("AT+CMGF=1\r")
  }

  /** AT+CMGS="<da>": the destination address, embedded verbatim between quotes. */
  function RecipientCommand(recipient: Bytes): Bytes {
    Ascii("AT+CMGS=\"") + recipient + Ascii("\"\r")
  }

  /** The message text, verbatim, terminated by Ctrl-Z. */
  function MessageCommand(message: Bytes): Bytes {
    message + [CtrlZ]
  }

  /** The bytes put on the wire by the first `k` of the three commands. */
  function FirstCommands(recipient: Bytes, message: Bytes, k: nat): Bytes
    requires k <= 3
  {
    if k == 0 then []
    else if k == 1 then TextModeCommand()
    else if k == 2 then TextModeCommand() + RecipientCommand(recipient)
    else TextModeCommand() + RecipientCommand(recipient) + MessageCommand(message)
  }

  /** Each write extends what the earlier ones put on the wire. */
  lemma FrameSteps(recipient: Bytes, message: Bytes, before: Bytes)
    ensures (before + TextModeCommand()) + RecipientCommand(recipient) == before + FirstCommands(recipient, message, 2)
    ensures (before + FirstCommands(recipient, message, 2)) + MessageCommand(message)
            == before + FirstCommands(recipient, message, 3)
  {
  }

  /** Everything the three writes put on the wire. */
  function Frame(recipient: Bytes, message: Bytes): Bytes {
    FirstCommands(recipient, message, 3)
  }

  /** The frame, spelled out: the bytes the source's test expects on the port. */
  lemma {:induction false} FrameBytes(recipient: Bytes, message: Bytes)
    ensures Frame(recipient, message)
         == Ascii("AT+CMGF=1\rAT+CMGS=\"") + recipient + Ascii("\"\r") + message + [CtrlZ]
  {
    AsciiAppend("AT+CMGF=1\r", "AT+CMGS=\"");
  }

  // ---------------------------------------------------------------------------
  // How the modem reads the frame

  /** How a modem in text mode reads what was written: the AT+CMGF line, then
      AT+CMGS with the address up to the first '"', the closing '"' and CR, then
      the message text up to the first Ctrl-Z (3GPP TS 27.005, section 3.5.1).
      None when the bytes do not have that shape. */
  function ParseSubmission(w: Bytes): Option<(Bytes, Bytes)> {
    var t := TextModeCommand();
    var h := Ascii("AT+CMGS=\"");
    if !HasPrefix(w, t) || !HasPrefix(w[|t|..], h) then None
    else
      var rest := w[|t| + |h|..];
      var q := IndexByte(rest, Quote);
      if q + 1 >= |rest| || rest[q + 1] != CR then None
      else
        var text := rest[q + 2..];
        var z := IndexByte(text, CtrlZ);
        if z == |text| then None else Some((rest[..q], text[..z]))
  }

  /** The part of a frame after the AT+CMGS=" header. */
  lemma {:induction false} FrameAfterHeader(recipient: Bytes, message: Bytes)
    ensures var w := Frame(recipient, message);
            var t := TextModeCommand();
            var h := Ascii("AT+CMGS=\"");
            && HasPrefix(w, t) && HasPrefix(w[|t|..], h)
            && w[|t| + |h|..] == recipient + [Quote] + ([CR] + message + [CtrlZ])
  {
    FrameBytes(recipient, message);
    var t := TextModeCommand();
    var h := Ascii("AT+CMGS=\"");
    AsciiAppend("AT+CMGF=1\r", "AT+CMGS=\"");
    var w := Frame(recipient, message);
    assert Ascii("\"\r") == [Quote, CR];
    assert w == t + h + (recipient + [Quote] + ([CR] + message + [CtrlZ]));
    assert w[..|t|] == t;
    assert w[|t|..] == h + (recipient + [Quote] + ([CR] + message + [CtrlZ]));
    assert w[|t|..][..|h|] == h;
  }

  /** Round trip: when the address holds no '"' and the text no Ctrl-Z, the modem
      reads back exactly the address and the text that were framed. */
  lemma {:induction false} FrameRoundTrip(recipient: Bytes, message: Bytes)
    requires Quote !in recipient && CtrlZ !in message
    ensures ParseSubmission(Frame(recipient, message)) == Some((recipient, message))
  {
    FrameAfterHeader(recipient, message);
    var rest := recipient + [Quote] + ([CR] + message + [CtrlZ]);
    IndexByteAfter(recipient, Quote, [CR] + message + [CtrlZ]);
    assert rest[|recipient| + 1] == CR;
    assert rest[..|recipient|] == recipient;
    var text := rest[|recipient| + 2..];
    assert text == message + [CtrlZ] + [];
    IndexByteAfter(message, CtrlZ, []);
    assert text[..|message|] == message;
  }

  /** Nothing is escaped: a Ctrl-Z inside the message ends the text there, and the
      modem sends only the part before it. */
  lemma {:induction false} CtrlZInMessageTruncates(recipient: Bytes, message: Bytes)
    requires Quote !in recipient && CtrlZ in message
    ensures var z := IndexByte(message, CtrlZ);
            && z < |message|
            && ParseSubmission(Frame(recipient, message)) == Some((recipient, message[..z]))
  {
    FrameAfterHeader(recipient, message);
    var rest := recipient + [Quote] + ([CR] + message + [CtrlZ]);
    IndexByteAfter(recipient, Quote, [CR] + message + [CtrlZ]);
    assert rest[|recipient| + 1] == CR;
    assert rest[..|recipient|] == recipient;
    var text := rest[|recipient| + 2..];
    var z := IndexByte(message, CtrlZ);
    assert z < |message| by {
      var j :| 0 <= j < |message| && message[j] == CtrlZ;
    }
    assert text == message[..z] + [CtrlZ] + (message[z + 1..] + [CtrlZ]);
    IndexByteAfter(message[..z], CtrlZ, message[z + 1..] + [CtrlZ]);
    assert text[..z] == message[..z];
  }

  /** Nothing is escaped: a '"' inside the address ends it early, so the modem never
      reads back the address that was given. */
  lemma {:induction false} QuoteInRecipientIsMisread(recipient: Bytes, message: Bytes)
    requires Quote in recipient
    ensures ParseSubmission(Frame(recipient, message)) != Some((recipient, message))
  {
    FrameAfterHeader(recipient, message);
    var rest := recipient + [Quote] + ([CR] + message + [CtrlZ]);
    var j :| 0 <= j < |recipient| && recipient[j] == Quote;
    assert rest[j] == Quote;
    var q := IndexByte(rest, Quote);
    assert q <= j;
  }

  // ---------------------------------------------------------------------------
  // The serial port

  /** A serial port as the exchange sees it. `written` logs the bytes of every write
      that succeeded, in order; write number k (counting from 0 over the port's
      life) fails with error text `writeFaults[k]` when k is a key; `pending` holds
      the bytes the modem has answered and that have not been read yet. */
  class ModemPort {
    var written: Bytes
    var writes: nat
    const writeFaults: map<nat, Bytes>
    var pending: Bytes
    var readCount: nat

    constructor (faults: map<nat, Bytes>, answer: Bytes)
      ensures written == [] && writes == 0 && readCount == 0
      ensures writeFaults == faults && pending == answer
    {
      written, writes, readCount := [], 0, 0;
      writeFaults, pending := faults, answer;
    }

    /** io.Writer.Write: a failing write returns its error and logs nothing. */
    method Write(data: Bytes) returns (err: Option<Bytes>)
      modifies this`written, this`writes
      ensures writes == old(writes) + 1
      ensures err == (if old(writes) in writeFaults then Some(writeFaults[old(writes)]) else None)
      ensures written == if err.None? then old(written) + data else old(written)
    {
      if writes in writeFaults {
        err := Some(writeFaults[writes]);
      } else {
        err := None;
        written := written + data;
      }
      writes := writes + 1;
    }

    /** io.Reader.Read into a buffer of `size` bytes: takes what is pending, up to
        the buffer size. A read error is modelled as an empty answer. */
    method Read(size: nat) returns (data: Bytes)
      modifies this`pending, this`readCount
      ensures data == old(pending)[..Min(size, |old(pending)|)]
      ensures pending == old(pending)[Min(size, |old(pending)|)..]
      ensures readCount == old(readCount) + 1
    {
      var n := Min(size, |pending|);
      data, pending := pending[..n], pending[n..];
      readCount := readCount + 1;
    }
  }

  // ---------------------------------------------------------------------------
  // The exchange

  /** The errors SendSMS returns, one per step, with the cause or the raw answer. */
  datatype SmsError =
    | TextModeFailed(cause: Bytes)
    | PhoneNumberFailed(cause: Bytes)
    | MessageFailed(cause: Bytes)
    | ModemRejected(response: Bytes)

  /** The text of each error as fmt.Errorf formats it. */
  function ErrorText(e: SmsError): Bytes {
    match e
    case TextModeFailed(c) => Ascii("failed to set text mode: ") + c
    case PhoneNumberFailed(c) => Ascii("failed to send phone number: ") + c
    case MessageFailed(c) => Ascii("failed to send message: ") + c
    case ModemRejected(r) => Ascii("failed to send SMS, modem response: ") + r
  }

  /** A rejection's error text carries the modem's raw answer. */
  lemma {:induction false} RejectionCarriesResponse(response: Bytes)
    ensures Contains(ErrorText(ModemRejected(response)), response)
  {
    var prefix := Ascii("failed to send SMS, modem response: ");
    ContainsInfix(prefix, response, []);
    assert prefix + response + [] == ErrorText(ModemRejected(response));
  }

  /** The error of the write at `step` (0, 1 or 2). */
  function StepError(step: nat, cause: Bytes): SmsError
    requires step < 3
  {
    if step == 0 then TextModeFailed(cause)
    else if step == 1 then PhoneNumberFailed(cause)
    else MessageFailed(cause)
  }

  /** How many of the three writes issued from write number `start` on succeed
      before the first one that fails. */
  function WritesBeforeFault(start: nat, faults: map<nat, Bytes>): (k: nat)
    ensures k <= 3
    ensures forall n :: start <= n < start + k ==> n !in faults
    ensures k < 3 ==> start + k in faults
  {
    if start in faults then 0
    else if start + 1 in faults then 1
    else if start + 2 in faults then 2
    else 3
  }

  /** What one exchange does: how many writes it attempts, the bytes those put on
      the port, whether it reads the answer, and the error it returns (None for nil). */
  datatype Exchange = Exchange(attempts: nat, written: Bytes, responseRead: bool, result: Option<SmsError>)

  /** The exchange on a port whose next write is number `start`: the writes go out
      in order until the first that fails, which ends the exchange with that step's
      error; after three good writes one read of at most 1024 bytes decides, by the
      presence of "OK", between nil and a rejection carrying the answer. */
  function ExpectedExchange(recipient: Bytes, message: Bytes, start: nat,
                            faults: map<nat, Bytes>, pending: Bytes): Exchange
  {
    var k := WritesBeforeFault(start, faults);
    if k < 3 then
      Exchange(k + 1, FirstCommands(recipient, message, k), false, Some(StepError(k, faults[start + k])))
    else
      var response := pending[..Min(ResponseBufferSize, |pending|)];
      Exchange(3, Frame(recipient, message), true,
               if Contains(response, Ascii("OK")) then None else Some(ModemRejected(response)))
  }

  /** When every write succeeds, the port receives exactly the frame, the answer is
      read once, and the result is nil exactly when the answer holds "OK". */
  lemma {:induction false} ExchangeWhenWritesSucceed(recipient: Bytes, message: Bytes, start: nat,
                                                     faults: map<nat, Bytes>, pending: Bytes)
    requires start !in faults && start + 1 !in faults && start + 2 !in faults
    ensures var x := ExpectedExchange(recipient, message, start, faults, pending);
            var response := pending[..Min(ResponseBufferSize, |pending|)];
            && x.attempts == 3
            && x.written == Frame(recipient, message)
            && x.written == Ascii("AT+CMGF=1\rAT+CMGS=\"") + recipient + Ascii("\"\r") + message + [CtrlZ]
            && x.responseRead
            && (x.result == None <==> Contains(response, Ascii("OK")))
            && (x.result != None ==> x.result == Some(ModemRejected(response)))
  {
    FrameBytes(recipient, message);
  }

  /** A failing write ends the exchange: only the earlier commands reach the port,
      nothing is read, and the error names the failing step and carries its cause. */
  lemma {:induction false} ExchangeStopsAtFault(recipient: Bytes, message: Bytes, start: nat,
                                                faults: map<nat, Bytes>, pending: Bytes, step: nat)
    requires step < 3 && start + step in faults
    requires forall n :: start <= n < start + step ==> n !in faults
    ensures var x := ExpectedExchange(recipient, message, start, faults, pending);
            && x.attempts == step + 1
            && !x.responseRead
            && x.written == FirstCommands(recipient, message, step)
            && x.result == Some(StepError(step, faults[start + step]))
  {
  }

  /** Every exchange attempts writes in order up to the first failing one and no
      further: all attempted writes but the last succeed, and the answer is read
      exactly when the last one succeeded too. A write failure is the only error
      that skips the read. */
  lemma {:induction false} ExchangeEndsAtFirstFault(recipient: Bytes, message: Bytes, start: nat,
                                                    faults: map<nat, Bytes>, pending: Bytes)
    ensures var x := ExpectedExchange(recipient, message, start, faults, pending);
            && 1 <= x.attempts <= 3
            && (forall n :: start <= n < start + x.attempts - 1 ==> n !in faults)
            && (x.responseRead <==> start + x.attempts - 1 !in faults)
            && (x.responseRead ==> x.written == Frame(recipient, message))
            && (!x.responseRead ==> x.result.Some? && !x.result.value.ModemRejected?)
  {
    var k := WritesBeforeFault(start, faults);
    if k == 3 {
      assert start + 2 !in faults;
    }
  }

  /** The source's test case: with answer "OK" the exchange succeeds and writes the
      expected bytes. */
  lemma SendSmsTestVector()
    ensures var x := ExpectedExchange(Ascii("+1234567890"), Ascii("Hello, this is a test message"),
                                      0, map[], Ascii("OK"));
            && x.result == None
            && x.written == Ascii("AT+CMGF=1\rAT+CMGS=\"") + Ascii("+1234567890") + Ascii("\"\r")
                            + Ascii("Hello, this is a test message") + [CtrlZ]
  {
    var r, m := Ascii("+1234567890"), Ascii("Hello, this is a test message");
    ExchangeWhenWritesSucceed(r, m, 0, map[], Ascii("OK"));
    assert OccursAt(Ascii("OK"), Ascii("OK"), 0);
  }

  /** The source's test case of a modem answering "ERROR": the exchange fails and
      the error carries that answer. */
  lemma SendSmsErrorVector()
    ensures ExpectedExchange(Ascii("+1234567890"), Ascii("Test error response"), 0, map[], Ascii("ERROR")).result
            == Some(ModemRejected(Ascii("ERROR")))
  {
    var answer := Ascii("ERROR");
    assert WritesBeforeFault(0, map[]) == 3;
    assert answer[..Min(ResponseBufferSize, |answer|)] == answer;
    assert Ascii("OK")[1] !in answer;
    NotContainedWithoutByte(answer, Ascii("OK"), 1);
  }

  /** The source's cases with an empty message and with the recipient "INVALID":
      neither is validated, so both fail only because the modem's answer is empty. */
  lemma SendSmsEmptyAnswerVector(recipient: Bytes, message: Bytes)
    ensures var x := ExpectedExchange(recipient, message, 0, map[], []);
            x.written == Frame(recipient, message) && x.result == Some(ModemRejected([]))
  {
    assert WritesBeforeFault(0, map[]) == 3;
  }

  /** SendSMS: the exchange described by ExpectedExchange, performed on `port`.
      The one-second settle delays between the writes are not modelled. */
  method SendSMS(port: ModemPort, recipient: Bytes, message: Bytes) returns (err: Option<SmsError>)
    modifies port
    ensures var x := ExpectedExchange(recipient, message, old(port.writes), port.writeFaults, old(port.pending));
            && port.writes == old(port.writes) + x.attempts
            && port.written == old(port.written) + x.written
            && port.readCount == old(port.readCount) + (if x.responseRead then 1 else 0)
            && port.pending == (if x.responseRead then old(port.pending)[Min(ResponseBufferSize, |old(port.pending)|)..]
                                else old(port.pending))
            && err == x.result
  {
    ghost var start, faults, pending, before := port.writes, port.writeFaults, port.pending, port.written;
    var cmd := Ascii("AT+CMGF=1") + Ascii("\r");
    assert cmd == TextModeCommand() by { AsciiAppend("AT+CMGF=1", "\r"); }
    var e := port.Write(cmd);
    if e.Some? {
      ExchangeStopsAtFault(recipient, message, start, faults, pending, 0);
      return Some(TextModeFailed(e.value));
    }

    cmd := Ascii("AT+CMGS=\"") + recipient + Ascii("\"");
    cmd := cmd + Ascii("\r");
    assert cmd == RecipientCommand(recipient) by { AsciiAppend("\"", "\r"); }
    e := port.Write(cmd);
    if e.Some? {
      ExchangeStopsAtFault(recipient, message, start, faults, pending, 1);
      return Some(PhoneNumberFailed(e.value));
    }
    FrameSteps(recipient, message, before);
    assert port.written == before + FirstCommands(recipient, message, 2);

    e := port.Write(message + [CtrlZ]);
    if e.Some? {
      ExchangeStopsAtFault(recipient, message, start, faults, pending, 2);
      return Some(MessageFailed(e.value));
    }
    assert port.written == (before + FirstCommands(recipient, message, 2)) + MessageCommand(message);
    FrameSteps(recipient, message, before);
    ExchangeWhenWritesSucceed(recipient, message, start, faults, pending);

    var response := port.Read(ResponseBufferSize);
    if !Contains(response, Ascii("OK")) {
      return Some(ModemRejected(response));
    }
    return None;
  }
}
