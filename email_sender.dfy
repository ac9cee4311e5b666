/** The older e-mail path of email_sender.go (package main): its own sendMail, which
    builds the dialer itself and sends a plain-text body, and handleSendEmail, whose
    field check compares with "" without trimming. Its validateEmail is the same
    pattern as mail/mail_sender.go and is MailSender.ValidateEmail here. */
module LegacyEmail {
  import opened Wrappers
  import opened GoStrings
  import opened Config
  import opened Http
  import opened MailSender
  import MailHandler

  function LegacyDialError(cause: Bytes): Bytes {
    Ascii("failed to send email: ") + cause
  }

  /** What this sendMail returns, given the address and the dialer's answer. */
  function SendMailResult(to: Bytes, failure: Option<Bytes>): Option<Bytes> {
    if !ValidateEmail(to) then Some(InvalidAddressError(to))
    else if failure.Some? then Some(LegacyDialError(failure.value))
    else None
  }

  /** The two sendMail functions fail on the same inputs, with the same text for a
      bad address; for a dialer error the older text is the start of the newer one,
      which appends advice about settings.env. */
  lemma {:induction false} SendMailVersionsAgree(to: Bytes, failure: Option<Bytes>)
    ensures SendMailResult(to, failure).None? <==> MailSender.SendMailResult(to, failure).None?
    ensures !ValidateEmail(to) ==> SendMailResult(to, failure) == MailSender.SendMailResult(to, failure)
    ensures ValidateEmail(to) && failure.Some? ==>
              HasPrefix(MailSender.SendMailResult(to, failure).value, SendMailResult(to, failure).value)
              && SendMailResult(to, failure).value != MailSender.SendMailResult(to, failure).value
  {
    if ValidateEmail(to) && failure.Some? {
      var short := LegacyDialError(failure.value);
      var long := DialError(failure.value);
      assert long == short + Ascii(". make sure to check the settings.env and recompile it if you changed the settings");
      assert long[..|short|] == short;
      assert |long| > |short|;
    }
  }

  /** sendMail: a bad address is refused before the dialer is built; otherwise one
      message with a text/plain body goes to the dialer, and its error is wrapped. */
  method SendMail(cfg: AppConfig, to: Bytes, subject: Bytes, body: Bytes, dialer: Dialer)
    returns (err: Option<Bytes>)
    modifies dialer
    ensures err == SendMailResult(to, dialer.failure)
    ensures dialer.attempts == if ValidateEmail(to)
                               then old(dialer.attempts) + [Message(cfg.smtpUser, to, subject, "text/plain", body)]
                               else old(dialer.attempts)
  {
    if !ValidateEmail(to) {
      return Some(InvalidAddressError(to));
    }
    var mailer := Message(cfg.smtpUser, to, subject, "text/plain", body);
    var e := dialer.DialAndSend(mailer);
    if e.Some? {
      return Some(LegacyDialError(e.value));
    }
    return None;
  }

  /** No field is exactly "". */
  predicate FieldsPresent(r: Request) {
    FormValue(r, "to") != [] && FormValue(r, "subject") != [] && FormValue(r, "body") != []
  }

  /** handleSendEmail. `failure` is what the dialer answers if sendMail reaches it. */
  function HandleSendEmail(r: Request, failure: Option<Bytes>): (o: MailHandler.Outcome)
    ensures o.sendAttempted <==> r.verb == MethodPost && FieldsPresent(r) && ValidateEmail(FormValue(r, "to"))
    ensures o.reply.status == StatusMethodNotAllowed <==> r.verb != MethodPost
    ensures o.reply.status == StatusOK <==> o.sendAttempted && failure == None
    ensures o.reply.status == StatusInternalServerError <==> o.sendAttempted && failure.Some?
    ensures r.verb == MethodPost && !FieldsPresent(r) ==> o.reply == Error("Missing email fields", StatusBadRequest)
    ensures (r.verb == MethodPost && FieldsPresent(r) && !ValidateEmail(FormValue(r, "to"))) ==>
              o.reply == Error("Invalid email address", StatusBadRequest)
    ensures o.reply.status == StatusOK ==> o.reply == MailHandler.SentReply
    ensures o.reply.status in {StatusOK, StatusBadRequest, StatusMethodNotAllowed, StatusInternalServerError}
  {
    var to, subject, body := FormValue(r, "to"), FormValue(r, "subject"), FormValue(r, "body");
    if r.verb != MethodPost then
      MailHandler.Outcome(Error("Method not allowed", StatusMethodNotAllowed), false)
    else if to == [] || subject == [] || body == [] then
      MailHandler.Outcome(Error("Missing email fields", StatusBadRequest), false)
    else if !ValidateEmail(to) then
      MailHandler.Outcome(Error("Invalid email address", StatusBadRequest), false)
    else if SendMailResult(to, failure).Some? then
      MailHandler.Outcome(Error("Failed to send email", StatusInternalServerError), true)
    else
      MailHandler.Outcome(MailHandler.SentReply, true)
  }

  /** The two handlers differ on blank fields: a field of spaces passes this
      handler's check (and, with a valid address, reaches the dialer) but is
      refused as missing by mail/mail_handler.go. */
  lemma {:induction false} BlankFieldHandledDifferently(r: Request, failure: Option<Bytes>)
    requires r.verb == MethodPost && ValidateEmail(FormValue(r, "to"))
    requires FormValue(r, "body") == Ascii(" ") && FormValue(r, "subject") != []
    ensures HandleSendEmail(r, failure).sendAttempted
    ensures MailHandler.HandleSendEmail(r, failure).reply == Error("Missing required email fields", StatusBadRequest)
  {
    assert IndexByte(FormValue(r, "to"), At) < |FormValue(r, "to")|;
    assert IsAsciiSpace(Ascii(" ")[0]);
  }

  /** Whenever both handlers reach the dialer, they agree on success and failure,
      and the newer one answers 400 only where the older one answers 500. */
  lemma HandlersAgreeOnceSent(r: Request, failure: Option<Bytes>)
    requires HandleSendEmail(r, failure).sendAttempted && MailHandler.HandleSendEmail(r, failure).sendAttempted
    ensures (HandleSendEmail(r, failure).reply.status == StatusOK) <==>
            (MailHandler.HandleSendEmail(r, failure).reply.status == StatusOK)
    ensures MailHandler.HandleSendEmail(r, failure).reply.status == StatusBadRequest ==>
            HandleSendEmail(r, failure).reply.status == StatusInternalServerError
  {
  }
}
