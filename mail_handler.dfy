/** The e-mail endpoint of mail/mail_handler.go: an early-return chain that checks
    the method, the three form fields and the address, then calls sendMail and turns
    its error into a status. The dialer's answer is an input. */
module MailHandler {
  import opened Wrappers
  import opened GoStrings
  import opened Http
  import opened MailSender

  /** What a request to the handler produces: the reply, and whether sendMail was
      called (and with it a dialer built). */
  datatype Outcome = Outcome(reply: Reply, sendAttempted: bool)

  /** The fields are present: none of to, subject and body trims to "". */
  predicate FieldsFilled(r: Request) {
    !TrimsToEmpty(FormValue(r, "to")) && !TrimsToEmpty(FormValue(r, "subject"))
      && !TrimsToEmpty(FormValue(r, "body"))
  }

  /** The request passes every check before sendMail. */
  predicate ReachesSend(r: Request) {
    r.verb == MethodPost && FieldsFilled(r) && ValidateEmail(FormValue(r, "to"))
  }

  const SentReply := Reply(StatusOK, "text/plain", "Email sent successfully\n")

  /** The reply to sendMail's result: nil is success; an error whose text names an
      invalid email address is the client's fault (400), any other is the server's
      (500). */
  function SendErrorReply(err: Option<Bytes>): (reply: Reply)
    ensures reply.status == StatusOK <==> err == None
    ensures err == None ==> reply == SentReply
    ensures err.Some? ==>
              && (reply.status == StatusBadRequest <==> Contains(err.value, Ascii("invalid email address")))
              && (reply.status == StatusInternalServerError <==> !Contains(err.value, Ascii("invalid email address")))
  {
    match err
    case Some(e) =>
      if Contains(e, Ascii("invalid email address")) then
        Error("Invalid recipient email address", StatusBadRequest)
      else
        Error("Failed to send email due to an internal server issue", StatusInternalServerError)
    case None =>
      SentReply
  }

  /** HandleSendEmail. `failure` is what the dialer answers if sendMail reaches it. */
  function HandleSendEmail(r: Request, failure: Option<Bytes>): (o: Outcome)
    ensures o.sendAttempted <==> ReachesSend(r)
    ensures o.reply.status == StatusMethodNotAllowed <==> r.verb != MethodPost
    ensures o.reply.status == StatusOK <==> ReachesSend(r) && failure == None
    ensures o.reply.status == StatusInternalServerError ==> ReachesSend(r) && failure.Some?
    ensures o.reply.status in {StatusOK, StatusBadRequest, StatusMethodNotAllowed, StatusInternalServerError}
  {
    var to, subject, body := FormValue(r, "to"), FormValue(r, "subject"), FormValue(r, "body");
    if r.verb != MethodPost then
      Outcome(Error("Method not allowed", StatusMethodNotAllowed), false)
    else if TrimsToEmpty(to) || TrimsToEmpty(subject) || TrimsToEmpty(body) then
      Outcome(Error("Missing required email fields", StatusBadRequest), false)
    else if !ValidateEmail(to) then
      Outcome(Error("Invalid email address format", StatusBadRequest), false)
    else
      Outcome(SendErrorReply(SendMailResult(to, failure)), true)
  }

  /** The checks run in order: a blank field is reported before a bad address, so
      an address is judged only when every field has content. */
  lemma ChecksInOrder(r: Request, failure: Option<Bytes>)
    ensures r.verb == MethodPost && !FieldsFilled(r) ==>
              HandleSendEmail(r, failure).reply == Error("Missing required email fields", StatusBadRequest)
    ensures r.verb == MethodPost && FieldsFilled(r) && !ValidateEmail(FormValue(r, "to")) ==>
              HandleSendEmail(r, failure).reply == Error("Invalid email address format", StatusBadRequest)
  {
  }

  /** sendMail's own "invalid email address" error never reaches the client: the
      handler has already checked the address the same way, so the reply "Invalid
      recipient email address" comes only from a dialer error whose text names it. */
  lemma RecipientErrorOnlyFromDialer(r: Request, failure: Option<Bytes>)
    requires HandleSendEmail(r, failure).reply == Error("Invalid recipient email address", StatusBadRequest)
    ensures ReachesSend(r) && failure.Some?
    ensures Contains(DialError(failure.value), Ascii("invalid email address"))
  {
    // The three 400 replies differ in the length of their text.
    assert |Error("Missing required email fields", StatusBadRequest).body| == 30;
    assert |Error("Invalid email address format", StatusBadRequest).body| == 29;
    assert |Error("Invalid recipient email address", StatusBadRequest).body| == 32;
  }

  /** Conversely, a dialer error whose text contains "invalid email address" is
      reported as 400 rather than 500. */
  lemma {:induction false} DialerAddressErrorIs400(r: Request, cause: Bytes)
    requires ReachesSend(r) && Contains(cause, Ascii("invalid email address"))
    ensures HandleSendEmail(r, Some(cause)).reply == Error("Invalid recipient email address", StatusBadRequest)
  {
    ContainsWithin(Ascii("failed to send email: "), cause,
      Ascii(". make sure to check the settings.env and recompile it if you changed the settings"),
      Ascii("invalid email address"));
  }

  /** A field holding any visible ASCII character is not blank. */
  lemma VisibleFieldsAreFilled(r: Request, i: nat, j: nat, k: nat)
    requires i < |FormValue(r, "to")| && IsVisibleAscii(FormValue(r, "to")[i])
    requires j < |FormValue(r, "subject")| && IsVisibleAscii(FormValue(r, "subject")[j])
    requires k < |FormValue(r, "body")| && IsVisibleAscii(FormValue(r, "body")[k])
    ensures FieldsFilled(r)
  {
  }
}
