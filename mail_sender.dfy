/** Mail delivery of mail/mail_sender.go: the address check validateEmail and
    sendMail, which checks the address, builds one message and hands it to the
    dialer. The dialer is the MailDialer interface; SMTP itself is not modelled. */
module MailSender {
  import opened Wrappers
  import opened GoStrings
  import opened Config

  const At: byte := 0x40    // '@'
  const Dot: byte := 0x2E   // '.'
  const Dash: byte := 0x2D  // '-'

  // ---------------------------------------------------------------------------
  // validateEmail: the pattern ^[\w-\.]+@([\w-]+\.)+[\w-]{2,4}$

  /** \w of Go's regexp: the ASCII letters and digits and '_'. */
  predicate IsWordByte(b: byte) {
    || 0x30 <= b <= 0x39
    || 0x41 <= b <= 0x5A
    || 0x61 <= b <= 0x7A
    || b == 0x5F
  }

  /** The class [\w-\.] of the part before '@'. */
  predicate IsLocalByte(b: byte) {
    IsWordByte(b) || b == Dash || b == Dot
  }

  /** The class [\w-] of a domain label. */
  predicate IsLabelByte(b: byte) {
    IsWordByte(b) || b == Dash
  }

  predicate IsLocalPart(s: Bytes) {
    |s| > 0 && forall i :: 0 <= i < |s| ==> IsLocalByte(s[i])
  }

  predicate IsLabel(s: Bytes) {
    |s| > 0 && forall i :: 0 <= i < |s| ==> IsLabelByte(s[i])
  }

  /** Two or more labels, each drawn from [\w-], the last of 2 to 4 bytes. */
  predicate LabelsOk(labels: seq<Bytes>) {
    && |labels| >= 2
    && (forall k :: 0 <= k < |labels| ==> IsLabel(labels[k]))
    && 2 <= |labels[|labels| - 1]| <= 4
  }

  /** validateEmail, as a recognizer: cut the address at its first '@', check the
      part before it, split the part after it at every '.' and check the labels. */
  function ValidateEmail(email: Bytes): bool {
    var at := IndexByte(email, At);
    at < |email| && IsLocalPart(email[..at]) && LabelsOk(SplitOn(email[at + 1..], Dot))
  }

  /** The address built from a local part and domain labels. */
  function Assemble(local: Bytes, labels: seq<Bytes>): Bytes
    requires |labels| >= 1
  {
    local + [At] + JoinWith(labels, Dot)
  }

  /** The pattern, read as what it generates: a non-empty run of [\w-\.], '@', one
      or more groups of [\w-]+ each followed by '.', and a final run of 2 to 4
      [\w-] (the groups and the final run are the labels, joined by '.'). */
  ghost predicate MatchesPattern(email: Bytes) {
    exists local: Bytes, labels: seq<Bytes> ::
      IsLocalPart(local) && LabelsOk(labels) && email == Assemble(local, labels)
  }

  /** The recognizer accepts exactly the addresses the pattern generates. */
  lemma {:induction false} ValidateEmailMatchesPattern(email: Bytes)
    ensures ValidateEmail(email) <==> MatchesPattern(email)
  {
    if ValidateEmail(email) {
      var at := IndexByte(email, At);
      var local, labels := email[..at], SplitOn(email[at + 1..], Dot);
      assert email == local + [At] + email[at + 1..];
      assert email == Assemble(local, labels);
    }
    if MatchesPattern(email) {
      var local: Bytes, labels: seq<Bytes> :|
        IsLocalPart(local) && LabelsOk(labels) && email == Assemble(local, labels);
      var domain := JoinWith(labels, Dot);
      assert At !in local by {
        forall i | 0 <= i < |local| ensures local[i] != At {
          assert IsLocalByte(local[i]);
        }
      }
      IndexByteAfter(local, At, domain);
      assert email[..|local|] == local;
      assert email[|local| + 1..] == domain;
      forall k | 0 <= k < |labels| ensures Dot !in labels[k] {
        forall i | 0 <= i < |labels[k]| ensures labels[k][i] != Dot {
          assert IsLabelByte(labels[k][i]);
        }
      }
      SplitJoin(labels, Dot);
    }
  }

  /** An accepted address holds exactly one '@': the one it is cut at. */
  lemma {:induction false} ValidateEmailHasOneAt(email: Bytes)
    requires ValidateEmail(email)
    ensures var at := IndexByte(email, At);
            at < |email| && email[at] == At && At !in email[..at] && At !in email[at + 1..]
  {
    var at := IndexByte(email, At);
    var labels := SplitOn(email[at + 1..], Dot);
    forall k | 0 <= k < |labels| ensures At !in labels[k] {
      forall i | 0 <= i < |labels[k]| ensures labels[k][i] != At {
        assert IsLabelByte(labels[k][i]);
      }
    }
    JoinWithout(labels, Dot, At);
  }

  /** Every address the pattern generates is accepted. */
  lemma ValidateEmailAcceptsAssembled(local: Bytes, labels: seq<Bytes>)
    requires IsLocalPart(local) && LabelsOk(labels)
    ensures ValidateEmail(Assemble(local, labels))
  {
    ValidateEmailMatchesPattern(Assemble(local, labels));
  }

  /** A word of lower-case ASCII letters is a valid local part and label. */
  lemma LowerCaseWord(s: string)
    requires |s| > 0 && forall i :: 0 <= i < |s| ==> 'a' <= s[i] <= 'z'
    ensures IsLabel(Ascii(s)) && IsLocalPart(Ascii(s))
  {
    forall i | 0 <= i < |s| ensures IsLabelByte(Ascii(s)[i]) { }
  }

  lemma ExampleAddressParts()
    ensures Ascii("recipient@example.com") == Assemble(Ascii("recipient"), [Ascii("example"), Ascii("com")])
  {
    AsciiAppend("recipient", "@");
    AsciiAppend("recipient@", "example");
    AsciiAppend("recipient@example", ".");
    AsciiAppend("recipient@example.", "com");
  }

  /** The address of the source's tests is accepted. */
  lemma ValidateEmailAcceptsExample()
    ensures ValidateEmail(Ascii("recipient@example.com"))
  {
    LowerCaseWord("recipient");
    LowerCaseWord("example");
    LowerCaseWord("com");
    ValidateEmailAcceptsAssembled(Ascii("recipient"), [Ascii("example"), Ascii("com")]);
    ExampleAddressParts();
  }

  /** An address without '@' is refused. */
  lemma ValidateEmailRejectsExample()
    ensures !ValidateEmail(Ascii("invalid-email"))
  {
    var email := Ascii("invalid-email");
    forall i | 0 <= i < |email| ensures email[i] != At { }
    IndexByteAbsent(email, At);
  }

  // ---------------------------------------------------------------------------
  // sendMail

  /** The message sendMail builds: From, To and Subject headers and the body. */
  datatype Message = Message(from: Bytes, to: Bytes, subject: Bytes, contentType: string, body: Bytes)

  /** A MailDialer. `attempts` logs every message handed to DialAndSend; every
      call answers `failure` (None when the message was delivered). */
  class Dialer {
    var attempts: seq<Message>
    const failure: Option<Bytes>

    constructor (failure: Option<Bytes>)
      ensures attempts == [] && this.failure == failure
    {
      attempts, this.failure := [], failure;
    }

    method DialAndSend(m: Message) returns (err: Option<Bytes>)
      modifies this`attempts
      ensures attempts == old(attempts) + [m] && err == failure
    {
      attempts := attempts + [m];
      err := failure;
    }
  }

  function InvalidAddressError(to: Bytes): Bytes {
    Ascii("invalid email address: ") + to
  }

  function DialError(cause: Bytes): Bytes {
    Ascii("failed to send email: ") + cause
      + Ascii(". make sure to check the settings.env and recompile it if you changed the settings")
  }

  /** What sendMail returns, given the address and the dialer's answer. */
  function SendMailResult(to: Bytes, failure: Option<Bytes>): Option<Bytes> {
    if !ValidateEmail(to) then Some(InvalidAddressError(to))
    else if failure.Some? then Some(DialError(failure.value))
    else None
  }

  /** The three outcomes of sendMail: a rejected address names itself; a dialer
      error is reported under "failed to send email: " with its own text inside;
      otherwise nil. */
  lemma {:induction false} SendMailOutcomes(to: Bytes, failure: Option<Bytes>)
    ensures !ValidateEmail(to) ==> SendMailResult(to, failure) == Some(Ascii("invalid email address: ") + to)
    ensures ValidateEmail(to) && failure.Some? ==>
              && SendMailResult(to, failure).Some?
              && HasPrefix(SendMailResult(to, failure).value, Ascii("failed to send email: "))
              && Contains(SendMailResult(to, failure).value, failure.value)
    ensures SendMailResult(to, failure) == None <==> ValidateEmail(to) && failure == None
  {
    if ValidateEmail(to) && failure.Some? {
      var prefix := Ascii("failed to send email: ");
      var suffix := Ascii(". make sure to check the settings.env and recompile it if you changed the settings");
      ContainsInfix(prefix, failure.value, suffix);
      assert DialError(failure.value)[..|prefix|] == prefix;
    }
  }

  /** sendMail: an invalid address is refused before any dialing; otherwise exactly
      one message, from the configured SMTP user to `to` with the given subject and
      an HTML body, goes to the dialer, and a dialer error is wrapped. */
  method SendMail(cfg: AppConfig, to: Bytes, subject: Bytes, body: Bytes, dialer: Dialer)
    returns (err: Option<Bytes>)
    modifies dialer
    ensures err == SendMailResult(to, dialer.failure)
    ensures dialer.attempts == if ValidateEmail(to)
                               then old(dialer.attempts) + [Message(cfg.smtpUser, to, subject, "text/html", body)]
                               else old(dialer.attempts)
  {
    if !ValidateEmail(to) {
      return Some(InvalidAddressError(to));
    }
    var mailer := Message(cfg.smtpUser, to, subject, "text/html", body);
    var e := dialer.DialAndSend(mailer);
    if e.Some? {
      return Some(DialError(e.value));
    }
    return None;
  }
}
