# SMS and e-mail gateway: a Dafny model

This project models the core of a small Go HTTP gateway. Authenticated clients
post SMS and e-mail requests to it, and each client address is rate-limited.
SMS jobs go into a bounded queue, and one worker hands each job to the provider
that is configured: a serial-attached GSM modem driven with AT commands, or
Twilio. E-mail is checked and handed to an SMTP dialer.

Covered here:

- the SMS queue (`SmsQueue`): a class with a FIFO buffer bounded by its
  capacity, the provider and its two sender slots, and one turn of the worker
  loop. An invariant ties what was dispatched and what is still buffered to
  everything ever sent.
- the modem exchange (`SmsHandler`, `SmsSender`):
  - `SendSMS` and `SendSMSviaHardware` are methods on a port object. The port
    keeps a write log, a per-write fault map and the modem's pending answer.
  - Both methods are proved against one specification, `ExpectedExchange`, so
    both write the same bytes, read the same way and return the same errors.
  - A reader for the text-mode frame (3GPP TS 27.005, sections 3.2.3 and
    3.5.1) gives the round trip and shows what the missing escaping does.
- the validators: the phone check, the phone mask, and the e-mail pattern
  `^[\w-\.]+@([\w-]+\.)+[\w-]{2,4}$`. The pattern has two definitions: a
  recognizer, and the set of strings it generates. A lemma proves the two agree.
- the per-address limiter table and its middleware (`RateLimit`).
- `sendMail` and the two e-mail handlers (`MailSender`, `MailHandler`,
  `LegacyEmail`), each an early-return decision chain.
- the wiring of `main.go` (`Server`):
  - configuration defaults;
  - the choice of provider and senders at start-up;
  - `authenticate`;
  - the `/send-sms` and `/send-email` routes behind the limiter.

Go strings are byte sequences (`GoStrings.Bytes`). Inputs the program gets from
outside are parameters of the model:

- the environment, and strconv's parse results;
- whether the serial port opens;
- `net.SplitHostPort`;
- the limiter's `Allow()`;
- what a sender or the SMTP dialer answers;
- the modem's answer bytes.

Behaviour of the code that the model keeps:

- `Send` blocks on a full buffer. The model makes `Send` a step enabled only
  while there is room; there is no "queue full" result.
- The queue's provider names are "hardware" and "twilio".
- The lifecycle is Created, Running, Stopped.
- A recipient such as "INVALID" is not validated by the exchange. It reaches
  the modem, as `SendSmsEmptyAnswerVector` shows.

## Model

| member | source | states |
|---|---|---|
| SmsQueue.SMSQueue.constructor | sms/sms_queue.go:71-76 | A new queue has an empty buffer of the given capacity, no senders, an empty provider and nothing dispatched, and its invariant holds |
| SmsQueue.SMSQueue.SetProvider | sms/sms_queue.go:26-28 | Only the provider field changes; the buffer and the senders are untouched |
| SmsQueue.SMSQueue.SetHardwareSender | sms/sms_queue.go:31-33 | Only the hardware sender slot changes |
| SmsQueue.SMSQueue.SetTwilioSender | sms/sms_queue.go:36-38 | Only the Twilio sender slot changes |
| SmsQueue.SMSQueue.Send | sms/sms_queue.go:41-43 | Enabled only while the buffer has room (a full channel blocks); puts the job at the tail and keeps the invariant, so the buffer never exceeds its capacity |
| SmsQueue.SMSQueue.Start | sms/sms_queue.go:46-49 | Starting a created queue makes it running, which is what enables the worker |
| SmsQueue.SMSQueue.WorkerStep | sms/sms_queue.go:50-63 | One worker turn. It takes the oldest job and calls the sender RouteFor picks, or none. A sender error is only recorded, and the job is neither requeued nor retried with the other sender. The invariant is kept |
| SmsQueue.RouteFor | sms/sms_queue.go:54-60 | Twilio is called iff the provider is "twilio" and its sender is set; the modem iff the provider is "hardware" and its sender is set |
| SmsQueue.NoFallback | sms/sms_queue.go:54-60 | With the named provider's sender nil, or with any other provider name, no sender is called, even when the other sender is set |
| SmsQueue.SMSQueue.Stop | sms/sms_queue.go:78-81 | Stop moves the queue to Stopped. It is allowed only once, since a second close panics. WorkerStep needs Running, so nothing is dispatched afterwards |
| SmsQueue.DispatchOrder | sms/sms_queue.go:52 | FIFO and at most once: the i-th worker turn took the i-th job ever sent, and the buffer holds the remaining jobs in sending order |
| SmsHandler.ValidatePhone | sms/sms_handler.go:46-51 | A number is accepted iff it is 10 to 15 bytes long and starts with '+' |
| SmsHandler.ValidatePhoneSeesLengthAndPlus | sms/sms_handler.go:47-50 | The verdict depends only on the length and the first byte, so digits are never checked |
| SmsHandler.ValidatePhoneExamples | sms/sms_test.go:107-110 | "+1234567890" is accepted; "123ABC", "12345" and "" are refused; "+ABCDEFGHIJ" is accepted |
| SmsHandler.MaskPhone | sms/sms_handler.go:54-59 | Above four bytes, the mask has the same length, keeps the last four bytes and stars every earlier byte. Otherwise it is "****" |
| SmsHandler.MaskRevealsOnlyLastFour | sms/sms_handler.go:54-59 | Two numbers of equal length with the same last four bytes mask alike |
| GoStrings.Contains | sms/sms_handler.go:38 | strings.Contains holds iff the pattern occurs at some index |
| SmsHandler.FrameBytes | sms/sms_handler.go:16-32 | The three commands put exactly "AT+CMGF=1\r" "AT+CMGS=\"" recipient "\"\r" message 0x1A on the wire |
| SmsHandler.FrameRoundTrip | sms/sms_handler.go:24-32 | A modem reading the frame back recovers the recipient and the message, provided the recipient has no '"' and the message no Ctrl-Z |
| SmsHandler.CtrlZInMessageTruncates | sms/sms_handler.go:32 | No escaping: a Ctrl-Z inside the message ends the text the modem sends at that byte |
| SmsHandler.QuoteInRecipientIsMisread | sms/sms_handler.go:24 | No escaping: a '"' inside the recipient means the modem never reads back the address that was given |
| SmsHandler.ModemPort.Write | sms/sms_handler.go:17 | A write succeeds or fails as the fault map says for its number. A success appends the data to the log; a failure returns its error text and logs nothing |
| SmsHandler.ModemPort.Read | sms/sms_handler.go:36-37 | A read into an n-byte buffer takes at most n pending bytes, in order, and leaves the rest pending |
| SmsHandler.RejectionCarriesResponse | sms/sms_handler.go:39 | The text of a rejection contains the modem's raw answer |
| SmsHandler.WritesBeforeFault | sms/sms_handler.go:17-34 | The number of writes that succeed before the first fault: those are fault-free, and the next one (if any) is faulty |
| SmsHandler.ExchangeWhenWritesSucceed | sms/sms_handler.go:16-41 | With three good writes, the frame is written and the answer read once; the result is nil iff the first 1024 answer bytes contain "OK", and otherwise a rejection carrying them |
| SmsHandler.ExchangeStopsAtFault | sms/sms_handler.go:17-34 | A failing write ends the exchange: only the earlier commands are on the wire, nothing is read, and the error names the step and wraps its cause |
| SmsHandler.ExchangeEndsAtFirstFault | sms/sms_handler.go:17-41 | Between one and three writes are attempted, all but the last succeed, and the answer is read iff the last one succeeds too; a modem rejection is only possible after the answer is read |
| SmsHandler.SendSmsTestVector | sms/sms_test.go:50-57 | The test's valid case: with answer "OK" the result is nil, and the bytes written are the ones the test expects |
| SmsHandler.SendSmsErrorVector | sms/sms_test.go:58-64 | With answer "ERROR" the result is a rejection carrying "ERROR" |
| SmsHandler.SendSmsEmptyAnswerVector | sms/sms_test.go:65-76 | With an empty answer, any recipient and message (empty, or "INVALID") are framed and written, and the result is a rejection of the empty answer |
| SmsHandler.SendSMS | sms/sms_handler.go:12-43 | The port's write count, write log, read count and remaining answer bytes, and the returned error, are those of ExpectedExchange for the port's fault map and pending answer: one write per command until the first fault, and one read of at most 1024 bytes only after all three commands went out |
| SmsSender.SendSMSviaHardware | sms/sms_sender.go:35-65 | Meets the same ExpectedExchange contract as SendSMS (write count, bytes, read, remaining answer, error), so the two act alike on every port |
| RateLimit.RateLimiter.constructor | rate_limiter.go:20-26 | No visitors yet; the rate and burst are kept as given |
| RateLimit.Limiter.constructor | rate_limiter.go:35 | A new limiter carries the rate and burst it was built with |
| RateLimit.RateLimiter.GetLimiter | rate_limiter.go:29-39 | Get-or-create. A known address gets its stored limiter and the table is unchanged. An unseen address gets one fresh limiter with the table's settings, added under that address only. Entries are never removed, and the table grows by at most one |
| RateLimit.Decide | rate_limiter.go:44-56 | The next handler is called iff the address splits and the limiter allows. An address that does not split gets 500; a refused request gets 429 |
| RateLimit.RateLimiter.LimitMiddleware | rate_limiter.go:42-58 | The verdict is Decide's. An address that does not split, or one already seen, leaves the visitor map as it was; a new address adds exactly one entry, a fresh limiter with the limiter's rate and burst, and every other entry is kept |
| RateLimit.AdmittedKeepsLimiters | rate_limiter.go:33-38 | One admission never drops or replaces a limiter, adds at most one, and leaves the client's address in the map |
| MailSender.ValidateEmail | mail/mail_sender.go:41-44 | validateEmail: accepts exactly the addresses the pattern `^[\w-\.]+@([\w-]+\.)+[\w-]{2,4}$` matches, as ValidateEmailMatchesPattern proves; email_sender.go:35-38 uses the same pattern |
| MailSender.ValidateEmailMatchesPattern | mail/mail_sender.go:41-44 | The recognizer accepts an address iff the pattern generates it: a non-empty [\w.-] part, '@', then at least two non-empty [\w-] labels joined by '.', the last of 2 to 4 bytes |
| MailSender.ValidateEmailHasOneAt | mail/mail_sender.go:42 | An accepted address holds exactly one '@' |
| MailSender.ValidateEmailAcceptsAssembled | mail/mail_sender.go:42 | Every address built from a valid local part and valid labels is accepted |
| MailSender.ValidateEmailAcceptsExample | mail/email_sending_test.go:51 | "recipient@example.com" is accepted |
| MailSender.ValidateEmailRejectsExample | mail/email_sending_test.go:65 | "invalid-email" is refused |
| MailSender.Dialer.DialAndSend | mail/mail_sender.go:11-14 | The dialer logs the message it is handed and answers with its fixed outcome |
| MailSender.SendMailOutcomes | mail/mail_sender.go:21-39 | A bad address gives exactly "invalid email address: " + to. A dialer error gives a text that starts "failed to send email: " and contains the dialer's text. nil comes iff the address is valid and the dialer succeeds |
| MailSender.SendMail | mail/mail_sender.go:21-39 | Returns SendMailResult. The dialer gets exactly one message (From the SMTP user, To, Subject, an HTML body) iff the address is valid, and none otherwise |
| GoStrings.TrimsToEmpty | mail/mail_handler.go:21 | strings.TrimSpace(s) == "" over UTF-8: true for all-space text, false whenever a visible ASCII byte is present |
| MailHandler.SendErrorReply | mail/mail_handler.go:37-55 | sendMail's nil gives 200 "Email sent successfully". An error gives 400 iff its text contains "invalid email address", and 500 otherwise |
| MailHandler.HandleSendEmail | mail/mail_handler.go:10-59 | Each request gets exactly one outcome. sendMail is called iff the method is POST, no field trims to empty and the address is valid. 405 iff not POST; 200 iff sendMail is reached and succeeds; 500 only for a dialer failure; no other status |
| MailHandler.ChecksInOrder | mail/mail_handler.go:21-30 | A blank field is reported before a bad address, so an address is judged only when every field has content |
| MailHandler.RecipientErrorOnlyFromDialer | mail/mail_handler.go:27-43 | The reply "Invalid recipient email address" comes only from a dialer error whose wrapped text names an invalid address, since bad addresses are refused earlier |
| MailHandler.DialerAddressErrorIs400 | mail/mail_handler.go:37-43 | A dialer error whose text contains "invalid email address" is answered with 400, not 500 |
| MailHandler.VisibleFieldsAreFilled | mail/mail_handler.go:21-24 | Fields that each hold a visible ASCII character pass the blank check |
| LegacyEmail.SendMailVersionsAgree | email_sender.go:11-33 | The legacy sendMail fails on the same inputs as mail/mail_sender.go, with the same bad-address text. Its dialer text "failed to send email: " + err is a strict prefix of the newer one |
| LegacyEmail.SendMail | email_sender.go:11-33 | Returns the legacy result. The dialer gets exactly one message, with a plain-text body, iff the address is valid |
| LegacyEmail.HandleSendEmail | email_sender.go:40-75 | sendMail is called iff the method is POST, no field is exactly "" and the address is valid. 405 iff not POST; 400 "Missing email fields" for a POST with a field exactly "", then 400 "Invalid email address" for a bad address; 200 "Email sent successfully" iff sendMail succeeds; 500 iff it fails; no other status |
| LegacyEmail.BlankFieldHandledDifferently | email_sender.go:51-54 | A body of one space passes this handler's untrimmed check and reaches the dialer, while mail/mail_handler.go refuses it as missing |
| LegacyEmail.HandlersAgreeOnceSent | email_sender.go:60-66 | When both handlers reach the dialer they agree on success, and the newer one answers 400 only where the older one answers 500 |
| Server.PositiveOr | main.go:50-68 | An integer setting is kept iff it parsed and is positive, and otherwise takes its default; the result is always positive |
| Server.PositiveRealOr | main.go:45-48 | The same rule for the rate, whose default is 1 |
| Server.NormalizeProvider | main.go:40-43 | smsProvider is always "hardware" or "twilio", and it is "twilio" iff SMS_PROVIDER lower-cases to "twilio" |
| Server.ProviderIgnoresCase | main.go:40 | Settings that lower-case alike select the same provider |
| Server.ConfigFrom | main.go:28-82 | An empty SERVER_PORT becomes "5643" and any other value is kept. Every numeric setting is positive, and the string settings come straight from the environment |
| Server.DefaultsOfEmptyEnvironment | main.go:34-68 | An empty environment gets port 5643, rate 1, burst 5, SMTP port 587, queue size 100, baud 115200 and provider "hardware" |
| Server.ConfigFromIsStable | main.go:28-82 | An environment that spells out a loaded configuration loads to that same configuration |
| Server.Globals.constructor | main.go:21-26 | The package variables start at Go's zero values |
| Server.Globals.LoadConfig | main.go:28-82 | The step-by-step loading returns ConfigFrom of the environment and leaves the normalized provider in smsProvider |
| Server.Globals.Startup | main.go:92-143 | Start-up produces a running, empty queue of the configured size. Its provider is "twilio" iff the three Twilio settings are set, and SMS_PROVIDER plays no part. The modem sender is set iff the port was opened, the intended registration (see Findings); the Twilio sender iff it is configured |
| Server.RouteAfterStartup | main.go:108-143 | With the intended registration (see Findings), jobs go to Twilio iff it is configured; otherwise to the modem iff the port was opened (hardware provider, non-empty API key, open succeeded) |
| Server.HardwareSenderAsWritten | main.go:84-132 | As written, a modem sender is registered iff the open was attempted (hardware provider, non-empty API key); after a failed open it is the one bound to the nil port; otherwise it is the intended one |
| Server.FailedOpenRoutesToNilPort | main.go:105-132 | When the open is attempted and fails and Twilio is not configured, the code as written routes jobs to the modem through the nil-port sender, where the intended registration routes them nowhere |
| Server.FailedOpenExample | main.go:105-132 | With only API_KEY set and a failed open, jobs reach the nil-port sender as written, and no sender with the intended registration |
| Server.TwilioChoiceWithoutSettingsDropsJobs | main.go:108-143 | Choosing SMS_PROVIDER=twilio without the Twilio settings opens no port and leaves the queue on "hardware", so every job is dropped |
| Server.Authenticate | main.go:196-199 | authenticate: the Authorization header, or the empty string when it is absent, equals API_KEY exactly (cases in AuthenticateCases) |
| Server.AuthenticateCases | main.go:196-199 | A sent Authorization header must equal the key exactly. A missing header passes iff the key is empty |
| Server.HandleSendSms | main.go:151-180 | With no queue the reply is 500 "SMS service not initialized", before any other check. A job is queued iff the queue exists, the request is authenticated, POST, has a valid phone and a non-blank message; a blank message gets 400 "Message cannot be empty". Exactly that job is queued, with reply 202; a request that queues nothing never gets 202; no status outside 500, 401, 405, 400, 202 |
| Server.SendSmsChecksInOrder | main.go:156-171 | Authentication is checked before the method, and the method before the phone number |
| Server.SendSmsRoute | main.go:151 | A request the limiter rejects gets the limiter's reply and queues nothing |
| Server.SendEmailRoute | main.go:182-188 | Mail is attempted iff the limiter passes the request, it is authenticated and the mail handler's checks pass; an unauthenticated request gets 401 |
| Server.Globals.ServeSendSms | main.go:151-180 | One request: the reply is the route's; the limiter's visitor map changes only by the new client's fresh limiter, with the limiter's rate and burst; the queue's buffer grows by exactly the job the route queues, if any, and its provider, senders, state and dispatch log are unchanged |

## Findings

| source | as written | input that shows it | evidently intended | confidence | as-written member | corrected member |
|---|---|---|---|---|---|---|
| main.go:84-132 | openSerialPort returns serial.OpenPort's `*Port` as an `io.ReadWriteCloser`; after a failed open that is a non-nil interface holding a nil pointer, so `serialPort != nil` holds and the modem sender is registered. The first job then panics in `port.Write` (sms/sms_sender.go:40) | SMS_PROVIDER unset, API_KEY "k", a DEVICE_PATH that cannot be opened, no Twilio settings | register the modem sender only when the open returned `err == nil` | not executed | Server.HardwareSenderAsWritten, Server.FailedOpenRoutesToNilPort, Server.FailedOpenExample | Server.HardwareSenderFor, Server.RouteAfterStartup, Server.Globals.Startup |

## Left out

- SendSMSviaTwilio (sms/sms_sender.go:14-32) is not modelled: it is a call into the Twilio SDK with no logic of its own. The queue keeps only the identity of its Twilio sender.
- The token bucket inside `rate.Limiter` (refill over wall-clock time) is external. `Allow()` is an input, and the limiter records only its rate and burst.
- Goroutines, the wait group, the channels' blocking and the mutexes are not modelled. The worker is one explicit step, and `Stop` is a state change.
- The port mutex held around SendSMSviaHardware in main.go is not modelled.
- When both the stop channel and the queue are ready, Go's `select` picks either. The model does not say whether queued jobs still drain after Stop.
- `time.Sleep` settle delays are timing only and do not affect the bytes written.
- Logging is not modelled. This includes the masked number `SendSMS` logs and the recipient the worker logs on a sender error.
- SmsQueue.SMSQueue.Send: an unbuffered queue (bufferSize 0, a rendezvous with the worker) is not modelled, because with capacity 0 the step is never enabled.
- SmsQueue.SMSQueue.Start: a second Start, or a Start after Stop, is not allowed by the model. Go would start a second worker.
- SmsHandler.ModemPort.Write: a partial write (n < len, err == nil) is not modelled; every write is all or nothing.
- SmsHandler.ModemPort.Read: a read error is modelled as an empty answer, since the source ignores the error and uses `response[:n]`. A single read takes everything pending, up to the buffer size.
- GoStrings.ToLower: only ASCII letters are lower-cased. Unicode case mapping is not modelled, so a non-ASCII SMS_PROVIDER that Go lower-cases to "twilio" is not covered.
- Server.ConfigFrom: strconv.ParseFloat and Atoi are inputs, and `RATE_LIMIT` is a real. Float semantics (NaN, infinities, rounding) are not modelled; for example, a NaN rate passes Go's `<= 0` check.
- The environment (godotenv and os.Getenv), `net.SplitHostPort`, `serial.OpenPort`, `http.ListenAndServe` and the `/ping` route are inputs or are not modelled.
- `Header.Get` canonicalizes key case; the model looks the header up under "Authorization" exactly.
- The dialer that `mail.HandleSendEmail` builds with NewDialer, and gomail's message building and SMTP, are not modelled. The dialer's answer is an input, and the message is a record of its headers and body.
- config/app_config.go has no SerialBaud field, although main.go sets and reads one. The model's configuration record has it.
- Three test-file cases do not match the code:
  - `TestQueueSMS` calls a `SetSender` that the queue does not have.
  - The `EmptyMessage` and `InvalidRecipient` cases of `TestSendSMS` fail only because the mock answer is empty (`SendSmsEmptyAnswerVector`).
  - `TestSendMail_SendError` expects the short legacy text, not the text of mail/mail_sender.go (`LegacyEmail.SendMailVersionsAgree` proves the two differ).
