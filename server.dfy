/** The wiring of main.go: loadConfig's parse-or-default rules, the start-up that
    builds the SMS queue and chooses its senders, authenticate, and the decisions
    of the /send-sms and /send-email routes behind the rate limiter. The package
    variables apiKey, smsQueue and smsProvider are the fields of `Globals`. The
    environment, strconv's parse results and whether the serial port opens are
    inputs. */
module Server {
  import opened Wrappers
  import opened GoStrings
  import opened Config
  import opened Http
  import opened SmsHandler
  import opened SmsQueue
  import RateLimit
  import MailHandler

  // ---------------------------------------------------------------------------
  // loadConfig

  /** The process environment once settings.env is loaded: what os.Getenv gives
      for each variable that is set, and what strconv made of the numeric ones
      (None for a parse error). */
  datatype Environment = Environment(
    vars: map<string, Bytes>,
    rateLimit: Option<real>,
    burstLimit: Option<int>,
    smtpPort: Option<int>,
    maxQueueSize: Option<int>,
    serialBaud: Option<int>)

  /** os.Getenv: "" for a variable that is not set. */
  function Getenv(env: Environment, name: string): Bytes {
    if name in env.vars then env.vars[name] else []
  }

  /** The parse-or-default rule of the integer settings: a value that parsed and is
      positive is kept; a parse error or a value <= 0 gives the default. */
  function PositiveOr(parsed: Option<int>, default: int): (v: int)
    requires default > 0
    ensures v > 0
    ensures parsed.Some? && parsed.value > 0 ==> v == parsed.value
    ensures parsed.None? || parsed.value <= 0 ==> v == default
  {
    if parsed.Some? && parsed.value > 0 then parsed.value else default
  }

  /** The same rule for the rate, whose default is 1 request per second. */
  function PositiveRealOr(parsed: Option<real>, default: real): (v: real)
    requires default > 0.0
    ensures v > 0.0
    ensures parsed.Some? && parsed.value > 0.0 ==> v == parsed.value
    ensures parsed.None? || parsed.value <= 0.0 ==> v == default
  {
    if parsed.Some? && parsed.value > 0.0 then parsed.value else default
  }

  /** smsProvider: SMS_PROVIDER in lower case when that is "hardware" or "twilio",
      "hardware" otherwise. */
  function NormalizeProvider(setting: Bytes): (p: Bytes)
    ensures p == Ascii("hardware") || p == Ascii("twilio")
    ensures p == Ascii("twilio") <==> ToLower(setting) == Ascii("twilio")
  {
    var lower := ToLower(setting);
    if lower != Ascii("hardware") && lower != Ascii("twilio") then Ascii("hardware") else lower
  }

  /** Upper and lower case name the same provider. */
  lemma {:induction false} ProviderIgnoresCase(a: Bytes, b: Bytes)
    requires ToLower(a) == ToLower(b)
    ensures NormalizeProvider(a) == NormalizeProvider(b)
  {
  }

  /** The configuration loadConfig returns for an environment. */
  function ConfigFrom(env: Environment): (cfg: AppConfig)
    ensures Getenv(env, "SERVER_PORT") != [] ==> cfg.serverPort == Getenv(env, "SERVER_PORT")
    ensures Getenv(env, "SERVER_PORT") == [] ==> cfg.serverPort == Ascii("5643")
    ensures cfg.rateLimit > 0.0 && cfg.burstLimit > 0 && cfg.smtpPort > 0
    ensures cfg.maxQueueSize > 0 && cfg.serialBaud > 0
    ensures cfg.smtpHost == Getenv(env, "SMTP_HOST") && cfg.smtpUser == Getenv(env, "SMTP_USER")
    ensures cfg.smtpPass == Getenv(env, "SMTP_PASS") && cfg.devicePath == Getenv(env, "DEVICE_PATH")
  {
    var port := Getenv(env, "SERVER_PORT");
    AppConfig(
      serverPort := if port == [] then Ascii("5643") else port,
      rateLimit := PositiveRealOr(env.rateLimit, 1.0),
      burstLimit := PositiveOr(env.burstLimit, 5),
      smtpHost := Getenv(env, "SMTP_HOST"),
      smtpPort := PositiveOr(env.smtpPort, 587),
      smtpUser := Getenv(env, "SMTP_USER"),
      smtpPass := Getenv(env, "SMTP_PASS"),
      devicePath := Getenv(env, "DEVICE_PATH"),
      maxQueueSize := PositiveOr(env.maxQueueSize, 100),
      serialBaud := PositiveOr(env.serialBaud, 115200))
  }

  /** An environment that sets nothing gets every default. */
  lemma DefaultsOfEmptyEnvironment()
    ensures ConfigFrom(Environment(map[], None, None, None, None, None))
            == AppConfig(Ascii("5643"), 1.0, 5, [], 587, [], [], [], 100, 115200)
    ensures NormalizeProvider([]) == Ascii("hardware")
  {
  }

  /** Loading is stable: an environment that spells out a loaded configuration
      loads to that same configuration. */
  lemma {:induction false} ConfigFromIsStable(env: Environment)
    ensures ConfigFrom(Spelled(ConfigFrom(env))) == ConfigFrom(env)
  {
    var cfg := ConfigFrom(env);
    var again := Spelled(cfg);
    assert Getenv(again, "SERVER_PORT") == cfg.serverPort;
    assert Getenv(again, "SMTP_HOST") == cfg.smtpHost;
    assert Getenv(again, "SMTP_USER") == cfg.smtpUser;
    assert Getenv(again, "SMTP_PASS") == cfg.smtpPass;
    assert Getenv(again, "DEVICE_PATH") == cfg.devicePath;
  }

  /** The environment whose variables hold exactly the values of `cfg`. */
  function Spelled(cfg: AppConfig): Environment {
    Environment(
      map["SERVER_PORT" := cfg.serverPort, "SMTP_HOST" := cfg.smtpHost, "SMTP_USER" := cfg.smtpUser,
          "SMTP_PASS" := cfg.smtpPass, "DEVICE_PATH" := cfg.devicePath],
      Some(cfg.rateLimit), Some(cfg.burstLimit), Some(cfg.smtpPort), Some(cfg.maxQueueSize),
      Some(cfg.serialBaud))
  }

  // ---------------------------------------------------------------------------
  // Start-up: the queue and its senders

  /** The sender functions main registers: the serial-port sender and the Twilio one. */
  const HardwareSender := Sender(0)
  const TwilioSender := Sender(1)

  predicate TwilioConfigured(env: Environment) {
    Getenv(env, "TWILIO_SID") != [] && Getenv(env, "TWILIO_AUTH_TOKEN") != []
      && Getenv(env, "TWILIO_PHONE") != []
  }

  /** main tries to open the serial port only for the hardware provider and a
      non-empty API key. */
  predicate OpenAttempted(env: Environment) {
    NormalizeProvider(Getenv(env, "SMS_PROVIDER")) == Ascii("hardware") && Getenv(env, "API_KEY") != []
  }

  /** The port is open when it was tried and serial.OpenPort succeeded (`opens`). */
  predicate SerialOpened(env: Environment, opens: bool) {
    OpenAttempted(env) && opens
  }

  /** The queue's provider after start-up: "hardware", then "twilio" when all
      three Twilio settings are present. SMS_PROVIDER plays no part. */
  function QueueProvider(env: Environment): Bytes {
    if TwilioConfigured(env) then Ascii("twilio") else Ascii("hardware")
  }

  /** The modem sender main is meant to register: one exactly when the port is
      open (the `err == nil` branch of the open). */
  function HardwareSenderFor(env: Environment, opens: bool): Option<Sender> {
    if SerialOpened(env, opens) then Some(HardwareSender) else None
  }

  /** The sender closed over the nil *serial.Port that a failed serial.OpenPort
      returns. Wrapped in the io.ReadWriteCloser result of openSerialPort it is a
      non-nil interface value, and its first Write dereferences nil and panics. */
  const NilPortSender := Sender(2)

  /** The modem sender main registers as written: it tests the interface value
      `serialPort != nil`, which holds after every attempted open, failed or not. */
  function HardwareSenderAsWritten(env: Environment, opens: bool): (s: Option<Sender>)
    ensures s.Some? <==> OpenAttempted(env)
    ensures s == Some(NilPortSender) <==> OpenAttempted(env) && !opens
    ensures s != Some(NilPortSender) ==> s == HardwareSenderFor(env, opens)
  {
    if !OpenAttempted(env) then None
    else if opens then Some(HardwareSender)
    else Some(NilPortSender)
  }

  function TwilioSenderFor(env: Environment): Option<Sender> {
    if TwilioConfigured(env) then Some(TwilioSender) else None
  }

  /** Where every job goes once the server is up: to Twilio exactly when its three
      settings are present; else to the modem exactly when the port was opened;
      otherwise nowhere. */
  lemma {:induction false} RouteAfterStartup(env: Environment, opens: bool)
    ensures RouteFor(QueueProvider(env), TwilioSenderFor(env), HardwareSenderFor(env, opens)) == ViaTwilio
            <==> TwilioConfigured(env)
    ensures RouteFor(QueueProvider(env), TwilioSenderFor(env), HardwareSenderFor(env, opens)) == ViaHardware
            <==> !TwilioConfigured(env) && SerialOpened(env, opens)
  {
    assert Ascii("hardware") != Ascii("twilio") by {
      assert Ascii("hardware")[0] != Ascii("twilio")[0];
    }
  }

  /** As written, a failed open still routes every job to the modem, through the
      sender bound to the nil port, where the intended registration drops it. */
  lemma {:induction false} FailedOpenRoutesToNilPort(env: Environment)
    requires OpenAttempted(env) && !TwilioConfigured(env)
    ensures HardwareSenderAsWritten(env, false) == Some(NilPortSender)
    ensures RouteFor(QueueProvider(env), TwilioSenderFor(env), HardwareSenderAsWritten(env, false)) == ViaHardware
    ensures RouteFor(QueueProvider(env), TwilioSenderFor(env), HardwareSenderFor(env, false)) == NoSender
  {
    RouteAfterStartup(env, false);
  }

  /** The environment that shows it: only API_KEY set, so the provider is
      "hardware", Twilio is off, and the open of the empty DEVICE_PATH is tried. */
  lemma FailedOpenExample()
    ensures var env := Environment(map["API_KEY" := Ascii("k")], None, None, None, None, None);
            && RouteFor(QueueProvider(env), TwilioSenderFor(env), HardwareSenderAsWritten(env, false)) == ViaHardware
            && HardwareSenderAsWritten(env, false) == Some(NilPortSender)
            && RouteFor(QueueProvider(env), TwilioSenderFor(env), HardwareSenderFor(env, false)) == NoSender
  {
    var env := Environment(map["API_KEY" := Ascii("k")], None, None, None, None, None);
    DefaultsOfEmptyEnvironment();
    assert Getenv(env, "SMS_PROVIDER") == [];
    assert !TwilioConfigured(env) by { assert Getenv(env, "TWILIO_SID") == []; }
    FailedOpenRoutesToNilPort(env);
  }

  /** Choosing SMS_PROVIDER=twilio without the three Twilio settings leaves the
      queue on "hardware" with no port open: every job is dropped. */
  lemma {:induction false} TwilioChoiceWithoutSettingsDropsJobs(env: Environment, opens: bool)
    requires ToLower(Getenv(env, "SMS_PROVIDER")) == Ascii("twilio") && !TwilioConfigured(env)
    ensures RouteFor(QueueProvider(env), TwilioSenderFor(env), HardwareSenderFor(env, opens)) == NoSender
  {
    RouteAfterStartup(env, opens);
  }

  // ---------------------------------------------------------------------------
  // authenticate and the routes

  /** authenticate: the Authorization header, "" when absent, equals the key. */
  function Authenticate(r: Request, apiKey: Bytes): bool {
    HeaderValue(r, "Authorization") == apiKey
  }

  /** A sent header must equal the key exactly; a missing header passes exactly
      when the key is empty, so with API_KEY unset every request is let in. */
  lemma AuthenticateCases(r: Request, apiKey: Bytes)
    ensures "Authorization" in r.header ==> (Authenticate(r, apiKey) <==> r.header["Authorization"] == apiKey)
    ensures "Authorization" !in r.header ==> (Authenticate(r, apiKey) <==> apiKey == [])
  {
  }

  /** What a request to /send-sms produces once past the rate limiter: the reply
      and the job handed to the queue, if any. */
  datatype SmsOutcome = SmsOutcome(reply: Reply, queued: Option<Job>)

  /** The /send-sms handler. `queueReady` says whether smsQueue is set. */
  function HandleSendSms(queueReady: bool, r: Request, apiKey: Bytes): (o: SmsOutcome)
    ensures o.queued.Some? <==>
              && queueReady && Authenticate(r, apiKey) && r.verb == MethodPost
              && ValidatePhone(FormValue(r, "phone")) && !TrimsToEmpty(FormValue(r, "message"))
    ensures o.queued.Some? ==>
              o.queued.value == Job(FormValue(r, "phone"), FormValue(r, "message"))
              && o.reply == Sniffed(StatusAccepted, "SMS queued successfully\n")
    ensures o.queued.None? ==> o.reply.status != StatusAccepted
    ensures !queueReady ==> o.reply == Error("SMS service not initialized", StatusInternalServerError)
    ensures (queueReady && Authenticate(r, apiKey) && r.verb == MethodPost && ValidatePhone(FormValue(r, "phone"))
             && TrimsToEmpty(FormValue(r, "message"))) ==>
              o.reply == Error("Message cannot be empty", StatusBadRequest)
    ensures o.reply.status in {StatusInternalServerError, StatusUnauthorized, StatusMethodNotAllowed,
                               StatusBadRequest, StatusAccepted}
  {
    var phone, message := FormValue(r, "phone"), FormValue(r, "message");
    if !queueReady then
      SmsOutcome(Error("SMS service not initialized", StatusInternalServerError), None)
    else if !Authenticate(r, apiKey) then
      SmsOutcome(Error("Unauthorized", StatusUnauthorized), None)
    else if r.verb != MethodPost then
      SmsOutcome(Error("Method not allowed", StatusMethodNotAllowed), None)
    else if !ValidatePhone(phone) then
      SmsOutcome(Error("Invalid phone number format", StatusBadRequest), None)
    else if TrimsToEmpty(message) then
      SmsOutcome(Error("Message cannot be empty", StatusBadRequest), None)
    else
      SmsOutcome(Sniffed(StatusAccepted, "SMS queued successfully\n"), Some(Job(phone, message)))
  }

  /** The checks run in the order of the source: authentication comes before the
      method, and the method before the fields. */
  lemma SendSmsChecksInOrder(r: Request, apiKey: Bytes)
    ensures !Authenticate(r, apiKey) ==> HandleSendSms(true, r, apiKey).reply.status == StatusUnauthorized
    ensures Authenticate(r, apiKey) && r.verb != MethodPost ==>
              HandleSendSms(true, r, apiKey).reply.status == StatusMethodNotAllowed
    ensures Authenticate(r, apiKey) && r.verb == MethodPost && !ValidatePhone(FormValue(r, "phone")) ==>
              HandleSendSms(true, r, apiKey).reply == Error("Invalid phone number format", StatusBadRequest)
  {
  }

  /** /send-sms behind the limiter: a rejected request never reaches the handler. */
  function SendSmsRoute(host: Option<Bytes>, allowed: bool, queueReady: bool, r: Request, apiKey: Bytes)
    : (o: SmsOutcome)
    ensures o.queued.Some? ==> RateLimit.Decide(host, allowed) == RateLimit.CallNext
    ensures RateLimit.Decide(host, allowed).Reject? ==> o == SmsOutcome(RateLimit.Decide(host, allowed).reply, None)
  {
    match RateLimit.Decide(host, allowed)
    case Reject(reply) => SmsOutcome(reply, None)
    case CallNext => HandleSendSms(queueReady, r, apiKey)
  }

  /** /send-email behind the limiter: a rejected or unauthenticated request never
      reaches the mail handler, so no mail is attempted for it. */
  function SendEmailRoute(host: Option<Bytes>, allowed: bool, r: Request, apiKey: Bytes, failure: Option<Bytes>)
    : (o: MailHandler.Outcome)
    ensures o.sendAttempted <==>
              RateLimit.Decide(host, allowed) == RateLimit.CallNext && Authenticate(r, apiKey)
              && MailHandler.ReachesSend(r)
    ensures RateLimit.Decide(host, allowed) == RateLimit.CallNext && !Authenticate(r, apiKey) ==>
              o.reply == Error("Unauthorized", StatusUnauthorized)
  {
    match RateLimit.Decide(host, allowed)
    case Reject(reply) => MailHandler.Outcome(reply, false)
    case CallNext =>
      if !Authenticate(r, apiKey) then MailHandler.Outcome(Error("Unauthorized", StatusUnauthorized), false)
      else MailHandler.HandleSendEmail(r, failure)
  }

  // ---------------------------------------------------------------------------
  // The package variables

  class Globals {
    var apiKey: Bytes
    var smsQueue: SMSQueue?
    var smsProvider: Bytes

    /** Go's zero values: no key, no queue, no provider. */
    constructor ()
      ensures apiKey == [] && smsQueue == null && smsProvider == []
    {
      apiKey, smsQueue, smsProvider := [], null, [];
    }

    /** loadConfig: each setting read in turn, falling back to its default; the
        provider is left in smsProvider. */
    method LoadConfig(env: Environment) returns (cfg: AppConfig)
      modifies this`smsProvider
      ensures cfg == ConfigFrom(env)
      ensures smsProvider == NormalizeProvider(Getenv(env, "SMS_PROVIDER"))
    {
      var serverPort := Getenv(env, "SERVER_PORT");
      if serverPort == [] {
        serverPort := Ascii("5643");
      }
      assert serverPort == ConfigFrom(env).serverPort;
      smsProvider := ToLower(Getenv(env, "SMS_PROVIDER"));
      if smsProvider != Ascii("hardware") && smsProvider != Ascii("twilio") {
        smsProvider := Ascii("hardware");
      }
      var rateLimit := if env.rateLimit.Some? then env.rateLimit.value else 0.0;
      if env.rateLimit.None? || rateLimit <= 0.0 {
        rateLimit := 1.0;
      }
      var burstLimit := if env.burstLimit.Some? then env.burstLimit.value else 0;
      if env.burstLimit.None? || burstLimit <= 0 {
        burstLimit := 5;
      }
      var smtpPort := if env.smtpPort.Some? then env.smtpPort.value else 0;
      if env.smtpPort.None? || smtpPort <= 0 {
        smtpPort := 587;
      }
      var maxQueueSize := if env.maxQueueSize.Some? then env.maxQueueSize.value else 0;
      if env.maxQueueSize.None? || maxQueueSize <= 0 {
        maxQueueSize := 100;
      }
      var serialBaud := 115200;
      if env.serialBaud.Some? && env.serialBaud.value > 0 {
        serialBaud := env.serialBaud.value;
      }
      cfg := AppConfig(serverPort, rateLimit, burstLimit, Getenv(env, "SMTP_HOST"), smtpPort,
                       Getenv(env, "SMTP_USER"), Getenv(env, "SMTP_PASS"), Getenv(env, "DEVICE_PATH"),
                       maxQueueSize, serialBaud);
    }

    /** The start-up part of main: load the configuration and the API key, open
        the serial port when the hardware provider has a key (`opens` is whether
        that succeeds), then create and start the queue, register the modem
        sender if the port is open and switch to Twilio when it is configured. */
    method Startup(env: Environment, opens: bool) returns (cfg: AppConfig)
      modifies this
      ensures cfg == ConfigFrom(env)
      ensures smsProvider == NormalizeProvider(Getenv(env, "SMS_PROVIDER"))
      ensures apiKey == Getenv(env, "API_KEY")
      ensures smsQueue != null && fresh(smsQueue) && smsQueue.Valid()
      ensures smsQueue.buffer == [] && smsQueue.dispatched == [] && smsQueue.state == Running
      ensures smsQueue.capacity == cfg.maxQueueSize
      ensures smsQueue.provider == QueueProvider(env)
      ensures smsQueue.hardwareSend == HardwareSenderFor(env, opens)
      ensures smsQueue.twilioSend == TwilioSenderFor(env)
    {
      cfg := LoadConfig(env);
      apiKey := Getenv(env, "API_KEY");
      var portOpen := false;
      if smsProvider == Ascii("hardware") {
        if apiKey != [] {
          portOpen := opens;
        }
      }
      var q := new SMSQueue(cfg.maxQueueSize);
      q.SetProvider(Ascii("hardware"));
      q.Start();
      if portOpen {
        q.SetHardwareSender(Some(HardwareSender));
      }
      if TwilioConfigured(env) {
        q.SetProvider(Ascii("twilio"));
        q.SetTwilioSender(Some(TwilioSender));
      }
      smsQueue := q;
    }

    /** One request to /send-sms: the limiter, then the handler, which hands the
        job to the queue. Send blocks on a full buffer, so the step is taken only
        while a job that gets through finds room. */
    method ServeSendSms(rl: RateLimit.RateLimiter, host: Option<Bytes>, allowed: bool, r: Request)
      returns (reply: Reply)
      requires smsQueue != null ==> smsQueue.Valid()
      requires smsQueue != null && SendSmsRoute(host, allowed, true, r, apiKey).queued.Some? ==>
                 |smsQueue.buffer| < smsQueue.capacity
      modifies rl`visitors, smsQueue
      ensures reply == SendSmsRoute(host, allowed, smsQueue != null, r, apiKey).reply
      ensures RateLimit.Admitted(old(rl.visitors), rl.visitors, host, rl.r, rl.burst)
      ensures host.Some? && host.value !in old(rl.visitors) ==> fresh(rl.visitors[host.value])
      ensures smsQueue != null ==> smsQueue.Valid()
      ensures smsQueue != null ==>
                unchanged(smsQueue`provider, smsQueue`hardwareSend, smsQueue`twilioSend, smsQueue`state,
                          smsQueue`dispatched)
      ensures smsQueue != null ==>
                smsQueue.buffer == old(smsQueue.buffer)
                  + (match SendSmsRoute(host, allowed, true, r, apiKey).queued
                     case Some(job) => [job]
                     case None => [])
    {
      var v := rl.LimitMiddleware(host, allowed);
      if v.Reject? {
        return v.reply;
      }
      var o := HandleSendSms(smsQueue != null, r, apiKey);
      if o.queued.Some? {
        smsQueue.Send(o.queued.value);
      }
      reply := o.reply;
    }
  }
}
