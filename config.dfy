/** config.AppConfig: the settings read at start-up. The Go struct has no SerialBaud
    field although main.go sets and reads one; the model's record has it. */
module Config {
  import opened GoStrings

  datatype AppConfig = AppConfig(
    serverPort: Bytes,
    rateLimit: real,      // requests per second
    burstLimit: int,      // burst requests allowed
    smtpHost: Bytes,
    smtpPort: int,
    smtpUser: Bytes,
    smtpPass: Bytes,
    devicePath: Bytes,    // path to the serial device
    maxQueueSize: int,    // capacity of the SMS queue
    serialBaud: int)
}
