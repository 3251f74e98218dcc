/**
 The choice of SMTP transport options made by `createTransport`. The
 transport object of the mail library is not modelled; only the options
 it is created with are.
 */
module Transport {
  import opened Wrappers
  import opened Configuration

  datatype Credentials = Credentials(user: string, pass: string)

  /** The option object passed to the mail library. `rejectUnauthorized`
      is the `tls` sub-option; `auth` is missing for an anonymous relay. */
  datatype TransportOptions = TransportOptions(
    host: string,
    port: int,
    secure: bool,
    rejectUnauthorized: bool,
    auth: Option<Credentials>)

  /** Both branches take host and port from the configuration, ask for TLS
      and accept any server certificate; they differ only in the
      credentials, which are attached exactly when `hasAuth` holds. */
  function CreateTransport(cfg: Config): (opts: TransportOptions)
    ensures opts.host == cfg.smtpHost && opts.port == cfg.smtpPort
    ensures opts.secure && !opts.rejectUnauthorized
    ensures opts.auth.Some? <==> HasAuth(cfg)
    ensures opts.auth.Some? ==>
              && cfg.smtpUser == Some(opts.auth.value.user) && opts.auth.value.user != ""
              && cfg.smtpPass == Some(opts.auth.value.pass) && opts.auth.value.pass != ""
  {
    if HasAuth(cfg) then
      TransportOptions(cfg.smtpHost, cfg.smtpPort, true, false,
                       Some(Credentials(cfg.smtpUser.value, cfg.smtpPass.value)))
    else
      TransportOptions(cfg.smtpHost, cfg.smtpPort, true, false, None)
  }
}
