/**
 The validated configuration and its derived `hasAuth` property. A `Config`
 is built once from a document that passed validation and is never changed.
 */
module Configuration {
  import opened Wrappers
  import opened Validation

  datatype Config = Config(smtpHost: string, smtpPort: int, smtpUser: Option<string>, smtpPass: Option<string>)

  /** JavaScript truthiness of an optional string: present and not "". */
  predicate Truthy(o: Option<string>)
  {
    o.Some? && o.value != ""
  }

  /** The `hasAuth` getter: both credentials must be truthy, then both
      lengths are checked once more. The length check never changes the
      answer; credentials that are missing or empty silently give an
      anonymous configuration instead of an error. */
  function HasAuth(cfg: Config): (r: bool)
    ensures r <==> Truthy(cfg.smtpUser) && Truthy(cfg.smtpPass)
    ensures r <==> && cfg.smtpUser.Some? && |cfg.smtpUser.value| > 0
                   && cfg.smtpPass.Some? && |cfg.smtpPass.value| > 0
  {
    if Truthy(cfg.smtpUser) && Truthy(cfg.smtpPass) then
      |cfg.smtpUser.value| > 0 && |cfg.smtpPass.value| > 0
    else
      false
  }

  /** What validation guarantees of a configuration. */
  predicate Valid(cfg: Config, isUrl: string -> bool)
  {
    cfg.smtpHost != "" && isUrl(cfg.smtpHost) && cfg.smtpPort > 0
  }

  function OptionalString(v: Value): Option<string>
    requires CredentialAcceptable(v)
  {
    if v.Str? then Some(v.s) else None
  }

  function StringValue(o: Option<string>): Value
  {
    if o.Some? then Str(o.value) else Absent
  }

  /** Turns a document that passed validation into a `Config`: every field
      takes the document's value, and the document can be rebuilt from it. */
  function ToConfig(rec: Record, isUrl: string -> bool): (cfg: Config)
    requires ValidateConfig(rec, isUrl) == []
    ensures Valid(cfg, isUrl)
    ensures ToRecord(cfg) == rec
  {
    Config(rec.smtpHost.s, rec.smtpPort.x.Floor, OptionalString(rec.smtpUser), OptionalString(rec.smtpPass))
  }

  /** The configuration document a `Config` is read from. */
  function ToRecord(cfg: Config): Record
  {
    Record(Str(cfg.smtpHost), Num(cfg.smtpPort as real), StringValue(cfg.smtpUser), StringValue(cfg.smtpPass))
  }

  /** Every valid configuration is written by a document that passes
      validation and reads back as the same configuration. */
  lemma ConfigRoundTrip(cfg: Config, isUrl: string -> bool)
    requires Valid(cfg, isUrl)
    ensures ValidateConfig(ToRecord(cfg), isUrl) == []
    ensures ToConfig(ToRecord(cfg), isUrl) == cfg
  {
  }
}
