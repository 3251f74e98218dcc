/** Runs of the program on configuration files of given shapes: valid with
    or without credentials, an empty host, a non-positive port, a missing file. */
module Scenarios {
  import opened Wrappers
  import opened Validation
  import opened Configuration
  import opened Transport
  import opened ConfigLoader
  import opened Cli

  /** A `send` command line without a path argument, on a file system
      holding only the default configuration file. */
  predicate SendWithDefaultFile(argv: seq<string>, programDir: string, fs: FileSystem, rec: Record)
  {
    && Arg(argv, 2) == Some("send") && Arg(argv, 7).None?
    && fs.files == map[DefaultConfigPath(programDir) := Parsed(rec)]
  }

  /** Both credentials non-empty: the authenticated options, carrying them. */
  lemma AuthenticatedSend(argv: seq<string>, programDir: string, fs: FileSystem, isUrl: string -> bool,
                          host: string, port: nat, user: string, pass: string)
    requires SendWithDefaultFile(argv, programDir, fs, Record(Str(host), Num(port as real), Str(user), Str(pass)))
    requires host != "" && isUrl(host) && port > 0 && user != "" && pass != ""
    ensures Boostrap(argv, programDir, fs, isUrl)
         == Sent(TransportOptions(host, port, true, false, Some(Credentials(user, pass))),
                 Mail(Arg(argv, 3), Arg(argv, 4), Arg(argv, 5), Arg(argv, 6)))
  {
    var rec := Record(Str(host), Num(port as real), Str(user), Str(pass));
    assert ValidateConfig(rec, isUrl) == [];
    assert ToConfig(rec, isUrl) == Config(host, port, Some(user), Some(pass));
  }

  /** A missing or empty user: the same options without credentials. */
  lemma AnonymousSend(argv: seq<string>, programDir: string, fs: FileSystem, isUrl: string -> bool,
                      host: string, port: nat, user: Value, pass: Value)
    requires SendWithDefaultFile(argv, programDir, fs, Record(Str(host), Num(port as real), user, pass))
    requires host != "" && isUrl(host) && port > 0
    requires user == Absent || user == Str("")
    requires CredentialAcceptable(pass)
    ensures Boostrap(argv, programDir, fs, isUrl)
         == Sent(TransportOptions(host, port, true, false, None),
                 Mail(Arg(argv, 3), Arg(argv, 4), Arg(argv, 5), Arg(argv, 6)))
  {
    var rec := Record(Str(host), Num(port as real), user, pass);
    assert ValidateConfig(rec, isUrl) == [];
    assert !HasAuth(ToConfig(rec, isUrl));
  }

  /** An empty host is reported and nothing else is. */
  lemma EmptyHostRejected(rec: Record, isUrl: string -> bool)
    requires rec.smtpHost == Str("")
    requires PortAcceptable(rec.smtpPort)
    requires CredentialAcceptable(rec.smtpUser) && CredentialAcceptable(rec.smtpPass)
    ensures Fields(ValidateConfig(rec, isUrl)) == {SmtpHost}
  {
    var vs := ValidateConfig(rec, isUrl);
    forall f ensures f in Fields(vs) <==> f == SmtpHost {
      match f
      case SmtpHost =>
      case SmtpPort =>
      case SmtpUser =>
      case SmtpPass =>
    }
  }

  /** An integer port that is zero or negative fails the positivity rule
      and no other rule. */
  lemma NonPositivePortRejected(rec: Record, isUrl: string -> bool)
    requires HostAcceptable(rec.smtpHost, isUrl)
    requires rec.smtpPort.Num? && IsInteger(rec.smtpPort.x) && rec.smtpPort.x <= 0.0
    requires CredentialAcceptable(rec.smtpUser) && CredentialAcceptable(rec.smtpPass)
    ensures ValidateConfig(rec, isUrl) == [Violation(SmtpPort, [IsPositive])]
  {
    NonPositiveFailsPositivityOnly(rec.smtpPort, isUrl);
    assert ConfigRules[1].constraints == [IsNotEmpty, IsInt, IsPositive];
    assert CheckField(ConfigRules[1], rec, isUrl) == Some(Violation(SmtpPort, [IsPositive]));
    OnlyPortReported(rec, isUrl, Violation(SmtpPort, [IsPositive]));
  }

  /** Of the port's constraints, an integer of 0 or less fails positivity alone. */
  lemma NonPositiveFailsPositivityOnly(v: Value, isUrl: string -> bool)
    requires v.Num? && IsInteger(v.x) && v.x <= 0.0
    ensures Failed([IsNotEmpty, IsInt, IsPositive], v, isUrl) == [IsPositive]
  {
    assert Failed([IsPositive], v, isUrl) == [IsPositive];
    assert Failed([IsInt, IsPositive], v, isUrl) == [IsPositive];
  }

  /** With host and credentials acceptable, the port's violation is the whole list. */
  lemma OnlyPortReported(rec: Record, isUrl: string -> bool, x: Violation)
    requires HostAcceptable(rec.smtpHost, isUrl)
    requires CredentialAcceptable(rec.smtpUser) && CredentialAcceptable(rec.smtpPass)
    requires CheckField(ConfigRules[1], rec, isUrl) == Some(x)
    ensures Validate(ConfigRules, rec, isUrl) == [x]
  {
    HostRuleMeaning(rec, isUrl);
    CredentialRulesMeaning(rec, isUrl);
    assert CheckField(ConfigRules[0], rec, isUrl) == None;
    assert CheckField(ConfigRules[2], rec, isUrl) == None;
    assert CheckField(ConfigRules[3], rec, isUrl) == None;
    assert Validate(ConfigRules[3..], rec, isUrl) == [] by {
      assert ConfigRules[3..][1..] == [];
    }
    assert Validate(ConfigRules[2..], rec, isUrl) == [] by {
      assert ConfigRules[2..][1..] == ConfigRules[3..];
    }
    assert Validate(ConfigRules[1..], rec, isUrl) == [x] by {
      assert ConfigRules[1..][1..] == ConfigRules[2..];
    }
  }

  /** A path argument naming no file ends the run with status 1, whatever
      the default file holds. */
  lemma MissingFile(argv: seq<string>, programDir: string, fs: FileSystem, isUrl: string -> bool)
    requires Arg(argv, 2) == Some("send") && Arg(argv, 7).Some? && argv[7] !in fs.files
    ensures Boostrap(argv, programDir, fs, isUrl) == Exited(1)
    ensures ExitStatus(Boostrap(argv, programDir, fs, isUrl)) == Some(1)
  {
  }
}
