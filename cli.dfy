/**
 The command-line entry point: `help` prints the usage line, `send` loads
 the configuration, builds the transport options and sends one message,
 and any other command does nothing. The arguments are `process.argv`,
 whose first two entries are the runtime and the script.
 */
module Cli {
  import opened Wrappers
  import opened Transport
  import opened ConfigLoader

  const UsageText: string :=
    "cara menggunakan: node main.js send {from} {to} {subject} {text} {(optional config path)./config.json}"

  /** `process.argv[i]`, which is undefined past the end. */
  function Arg(argv: seq<string>, i: nat): Option<string>
  {
    if i < |argv| then Some(argv[i]) else None
  }

  datatype Command = Help | Send | Unrecognized

  function Dispatch(command: Option<string>): (r: Command)
    ensures r == Help <==> command == Some("help")
    ensures r == Send <==> command == Some("send")
    ensures r == Unrecognized <==> command != Some("help") && command != Some("send")
  {
    match command
    case Some("help") => Help
    case Some("send") => Send
    case _ => Unrecognized
  }

  /** The message handed to the transport; any part may be undefined. */
  datatype Mail = Mail(from: Option<string>, to: Option<string>, subject: Option<string>, text: Option<string>)

  /** How a run ends. `Exited` is an explicit `exit`; `Crashed` is an
      exception nobody catches; `Sent` means the transport was built with
      `options` and asked to send `mail`. */
  datatype Outcome =
    | PrintedUsage(text: string)
    | Idle
    | Exited(status: int)
    | Crashed
    | Sent(options: TransportOptions, mail: Mail)

  /** The send flow: a missing file exits with 1 and an invalid one with 2,
      so a transport is only ever built from a configuration that passed
      validation, and it is built from exactly that configuration. */
  function SendMail(argv: seq<string>, programDir: string, fs: FileSystem, isUrl: string -> bool): (o: Outcome)
    ensures o.Exited? || o.Crashed? || o.Sent?
    ensures var r := ReadConfigFile(Arg(argv, 7), programDir, fs, isUrl);
      && (o == Exited(1) <==> r.NotFound?)
      && (o == Exited(2) <==> r.Invalid?)
      && (o == Crashed <==> r.ParseError?)
      && (o.Sent? <==> r.Loaded?)
      && (o.Sent? ==> o.options == CreateTransport(r.config))
    ensures o.Sent? ==> o.mail == Mail(Arg(argv, 3), Arg(argv, 4), Arg(argv, 5), Arg(argv, 6))
    ensures o.Sent? ==> o.options.host != "" && isUrl(o.options.host) && o.options.port > 0
  {
    var mail := Mail(Arg(argv, 3), Arg(argv, 4), Arg(argv, 5), Arg(argv, 6));
    match ReadConfigFile(Arg(argv, 7), programDir, fs, isUrl)
    case NotFound(_) => Exited(1)
    case ParseError => Crashed
    case Invalid(_) => Exited(2)
    case Loaded(cfg) => Sent(CreateTransport(cfg), mail)
  }

  /** `boostrap`: the third argument selects the command. */
  function Boostrap(argv: seq<string>, programDir: string, fs: FileSystem, isUrl: string -> bool): (o: Outcome)
    ensures o.PrintedUsage? <==> Arg(argv, 2) == Some("help")
    ensures o.PrintedUsage? ==> o.text == UsageText
    ensures o.Idle? <==> Arg(argv, 2) != Some("help") && Arg(argv, 2) != Some("send")
    ensures Arg(argv, 2) == Some("send") ==> o == SendMail(argv, programDir, fs, isUrl)
  {
    match Dispatch(Arg(argv, 2))
    case Help => PrintedUsage(UsageText)
    case Send => SendMail(argv, programDir, fs, isUrl)
    case Unrecognized => Idle
  }

  /** The exit status the program itself decides; after a send, or after an
      uncaught exception, the status is up to the runtime. */
  function ExitStatus(o: Outcome): Option<int>
  {
    match o
    case PrintedUsage(_) => Some(0)
    case Idle => Some(0)
    case Exited(status) => Some(status)
    case Crashed => None
    case Sent(_, _) => None
  }

  /** Status 1 means the configuration file was missing and status 2 that
      it failed validation; every other command ends with status 0. */
  lemma ExitStatuses(argv: seq<string>, programDir: string, fs: FileSystem, isUrl: string -> bool)
    ensures var status := ExitStatus(Boostrap(argv, programDir, fs, isUrl));
      var r := ReadConfigFile(Arg(argv, 7), programDir, fs, isUrl);
      && (status == Some(0) <==> Arg(argv, 2) != Some("send"))
      && (status == Some(1) <==> Arg(argv, 2) == Some("send") && r.NotFound?)
      && (status == Some(2) <==> Arg(argv, 2) == Some("send") && r.Invalid?)
      && (status.None? <==> Arg(argv, 2) == Some("send") && (r.ParseError? || r.Loaded?))
  {
  }
}
