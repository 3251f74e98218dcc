# SMTP send utility: configuration and transport model

A Dafny model of the decision core of a small command-line mailer
(`main.ts`). The program reads SMTP settings from a JSON configuration file,
validates them against the decorators of its `Config` class, builds the
option object for the mail library's transport (always TLS, server
certificate not checked, credentials only when both are usable) and sends
one message. The model covers:

- `validation.dfy` (`Validation`): the parsed document as four property
  values, the decorator rules as a rule table, and the validator that
  collects one violation per failing property with the constraints it fails.
  The URL grammar of `@IsUrl` is a parameter `isUrl` about which nothing is
  assumed.
- `configuration.dfy` (`Configuration`): the validated `Config` record, the
  `hasAuth` getter, and the conversion between a valid document and a
  `Config` in both directions.
- `transport.dfy` (`Transport`): `createTransport` as a function returning
  the transport options.
- `loader.dfy` (`ConfigLoader`): the choice of configuration path, the
  existence check and `readConfigFile`, returning a tagged result instead of
  ending the process. The file system is a map from paths to documents; a
  document `Parsed(record)` holds what `JSON.parse` gives after
  class-transformer's implicit conversion of the values, which is what the
  validator sees.
- `cli.dfy` (`Cli`): the `boostrap` command switch and the send flow, as
  functions returning how the run ends, and the exit status the program
  chooses.
- `scenarios.dfy` (`Scenarios`): runs of the program on configuration files
  of given shapes (valid with or without credentials, empty host,
  non-positive port, missing file).
- `wrappers.dfy` (`Wrappers`): the `Option` type.

## Model

| member | source | states |
|---|---|---|
| `Validation.Failed` | main.ts:10-25 | the reported constraints are exactly those of the property that its value fails, and no more than were declared |
| `Validation.DecoratorSemantics` | main.ts:10-25 | the meaning of each decorator: `@IsNotEmpty` rejects only a missing or null value and the empty string (so `0` and non-strings pass); `@IsUrl` implies `@IsString`; `@IsInt` and `@IsPositive` reject every string; together they accept exactly the positive integers |
| `Validation.CheckField` | main.ts:19-25 | a reported violation names the rule's own property and at least one failed constraint |
| `Validation.CheckFieldMeaning` | main.ts:19-25 | an `@IsOptional` property that is absent is not checked; otherwise the property is reported exactly when some constraint fails, with exactly the failing constraints |
| `Validation.FailingRules` | main.ts:107 | the positions of the failing rules: each names a failing rule, they strictly increase, and every failing rule is among them |
| `Validation.Validate` | main.ts:107 | the violations are those of the failing rules, one entry per failing rule, in the order of the rule table |
| `Validation.ValidateComplete` | main.ts:107 | every failing rule's violation is in the list |
| `Validation.ReportedIffRuleFails` | main.ts:107 | a property with a single rule in the table is reported exactly when that rule fails |
| `Validation.HostReported` | main.ts:10-12 | `smtpHost` is reported exactly when it is absent or null, not a string, empty, or rejected by the URL check |
| `Validation.PortReported` | main.ts:14-17 | `smtpPort` is reported exactly when it is absent or null, not a number, not an integer, or not greater than 0 |
| `Validation.CredentialsReported` | main.ts:19-25 | `smtpUser` and `smtpPass` are reported exactly when present and not strings |
| `Validation.CredentialReported` | main.ts:19-25 | a credential property is reported exactly when its own rule fails |
| `Validation.HostRuleMeaning` | main.ts:10-12 | the host rule passes exactly when the host is a non-empty string accepted by the URL check |
| `Validation.PortRuleMeaning` | main.ts:14-17 | the port rule passes exactly when the port is a positive integer number |
| `Validation.CredentialRulesMeaning` | main.ts:19-25 | each credential rule passes exactly when the credential is absent or a string |
| `Validation.ValidateConfig` | main.ts:9-25 | the four per-property conditions above, an empty violation list exactly when all four properties are acceptable, and the properties reported at most once each, in declaration order |
| `Validation.ConfigViolationsOrdered` | main.ts:9-25 | for a rule table whose rules sit at their properties' places in the `Config` declaration, the reported properties strictly follow that order, so none is reported twice |
| `Configuration.HasAuth` | main.ts:27-33 | true exactly when both credentials are present and non-empty; the length test behind the truthiness test never changes the answer |
| `Configuration.ToConfig` | main.ts:106-113 | a document with no violations gives a configuration with a non-empty host that passes the URL check and a positive port, holding exactly the document's values |
| `Configuration.ConfigRoundTrip` | main.ts:106-113 | every valid configuration is written by a document that passes validation and reads back as itself |
| `Transport.CreateTransport` | main.ts:36-60 | host and port are copied, TLS is requested and certificates are not checked in both branches; credentials are attached exactly when `hasAuth` holds, and then equal the configured user and password |
| `ConfigLoader.DefaultConfigPath` | main.ts:100 | the default path is the program directory followed by exactly `/config.json`, or by `config.json` when the directory already ends in a slash |
| `ConfigLoader.EffectivePath` | main.ts:100 | a given path is used as it is, even when empty; without one the path is the program directory followed by exactly `/config.json`, or by `config.json` when the directory already ends in a slash |
| `ConfigLoader.ExplicitPathPrecedence` | main.ts:100 | a given path alone decides the outcome; without one, loading is loading the default path |
| `ConfigLoader.CheckConfigFileExists` | main.ts:126-136 | the check passes exactly when the file exists, and only its first error can be raised |
| `ConfigLoader.ReadConfigFile` | main.ts:99-114 | a missing file is reported before reading, an unparsable file is a parse error, a document with violations is reported with exactly its violations, and otherwise the loaded configuration is valid and holds the document's values |
| `Cli.SendMail` | main.ts:76-97 | a missing file exits with 1, an invalid one with 2; the transport is built only from a configuration that passed validation (positive port, non-empty host), from exactly that configuration, with the message taken from the arguments |
| `Cli.Dispatch` | main.ts:65-73 | the command is `help` exactly for the argument `help`, `send` exactly for `send`, and unrecognised for every other or missing argument |
| `Cli.Boostrap` | main.ts:62-74 | `help` prints the usage line, `send` runs the send flow, any other or missing command does nothing |
| `Cli.ExitStatuses` | main.ts:103-111 | the program itself exits with 1 exactly for a missing file and with 2 exactly for an invalid document, and chooses 0 for every command other than `send` |
| `Scenarios.AuthenticatedSend` | main.ts:37-49 | a `send` run on a valid file with two non-empty credentials (such as host `smtp.example.com`, port 465, `a`/`b`) sends with exactly those host, port and credentials, TLS on and certificates unchecked |
| `Scenarios.AnonymousSend` | main.ts:50-58 | a `send` run on a valid file whose user is missing or empty sends with the same options and no credentials |
| `Scenarios.EmptyHostRejected` | main.ts:10-12 | an empty host is reported and nothing else is |
| `Scenarios.NonPositivePortRejected` | main.ts:14-17 | an integer port of 0 or less fails the positivity rule only |
| `Scenarios.NonPositiveFailsPositivityOnly` | main.ts:14-17 | an integer of 0 or less passes `@IsNotEmpty` and `@IsInt` and fails `@IsPositive` alone |
| `Scenarios.OnlyPortReported` | main.ts:107 | with host and credentials acceptable, the port's violation is the whole list |
| `Scenarios.MissingFile` | main.ts:126-136 | a path argument naming no file ends the run with status 1, whatever the default file holds |

## Left out

- The mail library's transport object and the network send (`sendMail` on the transport): the model stops at the options and the message handed to it, and the exit status after a send is left to the runtime.
- File reading and `JSON.parse`: a file's content is given as a document (`Parsed` or `Malformed`). A parse or read failure is an uncaught exception, modelled as the outcome `Crashed` with no program-chosen status.
- The implicit conversion of class-transformer (`enableImplicitConversion`): `Parsed(record)` holds the document after conversion, so the conversion itself (a numeric string becoming a number for the port) is not modelled; `JSON.parse` already turns `1e999` into +Infinity (`PosInfinity`), which the conversion keeps; the validator and everything after it see the converted values.
- Numbers are exact `real`s, so floating-point rounding is not modelled; NaN and -Infinity are lumped into `Other` (they fail every number constraint); +Infinity is `PosInfinity`, which passes `@IsNotEmpty` and `@IsPositive` and fails only `@IsInt`.
- The grammar of the URL check: `isUrl` is a parameter.
- A top-level JSON value that is not an object, and properties other than the four declared ones, are not modelled.
- The order of constraints inside one violation is the declaration order; the validation library's own ordering is not modelled.
- Path normalisation by `path.resolve` (`..`, `.`, repeated slashes) is not modelled; the default path is the directory joined with `config.json`.
- Console output and the `enter()` helper: output only.
- The unawaited promise of the send flow in `boostrap`: the send flow is treated as running to its end.
- A file system that changes between the two existence checks is not modelled; both checks see the same file system.
