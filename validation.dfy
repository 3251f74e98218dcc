/**
 The schema of the configuration file and the validator that checks a parsed
 document against it. The rules are the class-validator decorators on the
 `Config` class of main.ts, written out as a rule table that a generic
 validator walks: one entry per decorated property, in declaration order.
 The URL grammar of `@IsUrl` belongs to the validation library; it is a
 parameter `isUrl` here and nothing is assumed about it.
 */
module Validation {
  import opened Wrappers

  /** A property value of the document, as the validator sees it after
      implicit conversion. `Absent` stands for both a missing property and
      `null`; `PosInfinity` is the number `JSON.parse` makes of a too-large
      literal such as `1e999`; `Other` stands for booleans, arrays, objects, NaN and
      negative infinity, which pass and fail the same decorators. */
  datatype Value = Absent | Str(s: string) | Num(x: real) | PosInfinity | Other

  /** The four properties the configuration file may set. */
  datatype Record = Record(smtpHost: Value, smtpPort: Value, smtpUser: Value, smtpPass: Value)

  datatype Field = SmtpHost | SmtpPort | SmtpUser | SmtpPass

  function Get(rec: Record, f: Field): Value
  {
    match f
    case SmtpHost => rec.smtpHost
    case SmtpPort => rec.smtpPort
    case SmtpUser => rec.smtpUser
    case SmtpPass => rec.smtpPass
  }

  /** The constraint decorators used on the configuration class. */
  datatype Constraint = IsNotEmpty | IsUrl | IsInt | IsPositive | IsString

  /** A property's rules: whether it carries `@IsOptional`, and its other constraints. */
  datatype FieldRule = FieldRule(field: Field, optional: bool, constraints: seq<Constraint>)

  /** One entry of the validator's error list: the property and the constraints it fails. */
  datatype Violation = Violation(field: Field, failed: seq<Constraint>)

  predicate IsInteger(x: real)
  {
    x.Floor as real == x
  }

  /** Whether value `v` satisfies constraint `c`, as the validation library
      decides it. `@IsNotEmpty` rejects only missing, null and empty-string
      values, so it accepts 0, NaN and false; the number checks reject
      strings, even numeric ones. */
  predicate Holds(c: Constraint, v: Value, isUrl: string -> bool)
  {
    match c
    case IsNotEmpty => !v.Absent? && v != Str("")
    case IsUrl => v.Str? && isUrl(v.s)
    case IsInt => v.Num? && IsInteger(v.x)
    case IsPositive => (v.Num? && v.x > 0.0) || v.PosInfinity?
    case IsString => v.Str?
  }

  /** How the decorators relate: `@IsNotEmpty` accepts every number, NaN
      and `false`; a URL is a string; the number checks reject every string;
      and a port passes both number checks exactly when it is a positive
      integer. */
  lemma DecoratorSemantics(v: Value, isUrl: string -> bool)
    ensures Holds(IsNotEmpty, Num(0.0), isUrl) && Holds(IsNotEmpty, Other, isUrl)
    ensures Holds(IsNotEmpty, v, isUrl) <==> !v.Absent? && v != Str("")
    ensures Holds(IsUrl, v, isUrl) ==> Holds(IsString, v, isUrl)
    ensures Holds(IsInt, v, isUrl) || Holds(IsPositive, v, isUrl) ==> !v.Str? && Holds(IsNotEmpty, v, isUrl)
    ensures Holds(IsInt, v, isUrl) && Holds(IsPositive, v, isUrl) <==> v.Num? && IsInteger(v.x) && v.x > 0.0
  {
  }

  /** The constraints of `cs` that `v` fails, in their declared order. */
  function Failed(cs: seq<Constraint>, v: Value, isUrl: string -> bool): (r: seq<Constraint>)
    ensures forall c :: c in r <==> c in cs && !Holds(c, v, isUrl)
    ensures |r| <= |cs|
  {
    if cs == [] then []
    else (if Holds(cs[0], v, isUrl) then [] else [cs[0]]) + Failed(cs[1..], v, isUrl)
  }

  /** Checks one property: an optional property that is absent is skipped,
      otherwise every failing constraint is reported in one violation. */
  function CheckField(rule: FieldRule, rec: Record, isUrl: string -> bool): (r: Option<Violation>)
    ensures r.Some? ==> r.value.field == rule.field && r.value.failed != []
  {
    var v := Get(rec, rule.field);
    if rule.optional && v.Absent? then None
    else
      var failed := Failed(rule.constraints, v, isUrl);
      if failed == [] then None
      else assert failed[0] in failed; Some(Violation(rule.field, failed))
  }

  /** What checking one property decides: an absent optional property
      passes; otherwise the property passes exactly when all its constraints
      hold, and a violation lists exactly the constraints that fail. */
  lemma CheckFieldMeaning(rule: FieldRule, rec: Record, isUrl: string -> bool)
    ensures var r := CheckField(rule, rec, isUrl);
      && (r.Some? ==> forall c :: c in r.value.failed <==> c in rule.constraints && !Holds(c, Get(rec, rule.field), isUrl))
      && (r.None? <==>
            (rule.optional && Get(rec, rule.field).Absent?)
            || (forall c :: c in rule.constraints ==> Holds(c, Get(rec, rule.field), isUrl)))
  {
    var v := Get(rec, rule.field);
    if !(rule.optional && v.Absent?) {
      var failed := Failed(rule.constraints, v, isUrl);
      if failed != [] {
        assert failed[0] in failed;
      }
    }
  }

  function Shift(ix: seq<nat>): (r: seq<nat>)
    ensures |r| == |ix| && forall k :: 0 <= k < |ix| ==> r[k] == ix[k] + 1
  {
    seq(|ix|, k requires 0 <= k < |ix| => ix[k] + 1)
  }

  /** `ix` lists, in increasing order, exactly the positions of the rules that fail. */
  predicate FailingPositions(ix: seq<nat>, rules: seq<FieldRule>, rec: Record, isUrl: string -> bool)
  {
    && (forall k :: 0 <= k < |ix| ==> ix[k] < |rules| && CheckField(rules[ix[k]], rec, isUrl).Some?)
    && (forall i, j :: 0 <= i < j < |ix| ==> ix[i] < ix[j])
    && (forall a :: 0 <= a < |rules| && CheckField(rules[a], rec, isUrl).Some? ==> a in ix)
  }

  /** The positions of the rules that fail, in increasing order. */
  function FailingRules(rules: seq<FieldRule>, rec: Record, isUrl: string -> bool): (ix: seq<nat>)
    ensures |ix| <= |rules|
    ensures FailingPositions(ix, rules, rec, isUrl)
  {
    if rules == [] then []
    else
      var rest := FailingRules(rules[1..], rec, isUrl);
      ConsFailingPositions(rules, rec, isUrl, rest);
      (if CheckField(rules[0], rec, isUrl).Some? then [0] else []) + Shift(rest)
  }

  /** The failing positions among the rules after the first, shifted by
      one and preceded by 0 when the first rule fails, are the failing
      positions of the whole table. */
  lemma ConsFailingPositions(rules: seq<FieldRule>, rec: Record, isUrl: string -> bool, rest: seq<nat>)
    requires |rules| > 0
    requires |rest| <= |rules| - 1
    requires FailingPositions(rest, rules[1..], rec, isUrl)
    ensures var ix := (if CheckField(rules[0], rec, isUrl).Some? then [0] else []) + Shift(rest);
      |ix| <= |rules| && FailingPositions(ix, rules, rec, isUrl)
  {
    var head: seq<nat> := if CheckField(rules[0], rec, isUrl).Some? then [0] else [];
    ConsPositionsFail(rules, rec, isUrl, rest, head);
    ConsPositionsIncrease(rest, head);
    ConsPositionsComplete(rules, rec, isUrl, rest, head);
  }

  lemma ConsPositionsFail(rules: seq<FieldRule>, rec: Record, isUrl: string -> bool, rest: seq<nat>, head: seq<nat>)
    requires |rules| > 0
    requires head == if CheckField(rules[0], rec, isUrl).Some? then [0] else []
    requires forall k :: 0 <= k < |rest| ==> rest[k] < |rules[1..]| && CheckField(rules[1..][rest[k]], rec, isUrl).Some?
    ensures var ix := head + Shift(rest);
      forall k :: 0 <= k < |ix| ==> ix[k] < |rules| && CheckField(rules[ix[k]], rec, isUrl).Some?
  {
    var shifted := Shift(rest);
    var ix := head + shifted;
    forall k | 0 <= k < |ix|
      ensures ix[k] < |rules| && CheckField(rules[ix[k]], rec, isUrl).Some?
    {
      if k >= |head| {
        assert ix[k] == shifted[k - |head|] == rest[k - |head|] + 1;
        assert rules[ix[k]] == rules[1..][rest[k - |head|]];
      }
    }
  }

  lemma ConsPositionsIncrease(rest: seq<nat>, head: seq<nat>)
    requires head == [] || head == [0]
    requires forall i, j :: 0 <= i < j < |rest| ==> rest[i] < rest[j]
    ensures var ix := head + Shift(rest);
      forall i, j :: 0 <= i < j < |ix| ==> ix[i] < ix[j]
  {
    var shifted := Shift(rest);
    var ix := head + shifted;
    forall i, j | 0 <= i < j < |ix|
      ensures ix[i] < ix[j]
    {
      assert ix[j] == shifted[j - |head|];
      if i >= |head| {
        assert ix[i] == shifted[i - |head|];
      }
    }
  }

  lemma ConsPositionsComplete(rules: seq<FieldRule>, rec: Record, isUrl: string -> bool, rest: seq<nat>, head: seq<nat>)
    requires |rules| > 0
    requires head == if CheckField(rules[0], rec, isUrl).Some? then [0] else []
    requires forall a :: 0 <= a < |rules[1..]| && CheckField(rules[1..][a], rec, isUrl).Some? ==> a in rest
    ensures var ix := head + Shift(rest);
      forall a :: 0 <= a < |rules| && CheckField(rules[a], rec, isUrl).Some? ==> a in ix
  {
    var shifted := Shift(rest);
    var ix := head + shifted;
    forall a | 0 <= a < |rules| && CheckField(rules[a], rec, isUrl).Some?
      ensures a in ix
    {
      if a == 0 {
        assert ix[0] == 0;
      } else {
        assert rules[a] == rules[1..][a - 1];
        var k :| 0 <= k < |rest| && rest[k] == a - 1;
        assert ix[k + |head|] == a;
      }
    }
  }

  /** `vs` holds, position by position, the violations of the rules at positions `ix`. */
  predicate ViolationsAt(vs: seq<Violation>, ix: seq<nat>, rules: seq<FieldRule>, rec: Record, isUrl: string -> bool)
  {
    |vs| == |ix| && forall k :: 0 <= k < |vs| ==> ix[k] < |rules| && CheckField(rules[ix[k]], rec, isUrl) == Some(vs[k])
  }

  /** The generic validator: every rule is checked, and the violations of
      the failing rules are collected once each, in the order of the rules. */
  function Validate(rules: seq<FieldRule>, rec: Record, isUrl: string -> bool): (vs: seq<Violation>)
    ensures ViolationsAt(vs, FailingRules(rules, rec, isUrl), rules, rec, isUrl)
  {
    if rules == [] then []
    else
      var rest := Validate(rules[1..], rec, isUrl);
      ConsViolationsAt(rules, rec, isUrl, rest);
      match CheckField(rules[0], rec, isUrl)
      case None => rest
      case Some(v) => [v] + rest
  }

  /** Putting the first rule's violation, if any, before the others' keeps
      each violation beside the position of its rule. */
  lemma ConsViolationsAt(rules: seq<FieldRule>, rec: Record, isUrl: string -> bool, rest: seq<Violation>)
    requires |rules| > 0
    requires ViolationsAt(rest, FailingRules(rules[1..], rec, isUrl), rules[1..], rec, isUrl)
    ensures var head := CheckField(rules[0], rec, isUrl);
      ViolationsAt(if head.None? then rest else [head.value] + rest, FailingRules(rules, rec, isUrl), rules, rec, isUrl)
  {
    var head := CheckField(rules[0], rec, isUrl);
    var tailIx := FailingRules(rules[1..], rec, isUrl);
    assert FailingRules(rules, rec, isUrl) == (if head.Some? then [0] else []) + Shift(tailIx);
    PrependViolation(rules, rec, isUrl, rest, tailIx, head);
  }

  lemma PrependViolation(rules: seq<FieldRule>, rec: Record, isUrl: string -> bool,
                         rest: seq<Violation>, tailIx: seq<nat>, head: Option<Violation>)
    requires |rules| > 0 && head == CheckField(rules[0], rec, isUrl)
    requires ViolationsAt(rest, tailIx, rules[1..], rec, isUrl)
    ensures ViolationsAt(if head.None? then rest else [head.value] + rest,
                         (if head.Some? then [0] else []) + Shift(tailIx), rules, rec, isUrl)
  {
    var vs := if head.None? then rest else [head.value] + rest;
    var ix := (if head.Some? then [0] else []) + Shift(tailIx);
    var d := if head.None? then 0 else 1;
    forall k | 0 <= k < |vs|
      ensures ix[k] < |rules| && CheckField(rules[ix[k]], rec, isUrl) == Some(vs[k])
    {
      if k >= d {
        assert vs[k] == rest[k - d];
        assert ix[k] == tailIx[k - d] + 1;
        assert rules[ix[k]] == rules[1..][tailIx[k - d]];
      }
    }
  }

  /** Every failing rule's violation is in the list. */
  lemma ValidateComplete(rules: seq<FieldRule>, rec: Record, isUrl: string -> bool, a: nat)
    requires a < |rules| && CheckField(rules[a], rec, isUrl).Some?
    ensures CheckField(rules[a], rec, isUrl).value in Validate(rules, rec, isUrl)
  {
    var ix := FailingRules(rules, rec, isUrl);
    var k :| 0 <= k < |ix| && ix[k] == a;
    assert Validate(rules, rec, isUrl)[k] == CheckField(rules[a], rec, isUrl).value;
  }

  /** The properties named in a list of violations. */
  function Fields(vs: seq<Violation>): set<Field>
  {
    set v | v in vs :: v.field
  }

  /** The decorators of the configuration class, property by property. */
  const ConfigRules: seq<FieldRule> := [
    FieldRule(SmtpHost, false, [IsNotEmpty, IsUrl]),
    FieldRule(SmtpPort, false, [IsNotEmpty, IsInt, IsPositive]),
    FieldRule(SmtpUser, true, [IsString]),
    FieldRule(SmtpPass, true, [IsString])
  ]

  /** The place of each property in the class declaration. */
  function Position(f: Field): nat
  {
    match f
    case SmtpHost => 0
    case SmtpPort => 1
    case SmtpUser => 2
    case SmtpPass => 3
  }

  /** What a value must be for each property to pass its rules. */
  predicate HostAcceptable(v: Value, isUrl: string -> bool)
  {
    v.Str? && v.s != "" && isUrl(v.s)
  }

  predicate PortAcceptable(v: Value)
  {
    v.Num? && IsInteger(v.x) && v.x > 0.0
  }

  predicate CredentialAcceptable(v: Value)
  {
    v.Absent? || v.Str?
  }

  predicate Acceptable(rec: Record, isUrl: string -> bool)
  {
    && HostAcceptable(rec.smtpHost, isUrl)
    && PortAcceptable(rec.smtpPort)
    && CredentialAcceptable(rec.smtpUser)
    && CredentialAcceptable(rec.smtpPass)
  }

  /** Validation of a parsed configuration document: a property is reported
      exactly when its value breaks that property's rules, and the list is
      empty exactly when every property is acceptable. Each property is
      reported at most once, in declaration order. */
  function ValidateConfig(rec: Record, isUrl: string -> bool): (vs: seq<Violation>)
    ensures SmtpHost in Fields(vs) <==> !HostAcceptable(rec.smtpHost, isUrl)
    ensures SmtpPort in Fields(vs) <==> !PortAcceptable(rec.smtpPort)
    ensures SmtpUser in Fields(vs) <==> !CredentialAcceptable(rec.smtpUser)
    ensures SmtpPass in Fields(vs) <==> !CredentialAcceptable(rec.smtpPass)
    ensures vs == [] <==> Acceptable(rec, isUrl)
    ensures forall i, j :: 0 <= i < j < |vs| ==> Position(vs[i].field) < Position(vs[j].field)
    ensures forall i, j :: 0 <= i < j < |vs| ==> vs[i].field != vs[j].field
  {
    var vs := Validate(ConfigRules, rec, isUrl);
    HostReported(rec, isUrl);
    PortReported(rec, isUrl);
    CredentialsReported(rec, isUrl);
    NoFieldsNoViolations(vs);
    ConfigRulesInDeclarationOrder();
    ConfigViolationsOrdered(ConfigRules, rec, isUrl);
    vs
  }

  /** Each rule of the configuration sits at its property's place in the declaration. */
  lemma ConfigRulesInDeclarationOrder()
    ensures forall a :: 0 <= a < |ConfigRules| ==> Position(ConfigRules[a].field) == a
  {
  }

  /** The configuration's violations follow the declaration order of the properties. */
  lemma ConfigViolationsOrdered(rules: seq<FieldRule>, rec: Record, isUrl: string -> bool)
    requires forall a :: 0 <= a < |rules| ==> Position(rules[a].field) == a
    ensures var vs := Validate(rules, rec, isUrl);
      forall i, j :: 0 <= i < j < |vs| ==> Position(vs[i].field) < Position(vs[j].field)
  {
    var vs := Validate(rules, rec, isUrl);
    var ix := FailingRules(rules, rec, isUrl);
    forall i, j | 0 <= i < j < |vs| ensures Position(vs[i].field) < Position(vs[j].field) {
      assert vs[i].field == rules[ix[i]].field && vs[j].field == rules[ix[j]].field;
    }
  }

  /** A violation list is empty exactly when it names none of the four properties. */
  lemma NoFieldsNoViolations(vs: seq<Violation>)
    ensures vs == [] <==> SmtpHost !in Fields(vs) && SmtpPort !in Fields(vs) && SmtpUser !in Fields(vs) && SmtpPass !in Fields(vs)
  {
    if vs == [] {
      assert Fields(vs) == {};
    } else {
      assert vs[0].field in Fields(vs);
      match vs[0].field
      case SmtpHost =>
      case SmtpPort =>
      case SmtpUser =>
      case SmtpPass =>
    }
  }

  lemma HostReported(rec: Record, isUrl: string -> bool)
    ensures SmtpHost in Fields(Validate(ConfigRules, rec, isUrl)) <==> !HostAcceptable(rec.smtpHost, isUrl)
  {
    HostRuleMeaning(rec, isUrl);
    ReportedIffRuleFails(ConfigRules, rec, isUrl, 0);
  }

  lemma PortReported(rec: Record, isUrl: string -> bool)
    ensures SmtpPort in Fields(Validate(ConfigRules, rec, isUrl)) <==> !PortAcceptable(rec.smtpPort)
  {
    PortRuleMeaning(rec, isUrl);
    ReportedIffRuleFails(ConfigRules, rec, isUrl, 1);
  }

  lemma CredentialsReported(rec: Record, isUrl: string -> bool)
    ensures SmtpUser in Fields(Validate(ConfigRules, rec, isUrl)) <==> !CredentialAcceptable(rec.smtpUser)
    ensures SmtpPass in Fields(Validate(ConfigRules, rec, isUrl)) <==> !CredentialAcceptable(rec.smtpPass)
  {
    CredentialRulesMeaning(rec, isUrl);
    CredentialReported(rec, isUrl, 2);
    CredentialReported(rec, isUrl, 3);
  }

  lemma CredentialReported(rec: Record, isUrl: string -> bool, i: nat)
    requires i == 2 || i == 3
    ensures ConfigRules[i].field in Fields(Validate(ConfigRules, rec, isUrl)) <==> CheckField(ConfigRules[i], rec, isUrl).Some?
  {
    ReportedIffRuleFails(ConfigRules, rec, isUrl, i);
  }

  /** When a property has exactly one rule in the table, it is reported
      exactly when that rule fails. */
  lemma ReportedIffRuleFails(rules: seq<FieldRule>, rec: Record, isUrl: string -> bool, i: nat)
    requires i < |rules|
    requires forall j :: 0 <= j < |rules| && j != i ==> rules[j].field != rules[i].field
    ensures rules[i].field in Fields(Validate(rules, rec, isUrl)) <==> CheckField(rules[i], rec, isUrl).Some?
  {
    var vs := Validate(rules, rec, isUrl);
    if rules[i].field in Fields(vs) {
      var v :| v in vs && v.field == rules[i].field;
      var k :| 0 <= k < |vs| && vs[k] == v;
      var a := FailingRules(rules, rec, isUrl)[k];
      assert CheckField(rules[a], rec, isUrl) == Some(v);
      assert a == i;
    }
    if CheckField(rules[i], rec, isUrl).Some? {
      ValidateComplete(rules, rec, isUrl, i);
    }
  }

  /** Each entry of the configuration's rule table passes exactly on acceptable values. */
  lemma HostRuleMeaning(rec: Record, isUrl: string -> bool)
    ensures CheckField(ConfigRules[0], rec, isUrl).None? <==> HostAcceptable(rec.smtpHost, isUrl)
  {
    CheckFieldMeaning(ConfigRules[0], rec, isUrl);
    var v := rec.smtpHost;
    assert Failed([IsNotEmpty, IsUrl], v, isUrl) == (if Holds(IsNotEmpty, v, isUrl) then [] else [IsNotEmpty]) + Failed([IsUrl], v, isUrl);
  }

  lemma PortRuleMeaning(rec: Record, isUrl: string -> bool)
    ensures CheckField(ConfigRules[1], rec, isUrl).None? <==> PortAcceptable(rec.smtpPort)
  {
    CheckFieldMeaning(ConfigRules[1], rec, isUrl);
    var cs := ConfigRules[1].constraints;
    assert IsNotEmpty in cs && IsInt in cs && IsPositive in cs;
  }

  lemma CredentialRulesMeaning(rec: Record, isUrl: string -> bool)
    ensures CheckField(ConfigRules[2], rec, isUrl).None? <==> CredentialAcceptable(rec.smtpUser)
    ensures CheckField(ConfigRules[3], rec, isUrl).None? <==> CredentialAcceptable(rec.smtpPass)
  {
    CheckFieldMeaning(ConfigRules[2], rec, isUrl);
    CheckFieldMeaning(ConfigRules[3], rec, isUrl);
  }
}
