/** Request-body validation chains and the `validate` step that ends them.
    Each chain contributes at most one error, in declaration order; sanitizers
    (trim, email normalisation) rewrite the body that is passed on. */
module Validators {
  import opened Common
  import opened Model
  import opened Http

  /** Library checks whose internals are not modelled: email syntax, email
      normalisation and ISO 8601 dates. */
  datatype Checks = Checks(isEmail: string -> bool, normalizeEmail: string -> string, isISO8601: string -> bool)

  /** The outcome of a validation chain: the sanitized body, or the errors. */
  datatype Checked = Passed(body: Body) | Failed(errors: seq<FieldError>)

  const EmailError := FieldError("email", "Please provide a valid email address")
  const PasswordLengthError := FieldError("password", "Password must be at least 8 characters long")
  const PasswordRequiredError := FieldError("password", "Password is required")
  const TitleRequiredError := FieldError("title", "Task title is required")
  const TitleEmptyError := FieldError("title", "Task title cannot be empty")
  const StatusError := FieldError("status", "Status must be one of: todo, in_progress, done")
  const PriorityError := FieldError("priority", "Priority must be one of: low, medium, high")
  const DueDateError := FieldError("dueDate", "Due date must be a valid date")

  const MinPasswordLength: nat := 8

  /** The checks read an absent field as the empty string. */
  function Text(v: Option<string>): string {
    v.GetOr("")
  }

  /** One rule of a chain: no error when it holds, its message otherwise. */
  function Rule(ok: bool, e: FieldError): seq<FieldError> {
    if ok then [] else [e]
  }

  /** `errors` lists some of the messages of `chain`, in the order they appear
      there: what `errors.array()` reports for a chain whose rules each
      contribute at most one message. */
  predicate Subsequence(errors: seq<FieldError>, chain: seq<FieldError>)
    decreases |chain|
  {
    if |chain| == 0 then errors == []
    else
      || Subsequence(errors, chain[1..])
      || (|errors| > 0 && errors[0] == chain[0] && Subsequence(errors[1..], chain[1..]))
  }

  /** Running one more rule ahead of a chain adds its message exactly when it
      fails. */
  lemma RuleMembers(ok: bool, e: FieldError, rest: seq<FieldError>)
    ensures forall x :: x in Rule(ok, e) + rest <==> (!ok && x == e) || x in rest
    ensures |Rule(ok, e) + rest| == (if ok then 0 else 1) + |rest|
  {
  }

  /** Running one more rule ahead of a chain keeps the report in chain order. */
  lemma RuleInOrder(ok: bool, e: FieldError, rest: seq<FieldError>, chain: seq<FieldError>)
    requires Subsequence(rest, chain)
    ensures Subsequence(Rule(ok, e) + rest, [e] + chain)
  {
    var errors := Rule(ok, e) + rest;
    assert ([e] + chain)[1..] == chain;
    if ok {
      assert errors == rest;
    } else {
      assert errors[0] == e && errors[1..] == rest;
    }
  }

  /** Two rules on different fields: the report names exactly the failing
      rules, in the order they run. */
  lemma TwoRules(a: bool, ea: FieldError, b: bool, eb: FieldError)
    requires ea.path != eb.path
    ensures var errors := Rule(a, ea) + Rule(b, eb);
      && (|errors| == 0 <==> a && b)
      && (ea in errors <==> !a) && (eb in errors <==> !b)
      && (forall e :: e in errors ==> e == ea || e == eb)
      && Subsequence(errors, [ea, eb])
  {
    RuleMembers(a, ea, Rule(b, eb));
    RuleInOrder(b, eb, [], []);
    assert Rule(b, eb) + [] == Rule(b, eb);
    RuleInOrder(a, ea, Rule(b, eb), [eb]);
  }

  /** Four rules report in the order they run. */
  lemma FourRulesInOrder(a: bool, ea: FieldError, b: bool, eb: FieldError, c: bool, ec: FieldError, d: bool, ed: FieldError)
    ensures Subsequence(Rule(a, ea) + (Rule(b, eb) + (Rule(c, ec) + Rule(d, ed))), [ea, eb, ec, ed])
  {
    var r4 := Rule(d, ed);
    RuleInOrder(d, ed, [], []);
    assert r4 + [] == r4;
    var r3 := Rule(c, ec) + r4;
    RuleInOrder(c, ec, r4, [ed]);
    var r2 := Rule(b, eb) + r3;
    RuleInOrder(b, eb, r3, [ec, ed]);
    assert [eb] + [ec, ed] == [eb, ec, ed];
    RuleInOrder(a, ea, r2, [eb, ec, ed]);
    assert [ea] + [eb, ec, ed] == [ea, eb, ec, ed];
  }

  /** Four rules on different fields: the report names exactly the failing
      rules. */
  lemma FourRules(a: bool, ea: FieldError, b: bool, eb: FieldError, c: bool, ec: FieldError, d: bool, ed: FieldError)
    requires ea.path != eb.path && ea.path != ec.path && ea.path != ed.path
    requires eb.path != ec.path && eb.path != ed.path && ec.path != ed.path
    ensures var errors := Rule(a, ea) + (Rule(b, eb) + (Rule(c, ec) + Rule(d, ed)));
      && (|errors| == 0 <==> a && b && c && d)
      && (ea in errors <==> !a) && (eb in errors <==> !b) && (ec in errors <==> !c) && (ed in errors <==> !d)
      && (forall e :: e in errors ==> e == ea || e == eb || e == ec || e == ed)
  {
    RuleMembers(c, ec, Rule(d, ed));
    RuleMembers(b, eb, Rule(c, ec) + Rule(d, ed));
    RuleMembers(a, ea, Rule(b, eb) + (Rule(c, ec) + Rule(d, ed)));
  }

  /** `optional().isIn(allowed)`: an absent field passes; a present one must be allowed. */
  predicate OptionalIn(v: Option<string>, allowed: set<string>) {
    v.None? || v.value in allowed
  }

  /** `optional().isISO8601()`. */
  predicate OptionalDate(v: Option<string>, chk: Checks) {
    v.None? || chk.isISO8601(v.value)
  }

  /** `validate`: any collected error stops the request; otherwise the
      sanitized body is handed on. */
  function Validate(errors: seq<FieldError>, sanitized: Body): (c: Checked)
    ensures c.Failed? <==> |errors| > 0
    ensures c.Failed? ==> c.errors == errors
    ensures c.Passed? ==> c.body == sanitized
  {
    if |errors| > 0 then Failed(errors) else Passed(sanitized)
  }

  /** The 400 response `validate` sends for a failed chain. */
  function Reject(c: Checked): (r: Response)
    requires c.Failed?
    ensures r.status == 400 && r.payload.Invalid? && r.payload.errors == c.errors
  {
    Response(400, Invalid(c.errors))
  }

  // ---------------------------------------------------------------------------
  // Whitespace trimming (the `trim()` sanitizer)

  predicate IsSpace(c: char) {
    c == ' ' || c == '\t' || c == '\n' || c == '\r' || c == '\U{B}' || c == '\U{C}'
    || c == '\U{A0}' || c == '\U{FEFF}' || c == '\U{2028}' || c == '\U{2029}'
  }

  /** How many whitespace characters open `s`. */
  function Leading(s: string): (a: nat)
    ensures a <= |s|
    ensures forall i :: 0 <= i < a ==> IsSpace(s[i])
    ensures a < |s| ==> !IsSpace(s[a])
  {
    if |s| > 0 && IsSpace(s[0]) then 1 + Leading(s[1..]) else 0
  }

  /** `s` without its trailing whitespace. */
  function TrimEnd(s: string): (r: string)
    ensures |r| <= |s| && r == s[..|r|]
    ensures |r| > 0 ==> !IsSpace(r[|r| - 1])
    ensures forall i :: |r| <= i < |s| ==> IsSpace(s[i])
  {
    if |s| > 0 && IsSpace(s[|s| - 1]) then TrimEnd(s[..|s| - 1]) else s
  }

  /** Drops leading and trailing whitespace: the result is the part of `s`
      after its leading whitespace, with no whitespace at either end, and
      everything dropped after it is whitespace. */
  function Trim(s: string): (r: string)
    ensures Leading(s) + |r| <= |s|
    ensures r == s[Leading(s)..Leading(s) + |r|]
    ensures forall i :: Leading(s) + |r| <= i < |s| ==> IsSpace(s[i])
    ensures |r| > 0 ==> !IsSpace(r[0]) && !IsSpace(r[|r| - 1])
  {
    var a := Leading(s);
    var r := TrimEnd(s[a..]);
    assert r == s[a..][..|r|] == s[a..a + |r|];
    assert forall i :: a + |r| <= i < |s| ==> s[i] == s[a..][i - a];
    r
  }

  function TrimOpt(v: Option<string>): Option<string> {
    if v.Some? then Some(Trim(v.value)) else None
  }

  /** Trimming twice is trimming once. */
  lemma TrimIdempotent(s: string)
    ensures Trim(Trim(s)) == Trim(s)
  {
    var r := Trim(s);
    if |r| > 0 {
      assert Leading(r) == 0;
      assert TrimEnd(r) == r;
    }
  }

  /** A string trims to nothing exactly when it is all whitespace. */
  lemma TrimBlank(s: string)
    ensures Trim(s) == "" <==> forall i :: 0 <= i < |s| ==> IsSpace(s[i])
  {
  }

  // ---------------------------------------------------------------------------
  // The four chains

  /** `validateRegister`: a syntactically valid email (then normalised) and a
      password of at least eight characters. */
  function ValidateRegister(b: Body, chk: Checks): (r: Checked)
    ensures r.Passed? <==> chk.isEmail(Text(b.email)) && |Text(b.password)| >= MinPasswordLength
    ensures r.Failed? ==> (EmailError in r.errors <==> !chk.isEmail(Text(b.email)))
    ensures r.Failed? ==> (PasswordLengthError in r.errors <==> |Text(b.password)| < MinPasswordLength)
    ensures r.Failed? ==> forall e :: e in r.errors ==> e == EmailError || e == PasswordLengthError
    ensures r.Failed? ==> Subsequence(r.errors, [EmailError, PasswordLengthError])
    ensures r.Passed? ==> r.body.password == b.password
    ensures r.Passed? && b.email.Some? ==> r.body.email == Some(chk.normalizeEmail(b.email.value))
  {
    var errors := Rule(chk.isEmail(Text(b.email)), EmailError)
      + Rule(|Text(b.password)| >= MinPasswordLength, PasswordLengthError);
    TwoRules(chk.isEmail(Text(b.email)), EmailError, |Text(b.password)| >= MinPasswordLength, PasswordLengthError);
    var email := if b.email.Some? then Some(chk.normalizeEmail(b.email.value)) else None;
    Validate(errors, b.(email := email))
  }

  /** `validateLogin`: a valid email (then normalised) and any non-empty password. */
  function ValidateLogin(b: Body, chk: Checks): (r: Checked)
    ensures r.Passed? <==> chk.isEmail(Text(b.email)) && Text(b.password) != ""
    ensures r.Failed? ==> (EmailError in r.errors <==> !chk.isEmail(Text(b.email)))
    ensures r.Failed? ==> (PasswordRequiredError in r.errors <==> Text(b.password) == "")
    ensures r.Failed? ==> forall e :: e in r.errors ==> e == EmailError || e == PasswordRequiredError
    ensures r.Failed? ==> Subsequence(r.errors, [EmailError, PasswordRequiredError])
    ensures r.Passed? ==> r.body.password == b.password
    ensures r.Passed? && b.email.Some? ==> r.body.email == Some(chk.normalizeEmail(b.email.value))
  {
    var errors := Rule(chk.isEmail(Text(b.email)), EmailError)
      + Rule(Text(b.password) != "", PasswordRequiredError);
    TwoRules(chk.isEmail(Text(b.email)), EmailError, Text(b.password) != "", PasswordRequiredError);
    var email := if b.email.Some? then Some(chk.normalizeEmail(b.email.value)) else None;
    Validate(errors, b.(email := email))
  }

  /** The field rules shared by task creation and task update. */
  function EnumAndDateRules(b: Body, chk: Checks): seq<FieldError> {
    Rule(OptionalIn(b.status, Statuses), StatusError)
    + (Rule(OptionalIn(b.priority, Priorities), PriorityError)
       + Rule(OptionalDate(b.dueDate, chk), DueDateError))
  }

  /** `validateTask`: a title that is non-empty as sent (it is trimmed only
      afterwards), and status, priority and due date valid when present. */
  function ValidateTask(b: Body, chk: Checks): (r: Checked)
    ensures r.Passed? <==>
      Text(b.title) != "" && OptionalIn(b.status, Statuses) && OptionalIn(b.priority, Priorities) && OptionalDate(b.dueDate, chk)
    ensures r.Failed? ==> (TitleRequiredError in r.errors <==> Text(b.title) == "")
    ensures r.Failed? ==> (StatusError in r.errors <==> !OptionalIn(b.status, Statuses))
    ensures r.Failed? ==> (PriorityError in r.errors <==> !OptionalIn(b.priority, Priorities))
    ensures r.Failed? ==> (DueDateError in r.errors <==> !OptionalDate(b.dueDate, chk))
    ensures r.Failed? ==> forall e :: e in r.errors ==> e == TitleRequiredError || e == StatusError || e == PriorityError || e == DueDateError
    ensures r.Failed? ==> Subsequence(r.errors, [TitleRequiredError, StatusError, PriorityError, DueDateError])
    ensures r.Passed? ==> r.body == b.(title := TrimOpt(b.title), description := TrimOpt(b.description))
  {
    var errors := Rule(Text(b.title) != "", TitleRequiredError) + EnumAndDateRules(b, chk);
    FourRules(Text(b.title) != "", TitleRequiredError, OptionalIn(b.status, Statuses), StatusError,
                     OptionalIn(b.priority, Priorities), PriorityError, OptionalDate(b.dueDate, chk), DueDateError);
    FourRulesInOrder(Text(b.title) != "", TitleRequiredError, OptionalIn(b.status, Statuses), StatusError,
                            OptionalIn(b.priority, Priorities), PriorityError, OptionalDate(b.dueDate, chk), DueDateError);
    Validate(errors, b.(title := TrimOpt(b.title), description := TrimOpt(b.description)))
  }

  /** `validateTaskUpdate`: every field optional; a title, when sent, must be
      non-empty; status, priority and due date as for creation. */
  function ValidateTaskUpdate(b: Body, chk: Checks): (r: Checked)
    ensures r.Passed? <==>
      (b.title.None? || b.title.value != "") && OptionalIn(b.status, Statuses) && OptionalIn(b.priority, Priorities) && OptionalDate(b.dueDate, chk)
    ensures r.Failed? ==> (TitleEmptyError in r.errors <==> b.title == Some(""))
    ensures r.Failed? ==> (StatusError in r.errors <==> !OptionalIn(b.status, Statuses))
    ensures r.Failed? ==> (PriorityError in r.errors <==> !OptionalIn(b.priority, Priorities))
    ensures r.Failed? ==> (DueDateError in r.errors <==> !OptionalDate(b.dueDate, chk))
    ensures r.Failed? ==> forall e :: e in r.errors ==> e == TitleEmptyError || e == StatusError || e == PriorityError || e == DueDateError
    ensures r.Failed? ==> Subsequence(r.errors, [TitleEmptyError, StatusError, PriorityError, DueDateError])
    ensures r.Passed? ==> r.body == b.(title := TrimOpt(b.title), description := TrimOpt(b.description))
  {
    var errors := Rule(b.title.None? || b.title.value != "", TitleEmptyError) + EnumAndDateRules(b, chk);
    FourRules(b.title.None? || b.title.value != "", TitleEmptyError, OptionalIn(b.status, Statuses), StatusError,
                     OptionalIn(b.priority, Priorities), PriorityError, OptionalDate(b.dueDate, chk), DueDateError);
    FourRulesInOrder(b.title.None? || b.title.value != "", TitleEmptyError, OptionalIn(b.status, Statuses), StatusError,
                            OptionalIn(b.priority, Priorities), PriorityError, OptionalDate(b.dueDate, chk), DueDateError);
    Validate(errors, b.(title := TrimOpt(b.title), description := TrimOpt(b.description)))
  }

  /** An update body with no fields at all passes validation unchanged. */
  lemma EmptyUpdatePasses(chk: Checks)
    ensures ValidateTaskUpdate(EmptyBody, chk) == Passed(EmptyBody)
  {
  }

  /** Because the emptiness check runs before trimming, a whitespace-only title
      is accepted on creation and handed on as the empty string. */
  lemma BlankTitleAccepted(chk: Checks)
    ensures ValidateTask(EmptyBody.(title := Some("   ")), chk) == Passed(EmptyBody.(title := Some("")))
  {
    assert Leading("   ") == 3;
  }
}
