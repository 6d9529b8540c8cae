/** `HandleActionRequest`: the checks before the outcome loop (action lookup,
    subject, permissions, in-field filling, validation, conformation), then the
    outcomes in declaration order, each gated by its condition, built,
    dispatched and published into the context the later outcomes see. */
module Pipeline {
  import opened Text
  import opened Values
  import opened Evaluate
  import opened ContextBuilder
  import opened Actions
  import opened OutcomeDispatch

  /** `FindOne` on the subject: a failure, or the subject's type and data (nil data possible). */
  datatype SubjectReply = SubjectFailed | SubjectFound(typeName: string, data: Option<Row>)

  /** The collaborators of the checks before the outcome loop. */
  datatype Checks = Checks(
    getAction: (string, string) -> Option<Action>,
    isAdmin: bool,
    actionAllowed: bool,
    findSubject: string -> SubjectReply,
    canExecute: Row -> bool,
    form: map<string, string>,
    validate: (Value, Row, string) -> Option<string>,
    conform: (string, string) -> string,
    userReferenceId: string,
    userObject: string -> Option<Row>)

  const NilMapPanic := "assignment to entry in nil map"

  /** The action and the subject the request acts on, once admitted. */
  datatype Admitted = Admitted(action: Action, subject: Option<Row>)

  /** `Form.Get`: the empty string for a missing key. */
  function FormGet(form: map<string, string>, k: string): string
  {
    if k in form then form[k] else ""
  }

  /** The key naming the subject: the request type followed by `_id`. */
  function SubjectKey(req: ActionRequest): string
  {
    req.actionType + "_id"
  }

  /** The subject named by `<type>_id`, loaded, tagged with `__type` and checked for execute permission. */
  function SubjectOf(checks: Checks, req: ActionRequest): (r: Result<Option<Row>>)
    ensures SubjectKey(req) !in req.attributes ==> r == Ok(None)
    ensures r.Ok? && r.value.Some? ==> checks.canExecute(r.value.value) && SubjectKey(req) in req.attributes
    ensures r.Err? ==> r.error.Panic? || r.error.HttpError?
  {
    var key := SubjectKey(req);
    if key !in req.attributes then Ok(None)
    else if !req.attributes[key].Str? then Err(Panic(StringAssertionPanic))
    else match checks.findSubject(req.attributes[key].s)
      case SubjectFailed => Err(HttpError(400, "failed to load subject"))
      case SubjectFound(name, data) =>
        if data.None? then Err(HttpError(400, "subject not found"))
        else
          var subject := data.value["__type" := Str(name)];
          if !checks.canExecute(subject) then Err(HttpError(403, "forbidden")) else Ok(Some(subject))
  }

  /** The action is found, the subject (if named) may be acted on, the user may
      run the action, and a subject is present unless the action makes it optional. */
  function Admit(checks: Checks, req: ActionRequest): (r: Result<Admitted>)
    ensures r.Ok? ==> checks.getAction(req.actionType, req.actionName) == Some(r.value.action)
    ensures r.Ok? ==> checks.isAdmin || checks.actionAllowed
    ensures r.Ok? && !r.value.action.instanceOptional
            ==> r.value.subject.Some? && Lookup(req.attributes, SubjectKey(req)) != Str("")
    ensures checks.getAction(req.actionType, req.actionName).None? ==> r == Err(HttpError(400, "no such action"))
    ensures r.Err? ==> r.error.Panic? || r.error.HttpError?
  {
    match checks.getAction(req.actionType, req.actionName)
    case None => Err(HttpError(400, "no such action"))
    case Some(action) =>
      match SubjectOf(checks, req)
      case Err(e) => Err(e)
      case Ok(subject) =>
        if !checks.isAdmin && !checks.actionAllowed then Err(HttpError(403, "forbidden"))
        else if !action.instanceOptional && (Lookup(req.attributes, SubjectKey(req)) == Str("") || subject.None?) then
          Err(HttpError(400, "no reference id"))
        else Ok(Admitted(action, subject))
  }

  /** Every declared in-field missing from the attributes taken from the request form. */
  function Filled(attrs: Row, fields: seq<InField>, form: map<string, string>): (r: Row)
    ensures forall j :: 0 <= j < |fields| ==> fields[j].columnName in r
    ensures forall k :: k in attrs ==> k in r && r[k] == attrs[k]
    ensures forall k :: k in r ==> k in attrs || k in ColumnNames(fields)
  {
    if |fields| == 0 then attrs
    else
      var init := fields[..|fields| - 1];
      var a := Filled(attrs, init, form);
      var c := fields[|fields| - 1].columnName;
      assert forall j :: 0 <= j < |init| ==> init[j] == fields[j];
      assert forall k :: k in ColumnNames(init) ==> k in ColumnNames(fields);
      assert c in ColumnNames(fields);
      if c in a then a else a[c := Str(FormGet(form, c))]
  }

  /** The tag of the first validation that fails, in declaration order. */
  function FirstInvalid(attrs: Row, validations: seq<ColumnTags>, validate: (Value, Row, string) -> Option<string>): Option<string>
  {
    if |validations| == 0 then None
    else
      var earlier := FirstInvalid(attrs, validations[..|validations| - 1], validate);
      var v := validations[|validations| - 1];
      if earlier.Some? then earlier else validate(Lookup(attrs, v.columnName), attrs, v.tags)
  }

  /** Each conformation rewrites its column when that column holds a string. */
  function Conformed(attrs: Row, cs: seq<ColumnTags>, conform: (string, string) -> string): (r: Row)
    ensures r.Keys == attrs.Keys
  {
    if |cs| == 0 then attrs
    else
      var a := Conformed(attrs, cs[..|cs| - 1], conform);
      var c := cs[|cs| - 1];
      if c.columnName in a && a[c.columnName].Str? then a[c.columnName := Str(conform(a[c.columnName].s, c.tags))]
      else a
  }

  /** The attributes after filling and conforming, once validation passed. */
  function Attributes(checks: Checks, req: ActionRequest, action: Action): (r: Result<Row>)
    ensures r.Ok? ==> forall j :: 0 <= j < |action.inFields| ==> action.inFields[j].columnName in r.value
    ensures r.Err? ==> r.error.HttpError? && r.error.status == 400
  {
    var filled := Filled(req.attributes, action.inFields, checks.form);
    match FirstInvalid(filled, action.validations, checks.validate)
    case Some(tag) => Err(HttpError(400, tag))
    case None => Ok(Conformed(filled, action.conformations, checks.conform))
  }

  /** The context the first outcome sees: the validated in-fields, the whole
      attribute map under `attributes`, the user, and the subject. */
  function InFieldContext(checks: Checks, req: ActionRequest, admitted: Admitted, attrs: Row): (r: Result<Row>)
    ensures r.Ok? ==> Lookup(r.value, "attributes") == Map(attrs) || "attributes" == SubjectKey(req)
    ensures r.Err? ==> r.error == Panic(NilMapPanic) || r.error == HttpError(401, "failed to identify user")
  {
    match ValidatedInFields(attrs, admitted.action.inFields)
    case Err(_) => Err(Panic(NilMapPanic))
    case Ok(inFieldMap) =>
      var withAttributes := inFieldMap["attributes" := Map(attrs)];
      var withUser :=
        if checks.userReferenceId == "" then Ok(withAttributes)
        else match checks.userObject(checks.userReferenceId)
          case None => Err(HttpError(401, "failed to identify user"))
          case Some(user) => Ok(withAttributes["user" := Map(user)]);
      match withUser
      case Err(e) => Err(e)
      case Ok(ctx) =>
        if admitted.subject.None? then Ok(ctx)
        else Ok(ctx[SubjectKey(req) := Lookup(admitted.subject.value, "reference_id")]["subject" := Map(admitted.subject.value)])
  }

  /** Everything before the outcome loop: the action and the context. */
  datatype Prepared = Prepared(action: Action, ctx: Row)

  function Prepare(checks: Checks, req: ActionRequest): Result<Prepared>
  {
    match Admit(checks, req)
    case Err(e) => Err(e)
    case Ok(admitted) =>
      match Attributes(checks, req, admitted.action)
      case Err(e) => Err(e)
      case Ok(attrs) =>
        match InFieldContext(checks, req, admitted, attrs)
        case Err(e) => Err(e)
        case Ok(ctx) => Ok(Prepared(admitted.action, ctx))
  }

  /** After filling, no declared in-field is missing, so `GetValidatedInFields`
      cannot fail here: the nil-map write after a failed check never happens. */
  lemma InFieldsNeverBlank(checks: Checks, req: ActionRequest, admitted: Admitted, attrs: Row)
    requires Attributes(checks, req, admitted.action) == Ok(attrs)
    ensures ValidatedInFields(attrs, admitted.action.inFields).Ok?
    ensures InFieldContext(checks, req, admitted, attrs) != Err(Panic(NilMapPanic))
  {
  }

  // --------------------------------------------------------- the outcomes

  /** How a condition's value is read: boolean true, the string "1", or a
      string that trims and lower-cases to "true". */
  predicate Truthy(v: Value)
  {
    v == Bool(true) || (v.Str? && (v.s == "1" || IsTrueText(v.s)))
  }

  /** The condition gate: an evaluation error skips the outcome, except a panic, which aborts. */
  function Gate(o: Outcome, ctx: Row, run: ScriptRunner): (r: Result<bool>)
    ensures |o.condition| == 0 ==> r == Ok(true)
    ensures r.Err? ==> r.error.Panic?
  {
    if |o.condition| == 0 then Ok(true)
    else match Eval(o.condition, ctx, run)
      case Err(e) => if e.Panic? then Err(e) else Ok(false)
      case Ok(v) => Ok(Truthy(v))
  }

  /** The state between outcomes: the context and the responses so far; or the reply. */
  datatype Flow = Next(ctx: Row, responses: seq<ActionResponse>) | Stop(reply: Reply)

  function BuildFailedResponse(o: Outcome): ActionResponse
  {
    ActionResponse("error", Str("Failed to build outcome " + o.otype))
  }

  /** One outcome past its gate: built, dispatched and published. */
  function Attempt(env: Env, requestType: string, i: nat, o: Outcome, ctx: Row, responses: seq<ActionResponse>): Flow
  {
    match BuildOutcome(ctx, o, env.run, env.writeSchema)
    case Err(e) =>
      if e.Panic? then Stop(Reply([], Some(e)))
      else if o.continueOnError then Next(ctx, responses + [BuildFailedResponse(o)])
      else Stop(Reply([], Some(InvalidInput(o.otype))))
    case Ok(b) => Settle(o, Dispatch(env, i, requestType, o, b, responses), ctx, responses)
  }

  /** What the switch's result does to the responses and the context. */
  function Settle(o: Outcome, d: Dispatched, ctx: Row, responses: seq<ActionResponse>): Flow
  {
    match d
    case Halt(reply) => Stop(reply)
    case Skipped => Next(ctx, responses)
    case Done(ars, obj, err) =>
      var rs := if o.skipInResponse then responses else responses + ars;
      if err.Some? then Stop(Reply(rs, err))
      else Next(PublishedObjects(PublishedResponses(ctx, o.reference, ars), o.reference, obj), rs)
  }

  /** The outcome at position `i`. */
  function Step(env: Env, requestType: string, i: nat, o: Outcome, ctx: Row, responses: seq<ActionResponse>): Flow
  {
    match Gate(o, ctx, env.run)
    case Err(e) => Stop(Reply([], Some(e)))
    case Ok(runs) => if runs then Attempt(env, requestType, i, o, ctx, responses) else Next(ctx, responses)
  }

  /** The outcomes from position `i` on, in declaration order. */
  function Run(env: Env, requestType: string, outcomes: seq<Outcome>, i: nat, ctx: Row, responses: seq<ActionResponse>): Reply
    requires i <= |outcomes|
    decreases |outcomes| - i
  {
    if i == |outcomes| then Reply(responses, None)
    else match Step(env, requestType, i, outcomes[i], ctx, responses)
      case Stop(reply) => reply
      case Next(c, rs) => Run(env, requestType, outcomes, i + 1, c, rs)
  }

  /** `HandleActionRequest` as a whole. */
  function Handle(checks: Checks, env: Env, req: ActionRequest): Reply
  {
    match Prepare(checks, req)
    case Err(e) => Reply([], Some(e))
    case Ok(p) => Run(env, req.actionType, p.action.outFields, 0, p.ctx, [])
  }

  // ------------------------------------------------------------ properties

  /** An outcome whose condition evaluates without a panic runs exactly when
      the condition is empty or its value is truthy; otherwise it is skipped
      with no response, no error and no change to the context. */
  lemma ConditionGate(env: Env, requestType: string, i: nat, o: Outcome, ctx: Row, responses: seq<ActionResponse>)
    requires |o.condition| > 0 ==> !(Eval(o.condition, ctx, env.run).Err? && Eval(o.condition, ctx, env.run).error.Panic?)
    ensures |o.condition| == 0 || (Eval(o.condition, ctx, env.run).Ok? && Truthy(Eval(o.condition, ctx, env.run).value))
            ==> Step(env, requestType, i, o, ctx, responses) == Attempt(env, requestType, i, o, ctx, responses)
    ensures |o.condition| > 0 && (Eval(o.condition, ctx, env.run).Err? || !Truthy(Eval(o.condition, ctx, env.run).value))
            ==> Step(env, requestType, i, o, ctx, responses) == Next(ctx, responses)
  {
  }

  /** A build error adds an error response and moves on under `ContinueOnError`;
      otherwise the request fails with no responses at all. */
  lemma BuildFailurePolicy(env: Env, requestType: string, i: nat, o: Outcome, ctx: Row, responses: seq<ActionResponse>)
    requires BuildOutcome(ctx, o, env.run, env.writeSchema).Err?
    requires !BuildOutcome(ctx, o, env.run, env.writeSchema).error.Panic?
    ensures o.continueOnError ==> Attempt(env, requestType, i, o, ctx, responses)
                                  == Next(ctx, responses + [ActionResponse("error", Str("Failed to build outcome " + o.otype))])
    ensures !o.continueOnError ==> Attempt(env, requestType, i, o, ctx, responses)
                                   == Stop(Reply([], Some(InvalidInput(o.otype))))
  {
  }

  /** An outcome's own responses reach the reply unless `SkipInResponse`; either way they are published. */
  lemma SkipInResponse(env: Env, requestType: string, i: nat, o: Outcome, ctx: Row, responses: seq<ActionResponse>, b: BuiltOutcome)
    requires BuildOutcome(ctx, o, env.run, env.writeSchema) == Ok(b)
    requires Dispatch(env, i, requestType, o, b, responses).Done?
    ensures var d := Dispatch(env, i, requestType, o, b, responses);
            var flow := Attempt(env, requestType, i, o, ctx, responses);
            (flow.Next? ==> flow.responses == (if o.skipInResponse then responses else responses + d.actionResponses))
            && (flow.Stop? ==> flow.reply == Reply(if o.skipInResponse then responses else responses + d.actionResponses, d.err))
  {
  }

  /** A failed create ends the loop: an error notification is added and no error is returned. */
  lemma CreateFailureNotifies(env: Env, requestType: string, i: nat, o: Outcome, ctx: Row, responses: seq<ActionResponse>,
                              b: BuiltOutcome, msg: string)
    requires BuildOutcome(ctx, o, env.run, env.writeSchema) == Ok(b)
    requires o.verb == "POST" && env.create(i, o.otype, b.model, b.verb) == RowFailed(msg)
    ensures Attempt(env, requestType, i, o, ctx, responses)
            == Stop(Reply(responses + [Notify("error", "Failed to create " + b.model.typeName + ". " + msg, "Failed")], None))
  {
  }

  /** A store failure on any of the store methods ends the loop with the
      responses so far plus one `client.notify`, and no error. */
  lemma StoreFailureEndsLoop(env: Env, requestType: string, i: nat, o: Outcome, ctx: Row, responses: seq<ActionResponse>,
                             b: BuiltOutcome)
    requires BuildOutcome(ctx, o, env.run, env.writeSchema) == Ok(b)
    requires Dispatch(env, i, requestType, o, b, responses).Halt?
    requires Dispatch(env, i, requestType, o, b, responses).reply.error.None?
    ensures Attempt(env, requestType, i, o, ctx, responses).Stop?
    ensures var reply := Attempt(env, requestType, i, o, ctx, responses).reply;
            reply.error.None? && |reply.responses| == |responses| + 1
            && reply.responses[..|responses|] == responses && reply.responses[|responses|].responseType == "client.notify"
  {
  }

  /** A method the switch does not know, with no handler for the outcome type, is skipped silently. */
  lemma UnknownMethodSkipped(env: Env, requestType: string, i: nat, o: Outcome, ctx: Row, responses: seq<ActionResponse>)
    requires BuildOutcome(ctx, o, env.run, env.writeSchema).Ok?
    requires o.verb !in KnownMethods && o.otype !in env.performers
    ensures Attempt(env, requestType, i, o, ctx, responses) == Next(ctx, responses)
  {
  }

  /** A performer's error ends the request with the responses so far (its own
      included unless skipped) and that error. */
  lemma PerformerErrorReturned(env: Env, requestType: string, i: nat, o: Outcome, ctx: Row, responses: seq<ActionResponse>,
                               b: BuiltOutcome, e: string)
    requires BuildOutcome(ctx, o, env.run, env.writeSchema) == Ok(b)
    requires o.verb == "EXECUTE" && b.model.typeName in env.performers && o.attributes.Some?
    requires var reply := env.performers[b.model.typeName](i, WithUser(o, env.sessionUser), b.model.data);
             !reply.responder.OtherResponder? && reply.errors.Some? && |reply.errors.value| > 0 && reply.errors.value[0] == e
    ensures var reply := env.performers[b.model.typeName](i, WithUser(o, env.sessionUser), b.model.data);
            Attempt(env, requestType, i, o, ctx, responses)
            == Stop(Reply(if o.skipInResponse then responses else responses + reply.responses, Some(External(e))))
  {
  }

  /** An `EXECUTE` outcome of an action that gives it no attributes panics
      when the session user is written into the nil map. */
  lemma ExecuteWithoutAttributesPanics(env: Env, requestType: string, i: nat, o: Outcome, ctx: Row, responses: seq<ActionResponse>,
                                       b: BuiltOutcome)
    requires BuildOutcome(ctx, o, env.run, env.writeSchema) == Ok(b)
    requires o.verb == "EXECUTE" && b.model.typeName in env.performers && o.attributes.None?
    ensures Attempt(env, requestType, i, o, ctx, responses) == Stop(Reply([], Some(Panic(NilMapPanic))))
  {
  }

  /** An outcome never takes back a response: the responses before it are a
      prefix of those after it, unless the request ends with none. */
  predicate KeepsResponses(flow: Flow, responses: seq<ActionResponse>)
  {
    (flow.Next? ==> responses <= flow.responses)
    && (flow.Stop? ==> flow.reply.responses == [] || responses <= flow.reply.responses)
  }

  lemma StepKeepsResponses(env: Env, requestType: string, i: nat, o: Outcome, ctx: Row, responses: seq<ActionResponse>)
    ensures KeepsResponses(Step(env, requestType, i, o, ctx, responses), responses)
  {
    if Gate(o, ctx, env.run) == Ok(true) {
      AttemptKeepsResponses(env, requestType, i, o, ctx, responses);
    }
  }

  lemma AttemptKeepsResponses(env: Env, requestType: string, i: nat, o: Outcome, ctx: Row, responses: seq<ActionResponse>)
    ensures KeepsResponses(Attempt(env, requestType, i, o, ctx, responses), responses)
  {
    var built := BuildOutcome(ctx, o, env.run, env.writeSchema);
    if built.Ok? {
      SettleKeepsResponses(env, requestType, i, o, built.value, ctx, responses);
    }
  }

  lemma SettleKeepsResponses(env: Env, requestType: string, i: nat, o: Outcome, b: BuiltOutcome, ctx: Row,
                             responses: seq<ActionResponse>)
    ensures KeepsResponses(Settle(o, Dispatch(env, i, requestType, o, b, responses), ctx, responses), responses)
  {
    var d := Dispatch(env, i, requestType, o, b, responses);
    if d.Halt? && d.reply.error.None? {
      assert d.reply.responses[..|responses|] == responses;
    }
    if d.Halt? && d.reply.error.Some? {
      DispatchErrorHaltIsEmpty(env, i, requestType, o, b, responses);
    }
  }

  /** The switch returns early with an error only with no responses. */
  lemma DispatchErrorHaltIsEmpty(env: Env, i: nat, requestType: string, o: Outcome, b: BuiltOutcome, responses: seq<ActionResponse>)
    requires Dispatch(env, i, requestType, o, b, responses).Halt?
    requires Dispatch(env, i, requestType, o, b, responses).reply.error.Some?
    ensures Dispatch(env, i, requestType, o, b, responses).reply.responses == []
  {
  }

  /** Outcomes run in declaration order and only append: the reply extends the
      responses collected before position `i`, unless it carries none. */
  lemma {:induction false} RunKeepsResponses(env: Env, requestType: string, outcomes: seq<Outcome>, i: nat, ctx: Row,
                                             responses: seq<ActionResponse>)
    requires i <= |outcomes|
    ensures Run(env, requestType, outcomes, i, ctx, responses).responses == []
            || responses <= Run(env, requestType, outcomes, i, ctx, responses).responses
    decreases |outcomes| - i
  {
    if i < |outcomes| {
      StepKeepsResponses(env, requestType, i, outcomes[i], ctx, responses);
      match Step(env, requestType, i, outcomes[i], ctx, responses)
      case Stop(_) =>
      case Next(c, rs) =>
        RunKeepsResponses(env, requestType, outcomes, i + 1, c, rs);
    }
  }

  // --------------------------------------------------------------- methods

  /** The in-field loop that fills missing columns from the request form. */
  method FillInFields(attrs: Row, fields: seq<InField>, form: map<string, string>) returns (r: Row)
    ensures r == Filled(attrs, fields, form)
  {
    r := attrs;
    for i := 0 to |fields|
      invariant r == Filled(attrs, fields[..i], form)
    {
      assert fields[..i + 1][..i] == fields[..i];
      var column := fields[i].columnName;
      if column !in r {
        r := r[column := Str(FormGet(form, column))];
      }
    }
    assert fields[..|fields|] == fields;
  }

  /** The validation loop: the first failing validation's tag. */
  method Validate(attrs: Row, validations: seq<ColumnTags>, validate: (Value, Row, string) -> Option<string>)
    returns (failed: Option<string>)
    ensures failed == FirstInvalid(attrs, validations, validate)
  {
    for i := 0 to |validations|
      invariant FirstInvalid(attrs, validations[..i], validate) == None
    {
      assert validations[..i + 1][..i] == validations[..i];
      var errs := validate(Lookup(attrs, validations[i].columnName), attrs, validations[i].tags);
      if errs.Some? {
        FirstInvalidPrefix(attrs, validations, validate, i + 1);
        return errs;
      }
    }
    assert validations[..|validations|] == validations;
    failed := None;
  }

  lemma FirstInvalidPrefix(attrs: Row, validations: seq<ColumnTags>, validate: (Value, Row, string) -> Option<string>, n: nat)
    requires n <= |validations| && FirstInvalid(attrs, validations[..n], validate).Some?
    ensures FirstInvalid(attrs, validations, validate) == FirstInvalid(attrs, validations[..n], validate)
    decreases |validations| - n
  {
    if n < |validations| {
      assert validations[..n + 1][..n] == validations[..n];
      FirstInvalidPrefix(attrs, validations, validate, n + 1);
    } else {
      assert validations[..n] == validations;
    }
  }

  /** The conformation loop. */
  method Conform(attrs: Row, cs: seq<ColumnTags>, conform: (string, string) -> string) returns (r: Row)
    ensures r == Conformed(attrs, cs, conform)
  {
    r := attrs;
    for i := 0 to |cs|
      invariant r == Conformed(attrs, cs[..i], conform)
    {
      assert cs[..i + 1][..i] == cs[..i];
      var column := cs[i].columnName;
      if column in r && r[column].Str? {
        r := r[column := Str(conform(r[column].s, cs[i].tags))];
      }
    }
    assert cs[..|cs|] == cs;
  }

  /** Everything before the outcome loop, step by step. */
  method PrepareRequest(checks: Checks, req: ActionRequest) returns (r: Result<Prepared>)
    ensures r == Prepare(checks, req)
  {
    var admitted := Admit(checks, req);
    if admitted.Err? {
      return Err(admitted.error);
    }
    var action := admitted.value.action;
    var filled := FillInFields(req.attributes, action.inFields, checks.form);
    var failed := Validate(filled, action.validations, checks.validate);
    if failed.Some? {
      return Err(HttpError(400, failed.value));
    }
    var attrs := Conform(filled, action.conformations, checks.conform);
    var inFieldMap := GetValidatedInFields(attrs, action.inFields);
    if inFieldMap.Err? {
      return Err(Panic(NilMapPanic));
    }
    var ctx := inFieldMap.value["attributes" := Map(attrs)];
    if checks.userReferenceId != "" {
      var user := checks.userObject(checks.userReferenceId);
      if user.None? {
        return Err(HttpError(401, "failed to identify user"));
      }
      ctx := ctx["user" := Map(user.value)];
    }
    var subject := admitted.value.subject;
    if subject.Some? {
      ctx := ctx[SubjectKey(req) := Lookup(subject.value, "reference_id")];
      ctx := ctx["subject" := Map(subject.value)];
    }
    r := Ok(Prepared(action, ctx));
  }

  /** The condition gate of the outcome loop. */
  method CheckCondition(o: Outcome, ctx: Row, run: ScriptRunner) returns (r: Result<bool>)
    ensures r == Gate(o, ctx, run)
  {
    if |o.condition| == 0 {
      return Ok(true);
    }
    var outcomeResult := EvaluateString(o.condition, ctx, run);
    if outcomeResult.Err? {
      if outcomeResult.error.Panic? {
        return Err(outcomeResult.error);
      }
      return Ok(false);
    }
    var value := outcomeResult.value;
    if value.Bool? {
      r := Ok(value.b);
    } else if value.Str? {
      r := Ok(value.s == "1" || ToLower(TrimSpace(value.s)) == "true");
    } else {
      r := Ok(false);
    }
  }

  /** One pass of the outcome loop. */
  method RunOutcome(env: Env, requestType: string, i: nat, o: Outcome, ctx: Row, responses: seq<ActionResponse>)
    returns (flow: Flow)
    ensures flow == Step(env, requestType, i, o, ctx, responses)
  {
    var runs := CheckCondition(o, ctx, env.run);
    if runs.Err? {
      return Stop(Reply([], Some(runs.error)));
    }
    if !runs.value {
      return Next(ctx, responses);
    }
    flow := AttemptOutcome(env, requestType, i, o, ctx, responses);
  }

  /** An outcome past its gate: built, then dispatched. */
  method AttemptOutcome(env: Env, requestType: string, i: nat, o: Outcome, ctx: Row, responses: seq<ActionResponse>)
    returns (flow: Flow)
    ensures flow == Attempt(env, requestType, i, o, ctx, responses)
  {
    var built := MakeOutcome(ctx, o, env.run, env.writeSchema);
    if built.Err? {
      if built.error.Panic? {
        return Stop(Reply([], Some(built.error)));
      }
      if o.continueOnError {
        return Next(ctx, responses + [BuildFailedResponse(o)]);
      }
      return Stop(Reply([], Some(InvalidInput(o.otype))));
    }
    var d := DispatchOutcome(env, i, requestType, o, built.value, responses);
    flow := SettleOutcome(o, d, ctx, responses);
  }

  /** The responses appended and the result published. */
  method SettleOutcome(o: Outcome, d: Dispatched, ctx: Row, responses: seq<ActionResponse>) returns (flow: Flow)
    ensures flow == Settle(o, d, ctx, responses)
  {
    if d.Halt? {
      return Stop(d.reply);
    }
    if d.Skipped? {
      return Next(ctx, responses);
    }
    var rs := responses;
    if !o.skipInResponse {
      rs := rs + d.actionResponses;
    }
    if d.err.Some? {
      return Stop(Reply(rs, d.err));
    }
    var published := PublishResponses(ctx, o.reference, d.actionResponses);
    published := PublishObjects(published, o.reference, d.objects);
    flow := Next(published, rs);
  }

  /** `HandleActionRequest`: the checks, then the outcome loop. */
  method HandleActionRequest(checks: Checks, env: Env, req: ActionRequest) returns (reply: Reply)
    ensures reply == Handle(checks, env, req)
  {
    var prepared := PrepareRequest(checks, req);
    if prepared.Err? {
      return Reply([], Some(prepared.error));
    }
    var outcomes := prepared.value.action.outFields;
    var ctx := prepared.value.ctx;
    var responses: seq<ActionResponse> := [];
    for i := 0 to |outcomes|
      invariant Run(env, req.actionType, outcomes, 0, prepared.value.ctx, []) == Run(env, req.actionType, outcomes, i, ctx, responses)
    {
      var flow := RunOutcome(env, req.actionType, i, outcomes[i], ctx, responses);
      if flow.Stop? {
        return flow.reply;
      }
      ctx := flow.ctx;
      responses := flow.responses;
    }
    reply := Reply(responses, None);
  }
}
