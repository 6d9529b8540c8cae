/** The declarative parts of an action (its in-fields, validations,
    conformations and outcomes), the request and response records, and the
    three steps around the outcome loop: `GetValidatedInFields`, `BuildOutcome`
    and the attribute merge of `BuildActionRequest`. */
module Actions {
  import opened Text
  import opened Values
  import opened Evaluate
  import opened ContextBuilder

  /** A declared input column of an action. */
  datatype InField = InField(name: string, columnName: string, defaultValue: string, isNullable: bool)

  /** A validator tag list, or a conform tag list, applied to one column. */
  datatype ColumnTags = ColumnTags(columnName: string, tags: string)

  /** One step of an action: what to build (`attributes`, a template; `None`
      when the action gives none, a nil map), where to send it (`otype`, and
      `verb`, the method named in the action), when (`condition`) and where to
      publish its result (`reference`). */
  datatype Outcome = Outcome(
    otype: string,
    verb: string,
    attributes: Option<Row>,
    condition: string,
    reference: string,
    skipInResponse: bool,
    continueOnError: bool)
  {
    /** The template the builder ranges over: a nil map has no entries. */
    function Template(): Row
    {
      if attributes.Some? then attributes.value else map[]
    }
  }

  datatype Action = Action(
    name: string,
    onType: string,
    instanceOptional: bool,
    inFields: seq<InField>,
    validations: seq<ColumnTags>,
    conformations: seq<ColumnTags>,
    outFields: seq<Outcome>)

  datatype ActionRequest = ActionRequest(actionType: string, actionName: string, attributes: Row)

  datatype ActionResponse = ActionResponse(responseType: string, attributes: Value)

  /** `NewClientNotification`: the map a client shows as a notification. */
  function NewClientNotification(notificationType: string, message: string, title: string): (m: Row)
    ensures m.Keys == {"type", "message", "title"}
    ensures Lookup(m, "type") == Str(notificationType)
    ensures Lookup(m, "message") == Str(message)
    ensures Lookup(m, "title") == Str(title)
  {
    map["type" := Str(notificationType), "message" := Str(message), "title" := Str(title)]
  }

  // ---------------------------------------------------------------- in-fields

  /** An in-field the request may leave out: it has a default or is nullable. */
  predicate MayBeAbsent(f: InField)
  {
    f.defaultValue != "" || f.isNullable
  }

  /** What the in-field check demands of one field. */
  predicate Acceptable(attrs: Row, f: InField)
  {
    f.columnName in attrs || MayBeAbsent(f)
  }

  /** The in-field check over `fields` in declaration order. */
  function ValidatedInFields(attrs: Row, fields: seq<InField>): (r: Result<Row>)
    ensures r.Ok? <==> forall j :: 0 <= j < |fields| ==> Acceptable(attrs, fields[j])
    ensures r.Err? ==> r.error.FieldBlank?
  {
    if |fields| == 0 then Ok(map[])
    else
      var init := ValidatedInFields(attrs, fields[..|fields| - 1]);
      var f := fields[|fields| - 1];
      if init.Err? then init
      else if f.columnName in attrs then Ok(init.value[f.columnName := attrs[f.columnName]])
      else if MayBeAbsent(f) then init
      else Err(FieldBlank(f.name))
  }

  /** The column names of the declared in-fields. */
  function ColumnNames(fields: seq<InField>): set<string>
  {
    set j | 0 <= j < |fields| :: fields[j].columnName
  }

  /** The request attributes restricted to the declared columns. */
  function Restricted(attrs: Row, columns: set<string>): Row
  {
    map k | k in attrs && k in columns :: attrs[k]
  }

  /** A passing check copies exactly the declared columns the request has, with
      their values; absent fields with a default get no value. */
  lemma {:induction false} ValidatedIsRestriction(attrs: Row, fields: seq<InField>)
    requires ValidatedInFields(attrs, fields).Ok?
    ensures ValidatedInFields(attrs, fields).value == Restricted(attrs, ColumnNames(fields))
  {
    if |fields| > 0 {
      var init := fields[..|fields| - 1];
      ValidatedIsRestriction(attrs, init);
      assert ColumnNames(fields) == ColumnNames(init) + {fields[|fields| - 1].columnName} by {
        forall c | c in ColumnNames(fields) ensures c in ColumnNames(init) + {fields[|fields| - 1].columnName} {
          var j :| 0 <= j < |fields| && fields[j].columnName == c;
          if j < |fields| - 1 {
            assert init[j] == fields[j];
          }
        }
        forall c | c in ColumnNames(init) ensures c in ColumnNames(fields) {
          var j :| 0 <= j < |init| && init[j].columnName == c;
          assert fields[j] == init[j];
        }
      }
    }
  }

  /** `j` is the first field the check rejects. */
  predicate FirstBlank(attrs: Row, fields: seq<InField>, j: int)
  {
    0 <= j < |fields| && !Acceptable(attrs, fields[j])
    && forall i :: 0 <= i < j ==> Acceptable(attrs, fields[i])
  }

  /** A failing check names the first unacceptable field, by its name (not its column). */
  lemma {:induction false} ValidatedReportsFirstBlank(attrs: Row, fields: seq<InField>)
    requires ValidatedInFields(attrs, fields).Err?
    ensures exists j :: FirstBlank(attrs, fields, j) && ValidatedInFields(attrs, fields).error == FieldBlank(fields[j].name)
  {
    var init := fields[..|fields| - 1];
    if ValidatedInFields(attrs, init).Err? {
      ValidatedReportsFirstBlank(attrs, init);
      var j :| FirstBlank(attrs, init, j) && ValidatedInFields(attrs, init).error == FieldBlank(init[j].name);
      assert fields[j] == init[j];
      assert forall i :: 0 <= i < j ==> fields[i] == init[i];
      assert FirstBlank(attrs, fields, j);
    } else {
      assert forall i :: 0 <= i < |init| ==> fields[i] == init[i];
      assert FirstBlank(attrs, fields, |fields| - 1);
    }
  }

  /** `GetValidatedInFields`: the loop over the declared in-fields. */
  method GetValidatedInFields(attrs: Row, fields: seq<InField>) returns (r: Result<Row>)
    ensures r == ValidatedInFields(attrs, fields)
  {
    var finalDataMap: Row := map[];
    for i := 0 to |fields|
      invariant ValidatedInFields(attrs, fields[..i]) == Ok(finalDataMap)
    {
      assert fields[..i + 1][..i] == fields[..i];
      var inField := fields[i];
      if inField.columnName in attrs {
        finalDataMap := finalDataMap[inField.columnName := attrs[inField.columnName]];
      } else if inField.defaultValue != "" {
      } else if inField.isNullable {
      } else {
        ValidatedPrefix(attrs, fields, i + 1);
        return Err(FieldBlank(inField.name));
      }
    }
    assert fields[..|fields|] == fields;
    r := Ok(finalDataMap);
  }

  /** The check fails with the same error as soon as a prefix of the fields fails. */
  lemma ValidatedPrefix(attrs: Row, fields: seq<InField>, n: nat)
    requires n <= |fields| && ValidatedInFields(attrs, fields[..n]).Err?
    ensures ValidatedInFields(attrs, fields) == ValidatedInFields(attrs, fields[..n])
    decreases |fields| - n
  {
    if n < |fields| {
      assert fields[..n + 1][..n] == fields[..n];
      ValidatedPrefix(attrs, fields, n + 1);
    } else {
      assert fields[..n] == fields;
    }
  }

  // ------------------------------------------------------------ BuildOutcome

  /** A record for the store or a performer: the entity type and its data. */
  datatype Model = Model(typeName: string, data: Row)

  /** What `BuildOutcome` returns: the model and the HTTP method (`verb`) of the request it builds. */
  datatype BuiltOutcome = BuiltOutcome(model: Model, verb: string)

  /** The file step of `system_json_schema_update` (decoding and writing each
      schema file): an error or nothing. */
  type SchemaWriter = seq<Value> -> Option<Error>

  /** Outcome types answered directly to the client. */
  const ResponseTypes: set<string> := {"action.response", "client.redirect", "client.store.set", "client.notify"}

  /** Outcome types sent to a performer whatever the outcome's method says. */
  const ExecuteTypes: set<string> := {"__download_cms_config", "__become_admin"}

  const SchemaUpdateType := "system_json_schema_update"

  /** `BuildOutcome`: the outcome's attribute map resolved against the
      context, then routed. (The attributes are a map, so the builder returns a
      map and the type assertion on its result always holds.) */
  function BuildOutcome(ctx: Row, o: Outcome, run: ScriptRunner, writeSchema: SchemaWriter): (r: Result<BuiltOutcome>)
    ensures Build(Map(o.Template()), ctx, run).Err? ==> r == Err(Build(Map(o.Template()), ctx, run).error)
    ensures Build(Map(o.Template()), ctx, run).Ok?
            ==> Build(Map(o.Template()), ctx, run).value.Map?
                && r == Route(o, Build(Map(o.Template()), ctx, run).value.m, writeSchema)
  {
    match BuildEntries(Map(o.Template()), 0, ctx, run)
    case Err(e) => Err(e)
    case Ok(attrs) => Route(o, attrs, writeSchema)
  }

  /** `BuildOutcome` step by step: the context builder, then the routing. */
  method MakeOutcome(ctx: Row, o: Outcome, run: ScriptRunner, writeSchema: SchemaWriter) returns (r: Result<BuiltOutcome>)
    ensures r == BuildOutcome(ctx, o, run, writeSchema)
  {
    var attrInterface := BuildActionContext(Map(o.Template()), ctx, run);
    if attrInterface.Err? {
      return Err(attrInterface.error);
    }
    r := Route(o, attrInterface.value.m, writeSchema);
  }

  /** The outcome type decides the model and the request method: the client
      response types become `ACTIONRESPONSE`, the admin types `EXECUTE`, the
      schema update an `EXECUTE` of `__restart`, and any other type keeps the
      method the outcome names. */
  function Route(o: Outcome, attrs: Row, writeSchema: SchemaWriter): (r: Result<BuiltOutcome>)
    ensures o.otype in ResponseTypes ==> r == Ok(BuiltOutcome(Model(o.otype, attrs), "ACTIONRESPONSE"))
    ensures o.otype in ExecuteTypes ==> r == Ok(BuiltOutcome(Model(o.otype, attrs), "EXECUTE"))
    ensures o.otype == SchemaUpdateType ==> r == SchemaUpdate(attrs, writeSchema)
    ensures o.otype != SchemaUpdateType && o.otype !in ResponseTypes && o.otype !in ExecuteTypes
            ==> r == Ok(BuiltOutcome(Model(o.otype, attrs), o.verb))
    ensures r.Err? ==> o.otype == SchemaUpdateType
  {
    if o.otype == SchemaUpdateType then SchemaUpdate(attrs, writeSchema)
    else if o.otype in ExecuteTypes then Ok(BuiltOutcome(Model(o.otype, attrs), "EXECUTE"))
    else if o.otype in ResponseTypes then Ok(BuiltOutcome(Model(o.otype, attrs), "ACTIONRESPONSE"))
    else Ok(BuiltOutcome(Model(o.otype, attrs), o.verb))
  }

  /** The schema-update branch: at least one file must be attached under `json_schema`. */
  function SchemaUpdate(attrs: Row, writeSchema: SchemaWriter): (r: Result<BuiltOutcome>)
    ensures !Lookup(attrs, "json_schema").List? ==> r == Err(NoFilesUploaded)
    ensures Lookup(attrs, "json_schema") == List([]) ==> r == Err(NoFilesUploaded)
    ensures r.Ok? <==> Lookup(attrs, "json_schema").List? && |attrs["json_schema"].items| > 0
                       && writeSchema(attrs["json_schema"].items).None?
    ensures r.Ok? ==> r.value == BuiltOutcome(Model("__restart", map[]), "EXECUTE")
  {
    if "json_schema" !in attrs then Err(NoFilesUploaded)
    else
      var files := attrs["json_schema"];
      if !files.List? || |files.items| < 1 then Err(NoFilesUploaded)
      else match writeSchema(files.items)
        case Some(e) => Err(e)
        case None => Ok(BuiltOutcome(Model("__restart", map[]), "EXECUTE"))
  }

  // ------------------------------------------------------ BuildActionRequest

  /** The request body once decoded: a JSON object (its `attributes` member and
      its top-level members), form values with the raw text, or neither. */
  datatype Body =
    | JsonBody(jsonAttributes: Row, members: Row)
    | FormBody(values: map<string, seq<string>>, raw: string)
    | Undecodable
    | Unreadable(message: string)

  /** A path parameter of the route. */
  datatype Param = Param(key: string, value: string)

  /** The form decoder never yields an empty list of values for a key. */
  predicate WellFormedBody(body: Body)
  {
    body.FormBody? ==> forall k :: k in body.values ==> |body.values[k]| > 0
  }

  /** A form field: one value as a string, several as a `[]string`. */
  function FormValue(vals: seq<string>): Value
    requires |vals| > 0
  {
    if |vals| > 1 then Strings(vals) else Str(vals[0])
  }

  /** A query parameter: exactly one value as a string, otherwise (even none) a `[]string`. */
  function QueryValue(vals: seq<string>): Value
  {
    if |vals| == 1 then Str(vals[0]) else Strings(vals)
  }

  /** The form values decoded so far: those whose keys are no longer pending. */
  function FormDone(values: map<string, seq<string>>, pending: set<string>): Row
    requires forall k :: k in values ==> |values[k]| > 0
  {
    map k | k in values && k !in pending :: FormValue(values[k])
  }

  /** The JSON top-level members copied so far, `attributes` excepted. */
  function MembersDone(members: Row, pending: set<string>): Row
  {
    map k | k in members && k !in pending && k != "attributes" :: members[k]
  }

  /** The query parameters copied so far. */
  function QueryDone(query: map<string, seq<string>>, pending: set<string>): Row
  {
    map k | k in query && k !in pending :: QueryValue(query[k])
  }

  /** The attributes the body contributes: for JSON, its `attributes` member
      overwritten by the other top-level members; for a form, every field plus
      the raw text under `__body`. */
  function BodyAttributes(body: Body): Row
    requires WellFormedBody(body) && !body.Unreadable?
  {
    match body
    case JsonBody(attrs, members) => attrs + MembersDone(members, {})
    case FormBody(values, raw) => FormDone(values, {})["__body" := Str(raw)]
    case Undecodable => map[]
  }

  /** The path parameters applied in order; a later one with the same key wins. */
  function WithParams(attrs: Row, params: seq<Param>): Row
  {
    if |params| == 0 then attrs
    else WithParams(attrs, params[..|params| - 1])[params[|params| - 1].key := Str(params[|params| - 1].value)]
  }

  /** The request `BuildActionRequest` returns: body, then path parameters, then query parameters. */
  function ActionRequestOf(body: Body, actionType: string, actionName: string,
                           params: seq<Param>, query: map<string, seq<string>>): Result<ActionRequest>
    requires WellFormedBody(body)
  {
    if body.Unreadable? then Err(External(body.message))
    else Ok(ActionRequest(actionType, actionName,
                          WithParams(BodyAttributes(body), params) + QueryDone(query, {})))
  }

  /** `j` is the last path parameter with key `k`. */
  predicate LastParam(params: seq<Param>, k: string, j: int)
  {
    0 <= j < |params| && params[j].key == k
    && forall i :: j < i < |params| ==> params[i].key != k
  }

  lemma {:induction false} WithParamsLast(attrs: Row, params: seq<Param>, k: string, j: int)
    requires LastParam(params, k, j)
    ensures k in WithParams(attrs, params) && WithParams(attrs, params)[k] == Str(params[j].value)
  {
    var init := params[..|params| - 1];
    if j < |params| - 1 {
      assert forall i :: j < i < |init| ==> init[i] == params[i];
      assert LastParam(init, k, j);
      WithParamsLast(attrs, init, k, j);
    }
  }

  lemma {:induction false} WithParamsAbsent(attrs: Row, params: seq<Param>, k: string)
    requires forall i :: 0 <= i < |params| ==> params[i].key != k
    ensures k in WithParams(attrs, params) <==> k in attrs
    ensures k in attrs ==> WithParams(attrs, params)[k] == attrs[k]
  {
    if |params| > 0 {
      var init := params[..|params| - 1];
      assert forall i :: 0 <= i < |init| ==> init[i] == params[i];
      WithParamsAbsent(attrs, init, k);
    }
  }

  /** Query parameters override path parameters, which override the body. */
  lemma AttributePrecedence(body: Body, actionType: string, actionName: string,
                            params: seq<Param>, query: map<string, seq<string>>, k: string)
    requires WellFormedBody(body) && !body.Unreadable?
    ensures ActionRequestOf(body, actionType, actionName, params, query).Ok?
    ensures k in query ==> Lookup(ActionRequestOf(body, actionType, actionName, params, query).value.attributes, k)
                           == QueryValue(query[k])
    ensures forall j :: k !in query && LastParam(params, k, j)
                        ==> Lookup(ActionRequestOf(body, actionType, actionName, params, query).value.attributes, k)
                            == Str(params[j].value)
    ensures k !in query && (forall i :: 0 <= i < |params| ==> params[i].key != k)
            ==> Lookup(ActionRequestOf(body, actionType, actionName, params, query).value.attributes, k)
                == Lookup(BodyAttributes(body), k)
  {
    forall j | k !in query && LastParam(params, k, j) {
      WithParamsLast(BodyAttributes(body), params, k, j);
    }
    if forall i :: 0 <= i < |params| ==> params[i].key != k {
      WithParamsAbsent(BodyAttributes(body), params, k);
    }
  }

  /** In a JSON body a top-level member overrides the same key of `attributes`;
      the `attributes` key itself is never copied. A form body keeps its raw text
      under `__body`. */
  lemma BodyPrecedence(body: Body, k: string)
    requires WellFormedBody(body) && !body.Unreadable?
    ensures body.JsonBody? && k in body.members && k != "attributes"
            ==> Lookup(BodyAttributes(body), k) == body.members[k]
    ensures body.JsonBody? && (k !in body.members || k == "attributes")
            ==> Lookup(BodyAttributes(body), k) == Lookup(body.jsonAttributes, k)
    ensures body.FormBody? && k != "__body" && k in body.values
            ==> Lookup(BodyAttributes(body), k) == FormValue(body.values[k])
    ensures body.FormBody? ==> Lookup(BodyAttributes(body), "__body") == Str(body.raw)
    ensures body.Undecodable? ==> BodyAttributes(body) == map[]
  {
  }

  lemma FormStep(values: map<string, seq<string>>, pending: set<string>, k: string)
    requires forall k :: k in values ==> |values[k]| > 0
    requires k in pending && k in values
    ensures FormDone(values, pending)[k := FormValue(values[k])] == FormDone(values, pending - {k})
  {
  }

  lemma MembersStep(base: Row, members: Row, pending: set<string>, k: string)
    requires k in pending && k in members && k != "attributes"
    ensures (base + MembersDone(members, pending))[k := members[k]] == base + MembersDone(members, pending - {k})
  {
  }

  lemma MembersSkip(base: Row, members: Row, pending: set<string>)
    requires "attributes" in pending
    ensures base + MembersDone(members, pending) == base + MembersDone(members, pending - {"attributes"})
  {
    assert MembersDone(members, pending) == MembersDone(members, pending - {"attributes"});
  }

  lemma QueryStep(base: Row, query: map<string, seq<string>>, pending: set<string>, k: string)
    requires k in pending && k in query
    ensures (base + QueryDone(query, pending))[k := QueryValue(query[k])] == base + QueryDone(query, pending - {k})
  {
  }

  /** `BuildActionRequest`, short of reading and decoding the body: the body's
      attributes, then each path parameter, then each query parameter. Map
      entries are visited in an arbitrary order, as Go ranges over a map. */
  method BuildActionRequest(body: Body, actionType: string, actionName: string,
                            params: seq<Param>, query: map<string, seq<string>>)
    returns (r: Result<ActionRequest>)
    requires WellFormedBody(body)
    ensures r == ActionRequestOf(body, actionType, actionName, params, query)
  {
    if body.Unreadable? {
      return Err(External(body.message));
    }
    var attributes: Row := map[];
    if body.JsonBody? {
      attributes := body.jsonAttributes;
      var pending := body.members.Keys;
      assert attributes + MembersDone(body.members, pending) == attributes;
      while pending != {}
        invariant pending <= body.members.Keys
        invariant attributes == body.jsonAttributes + MembersDone(body.members, pending)
        decreases pending
      {
        var k :| k in pending;
        if k == "attributes" {
          MembersSkip(body.jsonAttributes, body.members, pending);
        } else {
          MembersStep(body.jsonAttributes, body.members, pending, k);
          attributes := attributes[k := body.members[k]];
        }
        pending := pending - {k};
      }
    } else if body.FormBody? {
      var pending := body.values.Keys;
      assert FormDone(body.values, pending) == map[];
      while pending != {}
        invariant pending <= body.values.Keys
        invariant attributes == FormDone(body.values, pending)
        decreases pending
      {
        var k :| k in pending;
        var val := body.values[k];
        FormStep(body.values, pending, k);
        if |val| > 1 {
          attributes := attributes[k := Strings(val)];
        } else {
          attributes := attributes[k := Str(val[0])];
        }
        pending := pending - {k};
      }
      attributes := attributes["__body" := Str(body.raw)];
    }
    assert attributes == BodyAttributes(body);
    for i := 0 to |params|
      invariant attributes == WithParams(BodyAttributes(body), params[..i])
    {
      assert params[..i + 1][..i] == params[..i];
      attributes := attributes[params[i].key := Str(params[i].value)];
    }
    assert params[..|params|] == params;
    ghost var base := attributes;
    var pending := query.Keys;
    assert base + QueryDone(query, pending) == base;
    while pending != {}
      invariant pending <= query.Keys
      invariant attributes == base + QueryDone(query, pending)
      decreases pending
    {
      var k :| k in pending;
      var valueArray := query[k];
      QueryStep(base, query, pending, k);
      if |valueArray| == 1 {
        attributes := attributes[k := Str(valueArray[0])];
      } else {
        attributes := attributes[k := Strings(valueArray)];
      }
      pending := pending - {k};
    }
    r := Ok(ActionRequest(actionType, actionName, attributes));
  }
}
