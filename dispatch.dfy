/** One outcome of `HandleActionRequest` once its model is built: the switch on
    the outcome's method (store calls, performers, direct responses) and the
    publishing of its result under the outcome's reference. The store and the
    performers are functions of the outcome's position in the action, so that
    whatever they remember between outcomes of one run can be expressed. */
module OutcomeDispatch {
  import opened Text
  import opened Values
  import opened Evaluate
  import opened Actions

  /** A store result once the `api2go.Response` around it is unwrapped: nothing,
      one row (`map[string]interface{}`), a list of rows
      (`[]map[string]interface{}`) or any other value. */
  datatype ResponseObject = NoObject | Single(row: Row) | Rows(rows: seq<Row>) | Other(other: Value)

  /** `Create` and `Update`: the row written, or the error text. */
  datatype RowReply = RowOk(row: Row) | RowFailed(message: string)

  /** `PaginatedFindAllWithoutFilters` and `GetSingleRowByReferenceId`. */
  datatype FindReply = FindOk(found: ResponseObject) | FindFailed(failure: string)

  /** What a performer's responder holds: nothing, a model's data, or something else. */
  datatype Responder = NoResponder | ModelResponder(data: Row) | OtherResponder

  /** `DoAction`'s three results; `errors` is `None` for a nil error slice. */
  datatype PerformerReply = PerformerReply(responder: Responder, responses: seq<ActionResponse>, errors: Option<seq<string>>)

  type Performer = (nat, Outcome, Row) -> PerformerReply

  /** The collaborators of the outcome loop. */
  datatype Env = Env(
    run: ScriptRunner,
    writeSchema: SchemaWriter,
    toJson: Value -> string,
    create: (nat, string, Model, string) -> RowReply,
    find: (nat, string, map<string, string>) -> FindReply,
    getById: (nat, string, string) -> FindReply,
    update: (nat, string, Model, string) -> RowReply,
    delete: (nat, string, string) -> Option<string>,
    performers: map<string, Performer>,
    sessionUser: Value)

  /** What `HandleActionRequest` returns: the responses and the error, if any. */
  datatype Reply = Reply(responses: seq<ActionResponse>, error: Option<Error>)

  /** The outcome of the switch: the outcome's own responses, its result and
      its error; or a return from the whole request; or a skip to the next outcome. */
  datatype Dispatched =
    | Done(actionResponses: seq<ActionResponse>, objects: ResponseObject, err: Option<Error>)
    | Halt(reply: Reply)
    | Skipped

  const StringAssertionPanic := "interface conversion: interface {} is not string"
  const ModelAssertionPanic := "interface conversion: api2go.Responder result is not *api2go.Api2GoModel"
  const FirstErrorPanic := "index out of range [0] with length 0"
  const NilMapPanic := "assignment to entry in nil map"

  /** The methods the switch knows; any other method goes to the handler registered for the outcome type. */
  const KnownMethods: set<string> := {"POST", "GET", "GET_BY_ID", "PATCH", "DELETE", "EXECUTE", "ACTIONRESPONSE"}

  function Notify(kind: string, message: string, title: string): (r: ActionResponse)
    ensures r.responseType == "client.notify" && r.attributes.Map?
  {
    ActionResponse("client.notify", Map(NewClientNotification(kind, message, title)))
  }

  /** A failed store call: an error notification is added and the loop ends without an error. */
  function StoreFailure(responses: seq<ActionResponse>, message: string): Dispatched
  {
    Halt(Reply(responses + [Notify("error", message, "Failed")], None))
  }

  function Panicked(site: string): Dispatched
  {
    Halt(Reply([], Some(Panic(site))))
  }

  /** The value a store result contributes as a response's attributes. */
  function ObjectValue(obj: ResponseObject): Value
  {
    match obj
    case NoObject => Null
    case Single(r) => Map(r)
    case Rows(rs) => List(RowValues(rs))
    case Other(v) => v
  }

  function RowValues(rs: seq<Row>): (r: seq<Value>)
    ensures |r| == |rs| && forall j :: 0 <= j < |rs| ==> r[j] == Map(rs[j])
  {
    if |rs| == 0 then [] else RowValues(rs[..|rs| - 1]) + [Map(rs[|rs| - 1])]
  }

  /** The query parameters a GET outcome sends: `query` as JSON, every other entry as `%v` text. */
  function QueryParamsOf(data: Row, toJson: Value -> string): map<string, string>
  {
    map k | k in data :: if k == "query" then toJson(data[k]) else Format(data[k])
  }

  /** The written row's `__type` names the response; it must be a string. */
  function CreatedRow(reply: RowReply, responses: seq<ActionResponse>, failure: string, name: string): Dispatched
  {
    match reply
    case RowFailed(msg) => StoreFailure(responses, failure + name + ". " + msg)
    case RowOk(row) =>
      if !Lookup(row, "__type").Str? then Panicked(StringAssertionPanic)
      else Done([ActionResponse(row["__type"].s, Map(row))], Single(row), None)
  }

  function Found(reply: FindReply, responses: seq<ActionResponse>, failure: string, name: string, requestType: string): Dispatched
  {
    match reply
    case FindFailed(msg) => StoreFailure(responses, failure + name + ". " + msg)
    case FindOk(obj) => Done([ActionResponse(requestType, ObjectValue(obj))], obj, None)
  }

  /** The switch on the outcome's method, for the outcome at position `i`. */
  function Dispatch(env: Env, i: nat, requestType: string, o: Outcome, b: BuiltOutcome,
                    responses: seq<ActionResponse>): (d: Dispatched)
    ensures d.Halt? && d.reply.error.None?
            ==> |d.reply.responses| == |responses| + 1 && d.reply.responses[..|responses|] == responses
                && d.reply.responses[|responses|].responseType == "client.notify"
  {
    var model := b.model;
    var data := model.data;
    if o.verb == "POST" then
      CreatedRow(env.create(i, o.otype, model, b.verb), responses, "Failed to create ", model.typeName)
    else if o.verb == "GET" then
      Found(env.find(i, o.otype, QueryParamsOf(data, env.toJson)), responses, "Failed to get ", model.typeName, requestType)
    else if o.verb == "GET_BY_ID" then
      if Lookup(data, "reference_id") == Null then
        Halt(Reply([], Some(HttpError(400, "no reference id provided for GET_BY_ONE"))))
      else if Lookup(data, "included_relations") != Null && !data["included_relations"].Str? then
        Panicked(StringAssertionPanic)
      else if !data["reference_id"].Str? then Panicked(StringAssertionPanic)
      else Found(env.getById(i, o.otype, data["reference_id"].s), responses, "Failed to create ", model.typeName, requestType)
    else if o.verb == "PATCH" then
      CreatedRow(env.update(i, o.otype, model, b.verb), responses, "Failed to update ", model.typeName)
    else if o.verb == "DELETE" then
      if !Lookup(data, "reference_id").Str? then Panicked(StringAssertionPanic)
      else (match env.delete(i, o.otype, data["reference_id"].s)
            case Some(_) => StoreFailure(responses, "Failed to delete " + model.typeName)
            case None => Done([Notify("success", "Deleted " + model.typeName, "Success")], NoObject, None))
    else if o.verb == "EXECUTE" then
      if model.typeName !in env.performers then Done([], NoObject, None)
      else if o.attributes.None? then Panicked(NilMapPanic)
      else Executed(env.performers[model.typeName](i, WithUser(o, env.sessionUser), data))
    else if o.verb == "ACTIONRESPONSE" then
      Done([ActionResponse(model.typeName, Map(data))], NoObject, None)
    else if o.otype !in env.performers then Skipped
    else Handled(env.performers[o.otype](i, o, data))
  }

  /** The outcome an `EXECUTE` performer is given: its attribute map with
      `user` set to the session user (a nil map cannot be written). */
  function WithUser(o: Outcome, user: Value): (r: Outcome)
    requires o.attributes.Some?
    ensures r.attributes == Some(o.attributes.value["user" := user])
    ensures r.otype == o.otype && r.verb == o.verb && r.condition == o.condition && r.reference == o.reference
    ensures r.skipInResponse == o.skipInResponse && r.continueOnError == o.continueOnError
  {
    o.(attributes := Some(o.attributes.value["user" := user]))
  }

  /** An `EXECUTE` performer: its responses are kept, its first error (if any)
      reported, and its responder must hold a model. */
  function Executed(reply: PerformerReply): (d: Dispatched)
    ensures d.Done? ==> d.actionResponses == reply.responses
    ensures d.Done? && reply.errors.Some? && |reply.errors.value| > 0 ==> d.err == Some(External(reply.errors.value[0]))
    ensures d.Halt? <==> reply.responder.OtherResponder?
  {
    var err := if reply.errors.Some? && |reply.errors.value| > 0 then Some(External(reply.errors.value[0])) else None;
    match reply.responder
    case NoResponder => Done(reply.responses, NoObject, err)
    case ModelResponder(d) => Done(reply.responses, Single(d), err)
    case OtherResponder => Panicked(ModelAssertionPanic)
  }

  /** The handler registered for an unknown method: any non-nil error slice
      discards its responses and reports the slice's first error. */
  function Handled(reply: PerformerReply): (d: Dispatched)
    ensures reply.errors.Some? && |reply.errors.value| > 0 ==> d == Done([], NoObject, Some(External(reply.errors.value[0])))
    ensures reply.errors.None? ==> d.Done? && d.actionResponses == reply.responses && d.err.None?
  {
    match reply.errors
    case Some(errs) =>
      if |errs| == 0 then Panicked(FirstErrorPanic) else Done([], NoObject, Some(External(errs[0])))
    case None =>
      Done(reply.responses,
           match reply.responder
           case NoResponder => NoObject
           case ModelResponder(d) => Single(d)
           case OtherResponder => Other(Null),
           None)
  }

  // ------------------------------------------------------------ publishing

  /** `<ref>[<i>]`. */
  function IndexedKey(ref: string, i: nat): string
  {
    ref + "[" + NatToString(i) + "]"
  }

  /** `response.<ref>[<i>]`. */
  function ResponseKey(ref: string, i: nat): string
  {
    IndexedKey("response." + ref, i)
  }

  /** Distinct positions have distinct indexed keys, none equal to the bare prefix. */
  lemma IndexedKeysDiffer(ref: string, i: nat, j: nat)
    ensures IndexedKey(ref, i) != ref
    ensures i != j ==> IndexedKey(ref, i) != IndexedKey(ref, j)
  {
    if i != j && IndexedKey(ref, i) == IndexedKey(ref, j) {
      var a := IndexedKey(ref, i);
      assert a[|ref| + 1..|a| - 1] == NatToString(i);
      assert a[|ref| + 1..|a| - 1] == NatToString(j);
      DigitsOfNat(i);
      DigitsOfNat(j);
    }
  }

  function AttributesOf(ars: seq<ActionResponse>): (r: seq<Value>)
    ensures |r| == |ars| && forall j :: 0 <= j < |ars| ==> r[j] == ars[j].attributes
  {
    if |ars| == 0 then [] else AttributesOf(ars[..|ars| - 1]) + [ars[|ars| - 1].attributes]
  }

  /** `response.<ref>[i]` set to the `i`-th response's attributes, for the first `n` responses. */
  function ResponseEntries(ctx: Row, ref: string, ars: seq<ActionResponse>, n: nat): Row
    requires n <= |ars|
  {
    if n == 0 then ctx else ResponseEntries(ctx, ref, ars, n - 1)[ResponseKey(ref, n - 1) := ars[n - 1].attributes]
  }

  /** `<ref>[i]` set to the `i`-th row, for the first `n` rows. */
  function RowEntries(ctx: Row, ref: string, rows: seq<Row>, n: nat): Row
    requires n <= |rows|
  {
    if n == 0 then ctx else RowEntries(ctx, ref, rows, n - 1)[IndexedKey(ref, n - 1) := Map(rows[n - 1])]
  }

  /** The responses published under the reference: each one indexed, then all as a list. */
  function PublishedResponses(ctx: Row, ref: string, ars: seq<ActionResponse>): Row
  {
    if |ars| > 0 && ref != "" then ResponseEntries(ctx, ref, ars, |ars|)[ref := List(AttributesOf(ars))]
    else ctx
  }

  /** The result published under the reference, over what the responses left. */
  function PublishedObjects(ctx: Row, ref: string, obj: ResponseObject): Row
  {
    if obj.NoObject? || ref == "" then ctx
    else match obj
      case Single(r) => ctx[ref := Map(r)]
      case Rows(rs) => RowEntries(ctx, ref, rs, |rs|)[ref := List(RowValues(rs))]
      case _ => ctx[ref := List([])]
  }

  lemma {:induction false} ResponseEntriesAt(ctx: Row, ref: string, ars: seq<ActionResponse>, n: nat, j: nat)
    requires j < n <= |ars|
    ensures ResponseKey(ref, j) in ResponseEntries(ctx, ref, ars, n)
    ensures ResponseEntries(ctx, ref, ars, n)[ResponseKey(ref, j)] == ars[j].attributes
  {
    if j < n - 1 {
      ResponseEntriesAt(ctx, ref, ars, n - 1, j);
      IndexedKeysDiffer("response." + ref, j, n - 1);
    }
  }

  /** Keys other than the indexed ones keep their values. */
  lemma {:induction false} ResponseEntriesElsewhere(ctx: Row, ref: string, ars: seq<ActionResponse>, n: nat, k: string)
    requires n <= |ars|
    requires forall j: nat :: j < n ==> k != ResponseKey(ref, j)
    ensures k in ResponseEntries(ctx, ref, ars, n) <==> k in ctx
    ensures k in ctx ==> ResponseEntries(ctx, ref, ars, n)[k] == ctx[k]
  {
    if n > 0 {
      ResponseEntriesElsewhere(ctx, ref, ars, n - 1, k);
    }
  }

  lemma {:induction false} RowEntriesAt(ctx: Row, ref: string, rows: seq<Row>, n: nat, j: nat)
    requires j < n <= |rows|
    ensures IndexedKey(ref, j) in RowEntries(ctx, ref, rows, n)
    ensures RowEntries(ctx, ref, rows, n)[IndexedKey(ref, j)] == Map(rows[j])
  {
    if j < n - 1 {
      RowEntriesAt(ctx, ref, rows, n - 1, j);
      IndexedKeysDiffer(ref, j, n - 1);
    }
  }

  /** With a reference, the list of all responses is published as `<ref>`;
      without one, or without responses, the context is unchanged. */
  lemma ResponsesPublished(ctx: Row, ref: string, ars: seq<ActionResponse>)
    ensures ref == "" || |ars| == 0 ==> PublishedResponses(ctx, ref, ars) == ctx
    ensures ref != "" && |ars| > 0 ==> Lookup(PublishedResponses(ctx, ref, ars), ref) == List(AttributesOf(ars))
  {
  }

  /** With a reference, the `j`-th response is published as `response.<ref>[j]`. */
  lemma ResponsePublishedAt(ctx: Row, ref: string, ars: seq<ActionResponse>, j: nat)
    requires ref != "" && j < |ars|
    ensures Lookup(PublishedResponses(ctx, ref, ars), ResponseKey(ref, j)) == ars[j].attributes
  {
    ResponseEntriesAt(ctx, ref, ars, |ars|, j);
    IndexedKeysDiffer("response." + ref, j, j);
  }

  /** A single row replaces `<ref>`; a list of rows is published both indexed
      and as a list; any other result leaves `<ref>` an empty list. */
  lemma ObjectsPublished(ctx: Row, ref: string, obj: ResponseObject, j: nat)
    ensures ref == "" || obj.NoObject? ==> PublishedObjects(ctx, ref, obj) == ctx
    ensures ref != "" && obj.Single? ==> Lookup(PublishedObjects(ctx, ref, obj), ref) == Map(obj.row)
    ensures ref != "" && obj.Rows? ==> Lookup(PublishedObjects(ctx, ref, obj), ref) == List(RowValues(obj.rows))
    ensures ref != "" && obj.Rows? && j < |obj.rows|
            ==> Lookup(PublishedObjects(ctx, ref, obj), IndexedKey(ref, j)) == Map(obj.rows[j])
    ensures ref != "" && obj.Other? ==> Lookup(PublishedObjects(ctx, ref, obj), ref) == List([])
  {
    if ref != "" && obj.Rows? && j < |obj.rows| {
      RowEntriesAt(ctx, ref, obj.rows, |obj.rows|, j);
      IndexedKeysDiffer(ref, j, j);
    }
  }

  // --------------------------------------------------------------- methods

  lemma QueryParamsStep(data: Row, toJson: Value -> string, pending: set<string>, k: string, acc: map<string, string>)
    requires k in pending && k in data
    requires acc == map j | j in data && j !in pending :: if j == "query" then toJson(data[j]) else Format(data[j])
    ensures acc[k := if k == "query" then toJson(data[k]) else Format(data[k])]
            == map j | j in data && j !in pending - {k} :: if j == "query" then toJson(data[j]) else Format(data[j])
  {
  }

  /** The GET outcome's query parameters, entry by entry in an arbitrary order. */
  method BuildQueryParams(data: Row, toJson: Value -> string) returns (params: map<string, string>)
    ensures params == QueryParamsOf(data, toJson)
  {
    params := map[];
    var pending := data.Keys;
    while pending != {}
      invariant pending <= data.Keys
      invariant params == map j | j in data && j !in pending :: if j == "query" then toJson(data[j]) else Format(data[j])
      decreases pending
    {
      var k :| k in pending;
      QueryParamsStep(data, toJson, pending, k, params);
      if k == "query" {
        params := params[k := toJson(data[k])];
      } else {
        params := params[k := Format(data[k])];
      }
      pending := pending - {k};
    }
  }

  /** The switch of the outcome loop. */
  method DispatchOutcome(env: Env, i: nat, requestType: string, o: Outcome, b: BuiltOutcome,
                         responses: seq<ActionResponse>) returns (d: Dispatched)
    ensures d == Dispatch(env, i, requestType, o, b, responses)
  {
    var model := b.model;
    var data := model.data;
    match o.verb {
      case "POST" =>
        var created := env.create(i, o.otype, model, b.verb);
        d := CreatedRow(created, responses, "Failed to create ", model.typeName);
      case "GET" =>
        var queryParams := BuildQueryParams(data, env.toJson);
        d := Found(env.find(i, o.otype, queryParams), responses, "Failed to get ", model.typeName, requestType);
      case "GET_BY_ID" =>
        var referenceId := Lookup(data, "reference_id");
        if referenceId == Null {
          return Halt(Reply([], Some(HttpError(400, "no reference id provided for GET_BY_ONE"))));
        }
        if Lookup(data, "included_relations") != Null && !data["included_relations"].Str? {
          return Panicked(StringAssertionPanic);
        }
        if !referenceId.Str? {
          return Panicked(StringAssertionPanic);
        }
        d := Found(env.getById(i, o.otype, referenceId.s), responses, "Failed to create ", model.typeName, requestType);
      case "PATCH" =>
        var updated := env.update(i, o.otype, model, b.verb);
        d := CreatedRow(updated, responses, "Failed to update ", model.typeName);
      case "DELETE" =>
        if !Lookup(data, "reference_id").Str? {
          return Panicked(StringAssertionPanic);
        }
        var failure := env.delete(i, o.otype, data["reference_id"].s);
        if failure.Some? {
          d := StoreFailure(responses, "Failed to delete " + model.typeName);
        } else {
          d := Done([Notify("success", "Deleted " + model.typeName, "Success")], NoObject, None);
        }
      case "EXECUTE" =>
        if model.typeName !in env.performers {
          d := Done([], NoObject, None);
        } else {
          var performer := env.performers[model.typeName];
          if o.attributes.None? {
            return Panicked(NilMapPanic);
          }
          var attributes := o.attributes.value;
          attributes := attributes["user" := env.sessionUser];
          var withUser := o.(attributes := Some(attributes));
          d := Executed(performer(i, withUser, data));
        }
      case "ACTIONRESPONSE" =>
        d := Done([ActionResponse(model.typeName, Map(data))], NoObject, None);
      case _ =>
        if o.otype !in env.performers {
          return Skipped;
        }
        var handler := env.performers[o.otype];
        d := Handled(handler(i, o, data));
    }
  }

  /** The responses published under the reference, one index at a time. */
  method PublishResponses(ctx: Row, ref: string, ars: seq<ActionResponse>) returns (r: Row)
    ensures r == PublishedResponses(ctx, ref, ars)
  {
    r := ctx;
    if |ars| > 0 && ref != "" {
      var lst: seq<Value> := [];
      for i := 0 to |ars|
        invariant r == ResponseEntries(ctx, ref, ars, i)
        invariant lst == AttributesOf(ars[..i])
      {
        assert ars[..i + 1][..i] == ars[..i];
        r := r[ResponseKey(ref, i) := ars[i].attributes];
        lst := lst + [ars[i].attributes];
      }
      assert ars[..|ars|] == ars;
      r := r[ref := List(lst)];
    }
  }

  /** The result published under the reference. */
  method PublishObjects(ctx: Row, ref: string, obj: ResponseObject) returns (r: Row)
    ensures r == PublishedObjects(ctx, ref, obj)
  {
    r := ctx;
    if !obj.NoObject? && ref != "" {
      if obj.Single? {
        r := r[ref := Map(obj.row)];
      } else {
        var finalArray: seq<Value> := [];
        if obj.Rows? {
          var rows := obj.rows;
          for i := 0 to |rows|
            invariant r == RowEntries(ctx, ref, rows, i)
            invariant finalArray == RowValues(rows[..i])
          {
            assert rows[..i + 1][..i] == rows[..i];
            finalArray := finalArray + [Map(rows[i])];
            r := r[IndexedKey(ref, i) := Map(rows[i])];
          }
          assert rows[..|rows|] == rows;
        }
        r := r[ref := List(finalArray)];
      }
    }
  }
}
