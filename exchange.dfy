/** The exchange middleware (server/resource/middleware_exchangegenerator.go):
    a registry of exchange contracts keyed by the table they watch, and the two
    interceptors that run the matching exchanges on each row of a request. */
module Exchanges {
  import opened Text
  import opened Values
  import opened Evaluate
  import opened ContextBuilder
  import OutcomeDispatch

  /** An exchange contract: which side is this database ("self"), the
      attributes of each side, and under `attributes` also the `hook`
      ("before" or "after") and the `methods` it fires on. */
  datatype ExchangeContract = ExchangeContract(
    name: string,
    sourceType: string,
    attributes: Row,
    targetType: string,
    targetAttributes: Row)

  /** `exchangeMap`: the contracts registered for each table name. */
  type ExchangeMap = map<string, seq<ExchangeContract>>

  /** The registry and the `hasExchange` set of contract names already registered. */
  datatype Registration = Registration(exchangeMap: ExchangeMap, hasExchange: set<string>)

  /** What running an exchange gives: its result row, or a failure that is only logged. */
  datatype Execution = Executed(result: Row) | ExecutionFailed(message: string)

  /** `NewExchangeExecution(exchange, cruds).Execute([row])`, which calls out to
      other services; its code is not part of this model. */
  type Executor = (ExchangeContract, Row) -> Execution

  const ListAssertionPanic := "interface conversion: interface {} is not []interface {}"
  const MapAssertionPanic := "interface conversion: interface {} is nil, not map[string]interface {}"

  // ------------------------------------------------------------- registry

  /** The table a contract is registered under: `Attributes["name"]` when this
      database is the source (none when that is nil), `TargetAttributes["name"]`
      when it is the target, and none otherwise. A name that is not a string
      fails its type assertion. */
  function KeyOf(exc: ExchangeContract): (r: Result<Option<string>>)
    ensures r.Ok? && r.value.Some? ==> exc.sourceType == "self" || exc.targetType == "self"
    ensures exc.sourceType == "self" ==> (r == Ok(None) <==> Lookup(exc.attributes, "name") == Null)
    ensures exc.sourceType == "self" && Lookup(exc.attributes, "name").Str? ==> r == Ok(Some(Lookup(exc.attributes, "name").s))
    ensures exc.sourceType != "self" && exc.targetType == "self" && Lookup(exc.targetAttributes, "name").Str? ==> r == Ok(Some(Lookup(exc.targetAttributes, "name").s))
    ensures exc.sourceType != "self" && exc.targetType != "self" ==> r == Ok(None)
    ensures r.Err? ==> r.error == Panic(OutcomeDispatch.StringAssertionPanic)
  {
    if exc.sourceType == "self" then
      match Lookup(exc.attributes, "name")
      case Null => Ok(None)
      case Str(n) => Ok(Some(n))
      case _ => Err(Panic(OutcomeDispatch.StringAssertionPanic))
    else if exc.targetType == "self" then
      match Lookup(exc.targetAttributes, "name")
      case Str(n) => Ok(Some(n))
      case _ => Err(Panic(OutcomeDispatch.StringAssertionPanic))
    else Ok(None)
  }

  function Registered(em: ExchangeMap, key: string): seq<ExchangeContract>
  {
    if key in em then em[key] else []
  }

  /** One iteration of the registry loop. */
  function Register(st: Registration, exc: ExchangeContract): Result<Registration>
  {
    if exc.name in st.hasExchange then Ok(st)
    else
      match KeyOf(exc)
      case Err(e) => Err(e)
      case Ok(None) => Ok(st)
      case Ok(Some(key)) =>
        Ok(Registration(st.exchangeMap[key := Registered(st.exchangeMap, key) + [exc]], st.hasExchange + {exc.name}))
  }

  /** The registry built from the contracts, scanned from the last to the first. */
  function Registry(contracts: seq<ExchangeContract>): Result<Registration>
  {
    if |contracts| == 0 then Ok(Registration(map[], {}))
    else
      match Registry(contracts[1..])
      case Err(e) => Err(e)
      case Ok(st) => Register(st, contracts[0])
  }

  /** A contract that qualifies for registration. */
  predicate Qualifies(exc: ExchangeContract)
  {
    KeyOf(exc).Ok? && KeyOf(exc).value.Some?
  }

  /** Whether a later contract of the same name qualifies. */
  predicate Shadowed(contracts: seq<ExchangeContract>, i: nat)
    requires i < |contracts|
  {
    exists j :: i < j < |contracts| && contracts[j].name == contracts[i].name && Qualifies(contracts[j])
  }

  /** An independent description of the registry: for each table, the
      qualifying contracts registered under it that no later contract of the
      same name shadows, the later ones first. */
  function Chosen(contracts: seq<ExchangeContract>, key: string): seq<ExchangeContract>
  {
    if |contracts| == 0 then []
    else
      var head := if Qualifies(contracts[0]) && KeyOf(contracts[0]).value == Some(key) && !Shadowed(contracts, 0) then [contracts[0]] else [];
      Chosen(contracts[1..], key) + head
  }

  function QualifyingNames(contracts: seq<ExchangeContract>): set<string>
  {
    set j | 0 <= j < |contracts| && Qualifies(contracts[j]) :: contracts[j].name
  }

  lemma ShadowedByTail(contracts: seq<ExchangeContract>)
    requires |contracts| > 0
    ensures Shadowed(contracts, 0) <==> contracts[0].name in QualifyingNames(contracts[1..])
  {
    var tail := contracts[1..];
    if Shadowed(contracts, 0) {
      var j :| 0 < j < |contracts| && contracts[j].name == contracts[0].name && Qualifies(contracts[j]);
      assert tail[j - 1] == contracts[j];
    }
    if contracts[0].name in QualifyingNames(tail) {
      var j :| 0 <= j < |tail| && Qualifies(tail[j]) && tail[j].name == contracts[0].name;
      assert contracts[j + 1] == tail[j];
    }
  }

  lemma QualifyingNamesCons(contracts: seq<ExchangeContract>)
    requires |contracts| > 0
    ensures QualifyingNames(contracts) == QualifyingNames(contracts[1..]) + (if Qualifies(contracts[0]) then {contracts[0].name} else {})
  {
    var tail := contracts[1..];
    forall n | n in QualifyingNames(contracts) ensures n in QualifyingNames(tail) + (if Qualifies(contracts[0]) then {contracts[0].name} else {}) {
      var j :| 0 <= j < |contracts| && Qualifies(contracts[j]) && contracts[j].name == n;
      if j > 0 {
        assert tail[j - 1] == contracts[j];
      }
    }
    forall n | n in QualifyingNames(tail) ensures n in QualifyingNames(contracts) {
      var j :| 0 <= j < |tail| && Qualifies(tail[j]) && tail[j].name == n;
      assert contracts[j + 1] == tail[j];
    }
  }

  /** When the registry builds without a panic, `hasExchange` holds the names of
      the qualifying contracts and each table's list is `Chosen`: only the
      last-declared qualifying contract of a name is registered, and within a
      table the contracts run in reverse declaration order. */
  lemma {:induction false} RegistryIsChosen(contracts: seq<ExchangeContract>, key: string)
    requires Registry(contracts).Ok?
    ensures Registry(contracts).value.hasExchange == QualifyingNames(contracts)
    ensures Registered(Registry(contracts).value.exchangeMap, key) == Chosen(contracts, key)
  {
    if |contracts| > 0 {
      var tail := contracts[1..];
      RegistryIsChosen(tail, key);
      QualifyingNamesCons(contracts);
      ShadowedByTail(contracts);
    }
  }

  /** Every registered contract qualifies for the table it is registered under and is not shadowed. */
  lemma {:induction false} ChosenQualify(contracts: seq<ExchangeContract>, key: string, k: nat)
    requires k < |Chosen(contracts, key)|
    ensures exists i :: 0 <= i < |contracts| && contracts[i] == Chosen(contracts, key)[k] && Qualifies(contracts[i]) && KeyOf(contracts[i]).value == Some(key) && !Shadowed(contracts, i)
  {
    var tail := contracts[1..];
    var rest := Chosen(tail, key);
    if k < |rest| {
      ChosenQualify(tail, key, k);
      var i :| 0 <= i < |tail| && tail[i] == rest[k] && Qualifies(tail[i]) && KeyOf(tail[i]).value == Some(key) && !Shadowed(tail, i);
      assert contracts[i + 1] == tail[i];
    } else {
      assert Chosen(contracts, key)[k] == contracts[0];
    }
  }

  /** A panic on a suffix, scanned first, is the panic of the whole scan. */
  lemma {:induction false} RegistryStopped(contracts: seq<ExchangeContract>, j: nat)
    requires j <= |contracts| && Registry(contracts[j..]).Err?
    ensures Registry(contracts) == Registry(contracts[j..])
  {
    if j > 0 {
      assert contracts[j - 1..][1..] == contracts[j..];
      RegistryStopped(contracts, j - 1);
    } else {
      assert contracts[0..] == contracts;
    }
  }

  /** `NewExchangeMiddleware`: the reverse-index loop over the contracts. */
  method NewExchangeMiddleware(contracts: seq<ExchangeContract>) returns (r: Result<ExchangeMap>)
    ensures r.Ok? <==> Registry(contracts).Ok?
    ensures r.Ok? ==> r.value == Registry(contracts).value.exchangeMap
    ensures r.Err? ==> r.error == Registry(contracts).error
  {
    var exchangeMap: ExchangeMap := map[];
    var hasExchange: set<string> := {};
    var n := |contracts|;
    for i := 0 to n
      invariant Registry(contracts[n - i..]) == Ok(Registration(exchangeMap, hasExchange))
    {
      var exc := contracts[n - i - 1];
      assert contracts[n - i - 1..][1..] == contracts[n - i..];
      if exc.name in hasExchange {
        continue;
      }
      var key := KeyOf(exc);
      if key.Err? {
        RegistryStopped(contracts, n - i - 1);
        return Err(key.error);
      }
      if key.value.Some? {
        var m := Registered(exchangeMap, key.value.value);
        exchangeMap := exchangeMap[key.value.value := m + [exc]];
        hasExchange := hasExchange + {exc.name};
      }
    }
    assert contracts[0..] == contracts;
    r := Ok(exchangeMap);
  }

  // ---------------------------------------------------------- interceptors

  /** Whether an exchange fires for this hook on this (lower-cased) request
      method: its `hook` is exactly the hook and its `methods` list holds the
      method. `InArray` is not part of this model; it is taken to be membership. */
  predicate Fires(exc: ExchangeContract, hook: string, reqMethod: string)
  {
    && Lookup(exc.attributes, "hook") == Str(hook)
    && Lookup(exc.attributes, "methods").List?
    && Str(reqMethod) in Lookup(exc.attributes, "methods").items
  }

  /** The checks both interceptors make before running an exchange: `Ok(true)`
      when it fires, `Ok(false)` when it is skipped, and a panic for a hook or a
      methods list of the wrong type. `InterceptAfter` also skips a nil hook;
      `InterceptBefore` does not test for nil and so fails its type assertion. */
  function Checked(exc: ExchangeContract, hook: string, reqMethod: string, nilHookSkipped: bool): (r: Result<bool>)
    requires hook != ""
    ensures r == Ok(true) <==> Fires(exc, hook, reqMethod)
    ensures r.Err? ==> "hook" in exc.attributes
    ensures !("hook" in exc.attributes) ==> r == Ok(false)
  {
    var hasHook := "hook" in exc.attributes;
    var h := Lookup(exc.attributes, "hook");
    if !hasHook || h == Str("") || (nilHookSkipped && h == Null) then Ok(false)
    else if !h.Str? then Err(Panic(OutcomeDispatch.StringAssertionPanic))
    else if h.s != hook then Ok(false)
    else if !Lookup(exc.attributes, "methods").List? then Err(Panic(ListAssertionPanic))
    else Ok(Str(reqMethod) in Lookup(exc.attributes, "methods").items)
  }

  /** How a failed build of an exchange's attributes ends: a panic inside the
      builder stays that panic; an error returned by it leaves a nil result,
      and the type assertion on that nil panics. */
  function BuildFailure(e: Error): (r: Error)
    ensures r.Panic?
    ensures e.Panic? ==> r == e
    ensures !e.Panic? ==> r == Panic(MapAssertionPanic)
  {
    if e.Panic? then e else Panic(MapAssertionPanic)
  }

  /** One exchange of `InterceptBefore` on the row `row`, whose result so far is
      `current`: when it fires and runs, its result replaces the row. Its
      attributes are built against that result and merged only when the build
      fails: a successful build merges nothing, and a failed one hits a type
      assertion on nil. */
  function ExchangeBefore(exc: ExchangeContract, reqMethod: string, row: Row, current: Row, exec: Executor, run: ScriptRunner): (r: Result<Row>)
    ensures !Fires(exc, "before", reqMethod) ==> r.Ok? ==> r.value == current
    ensures r.Ok? && r.value != current ==> exec(exc, row) == Executed(r.value)
    ensures Fires(exc, "before", reqMethod) && exec(exc, row).ExecutionFailed? ==> r == Ok(current)
    ensures Fires(exc, "before", reqMethod) && exec(exc, row).Executed? ==>
      r == (if Build(Map(exc.attributes), exec(exc, row).result, run).Ok? then Ok(exec(exc, row).result)
            else Err(BuildFailure(Build(Map(exc.attributes), exec(exc, row).result, run).error)))
  {
    match Checked(exc, "before", reqMethod, false)
    case Err(e) => Err(e)
    case Ok(fires) =>
      if !fires then Ok(current)
      else
        match exec(exc, row)
        case ExecutionFailed(_) => Ok(current)
        case Executed(result) =>
          assert "hook" in exc.attributes;
          if |exc.attributes| > 0 then
            match Build(Map(exc.attributes), result, run)
            case Err(e) => Err(BuildFailure(e))
            case Ok(_) => Ok(result)
          else Ok(current)
  }

  /** The exchanges of a table applied in order to one row. */
  function ExchangesBefore(exchanges: seq<ExchangeContract>, reqMethod: string, row: Row, exec: Executor, run: ScriptRunner): (r: Result<Row>)
    ensures r.Ok? && r.value != row ==>
      exists k :: 0 <= k < |exchanges| && Fires(exchanges[k], "before", reqMethod) && exec(exchanges[k], row) == Executed(r.value)
  {
    if |exchanges| == 0 then Ok(row)
    else
      var init := exchanges[..|exchanges| - 1];
      var last := exchanges[|exchanges| - 1];
      match ExchangesBefore(init, reqMethod, row, exec, run)
      case Err(e) => Err(e)
      case Ok(current) =>
        var r := ExchangeBefore(last, reqMethod, row, current, exec, run);
        assert forall k :: 0 <= k < |init| ==> init[k] == exchanges[k];
        r
  }

  /** The type a row is filed under: none when `__type` is missing or nil, a
      panic when it is not a string. */
  function RowType(row: Row): (r: Result<Option<string>>)
    ensures r == Ok(None) <==> Lookup(row, "__type") == Null
    ensures r.Ok? && r.value.Some? ==> Lookup(row, "__type") == Str(r.value.value)
  {
    match Lookup(row, "__type")
    case Null => Ok(None)
    case Str(s) => Ok(Some(s))
    case _ => Err(Panic(OutcomeDispatch.StringAssertionPanic))
  }

  function RowBefore(em: ExchangeMap, reqMethod: string, row: Row, exec: Executor, run: ScriptRunner): Result<Row>
  {
    match RowType(row)
    case Err(e) => Err(e)
    case Ok(None) => Ok(row)
    case Ok(Some(t)) => if t in em then ExchangesBefore(em[t], reqMethod, row, exec, run) else Ok(row)
  }

  /** `InterceptBefore` on all rows, the first panic aborting. */
  function RowsBefore(em: ExchangeMap, reqMethod: string, rows: seq<Row>, exec: Executor, run: ScriptRunner): (r: Result<seq<Row>>)
    ensures r.Ok? ==> |r.value| == |rows|
  {
    if |rows| == 0 then Ok([])
    else
      match RowsBefore(em, reqMethod, rows[..|rows| - 1], exec, run)
      case Err(e) => Err(e)
      case Ok(done) =>
        match RowBefore(em, reqMethod, rows[|rows| - 1], exec, run)
        case Err(e) => Err(e)
        case Ok(row) => Ok(done + [row])
  }

  lemma {:induction false} RowsBeforeAt(em: ExchangeMap, reqMethod: string, rows: seq<Row>, exec: Executor, run: ScriptRunner, i: nat)
    requires RowsBefore(em, reqMethod, rows, exec, run).Ok? && i < |rows|
    ensures RowBefore(em, reqMethod, rows[i], exec, run) == Ok(RowsBefore(em, reqMethod, rows, exec, run).value[i])
  {
    var init := rows[..|rows| - 1];
    if i < |init| {
      RowsBeforeAt(em, reqMethod, init, exec, run, i);
      assert init[i] == rows[i];
    }
  }

  /** `InterceptBefore` keeps the number of rows; a row without a type, or of a
      type no exchange watches, is kept as it is; any other row is either kept or
      replaced by the result of running a firing exchange on it. */
  lemma InterceptBeforeRows(em: ExchangeMap, reqMethod: string, rows: seq<Row>, exec: Executor, run: ScriptRunner, i: nat)
    requires RowsBefore(em, reqMethod, rows, exec, run).Ok? && i < |rows|
    ensures |RowsBefore(em, reqMethod, rows, exec, run).value| == |rows|
    ensures Lookup(rows[i], "__type") == Null ==> RowsBefore(em, reqMethod, rows, exec, run).value[i] == rows[i]
    ensures Lookup(rows[i], "__type").Str? && Lookup(rows[i], "__type").s !in em ==> RowsBefore(em, reqMethod, rows, exec, run).value[i] == rows[i]
    ensures RowsBefore(em, reqMethod, rows, exec, run).value[i] == rows[i] ||
      (Lookup(rows[i], "__type").Str? && Lookup(rows[i], "__type").s in em &&
       exists k :: 0 <= k < |em[Lookup(rows[i], "__type").s]| && Fires(em[Lookup(rows[i], "__type").s][k], "before", reqMethod) &&
         exec(em[Lookup(rows[i], "__type").s][k], rows[i]) == Executed(RowsBefore(em, reqMethod, rows, exec, run).value[i]))
  {
    RowsBeforeAt(em, reqMethod, rows, exec, run, i);
  }

  /** One row of `InterceptBefore`: the inner loop over the table's exchanges. */
  method InterceptRowBefore(exchanges: seq<ExchangeContract>, reqMethod: string, row: Row, exec: Executor, run: ScriptRunner) returns (r: Result<Row>)
    ensures r == ExchangesBefore(exchanges, reqMethod, row, exec, run)
  {
    var current := row;
    for k := 0 to |exchanges|
      invariant ExchangesBefore(exchanges[..k], reqMethod, row, exec, run) == Ok(current)
    {
      assert exchanges[..k + 1][..k] == exchanges[..k];
      var exchange := exchanges[k];
      var fires := Checked(exchange, "before", reqMethod, false);
      if fires.Err? {
        ExchangesBeforeStopped(exchanges, reqMethod, row, exec, run, k + 1);
        return Err(fires.error);
      }
      if !fires.value {
        continue;
      }
      var exchangeResult := exec(exchange, row);
      if exchangeResult.Executed? && |exchange.attributes| > 0 {
        var resultValue := BuildActionContext(Map(exchange.attributes), exchangeResult.result, run);
        if resultValue.Err? {
          ExchangesBeforeStopped(exchanges, reqMethod, row, exec, run, k + 1);
          return Err(BuildFailure(resultValue.error));
        }
        current := exchangeResult.result;
      }
    }
    assert exchanges[..|exchanges|] == exchanges;
    r := Ok(current);
  }

  /** `InterceptBefore`: each row is rewritten in place; the request method is lower-cased first. */
  method InterceptBefore(em: ExchangeMap, httpMethod: string, results: array<Row>, exec: Executor, run: ScriptRunner) returns (failure: Option<Error>)
    modifies results
    ensures failure.None? <==> RowsBefore(em, ToLower(httpMethod), old(results[..]), exec, run).Ok?
    ensures failure.None? ==> results[..] == RowsBefore(em, ToLower(httpMethod), old(results[..]), exec, run).value
    ensures failure.Some? ==> failure.value == RowsBefore(em, ToLower(httpMethod), old(results[..]), exec, run).error
  {
    var reqMethod := ToLower(httpMethod);
    ghost var rows := results[..];
    for i := 0 to results.Length
      invariant RowsBefore(em, reqMethod, rows[..i], exec, run).Ok?
      invariant results[..] == RowsBefore(em, reqMethod, rows[..i], exec, run).value + rows[i..]
    {
      assert rows[..i + 1][..i] == rows[..i];
      assert results[i] == rows[i];
      var resultRow := results[i];
      var typ := RowType(resultRow);
      if typ.Err? {
        RowsBeforeStopped(em, reqMethod, rows, exec, run, i + 1);
        return Some(typ.error);
      }
      if typ.value.None? || typ.value.value !in em {
        ReplaceAt(RowsBefore(em, reqMethod, rows[..i], exec, run).value, rows[i..], resultRow);
        continue;
      }
      var row := InterceptRowBefore(em[typ.value.value], reqMethod, resultRow, exec, run);
      if row.Err? {
        RowsBeforeStopped(em, reqMethod, rows, exec, run, i + 1);
        return Some(row.error);
      }
      ReplaceAt(RowsBefore(em, reqMethod, rows[..i], exec, run).value, rows[i..], row.value);
      results[i] := row.value;
    }
    assert rows[..results.Length] == rows;
    failure := None;
  }

  // A panic on a prefix is the panic of the whole fold.

  lemma {:induction false} RowsBeforeStopped(em: ExchangeMap, reqMethod: string, rows: seq<Row>, exec: Executor, run: ScriptRunner, j: nat)
    requires j <= |rows| && RowsBefore(em, reqMethod, rows[..j], exec, run).Err?
    ensures RowsBefore(em, reqMethod, rows, exec, run) == RowsBefore(em, reqMethod, rows[..j], exec, run)
    decreases |rows| - j
  {
    if j < |rows| {
      assert rows[..j + 1][..j] == rows[..j];
      RowsBeforeStopped(em, reqMethod, rows, exec, run, j + 1);
    } else {
      assert rows[..j] == rows;
    }
  }

  lemma {:induction false} ExchangesBeforeStopped(exchanges: seq<ExchangeContract>, reqMethod: string, row: Row, exec: Executor, run: ScriptRunner, j: nat)
    requires j <= |exchanges| && ExchangesBefore(exchanges[..j], reqMethod, row, exec, run).Err?
    ensures ExchangesBefore(exchanges, reqMethod, row, exec, run) == ExchangesBefore(exchanges[..j], reqMethod, row, exec, run)
    decreases |exchanges| - j
  {
    if j < |exchanges| {
      assert exchanges[..j + 1][..j] == exchanges[..j];
      ExchangesBeforeStopped(exchanges, reqMethod, row, exec, run, j + 1);
    } else {
      assert exchanges[..j] == exchanges;
    }
  }

  lemma {:induction false} ExchangesAfterStopped(exchanges: seq<ExchangeContract>, reqMethod: string, row: Row, exec: Executor, run: ScriptRunner, j: nat)
    requires j <= |exchanges| && ExchangesAfter(exchanges[..j], reqMethod, row, exec, run).Some?
    ensures ExchangesAfter(exchanges, reqMethod, row, exec, run) == ExchangesAfter(exchanges[..j], reqMethod, row, exec, run)
    decreases |exchanges| - j
  {
    if j < |exchanges| {
      assert exchanges[..j + 1][..j] == exchanges[..j];
      ExchangesAfterStopped(exchanges, reqMethod, row, exec, run, j + 1);
    } else {
      assert exchanges[..j] == exchanges;
    }
  }

  lemma {:induction false} RowsAfterStopped(em: ExchangeMap, reqMethod: string, rows: seq<Row>, exec: Executor, run: ScriptRunner, j: nat)
    requires j <= |rows| && RowsAfter(em, reqMethod, rows[..j], exec, run).Err?
    ensures RowsAfter(em, reqMethod, rows, exec, run) == RowsAfter(em, reqMethod, rows[..j], exec, run)
    decreases |rows| - j
  {
    if j < |rows| {
      assert rows[..j + 1][..j] == rows[..j];
      RowsAfterStopped(em, reqMethod, rows, exec, run, j + 1);
    } else {
      assert rows[..j] == rows;
    }
  }

  lemma ReplaceAt<T>(done: seq<T>, rest: seq<T>, x: T)
    requires |rest| > 0
    ensures (done + rest)[|done| := x] == (done + [x]) + rest[1..]
    ensures rest[0] == x ==> done + rest == (done + [x]) + rest[1..]
  {
  }

  // ---------------------------------------------------------------- after

  /** One exchange of `InterceptAfter`: it may panic, but its result is dropped. */
  function ExchangeAfter(exc: ExchangeContract, reqMethod: string, row: Row, exec: Executor, run: ScriptRunner): Option<Error>
  {
    match Checked(exc, "after", reqMethod, true)
    case Err(e) => Some(e)
    case Ok(fires) =>
      if !fires then None
      else
        match exec(exc, row)
        case ExecutionFailed(_) => None
        case Executed(result) =>
          if |exc.attributes| > 0 && Build(Map(exc.attributes), result, run).Err? then Some(BuildFailure(Build(Map(exc.attributes), result, run).error))
          else None
  }

  /** The first panic among a row's exchanges. */
  function ExchangesAfter(exchanges: seq<ExchangeContract>, reqMethod: string, row: Row, exec: Executor, run: ScriptRunner): Option<Error>
  {
    if |exchanges| == 0 then None
    else
      match ExchangesAfter(exchanges[..|exchanges| - 1], reqMethod, row, exec, run)
      case Some(e) => Some(e)
      case None => ExchangeAfter(exchanges[|exchanges| - 1], reqMethod, row, exec, run)
  }

  function RowAfter(em: ExchangeMap, reqMethod: string, row: Row, exec: Executor, run: ScriptRunner): Option<Error>
  {
    match RowType(row)
    case Err(e) => Some(e)
    case Ok(None) => None
    case Ok(Some(t)) => if t in em then ExchangesAfter(em[t], reqMethod, row, exec, run) else None
  }

  /** `InterceptAfter` on all rows: the rows themselves, unless an exchange panics. */
  function RowsAfter(em: ExchangeMap, reqMethod: string, rows: seq<Row>, exec: Executor, run: ScriptRunner): Result<seq<Row>>
  {
    if |rows| == 0 then Ok([])
    else
      match RowsAfter(em, reqMethod, rows[..|rows| - 1], exec, run)
      case Err(e) => Err(e)
      case Ok(_) =>
        match RowAfter(em, reqMethod, rows[|rows| - 1], exec, run)
        case Some(e) => Err(e)
        case None => Ok(rows)
  }

  /** `InterceptAfter` returns its rows unchanged whenever it returns, and it
      panics only on a row whose type is not a string or whose table has an
      exchange with a malformed hook or methods list. */
  lemma {:induction false} InterceptAfterUnchanged(em: ExchangeMap, reqMethod: string, rows: seq<Row>, exec: Executor, run: ScriptRunner)
    ensures RowsAfter(em, reqMethod, rows, exec, run).Ok? ==> RowsAfter(em, reqMethod, rows, exec, run).value == rows
    ensures (forall i :: 0 <= i < |rows| ==> Lookup(rows[i], "__type") == Null) ==> RowsAfter(em, reqMethod, rows, exec, run) == Ok(rows)
  {
    if |rows| > 0 {
      InterceptAfterUnchanged(em, reqMethod, rows[..|rows| - 1], exec, run);
      var init := rows[..|rows| - 1];
      if forall i :: 0 <= i < |rows| ==> Lookup(rows[i], "__type") == Null {
        assert forall i :: 0 <= i < |init| ==> init[i] == rows[i];
        if |init| == 0 {
          assert RowsAfter(em, reqMethod, init, exec, run) == Ok([]);
        }
      }
    }
  }

  method InterceptRowAfter(exchanges: seq<ExchangeContract>, reqMethod: string, row: Row, exec: Executor, run: ScriptRunner) returns (failure: Option<Error>)
    ensures failure == ExchangesAfter(exchanges, reqMethod, row, exec, run)
  {
    for k := 0 to |exchanges|
      invariant ExchangesAfter(exchanges[..k], reqMethod, row, exec, run) == None
    {
      assert exchanges[..k + 1][..k] == exchanges[..k];
      var exchange := exchanges[k];
      var fires := Checked(exchange, "after", reqMethod, true);
      if fires.Err? {
        ExchangesAfterStopped(exchanges, reqMethod, row, exec, run, k + 1);
        return Some(fires.error);
      }
      if !fires.value {
        continue;
      }
      var exchangeResult := exec(exchange, row);
      if exchangeResult.Executed? && |exchange.attributes| > 0 {
        var resultValue := BuildActionContext(Map(exchange.attributes), exchangeResult.result, run);
        if resultValue.Err? {
          ExchangesAfterStopped(exchanges, reqMethod, row, exec, run, k + 1);
          return Some(BuildFailure(resultValue.error));
        }
      }
    }
    assert exchanges[..|exchanges|] == exchanges;
    failure := None;
  }

  /** `InterceptAfter`, after the request method is lower-cased. */
  method InterceptAfter(em: ExchangeMap, httpMethod: string, results: seq<Row>, exec: Executor, run: ScriptRunner) returns (r: Result<seq<Row>>)
    ensures r == RowsAfter(em, ToLower(httpMethod), results, exec, run)
  {
    var reqMethod := ToLower(httpMethod);
    for i := 0 to |results|
      invariant RowsAfter(em, reqMethod, results[..i], exec, run).Ok?
    {
      assert results[..i + 1][..i] == results[..i];
      var resultRow := results[i];
      var typ := RowType(resultRow);
      if typ.Err? {
        RowsAfterStopped(em, reqMethod, results, exec, run, i + 1);
        return Err(typ.error);
      }
      if typ.value.None? || typ.value.value !in em {
        continue;
      }
      var failure := InterceptRowAfter(em[typ.value.value], reqMethod, resultRow, exec, run);
      if failure.Some? {
        RowsAfterStopped(em, reqMethod, results, exec, run, i + 1);
        return Err(failure.value);
      }
    }
    assert results[..|results|] == results;
    InterceptAfterUnchanged(em, reqMethod, results, exec, run);
    r := Ok(results);
  }
}
