/** `BuildActionContext`: an outcome's attribute template (maps and lists of
    strings, numbers, booleans and nested containers) resolved against the
    request context. Map keys are visited in ascending order. */
module ContextBuilder {
  import opened Text
  import opened Values
  import opened Evaluate

  const NilKindPanic := "runtime error: invalid memory address or nil pointer dereference"

  /** A map entry or list element: strings are evaluated, containers rebuilt,
      other scalars returned as they are; a nil entry panics. */
  function BuildField(f: Value, ctx: Row, run: ScriptRunner): Result<Value>
    decreases f, 3, 0
  {
    match f
    case Null => Err(Panic(NilKindPanic))
    case Str(s) => Eval(s, ctx, run)
    case Map(_) => Build(f, ctx, run)
    case List(_) => Build(f, ctx, run)
    case Strings(_) => Build(f, ctx, run)
    case _ => Ok(f)
  }

  /** Whether a list element is kept at all: strings and containers are, other scalars are dropped. */
  predicate Retained(x: Value)
  {
    x.Str? || x.Map? || x.List? || x.Strings?
  }

  /** The template resolved: a map keeps the entries whose value is not nil, a
      list keeps its strings and containers in order, a scalar gives nil. */
  function Build(t: Value, ctx: Row, run: ScriptRunner): Result<Value>
    decreases t, 2, 0
  {
    match t
    case Map(m) =>
      (match BuildEntries(t, 0, ctx, run)
       case Err(e) => Err(e)
       case Ok(r) => Ok(Map(r)))
    case List(xs) =>
      (match BuildItems(t, 0, ctx, run)
       case Err(e) => Err(e)
       case Ok(ys) => Ok(List(ys)))
    case Strings(ss) =>
      (match EvalStrings(ss, 0, ctx, run)
       case Err(e) => Err(e)
       case Ok(ys) => Ok(List(ys)))
    case Null => Err(Panic(NilKindPanic))
    case _ => Ok(Null)
  }

  /** A `[]string` template from index `i` on: each string evaluated, every
      result kept in order; the first error aborts. */
  function EvalStrings(ss: seq<string>, i: nat, ctx: Row, run: ScriptRunner): (r: Result<seq<Value>>)
    requires i <= |ss|
    ensures r.Ok? ==> |r.value| == |ss| - i
    decreases |ss| - i
  {
    if i == |ss| then Ok([])
    else match Eval(ss[i], ctx, run)
      case Err(e) => Err(e)
      case Ok(v) =>
        match EvalStrings(ss, i + 1, ctx, run)
        case Err(e) => Err(e)
        case Ok(ys) => Ok([v] + ys)
  }

  /** The keys of a map template in the order the builder visits them. */
  function MapKeys(t: Value): (keys: seq<string>)
    requires t.Map?
    ensures StrictlySorted(keys)
    ensures forall j :: 0 <= j < |keys| ==> keys[j] in t.m
  {
    SortedKeys(t.m.Keys)
  }

  /** Every key of the template is visited. */
  lemma MapKeysCover(t: Value, k: string)
    requires t.Map? && k in t.m
    ensures k in MapKeys(t)
  {
  }

  /** The entries of a map template from its `i`-th key on, in key order; the first error aborts. */
  function BuildEntries(t: Value, i: nat, ctx: Row, run: ScriptRunner): (r: Result<Row>)
    requires t.Map? && i <= |MapKeys(t)|
    ensures r.Ok? ==> forall k :: k in r.value ==> k in MapKeys(t)[i..]
    decreases t, 1, |MapKeys(t)| - i
  {
    var keys := MapKeys(t);
    if i == |keys| then Ok(map[])
    else match BuildField(t.m[keys[i]], ctx, run)
      case Err(e) => Err(e)
      case Ok(v) => Insert(keys[i], v, BuildEntries(t, i + 1, ctx, run))
  }

  /** The entries still to come, with `k` stored unless its value is nil. */
  function Insert(k: string, v: Value, rest: Result<Row>): (r: Result<Row>)
    ensures r.Ok? <==> rest.Ok?
    ensures r.Ok? ==> forall j :: j in r.value ==> j == k || j in rest.value
  {
    match rest
    case Err(e) => Err(e)
    case Ok(r) => Ok(if v == Null then r else r[k := v])
  }

  /** The elements of a list template from index `i` on; the first error aborts. */
  function BuildItems(t: Value, i: nat, ctx: Row, run: ScriptRunner): Result<seq<Value>>
    requires t.List? && i <= |t.items|
    decreases t, 1, |t.items| - i
  {
    if i == |t.items| then Ok([])
    else if t.items[i] == Null then Err(Panic(NilKindPanic))
    else if !Retained(t.items[i]) then BuildItems(t, i + 1, ctx, run)
    else match BuildField(t.items[i], ctx, run)
      case Err(e) => Err(e)
      case Ok(v) =>
        match BuildItems(t, i + 1, ctx, run)
        case Err(e) => Err(e)
        case Ok(ys) => Ok([v] + ys)
  }

  /** `BuildActionContext`: fresh maps and lists filled entry by entry. */
  method BuildActionContext(t: Value, ctx: Row, run: ScriptRunner) returns (r: Result<Value>)
    ensures r == Build(t, ctx, run)
    decreases t, 1
  {
    match t {
      case Map(_) =>
        var entries := BuildMap(t, ctx, run);
        if entries.Err? {
          return Err(entries.error);
        }
        r := Ok(Map(entries.value));
      case List(_) =>
        var items := BuildList(t, ctx, run);
        if items.Err? {
          return Err(items.error);
        }
        r := Ok(List(items.value));
      case Strings(ss) =>
        var items := BuildStrings(ss, ctx, run);
        if items.Err? {
          return Err(items.error);
        }
        r := Ok(List(items.value));
      case Null =>
        r := Err(Panic(NilKindPanic));
      case _ =>
        r := Ok(Null);
    }
  }

  /** One field of a map template or one retained element of a list template. */
  method ResolveField(field: Value, ctx: Row, run: ScriptRunner) returns (val: Result<Value>)
    ensures val == BuildField(field, ctx, run)
    decreases field, 2
  {
    if field.Null? {
      val := Err(Panic(NilKindPanic));
    } else if field.Str? {
      val := EvaluateString(field.s, ctx, run);
    } else if field.Map? || field.List? || field.Strings? {
      val := BuildActionContext(field, ctx, run);
    } else {
      val := Ok(field);
    }
  }

  /** The map branch: each key's field is resolved and stored unless it resolves to nil. */
  method BuildMap(t: Value, ctx: Row, run: ScriptRunner) returns (r: Result<Row>)
    requires t.Map?
    ensures r == BuildEntries(t, 0, ctx, run)
    decreases t, 0
  {
    var keys := MapKeys(t);
    var dataMap: Row := map[];
    ghost var total := BuildEntries(t, 0, ctx, run);
    EntriesStart(t, ctx, run);
    for i := 0 to |keys|
      invariant total == Merged(dataMap, BuildEntries(t, i, ctx, run))
    {
      var field := t.m[keys[i]];
      var val := ResolveField(field, ctx, run);
      if val.Err? {
        return Err(val.error);
      }
      EntriesStep(t, i, dataMap, val.value, ctx, run);
      dataMap := Stored(dataMap, keys[i], val.value);
    }
    assert dataMap + map[] == dataMap;
    r := Ok(dataMap);
  }

  /** One loop step of `BuildMap`: the key's entry moves into the collected map. */
  lemma EntriesStep(t: Value, i: nat, acc: Row, v: Value, ctx: Row, run: ScriptRunner)
    requires t.Map? && i < |MapKeys(t)|
    requires BuildField(t.m[MapKeys(t)[i]], ctx, run) == Ok(v)
    ensures Merged(acc, BuildEntries(t, i, ctx, run))
         == Merged(Stored(acc, MapKeys(t)[i], v), BuildEntries(t, i + 1, ctx, run))
  {
    LaterKeysDiffer(MapKeys(t), i);
    MergeStep(acc, MapKeys(t)[i], v, BuildEntries(t, i + 1, ctx, run));
  }

  lemma EntriesStart(t: Value, ctx: Row, run: ScriptRunner)
    requires t.Map?
    ensures BuildEntries(t, 0, ctx, run) == Merged(map[], BuildEntries(t, 0, ctx, run))
  {
    var r := BuildEntries(t, 0, ctx, run);
    if r.Ok? {
      assert map[] + r.value == r.value;
    }
  }

  /** A strictly sorted key list names each key once. */
  lemma LaterKeysDiffer(keys: seq<string>, i: nat)
    requires StrictlySorted(keys) && i < |keys|
    ensures keys[i] !in keys[i + 1..]
  {
    SortedDistinct(keys);
  }

  /** The entry for `k` can be moved from what is still to come into what is collected. */
  lemma MergeStep(acc: Row, k: string, v: Value, rest: Result<Row>)
    requires rest.Ok? ==> k !in rest.value
    ensures Merged(acc, Insert(k, v, rest)) == Merged(Stored(acc, k, v), rest)
  {
    if rest.Ok? && v != Null {
      assert acc + rest.value[k := v] == acc[k := v] + rest.value;
    }
  }

  /** The list branch: strings and containers are resolved and appended in order. */
  method BuildList(t: Value, ctx: Row, run: ScriptRunner) returns (r: Result<seq<Value>>)
    requires t.List?
    ensures r == BuildItems(t, 0, ctx, run)
    decreases t, 0
  {
    var xs := t.items;
    var outcomes: seq<Value> := [];
    assert BuildItems(t, 0, ctx, run).Ok? ==> [] + BuildItems(t, 0, ctx, run).value == BuildItems(t, 0, ctx, run).value;
    for i := 0 to |xs|
      invariant BuildItems(t, 0, ctx, run) == Prepended(outcomes, BuildItems(t, i, ctx, run))
    {
      var element := xs[i];
      ghost var rest := BuildItems(t, i + 1, ctx, run);
      assert rest.Ok? ==> forall v :: (outcomes + [v]) + rest.value == outcomes + ([v] + rest.value);
      if element.Null? {
        return Err(Panic(NilKindPanic));
      } else if Retained(element) {
        var val := ResolveField(element, ctx, run);
        if val.Err? {
          return Err(val.error);
        }
        outcomes := outcomes + [val.value];
      }
    }
    assert outcomes + [] == outcomes;
    r := Ok(outcomes);
  }

  /** The `[]string` branch: the strings are first copied into a list of
      values, then each is evaluated and appended. */
  method BuildStrings(ss: seq<string>, ctx: Row, run: ScriptRunner) returns (r: Result<seq<Value>>)
    ensures r == EvalStrings(ss, 0, ctx, run)
  {
    var xs: seq<Value> := [];
    for i := 0 to |ss|
      invariant xs == Strs(ss[..i])
    {
      assert ss[..i + 1][..i] == ss[..i];
      xs := xs + [Str(ss[i])];
    }
    assert ss[..|ss|] == ss;
    var outcomes: seq<Value> := [];
    assert EvalStrings(ss, 0, ctx, run).Ok? ==> [] + EvalStrings(ss, 0, ctx, run).value == EvalStrings(ss, 0, ctx, run).value;
    for i := 0 to |xs|
      invariant EvalStrings(ss, 0, ctx, run) == Prepended(outcomes, EvalStrings(ss, i, ctx, run))
    {
      var val := EvaluateString(xs[i].s, ctx, run);
      EvalStringsStep(ss, i, outcomes, ctx, run);
      if val.Err? {
        return Err(val.error);
      }
      outcomes := outcomes + [val.value];
    }
    assert outcomes + [] == outcomes;
    r := Ok(outcomes);
  }

  /** One string of the evaluation loop: its error is the whole result, or
      its value joins the results so far. */
  lemma EvalStringsStep(ss: seq<string>, i: nat, outcomes: seq<Value>, ctx: Row, run: ScriptRunner)
    requires i < |ss| && EvalStrings(ss, 0, ctx, run) == Prepended(outcomes, EvalStrings(ss, i, ctx, run))
    ensures Eval(ss[i], ctx, run).Err? ==> EvalStrings(ss, 0, ctx, run) == Err(Eval(ss[i], ctx, run).error)
    ensures Eval(ss[i], ctx, run).Ok? ==>
      EvalStrings(ss, 0, ctx, run) == Prepended(outcomes + [Eval(ss[i], ctx, run).value], EvalStrings(ss, i + 1, ctx, run))
  {
    var rest := EvalStrings(ss, i + 1, ctx, run);
    if Eval(ss[i], ctx, run).Ok? && rest.Ok? {
      var v := Eval(ss[i], ctx, run).value;
      assert (outcomes + [v]) + rest.value == outcomes + ([v] + rest.value);
    }
  }

  /** `acc` with `k` set to `v`, unless `v` is nil. */
  function Stored(acc: Row, k: string, v: Value): Row
  {
    if v == Null then acc else acc[k := v]
  }

  /** The entries already collected, joined with those still to come. */
  function Merged(acc: Row, rest: Result<Row>): Result<Row>
  {
    match rest
    case Err(e) => Err(e)
    case Ok(r) => Ok(acc + r)
  }

  function Prepended(acc: seq<Value>, rest: Result<seq<Value>>): Result<seq<Value>>
  {
    match rest
    case Err(e) => Err(e)
    case Ok(ys) => Ok(acc + ys)
  }
}
