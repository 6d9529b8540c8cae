/** What creating a row (server/resource/resource_create.go) and updating one
    (server/resource/resource_update.go) share: the column/value pairs a
    statement is built from, the per-column normalisation of enum and truefalse
    values, and the chain of after-interceptors. */
module Columns {
  import opened Text
  import opened Values
  import opened Schema

  /** One entry of `colsList`/`valsList`. */
  datatype Assignment = Assignment(column: string, value: Value)

  function ColumnsOf(s: seq<Assignment>): (names: seq<string>)
    ensures |names| == |s|
    ensures forall k :: 0 <= k < |s| ==> names[k] == s[k].column
  {
    seq(|s|, k requires 0 <= k < |s| => s[k].column)
  }

  lemma ColumnsOfAppend(a: seq<Assignment>, b: seq<Assignment>)
    ensures ColumnsOf(a + b) == ColumnsOf(a) + ColumnsOf(b)
  {
  }

  /** A conversion this model does not describe (foreign-key lookups, file
      uploads, hashing, encryption, date and time parsing): it may change the
      value, fail, or give `None` when the column loop is to `continue` and
      leave the column out (a nil cloud-store value, an upload performer or
      cloud store that cannot be had, a bcrypt hash that fails on update). */
  type Conversion = (ColumnInfo, Value) -> Result<Option<Value>>

  /** The foreign-key conversion, and the conversion for the column types named in `types`. */
  datatype Converters = Converters(foreignKey: Conversion, typed: Conversion, types: set<string>)

  // ------------------------------------------------------------------ enum

  predicate IsOption(options: seq<ValueOption>, s: string)
  {
    exists k :: 0 <= k < |options| && options[k].value == s
  }

  /** An enum column's value: printed with `%v`, lower-cased, and accepted
      only when it equals one of the column's option values. */
  function EnumValue(col: ColumnInfo, v: Value): (r: Result<Value>)
    ensures r.Ok? <==> IsOption(col.options, ToLower(Format(v)))
    ensures r.Ok? ==> r.value == Str(ToLower(Format(v)))
    ensures r.Err? ==> r.error == InvalidValue(col.name)
  {
    var s := ToLower(Format(v));
    if IsOption(col.options, s) then Ok(Str(s)) else Err(InvalidValue(col.name))
  }

  lemma {:induction false} ToLowerIdempotent(s: string)
    ensures ToLower(ToLower(s)) == ToLower(s)
  {
    var t := ToLower(s);
    assert forall i :: 0 <= i < |s| ==> LowerChar(t[i]) == t[i];
  }

  /** A value the enum check accepted is accepted again unchanged. */
  lemma EnumValueIdempotent(col: ColumnInfo, v: Value)
    requires EnumValue(col, v).Ok?
    ensures EnumValue(col, EnumValue(col, v).value) == EnumValue(col, v)
  {
    ToLowerIdempotent(Format(v));
  }

  /** The option loop, stopping at the first match. */
  method CheckEnum(col: ColumnInfo, v: Value) returns (r: Result<Value>)
    ensures r == EnumValue(col, v)
  {
    var valString := ToLower(Format(v));
    var isEnumOption := false;
    var k := 0;
    while k < |col.options|
      invariant 0 <= k <= |col.options|
      invariant !isEnumOption ==> forall j :: 0 <= j < k ==> col.options[j].value != valString
      invariant isEnumOption ==> IsOption(col.options, valString)
      decreases |col.options| - k, !isEnumOption
    {
      if valString == col.options[k].value {
        isEnumOption := true;
        break;
      }
      k := k + 1;
    }
    if !isEnumOption {
      return Err(InvalidValue(col.name));
    }
    r := Ok(Str(valString));
  }

  // ------------------------------------------------------------- truefalse

  /** The strings truefalse reads as true: "true" or "1" once trimmed and lower-cased. */
  predicate TruthyText(s: string)
  {
    ToLower(TrimSpace(s)) == "true" || ToLower(TrimSpace(s)) == "1"
  }

  /** A truefalse column's value: booleans stay, strings become whether they
      read as true, integers (when `intsToo`, as in the update) whether they are
      non-zero, and anything else is kept. */
  function TrueFalse(v: Value, intsToo: bool): (r: Value)
    ensures v.Bool? ==> r == v
    ensures v.Str? ==> r == Bool(TruthyText(v.s))
    ensures v.Int? ==> r == if intsToo then Bool(v.i != 0) else v
    ensures !v.Bool? && !v.Str? && !v.Int? ==> r == v
  {
    match v
    case Bool(_) => v
    case Str(s) => Bool(TruthyText(s))
    case Int(i) => if intsToo then Bool(i != 0) else v
    case _ => v
  }

  /** Coercing twice is coercing once, and strings and booleans always end as booleans. */
  lemma TrueFalseIdempotent(v: Value, intsToo: bool)
    ensures TrueFalse(TrueFalse(v, intsToo), intsToo) == TrueFalse(v, intsToo)
    ensures v.Str? || v.Bool? || (intsToo && v.Int?) ==> TrueFalse(v, intsToo).Bool?
  {
  }

  // --------------------------------------------------------- normalisation

  /** A result that keeps its value. */
  function Kept(x: Result<Value>): (r: Result<Option<Value>>)
    ensures r.Err? <==> x.Err?
    ensures x.Err? ==> r.error == x.error
    ensures x.Ok? ==> r.value == Some(x.value)
  {
    match x
    case Err(e) => Err(e)
    case Ok(v) => Ok(Some(v))
  }

  /** What happens to a column's value once it is known: the foreign-key
      conversion first, then the column type's own handling; `Ok(None)` when
      a conversion leaves the column out. */
  function Normalised(col: ColumnInfo, v: Value, conv: Converters, intsToo: bool): (r: Result<Option<Value>>)
    ensures !col.isForeignKey && col.columnType == "enum" ==> r == Kept(EnumValue(col, v))
    ensures !col.isForeignKey && col.columnType == "truefalse" ==> r == Ok(Some(TrueFalse(v, intsToo)))
    ensures !col.isForeignKey && col.columnType !in conv.types + {"enum", "truefalse"} ==> r == Ok(Some(v))
    ensures !col.isForeignKey && col.columnType in conv.types - {"enum", "truefalse"} ==> r == conv.typed(col, v)
    ensures col.isForeignKey && conv.foreignKey(col, v).Err? ==> r == conv.foreignKey(col, v)
    ensures col.isForeignKey && conv.foreignKey(col, v) == Ok(None) ==> r == Ok(None)
  {
    match (if col.isForeignKey then conv.foreignKey(col, v) else Ok(Some(v)))
    case Err(e) => Err(e)
    case Ok(None) => Ok(None)
    case Ok(Some(v1)) =>
      if col.columnType == "enum" then Kept(EnumValue(col, v1))
      else if col.columnType == "truefalse" then Ok(Some(TrueFalse(v1, intsToo)))
      else if col.columnType in conv.types then conv.typed(col, v1)
      else Ok(Some(v1))
  }

  method Normalise(col: ColumnInfo, v: Value, conv: Converters, intsToo: bool) returns (r: Result<Option<Value>>)
    ensures r == Normalised(col, v, conv, intsToo)
  {
    var val := v;
    if col.isForeignKey {
      var converted := conv.foreignKey(col, val);
      if converted.Err? {
        return converted;
      }
      if converted.value.None? {
        return Ok(None);
      }
      val := converted.value.value;
    }
    if col.columnType == "enum" {
      var checked := CheckEnum(col, val);
      if checked.Err? {
        return Err(checked.error);
      }
      r := Ok(Some(checked.value));
    } else if col.columnType == "truefalse" {
      r := Ok(Some(TrueFalse(val, intsToo)));
    } else if col.columnType in conv.types {
      r := conv.typed(col, val);
    } else {
      r := Ok(Some(val));
    }
  }

  // ---------------------------------------------------------- column loop

  /** The column loop: each column in order contributes one pair, or none
      (`continue`), or stops the statement with an error. */
  function Collect(cols: seq<ColumnInfo>, step: ColumnInfo -> Result<Option<Value>>): Result<seq<Assignment>>
  {
    if |cols| == 0 then Ok([])
    else
      match Collect(cols[..|cols| - 1], step)
      case Err(e) => Err(e)
      case Ok(acc) =>
        var last := cols[|cols| - 1];
        match step(last)
        case Err(e) => Err(e)
        case Ok(None) => Ok(acc)
        case Ok(Some(v)) => Ok(acc + [Assignment(last.columnName, v)])
  }

  /** One more column of the loop, when it does not fail. */
  lemma CollectStep(cols: seq<ColumnInfo>, step: ColumnInfo -> Result<Option<Value>>, i: nat)
    requires i < |cols| && Collect(cols[..i], step).Ok? && step(cols[i]).Ok?
    ensures step(cols[i]).value.None? ==> Collect(cols[..i + 1], step) == Collect(cols[..i], step)
    ensures step(cols[i]).value.Some? ==>
      Collect(cols[..i + 1], step) == Ok(Collect(cols[..i], step).value + [Assignment(cols[i].columnName, step(cols[i]).value.value)])
  {
    assert cols[..i + 1][..i] == cols[..i];
    assert cols[..i + 1][i] == cols[i];
  }

  /** The loop over a split column list is the loop over the first part followed
      by the loop over the rest: pairs come in column order. */
  lemma {:induction false} CollectConcat(a: seq<ColumnInfo>, b: seq<ColumnInfo>, step: ColumnInfo -> Result<Option<Value>>)
    ensures Collect(a + b, step) ==
      match Collect(a, step)
      case Err(e) => Err(e)
      case Ok(x) => (match Collect(b, step) case Err(e) => Err(e) case Ok(y) => Ok(x + y))
  {
    if |b| == 0 {
      assert a + b == a;
      if Collect(a, step).Ok? {
        assert Collect(a, step).value + [] == Collect(a, step).value;
      }
    } else {
      var init := b[..|b| - 1];
      assert (a + b)[..|a + b| - 1] == a + init;
      CollectConcat(a, init, step);
      if Collect(a, step).Ok? && Collect(init, step).Ok? {
        assert (a + b)[|a + b| - 1] == b[|b| - 1];
        match step(b[|b| - 1])
        case Err(_) =>
        case Ok(None) =>
        case Ok(Some(v)) =>
          assert Collect(a, step).value + (Collect(init, step).value + [Assignment(b[|b| - 1].columnName, v)]) ==
            (Collect(a, step).value + Collect(init, step).value) + [Assignment(b[|b| - 1].columnName, v)];
      }
    }
  }

  /** Every pair comes from a column whose step produced exactly that value. */
  lemma {:induction false} CollectFrom(cols: seq<ColumnInfo>, step: ColumnInfo -> Result<Option<Value>>, k: nat)
    requires Collect(cols, step).Ok? && k < |Collect(cols, step).value|
    ensures exists i :: 0 <= i < |cols| && Collect(cols, step).value[k].column == cols[i].columnName && step(cols[i]) == Ok(Some(Collect(cols, step).value[k].value))
  {
    var init := cols[..|cols| - 1];
    var acc := Collect(init, step).value;
    if k < |acc| {
      CollectFrom(init, step, k);
      var i :| 0 <= i < |init| && acc[k].column == init[i].columnName && step(init[i]) == Ok(Some(acc[k].value));
      assert cols[i] == init[i];
    } else {
      assert step(cols[|cols| - 1]) == Ok(Some(Collect(cols, step).value[k].value));
    }
  }

  /** Every column whose step produced a value contributes it. */
  lemma {:induction false} CollectComplete(cols: seq<ColumnInfo>, step: ColumnInfo -> Result<Option<Value>>, i: nat)
    requires Collect(cols, step).Ok? && i < |cols| && step(cols[i]).Ok? && step(cols[i]).value.Some?
    ensures Assignment(cols[i].columnName, step(cols[i]).value.value) in Collect(cols, step).value
  {
    var init := cols[..|cols| - 1];
    if i < |init| {
      assert init[i] == cols[i];
      CollectComplete(init, step, i);
    }
  }

  /** Column names no two columns share. */
  predicate DistinctNames(cols: seq<ColumnInfo>)
  {
    forall i, j :: 0 <= i < j < |cols| ==> cols[i].columnName != cols[j].columnName
  }

  /** A column whose step gives `None` (`continue`) contributes no pair at all. */
  lemma LeftOut(cols: seq<ColumnInfo>, step: ColumnInfo -> Result<Option<Value>>, i: nat)
    requires DistinctNames(cols) && i < |cols| && step(cols[i]) == Ok(None)
    requires Collect(cols, step).Ok?
    ensures cols[i].columnName !in ColumnsOf(Collect(cols, step).value)
  {
    var collected := Collect(cols, step).value;
    forall k | 0 <= k < |collected|
      ensures collected[k].column != cols[i].columnName
    {
      CollectFrom(cols, step, k);
    }
  }

  /** The loop fails exactly when some column's step fails, and then it fails
      with the first such error. */
  lemma {:induction false} CollectFails(cols: seq<ColumnInfo>, step: ColumnInfo -> Result<Option<Value>>)
    ensures Collect(cols, step).Err? <==> exists i :: 0 <= i < |cols| && step(cols[i]).Err?
    ensures Collect(cols, step).Err? ==> exists i :: 0 <= i < |cols| && step(cols[i]).Err? && step(cols[i]).error == Collect(cols, step).error && forall j :: 0 <= j < i ==> step(cols[j]).Ok?
  {
    if |cols| > 0 {
      var init := cols[..|cols| - 1];
      CollectFails(init, step);
      assert forall i :: 0 <= i < |init| ==> init[i] == cols[i];
    }
  }

  /** Once the loop over a prefix has failed, the whole loop fails the same way. */
  lemma {:induction false} CollectStopped(cols: seq<ColumnInfo>, step: ColumnInfo -> Result<Option<Value>>, j: nat)
    requires j <= |cols| && Collect(cols[..j], step).Err?
    ensures Collect(cols, step) == Collect(cols[..j], step)
    decreases |cols| - j
  {
    if j < |cols| {
      assert cols[..j + 1][..j] == cols[..j];
      CollectStopped(cols, step, j + 1);
    } else {
      assert cols[..j] == cols;
    }
  }

  // ---------------------------------------------------------- interceptors

  /** What `Create` and `Update` answer: the status and the resource (nil as `None`). */
  datatype Response = Response(status: int, resource: Option<Row>)

  /** What an interceptor hands back: its rows (`None` for a nil slice) and its error. */
  datatype Reply = Reply(rows: Option<seq<Row>>, error: Option<Error>)

  /** A database request interceptor; the request and the resource it runs
      against are part of the function. */
  datatype Interceptor = Interceptor(name: string, intercept: seq<Row> -> Reply)

  /** The resource as an interceptor reads it: a nil map reads as an empty one. */
  function AsRow(r: Option<Row>): Row
  {
    if r.Some? then r.value else map[]
  }

  predicate NoRows(reply: Reply)
  {
    reply.rows.None? || |reply.rows.value| == 0
  }

  /** One AfterCreate or AfterUpdate interceptor: its first row becomes the
      resource, no rows make it nil, and its error is only logged. */
  function AfterOne(f: Interceptor, resource: Option<Row>): (r: Option<Row>)
    ensures NoRows(f.intercept([AsRow(resource)])) <==> r.None?
  {
    var reply := f.intercept([AsRow(resource)]);
    if NoRows(reply) then None else Some(reply.rows.value[0])
  }

  function AfterChain(after: seq<Interceptor>, resource: Option<Row>): Option<Row>
  {
    if |after| == 0 then resource
    else AfterOne(after[|after| - 1], AfterChain(after[..|after| - 1], resource))
  }

  /** Running two lists of interceptors one after the other is running their concatenation. */
  lemma {:induction false} AfterChainConcat(a: seq<Interceptor>, b: seq<Interceptor>, resource: Option<Row>)
    ensures AfterChain(a + b, resource) == AfterChain(b, AfterChain(a, resource))
  {
    if |b| == 0 {
      assert a + b == a;
    } else {
      assert (a + b)[..|a + b| - 1] == a + b[..|b| - 1];
      assert (a + b)[|a + b| - 1] == b[|b| - 1];
      AfterChainConcat(a, b[..|b| - 1], resource);
    }
  }

  /** An interceptor that returns no rows whatever it is given. */
  ghost predicate AlwaysEmpty(f: Interceptor)
  {
    forall rows :: NoRows(f.intercept(rows))
  }

  /** An interceptor that never returns rows leaves the resource nil, whatever the others did. */
  lemma AfterChainCleared(after: seq<Interceptor>, resource: Option<Row>, k: nat)
    requires k < |after| && AlwaysEmpty(after[k])
    requires forall j :: k < j < |after| ==> AlwaysEmpty(after[j])
    ensures AfterChain(after, resource) == None
  {
    AfterChainClearedFrom(after, resource, k, |after|);
  }

  lemma {:induction false} AfterChainClearedFrom(after: seq<Interceptor>, resource: Option<Row>, k: nat, n: nat)
    requires k < n <= |after| && AlwaysEmpty(after[k])
    requires forall j :: k < j < n ==> AlwaysEmpty(after[j])
    ensures AfterChain(after[..n], resource) == None
  {
    assert after[..n][..n - 1] == after[..n - 1];
    assert after[..n][n - 1] == after[n - 1];
    if n - 1 > k {
      AfterChainClearedFrom(after, resource, k, n - 1);
    }
  }

  /** The AfterCreate and AfterUpdate loops. */
  method RunAfter(after: seq<Interceptor>, resource: Option<Row>) returns (r: Option<Row>)
    ensures r == AfterChain(after, resource)
  {
    r := resource;
    for i := 0 to |after|
      invariant r == AfterChain(after[..i], resource)
    {
      assert after[..i + 1][..i] == after[..i];
      var results := after[i].intercept([AsRow(r)]);
      if results.rows.None? || |results.rows.value| == 0 {
        r := None;
      } else {
        r := Some(results.rows.value[0]);
      }
    }
    assert after[..|after|] == after;
  }
}
