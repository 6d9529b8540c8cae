/** The pieces of the OpenAPI integration performer that build a request
    (server/resource/action_integration_execute.go): the `{name}` parameters of
    a path template, and the request body built from a schema and the action's
    attribute values. */
module RequestBody {
  import opened Text
  import opened Values
  import OutcomeDispatch
  import Exchanges
  import Evaluate

  // ------------------------------------------------------- path parameters

  /** The first index of `c` in `s`. */
  function IndexOf(s: string, c: char): (k: Option<nat>)
    ensures k.Some? ==> k.value < |s| && s[k.value] == c && forall j :: 0 <= j < k.value ==> s[j] != c
    ensures k.None? ==> forall j :: 0 <= j < |s| ==> s[j] != c
  {
    if |s| == 0 then None
    else if s[0] == c then Some(0)
    else match IndexOf(s[1..], c)
      case None => None
      case Some(k) => Some(k + 1)
  }

  /** The submatches of `\{([^}]+)\}`, found left to right without overlap: a
      `{`, then at least one character other than `}`, then `}`. */
  function ParameterNames(s: string): seq<string>
    decreases |s|
  {
    if |s| == 0 then []
    else if s[0] != '{' then ParameterNames(s[1..])
    else
      match IndexOf(s[1..], '}')
      case None => []
      case Some(j) =>
        if j == 0 then ParameterNames(s[1..])
        else [s[1..][..j]] + ParameterNames(s[j + 2..])
  }

  /** Every parameter name is non-empty and holds no closing brace. */
  lemma {:induction false} ParameterNamesWellFormed(s: string)
    ensures forall k :: 0 <= k < |ParameterNames(s)| ==> |ParameterNames(s)[k]| > 0 && '}' !in ParameterNames(s)[k]
    decreases |s|
  {
    if |s| > 0 {
      if s[0] != '{' {
        ParameterNamesWellFormed(s[1..]);
      } else {
        match IndexOf(s[1..], '}')
        case None =>
        case Some(j) =>
          if j == 0 {
            ParameterNamesWellFormed(s[1..]);
          } else {
            assert forall i :: 0 <= i < j ==> s[1..][..j][i] == s[1..][i];
            ParameterNamesWellFormed(s[j + 2..]);
          }
      }
    }
  }

  /** Where the first `c` at or after `from` is, seen from `from`. */
  lemma {:induction false} IndexOfFrom(s: string, from: nat, c: char, n: nat)
    requires from + n < |s| && s[from + n] == c
    requires forall m :: from <= m < from + n ==> s[m] != c
    ensures IndexOf(s[from..], c) == Some(n)
    decreases n
  {
    if n > 0 {
      assert s[from..][1..] == s[from + 1..];
      IndexOfFrom(s, from + 1, c, n - 1);
    }
  }

  lemma {:induction false} IndexOfFromNone(s: string, from: nat, c: char)
    requires from <= |s|
    requires forall m :: from <= m < |s| ==> s[m] != c
    ensures IndexOf(s[from..], c) == None
    decreases |s| - from
  {
    if from < |s| {
      assert s[from..][1..] == s[from + 1..];
      IndexOfFromNone(s, from + 1, c);
    }
  }

  /** A path template read back: a literal without braces, then `{name}`, gives
      `name` first and then the names of what follows. */
  lemma {:induction false} ParameterNamesOfTemplate(literal: string, name: string, rest: string)
    requires '{' !in literal && |name| > 0 && '}' !in name
    ensures ParameterNames(literal + "{" + name + "}" + rest) == [name] + ParameterNames(rest)
    decreases |literal|
  {
    var s := literal + "{" + name + "}" + rest;
    if |literal| > 0 {
      assert s[0] == literal[0];
      assert s[1..] == literal[1..] + "{" + name + "}" + rest;
      ParameterNamesOfTemplate(literal[1..], name, rest);
    } else {
      assert s == "{" + name + "}" + rest;
      assert forall m :: 1 <= m < 1 + |name| ==> s[m] == name[m - 1];
      IndexOfFrom(s, 1, '}', |name|);
      assert s[1..][..|name|] == name;
      assert s[|name| + 2..] == rest;
    }
  }

  /** A string without an opening brace has no parameters. */
  lemma {:induction false} NoBracesNoParameters(s: string)
    requires '{' !in s
    ensures ParameterNames(s) == []
    decreases |s|
  {
    if |s| > 0 {
      assert s[0] != '{';
      assert forall i :: 0 <= i < |s| - 1 ==> s[1..][i] == s[i + 1];
      NoBracesNoParameters(s[1..]);
    }
  }

  /** One step of the scan at position `i`, where `j` is the first `}` after
      `i` (or the end of `s`). */
  lemma ParameterNamesAt(s: string, i: nat, j: nat)
    requires i < j <= |s| && s[i] == '{'
    requires j < |s| ==> s[j] == '}'
    requires forall m :: i + 1 <= m < j ==> s[m] != '}'
    ensures j == |s| ==> ParameterNames(s[i..]) == []
    ensures j == i + 1 < |s| ==> ParameterNames(s[i..]) == ParameterNames(s[i + 1..])
    ensures i + 1 < j < |s| ==> ParameterNames(s[i..]) == [s[i + 1..j]] + ParameterNames(s[j + 1..])
  {
    assert s[i..][1..] == s[i + 1..];
    if j == |s| {
      IndexOfFromNone(s, i + 1, '}');
    } else {
      IndexOfFrom(s, i + 1, '}', j - i - 1);
      assert s[i..][1..][..j - i - 1] == s[i + 1..j];
      assert s[i..][j - i + 1..] == s[j + 1..];
    }
  }

  lemma SkipOutsideBraces(s: string, i: nat)
    requires i < |s| && s[i] != '{'
    ensures ParameterNames(s[i..]) == ParameterNames(s[i + 1..])
  {
    assert s[i..][1..] == s[i + 1..];
  }

  /** `GetParametersNames`, with the regular expression written out as a scanner. */
  method GetParametersNames(s: string) returns (ret: seq<string>)
    ensures ret == ParameterNames(s)
  {
    ret := [];
    var i := 0;
    while i < |s|
      invariant 0 <= i <= |s|
      invariant ret + ParameterNames(s[i..]) == ParameterNames(s)
      decreases |s| - i
    {
      if s[i] != '{' {
        SkipOutsideBraces(s, i);
        i := i + 1;
        continue;
      }
      var j := i + 1;
      while j < |s| && s[j] != '}'
        invariant i + 1 <= j <= |s|
        invariant forall m :: i + 1 <= m < j ==> s[m] != '}'
      {
        j := j + 1;
      }
      ParameterNamesAt(s, i, j);
      if j == |s| {
        assert ret + ParameterNames(s[|s|..]) == ret;
        i := |s|;
      } else if j == i + 1 {
        i := i + 1;
      } else {
        var name := s[i + 1..j];
        assert (ret + [name]) + ParameterNames(s[j + 1..]) == ret + ([name] + ParameterNames(s[j + 1..]));
        ret := ret + [name];
        i := j + 1;
      }
    }
  }

  // ------------------------------------------------------------- schemas

  datatype Mode = ModeRequest | ModeResponse

  /** The parts of an OpenAPI 3 schema object the body builder reads. A nil
      schema reference is `None`. */
  datatype Schema = Schema(
    schemaType: string,
    items: Option<Schema>,
    properties: seq<Property>,
    additionalProperties: Option<Schema>,
    readOnly: bool,
    writeOnly: bool,
    anyOf: seq<Schema>)

  /** One entry of `Properties`, in the order the map is visited. */
  datatype Property = Property(key: string, schema: Option<Schema>)

  /** What `CreateRequestBody` returns: a value and an error, both of which a
      caller may look at. */
  datatype Example = Example(value: Value, error: Option<Error>)

  /** The numeric branch, which converts through floating point; it is not part of this model. */
  type NumericBody = (string, Schema, Row) -> Example

  /** How a schema object itself reads when it is stored as a value (the form
      branch for a named nested object stores the schema reference, not its example). */
  type SchemaValue = Schema -> Value

  const FormMediaType := "application/x-www-form-urlencoded"

  /** `excludeFromMode`: a nil schema, a read-only schema when building a
      request, and a write-only schema when building a response are left out. */
  function ExcludeFromMode(mode: Mode, schema: Option<Schema>): (r: bool)
    ensures schema.None? ==> r
    ensures schema.Some? ==> (r <==> (mode == ModeRequest && schema.value.readOnly) || (mode == ModeResponse && schema.value.writeOnly))
  {
    if schema.None? then true
    else if mode == ModeRequest && schema.value.readOnly then true
    else if mode == ModeResponse && schema.value.writeOnly then true
    else false
  }

  predicate Panicked(e: Example)
  {
    e.error.Some? && e.error.value.Panic?
  }

  function Fail(e: Error): Example
  {
    Example(Null, Some(e))
  }

  /** A `boolean` schema: absent gives nil; "true" in any case gives true; a
      boolean gives itself; anything else gives false. */
  function BooleanBody(name: string, values: Row): Example
  {
    if name !in values then Example(Null, None)
    else
      match values[name]
      case Str(s) => Example(Bool(ToLower(s) == "true"), None)
      case Bool(b) => Example(Bool(b), None)
      case _ => Example(Bool(false), None)
  }

  /** A `string` schema: nil gives nil, a string gives itself, anything else fails its type assertion. */
  function StringBody(name: string, values: Row): Example
  {
    match Lookup(values, name)
    case Null => Example(Null, None)
    case Str(s) => Example(Str(s), None)
    case _ => Fail(Panic(OutcomeDispatch.StringAssertionPanic))
  }

  /** The list items an array schema builds from, in order: maps are kept,
      strings are wrapped as `{"": s}`, anything else is dropped. */
  function ArrayRows(items: seq<Value>): (rows: seq<Row>)
    ensures |rows| <= |items|
  {
    if |items| == 0 then []
    else
      var rows := ArrayRows(items[..|items| - 1]);
      match items[|items| - 1]
      case Map(m) => rows + [m]
      case Str(s) => rows + [map["" := Str(s)]]
      case _ => rows
  }

  /** The request body for `schema`, looking up `name` in `values`. */
  function RequestBody(mode: Mode, mediaType: string, name: string, schema: Schema, values: Row, numeric: NumericBody, asValue: SchemaValue): Example
    decreases schema, 3
  {
    var t := schema.schemaType;
    if t == "boolean" then BooleanBody(name, values)
    else if t == "number" || t == "integer" then
      if Lookup(values, name) == Null then Example(Null, None) else numeric(name, schema, values)
    else if t == "string" then StringBody(name, values)
    else if t == "array" || schema.items.Some? then ArrayBody(mode, mediaType, name, schema, values, numeric, asValue)
    else if t == "object" || |schema.properties| > 0 then ObjectBody(mode, mediaType, name, schema, values, numeric, asValue)
    else if |schema.anyOf| > 0 then AnyOfBody(mode, mediaType, name, schema, 0, values, numeric, asValue)
    else Fail(NotAValidSchema)
  }

  /** The `anyOf` alternatives from the `i`-th on: the first one that fails
      while still producing a value is the answer; otherwise nil. */
  function AnyOfBody(mode: Mode, mediaType: string, name: string, schema: Schema, i: nat, values: Row, numeric: NumericBody, asValue: SchemaValue): Example
    requires i <= |schema.anyOf|
    decreases schema, 2, |schema.anyOf| - i
  {
    if i == |schema.anyOf| then Example(Null, None)
    else
      var ex := RequestBody(mode, mediaType, name, schema.anyOf[i], values, numeric, asValue);
      if Panicked(ex) then Fail(ex.error.value)
      else if ex.error.Some? && ex.value != Null then ex
      else AnyOfBody(mode, mediaType, name, schema, i + 1, values, numeric, asValue)
  }

  /** An array schema: nil gives nil, a value that is not a list is refused
      (with an empty list beside the error), and each item is built in order
      with the item schema, the first failing item failing the whole array. */
  function ArrayBody(mode: Mode, mediaType: string, name: string, schema: Schema, values: Row, numeric: NumericBody, asValue: SchemaValue): Example
    decreases schema, 2
  {
    match Lookup(values, name)
    case Null => Example(Null, None)
    case List(vs) =>
      if schema.items.None? then Example(List([]), None)
      else ItemsBody(mode, mediaType, name, schema.items.value, ArrayRows(vs), numeric, asValue)
    case _ => Example(List([]), Some(NotArrayType(name)))
  }

  function ItemsBody(mode: Mode, mediaType: string, name: string, itemSchema: Schema, rows: seq<Row>, numeric: NumericBody, asValue: SchemaValue): (e: Example)
    ensures e.error.None? ==> e.value.List? && |e.value.items| == |rows|
    decreases itemSchema, 4, |rows|
  {
    if |rows| == 0 then Example(List([]), None)
    else
      var done := ItemsBody(mode, mediaType, name, itemSchema, rows[..|rows| - 1], numeric, asValue);
      if done.error.Some? then done
      else
        var ex := RequestBody(mode, mediaType, "", itemSchema, rows[|rows| - 1], numeric, asValue);
        if Panicked(ex) then Fail(ex.error.value)
        else if ex.error.Some? then Fail(ItemConversionFailed(name))
        else Example(List(done.value.items + [ex.value]), None)
  }

  /** The entries `m` contributes under `prefix`: key `prefix + k + "]"` for each key `k`. */
  function Bracketed(prefix: string, m: Row): Row
  {
    BracketedOf(prefix, m, m.Keys)
  }

  /** The entries contributed by the keys `ks` of `m`. */
  function BracketedOf(prefix: string, m: Row, ks: set<string>): Row
    requires ks <= m.Keys
  {
    BracketedInjective(prefix);
    map k | k in ks :: prefix + k + "]" := m[k]
  }

  lemma BracketedInjective(prefix: string)
    ensures forall k1: string, k2: string :: prefix + k1 + "]" == prefix + k2 + "]" ==> k1 == k2
  {
    forall k1: string, k2: string | prefix + k1 + "]" == prefix + k2 + "]" ensures k1 == k2 {
      assert |k1| == |k2|;
      assert k1 == (prefix + k1 + "]")[|prefix|..|prefix| + |k1|];
      assert k2 == (prefix + k2 + "]")[|prefix|..|prefix| + |k2|];
    }
  }

  /** The form entries of an array property: `key[][sub]` for each entry of a
      map item, `key[]` for any other item (a later item overwriting an earlier one). */
  function ArrayFormEntries(example: Row, key: string, items: seq<Value>): Row
  {
    if |items| == 0 then example
    else
      var acc := ArrayFormEntries(example, key, items[..|items| - 1]);
      match items[|items| - 1]
      case Map(m) => acc + Bracketed(key + "[][", m)
      case v => acc[key + "[]" := v]
  }

  /** Where one built property goes in the example. Outside form encoding it is
      stored under its (prefixed) key; in form encoding arrays and objects are
      spread into bracketed keys. */
  function PropertyEntries(example: Row, mediaType: string, suffix: string, key: string, propertyType: string, sub: Schema, ex: Value, asValue: SchemaValue): Result<Row>
  {
    if mediaType != FormMediaType then Ok(example[suffix + key := ex])
    else if propertyType == "array" then
      if ex.List? then Ok(ArrayFormEntries(example, suffix + key, ex.items))
      else Err(Panic(Exchanges.ListAssertionPanic))
    else if propertyType == "object" then
      if suffix == "" then
        if ex.Map? then Ok(example + Bracketed(key + "[", ex.m))
        else Err(Panic(Evaluate.NotAMapPanic))
      else Ok(example[suffix + "[" + key + "]" := asValue(sub)])
    else Ok(example[suffix + key := ex])
  }

  /** The object being built: the entries so far and whether any property produced a value. */
  datatype Building = Building(example: Row, isEmpty: bool) | Aborted(error: Error)

  /** The properties `schema.properties[..n]` folded into the example. */
  function PropertiesBody(mode: Mode, mediaType: string, suffix: string, schema: Schema, n: nat, values: Row, numeric: NumericBody, asValue: SchemaValue): Building
    requires n <= |schema.properties|
    decreases schema, 1, n
  {
    if n == 0 then Building(map[], true)
    else
      match PropertiesBody(mode, mediaType, suffix, schema, n - 1, values, numeric, asValue)
      case Aborted(e) => Aborted(e)
      case Building(example, isEmpty) => PropertyBody(mode, mediaType, suffix, schema, n - 1, example, isEmpty, values, numeric, asValue)
  }

  /** One property: skipped when the mode excludes it or it builds to nil;
      a failure is reported as `can't get example for '<key>'`. */
  function PropertyBody(mode: Mode, mediaType: string, suffix: string, schema: Schema, i: nat, example: Row, isEmpty: bool, values: Row, numeric: NumericBody, asValue: SchemaValue): Building
    requires i < |schema.properties|
    decreases schema, 0
  {
    var p := schema.properties[i];
    if ExcludeFromMode(mode, p.schema) then Building(example, isEmpty)
    else
      var ex := RequestBody(mode, mediaType, suffix + p.key, p.schema.value, values, numeric, asValue);
      if Panicked(ex) then Aborted(ex.error.value)
      else if ex.error.Some? then Aborted(PropertyFailed(p.key))
      else if ex.value == Null then Building(example, isEmpty)
      else
        match PropertyEntries(example, mediaType, suffix, p.key, p.schema.value.schemaType, p.schema.value, ex.value, asValue)
        case Err(e) => Aborted(e)
        case Ok(entries) => Building(entries, false)
  }

  /** The additional-properties schema, built under `suffix + name`: its error
      is only logged, and a non-nil result must be a map whose entries are added. */
  function AdditionalBody(mode: Mode, mediaType: string, name: string, suffix: string, schema: Schema, b: Building, values: Row, numeric: NumericBody, asValue: SchemaValue): Building
    decreases schema, 0
  {
    match b
    case Aborted(e) => Aborted(e)
    case Building(example, isEmpty) =>
      if ExcludeFromMode(mode, schema.additionalProperties) then b
      else
        var ex := RequestBody(mode, mediaType, suffix + name, schema.additionalProperties.value, values, numeric, asValue);
        if Panicked(ex) then Aborted(ex.error.value)
        else if ex.value == Null then b
        else if !ex.value.Map? then Aborted(Panic(Evaluate.NotAMapPanic))
        else Building(example + ex.value.m, false)
  }

  function Suffix(name: string): string
  {
    if name == "" then "" else name + "."
  }

  /** An object schema: the properties, then the additional properties; nil when nothing was produced. */
  function ObjectBody(mode: Mode, mediaType: string, name: string, schema: Schema, values: Row, numeric: NumericBody, asValue: SchemaValue): Example
    decreases schema, 2
  {
    var suffix := Suffix(name);
    var props := PropertiesBody(mode, mediaType, suffix, schema, |schema.properties|, values, numeric, asValue);
    match AdditionalBody(mode, mediaType, name, suffix, schema, props, values, numeric, asValue)
    case Aborted(e) => Fail(e)
    case Building(example, isEmpty) => if isEmpty then Example(Null, None) else Example(Map(example), None)
  }

  // ------------------------------------------------------------ properties

  /** A boolean schema: absent gives nil, a boolean gives itself, a string
      gives whether it reads "true" in any case, anything else gives false. */
  lemma BooleanSchemaBody(mode: Mode, mediaType: string, name: string, schema: Schema, values: Row, numeric: NumericBody, asValue: SchemaValue)
    requires schema.schemaType == "boolean"
    ensures name !in values ==> RequestBody(mode, mediaType, name, schema, values, numeric, asValue) == Example(Null, None)
    ensures name in values && values[name].Bool? ==> RequestBody(mode, mediaType, name, schema, values, numeric, asValue) == Example(values[name], None)
    ensures name in values && values[name].Str? ==> RequestBody(mode, mediaType, name, schema, values, numeric, asValue) == Example(Bool(ToLower(values[name].s) == "true"), None)
    ensures name in values && !values[name].Bool? && !values[name].Str? ==> RequestBody(mode, mediaType, name, schema, values, numeric, asValue) == Example(Bool(false), None)
  {
  }

  /** A string schema: nil gives nil, a string gives itself, anything else panics. */
  lemma StringSchemaBody(mode: Mode, mediaType: string, name: string, schema: Schema, values: Row, numeric: NumericBody, asValue: SchemaValue)
    requires schema.schemaType == "string"
    ensures Lookup(values, name).Str? ==> RequestBody(mode, mediaType, name, schema, values, numeric, asValue) == Example(Lookup(values, name), None)
    ensures Lookup(values, name) == Null ==> RequestBody(mode, mediaType, name, schema, values, numeric, asValue) == Example(Null, None)
    ensures !Lookup(values, name).Str? && Lookup(values, name) != Null ==> Panicked(RequestBody(mode, mediaType, name, schema, values, numeric, asValue))
  {
  }

  /** An array schema with an item schema: nil gives nil, a non-list is refused
      with an empty list beside the error, and otherwise there is one built item
      per kept list item, unless an item fails. */
  lemma ArrayBodyShape(mode: Mode, mediaType: string, name: string, schema: Schema, values: Row, numeric: NumericBody, asValue: SchemaValue)
    requires schema.schemaType == "array" && schema.items.Some?
    ensures var e := RequestBody(mode, mediaType, name, schema, values, numeric, asValue);
      && (Lookup(values, name) == Null ==> e == Example(Null, None))
      && (!Lookup(values, name).List? && Lookup(values, name) != Null ==> e == Example(List([]), Some(NotArrayType(name))))
      && (Lookup(values, name).List? && e.error.None? ==> e.value.List? && |e.value.items| == |ArrayRows(Lookup(values, name).items)|)
  {
  }

  /** Each built item is the item schema applied to the corresponding kept list item, in order. */
  lemma {:induction false} ItemsBodyAt(mode: Mode, mediaType: string, name: string, itemSchema: Schema, rows: seq<Row>, numeric: NumericBody, asValue: SchemaValue, k: nat)
    requires ItemsBody(mode, mediaType, name, itemSchema, rows, numeric, asValue).error.None?
    requires k < |rows|
    ensures RequestBody(mode, mediaType, "", itemSchema, rows[k], numeric, asValue) ==
      Example(ItemsBody(mode, mediaType, name, itemSchema, rows, numeric, asValue).value.items[k], None)
  {
    var init := rows[..|rows| - 1];
    if k < |init| {
      ItemsBodyAt(mode, mediaType, name, itemSchema, init, numeric, asValue, k);
      assert init[k] == rows[k];
    }
  }

  /** If any item fails to build, the array fails (with the item's panic, or as a whole). */
  lemma {:induction false} ItemsBodyFails(mode: Mode, mediaType: string, name: string, itemSchema: Schema, rows: seq<Row>, numeric: NumericBody, asValue: SchemaValue, k: nat)
    requires k < |rows|
    requires RequestBody(mode, mediaType, "", itemSchema, rows[k], numeric, asValue).error.Some?
    ensures ItemsBody(mode, mediaType, name, itemSchema, rows, numeric, asValue).error.Some?
  {
    var init := rows[..|rows| - 1];
    if k < |init| {
      assert init[k] == rows[k];
      ItemsBodyFails(mode, mediaType, name, itemSchema, init, numeric, asValue, k);
    }
  }

  /** The kept list items: strings wrapped under the empty key, maps as they are, in order. */
  lemma {:induction false} ArrayRowsKeep(items: seq<Value>)
    ensures (forall k :: 0 <= k < |items| ==> items[k].Map?) ==> ArrayRows(items) == seq(|items|, k requires 0 <= k < |items| => items[k].m)
    ensures (forall k :: 0 <= k < |items| ==> items[k].Str?) ==> ArrayRows(items) == seq(|items|, k requires 0 <= k < |items| => map["" := items[k]])
    ensures (forall k :: 0 <= k < |items| ==> !items[k].Map? && !items[k].Str?) ==> ArrayRows(items) == []
  {
    if |items| > 0 {
      var init := items[..|items| - 1];
      ArrayRowsKeep(init);
      assert forall k :: 0 <= k < |init| ==> init[k] == items[k];
    }
  }

  /** An object whose every property is excluded by the mode, and which has no
      additional properties to build, builds to nil. */
  lemma {:induction false} ExcludedPropertiesLeftOut(mode: Mode, mediaType: string, suffix: string, schema: Schema, n: nat, values: Row, numeric: NumericBody, asValue: SchemaValue)
    requires n <= |schema.properties|
    requires forall i :: 0 <= i < n ==> ExcludeFromMode(mode, schema.properties[i].schema)
    ensures PropertiesBody(mode, mediaType, suffix, schema, n, values, numeric, asValue) == Building(map[], true)
  {
    if n > 0 {
      ExcludedPropertiesLeftOut(mode, mediaType, suffix, schema, n - 1, values, numeric, asValue);
    }
  }

  lemma EmptyObjectIsNil(mode: Mode, mediaType: string, name: string, schema: Schema, values: Row, numeric: NumericBody, asValue: SchemaValue)
    requires schema.schemaType == "object" && schema.items.None?
    requires forall i :: 0 <= i < |schema.properties| ==> ExcludeFromMode(mode, schema.properties[i].schema)
    requires ExcludeFromMode(mode, schema.additionalProperties)
    ensures RequestBody(mode, mediaType, name, schema, values, numeric, asValue) == Example(Null, None)
  {
    ExcludedPropertiesLeftOut(mode, mediaType, Suffix(name), schema, |schema.properties|, values, numeric, asValue);
    var b := Building(map[], true);
    assert AdditionalBody(mode, mediaType, name, Suffix(name), schema, b, values, numeric, asValue) == b;
    assert ObjectBody(mode, mediaType, name, schema, values, numeric, asValue) == Example(Null, None);
  }

  /** A property that the mode keeps and that builds to nil without an error is
      left out: the object so far, and whether it is still empty, are unchanged. */
  lemma PropertyNilLeftOut(mode: Mode, mediaType: string, suffix: string, schema: Schema, i: nat, example: Row, isEmpty: bool, values: Row, numeric: NumericBody, asValue: SchemaValue)
    requires i < |schema.properties|
    requires !ExcludeFromMode(mode, schema.properties[i].schema)
    requires RequestBody(mode, mediaType, suffix + schema.properties[i].key, schema.properties[i].schema.value, values, numeric, asValue) == Example(Null, None)
    ensures PropertyBody(mode, mediaType, suffix, schema, i, example, isEmpty, values, numeric, asValue) == Building(example, isEmpty)
  {
  }

  /** Whether the `i`-th property adds something to the object: the mode keeps
      it and it builds, without an error, to a value other than nil. */
  predicate PropertyProduces(mode: Mode, mediaType: string, suffix: string, schema: Schema, i: nat, values: Row, numeric: NumericBody, asValue: SchemaValue)
    requires i < |schema.properties|
  {
    var p := schema.properties[i];
    && !ExcludeFromMode(mode, p.schema)
    && var ex := RequestBody(mode, mediaType, suffix + p.key, p.schema.value, values, numeric, asValue);
       ex.error.None? && ex.value != Null
  }

  /** Whether the additional properties add something: the mode keeps them and
      they build to a value other than nil (their error is only logged). */
  predicate AdditionalProduces(mode: Mode, mediaType: string, name: string, schema: Schema, values: Row, numeric: NumericBody, asValue: SchemaValue)
  {
    && !ExcludeFromMode(mode, schema.additionalProperties)
    && RequestBody(mode, mediaType, Suffix(name) + name, schema.additionalProperties.value, values, numeric, asValue).value != Null
  }

  /** While no property aborts the object, it is still empty exactly when none
      of the properties folded so far produced a value. */
  lemma {:induction false} PropertiesEmptyExactly(mode: Mode, mediaType: string, suffix: string, schema: Schema, n: nat, values: Row, numeric: NumericBody, asValue: SchemaValue)
    requires n <= |schema.properties|
    requires PropertiesBody(mode, mediaType, suffix, schema, n, values, numeric, asValue).Building?
    ensures PropertiesBody(mode, mediaType, suffix, schema, n, values, numeric, asValue).isEmpty <==>
      forall i :: 0 <= i < n ==> !PropertyProduces(mode, mediaType, suffix, schema, i, values, numeric, asValue)
  {
    if n > 0 {
      var before := PropertiesBody(mode, mediaType, suffix, schema, n - 1, values, numeric, asValue);
      assert before.Building?;
      PropertiesEmptyExactly(mode, mediaType, suffix, schema, n - 1, values, numeric, asValue);
      var after := PropertyBody(mode, mediaType, suffix, schema, n - 1, before.example, before.isEmpty, values, numeric, asValue);
      assert PropertiesBody(mode, mediaType, suffix, schema, n, values, numeric, asValue) == after;
      assert after.isEmpty == (before.isEmpty && !PropertyProduces(mode, mediaType, suffix, schema, n - 1, values, numeric, asValue));
    }
  }

  /** An object schema that builds without an error builds to nil exactly when
      no property and no additional property produced a value. */
  lemma ObjectNilExactly(mode: Mode, mediaType: string, name: string, schema: Schema, values: Row, numeric: NumericBody, asValue: SchemaValue)
    requires ObjectBody(mode, mediaType, name, schema, values, numeric, asValue).error.None?
    ensures ObjectBody(mode, mediaType, name, schema, values, numeric, asValue).value == Null <==>
      (forall i :: 0 <= i < |schema.properties| ==> !PropertyProduces(mode, mediaType, Suffix(name), schema, i, values, numeric, asValue))
      && !AdditionalProduces(mode, mediaType, name, schema, values, numeric, asValue)
  {
    var suffix := Suffix(name);
    var props := PropertiesBody(mode, mediaType, suffix, schema, |schema.properties|, values, numeric, asValue);
    assert props.Building?;
    PropertiesEmptyExactly(mode, mediaType, suffix, schema, |schema.properties|, values, numeric, asValue);
  }

  /** The kept items of a concatenation are the kept items of each part, in order. */
  lemma {:induction false} ArrayRowsConcat(a: seq<Value>, b: seq<Value>)
    ensures ArrayRows(a + b) == ArrayRows(a) + ArrayRows(b)
    decreases |b|
  {
    if |b| > 0 {
      var b' := b[..|b| - 1];
      assert (a + b)[..|a + b| - 1] == a + b';
      assert (a + b)[|a + b| - 1] == b[|b| - 1];
      ArrayRowsConcat(a, b');
    } else {
      assert a + b == a;
    }
  }

  /** One item on its own: a map is kept, a string is wrapped under the empty key, anything else is dropped. */
  lemma ArrayRowsSingle(v: Value)
    ensures v.Map? ==> ArrayRows([v]) == [v.m]
    ensures v.Str? ==> ArrayRows([v]) == [map["" := v]]
    ensures !v.Map? && !v.Str? ==> ArrayRows([v]) == []
  {
    assert [v][..0] == [];
  }

  /** Outside form encoding a property that builds to a value `v` is stored
      under its key, prefixed with `name.` when the object has a name. */
  lemma PropertyStoredUnderKey(mode: Mode, mediaType: string, name: string, schema: Schema, i: nat, example: Row, isEmpty: bool, values: Row, numeric: NumericBody, asValue: SchemaValue)
    requires i < |schema.properties| && mediaType != FormMediaType
    requires !ExcludeFromMode(mode, schema.properties[i].schema)
    requires var ex := RequestBody(mode, mediaType, Suffix(name) + schema.properties[i].key, schema.properties[i].schema.value, values, numeric, asValue);
      ex.error.None? && ex.value != Null
    ensures var p := schema.properties[i];
      var ex := RequestBody(mode, mediaType, Suffix(name) + p.key, p.schema.value, values, numeric, asValue);
      PropertyBody(mode, mediaType, Suffix(name), schema, i, example, isEmpty, values, numeric, asValue) ==
        Building(example[(if name == "" then p.key else name + "." + p.key) := ex.value], false)
  {
    var p := schema.properties[i];
    var ex := RequestBody(mode, mediaType, Suffix(name) + p.key, p.schema.value, values, numeric, asValue);
    assert !Panicked(ex);
    assert PropertyEntries(example, mediaType, Suffix(name), p.key, p.schema.value.schemaType, p.schema.value, ex.value, asValue) == Ok(example[Suffix(name) + p.key := ex.value]);
    assert Suffix(name) + p.key == (if name == "" then p.key else name + "." + p.key);
  }

  /** Each key of `m` contributes its entry under `prefix + key + "]"`, and nothing else is contributed. */
  lemma BracketedAt(prefix: string, m: Row, k: string)
    ensures k in m ==> prefix + k + "]" in Bracketed(prefix, m) && Bracketed(prefix, m)[prefix + k + "]"] == m[k]
    ensures forall key :: key in Bracketed(prefix, m) ==> |key| > |prefix|
  {
    BracketedInjective(prefix);
    if k in m {
      assert prefix + k + "]" in BracketedOf(prefix, m, m.Keys);
    }
  }

  /** In form encoding an array property spreads a map item into `key[][sub]`
      entries; the last item to write a key wins. */
  lemma {:induction false} ArrayFormMapKeys(example: Row, key: string, items: seq<Value>, k: nat, sub: string)
    requires k < |items| && items[k].Map? && sub in items[k].m
    requires forall j :: k < j < |items| ==> !items[j].Map? || sub !in items[j].m
    ensures key + "[][" + sub + "]" in ArrayFormEntries(example, key, items)
    ensures ArrayFormEntries(example, key, items)[key + "[][" + sub + "]"] == items[k].m[sub]
  {
    var init := items[..|items| - 1];
    var last := items[|items| - 1];
    var long := key + "[][" + sub + "]";
    assert long == (key + "[][") + sub + "]";
    if k < |init| {
      assert init[k] == items[k];
      assert forall j :: k < j < |init| ==> init[j] == items[j];
      ArrayFormMapKeys(example, key, init, k, sub);
      if last.Map? {
        BracketedInjective(key + "[][");
        assert long !in Bracketed(key + "[][", last.m);
      } else {
        assert long != key + "[]" by {
          assert |long| > |key + "[]"|;
        }
      }
    } else {
      BracketedAt(key + "[][", last.m, sub);
    }
  }

  /** In form encoding an array property writes any item that is not a map to
      `key[]`; the last such item wins. */
  lemma {:induction false} ArrayFormListKeys(example: Row, key: string, items: seq<Value>, k: nat)
    requires k < |items| && !items[k].Map?
    requires forall j :: k < j < |items| ==> items[j].Map?
    ensures key + "[]" in ArrayFormEntries(example, key, items)
    ensures ArrayFormEntries(example, key, items)[key + "[]"] == items[k]
  {
    var init := items[..|items| - 1];
    var last := items[|items| - 1];
    if k < |init| {
      assert init[k] == items[k];
      assert forall j :: k < j < |init| ==> init[j] == items[j];
      ArrayFormListKeys(example, key, init, k);
      BracketedAt(key + "[][", last.m, "");
      assert key + "[]" !in Bracketed(key + "[][", last.m) by {
        assert |key + "[]"| <= |key + "[]["|;
      }
    }
  }

  /** A type no case accepts is refused. */
  lemma NotAValidSchemaRefused(mode: Mode, mediaType: string, name: string, schema: Schema, values: Row, numeric: NumericBody, asValue: SchemaValue)
    requires schema.schemaType !in {"boolean", "number", "integer", "string", "array", "object"}
    requires schema.items.None? && |schema.properties| == 0 && |schema.anyOf| == 0
    ensures RequestBody(mode, mediaType, name, schema, values, numeric, asValue) == Fail(NotAValidSchema)
  {
  }

  // --------------------------------------------------------------- methods

  /** `CreateRequestBody`. */
  method CreateRequestBody(mode: Mode, mediaType: string, name: string, schema: Schema, values: Row, numeric: NumericBody, asValue: SchemaValue) returns (r: Example)
    ensures r == RequestBody(mode, mediaType, name, schema, values, numeric, asValue)
    decreases schema, 3
  {
    var t := schema.schemaType;
    if t == "boolean" {
      r := BooleanBody(name, values);
    } else if t == "number" || t == "integer" {
      r := if Lookup(values, name) == Null then Example(Null, None) else numeric(name, schema, values);
    } else if t == "string" {
      r := StringBody(name, values);
    } else if t == "array" || schema.items.Some? {
      r := CreateArrayBody(mode, mediaType, name, schema, values, numeric, asValue);
    } else if t == "object" || |schema.properties| > 0 {
      r := CreateObjectBody(mode, mediaType, name, schema, values, numeric, asValue);
    } else if |schema.anyOf| > 0 {
      r := Example(Null, None);
      for i := 0 to |schema.anyOf|
        invariant AnyOfBody(mode, mediaType, name, schema, 0, values, numeric, asValue) == AnyOfBody(mode, mediaType, name, schema, i, values, numeric, asValue)
      {
        var ex := CreateRequestBody(mode, mediaType, name, schema.anyOf[i], values, numeric, asValue);
        if ex.error.Some? && ex.error.value.Panic? {
          return Fail(ex.error.value);
        }
        if ex.error.Some? && ex.value != Null {
          return ex;
        }
      }
    } else {
      r := Fail(NotAValidSchema);
    }
  }

  method CreateArrayBody(mode: Mode, mediaType: string, name: string, schema: Schema, values: Row, numeric: NumericBody, asValue: SchemaValue) returns (r: Example)
    ensures r == ArrayBody(mode, mediaType, name, schema, values, numeric, asValue)
    decreases schema, 2
  {
    var val := Lookup(values, name);
    if val == Null {
      return Example(Null, None);
    }
    if !val.List? {
      return Example(List([]), Some(NotArrayType(name)));
    }
    var mapVal := CollectRows(val.items);
    if schema.items.None? {
      return Example(List([]), None);
    }
    var items: seq<Value> := [];
    for k := 0 to |mapVal|
      invariant ItemsBody(mode, mediaType, name, schema.items.value, mapVal[..k], numeric, asValue) == Example(List(items), None)
    {
      var ex := CreateRequestBody(mode, mediaType, "", schema.items.value, mapVal[k], numeric, asValue);
      ItemsBodyStep(mode, mediaType, name, schema.items.value, mapVal, numeric, asValue, k, items);
      if ex.error.Some? {
        ItemsStopped(mode, mediaType, name, schema.items.value, mapVal, numeric, asValue, k + 1);
        if ex.error.value.Panic? {
          return Fail(ex.error.value);
        }
        return Fail(ItemConversionFailed(name));
      }
      items := items + [ex.value];
    }
    assert mapVal[..|mapVal|] == mapVal;
    r := Example(List(items), None);
  }

  /** One row of the item loop: the items so far grow by the row's item, or
      the row's failure is the loop's. */
  lemma ItemsBodyStep(mode: Mode, mediaType: string, name: string, itemSchema: Schema, rows: seq<Row>, numeric: NumericBody, asValue: SchemaValue, k: nat, items: seq<Value>)
    requires k < |rows| && ItemsBody(mode, mediaType, name, itemSchema, rows[..k], numeric, asValue) == Example(List(items), None)
    ensures var ex := RequestBody(mode, mediaType, "", itemSchema, rows[k], numeric, asValue);
      ItemsBody(mode, mediaType, name, itemSchema, rows[..k + 1], numeric, asValue) ==
        if Panicked(ex) then Fail(ex.error.value)
        else if ex.error.Some? then Fail(ItemConversionFailed(name))
        else Example(List(items + [ex.value]), None)
  {
    assert rows[..k + 1][..k] == rows[..k];
  }

  lemma {:induction false} ItemsStopped(mode: Mode, mediaType: string, name: string, itemSchema: Schema, rows: seq<Row>, numeric: NumericBody, asValue: SchemaValue, j: nat)
    requires j <= |rows| && ItemsBody(mode, mediaType, name, itemSchema, rows[..j], numeric, asValue).error.Some?
    ensures ItemsBody(mode, mediaType, name, itemSchema, rows, numeric, asValue) == ItemsBody(mode, mediaType, name, itemSchema, rows[..j], numeric, asValue)
    decreases |rows| - j
  {
    if j < |rows| {
      assert rows[..j + 1][..j] == rows[..j];
      ItemsStopped(mode, mediaType, name, itemSchema, rows, numeric, asValue, j + 1);
    } else {
      assert rows[..j] == rows;
    }
  }

  /** The `mapVal` loop: maps kept, strings wrapped, the rest dropped. */
  method CollectRows(items: seq<Value>) returns (rows: seq<Row>)
    ensures rows == ArrayRows(items)
  {
    rows := [];
    for k := 0 to |items|
      invariant rows == ArrayRows(items[..k])
    {
      assert items[..k + 1][..k] == items[..k];
      match items[k]
      case Map(m) => rows := rows + [m];
      case Str(s) => rows := rows + [map["" := Str(s)]];
      case _ =>
    }
    assert items[..|items|] == items;
  }

  method CreateObjectBody(mode: Mode, mediaType: string, name: string, schema: Schema, values: Row, numeric: NumericBody, asValue: SchemaValue) returns (r: Example)
    ensures r == ObjectBody(mode, mediaType, name, schema, values, numeric, asValue)
    decreases schema, 2
  {
    var suffix := if name == "" then "" else name + ".";
    var example: Row := map[];
    var isEmpty := true;
    for i := 0 to |schema.properties|
      invariant PropertiesBody(mode, mediaType, suffix, schema, i, values, numeric, asValue) == Building(example, isEmpty)
    {
      var b := CreatePropertyBody(mode, mediaType, suffix, schema, i, example, isEmpty, values, numeric, asValue);
      if b.Aborted? {
        PropertiesStopped(mode, mediaType, suffix, schema, i + 1, |schema.properties|, values, numeric, asValue);
        return Fail(b.error);
      }
      example, isEmpty := b.example, b.isEmpty;
    }
    var b := CreateAdditionalBody(mode, mediaType, name, suffix, schema, Building(example, isEmpty), values, numeric, asValue);
    if b.Aborted? {
      return Fail(b.error);
    }
    if b.isEmpty {
      return Example(Null, None);
    }
    r := Example(Map(b.example), None);
  }

  lemma {:induction false} PropertiesStopped(mode: Mode, mediaType: string, suffix: string, schema: Schema, j: nat, n: nat, values: Row, numeric: NumericBody, asValue: SchemaValue)
    requires j <= n <= |schema.properties|
    requires PropertiesBody(mode, mediaType, suffix, schema, j, values, numeric, asValue).Aborted?
    ensures PropertiesBody(mode, mediaType, suffix, schema, n, values, numeric, asValue) == PropertiesBody(mode, mediaType, suffix, schema, j, values, numeric, asValue)
    decreases n - j
  {
    if j < n {
      PropertiesStopped(mode, mediaType, suffix, schema, j, n - 1, values, numeric, asValue);
    }
  }

  method CreatePropertyBody(mode: Mode, mediaType: string, suffix: string, schema: Schema, i: nat, example: Row, isEmpty: bool, values: Row, numeric: NumericBody, asValue: SchemaValue) returns (b: Building)
    requires i < |schema.properties|
    ensures b == PropertyBody(mode, mediaType, suffix, schema, i, example, isEmpty, values, numeric, asValue)
    decreases schema, 1
  {
    var p := schema.properties[i];
    if ExcludeFromMode(mode, p.schema) {
      return Building(example, isEmpty);
    }
    var ex := CreateRequestBody(mode, mediaType, suffix + p.key, p.schema.value, values, numeric, asValue);
    if ex.error.Some? {
      if ex.error.value.Panic? {
        return Aborted(ex.error.value);
      }
      return Aborted(PropertyFailed(p.key));
    }
    if ex.value == Null {
      return Building(example, isEmpty);
    }
    var entries := StorePropertyEntries(example, mediaType, suffix, p.key, p.schema.value.schemaType, p.schema.value, ex.value, asValue);
    if entries.Err? {
      return Aborted(entries.error);
    }
    b := Building(entries.value, false);
  }

  /** The form-encoding spread, with its loops over the list and over each map item. */
  method StorePropertyEntries(example: Row, mediaType: string, suffix: string, key: string, propertyType: string, sub: Schema, ex: Value, asValue: SchemaValue) returns (r: Result<Row>)
    ensures r == PropertyEntries(example, mediaType, suffix, key, propertyType, sub, ex, asValue)
  {
    if mediaType != FormMediaType || (propertyType != "array" && propertyType != "object") {
      return Ok(example[suffix + key := ex]);
    }
    if propertyType == "array" {
      if !ex.List? {
        return Err(Panic(Exchanges.ListAssertionPanic));
      }
      var acc := SpreadArray(example, suffix + key, ex.items);
      return Ok(acc);
    }
    if suffix == "" {
      if !ex.Map? {
        return Err(Panic(Evaluate.NotAMapPanic));
      }
      var acc := AddBracketed(example, key + "[", ex.m);
      return Ok(acc);
    }
    r := Ok(example[suffix + "[" + key + "]" := asValue(sub)]);
  }

  /** The form spread of an array property's items. */
  method SpreadArray(example: Row, key: string, items: seq<Value>) returns (acc: Row)
    ensures acc == ArrayFormEntries(example, key, items)
  {
    acc := example;
    for k := 0 to |items|
      invariant acc == ArrayFormEntries(example, key, items[..k])
    {
      ArrayFormStep(example, key, items, k);
      var item := items[k];
      if item.Map? {
        acc := AddBracketed(acc, key + "[][", item.m);
      } else {
        acc := acc[key + "[]" := item];
      }
    }
    assert items[..|items|] == items;
  }

  lemma ArrayFormStep(example: Row, key: string, items: seq<Value>, k: nat)
    requires k < |items|
    ensures items[k].Map? ==> ArrayFormEntries(example, key, items[..k + 1]) == ArrayFormEntries(example, key, items[..k]) + Bracketed(key + "[][", items[k].m)
    ensures !items[k].Map? ==> ArrayFormEntries(example, key, items[..k + 1]) == ArrayFormEntries(example, key, items[..k])[key + "[]" := items[k]]
  {
    assert items[..k + 1][..k] == items[..k];
    assert items[..k + 1][k] == items[k];
  }

  /** Each entry of a map item stored under `prefix`, its key and a closing bracket, visiting the keys in any order. */
  method AddBracketed(example: Row, prefix: string, m: Row) returns (acc: Row)
    ensures acc == example + Bracketed(prefix, m)
  {
    acc := example;
    var pending := m.Keys;
    while pending != {}
      invariant pending <= m.Keys
      invariant acc == example + BracketedOf(prefix, m, m.Keys - pending)
      decreases pending
    {
      var k :| k in pending;
      BracketedStep(example, prefix, m, pending, k);
      acc := acc[prefix + k + "]" := m[k]];
      pending := pending - {k};
    }
  }

  lemma BracketedStep(example: Row, prefix: string, m: Row, pending: set<string>, k: string)
    requires k in pending && pending <= m.Keys
    ensures (example + BracketedOf(prefix, m, m.Keys - pending))[prefix + k + "]" := m[k]]
      == example + BracketedOf(prefix, m, m.Keys - (pending - {k}))
  {
    BracketedInjective(prefix);
  }

  method CreateAdditionalBody(mode: Mode, mediaType: string, name: string, suffix: string, schema: Schema, b: Building, values: Row, numeric: NumericBody, asValue: SchemaValue) returns (r: Building)
    requires b.Building?
    ensures r == AdditionalBody(mode, mediaType, name, suffix, schema, b, values, numeric, asValue)
    decreases schema, 1
  {
    if ExcludeFromMode(mode, schema.additionalProperties) {
      return b;
    }
    var ex := CreateRequestBody(mode, mediaType, suffix + name, schema.additionalProperties.value, values, numeric, asValue);
    if ex.error.Some? && ex.error.value.Panic? {
      return Aborted(ex.error.value);
    }
    if ex.value == Null {
      return b;
    }
    if !ex.value.Map? {
      return Aborted(Panic(Evaluate.NotAMapPanic));
    }
    r := Building(b.example + ex.value.m, false);
  }
}
