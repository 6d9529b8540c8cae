/** The JSON-like values the engine passes around (Go's `interface{}` holding
    nil, bool, int, string, `[]interface{}`, `[]string` or `map[string]interface{}`),
    the errors it reports, and Go's `%v` formatting of values. */
module Values {
  import opened Text

  datatype Value =
    | Null
    | Bool(b: bool)
    | Int(i: int)
    | Str(s: string)
    | List(items: seq<Value>)
      /** Go's `[]string`: what a form field or query parameter with several
          values holds. A type assertion to `[]interface{}` fails on it. */
    | Strings(strs: seq<string>)
    | Map(m: map<string, Value>)

  type Row = map<string, Value>

  /** Go's `m[k]` on a `map[string]interface{}`: nil when the key is absent. */
  function Lookup(m: Row, k: string): (v: Value)
    ensures k !in m ==> v == Null
    ensures k in m ==> v == m[k]
  {
    if k in m then m[k] else Null
  }

  /** The errors the core reports. `Panic` stands for a Go run-time panic (a
      failed type assertion, an index out of range, a write to a nil map): it is
      not an error value in Go, it unwinds the whole request. */
  datatype Error =
    | ScriptFailed(template: string, cause: string)
    | IndexOutOfRange(template: string, index: int, count: nat)
    | UnresolvedPath(template: string)
    | NotAnObject(template: string)
    | FieldBlank(field: string)
    | InvalidInput(outcomeType: string)
    | NoFilesUploaded
    | HttpError(status: int, message: string)
    | InvalidValue(column: string)
    | NoObjectAfter(interceptor: string)
    | UpdateRejectedBy(interceptor: string)
    | NotArrayType(name: string)
    | ItemConversionFailed(name: string)
    | PropertyFailed(property: string)
    | NotAValidSchema
    | ImproperFileAttachment
    | External(message: string)
    | Panic(site: string)

  datatype Result<T> = Ok(value: T) | Err(error: Error)
  {
    predicate IsFailure() { Err? }

    function PropagateFailure<U>(): Result<U>
      requires Err?
    {
      Err(error)
    }

    function Extract(): T
      requires Ok?
    {
      value
    }
  }

  /** `fmt.Sprintf("%v", v)`: nil prints as `<nil>`, lists as `[a b]`, maps as
      `map[k1:v1 k2:v2]` with the keys in ascending order, as Go's fmt prints them. */
  function Format(v: Value): string
    decreases v, 2, 0
  {
    match v
    case Null => "<nil>"
    case Bool(b) => if b then "true" else "false"
    case Int(i) => IntToString(i)
    case Str(s) => s
    case List(xs) => "[" + FormatItems(v, 0) + "]"
    case Strings(ss) => "[" + FormatStrs(ss, 0) + "]"
    case Map(m) => "map[" + FormatEntries(v, SortedKeys(m.Keys)) + "]"
  }

  /** The elements of a list from index `i` on, each formatted, separated by spaces. */
  function FormatItems(v: Value, i: nat): string
    requires v.List? && i <= |v.items|
    decreases v, 1, |v.items| - i
  {
    if i == |v.items| then ""
    else if i == |v.items| - 1 then Format(v.items[i])
    else Format(v.items[i]) + " " + FormatItems(v, i + 1)
  }

  /** The strings from index `i` on, separated by spaces. */
  function FormatStrs(ss: seq<string>, i: nat): string
    requires i <= |ss|
    decreases |ss| - i
  {
    if i == |ss| then ""
    else if i == |ss| - 1 then ss[i]
    else ss[i] + " " + FormatStrs(ss, i + 1)
  }

  /** Each string as a string value, in order. */
  function Strs(vals: seq<string>): (r: seq<Value>)
    ensures |r| == |vals| && forall j :: 0 <= j < |vals| ==> r[j] == Str(vals[j])
  {
    if |vals| == 0 then [] else Strs(vals[..|vals| - 1]) + [Str(vals[|vals| - 1])]
  }

  /** `%v` prints a `[]string` as it prints the `[]interface{}` of the same strings. */
  lemma FormatStringsAsList(ss: seq<string>)
    ensures Format(Strings(ss)) == Format(List(Strs(ss)))
  {
    FormatStringsItems(ss, 0);
  }

  lemma {:induction false} FormatStringsItems(ss: seq<string>, i: nat)
    requires i <= |ss|
    ensures FormatItems(List(Strs(ss)), i) == FormatStrs(ss, i)
    decreases |ss| - i
  {
    if i < |ss| - 1 {
      FormatStringsItems(ss, i + 1);
    }
  }

  /** The entries of a map under the given keys as `key:value`, separated by spaces. */
  function FormatEntries(v: Value, keys: seq<string>): string
    requires v.Map? && forall j :: 0 <= j < |keys| ==> keys[j] in v.m
    decreases v, 1, |keys|
  {
    if |keys| == 0 then ""
    else if |keys| == 1 then keys[0] + ":" + Format(v.m[keys[0]])
    else keys[0] + ":" + Format(v.m[keys[0]]) + " " + FormatEntries(v, keys[1..])
  }

  /** A string formats as itself, so substituting a string value inserts exactly its text. */
  lemma FormatString(s: string)
    ensures Format(Str(s)) == s
  {
  }

  /** Only nil formats as `<nil>` among the scalars; the empty list and map keep their brackets. */
  lemma FormatEmptyContainers()
    ensures Format(List([])) == "[]"
    ensures Format(Map(map[])) == "map[]"
  {
    assert SortedKeys({}) == [];
  }
}
