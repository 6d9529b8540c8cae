/** `evaluateString`, the small templating language of outcome attributes:
    the empty string, three script escapes (`!code`, `{{code}}`, `js:code`),
    `~a.b.c` lookups that return a value, and `$a.b` references substituted
    textually into the template. */
module Evaluate {
  import opened Text
  import opened Values
  import FileUpload

  /** What the script runner (a fresh JavaScript VM with the context bound as
      globals) produces for a script: its exported value or the thrown message. */
  datatype ScriptOutcome = Returned(v: Value) | Threw(message: string)

  type ScriptRunner = (string, Row) -> ScriptOutcome

  const NotAMapPanic := "interface conversion: value is not map[string]interface {}"
  const NegativeIndexPanic := "index out of range"

  // ---------------------------------------------------------------------------
  // The reference pattern `\$([a-zA-Z0-9_\[\]]+)?(\.[a-zA-Z0-9_\[\]]+)*`

  /** The characters a reference segment may hold. */
  predicate IsRefChar(c: char)
  {
    ('a' <= c <= 'z') || ('A' <= c <= 'Z') || ('0' <= c <= '9') || c == '_' || c == '[' || c == ']'
  }

  /** `t[a..b]` is a run of segment characters and dots, each dot followed by a
      segment character: the language of `([W]+)?(\.[W]+)*`. */
  predicate RefBody(t: string, a: nat, b: nat)
    requires a <= b <= |t|
  {
    forall k: nat :: a <= k < b ==> AcceptedAt(t, k, b)
  }

  /** The character at `k` may stand inside a pattern body ending at `b`. */
  predicate AcceptedAt(t: string, k: nat, b: nat)
    requires k < b <= |t|
  {
    IsRefChar(t[k]) || (t[k] == '.' && k + 1 < b && IsRefChar(t[k + 1]))
  }

  /** Nothing the pattern accepts can be appended at position `b`. */
  predicate Stop(t: string, b: nat)
    requires b <= |t|
  {
    b == |t| || (!IsRefChar(t[b]) && !(t[b] == '.' && b + 1 < |t| && IsRefChar(t[b + 1])))
  }

  /** A matched reference: `$` followed by a pattern body. */
  predicate IsReference(m: string)
  {
    |m| >= 1 && m[0] == '$' && RefBody(m, 1, |m|)
  }

  /** The end of the longest run of segment characters from `q`. */
  function WordEnd(t: string, q: nat): (e: nat)
    requires q <= |t|
    ensures q <= e <= |t|
    ensures forall k :: q <= k < e ==> IsRefChar(t[k])
    ensures e < |t| ==> !IsRefChar(t[e])
    decreases |t| - q
  {
    if q < |t| && IsRefChar(t[q]) then WordEnd(t, q + 1) else q
  }

  /** After a run of segment characters ending at `e`, the end of the longest
      sequence of `.segment` groups. */
  function DotsEnd(t: string, q: nat, e: nat): (f: nat)
    requires q <= e <= |t|
    requires RefBody(t, q, e)
    requires e == |t| || !IsRefChar(t[e])
    ensures e <= f <= |t|
    ensures RefBody(t, q, f) && Stop(t, f)
    decreases |t| - e
  {
    if e + 1 < |t| && t[e] == '.' && IsRefChar(t[e + 1]) then
      var w := WordEnd(t, e + 1);
      assert RefBody(t, q, w) by {
        forall k: nat | q <= k < w ensures AcceptedAt(t, k, w) {
          if k < e { assert AcceptedAt(t, k, e); }
        }
      }
      DotsEnd(t, q, w)
    else e
  }

  /** Where the greedy match of a reference body starting at `q` ends. */
  function ScanEnd(t: string, q: nat): (f: nat)
    requires q <= |t|
    ensures q <= f <= |t|
    ensures RefBody(t, q, f) && Stop(t, f)
  {
    DotsEnd(t, q, WordEnd(t, q))
  }

  /** The greedy match is the only body from `q` after which the pattern cannot continue. */
  lemma ScanEndUnique(t: string, q: nat, e: nat)
    requires q <= e <= |t|
    requires RefBody(t, q, e) && Stop(t, e)
    ensures ScanEnd(t, q) == e
  {
    var f := ScanEnd(t, q);
    if f < e {
      assert !AcceptedAt(t, f, e) by { assert Stop(t, f); }
    } else if e < f {
      assert !AcceptedAt(t, e, f) by { assert Stop(t, e); }
    }
  }

  /** `FindAllString` from position `pos`: each `$` starts a match that extends as far as the pattern allows. */
  function ReferencesFrom(t: string, pos: nat): (refs: seq<string>)
    requires pos <= |t|
    ensures forall j :: 0 <= j < |refs| ==> IsReference(refs[j])
    decreases |t| - pos
  {
    if pos == |t| then []
    else if t[pos] == '$' then
      var e := ScanEnd(t, pos + 1);
      var m := t[pos..e];
      assert RefBody(m, 1, |m|) by {
        forall k: nat | 1 <= k < |m| ensures AcceptedAt(m, k, |m|) {
          assert AcceptedAt(t, pos + k, e);
          assert m[k] == t[pos + k];
          if k + 1 < |m| { assert m[k + 1] == t[pos + k + 1]; }
        }
      }
      [m] + ReferencesFrom(t, e)
    else ReferencesFrom(t, pos + 1)
  }

  /** All matches of the reference pattern in `t`, left to right. */
  function References(t: string): seq<string>
  {
    ReferencesFrom(t, 0)
  }

  /** Number of `$` characters in a string. */
  function Dollars(s: string): nat
  {
    if |s| == 0 then 0 else (if s[0] == '$' then 1 else 0) + Dollars(s[1..])
  }

  lemma {:induction false} DollarsAppend(a: string, b: string)
    ensures Dollars(a + b) == Dollars(a) + Dollars(b)
  {
    if |a| > 0 {
      assert (a + b)[1..] == a[1..] + b;
      DollarsAppend(a[1..], b);
    } else {
      assert a + b == b;
    }
  }

  lemma {:induction false} NoDollarsInBody(t: string, q: nat, f: nat)
    requires q <= f <= |t|
    requires RefBody(t, q, f)
    ensures Dollars(t[q..f]) == 0
    decreases f - q
  {
    if q < f {
      assert AcceptedAt(t, q, f);
      assert t[q..f][1..] == t[q + 1..f];
      assert RefBody(t, q + 1, f) by {
        forall k: nat | q + 1 <= k < f ensures AcceptedAt(t, k, f) { }
      }
      NoDollarsInBody(t, q + 1, f);
    }
  }

  /** Every `$` of the template starts exactly one match. */
  lemma {:induction false} ReferencesCountDollars(t: string, pos: nat)
    requires pos <= |t|
    ensures |ReferencesFrom(t, pos)| == Dollars(t[pos..])
    decreases |t| - pos
  {
    if pos < |t| {
      assert t[pos..] == [t[pos]] + t[pos + 1..];
      DollarsAppend([t[pos]], t[pos + 1..]);
      if t[pos] == '$' {
        var e := ScanEnd(t, pos + 1);
        ReferencesCountDollars(t, e);
        NoDollarsInBody(t, pos + 1, e);
        assert t[pos + 1..] == t[pos + 1..e] + t[e..];
        DollarsAppend(t[pos + 1..e], t[e..]);
      } else {
        ReferencesCountDollars(t, pos + 1);
      }
    }
  }

  /** Scanning skips text that holds no `$`. */
  lemma {:induction false} ReferencesSkip(t: string, pos: nat, q: nat)
    requires pos <= q <= |t|
    requires forall k :: pos <= k < q ==> t[k] != '$'
    ensures ReferencesFrom(t, pos) == ReferencesFrom(t, q)
    decreases q - pos
  {
    if pos < q {
      ReferencesSkip(t, pos + 1, q);
    }
  }

  // ---------------------------------------------------------------------------
  // Paths

  /** The dot-separated segments after the leading `~` or `$`, an empty first
      segment naming the `subject` entry. */
  function PathSegments(body: string): (segs: seq<string>)
    ensures |segs| >= 1
  {
    var parts := Split(body, '.');
    if parts[0] == "" then parts[0 := "subject"] else parts
  }

  /** The `~` walk over the segments before the last: each container must be a map. */
  function TildeWalk(fv: Value, parts: seq<string>): Result<Value>
    decreases |parts|
  {
    if |parts| == 0 then Ok(fv)
    else if !fv.Map? then Err(Panic(NotAMapPanic))
    else TildeWalk(Lookup(fv.m, parts[0]), parts[1..])
  }

  /** `~path`: the last segment's value in the container the walk reaches, nil
      when that container is nil. */
  function Tilde(t: string, ctx: Row): Result<Value>
    requires |t| >= 1
  {
    var segs := PathSegments(t[1..]);
    match TildeWalk(Map(ctx), segs[..|segs| - 1])
    case Err(e) => Err(e)
    case Ok(fv) =>
      if fv == Null then Ok(Null)
      else if !fv.Map? then Err(Panic(NotAMapPanic))
      else Ok(Lookup(fv.m, segs[|segs| - 1]))
  }

  /** The list a `name[i]` segment indexes: a list whose elements must all be
      maps, or no rows at all when the value is not a list. */
  function RowsOf(v: Value): (r: Result<seq<Row>>)
    ensures r.Ok? && v.List? ==> |r.value| == |v.items|
    ensures !v.List? ==> r == Ok([])
  {
    if !v.List? then Ok([]) else MapsOf(v.items)
  }

  /** The elements of a list as maps, in order; any other element panics. */
  function MapsOf(xs: seq<Value>): (r: Result<seq<Row>>)
    ensures r.Ok? <==> forall k :: 0 <= k < |xs| ==> xs[k].Map?
    ensures r.Ok? ==> |r.value| == |xs| && forall k :: 0 <= k < |xs| ==> r.value[k] == xs[k].m
    ensures r.Err? ==> r.error == Panic(NotAMapPanic)
  {
    if |xs| == 0 then Ok([])
    else
      var init := MapsOf(xs[..|xs| - 1]);
      var last := xs[|xs| - 1];
      if init.Err? then init
      else if !last.Map? then Err(Panic(NotAMapPanic))
      else Ok(init.value + [last.m])
  }

  /** The index a segment carries: the text between its first `[` and the next `]`, when it parses. */
  function SegmentIndex(part: string): Option<int>
  {
    var idx := Split(part, '[');
    if |idx| > 1 then ParseInt64(Split(idx[1], ']')[0]) else None
  }

  /** One intermediate step of a `$` reference inside the template `t`. */
  function DollarStep(t: string, fv: Value, part: string): Result<Value>
  {
    var idx := Split(part, '[');
    if |idx| > 1 then
      var index := ParseInt64(Split(idx[1], ']')[0]);
      if index.Some? then
        if !fv.Map? then Err(Panic(NotAMapPanic))
        else match RowsOf(Lookup(fv.m, idx[0]))
          case Err(e) => Err(e)
          case Ok(rows) =>
            if index.value > |rows| - 1 then Err(IndexOutOfRange(t, index.value, |rows|))
            else if index.value < 0 then Err(Panic(NegativeIndexPanic))
            else Ok(Map(rows[index.value]))
      else if !fv.Map? then Err(Panic(NotAMapPanic))
      else Ok(Lookup(fv.m, part))
    else if !fv.Map? then Err(Panic(NotAMapPanic))
    else if part !in fv.m then Err(UnresolvedPath(t))
    else Ok(fv.m[part])
  }

  function DollarWalk(t: string, fv: Value, parts: seq<string>): Result<Value>
    decreases |parts|
  {
    if |parts| == 0 then Ok(fv)
    else match DollarStep(t, fv, parts[0])
      case Err(e) => Err(e)
      case Ok(next) => DollarWalk(t, next, parts[1..])
  }

  /** The value a reference names, `None` when its container is nil. */
  function ResolveReference(t: string, ref: string, ctx: Row): Result<Option<Value>>
    requires |ref| >= 1
  {
    var segs := PathSegments(ref[1..]);
    match DollarWalk(t, Map(ctx), segs[..|segs| - 1])
    case Err(e) => Err(e)
    case Ok(fv) =>
      if fv == Null then Ok(None)
      else if !fv.Map? then Err(NotAnObject(t))
      else Ok(Some(Lookup(fv.m, segs[|segs| - 1])))
  }

  /** Each match in turn is resolved and every occurrence of its text in the
      template as rewritten so far is replaced by the value's `%v` text. */
  function SubstituteAll(t: string, refs: seq<string>, ctx: Row): Result<Value>
    requires forall j :: 0 <= j < |refs| ==> IsReference(refs[j])
    decreases |refs|
  {
    if |refs| == 0 then Ok(Str(t))
    else
      assert IsReference(refs[0]);
      match ResolveReference(t, refs[0], ctx)
      case Err(e) => Err(e)
      case Ok(None) => Ok(Null)
      case Ok(Some(v)) => SubstituteAll(ReplaceAll(t, refs[0], Format(v)), refs[1..], ctx)
  }

  // ---------------------------------------------------------------------------
  // The evaluator

  function RunScript(run: ScriptRunner, code: string, t: string, ctx: Row): Result<Value>
  {
    match run(code, ctx)
    case Returned(v) => Ok(v)
    case Threw(message) => Err(ScriptFailed(t, message))
  }

  /** Whether a template is handed to the script runner. */
  predicate IsScript(t: string)
  {
    |t| > 0 && (t[0] == '!' || (|t| > 3 && HasPrefix(t, "{{") && FileUpload.EndsWithCheck(t, "}}")) || (|t| > 3 && t[..3] == "js:"))
  }

  /** The value of one template string in a context. */
  function Eval(t: string, ctx: Row, run: ScriptRunner): Result<Value>
  {
    if t == "" then Ok(Str(""))
    else if t[0] == '!' then RunScript(run, t[1..], t, ctx)
    else if |t| > 3 && HasPrefix(t, "{{") && FileUpload.EndsWithCheck(t, "}}") then RunScript(run, t[2..|t| - 2], t, ctx)
    else if |t| > 3 && t[..3] == "js:" then RunScript(run, t[1..], t, ctx)
    else if t[0] == '~' then Tilde(t, ctx)
    else SubstituteAll(t, References(t), ctx)
  }

  /** The rows of a list value a `[i]` segment indexes, converted element by element. */
  method AsRows(v: Value) returns (r: Result<seq<Row>>)
    ensures r == RowsOf(v)
  {
    if !v.List? {
      return Ok([]);
    }
    var rows: seq<Row> := [];
    for j := 0 to |v.items|
      invariant MapsOf(v.items[..j]) == Ok(rows)
    {
      assert v.items[..j + 1][..j] == v.items[..j];
      if !v.items[j].Map? {
        assert !(forall k :: 0 <= k < |v.items| ==> v.items[k].Map?);
        return Err(Panic(NotAMapPanic));
      }
      rows := rows + [v.items[j].m];
    }
    assert v.items[..|v.items|] == v.items;
    r := Ok(rows);
  }

  /** The `~` walk: the context is descended segment by segment. */
  method LookupPath(t: string, ctx: Row) returns (r: Result<Value>)
    requires |t| >= 1
    ensures r == Tilde(t, ctx)
  {
    var fieldParts := PathSegments(t[1..]);
    var n := |fieldParts|;
    var finalValue := Map(ctx);
    for i := 0 to n - 1
      invariant TildeWalk(Map(ctx), fieldParts[..n - 1]) == TildeWalk(finalValue, fieldParts[i..n - 1])
    {
      assert fieldParts[i..n - 1][1..] == fieldParts[i + 1..n - 1];
      if !finalValue.Map? {
        return Err(Panic(NotAMapPanic));
      }
      finalValue := Lookup(finalValue.m, fieldParts[i]);
    }
    if finalValue == Null {
      return Ok(Null);
    }
    if !finalValue.Map? {
      return Err(Panic(NotAMapPanic));
    }
    return Ok(Lookup(finalValue.m, fieldParts[n - 1]));
  }

  /** One intermediate segment of a `$` reference, as the walk loop performs it. */
  method StepReference(fieldString: string, finalValue: Value, fieldPart: string) returns (r: Result<Value>)
    ensures r == DollarStep(fieldString, finalValue, fieldPart)
  {
    var fieldIndexParts := Split(fieldPart, '[');
    if |fieldIndexParts| > 1 {
      var right := Split(fieldIndexParts[1], ']');
      var index := ParseInt64(right[0]);
      if index.Some? {
        if !finalValue.Map? {
          return Err(Panic(NotAMapPanic));
        }
        var mapPartArray := AsRows(Lookup(finalValue.m, fieldIndexParts[0]));
        if mapPartArray.Err? {
          return Err(mapPartArray.error);
        }
        if index.value > |mapPartArray.value| - 1 {
          return Err(IndexOutOfRange(fieldString, index.value, |mapPartArray.value|));
        }
        if index.value < 0 {
          return Err(Panic(NegativeIndexPanic));
        }
        return Ok(Map(mapPartArray.value[index.value]));
      }
      if !finalValue.Map? {
        return Err(Panic(NotAMapPanic));
      }
      return Ok(Lookup(finalValue.m, fieldPart));
    }
    if !finalValue.Map? {
      return Err(Panic(NotAMapPanic));
    }
    if fieldPart !in finalValue.m {
      return Err(UnresolvedPath(fieldString));
    }
    return Ok(finalValue.m[fieldPart]);
  }

  /** The walk of one matched reference through the context. */
  method WalkReference(fieldString: string, ref: string, ctx: Row) returns (r: Result<Option<Value>>)
    requires |ref| >= 1
    ensures r == ResolveReference(fieldString, ref, ctx)
  {
    var fieldParts := PathSegments(ref[1..]);
    var n := |fieldParts|;
    var finalValue := Map(ctx);
    for i := 0 to n - 1
      invariant DollarWalk(fieldString, Map(ctx), fieldParts[..n - 1]) == DollarWalk(fieldString, finalValue, fieldParts[i..n - 1])
    {
      assert fieldParts[i..n - 1][1..] == fieldParts[i + 1..n - 1];
      var next := StepReference(fieldString, finalValue, fieldParts[i]);
      if next.Err? {
        return Err(next.error);
      }
      finalValue := next.value;
    }
    if finalValue == Null {
      return Ok(None);
    }
    if !finalValue.Map? {
      return Err(NotAnObject(fieldString));
    }
    return Ok(Some(Lookup(finalValue.m, fieldParts[n - 1])));
  }

  /** `evaluateString`: the template is rewritten in place, match by match. */
  method EvaluateString(template: string, ctx: Row, run: ScriptRunner) returns (r: Result<Value>)
    ensures r == Eval(template, ctx, run)
  {
    var fieldString := template;
    if fieldString == "" {
      return Ok(Str(""));
    }
    if fieldString[0] == '!' {
      return RunScript(run, fieldString[1..], fieldString, ctx);
    } else if |fieldString| > 3 && HasPrefix(fieldString, "{{") && FileUpload.EndsWithCheck(fieldString, "}}") {
      return RunScript(run, fieldString[2..|fieldString| - 2], fieldString, ctx);
    } else if |fieldString| > 3 && fieldString[..3] == "js:" {
      return RunScript(run, fieldString[1..], fieldString, ctx);
    } else if fieldString[0] == '~' {
      r := LookupPath(fieldString, ctx);
      return;
    }
    var matches := References(fieldString);
    for mi := 0 to |matches|
      invariant SubstituteAll(template, matches, ctx) == SubstituteAll(fieldString, matches[mi..], ctx)
    {
      assert matches[mi..][1..] == matches[mi + 1..];
      assert IsReference(matches[mi]);
      var resolved := WalkReference(fieldString, matches[mi], ctx);
      if resolved.Err? {
        return Err(resolved.error);
      }
      if resolved.value.None? {
        return Ok(Null);
      }
      fieldString := ReplaceAll(fieldString, matches[mi], Format(resolved.value.value));
    }
    r := Ok(Str(fieldString));
  }
}
