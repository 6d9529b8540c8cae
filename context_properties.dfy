/** What the context builder promises: a map template keeps exactly the keys
    whose field resolves to something other than nil, each under its own
    resolved value, and fails with the error of the least failing key; a list
    template keeps its strings and containers, in order. */
module ContextProperties {
  import opened Text
  import opened Values
  import opened Evaluate
  import opened ContextBuilder

  /** The field of the `j`-th key, resolved. */
  function Field(t: Value, j: nat, ctx: Row, run: ScriptRunner): Result<Value>
    requires t.Map? && j < |MapKeys(t)|
  {
    BuildField(t.m[MapKeys(t)[j]], ctx, run)
  }

  /** One step of the map loop succeeds when its field and the rest do. */
  lemma EntriesOkStep(t: Value, i: nat, ctx: Row, run: ScriptRunner)
    requires t.Map? && i < |MapKeys(t)|
    ensures BuildEntries(t, i, ctx, run).Ok? <==> Field(t, i, ctx, run).Ok? && BuildEntries(t, i + 1, ctx, run).Ok?
  {
  }

  /** When the entries from the `i`-th key on succeed, so does each of their fields. */
  lemma {:induction false} EntryResolves(t: Value, i: nat, j: nat, ctx: Row, run: ScriptRunner)
    requires t.Map? && i <= j < |MapKeys(t)|
    requires BuildEntries(t, i, ctx, run).Ok?
    ensures Field(t, j, ctx, run).Ok?
    decreases j - i
  {
    EntriesOkStep(t, i, ctx, run);
    if i < j {
      EntryResolves(t, i + 1, j, ctx, run);
    }
  }

  /** When every field from the `i`-th key on resolves, so do the entries. */
  lemma {:induction false} EntriesResolve(t: Value, i: nat, ctx: Row, run: ScriptRunner)
    requires t.Map? && i <= |MapKeys(t)|
    requires forall j :: i <= j < |MapKeys(t)| ==> Field(t, j, ctx, run).Ok?
    ensures BuildEntries(t, i, ctx, run).Ok?
    decreases |MapKeys(t)| - i
  {
    if i < |MapKeys(t)| {
      EntriesResolve(t, i + 1, ctx, run);
      EntriesOkStep(t, i, ctx, run);
    }
  }

  /** A successful run stores the `j`-th key exactly when its field is not nil, under that field's value. */
  lemma {:induction false} EntryAt(t: Value, i: nat, j: nat, ctx: Row, run: ScriptRunner)
    requires t.Map? && i <= j < |MapKeys(t)|
    requires BuildEntries(t, i, ctx, run).Ok?
    ensures Field(t, j, ctx, run).Ok?
    ensures Holds(BuildEntries(t, i, ctx, run).value, MapKeys(t)[j], Field(t, j, ctx, run).value)
    decreases j - i
  {
    var keys := MapKeys(t);
    EntryStep(t, i, ctx, run);
    var rest := BuildEntries(t, i + 1, ctx, run).value;
    var v := Field(t, i, ctx, run).value;
    if i < j {
      EntryAt(t, i + 1, j, ctx, run);
      KeysDiffer(keys, i, j);
      StoredOther(rest, keys[i], v, keys[j], Field(t, j, ctx, run).value);
    } else {
      StoredSame(rest, keys[i], v);
    }
  }

  /** `acc` holds `v` under `k` when `v` is not nil, and nothing under `k` otherwise. */
  predicate Holds(acc: Row, k: string, v: Value)
  {
    (k in acc <==> v != Null) && (k in acc ==> acc[k] == v)
  }

  lemma StoredOther(acc: Row, k: string, v: Value, other: string, w: Value)
    requires k != other && Holds(acc, other, w)
    ensures Holds(Stored(acc, k, v), other, w)
  {
  }

  lemma StoredSame(acc: Row, k: string, v: Value)
    requires k !in acc
    ensures Holds(Stored(acc, k, v), k, v)
  {
  }

  lemma KeysDiffer(keys: seq<string>, i: nat, j: nat)
    requires StrictlySorted(keys) && i < j < |keys|
    ensures keys[i] != keys[j]
  {
    LessIrreflexive(keys[i]);
  }

  /** The `i`-th key is stored on top of the entries that follow it, which do not hold it. */
  lemma EntryStep(t: Value, i: nat, ctx: Row, run: ScriptRunner)
    requires t.Map? && i < |MapKeys(t)|
    requires BuildEntries(t, i, ctx, run).Ok?
    ensures Field(t, i, ctx, run).Ok? && BuildEntries(t, i + 1, ctx, run).Ok?
    ensures BuildEntries(t, i, ctx, run).value
         == Stored(BuildEntries(t, i + 1, ctx, run).value, MapKeys(t)[i], Field(t, i, ctx, run).value)
    ensures MapKeys(t)[i] !in BuildEntries(t, i + 1, ctx, run).value
  {
    LaterKeysDiffer(MapKeys(t), i);
  }

  /** The `j`-th key is the first from the `i`-th on whose field fails. */
  predicate FirstFailure(t: Value, i: nat, j: nat, ctx: Row, run: ScriptRunner)
    requires t.Map?
  {
    i <= j < |MapKeys(t)| && Field(t, j, ctx, run).Err?
    && forall l :: i <= l < j ==> Field(t, l, ctx, run).Ok?
  }

  /** A failed run fails with the error of the first key whose field fails. */
  lemma {:induction false} EntriesError(t: Value, i: nat, ctx: Row, run: ScriptRunner)
    requires t.Map? && i <= |MapKeys(t)|
    requires BuildEntries(t, i, ctx, run).Err?
    ensures exists j :: FirstFailure(t, i, j, ctx, run) && Field(t, j, ctx, run) == Err(BuildEntries(t, i, ctx, run).error)
    decreases |MapKeys(t)| - i
  {
    EntriesErrStep(t, i, ctx, run);
    if Field(t, i, ctx, run).Err? {
      assert FirstFailure(t, i, i, ctx, run);
    } else {
      EntriesError(t, i + 1, ctx, run);
      var j :| FirstFailure(t, i + 1, j, ctx, run) && Field(t, j, ctx, run) == Err(BuildEntries(t, i + 1, ctx, run).error);
      FirstFailureExtends(t, i, j, ctx, run);
    }
  }

  /** A failed run fails at its own key or, past it, with the error of the rest. */
  lemma EntriesErrStep(t: Value, i: nat, ctx: Row, run: ScriptRunner)
    requires t.Map? && i <= |MapKeys(t)|
    requires BuildEntries(t, i, ctx, run).Err?
    ensures i < |MapKeys(t)|
    ensures Field(t, i, ctx, run).Err? ==> BuildEntries(t, i, ctx, run).error == Field(t, i, ctx, run).error
    ensures Field(t, i, ctx, run).Ok? ==>
      BuildEntries(t, i + 1, ctx, run).Err? && BuildEntries(t, i, ctx, run).error == BuildEntries(t, i + 1, ctx, run).error
  {
  }

  lemma FirstFailureExtends(t: Value, i: nat, j: nat, ctx: Row, run: ScriptRunner)
    requires t.Map? && i < |MapKeys(t)| && Field(t, i, ctx, run).Ok? && FirstFailure(t, i + 1, j, ctx, run)
    ensures FirstFailure(t, i, j, ctx, run)
  {
  }

  /** A map template resolves exactly when every one of its fields does. */
  lemma MapTemplateOk(t: Value, ctx: Row, run: ScriptRunner)
    requires t.Map?
    ensures Build(t, ctx, run).Ok? <==> forall k :: k in t.m ==> BuildField(t.m[k], ctx, run).Ok?
    ensures Build(t, ctx, run).Ok? ==> Build(t, ctx, run).value.Map?
  {
    if forall k :: k in t.m ==> BuildField(t.m[k], ctx, run).Ok? {
      EveryFieldResolves(t, ctx, run);
    } else {
      var k :| k in t.m && BuildField(t.m[k], ctx, run).Err?;
      FailingFieldFails(t, k, ctx, run);
    }
  }

  lemma EveryFieldResolves(t: Value, ctx: Row, run: ScriptRunner)
    requires t.Map? && forall k :: k in t.m ==> BuildField(t.m[k], ctx, run).Ok?
    ensures Build(t, ctx, run).Ok?
  {
    EntriesResolve(t, 0, ctx, run);
  }

  lemma FailingFieldFails(t: Value, k: string, ctx: Row, run: ScriptRunner)
    requires t.Map? && k in t.m && BuildField(t.m[k], ctx, run).Err?
    ensures Build(t, ctx, run).Err?
  {
    var keys := MapKeys(t);
    MapKeysCover(t, k);
    var j :| 0 <= j < |keys| && keys[j] == k;
    if BuildEntries(t, 0, ctx, run).Ok? {
      EntryResolves(t, 0, j, ctx, run);
    }
  }

  /** In a resolved map template, a key is kept exactly when it is a key of
      the template whose field is not nil, and it holds that field's value. */
  lemma MapTemplateEntry(t: Value, k: string, ctx: Row, run: ScriptRunner)
    requires t.Map? && Build(t, ctx, run).Ok?
    ensures Build(t, ctx, run).value.Map?
    ensures k in Build(t, ctx, run).value.m <==>
      k in t.m && BuildField(t.m[k], ctx, run).Ok? && BuildField(t.m[k], ctx, run).value != Null
    ensures k in Build(t, ctx, run).value.m ==> Build(t, ctx, run).value.m[k] == BuildField(t.m[k], ctx, run).value
  {
    var keys := MapKeys(t);
    if k in t.m {
      MapKeysCover(t, k);
      var j :| 0 <= j < |keys| && keys[j] == k;
      EntryAt(t, 0, j, ctx, run);
    }
  }

  /** `k` is the least key of the template whose field fails. */
  predicate FirstFailingKey(t: Value, k: string, ctx: Row, run: ScriptRunner)
    requires t.Map?
  {
    k in t.m && BuildField(t.m[k], ctx, run).Err?
    && forall l :: l in t.m && Less(l, k) ==> BuildField(t.m[l], ctx, run).Ok?
  }

  /** A map template that fails, fails with the error of its least failing key. */
  lemma MapTemplateError(t: Value, ctx: Row, run: ScriptRunner)
    requires t.Map? && Build(t, ctx, run).Err?
    ensures exists k :: FirstFailingKey(t, k, ctx, run) && BuildField(t.m[k], ctx, run) == Err(Build(t, ctx, run).error)
  {
    EntriesError(t, 0, ctx, run);
    var j :| FirstFailure(t, 0, j, ctx, run) && Field(t, j, ctx, run) == Err(BuildEntries(t, 0, ctx, run).error);
    FirstFailureKey(t, j, ctx, run);
  }

  lemma FirstFailureKey(t: Value, j: nat, ctx: Row, run: ScriptRunner)
    requires t.Map? && FirstFailure(t, 0, j, ctx, run)
    ensures FirstFailingKey(t, MapKeys(t)[j], ctx, run)
  {
    var keys := MapKeys(t);
    forall l | l in t.m && Less(l, keys[j])
      ensures BuildField(t.m[l], ctx, run).Ok?
    {
      MapKeysCover(t, l);
      var p :| 0 <= p < |keys| && keys[p] == l;
      if p > j {
        LessAsymmetric(keys[j], keys[p]);
      } else if p == j {
        LessIrreflexive(l);
      } else {
        assert Field(t, p, ctx, run).Ok?;
      }
    }
  }

  /** What one element of a list template contributes: nil panics, strings and
      containers are resolved, other scalars contribute nothing. */
  function ItemResult(x: Value, ctx: Row, run: ScriptRunner): seq<Result<Value>>
  {
    if x == Null then [Err(Panic(NilKindPanic))]
    else if Retained(x) then [BuildField(x, ctx, run)]
    else []
  }

  function ItemResults(xs: seq<Value>, ctx: Row, run: ScriptRunner): seq<Result<Value>>
  {
    if |xs| == 0 then [] else ItemResult(xs[0], ctx, run) + ItemResults(xs[1..], ctx, run)
  }

  /** The results in order, or the first error among them. */
  function Sequenced(rs: seq<Result<Value>>): Result<seq<Value>>
  {
    if |rs| == 0 then Ok([])
    else match rs[0]
      case Err(e) => Err(e)
      case Ok(v) =>
        match Sequenced(rs[1..])
        case Err(e) => Err(e)
        case Ok(vs) => Ok([v] + vs)
  }

  /** A list template is the per-element results, filtered and taken in order:
      the first error (or nil element) aborts, otherwise the resolved values of
      the strings and containers form the new list. */
  lemma {:induction false} ListTemplate(t: Value, i: nat, ctx: Row, run: ScriptRunner)
    requires t.List? && i <= |t.items|
    ensures BuildItems(t, i, ctx, run) == Sequenced(ItemResults(t.items[i..], ctx, run))
    decreases |t.items| - i
  {
    if i < |t.items| {
      ListTemplate(t, i + 1, ctx, run);
      var x := t.items[i];
      assert t.items[i..][1..] == t.items[i + 1..];
      var rest := ItemResults(t.items[i + 1..], ctx, run);
      assert ItemResults(t.items[i..], ctx, run) == ItemResult(x, ctx, run) + rest;
      if x == Null || Retained(x) {
        assert (ItemResult(x, ctx, run) + rest)[1..] == rest;
      } else {
        assert ItemResult(x, ctx, run) + rest == rest;
      }
    } else {
      assert t.items[i..] == [];
    }
  }

  /** The list template as a whole. */
  lemma ListTemplateWhole(t: Value, ctx: Row, run: ScriptRunner)
    requires t.List?
    ensures Build(t, ctx, run) == match Sequenced(ItemResults(t.items, ctx, run))
      case Err(e) => Err(e)
      case Ok(ys) => Ok(List(ys))
  {
    ListTemplate(t, 0, ctx, run);
    assert t.items[0..] == t.items;
  }

  /** A `[]string` template is first copied into a `[]interface{}` of the same
      strings, so it builds exactly as that list would. */
  lemma StringsTemplate(ss: seq<string>, ctx: Row, run: ScriptRunner)
    ensures Build(Strings(ss), ctx, run) == Build(List(Strs(ss)), ctx, run)
  {
    StringItems(ss, 0, ctx, run);
  }

  lemma {:induction false} StringItems(ss: seq<string>, i: nat, ctx: Row, run: ScriptRunner)
    requires i <= |ss|
    ensures BuildItems(List(Strs(ss)), i, ctx, run) == EvalStrings(ss, i, ctx, run)
    decreases |ss| - i
  {
    if i < |ss| {
      StringItems(ss, i + 1, ctx, run);
    }
  }
}
