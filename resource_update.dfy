/** Updating a row (server/resource/resource_update.go): which changed columns
    `UpdateWithoutFilters` writes and how it normalises them, the version and
    timestamp it adds, the row the UPDATE is restricted to, and the interceptor
    chain around it in `Update`. The SQL itself is a parameter. */
module Updating {
  import opened Text
  import opened Values
  import opened Schema
  import opened Columns

  /** The column types whose conversion on update is not part of this model. */
  const UpdateConvertedTypes := {"password", "datetime", "encrypted", "date", "time"}

  /** What the request model reports about the row being updated: its
      reference id, the changed columns with their new values, and its current
      and next version. */
  datatype Pending = Pending(referenceId: string, changes: Row, currentVersion: int, nextVersion: int)

  /** The UPDATE: the table, the column/value pairs it sets, and the row it is
      restricted to (this reference id, at this version). */
  datatype Statement = Statement(table: string, assignments: seq<Assignment>, referenceId: string, version: int)

  /** Columns never written from the change set. */
  predicate SkippedOnUpdate(col: ColumnInfo)
  {
    col.isAutoIncrement || col.columnName == "created_at" || col.columnName == "reference_id" ||
    col.columnName == "updated_at" || col.columnName == "version"
  }

  /** What the column loop does with one column: only changed columns that are
      not skipped are written, with their new value normalised. */
  function UpdateValue(changes: Row, conv: Converters, col: ColumnInfo): (r: Result<Option<Value>>)
    ensures SkippedOnUpdate(col) || col.columnName !in changes ==> r == Ok(None)
    ensures !SkippedOnUpdate(col) && col.columnName in changes ==>
      r == Normalised(col, changes[col.columnName], conv, true)
  {
    if SkippedOnUpdate(col) || col.columnName !in changes then Ok(None)
    else Normalised(col, changes[col.columnName], conv, true)
  }

  /** `UpdateValue` as the step of the column loop. */
  function UpdateStep(changes: Row, conv: Converters): ColumnInfo -> Result<Option<Value>>
  {
    c => UpdateValue(changes, conv, c)
  }

  /** The UPDATE planned for the pending change, `None` when nothing changed,
      or the error that stops it. */
  function PlannedUpdate(table: TableInfo, pending: Pending, now: Value, conv: Converters): Result<Option<Statement>>
  {
    if |pending.changes| == 0 then Ok(None)
    else
      match Collect(table.columns, UpdateStep(pending.changes, conv))
      case Err(e) => Err(e)
      case Ok(collected) =>
        Ok(Some(Statement(table.tableName, collected + [Assignment("updated_at", now), Assignment("version", Int(pending.nextVersion))],
                          pending.referenceId, pending.currentVersion)))
  }

  /** `UpdateWithoutFilters` as a whole: the lookups before the column loop
      (the reference id, and the stored row for a model without a version)
      either fail, and their error is the result, or report the pending
      change the UPDATE is planned from. */
  function LookedUpUpdate(table: TableInfo, lookup: Result<Pending>, now: Value, conv: Converters): Result<Option<Statement>>
  {
    match lookup
    case Err(e) => Err(e)
    case Ok(pending) => PlannedUpdate(table, pending, now, conv)
  }

  // ------------------------------------------------------------ properties

  /** Every column the UPDATE sets from the change set is a changed,
      writable column of the table, with the value its change normalises to. */
  lemma ChangedColumnsOnly(table: TableInfo, pending: Pending, now: Value, conv: Converters, k: nat)
    requires PlannedUpdate(table, pending, now, conv).Ok? && PlannedUpdate(table, pending, now, conv).value.Some?
    requires k < |PlannedUpdate(table, pending, now, conv).value.value.assignments| - 2
    ensures var a := PlannedUpdate(table, pending, now, conv).value.value.assignments[k];
      a.column in pending.changes && a.column != "created_at" && a.column != "reference_id" && a.column != "updated_at" && a.column != "version" &&
      exists i :: 0 <= i < |table.columns| && table.columns[i].columnName == a.column && !SkippedOnUpdate(table.columns[i]) &&
        Normalised(table.columns[i], pending.changes[a.column], conv, true) == Ok(Some(a.value))
  {
    var step := UpdateStep(pending.changes, conv);
    var collected := Collect(table.columns, step).value;
    assert PlannedUpdate(table, pending, now, conv).value.value.assignments[k] == collected[k];
    CollectFrom(table.columns, step, k);
  }

  /** Every writable changed column of the table is set, unless its conversion left it out. */
  lemma ChangedColumnsWritten(table: TableInfo, pending: Pending, now: Value, conv: Converters, i: nat)
    requires PlannedUpdate(table, pending, now, conv).Ok? && i < |table.columns|
    requires var col := table.columns[i]; !SkippedOnUpdate(col) && col.columnName in pending.changes
    ensures var col := table.columns[i];
      PlannedUpdate(table, pending, now, conv).value.Some? && Normalised(col, pending.changes[col.columnName], conv, true).Ok? &&
      (Normalised(col, pending.changes[col.columnName], conv, true).value.Some? ==>
        Assignment(col.columnName, Normalised(col, pending.changes[col.columnName], conv, true).value.value) in PlannedUpdate(table, pending, now, conv).value.value.assignments)
  {
    var step := UpdateStep(pending.changes, conv);
    assert table.columns[i].columnName in pending.changes.Keys;
    assert |pending.changes| > 0;
    CollectFails(table.columns, step);
    assert step(table.columns[i]).Ok?;
    if step(table.columns[i]).value.Some? {
      CollectComplete(table.columns, step, i);
    }
  }

  /** A changed column whose conversion gives `None` (the `continue` of the
      loop) is left out of the UPDATE. */
  lemma ConversionLeavesOut(table: TableInfo, pending: Pending, now: Value, conv: Converters, i: nat)
    requires PlannedUpdate(table, pending, now, conv).Ok? && i < |table.columns| && DistinctNames(table.columns)
    requires var col := table.columns[i];
      !SkippedOnUpdate(col) && col.columnName in pending.changes && Normalised(col, pending.changes[col.columnName], conv, true) == Ok(None)
    ensures var collected := Collect(table.columns, UpdateStep(pending.changes, conv));
      collected.Ok? && table.columns[i].columnName !in ColumnsOf(collected.value)
  {
    var step := UpdateStep(pending.changes, conv);
    assert table.columns[i].columnName in pending.changes.Keys;
    assert |pending.changes| > 0;
    assert step(table.columns[i]) == Ok(None);
    LeftOut(table.columns, step, i);
  }

  /** With changes, the UPDATE ends with the timestamp and the next version, sets
      neither anywhere else, and is restricted to the row's reference id at its
      current version; without changes nothing is written. */
  lemma UpdateBookkeeping(table: TableInfo, pending: Pending, now: Value, conv: Converters)
    requires PlannedUpdate(table, pending, now, conv).Ok?
    ensures |pending.changes| == 0 <==> PlannedUpdate(table, pending, now, conv).value.None?
    ensures PlannedUpdate(table, pending, now, conv).value.Some? ==> var st := PlannedUpdate(table, pending, now, conv).value.value;
      && |st.assignments| >= 2
      && st.assignments[|st.assignments| - 2..] == [Assignment("updated_at", now), Assignment("version", Int(pending.nextVersion))]
      && (forall k :: 0 <= k < |st.assignments| - 2 ==> st.assignments[k].column != "updated_at" && st.assignments[k].column != "version")
      && st.referenceId == pending.referenceId && st.version == pending.currentVersion && st.table == table.tableName
  {
    if |pending.changes| > 0 {
      var step := UpdateStep(pending.changes, conv);
      var collected := Collect(table.columns, step).value;
      var st := PlannedUpdate(table, pending, now, conv).value.value;
      forall k | 0 <= k < |st.assignments| - 2
        ensures st.assignments[k].column != "updated_at" && st.assignments[k].column != "version"
      {
        assert st.assignments[k] == collected[k];
        CollectFrom(table.columns, step, k);
      }
    }
  }

  /** An enum change that is not an option refuses the whole update. */
  lemma EnumOnUpdate(table: TableInfo, pending: Pending, now: Value, conv: Converters, i: nat)
    requires i < |table.columns| && |pending.changes| > 0
    requires var col := table.columns[i];
      !SkippedOnUpdate(col) && !col.isForeignKey && col.columnType == "enum" && col.columnName in pending.changes &&
      !IsOption(col.options, ToLower(Format(pending.changes[col.columnName])))
    ensures PlannedUpdate(table, pending, now, conv).Err?
  {
    var step := UpdateStep(pending.changes, conv);
    CollectFails(table.columns, step);
    assert step(table.columns[i]).Err?;
  }

  // ------------------------------------------------------------ the method

  /** One turn of the column loop. */
  method UpdateColumn(changes: Row, conv: Converters, col: ColumnInfo) returns (r: Result<Option<Value>>)
    ensures r == UpdateValue(changes, conv, col)
  {
    if col.isAutoIncrement || col.columnName == "created_at" || col.columnName == "reference_id" ||
       col.columnName == "updated_at" || col.columnName == "version" {
      return Ok(None);
    }
    if col.columnName !in changes {
      return Ok(None);
    }
    r := Normalise(col, changes[col.columnName], conv, true);
  }

  /** The column loop of `UpdateWithoutFilters`: the pairs to SET. */
  method CollectChanges(table: TableInfo, changes: Row, conv: Converters) returns (r: Result<seq<Assignment>>)
    ensures r == Collect(table.columns, UpdateStep(changes, conv))
  {
    var step := UpdateStep(changes, conv);
    var cols := table.columns;
    var colsList: seq<Assignment> := [];
    for i := 0 to |cols|
      invariant Collect(cols[..i], step) == Ok(colsList)
    {
      var val := UpdateColumn(changes, conv, cols[i]);
      if val.Err? {
        assert cols[..i + 1][..i] == cols[..i];
        CollectStopped(cols, step, i + 1);
        return Err(val.error);
      }
      CollectStep(cols, step, i);
      if val.value.Some? {
        colsList := colsList + [Assignment(cols[i].columnName, val.value.value)];
      }
    }
    assert cols[..|cols|] == cols;
    r := Ok(colsList);
  }

  /** `UpdateWithoutFilters` up to the UPDATE: a failed lookup is returned
      before any column is looked at. */
  method UpdateWithoutFilters(table: TableInfo, lookup: Result<Pending>, now: Value, conv: Converters) returns (r: Result<Option<Statement>>)
    ensures lookup.Err? ==> r == Err(lookup.error)
    ensures lookup.Ok? ==> r == PlannedUpdate(table, lookup.value, now, conv)
  {
    if lookup.Err? {
      return Err(lookup.error);
    }
    var pending := lookup.value;
    if |pending.changes| == 0 {
      return Ok(None);
    }
    var collected := CollectChanges(table, pending.changes, conv);
    if collected.Err? {
      return Err(collected.error);
    }
    var colsList := collected.value;
    colsList := colsList + [Assignment("updated_at", now)];
    colsList := colsList + [Assignment("version", Int(pending.nextVersion))];
    assert colsList == collected.value + [Assignment("updated_at", now), Assignment("version", Int(pending.nextVersion))];
    r := Ok(Some(Statement(table.tableName, colsList, pending.referenceId, pending.currentVersion)));
  }

  // ----------------------------------------------------------- the chain

  /** The BeforeUpdate interceptors: the data, tagged once with the table's
      name, goes to each in turn and is replaced by the first row it returns;
      an error, or no rows, stops the update. */
  function BeforeUpdate(before: seq<Interceptor>, data: Row, typeName: string): (r: Result<Row>)
    ensures |before| == 0 ==> r == Ok(data["__type" := Str(typeName)])
    ensures |before| > 0 && r.Ok? ==> BeforeUpdate(before[..|before| - 1], data, typeName).Ok?
    ensures |before| > 0 && r.Ok? ==> var reply := before[|before| - 1].intercept([BeforeUpdate(before[..|before| - 1], data, typeName).value]); reply.rows.Some? && |reply.rows.value| > 0 && r.value == reply.rows.value[0]
  {
    if |before| == 0 then Ok(data["__type" := Str(typeName)])
    else
      match BeforeUpdate(before[..|before| - 1], data, typeName)
      case Err(e) => Err(e)
      case Ok(d) =>
        var f := before[|before| - 1];
        var reply := f.intercept([d]);
        if reply.error.Some? then Err(reply.error.value)
        else if NoRows(reply) then Err(UpdateRejectedBy(f.name))
        else Ok(reply.rows.value[0])
  }

  lemma BeforeUpdateStep(before: seq<Interceptor>, data: Row, typeName: string, i: nat, d: Row)
    requires i < |before| && BeforeUpdate(before[..i], data, typeName) == Ok(d)
    ensures var reply := before[i].intercept([d]);
      BeforeUpdate(before[..i + 1], data, typeName) ==
        if reply.error.Some? then Err(reply.error.value)
        else if NoRows(reply) then Err(UpdateRejectedBy(before[i].name))
        else Ok(reply.rows.value[0])
  {
    assert before[..i + 1][..i] == before[..i];
    assert before[..i + 1][i] == before[i];
  }

  /** An interceptor that errs or returns no rows stops the update, whatever comes after it. */
  lemma {:induction false} BeforeUpdateStopped(before: seq<Interceptor>, data: Row, typeName: string, j: nat)
    requires j <= |before| && BeforeUpdate(before[..j], data, typeName).Err?
    ensures BeforeUpdate(before, data, typeName) == BeforeUpdate(before[..j], data, typeName)
    decreases |before| - j
  {
    if j < |before| {
      assert before[..j + 1][..j] == before[..j];
      BeforeUpdateStopped(before, data, typeName, j + 1);
    } else {
      assert before[..j] == before;
    }
  }

  /** The response never carries the numeric id. */
  function WithoutId(resource: Option<Row>): (r: Option<Row>)
    ensures r.Some? <==> resource.Some?
    ensures r.Some? ==> "id" !in r.value && forall k :: k in resource.value && k != "id" ==> k in r.value && r.value[k] == resource.value[k]
  {
    if resource.Some? then Some(resource.value - {"id"}) else None
  }

  /** `Update`: the before chain, the UPDATE planned from what the lookups and
      the request model report about the final data (`pendingOf`, which may
      fail), issued through `execute`, which also reads the row back, then the
      after chain, then the id is removed. */
  function Update(table: TableInfo, before: seq<Interceptor>, after: seq<Interceptor>, data: Row, pendingOf: Row -> Result<Pending>,
                  now: Value, conv: Converters, execute: Option<Statement> -> Result<Row>): Result<Response>
  {
    match BeforeUpdate(before, data, table.tableName)
    case Err(e) => Err(e)
    case Ok(d) =>
      match LookedUpUpdate(table, pendingOf(d), now, conv)
      case Err(e) => Err(e)
      case Ok(st) =>
        match execute(st)
        case Err(e) => Err(e)
        case Ok(row) => Ok(Response(200, WithoutId(AfterChain(after, Some(row)))))
  }

  /** A successful update answers 200 with a resource that has no id; the
      resource is nil when the last after interceptor returns no rows. */
  lemma UpdateResponse(table: TableInfo, before: seq<Interceptor>, after: seq<Interceptor>, data: Row, pendingOf: Row -> Result<Pending>,
                       now: Value, conv: Converters, execute: Option<Statement> -> Result<Row>)
    requires Update(table, before, after, data, pendingOf, now, conv, execute).Ok?
    ensures var res := Update(table, before, after, data, pendingOf, now, conv, execute).value;
      res.status == 200 && (res.resource.Some? ==> "id" !in res.resource.value)
    ensures |after| > 0 && AlwaysEmpty(after[|after| - 1]) ==> Update(table, before, after, data, pendingOf, now, conv, execute).value.resource.None?
    ensures |after| == 0 ==> Update(table, before, after, data, pendingOf, now, conv, execute).value.resource.Some?
  {
    if |after| > 0 && AlwaysEmpty(after[|after| - 1]) {
      var d := BeforeUpdate(before, data, table.tableName).value;
      var st := LookedUpUpdate(table, pendingOf(d), now, conv).value;
      AfterChainCleared(after, Some(execute(st).value), |after| - 1);
    }
  }

  /** A failed lookup ends the update with its own error, whatever the changes
      are: no column is normalised and nothing is written. */
  lemma LookupFailsFirst(table: TableInfo, before: seq<Interceptor>, after: seq<Interceptor>, data: Row, pendingOf: Row -> Result<Pending>,
                         now: Value, conv: Converters, execute: Option<Statement> -> Result<Row>)
    requires BeforeUpdate(before, data, table.tableName).Ok?
    requires pendingOf(BeforeUpdate(before, data, table.tableName).value).Err?
    ensures Update(table, before, after, data, pendingOf, now, conv, execute) ==
      Err(pendingOf(BeforeUpdate(before, data, table.tableName).value).error)
  {
  }

  method RunBeforeUpdate(before: seq<Interceptor>, data: Row, typeName: string) returns (r: Result<Row>)
    ensures r == BeforeUpdate(before, data, typeName)
  {
    var d := data["__type" := Str(typeName)];
    for i := 0 to |before|
      invariant BeforeUpdate(before[..i], data, typeName) == Ok(d)
    {
      BeforeUpdateStep(before, data, typeName, i, d);
      var finalData := before[i].intercept([d]);
      if finalData.error.Some? {
        BeforeUpdateStopped(before, data, typeName, i + 1);
        return Err(finalData.error.value);
      }
      if finalData.rows.None? || |finalData.rows.value| == 0 {
        BeforeUpdateStopped(before, data, typeName, i + 1);
        return Err(UpdateRejectedBy(before[i].name));
      }
      d := finalData.rows.value[0];
    }
    assert before[..|before|] == before;
    r := Ok(d);
  }

  /** `Update`, with the SQL and the read-back behind `execute`. */
  method UpdateRow(table: TableInfo, before: seq<Interceptor>, after: seq<Interceptor>, data: Row, pendingOf: Row -> Result<Pending>,
                   now: Value, conv: Converters, execute: Option<Statement> -> Result<Row>) returns (r: Result<Response>)
    ensures r == Update(table, before, after, data, pendingOf, now, conv, execute)
  {
    var d := RunBeforeUpdate(before, data, table.tableName);
    if d.Err? {
      return Err(d.error);
    }
    var st := UpdateWithoutFilters(table, pendingOf(d.value), now, conv);
    if st.Err? {
      return Err(st.error);
    }
    var row := execute(st.value);
    if row.Err? {
      return Err(row.error);
    }
    var updatedResource := RunAfter(after, Some(row.value));
    if updatedResource.Some? {
      updatedResource := Some(updatedResource.value - {"id"});
    }
    r := Ok(Response(200, updatedResource));
  }
}
