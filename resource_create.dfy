/** Creating a row (server/resource/resource_create.go): which columns
    `CreateWithoutFilter` takes from the request and how it normalises their
    values, the bookkeeping columns it adds, and the interceptor chain around
    it in `Create`. The SQL itself is a parameter. */
module Creation {
  import opened Text
  import opened Values
  import opened Schema
  import opened Columns
  import OutcomeDispatch

  const UserAccountIdColumn := "user_account_id"
  const UserGroupJoinTable := "user_account_user_account_id_has_usergroup_usergroup_id"

  /** The column types whose conversion on create is not part of this model. */
  const CreateConvertedTypes := {"password", "bcrypt", "md5-bcrypt", "md5", "datetime", "date", "time", "measurement", "encrypted"}

  /** The signed-in user; 0 when nobody is. */
  datatype Session = Session(userId: int)

  /** Columns never taken from the request: auto-increment columns, the
      timestamps, the permission, and the owner except on the user/user-group join table. */
  predicate SkippedOnCreate(tableName: string, col: ColumnInfo)
  {
    col.isAutoIncrement || col.columnName == "created_at" || col.columnName == "updated_at" ||
    col.columnName == "permission" || (col.columnName == UserAccountIdColumn && tableName != UserGroupJoinTable)
  }

  /** Go's test on the default's bytes: more than two bytes whose first and
      last are equal lose both. */
  function UnquotedBytes(b: seq<Byte>): seq<Byte>
  {
    if |b| > 2 && b[0] == b[|b| - 1] then b[1..|b| - 1] else b
  }

  /** The same test on characters: a default longer than two characters that
      starts and ends with the same ASCII character loses both. A non-ASCII
      first character never matches, because its lead byte cannot end a string. */
  function Unquoted(d: string): (r: string)
    ensures |d| > 2 && d[0] == d[|d| - 1] && d[0] as int < 0x80 ==> d == [d[0]] + r + [d[0]]
    ensures !(|d| > 2 && d[0] == d[|d| - 1] && d[0] as int < 0x80) ==> r == d
  {
    if |d| > 2 && d[0] == d[|d| - 1] && d[0] as int < 0x80 then d[1..|d| - 1] else d
  }

  /** Stripping characters is stripping the bytes Go holds. */
  lemma UnquotedAsBytes(d: string)
    ensures UnquotedBytes(Utf8(d)) == Utf8(Unquoted(d))
  {
    if |d| > 2 && d[0] == d[|d| - 1] && d[0] as int < 0x80 {
      var m := d[1..|d| - 1];
      assert d == [d[0]] + m + [d[0]];
      QuotedBytes(d[0], m);
    } else if |d| > 0 {
      UnquotedEnds(d);
    }
  }

  lemma QuotedBytes(q: char, m: string)
    requires q as int < 0x80 && |m| > 0
    ensures var b := Utf8([q] + m + [q]); |b| > 2 && b[0] == b[|b| - 1] && b[1..|b| - 1] == Utf8(m)
  {
    var b := Utf8([q] + m + [q]);
    assert [q][..0] == [];
    assert Utf8([q]) == [q as int];
    Utf8Append([q] + m, [q]);
    Utf8Append([q], m);
    assert b == [q as int] + Utf8(m) + [q as int];
    assert b[0] == q as int && b[|b| - 1] == q as int;
    assert b[1..|b| - 1] == Utf8(m);
  }

  /** When the characters do not match the test, neither do the bytes. */
  lemma UnquotedEnds(d: string)
    requires |d| > 0 && !(|d| > 2 && d[0] == d[|d| - 1] && d[0] as int < 0x80)
    ensures var b := Utf8(d); !(|b| > 2 && b[0] == b[|b| - 1])
  {
    var b := Utf8(d);
    var n := |d|;
    var first := Utf8Char(d[0]);
    var last := Utf8Char(d[n - 1]);
    Utf8First(d);
    assert b == Utf8(d[..n - 1]) + last;
    assert b[0] == first[0];
    assert b[|b| - 1] == last[|last| - 1];
  }

  /** A default quoted with an ASCII character reads back as what was quoted. */
  lemma UnquotedQuoted(quote: char, s: string)
    requires |s| > 0 && quote as int < 0x80
    ensures Unquoted([quote] + s + [quote]) == s
  {
    var d := [quote] + s + [quote];
    assert d[1..|d| - 1] == s;
  }

  /** A default whose first character is not ASCII is kept whole. */
  lemma UnquotedKeepsWideFirst(d: string)
    requires |d| > 0 && d[0] as int >= 0x80
    ensures Unquoted(d) == d
  {
  }

  /** The value the request supplies for a column: the attribute when present
      and not nil, otherwise the column's default; `None` when there is neither. */
  function Supplied(col: ColumnInfo, attrs: Row): (v: Option<Value>)
    ensures Lookup(attrs, col.columnName) != Null ==> v == Some(attrs[col.columnName])
    ensures Lookup(attrs, col.columnName) == Null && col.defaultValue != "" ==> v == Some(Str(Unquoted(col.defaultValue)))
    ensures Lookup(attrs, col.columnName) == Null && col.defaultValue == "" ==> v.None?
  {
    if Lookup(attrs, col.columnName) != Null then Some(attrs[col.columnName])
    else if col.defaultValue != "" then Some(Str(Unquoted(col.defaultValue)))
    else None
  }

  /** What the column loop does with one column: `Ok(None)` when it skips it. */
  function CreateValue(tableName: string, attrs: Row, conv: Converters, col: ColumnInfo): (r: Result<Option<Value>>)
    ensures SkippedOnCreate(tableName, col) || Supplied(col, attrs).None? ==> r == Ok(None)
    ensures r.Ok? && r.value.Some? ==> !SkippedOnCreate(tableName, col) && Supplied(col, attrs).Some?
    ensures !SkippedOnCreate(tableName, col) && col.columnName == "reference_id" && Supplied(col, attrs).Some? && !Supplied(col, attrs).value.Str? ==>
      r == Err(Panic(OutcomeDispatch.StringAssertionPanic))
    ensures col.columnName == "reference_id" && Supplied(col, attrs) == Some(Str("")) ==> r == Ok(None)
  {
    if SkippedOnCreate(tableName, col) then Ok(None)
    else
      match Supplied(col, attrs)
      case None => Ok(None)
      case Some(v) =>
        if col.columnName == "reference_id" && !v.Str? then Err(Panic(OutcomeDispatch.StringAssertionPanic))
        else if col.columnName == "reference_id" && v.s == "" then Ok(None)
        else Normalised(col, v, conv, false)
  }

  /** `CreateValue` as the step of the column loop. */
  function CreateStep(tableName: string, attrs: Row, conv: Converters): ColumnInfo -> Result<Option<Value>>
  {
    c => CreateValue(tableName, attrs, conv, c)
  }

  /** The id the new row gets: a non-empty reference_id from the request (the
      last one the loop meets), or else the generated one. */
  function NewId(tableName: string, cols: seq<ColumnInfo>, attrs: Row, generated: string): string
  {
    if |cols| == 0 then generated
    else
      match IdFrom(tableName, attrs, cols[|cols| - 1])
      case Some(id) => id
      case None => NewId(tableName, cols[..|cols| - 1], attrs, generated)
  }

  /** The id one column sets: a non-empty reference_id string. */
  function IdFrom(tableName: string, attrs: Row, col: ColumnInfo): (id: Option<string>)
    ensures id.Some? ==> col.columnName == "reference_id" && Supplied(col, attrs) == Some(Str(id.value)) && id.value != ""
  {
    if !SkippedOnCreate(tableName, col) && col.columnName == "reference_id" && Supplied(col, attrs).Some? &&
       Supplied(col, attrs).value.Str? && Supplied(col, attrs).value.s != ""
    then Some(Supplied(col, attrs).value.s)
    else None
  }

  lemma NewIdStep(tableName: string, cols: seq<ColumnInfo>, attrs: Row, generated: string, i: nat)
    requires i < |cols|
    ensures IdFrom(tableName, attrs, cols[i]).Some? ==> NewId(tableName, cols[..i + 1], attrs, generated) == IdFrom(tableName, attrs, cols[i]).value
    ensures IdFrom(tableName, attrs, cols[i]).None? ==> NewId(tableName, cols[..i + 1], attrs, generated) == NewId(tableName, cols[..i], attrs, generated)
  {
    assert cols[..i + 1][..i] == cols[..i];
    assert cols[..i + 1][i] == cols[i];
  }

  /** Without a reference_id column the generated id is used. */
  lemma {:induction false} NewIdGenerated(tableName: string, cols: seq<ColumnInfo>, attrs: Row, generated: string)
    requires forall i :: 0 <= i < |cols| ==> cols[i].columnName != "reference_id"
    ensures NewId(tableName, cols, attrs, generated) == generated
  {
    if |cols| > 0 {
      assert IdFrom(tableName, attrs, cols[|cols| - 1]).None?;
      NewIdGenerated(tableName, cols[..|cols| - 1], attrs, generated);
    }
  }

  /** The INSERT `CreateWithoutFilter` issues: the table, its column/value
      pairs in order, and the reference id the new row is read back by. */
  datatype Insertion = Insertion(table: string, assignments: seq<Assignment>, referenceId: string)

  predicate HasColumn(table: TableInfo, name: string)
  {
    exists i :: 0 <= i < |table.columns| && table.columns[i].columnName == name
  }

  /** The two clock readings an insert takes, one for each timestamp column;
      they need not be equal. */
  datatype Stamps = Stamps(createdAt: Value, updatedAt: Value)

  /** The columns added after the loop: the reference id unless the loop set
      one, the permission and both timestamps, then the owner when somebody is
      signed in and the table has an owner column (except on the join table). */
  function Bookkeeping(table: TableInfo, collected: seq<Assignment>, newId: string, session: Session, clock: Stamps): seq<Assignment>
  {
    (if "reference_id" in ColumnsOf(collected) then [] else [Assignment("reference_id", Str(newId))]) +
    [Assignment("permission", Int(table.defaultPermission)), Assignment("created_at", clock.createdAt), Assignment("updated_at", clock.updatedAt)] +
    (if session.userId != 0 && HasColumn(table, UserAccountIdColumn) && table.tableName != UserGroupJoinTable
     then [Assignment(UserAccountIdColumn, Int(session.userId))] else [])
  }

  /** The INSERT planned for `attrs`, or the error that stops it. */
  function PlannedInsert(table: TableInfo, attrs: Row, session: Session, generated: string, clock: Stamps, conv: Converters): Result<Insertion>
  {
    match Collect(table.columns, CreateStep(table.tableName, attrs, conv))
    case Err(e) => Err(e)
    case Ok(collected) =>
      var id := NewId(table.tableName, table.columns, attrs, generated);
      Ok(Insertion(table.tableName, collected + Bookkeeping(table, collected, id, session, clock), id))
  }

  // ------------------------------------------------------------ properties

  function Count(names: seq<string>, name: string): nat
  {
    multiset(names)[name]
  }

  /** No pair collected from the request names a skipped column: the pair comes
      from a column of the table that is not skipped. */
  lemma CollectedNotSkipped(table: TableInfo, attrs: Row, conv: Converters, k: nat)
    requires Collect(table.columns, CreateStep(table.tableName, attrs, conv)).Ok?
    requires k < |Collect(table.columns, CreateStep(table.tableName, attrs, conv)).value|
    ensures var a := Collect(table.columns, CreateStep(table.tableName, attrs, conv)).value[k];
      a.column != "created_at" && a.column != "updated_at" && a.column != "permission" &&
      (a.column == UserAccountIdColumn ==> table.tableName == UserGroupJoinTable)
  {
    var step := CreateStep(table.tableName, attrs, conv);
    CollectFrom(table.columns, step, k);
  }

  /** A supplied column whose conversion gives `None` (a `continue` of the
      loop: no upload performer, no cloud store) is left out of the INSERT. */
  lemma ConversionLeavesOutOnCreate(table: TableInfo, attrs: Row, conv: Converters, i: nat)
    requires Collect(table.columns, CreateStep(table.tableName, attrs, conv)).Ok?
    requires i < |table.columns| && DistinctNames(table.columns)
    requires var col := table.columns[i];
      !SkippedOnCreate(table.tableName, col) && col.columnName != "reference_id" && Supplied(col, attrs).Some? &&
      Normalised(col, Supplied(col, attrs).value, conv, false) == Ok(None)
    ensures table.columns[i].columnName !in ColumnsOf(Collect(table.columns, CreateStep(table.tableName, attrs, conv)).value)
  {
    LeftOut(table.columns, CreateStep(table.tableName, attrs, conv), i);
  }

  lemma CollectedNoBookkeeping(table: TableInfo, attrs: Row, conv: Converters)
    requires Collect(table.columns, CreateStep(table.tableName, attrs, conv)).Ok?
    ensures var names := ColumnsOf(Collect(table.columns, CreateStep(table.tableName, attrs, conv)).value);
      Count(names, "permission") == 0 && Count(names, "created_at") == 0 && Count(names, "updated_at") == 0
  {
    var collected := Collect(table.columns, CreateStep(table.tableName, attrs, conv)).value;
    forall k | 0 <= k < |collected|
      ensures collected[k].column != "permission" && collected[k].column != "created_at" && collected[k].column != "updated_at"
    {
      CollectedNotSkipped(table, attrs, conv, k);
    }
  }

  /** The column names of the INSERT, split into what the loop collected, the
      reference id, the fixed bookkeeping columns and the owner. */
  lemma NamesOnce(collected: seq<string>, refPart: seq<string>, owner: seq<string>)
    requires Count(collected, "permission") == 0 && Count(collected, "created_at") == 0 && Count(collected, "updated_at") == 0
    requires refPart == [] || refPart == ["reference_id"]
    requires owner == [] || owner == [UserAccountIdColumn]
    requires "reference_id" !in collected ==> refPart == ["reference_id"]
    ensures var names := collected + refPart + ["permission", "created_at", "updated_at"] + owner;
      Count(names, "permission") == 1 && Count(names, "created_at") == 1 && Count(names, "updated_at") == 1 && "reference_id" in names
  {
    var fixed := ["permission", "created_at", "updated_at"];
    var names := collected + refPart + fixed + owner;
    assert multiset(names) == multiset(collected) + multiset(refPart) + multiset(fixed) + multiset(owner);
    if "reference_id" in collected {
      assert "reference_id" in names;
    } else {
      assert names[|collected|] == "reference_id";
    }
  }

  /** Added after a loop that named none of them, the bookkeeping columns name
      the permission and each timestamp once, and the reference id at least once. */
  lemma BookkeepingOnce(table: TableInfo, collected: seq<Assignment>, newId: string, session: Session, clock: Stamps)
    requires Count(ColumnsOf(collected), "permission") == 0 && Count(ColumnsOf(collected), "created_at") == 0
    requires Count(ColumnsOf(collected), "updated_at") == 0
    ensures var names := ColumnsOf(collected + Bookkeeping(table, collected, newId, session, clock));
      Count(names, "permission") == 1 && Count(names, "created_at") == 1 && Count(names, "updated_at") == 1 && "reference_id" in names
  {
    var refPart := if "reference_id" in ColumnsOf(collected) then [] else [Assignment("reference_id", Str(newId))];
    var fixed := [Assignment("permission", Int(table.defaultPermission)), Assignment("created_at", clock.createdAt), Assignment("updated_at", clock.updatedAt)];
    var owner := if session.userId != 0 && HasColumn(table, UserAccountIdColumn) && table.tableName != UserGroupJoinTable
      then [Assignment(UserAccountIdColumn, Int(session.userId))] else [];
    assert collected + Bookkeeping(table, collected, newId, session, clock) == collected + refPart + fixed + owner;
    ColumnsOfAppend(collected + refPart + fixed, owner);
    ColumnsOfAppend(collected + refPart, fixed);
    ColumnsOfAppend(collected, refPart);
    assert ColumnsOf(fixed) == ["permission", "created_at", "updated_at"];
    NamesOnce(ColumnsOf(collected), ColumnsOf(refPart), ColumnsOf(owner));
  }

  /** The INSERT names the permission and each timestamp exactly once, and the
      reference id at least once. */
  /** Each timestamp column takes its own clock reading: `created_at` the
      first, `updated_at` the second. */
  lemma InsertTimestamps(table: TableInfo, attrs: Row, session: Session, generated: string, clock: Stamps, conv: Converters)
    requires PlannedInsert(table, attrs, session, generated, clock, conv).Ok?
    ensures Assignment("created_at", clock.createdAt) in PlannedInsert(table, attrs, session, generated, clock, conv).value.assignments
    ensures Assignment("updated_at", clock.updatedAt) in PlannedInsert(table, attrs, session, generated, clock, conv).value.assignments
  {
    var collected := Collect(table.columns, CreateStep(table.tableName, attrs, conv)).value;
    var id := NewId(table.tableName, table.columns, attrs, generated);
    var tail := Bookkeeping(table, collected, id, session, clock);
    assert Assignment("created_at", clock.createdAt) in tail;
    assert Assignment("updated_at", clock.updatedAt) in tail;
  }

  lemma InsertBookkeepingOnce(table: TableInfo, attrs: Row, session: Session, generated: string, clock: Stamps, conv: Converters)
    requires PlannedInsert(table, attrs, session, generated, clock, conv).Ok?
    ensures var names := ColumnsOf(PlannedInsert(table, attrs, session, generated, clock, conv).value.assignments);
      Count(names, "permission") == 1 && Count(names, "created_at") == 1 && Count(names, "updated_at") == 1 && "reference_id" in names
  {
    var collected := Collect(table.columns, CreateStep(table.tableName, attrs, conv)).value;
    CollectedNoBookkeeping(table, attrs, conv);
    BookkeepingOnce(table, collected, NewId(table.tableName, table.columns, attrs, generated), session, clock);
  }

  /** A column the request leaves out (or sets to nil) takes its default when it
      has one, unquoted, and is left to the database when it has none. */
  lemma DefaultUsed(tableName: string, attrs: Row, conv: Converters, col: ColumnInfo)
    requires !SkippedOnCreate(tableName, col) && Lookup(attrs, col.columnName) == Null
    requires !col.isForeignKey && col.columnType !in CreateConvertedTypes + {"enum", "truefalse"} && col.columnName != "reference_id"
    requires conv.types == CreateConvertedTypes
    ensures col.defaultValue != "" ==> CreateValue(tableName, attrs, conv, col) == Ok(Some(Str(Unquoted(col.defaultValue))))
    ensures col.defaultValue == "" ==> CreateValue(tableName, attrs, conv, col) == Ok(None)
  {
  }

  /** An enum column of the request is accepted lower-cased, or refuses the whole create. */
  lemma EnumOnCreate(table: TableInfo, attrs: Row, conv: Converters, i: nat)
    requires i < |table.columns|
    requires var col := table.columns[i];
      !SkippedOnCreate(table.tableName, col) && !col.isForeignKey && col.columnType == "enum" && col.columnName != "reference_id" &&
      Supplied(col, attrs).Some? && !IsOption(col.options, ToLower(Format(Supplied(col, attrs).value)))
    ensures Collect(table.columns, CreateStep(table.tableName, attrs, conv)).Err?
  {
    var step := CreateStep(table.tableName, attrs, conv);
    CollectFails(table.columns, step);
    assert step(table.columns[i]).Err?;
  }

  // ------------------------------------------------------------ the method

  /** One turn of the column loop: the value the column contributes, and the id it sets. */
  method CreateColumn(tableName: string, attrs: Row, conv: Converters, col: ColumnInfo) returns (r: Result<Option<Value>>, id: Option<string>)
    ensures r == CreateValue(tableName, attrs, conv, col)
    ensures r.Ok? ==> id == IdFrom(tableName, attrs, col)
  {
    id := None;
    if SkippedOnCreate(tableName, col) {
      return Ok(None), None;
    }
    var val: Value;
    if Lookup(attrs, col.columnName) == Null {
      if col.defaultValue == "" {
        return Ok(None), None;
      }
      val := Str(Unquoted(col.defaultValue));
    } else {
      val := attrs[col.columnName];
    }
    if col.columnName == "reference_id" {
      if !val.Str? {
        return Err(Panic(OutcomeDispatch.StringAssertionPanic)), None;
      }
      if |val.s| > 0 {
        id := Some(val.s);
      } else {
        return Ok(None), None;
      }
    }
    r := Normalise(col, val, conv, false);
  }

  /** The columns appended after the loop, one by one. */
  method AppendBookkeeping(table: TableInfo, collected: seq<Assignment>, newUuid: string, session: Session, clock: Stamps) returns (tail: seq<Assignment>)
    ensures tail == Bookkeeping(table, collected, newUuid, session, clock)
  {
    tail := [];
    if "reference_id" !in ColumnsOf(collected) {
      tail := tail + [Assignment("reference_id", Str(newUuid))];
    }
    tail := tail + [Assignment("permission", Int(table.defaultPermission))];
    tail := tail + [Assignment("created_at", clock.createdAt)];
    tail := tail + [Assignment("updated_at", clock.updatedAt)];
    if session.userId != 0 && HasColumn(table, UserAccountIdColumn) && table.tableName != UserGroupJoinTable {
      tail := tail + [Assignment(UserAccountIdColumn, Int(session.userId))];
    }
  }

  /** The column loop of `CreateWithoutFilter`: the pairs collected and the
      reference id the row will carry. */
  method CollectColumns(table: TableInfo, attrs: Row, generated: string, conv: Converters) returns (r: Result<seq<Assignment>>, newUuid: string)
    ensures r == Collect(table.columns, CreateStep(table.tableName, attrs, conv))
    ensures r.Ok? ==> newUuid == NewId(table.tableName, table.columns, attrs, generated)
  {
    var step := CreateStep(table.tableName, attrs, conv);
    var cols := table.columns;
    newUuid := generated;
    var collected: seq<Assignment> := [];
    for i := 0 to |cols|
      invariant Collect(cols[..i], step) == Ok(collected)
      invariant newUuid == NewId(table.tableName, cols[..i], attrs, generated)
    {
      var val, id := CreateColumn(table.tableName, attrs, conv, cols[i]);
      if val.Err? {
        assert cols[..i + 1][..i] == cols[..i];
        CollectStopped(cols, step, i + 1);
        return Err(val.error), newUuid;
      }
      CollectStep(cols, step, i);
      NewIdStep(table.tableName, cols, attrs, generated, i);
      if id.Some? {
        newUuid := id.value;
      }
      if val.value.Some? {
        collected := collected + [Assignment(cols[i].columnName, val.value.value)];
      }
    }
    assert cols[..|cols|] == cols;
    r := Ok(collected);
  }

  /** `CreateWithoutFilter` up to the INSERT: the column loop, then the bookkeeping columns. */
  method CreateWithoutFilter(table: TableInfo, attrs: Row, session: Session, generated: string, clock: Stamps, conv: Converters) returns (r: Result<Insertion>)
    ensures r == PlannedInsert(table, attrs, session, generated, clock, conv)
  {
    var collected, newUuid := CollectColumns(table, attrs, generated, conv);
    if collected.Err? {
      return Err(collected.error);
    }
    var tail := AppendBookkeeping(table, collected.value, newUuid, session, clock);
    r := Ok(Insertion(table.tableName, collected.value + tail, newUuid));
  }

  // ----------------------------------------------------------- the chain

  /** Whether a BeforeCreate interceptor lets the create go on. */
  predicate Accepts(f: Interceptor, data: Row)
  {
    f.intercept([data]).error.None? && f.intercept([data]).rows.Some?
  }

  function Tagged(data: Row, typeName: string): Row
  {
    data["__type" := Str(typeName)]
  }

  /** The BeforeCreate interceptors: each sees the data tagged with the table's
      name; an error, or a nil reply, stops the create. The replies do not
      replace the data. */
  function BeforeCreate(before: seq<Interceptor>, data: Row, typeName: string): (r: Result<Row>)
    ensures r.Ok? <==> forall k :: 0 <= k < |before| ==> Accepts(before[k], Tagged(data, typeName))
    ensures r.Ok? ==> r.value == if |before| == 0 then data else Tagged(data, typeName)
  {
    if |before| == 0 then Ok(data)
    else
      match BeforeCreate(before[..|before| - 1], data, typeName)
      case Err(e) => Err(e)
      case Ok(d) =>
        var tagged := Tagged(data, typeName);
        var f := before[|before| - 1];
        var reply := f.intercept([tagged]);
        if reply.error.Some? then Err(reply.error.value)
        else if reply.rows.None? then Err(NoObjectAfter(f.name))
        else Ok(tagged)
  }

  /** The first interceptor that does not accept decides the error. */
  lemma {:induction false} BeforeCreateFirstRefusal(before: seq<Interceptor>, data: Row, typeName: string, k: nat)
    requires k < |before| && !Accepts(before[k], Tagged(data, typeName))
    requires forall j :: 0 <= j < k ==> Accepts(before[j], Tagged(data, typeName))
    ensures var reply := before[k].intercept([Tagged(data, typeName)]);
      BeforeCreate(before, data, typeName) == if reply.error.Some? then Err(reply.error.value) else Err(NoObjectAfter(before[k].name))
  {
    var init := before[..|before| - 1];
    if k < |init| {
      assert init[k] == before[k];
      assert forall j :: 0 <= j < k ==> init[j] == before[j];
      BeforeCreateFirstRefusal(init, data, typeName, k);
    } else {
      assert forall j :: 0 <= j < k ==> init[j] == before[j];
    }
  }

  /** The read-back row, as `CreateWithoutFilter` returns it: without its
      numeric id and tagged with the table's name. */
  function Created(row: Row, typeName: string): (r: Row)
    ensures "id" !in r && "__type" in r && r["__type"] == Str(typeName)
    ensures forall k :: k in row && k != "id" && k != "__type" ==> k in r && r[k] == row[k]
  {
    (row - {"id"})["__type" := Str(typeName)]
  }

  /** `Create`: the before chain, the INSERT (through `insert`, which issues it
      and reads the new row back by its reference id), then the after chain. */
  function Create(table: TableInfo, before: seq<Interceptor>, after: seq<Interceptor>, data: Row, session: Session, generated: string,
                  clock: Stamps, conv: Converters, insert: Insertion -> Result<Row>): Result<Response>
  {
    match BeforeCreate(before, data, table.tableName)
    case Err(e) => Err(e)
    case Ok(d) =>
      match PlannedInsert(table, d, session, generated, clock, conv)
      case Err(e) => Err(e)
      case Ok(ins) =>
        match insert(ins)
        case Err(e) => Err(e)
        case Ok(row) => Ok(Response(201, AfterChain(after, Some(Created(row, table.tableName)))))
  }

  /** A refusal by any BeforeCreate interceptor means nothing is inserted. */
  lemma CreateRefusedBefore(table: TableInfo, before: seq<Interceptor>, after: seq<Interceptor>, data: Row, session: Session, generated: string,
                            clock: Stamps, conv: Converters, insert: Insertion -> Result<Row>, k: nat)
    requires k < |before| && !Accepts(before[k], Tagged(data, table.tableName))
    ensures Create(table, before, after, data, session, generated, clock, conv, insert).Err?
  {
  }

  /** With no after interceptors the response carries the read-back row,
      without its id; an after interceptor returning no rows empties it. */
  lemma CreateResponse(table: TableInfo, before: seq<Interceptor>, after: seq<Interceptor>, data: Row, session: Session, generated: string,
                       clock: Stamps, conv: Converters, insert: Insertion -> Result<Row>)
    requires Create(table, before, after, data, session, generated, clock, conv, insert).Ok?
    ensures Create(table, before, after, data, session, generated, clock, conv, insert).value.status == 201
    ensures |after| == 0 ==> var res := Create(table, before, after, data, session, generated, clock, conv, insert).value.resource;
      res.Some? && "id" !in res.value
    ensures |after| > 0 && AlwaysEmpty(after[|after| - 1]) ==>
      Create(table, before, after, data, session, generated, clock, conv, insert).value.resource.None?
  {
    if |after| > 0 && AlwaysEmpty(after[|after| - 1]) {
      var d := BeforeCreate(before, data, table.tableName).value;
      var ins := PlannedInsert(table, d, session, generated, clock, conv).value;
      AfterChainCleared(after, Some(Created(insert(ins).value, table.tableName)), |after| - 1);
    }
  }

  method RunBeforeCreate(before: seq<Interceptor>, data: Row, typeName: string) returns (r: Result<Row>)
    ensures r == BeforeCreate(before, data, typeName)
  {
    var d := data;
    for i := 0 to |before|
      invariant BeforeCreate(before[..i], data, typeName) == Ok(d)
    {
      assert before[..i + 1][..i] == before[..i];
      assert before[..i + 1][i] == before[i];
      d := d["__type" := Str(typeName)];
      assert d == Tagged(data, typeName);
      var responseData := before[i].intercept([d]);
      if responseData.error.Some? {
        BeforeCreateStopped(before, data, typeName, i + 1);
        return Err(responseData.error.value);
      }
      if responseData.rows.None? {
        BeforeCreateStopped(before, data, typeName, i + 1);
        return Err(NoObjectAfter(before[i].name));
      }
    }
    assert before[..|before|] == before;
    r := Ok(d);
  }

  lemma {:induction false} BeforeCreateStopped(before: seq<Interceptor>, data: Row, typeName: string, j: nat)
    requires j <= |before| && BeforeCreate(before[..j], data, typeName).Err?
    ensures BeforeCreate(before, data, typeName) == BeforeCreate(before[..j], data, typeName)
    decreases |before| - j
  {
    if j < |before| {
      assert before[..j + 1][..j] == before[..j];
      BeforeCreateStopped(before, data, typeName, j + 1);
    } else {
      assert before[..j] == before;
    }
  }

  /** `Create`, with the SQL and the read-back behind `insert`. */
  method CreateRow(table: TableInfo, before: seq<Interceptor>, after: seq<Interceptor>, data: Row, session: Session, generated: string,
                   clock: Stamps, conv: Converters, insert: Insertion -> Result<Row>) returns (r: Result<Response>)
    ensures r == Create(table, before, after, data, session, generated, clock, conv, insert)
  {
    var d := RunBeforeCreate(before, data, table.tableName);
    if d.Err? {
      return Err(d.error);
    }
    var ins := CreateWithoutFilter(table, d.value, session, generated, clock, conv);
    if ins.Err? {
      return Err(ins.error);
    }
    var row := insert(ins.value);
    if row.Err? {
      return Err(row.error);
    }
    var createdResource := RunAfter(after, Some(Created(row.value, table.tableName)));
    r := Ok(Response(201, createdResource));
  }
}
