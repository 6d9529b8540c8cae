/** The table and column descriptions the server builds its schema from, and the
    two registries built at start-up in server/server.go: `MergeTables`, which
    folds the tables of the configuration files into the tables already stored,
    and `actionPerformersListToMap`, which keys the action performers by name. */
module Schema {
  import opened Text
  import opened Actions

  /** One allowed value of an enum column. */
  datatype ValueOption = ValueOption(valueLabel: string, value: string)

  /** Where a foreign-key column points: a table of this database ("self") or a cloud store. */
  datatype ForeignKey = ForeignKey(dataSource: string, namespace: string, keyName: string)

  datatype ColumnInfo = ColumnInfo(
    name: string,
    columnName: string,
    columnDescription: string,
    isPrimaryKey: bool,
    isAutoIncrement: bool,
    isIndexed: bool,
    isUnique: bool,
    isNullable: bool,
    permission: int,
    isForeignKey: bool,
    excludeFromApi: bool,
    foreignKeyData: ForeignKey,
    dataType: string,
    columnType: string,
    defaultValue: string,
    options: seq<ValueOption>)

  /** A relation between two tables. Its `Hash()` is computed by a library
      whose code is not part of this model, so the operations below take it as
      a parameter. */
  datatype Relation = Relation(subject: string, relation: string, objectName: string, subjectName: string, objectType: string)

  type RelationHash = Relation -> string

  datatype TableInfo = TableInfo(
    tableName: string,
    columns: seq<ColumnInfo>,
    relations: seq<Relation>,
    defaultPermission: int,
    isTopLevel: bool,
    isJoinTable: bool,
    translationsEnabled: bool,
    defaultGroups: seq<string>,
    defaultOrder: string,
    conformations: seq<ColumnTags>,
    validations: seq<ColumnTags>,
    compositeKeys: seq<seq<string>>,
    icon: string)

  function ColumnNameOf(c: ColumnInfo): string { c.columnName }

  function TableNameOf(t: TableInfo): string { t.tableName }

  // ------------------------------------------------------------ first match

  /** The index of the first element whose key is `name`: the searches of
      `MergeTables` that stop at the first matching table or column. */
  function FirstKeyed<T>(s: seq<T>, key: T -> string, name: string): (k: Option<nat>)
    ensures k.Some? ==> k.value < |s| && key(s[k.value]) == name
    ensures k.Some? ==> forall j :: 0 <= j < k.value ==> key(s[j]) != name
    ensures k.None? ==> forall j :: 0 <= j < |s| ==> key(s[j]) != name
  {
    if |s| == 0 then None
    else if key(s[0]) == name then Some(0)
    else match FirstKeyed(s[1..], key, name)
      case None => None
      case Some(k) => Some(k + 1)
  }

  method FindKeyed<T>(s: seq<T>, key: T -> string, name: string) returns (found: bool, index: nat)
    ensures found <==> FirstKeyed(s, key, name).Some?
    ensures found ==> index == FirstKeyed(s, key, name).value
  {
    found, index := false, 0;
    var i := 0;
    while i < |s|
      invariant 0 <= i <= |s|
      invariant forall j :: 0 <= j < i ==> key(s[j]) != name
    {
      if key(s[i]) == name {
        found, index := true, i;
        FirstKeyedUnique(s, key, name, i);
        return;
      }
      i := i + 1;
    }
  }

  /** The first match is the only index that matches with no match before it. */
  lemma FirstKeyedUnique<T>(s: seq<T>, key: T -> string, name: string, i: nat)
    requires i < |s| && key(s[i]) == name
    requires forall j :: 0 <= j < i ==> key(s[j]) != name
    ensures FirstKeyed(s, key, name) == Some(i)
  {
    if i > 0 {
      FirstKeyedUnique(s[1..], key, name, i - 1);
    }
  }

  // -------------------------------------------------------------- columns

  /** The twelve definition fields `MergeTables` copies from a configured
      column onto the stored column of the same name. */
  predicate SameDefinition(a: ColumnInfo, b: ColumnInfo)
  {
    && a.defaultValue == b.defaultValue
    && a.excludeFromApi == b.excludeFromApi
    && a.isIndexed == b.isIndexed
    && a.isNullable == b.isNullable
    && a.isUnique == b.isUnique
    && a.columnType == b.columnType
    && a.options == b.options
    && a.dataType == b.dataType
    && a.columnDescription == b.columnDescription
    && a.foreignKeyData == b.foreignKeyData
    && a.isForeignKey == b.isForeignKey
    && a.isPrimaryKey == b.isPrimaryKey
  }

  /** The fields an overwrite keeps from the stored column. */
  predicate SameIdentity(a: ColumnInfo, b: ColumnInfo)
  {
    a.name == b.name && a.columnName == b.columnName && a.isAutoIncrement == b.isAutoIncrement && a.permission == b.permission
  }

  /** The stored column with the configured column's definition. */
  function Overwrite(stored: ColumnInfo, configured: ColumnInfo): (c: ColumnInfo)
    ensures SameDefinition(c, configured) && SameIdentity(c, stored)
  {
    stored.(
      defaultValue := configured.defaultValue,
      excludeFromApi := configured.excludeFromApi,
      isIndexed := configured.isIndexed,
      isNullable := configured.isNullable,
      isUnique := configured.isUnique,
      columnType := configured.columnType,
      options := configured.options,
      dataType := configured.dataType,
      columnDescription := configured.columnDescription,
      foreignKeyData := configured.foreignKeyData,
      isForeignKey := configured.isForeignKey,
      isPrimaryKey := configured.isPrimaryKey)
  }

  /** One configured column against the columns so far: the first column of the
      same name takes its definition, or else it is appended. */
  function MergeColumn(cols: seq<ColumnInfo>, c: ColumnInfo): seq<ColumnInfo>
  {
    match FirstKeyed(cols, ColumnNameOf, c.columnName)
    case Some(k) => cols[k := Overwrite(cols[k], c)]
    case None => cols + [c]
  }

  /** The configured columns merged one after the other, each seeing the ones appended before it. */
  function MergeColumns(cols: seq<ColumnInfo>, configured: seq<ColumnInfo>): seq<ColumnInfo>
  {
    if |configured| == 0 then cols
    else MergeColumn(MergeColumns(cols, configured[..|configured| - 1]), configured[|configured| - 1])
  }

  /** No stored column is removed, renamed or moved, and their identities stay. */
  lemma {:induction false} ColumnsKept(cols: seq<ColumnInfo>, configured: seq<ColumnInfo>)
    ensures |cols| <= |MergeColumns(cols, configured)|
    ensures forall k :: 0 <= k < |cols| ==> SameIdentity(MergeColumns(cols, configured)[k], cols[k])
  {
    if |configured| > 0 {
      ColumnsKept(cols, configured[..|configured| - 1]);
    }
  }

  /** A stored column no configured column names is unchanged. */
  lemma {:induction false} ColumnsUntouched(cols: seq<ColumnInfo>, configured: seq<ColumnInfo>, k: nat)
    requires k < |cols|
    requires forall i :: 0 <= i < |configured| ==> configured[i].columnName != cols[k].columnName
    ensures k < |MergeColumns(cols, configured)| && MergeColumns(cols, configured)[k] == cols[k]
  {
    if |configured| > 0 {
      var init := configured[..|configured| - 1];
      ColumnsUntouched(cols, init, k);
      ColumnsKept(cols, init);
      var acc := MergeColumns(cols, init);
      var c := configured[|configured| - 1];
      match FirstKeyed(acc, ColumnNameOf, c.columnName)
      case Some(j) => assert acc[k].columnName == cols[k].columnName;
      case None =>
    }
  }

  /** Merging a configured column as the last step leaves a column of that name,
      and the first column of that name carries its definition. */
  lemma MergeColumnDefines(cols: seq<ColumnInfo>, c: ColumnInfo)
    ensures FirstKeyed(MergeColumn(cols, c), ColumnNameOf, c.columnName).Some?
    ensures SameDefinition(MergeColumn(cols, c)[FirstKeyed(MergeColumn(cols, c), ColumnNameOf, c.columnName).value], c)
  {
    var r := MergeColumn(cols, c);
    match FirstKeyed(cols, ColumnNameOf, c.columnName)
    case Some(k) =>
      FirstKeyedUnique(r, ColumnNameOf, c.columnName, k);
    case None =>
      FirstKeyedUnique(r, ColumnNameOf, c.columnName, |cols|);
  }

  /** A configured column of another name does not move or change the first column named `n`. */
  lemma MergeColumnElsewhere(cols: seq<ColumnInfo>, c: ColumnInfo, n: string)
    requires c.columnName != n
    requires FirstKeyed(cols, ColumnNameOf, n).Some?
    ensures FirstKeyed(MergeColumn(cols, c), ColumnNameOf, n) == FirstKeyed(cols, ColumnNameOf, n)
    ensures MergeColumn(cols, c)[FirstKeyed(cols, ColumnNameOf, n).value] == cols[FirstKeyed(cols, ColumnNameOf, n).value]
  {
    var r := MergeColumn(cols, c);
    var k := FirstKeyed(cols, ColumnNameOf, n).value;
    match FirstKeyed(cols, ColumnNameOf, c.columnName)
    case Some(j) =>
      assert r[k] == cols[k];
      FirstKeyedUnique(r, ColumnNameOf, n, k);
    case None =>
      FirstKeyedUnique(r, ColumnNameOf, n, k);
  }

  /** The last configured column of each name decides that column's definition. */
  lemma {:induction false} LastDefinitionWins(cols: seq<ColumnInfo>, configured: seq<ColumnInfo>, i: nat)
    requires i < |configured|
    requires forall j :: i < j < |configured| ==> configured[j].columnName != configured[i].columnName
    ensures FirstKeyed(MergeColumns(cols, configured), ColumnNameOf, configured[i].columnName).Some?
    ensures SameDefinition(MergeColumns(cols, configured)[FirstKeyed(MergeColumns(cols, configured), ColumnNameOf, configured[i].columnName).value], configured[i])
  {
    var init := configured[..|configured| - 1];
    var c := configured[|configured| - 1];
    if i == |configured| - 1 {
      MergeColumnDefines(MergeColumns(cols, init), c);
    } else {
      LastDefinitionWins(cols, init, i);
      MergeColumnElsewhere(MergeColumns(cols, init), c, configured[i].columnName);
    }
  }

  /** Every column the merge adds comes from the configuration, under a name the stored columns did not have. */
  lemma {:induction false} AddedColumnsConfigured(cols: seq<ColumnInfo>, configured: seq<ColumnInfo>, k: nat)
    requires |cols| <= k < |MergeColumns(cols, configured)|
    ensures FirstKeyed(cols, ColumnNameOf, MergeColumns(cols, configured)[k].columnName).None?
    ensures exists i :: 0 <= i < |configured| && configured[i].columnName == MergeColumns(cols, configured)[k].columnName
  {
    var init := configured[..|configured| - 1];
    var acc := MergeColumns(cols, init);
    var c := configured[|configured| - 1];
    ColumnsKept(cols, init);
    var r := MergeColumns(cols, configured);
    assert |r| == |acc| || |r| == |acc| + 1;
    if k < |acc| {
      AddedColumnsConfigured(cols, init, k);
      var i :| 0 <= i < |init| && init[i].columnName == acc[k].columnName;
      assert r[k].columnName == acc[k].columnName;
      assert configured[i] == init[i];
    } else {
      assert FirstKeyed(acc, ColumnNameOf, c.columnName).None?;
      assert r[k] == c;
    }
  }

  /** `FindColumn` plus the overwrite or append of one configured column. */
  method MergeColumnInto(cols: seq<ColumnInfo>, c: ColumnInfo) returns (r: seq<ColumnInfo>)
    ensures r == MergeColumn(cols, c)
  {
    var found, colIndex := FindKeyed(cols, ColumnNameOf, c.columnName);
    if found {
      r := cols[colIndex := Overwrite(cols[colIndex], c)];
    } else {
      r := cols + [c];
    }
  }

  method MergeColumnList(cols: seq<ColumnInfo>, configured: seq<ColumnInfo>) returns (r: seq<ColumnInfo>)
    ensures r == MergeColumns(cols, configured)
  {
    r := cols;
    for i := 0 to |configured|
      invariant r == MergeColumns(cols, configured[..i])
    {
      assert configured[..i + 1][..i] == configured[..i];
      r := MergeColumnInto(r, configured[i]);
    }
    assert configured[..|configured|] == configured;
  }

  // ------------------------------------------------------------ relations

  function HashesOf(rels: seq<Relation>, hash: RelationHash): set<string>
  {
    set k | 0 <= k < |rels| :: hash(rels[k])
  }

  /** The relations whose hash is not in `seen`, in their order. */
  function Unseen(rels: seq<Relation>, hash: RelationHash, seen: set<string>): (r: seq<Relation>)
    ensures forall k :: 0 <= k < |r| ==> r[k] in rels && hash(r[k]) !in seen
    ensures forall k :: 0 <= k < |rels| && hash(rels[k]) !in seen ==> rels[k] in r
  {
    if |rels| == 0 then []
    else
      var init := Unseen(rels[..|rels| - 1], hash, seen);
      var last := rels[|rels| - 1];
      assert forall k :: 0 <= k < |rels| - 1 ==> rels[k] == rels[..|rels| - 1][k];
      if hash(last) in seen then init else init + [last]
  }

  /** The relation step of `MergeTables`: the hashes of the stored relations are
      collected once, and each configured relation outside them is appended
      (`TableInfo.AddRelation` is taken to be an append). */
  function MergeRelations(rels: seq<Relation>, configured: seq<Relation>, hash: RelationHash): (r: seq<Relation>)
    ensures |rels| <= |r| && r[..|rels|] == rels
    ensures forall k :: |rels| <= k < |r| ==> r[k] in configured && hash(r[k]) !in HashesOf(rels, hash)
    ensures forall k :: 0 <= k < |configured| && hash(configured[k]) !in HashesOf(rels, hash) ==> configured[k] in r
  {
    var added := Unseen(configured, hash, HashesOf(rels, hash));
    assert forall k :: |rels| <= k < |rels + added| ==> (rels + added)[k] == added[k - |rels|];
    rels + added
  }

  method MergeRelationList(rels: seq<Relation>, configured: seq<Relation>, hash: RelationHash) returns (r: seq<Relation>)
    ensures r == MergeRelations(rels, configured, hash)
  {
    var relMap: set<string> := {};
    for k := 0 to |rels|
      invariant relMap == HashesOf(rels[..k], hash)
    {
      assert forall j :: 0 <= j < k ==> rels[..k + 1][j] == rels[..k][j];
      assert rels[..k + 1][k] == rels[k];
      relMap := relMap + {hash(rels[k])};
    }
    assert rels[..|rels|] == rels;
    r := rels;
    for k := 0 to |configured|
      invariant r == rels + Unseen(configured[..k], hash, relMap)
    {
      assert configured[..k + 1][..k] == configured[..k];
      if hash(configured[k]) !in relMap {
        r := r + [configured[k]];
      }
    }
    assert configured[..|configured|] == configured;
  }

  // --------------------------------------------------------------- tables

  /** A stored table merged with the configured table of the same name. */
  function MergeTable(t: TableInfo, configured: TableInfo, hash: RelationHash): TableInfo
  {
    t.(
      columns := MergeColumns(t.columns, configured.columns),
      relations := MergeRelations(t.relations, configured.relations, hash),
      defaultGroups := configured.defaultGroups,
      defaultOrder := configured.defaultOrder,
      conformations := configured.conformations,
      validations := configured.validations,
      compositeKeys := configured.compositeKeys,
      icon := configured.icon)
  }

  /** A stored table after the merge: merged with the first configured table of its name, if any. */
  function MergedTable(t: TableInfo, configured: seq<TableInfo>, hash: RelationHash): TableInfo
  {
    match FirstKeyed(configured, TableNameOf, t.tableName)
    case None => t
    case Some(i) => MergeTable(t, configured[i], hash)
  }

  function TableNames(tables: seq<TableInfo>): set<string>
  {
    set k | 0 <= k < |tables| :: tables[k].tableName
  }

  /** The configured tables whose name no stored table has, in configuration order. */
  function NewTables(configured: seq<TableInfo>, names: set<string>): (r: seq<TableInfo>)
    ensures forall k :: 0 <= k < |r| ==> r[k] in configured && r[k].tableName !in names
    ensures forall k :: 0 <= k < |configured| && configured[k].tableName !in names ==> configured[k] in r
  {
    if |configured| == 0 then []
    else
      var init := NewTables(configured[..|configured| - 1], names);
      var last := configured[|configured| - 1];
      assert forall k :: 0 <= k < |configured| - 1 ==> configured[k] == configured[..|configured| - 1][k];
      if last.tableName in names then init else init + [last]
  }

  /** What `MergeTables` returns: every stored table, merged, in order, then the new configured tables. */
  function Merged(existing: seq<TableInfo>, configured: seq<TableInfo>, hash: RelationHash): seq<TableInfo>
  {
    MergedStored(existing, configured, hash) + NewTables(configured, TableNames(existing))
  }

  /** The stored tables after the merge, as `MergeTables` leaves them in place. */
  function MergedStored(existing: seq<TableInfo>, configured: seq<TableInfo>, hash: RelationHash): (r: seq<TableInfo>)
    ensures |r| == |existing|
    ensures forall j :: 0 <= j < |existing| ==> r[j] == MergedTable(existing[j], configured, hash)
  {
    seq(|existing|, j requires 0 <= j < |existing| => MergedTable(existing[j], configured, hash))
  }

  /** The result lists the stored tables in their order and then exactly the
      configured tables with a new name, in configuration order. */
  lemma MergedTablesOrder(existing: seq<TableInfo>, configured: seq<TableInfo>, hash: RelationHash)
    ensures |Merged(existing, configured, hash)| == |existing| + |NewTables(configured, TableNames(existing))|
    ensures forall j :: 0 <= j < |existing| ==> Merged(existing, configured, hash)[j].tableName == existing[j].tableName
    ensures forall k :: |existing| <= k < |Merged(existing, configured, hash)| ==>
      Merged(existing, configured, hash)[k] in configured && Merged(existing, configured, hash)[k].tableName !in TableNames(existing)
    ensures forall k :: 0 <= k < |configured| && configured[k].tableName !in TableNames(existing) ==>
      configured[k] in Merged(existing, configured, hash)[|existing|..]
  {
    var m := Merged(existing, configured, hash);
    var added := NewTables(configured, TableNames(existing));
    assert m[|existing|..] == added;
    forall j | 0 <= j < |existing| ensures m[j].tableName == existing[j].tableName {
      match FirstKeyed(configured, TableNameOf, existing[j].tableName)
      case None =>
      case Some(i) =>
    }
    forall k | |existing| <= k < |m| ensures m[k] in configured && m[k].tableName !in TableNames(existing) {
      assert m[k] == added[k - |existing|];
    }
  }

  /** A stored table that no configured table names comes back unchanged. */
  lemma UnmatchedTableUnchanged(existing: seq<TableInfo>, configured: seq<TableInfo>, hash: RelationHash, j: nat)
    requires j < |existing|
    requires forall i :: 0 <= i < |configured| ==> configured[i].tableName != existing[j].tableName
    ensures Merged(existing, configured, hash)[j] == existing[j]
  {
    assert FirstKeyed(configured, TableNameOf, existing[j].tableName).None?;
  }

  /** A matched table keeps its stored columns and takes the table-level settings
      of the configured table, even when the configured table lists no columns. */
  lemma MatchedTableMerged(existing: seq<TableInfo>, configured: seq<TableInfo>, hash: RelationHash, j: nat, i: nat)
    requires j < |existing| && i < |configured|
    requires configured[i].tableName == existing[j].tableName
    requires forall i' :: 0 <= i' < i ==> configured[i'].tableName != existing[j].tableName
    ensures Merged(existing, configured, hash)[j] == MergeTable(existing[j], configured[i], hash)
    ensures |configured[i].columns| == 0 ==> Merged(existing, configured, hash)[j].columns == existing[j].columns
    ensures Merged(existing, configured, hash)[j].icon == configured[i].icon
    ensures Merged(existing, configured, hash)[j].defaultGroups == configured[i].defaultGroups
  {
    FirstKeyedUnique(configured, TableNameOf, existing[j].tableName, i);
  }

  /** The body of `MergeTables` for one stored table. */
  method MergeStoredTable(table: TableInfo, configured: seq<TableInfo>, hash: RelationHash) returns (isBeingModified: bool, r: TableInfo)
    ensures isBeingModified <==> FirstKeyed(configured, TableNameOf, table.tableName).Some?
    ensures r == MergedTable(table, configured, hash)
  {
    var indexBeingModified;
    isBeingModified, indexBeingModified := FindKeyed(configured, TableNameOf, table.tableName);
    r := table;
    if isBeingModified {
      var modified := configured[indexBeingModified];
      var columns := table.columns;
      if |modified.columns| > 0 {
        columns := MergeColumnList(table.columns, modified.columns);
      }
      var relations := table.relations;
      if |modified.relations| > 0 {
        relations := MergeRelationList(table.relations, modified.relations, hash);
      }
      r := table.(columns := columns, relations := relations,
        defaultGroups := modified.defaultGroups, defaultOrder := modified.defaultOrder,
        conformations := modified.conformations, validations := modified.validations,
        compositeKeys := modified.compositeKeys, icon := modified.icon);
    }
  }

  /** The second loop of `MergeTables`: configured tables with an unseen name. */
  method CollectNewTables(configured: seq<TableInfo>, existingNames: set<string>) returns (added: seq<TableInfo>)
    ensures added == NewTables(configured, existingNames)
  {
    added := [];
    for i := 0 to |configured|
      invariant added == NewTables(configured[..i], existingNames)
    {
      assert configured[..i + 1][..i] == configured[..i];
      if configured[i].tableName !in existingNames {
        added := added + [configured[i]];
      }
    }
    assert configured[..|configured|] == configured;
  }

  lemma MergedStoredStep(stored: seq<TableInfo>, j: nat, configured: seq<TableInfo>, hash: RelationHash)
    requires j < |stored|
    ensures MergedStored(stored[..j + 1], configured, hash) == MergedStored(stored[..j], configured, hash) + [MergedTable(stored[j], configured, hash)]
    ensures TableNames(stored[..j + 1]) == TableNames(stored[..j]) + {stored[j].tableName}
  {
    assert stored[..j + 1] == stored[..j] + [stored[j]];
  }

  /** One iteration of `MergeTables`: `existingTables[j]` is overwritten when a configured table matches it. */
  method MergeAt(existing: array<TableInfo>, j: nat, configured: seq<TableInfo>, hash: RelationHash) returns (table: TableInfo)
    requires j < existing.Length
    modifies existing
    ensures table == MergedTable(old(existing[j]), configured, hash)
    ensures existing[..] == old(existing[..])[j := table]
  {
    var isBeingModified;
    isBeingModified, table := MergeStoredTable(existing[j], configured, hash);
    if isBeingModified {
      existing[j] := table;
    }
  }

  /** `MergeTables`: the stored tables are rewritten in place and the full list is returned. */
  method MergeTables(existing: array<TableInfo>, configured: seq<TableInfo>, hash: RelationHash) returns (all: seq<TableInfo>)
    modifies existing
    ensures existing[..] == MergedStored(old(existing[..]), configured, hash)
    ensures all == Merged(old(existing[..]), configured, hash)
  {
    var existingNames;
    all, existingNames := MergeStoredTables(existing, configured, hash);
    var added := CollectNewTables(configured, existingNames);
    all := all + added;
  }

  /** The loop of `MergeTables` over the stored tables, which it updates in place. */
  method MergeStoredTables(existing: array<TableInfo>, configured: seq<TableInfo>, hash: RelationHash) returns (all: seq<TableInfo>, existingNames: set<string>)
    modifies existing
    ensures existing[..] == MergedStored(old(existing[..]), configured, hash)
    ensures all == existing[..]
    ensures existingNames == TableNames(old(existing[..]))
  {
    ghost var stored := existing[..];
    existingNames := {};
    for j := 0 to existing.Length
      invariant forall k :: 0 <= k < j ==> existing[k] == MergedTable(stored[k], configured, hash)
      invariant forall k :: j <= k < existing.Length ==> existing[k] == stored[k]
      invariant existingNames == TableNames(stored[..j])
    {
      existingNames := existingNames + {existing[j].tableName};
      var table := MergeAt(existing, j, configured, hash);
      MergedStoredStep(stored, j, configured, hash);
    }
    assert stored[..existing.Length] == stored;
    all := existing[..];
  }

  // ---------------------------------------------------- action performers

  /** `actionPerformersListToMap`, as a fold: nil entries are skipped and a
      performer replaces any earlier one of the same name. */
  function PerformersByName<P>(performers: seq<Option<P>>, name: P -> string): map<string, P>
  {
    if |performers| == 0 then map[]
    else
      var m := PerformersByName(performers[..|performers| - 1], name);
      match performers[|performers| - 1]
      case None => m
      case Some(p) => m[name(p) := p]
  }

  /** Exactly the names of the non-nil performers are keys. */
  lemma {:induction false} PerformerNames<P>(performers: seq<Option<P>>, name: P -> string, n: string)
    ensures n in PerformersByName(performers, name) <==>
      exists i :: 0 <= i < |performers| && performers[i].Some? && name(performers[i].value) == n
  {
    if |performers| > 0 {
      var init := performers[..|performers| - 1];
      PerformerNames(init, name, n);
      assert forall i :: 0 <= i < |init| ==> init[i] == performers[i];
    }
  }

  /** Each name maps to the last non-nil performer of that name. */
  lemma {:induction false} LastPerformerWins<P>(performers: seq<Option<P>>, name: P -> string, i: nat)
    requires i < |performers| && performers[i].Some?
    requires forall j :: i < j < |performers| && performers[j].Some? ==> name(performers[j].value) != name(performers[i].value)
    ensures name(performers[i].value) in PerformersByName(performers, name)
    ensures PerformersByName(performers, name)[name(performers[i].value)] == performers[i].value
  {
    var init := performers[..|performers| - 1];
    if i < |performers| - 1 {
      assert init[i] == performers[i];
      LastPerformerWins(init, name, i);
    }
  }

  method ActionPerformersListToMap<P>(performers: seq<Option<P>>, name: P -> string) returns (m: map<string, P>)
    ensures m == PerformersByName(performers, name)
  {
    m := map[];
    for i := 0 to |performers|
      invariant m == PerformersByName(performers[..i], name)
    {
      assert performers[..i + 1][..i] == performers[..i];
      match performers[i]
      case None =>
      case Some(p) => m := m[name(p) := p];
    }
    assert performers[..|performers|] == performers;
  }
}
