/** The older parent/child relationship (`src/model/relationship.ts`) and
    `ModelColumn.getRelationship` (`src/model/column.ts`), which builds it. `Model.build`
    does not call this variant; it is kept beside the extractor and indexed by `Parse`. */
module RelationshipModel {
  import opened Basics
  import opened Strings
  import opened Inflection
  import opened RelationshipTypes
  import opened Entities
  import opened Column
  import opened Pivot

  /** The relationship as seen from both ends; `foreignKey` joins the referenced table and column with a dot. */
  datatype Relationship = Relationship(
    foreignKey: string,
    parentType: RelationshipType,
    parentModelName: string,
    parentModelColumn: string,
    parentTableName: string,
    parentTableColumn: string,
    childType: RelationshipType,
    childModelName: string,
    childModelColumn: string,
    childTableName: string,
    childTableColumn: string)

  /** The index `Parse` builds: model name, then foreign key. */
  type RelationshipIndex = map<string, map<string, Relationship>>

  /** `#getModelColumn`: the camel-cased name of the first model column stored under
      `tableColumnName`; reading `.name` of no column raises. */
  function GetModelColumn(model: Model, tableColumnName: Option<string>): (r: Result<string>)
    ensures r.TypeError? <==> forall c | c in model.columns :: Some(c.columnName) != tableColumnName
    ensures r.Ok? ==> exists c | c in model.columns :: Some(c.columnName) == tableColumnName && r.value == c.name
  {
    match Find(model.columns, (c: ModelColumn) => Some(c.columnName) == tableColumnName)
    case None => TypeError
    case Some(c) => Ok(c.name)
  }

  /** The singular names of every table except the column's own, in catalog order. */
  function OtherSingulars(inf: Inflector, column: ModelColumn, tables: seq<Model>): seq<string> {
    MapSeq(Filter(tables, (t: Model) => t.tableName != column.tableName), (t: Model) => inf.singular(t.tableName))
  }

  /** The pivot test of `#setTypes`. */
  predicate MatchesPivotName(inf: Inflector, column: ModelColumn, tables: seq<Model>) {
    var s := inf.singular(column.tableName);
    var others := OtherSingulars(inf, column, tables);
    s == PivotName(Find(others, (n: string) => StartsWith(s, n)), Find(others, (n: string) => EndsWith(s, n)))
  }

  /** `#setTypes`: the parent and child kinds, in that order. */
  function SideTypes(inf: Inflector, t: RelationshipType, column: ModelColumn, tables: seq<Model>)
    : (r: (RelationshipType, RelationshipType))
    ensures r == (ManyToMany, ManyToMany) <==> MatchesPivotName(inf, column, tables) || t == ManyToMany
    ensures r != (ManyToMany, ManyToMany) ==> r.1 == BelongsTo
    ensures r != (ManyToMany, ManyToMany) ==> r.0 == (if t == BelongsTo then HasMany else t)
  {
    if MatchesPivotName(inf, column, tables) || t == ManyToMany then (ManyToMany, ManyToMany)
    else if t == BelongsTo then (HasMany, BelongsTo)
    else (t, BelongsTo)
  }

  /** Whatever the input kind, the parent is never a belongs-to, the child is a belongs-to
      or a many-to-many, and one side is many-to-many exactly when the other is. */
  lemma SideTypesShape(inf: Inflector, t: RelationshipType, column: ModelColumn, tables: seq<Model>)
    ensures var (parent, child) := SideTypes(inf, t, column, tables);
      && parent != BelongsTo
      && (child == BelongsTo || child == ManyToMany)
      && (parent == ManyToMany <==> child == ManyToMany)
      && (t == BelongsTo && parent != ManyToMany ==> parent == HasMany)
  {
  }

  /** Some model of `tables` has this table and model name and a column with this raw and
      model name. */
  predicate SideIn(tables: seq<Model>, tableName: string, modelName: string, tableColumn: string, modelColumn: string) {
    exists p | p in tables ::
      && p.tableName == tableName && p.name == modelName
      && exists c | c in p.columns :: c.columnName == tableColumn && c.name == modelColumn
  }

  /** The constructor. For `BELONGS_TO` the parent is the referenced table and column and
      the child is the column's own table and the column itself; any other kind swaps the
      two. A side whose table or column cannot be found raises. */
  function NewRelationship(inf: Inflector, t: RelationshipType, column: ModelColumn, tables: seq<Model>)
    : (r: Result<Relationship>)
    ensures r.Ok? ==> r.value.foreignKey == OrNull(column.foreignKeyTable) + "." + OrNull(column.foreignKeyColumn)
    ensures r.Ok? ==> (r.value.parentType, r.value.childType) == SideTypes(inf, t, column, tables)
    ensures r.Ok? && t == BelongsTo ==>
              && Some(r.value.parentTableName) == column.foreignKeyTable
              && Some(r.value.parentTableColumn) == column.foreignKeyColumn
              && r.value.childTableName == column.tableName
              && r.value.childTableColumn == column.columnName
    ensures r.Ok? && t != BelongsTo ==>
              && r.value.parentTableName == column.tableName
              && r.value.parentTableColumn == column.columnName
              && Some(r.value.childTableName) == column.foreignKeyTable
              && Some(r.value.childTableColumn) == column.foreignKeyColumn
    ensures r.Ok? ==> SideIn(tables, r.value.parentTableName, r.value.parentModelName, r.value.parentTableColumn, r.value.parentModelColumn)
    ensures r.Ok? ==> SideIn(tables, r.value.childTableName, r.value.childModelName, r.value.childTableColumn, r.value.childModelColumn)
  {
    var isBelongsTo := t == BelongsTo;
    var local := Find(tables, (m: Model) => m.tableName == column.tableName);
    var foreign := Find(tables, (m: Model) => column.foreignKeyTable == Some(m.tableName));
    var (parentTable, childTable) := if isBelongsTo then (foreign, local) else (local, foreign);
    var (parentColumn, childColumn) :=
      if isBelongsTo then (column.foreignKeyColumn, Some(column.columnName))
      else (Some(column.columnName), column.foreignKeyColumn);
    var foreignKey := OrNull(column.foreignKeyTable) + "." + OrNull(column.foreignKeyColumn);
    if parentTable.None? || childTable.None? then TypeError
    else
      var parentModelColumn := GetModelColumn(parentTable.value, parentColumn);
      var childModelColumn := GetModelColumn(childTable.value, childColumn);
      if parentModelColumn.TypeError? || childModelColumn.TypeError? then TypeError
      else
        var (parentType, childType) := SideTypes(inf, t, column, tables);
        Ok(Relationship(
          foreignKey := foreignKey,
          parentType := parentType,
          parentModelName := parentTable.value.name,
          parentModelColumn := parentModelColumn.value,
          parentTableName := parentTable.value.tableName,
          parentTableColumn := parentColumn.value,
          childType := childType,
          childModelName := childTable.value.name,
          childModelColumn := childModelColumn.value,
          childTableName := childTable.value.tableName,
          childTableColumn := childColumn.value))
  }

  /** The first model whose table the column's foreign key names exists and has a column
      stored under the foreign-key column. */
  predicate ForeignResolves(column: ModelColumn, tables: seq<Model>) {
    exists k | 0 <= k < |tables| ::
      && column.foreignKeyTable == Some(tables[k].tableName)
      && (forall j | 0 <= j < k :: column.foreignKeyTable != Some(tables[j].tableName))
      && exists c | c in tables[k].columns :: Some(c.columnName) == column.foreignKeyColumn
  }

  /** The first model of the column's own table exists and has a column stored under the
      column's name. */
  predicate LocalResolves(column: ModelColumn, tables: seq<Model>) {
    exists k | 0 <= k < |tables| ::
      && tables[k].tableName == column.tableName
      && (forall j | 0 <= j < k :: tables[j].tableName != column.tableName)
      && exists c | c in tables[k].columns :: c.columnName == column.columnName
  }

  lemma ForeignFound(column: ModelColumn, tables: seq<Model>)
    ensures var foreign := Find(tables, (m: Model) => column.foreignKeyTable == Some(m.tableName));
      ForeignResolves(column, tables) <==> foreign.Some? && GetModelColumn(foreign.value, column.foreignKeyColumn).Ok?
  {
    var p := (m: Model) => column.foreignKeyTable == Some(m.tableName);
    if ForeignResolves(column, tables) {
      var k :| 0 <= k < |tables| && p(tables[k]) && (forall j | 0 <= j < k :: !p(tables[j]))
               && exists c | c in tables[k].columns :: Some(c.columnName) == column.foreignKeyColumn;
      FindAt(tables, p, k);
    } else if FindIndex(tables, p).Some? {
      var k := FindIndex(tables, p).value;
      assert Find(tables, p) == Some(tables[k]);
    }
  }

  lemma LocalFound(column: ModelColumn, tables: seq<Model>)
    ensures var local := Find(tables, (m: Model) => m.tableName == column.tableName);
      LocalResolves(column, tables) <==> local.Some? && GetModelColumn(local.value, Some(column.columnName)).Ok?
  {
    var p := (m: Model) => m.tableName == column.tableName;
    if LocalResolves(column, tables) {
      var k :| 0 <= k < |tables| && p(tables[k]) && (forall j | 0 <= j < k :: !p(tables[j]))
               && exists c | c in tables[k].columns :: c.columnName == column.columnName;
      FindAt(tables, p, k);
    } else if FindIndex(tables, p).Some? {
      var k := FindIndex(tables, p).value;
      assert Find(tables, p) == Some(tables[k]);
    }
  }

  /** The constructor raises exactly when one of its two ends cannot be found, whatever the
      kind: the foreign-key table or its column, or the column's own table or the column. */
  lemma NewRelationshipRaisesIff(inf: Inflector, t: RelationshipType, column: ModelColumn, tables: seq<Model>)
    ensures NewRelationship(inf, t, column, tables).TypeError? <==>
              !ForeignResolves(column, tables) || !LocalResolves(column, tables)
  {
    ForeignFound(column, tables);
    LocalFound(column, tables);
  }

  /** `getRelationship`: nothing unless the column is an id column with a (non-empty)
      foreign-key column; otherwise a `BELONGS_TO`, so this column's table is the child. */
  function GetRelationship(inf: Inflector, column: ModelColumn, tables: seq<Model>): (r: Result<Option<Relationship>>)
    ensures r == Ok(None) <==> !IsIdColumn(column) || column.foreignKeyColumn.None? || column.foreignKeyColumn == Some("")
    ensures r.Ok? && r.value.Some? ==>
              && r.value.value.childTableName == column.tableName
              && r.value.value.childTableColumn == column.columnName
              && column.foreignKeyTable == Some(r.value.value.parentTableName)
              && column.foreignKeyColumn == Some(r.value.value.parentTableColumn)
              && r.value.value.childType in {BelongsTo, ManyToMany}
    ensures r.TypeError? <==>
              && IsIdColumn(column) && column.foreignKeyColumn.Some? && column.foreignKeyColumn != Some("")
              && (!ForeignResolves(column, tables) || !LocalResolves(column, tables))
  {
    NewRelationshipRaisesIff(inf, BelongsTo, column, tables);
    if !IsIdColumn(column) || column.foreignKeyColumn.None? || column.foreignKeyColumn == Some("") then Ok(None)
    else
      match NewRelationship(inf, BelongsTo, column, tables)
      case TypeError => TypeError
      case Ok(rel) => Ok(Some(rel))
  }

  /** Unlike the extractor, this variant raises on an id column whose foreign key names no
      table of the catalog. */
  lemma DanglingForeignKeyRaises(inf: Inflector, column: ModelColumn, tables: seq<Model>)
    requires IsIdColumn(column) && column.foreignKeyColumn.Some? && column.foreignKeyColumn != Some("")
    requires forall m | m in tables :: column.foreignKeyTable != Some(m.tableName)
    ensures GetRelationship(inf, column, tables) == TypeError
  {
  }

  // ---------------------------------------------------------------------------------
  // `parse`: index every relationship by model name and foreign key.

  /** The relationships of `columns`, in column order; raises when one of them does. */
  function ColumnsRelationships(inf: Inflector, columns: seq<ModelColumn>, tables: seq<Model>)
    : Result<seq<Relationship>>
  {
    if |columns| == 0 then Ok([])
    else
      match ColumnsRelationships(inf, columns[..|columns| - 1], tables)
      case TypeError => TypeError
      case Ok(rs) =>
        match GetRelationship(inf, columns[|columns| - 1], tables)
        case TypeError => TypeError
        case Ok(None) => Ok(rs)
        case Ok(Some(rel)) => Ok(rs + [rel])
  }

  /** The relationships of every column of `models`, in model order then column order. */
  function ModelsRelationships(inf: Inflector, models: seq<Model>, tables: seq<Model>): Result<seq<Relationship>> {
    if |models| == 0 then Ok([])
    else
      match ModelsRelationships(inf, models[..|models| - 1], tables)
      case TypeError => TypeError
      case Ok(rs) =>
        match ColumnsRelationships(inf, models[|models| - 1].columns, tables)
        case TypeError => TypeError
        case Ok(more) => Ok(rs + more)
  }

  /** `Map.set` on the inner map of `name`, creating it when missing. */
  function Store(index: RelationshipIndex, name: string, rel: Relationship): RelationshipIndex {
    var inner := if name in index then index[name] else map[];
    index[name := inner[rel.foreignKey := rel]]
  }

  /** One step of `parse`: under the parent's name, and under the child's unless it is the same. */
  function Insert(index: RelationshipIndex, rel: Relationship): RelationshipIndex {
    var withParent := Store(index, rel.parentModelName, rel);
    if rel.parentModelName == rel.childModelName then withParent
    else Store(withParent, rel.childModelName, rel)
  }

  function InsertAll(index: RelationshipIndex, rels: seq<Relationship>): RelationshipIndex {
    if |rels| == 0 then index else Insert(InsertAll(index, rels[..|rels| - 1]), rels[|rels| - 1])
  }

  /** What `parse` returns. */
  function ParseResult(inf: Inflector, models: seq<Model>): Result<RelationshipIndex> {
    match ModelsRelationships(inf, models, models)
    case TypeError => TypeError
    case Ok(rels) => Ok(InsertAll(map[], rels))
  }

  /** `rel` is filed under `name`. */
  predicate FiledUnder(rel: Relationship, name: string) {
    name == rel.parentModelName || name == rel.childModelName
  }

  /** Independent reference for the index: the last relationship with foreign key `key`
      filed under `name`. */
  function LastFiled(rels: seq<Relationship>, name: string, key: string): (r: Option<Relationship>)
    ensures r.Some? ==> r.value in rels && r.value.foreignKey == key && FiledUnder(r.value, name)
    ensures r.None? ==> forall i | 0 <= i < |rels| :: !(rels[i].foreignKey == key && FiledUnder(rels[i], name))
  {
    if |rels| == 0 then None
    else if rels[|rels| - 1].foreignKey == key && FiledUnder(rels[|rels| - 1], name) then Some(rels[|rels| - 1])
    else LastFiled(rels[..|rels| - 1], name, key)
  }

  /** The index holds, under each model name and foreign key, the last relationship filed
      there: a later relationship with the same key overwrites an earlier one, and a
      self-reference, whose two names coincide, is filed once. */
  lemma {:induction false} InsertAllIsLastFiled(rels: seq<Relationship>, name: string, key: string)
    ensures var index := InsertAll(map[], rels);
      && (name in index <==> exists i | 0 <= i < |rels| :: FiledUnder(rels[i], name))
      && (name in index ==> (key in index[name] <==> LastFiled(rels, name, key).Some?))
      && (name in index && key in index[name] ==> index[name][key] == LastFiled(rels, name, key).value)
  {
    if |rels| > 0 {
      var init, last := rels[..|rels| - 1], rels[|rels| - 1];
      InsertAllIsLastFiled(init, name, key);
      InsertStep(InsertAll(map[], init), last, name);
      assert forall i | 0 <= i < |init| :: init[i] == rels[i];
      if FiledUnder(last, name) {
        assert exists i | 0 <= i < |rels| :: FiledUnder(rels[i], name) by {
          assert FiledUnder(rels[|rels| - 1], name);
        }
      } else {
        assert (exists i | 0 <= i < |rels| :: FiledUnder(rels[i], name))
           <==> (exists i | 0 <= i < |init| :: FiledUnder(init[i], name));
      }
    }
  }

  /** What one `Insert` does to the entries of one model name. */
  lemma InsertStep(index: RelationshipIndex, rel: Relationship, name: string)
    ensures name in Insert(index, rel) <==> name in index || FiledUnder(rel, name)
    ensures FiledUnder(rel, name) ==>
              Insert(index, rel)[name] == (if name in index then index[name] else map[])[rel.foreignKey := rel]
    ensures !FiledUnder(rel, name) && name in index ==> Insert(index, rel)[name] == index[name]
  {
  }

  /** Every entry is stored under its own foreign key, and under a name of one of its two ends. */
  lemma ParseKeysAreForeignKeys(inf: Inflector, models: seq<Model>, name: string, key: string)
    requires ParseResult(inf, models).Ok?
    requires name in ParseResult(inf, models).value && key in ParseResult(inf, models).value[name]
    ensures var rel := ParseResult(inf, models).value[name][key]; rel.foreignKey == key && FiledUnder(rel, name)
  {
    InsertAllIsLastFiled(ModelsRelationships(inf, models, models).value, name, key);
  }

  /** Only relationships that `getRelationship` returns for some column enter the index. */
  lemma {:induction false} ColumnsRelationshipsFrom(inf: Inflector, columns: seq<ModelColumn>, tables: seq<Model>, rel: Relationship)
    requires ColumnsRelationships(inf, columns, tables).Ok?
    requires rel in ColumnsRelationships(inf, columns, tables).value
    ensures exists c | c in columns :: GetRelationship(inf, c, tables) == Ok(Some(rel))
  {
    var init := columns[..|columns| - 1];
    var rs := ColumnsRelationships(inf, init, tables).value;
    if rel in rs {
      ColumnsRelationshipsFrom(inf, init, tables, rel);
      var c :| c in init && GetRelationship(inf, c, tables) == Ok(Some(rel));
      assert c in columns;
    } else {
      assert GetRelationship(inf, columns[|columns| - 1], tables) == Ok(Some(rel));
    }
  }

  lemma {:induction false} ModelsRelationshipsFrom(inf: Inflector, models: seq<Model>, tables: seq<Model>, rel: Relationship)
    requires ModelsRelationships(inf, models, tables).Ok?
    requires rel in ModelsRelationships(inf, models, tables).value
    ensures exists m, c | m in models && c in m.columns :: GetRelationship(inf, c, tables) == Ok(Some(rel))
  {
    var init := models[..|models| - 1];
    var rs := ModelsRelationships(inf, init, tables).value;
    if rel in rs {
      ModelsRelationshipsFrom(inf, init, tables, rel);
      var m, c :| m in init && c in m.columns && GetRelationship(inf, c, tables) == Ok(Some(rel));
      assert m in models;
    } else {
      var last := models[|models| - 1];
      ColumnsRelationshipsFrom(inf, last.columns, tables, rel);
    }
  }

  lemma ParseEntriesComeFromColumns(inf: Inflector, models: seq<Model>, name: string, key: string)
    requires ParseResult(inf, models).Ok?
    requires name in ParseResult(inf, models).value && key in ParseResult(inf, models).value[name]
    ensures exists m, c | m in models && c in m.columns ::
              GetRelationship(inf, c, models) == Ok(Some(ParseResult(inf, models).value[name][key]))
  {
    var rels := ModelsRelationships(inf, models, models).value;
    InsertAllIsLastFiled(rels, name, key);
    ModelsRelationshipsFrom(inf, models, models, ParseResult(inf, models).value[name][key]);
  }

  /** A relationship raised by a prefix of the columns makes the whole list raise. */
  lemma {:induction false} ColumnsErrorPersists(inf: Inflector, columns: seq<ModelColumn>, tables: seq<Model>, k: nat)
    requires k <= |columns| && ColumnsRelationships(inf, columns[..k], tables).TypeError?
    ensures ColumnsRelationships(inf, columns, tables).TypeError?
    decreases |columns| - k
  {
    if k < |columns| {
      assert columns[..k + 1][..k] == columns[..k];
      ColumnsErrorPersists(inf, columns, tables, k + 1);
    } else {
      assert columns[..k] == columns;
    }
  }

  lemma {:induction false} ModelsErrorPersists(inf: Inflector, models: seq<Model>, tables: seq<Model>, k: nat)
    requires k <= |models| && ModelsRelationships(inf, models[..k], tables).TypeError?
    ensures ModelsRelationships(inf, models, tables).TypeError?
    decreases |models| - k
  {
    if k < |models| {
      assert models[..k + 1][..k] == models[..k];
      ModelsErrorPersists(inf, models, tables, k + 1);
    } else {
      assert models[..k] == models;
    }
  }

  /** One more column extends the relationships of the columns before it. */
  lemma ColumnsStep(inf: Inflector, columns: seq<ModelColumn>, tables: seq<Model>, j: nat, rels: seq<Relationship>)
    requires j < |columns| && ColumnsRelationships(inf, columns[..j], tables) == Ok(rels)
    ensures GetRelationship(inf, columns[j], tables).TypeError? ==> ColumnsRelationships(inf, columns[..j + 1], tables).TypeError?
    ensures GetRelationship(inf, columns[j], tables) == Ok(None) ==> ColumnsRelationships(inf, columns[..j + 1], tables) == Ok(rels)
    ensures GetRelationship(inf, columns[j], tables).Ok? && GetRelationship(inf, columns[j], tables).value.Some? ==>
              ColumnsRelationships(inf, columns[..j + 1], tables) == Ok(rels + [GetRelationship(inf, columns[j], tables).value.value])
  {
    assert columns[..j + 1][..j] == columns[..j];
  }

  /** One more model extends the relationships of the models before it. */
  lemma ModelsStep(inf: Inflector, models: seq<Model>, tables: seq<Model>, i: nat, rels: seq<Relationship>, more: seq<Relationship>)
    requires i < |models| && ModelsRelationships(inf, models[..i], tables) == Ok(rels)
    requires ColumnsRelationships(inf, models[i].columns, tables) == Ok(more)
    ensures ModelsRelationships(inf, models[..i + 1], tables) == Ok(rels + more)
  {
    assert models[..i + 1][..i] == models[..i];
  }

  /** Filing one more relationship is one more `Insert`. */
  lemma InsertAllSnoc(index: RelationshipIndex, rels: seq<Relationship>, rel: Relationship)
    ensures InsertAll(index, rels + [rel]) == Insert(InsertAll(index, rels), rel)
  {
    assert (rels + [rel])[..|rels|] == rels;
  }

  /** Filing two runs of relationships one after the other. */
  lemma {:induction false} InsertAllAppend(index: RelationshipIndex, first: seq<Relationship>, second: seq<Relationship>)
    ensures InsertAll(InsertAll(index, first), second) == InsertAll(index, first + second)
  {
    if |second| == 0 {
      assert first + second == first;
    } else {
      var init := second[..|second| - 1];
      InsertAllAppend(index, first, init);
      assert (first + second)[..|first + second| - 1] == first + init;
    }
  }

  /** The body of `parse`'s inner loop for one relationship: under the parent's model
      name, then under the child's. */
  method File(index: RelationshipIndex, rel: Relationship) returns (r: RelationshipIndex)
    ensures r == Insert(index, rel)
  {
    var parent := if rel.parentModelName in index then index[rel.parentModelName] else map[];
    parent := parent[rel.foreignKey := rel];
    r := index[rel.parentModelName := parent];
    if rel.parentModelName != rel.childModelName {
      var child := if rel.childModelName in r then r[rel.childModelName] else map[];
      child := child[rel.foreignKey := rel];
      r := r[rel.childModelName := child];
    }
  }

  /** `parse`'s inner loop: files the relationships of one model's columns, in column
      order, into `index`. */
  method FileColumns(inf: Inflector, columns: seq<ModelColumn>, models: seq<Model>, index: RelationshipIndex,
                     ghost filed: seq<Relationship>)
    returns (r: Result<RelationshipIndex>, ghost filedHere: seq<Relationship>)
    requires index == InsertAll(map[], filed)
    ensures r.TypeError? <==> ColumnsRelationships(inf, columns, models).TypeError?
    ensures r.Ok? ==> ColumnsRelationships(inf, columns, models) == Ok(filedHere)
                      && r.value == InsertAll(map[], filed + filedHere)
  {
    var relationships := index;
    filedHere := [];
    var j := 0;
    while j < |columns|
      invariant 0 <= j <= |columns|
      invariant ColumnsRelationships(inf, columns[..j], models) == Ok(filedHere)
      invariant relationships == InsertAll(index, filedHere)
    {
      var relationship := GetRelationship(inf, columns[j], models);
      ColumnsStep(inf, columns, models, j, filedHere);
      if relationship.TypeError? {
        ColumnsErrorPersists(inf, columns, models, j + 1);
        return TypeError, filedHere;
      }
      if relationship.value.Some? {
        var rel := relationship.value.value;
        InsertAllSnoc(index, filedHere, rel);
        relationships := File(relationships, rel);
        filedHere := filedHere + [rel];
      }
      j := j + 1;
    }
    assert columns[..j] == columns;
    InsertAllAppend(map[], filed, filedHere);
    r := Ok(relationships);
  }

  /** `parse`: walks every column of every model and files each relationship that
      `getRelationship` returns. */
  method Parse(inf: Inflector, models: seq<Model>) returns (r: Result<RelationshipIndex>)
    ensures r == ParseResult(inf, models)
  {
    var relationships: RelationshipIndex := map[];
    ghost var filed: seq<Relationship> := [];
    var i := 0;
    while i < |models|
      invariant 0 <= i <= |models|
      invariant ModelsRelationships(inf, models[..i], models) == Ok(filed)
      invariant relationships == InsertAll(map[], filed)
    {
      ghost var filedHere;
      var step;
      step, filedHere := FileColumns(inf, models[i].columns, models, relationships, filed);
      if step.TypeError? {
        assert models[..i + 1][..i] == models[..i];
        ModelsErrorPersists(inf, models, models, i + 1);
        return TypeError;
      }
      relationships := step.value;
      ModelsStep(inf, models, models, i, filed, filedHere);
      filed := filed + filedHere;
      i := i + 1;
    }
    assert models[..i] == models;
    r := Ok(relationships);
  }
}
