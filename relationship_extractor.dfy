/** The relationship extractor that `Model.build` uses
    (`src/extractors/relationship_extractor.ts`). It works backwards from foreign keys: every
    resolvable foreign key gives a belongs-to map; each belongs-to is then either collapsed
    into a many-to-many (when its table looks like a pivot, which marks that model) or
    answered by a has-many on the referenced model. Each map is finally rendered into a
    property name, optional decorator options and the decorator and property lines. */
module RelationshipExtractor {
  import opened Basics
  import opened Strings
  import opened Inflection
  import opened RelationshipTypes
  import opened Entities
  import opened Pivot
  import RelationshipModel

  // ---------------------------------------------------------------------------------
  // `#getBelongsTos`

  /** `!value` is false for `undefined`, `null` and the empty text. */
  predicate Truthy(s: Option<string>) {
    s.Some? && s.value != ""
  }

  /** The model a foreign key points at: the first whose table is `foreignKeyTable`. */
  function TargetModel(models: seq<Model>, column: ModelColumn): (r: Option<Model>)
    ensures r.Some? ==> r.value in models && Some(r.value.tableName) == column.foreignKeyTable
    ensures r.None? <==> forall m | m in models :: Some(m.tableName) != column.foreignKeyTable
  {
    Find(models, (m: Model) => Some(m.tableName) == column.foreignKeyTable)
  }

  /** The column of `target` that a foreign key points at: the first stored under
      `foreignKeyColumn`. */
  function TargetColumn(target: Model, column: ModelColumn): (r: Option<ModelColumn>)
    ensures r.Some? ==> r.value in target.columns && Some(r.value.columnName) == column.foreignKeyColumn
    ensures r.None? <==> forall c | c in target.columns :: Some(c.columnName) != column.foreignKeyColumn
  {
    Find(target.columns, (c: ModelColumn) => Some(c.columnName) == column.foreignKeyColumn)
  }

  /** What a belongs-to map promises about the column `column` of `owner`. */
  predicate IsBelongsToOf(models: seq<Model>, owner: Model, column: ModelColumn, b: RelationMap) {
    && b.relationshipType == BelongsTo
    && b.model == owner
    && b.column == column
    && b.foreignKeyModel in models
    && Some(b.foreignKeyModel.tableName) == column.foreignKeyTable
    && b.foreignKeyColumn.Some?
    && b.foreignKeyColumn.value in b.foreignKeyModel.columns
    && Some(b.foreignKeyColumn.value.columnName) == column.foreignKeyColumn
    && b.pivotColumnName.None? && b.pivotTableName.None?
  }

  /** One column of `#getBelongsTos`: a belongs-to when the foreign key names a model and a
      column of it, and nothing (no error) otherwise. The column's own name plays no part. */
  function ColumnBelongsTo(models: seq<Model>, owner: Model, column: ModelColumn): (r: Option<RelationMap>)
    ensures r.Some? <==>
              && Truthy(column.foreignKeyTable)
              && TargetModel(models, column).Some?
              && TargetColumn(TargetModel(models, column).value, column).Some?
    ensures r.Some? ==> IsBelongsToOf(models, owner, column, r.value)
  {
    if !Truthy(column.foreignKeyTable) then None
    else
      match TargetModel(models, column)
      case None => None
      case Some(target) =>
        match TargetColumn(target, column)
        case None => None
        case Some(targetColumn) => Some(RelationMap(BelongsTo, owner, column, target, Some(targetColumn), None, None))
  }

  /** When no two models share a table (as in a database catalog), a column yields a
      belongs-to exactly when its foreign key names an existing table and one of its columns. */
  lemma BelongsToIffResolvable(models: seq<Model>, owner: Model, column: ModelColumn)
    requires forall i, j | 0 <= i < j < |models| :: models[i].tableName != models[j].tableName
    ensures ColumnBelongsTo(models, owner, column).Some? <==>
              && Truthy(column.foreignKeyTable)
              && exists m, c | m in models && c in m.columns ::
                   Some(m.tableName) == column.foreignKeyTable && Some(c.columnName) == column.foreignKeyColumn
  {
    var target := TargetModel(models, column);
    if target.Some? {
      forall m | m in models && Some(m.tableName) == column.foreignKeyTable
        ensures m == target.value
      {
        var i :| 0 <= i < |models| && models[i] == m;
        var j :| 0 <= j < |models| && models[j] == target.value;
        assert models[i].tableName == models[j].tableName;
      }
    }
  }

  /** Unlike `getRelationship`, the extractor never looks at the `_id` suffix: renaming the
      column changes nothing about whether it yields a belongs-to. */
  lemma IgnoresColumnName(models: seq<Model>, owner: Model, column: ModelColumn, newName: string)
    ensures ColumnBelongsTo(models, owner, column).Some?
        <==> ColumnBelongsTo(models, owner, column.(columnName := newName)).Some?
  {
  }

  /** The belongs-to maps of the columns of `owner`, in column order. */
  function ColumnsBelongsTos(models: seq<Model>, owner: Model, columns: seq<ModelColumn>): (r: seq<RelationMap>)
    ensures forall b | b in r :: b.column in columns && IsBelongsToOf(models, owner, b.column, b)
    ensures forall c | c in columns && ColumnBelongsTo(models, owner, c).Some? :: ColumnBelongsTo(models, owner, c).value in r
  {
    if |columns| == 0 then []
    else
      var front := ColumnsBelongsTos(models, owner, columns[..|columns| - 1]);
      match ColumnBelongsTo(models, owner, columns[|columns| - 1])
      case None => front
      case Some(b) => front + [b]
  }

  /** The belongs-to maps of every column of `owners`, in model order, then column order. */
  function BelongsTos(models: seq<Model>, owners: seq<Model>): (r: seq<RelationMap>)
    ensures forall b | b in r :: b.model in owners && b.column in b.model.columns && IsBelongsToOf(models, b.model, b.column, b)
    ensures AreBelongsTos(r)
    ensures forall m, c | m in owners && c in m.columns && ColumnBelongsTo(models, m, c).Some? ::
              ColumnBelongsTo(models, m, c).value in r
  {
    if |owners| == 0 then []
    else
      var last := owners[|owners| - 1];
      BelongsTos(models, owners[..|owners| - 1]) + ColumnsBelongsTos(models, last, last.columns)
  }

  /** Collection keeps column order: the belongs-tos of two runs of columns are those of the
      first run followed by those of the second. */
  lemma {:induction false} ColumnsBelongsTosAppend(models: seq<Model>, owner: Model, xs: seq<ModelColumn>, ys: seq<ModelColumn>)
    ensures ColumnsBelongsTos(models, owner, xs + ys) == ColumnsBelongsTos(models, owner, xs) + ColumnsBelongsTos(models, owner, ys)
  {
    if |ys| == 0 {
      assert xs + ys == xs;
    } else {
      var init := ys[..|ys| - 1];
      assert (xs + ys)[..|xs + ys| - 1] == xs + init;
      assert (xs + ys)[|xs + ys| - 1] == ys[|ys| - 1];
      var last := ys[|ys| - 1];
      var front := ColumnsBelongsTos(models, owner, xs);
      var tail := match ColumnBelongsTo(models, owner, last) case None => [] case Some(b) => [b];
      ColumnsBelongsTosAppend(models, owner, xs, init);
      calc {
        ColumnsBelongsTos(models, owner, xs + ys);
        ColumnsBelongsTos(models, owner, xs + init) + tail;
        (front + ColumnsBelongsTos(models, owner, init)) + tail;
        { ConcatAssoc(front, ColumnsBelongsTos(models, owner, init), tail); }
        front + (ColumnsBelongsTos(models, owner, init) + tail);
        front + ColumnsBelongsTos(models, owner, ys);
      }
    }
  }

  /** Collection keeps model order: the belongs-tos of two runs of models are those of the
      first run followed by those of the second. */
  lemma {:induction false} BelongsTosAppend(models: seq<Model>, xs: seq<Model>, ys: seq<Model>)
    ensures BelongsTos(models, xs + ys) == BelongsTos(models, xs) + BelongsTos(models, ys)
  {
    if |ys| == 0 {
      assert xs + ys == xs;
    } else {
      var init := ys[..|ys| - 1];
      assert (xs + ys)[..|xs + ys| - 1] == xs + init;
      assert (xs + ys)[|xs + ys| - 1] == ys[|ys| - 1];
      var last := ys[|ys| - 1];
      var front := BelongsTos(models, xs);
      var tail := ColumnsBelongsTos(models, last, last.columns);
      BelongsTosAppend(models, xs, init);
      calc {
        BelongsTos(models, xs + ys);
        BelongsTos(models, xs + init) + tail;
        (front + BelongsTos(models, init)) + tail;
        { ConcatAssoc(front, BelongsTos(models, init), tail); }
        front + (BelongsTos(models, init) + tail);
        front + BelongsTos(models, ys);
      }
    }
  }

  // ---------------------------------------------------------------------------------
  // `#getRelationshipMaps`

  /** An entry of `tableNamesSingular`. */
  datatype TableName = TableName(singular: string, model: Model)

  /** Every model of another table than the belongs-to column's, with its singular name. */
  function Neighbours(inf: Inflector, models: seq<Model>, b: RelationMap): seq<TableName> {
    MapSeq(Filter(models, (m: Model) => m.tableName != b.column.tableName), (m: Model) => TableName(inf.singular(m.tableName), m))
  }

  /** `startsWithTable`: the first neighbour whose singular starts the table's singular. */
  function StartsWithTable(inf: Inflector, models: seq<Model>, b: RelationMap): Option<TableName> {
    Find(Neighbours(inf, models, b), (n: TableName) => StartsWith(inf.singular(b.column.tableName), n.singular))
  }

  /** `endsWithTable`: the first neighbour whose singular ends the table's singular. */
  function EndsWithTable(inf: Inflector, models: seq<Model>, b: RelationMap): Option<TableName> {
    Find(Neighbours(inf, models, b), (n: TableName) => EndsWith(inf.singular(b.column.tableName), n.singular))
  }

  /** The singular of a neighbour that may be missing. */
  function SingularOf(n: Option<TableName>): (r: Option<string>)
    ensures r.Some? <==> n.Some?
    ensures n.Some? ==> r.value == n.value.singular
  {
    match n
    case None => None
    case Some(t) => Some(t.singular)
  }

  /** The pivot test: the table's singular is the prefix and suffix neighbours' singulars joined by `_`. */
  predicate IsPivot(inf: Inflector, models: seq<Model>, b: RelationMap) {
    inf.singular(b.column.tableName) == PivotName(SingularOf(StartsWithTable(inf, models, b)), SingularOf(EndsWithTable(inf, models, b)))
  }

  /** The extractor's pivot test and the one of the legacy `Relationship` class agree: both
      look for the same neighbour singulars, in the same order. */
  lemma PivotTestsAgree(inf: Inflector, models: seq<Model>, b: RelationMap)
    ensures IsPivot(inf, models, b) <==> RelationshipModel.MatchesPivotName(inf, b.column, models)
  {
    SameStartsWith(inf, models, b);
    SameEndsWith(inf, models, b);
  }

  lemma SameStartsWith(inf: Inflector, models: seq<Model>, b: RelationMap)
    ensures var s := inf.singular(b.column.tableName);
      SingularOf(StartsWithTable(inf, models, b))
        == Find(RelationshipModel.OtherSingulars(inf, b.column, models), (n: string) => StartsWith(s, n))
  {
    var s := inf.singular(b.column.tableName);
    var others := Filter(models, (m: Model) => m.tableName != b.column.tableName);
    var toName := (m: Model) => TableName(inf.singular(m.tableName), m);
    var toSingular := (m: Model) => inf.singular(m.tableName);
    assert Neighbours(inf, models, b) == MapSeq(others, toName);
    assert RelationshipModel.OtherSingulars(inf, b.column, models) == MapSeq(others, toSingular);
    FindIndexMapSeq(others, toName, (n: TableName) => StartsWith(s, n.singular), (m: Model) => StartsWith(s, inf.singular(m.tableName)));
    FindIndexMapSeq(others, toSingular, (n: string) => StartsWith(s, n), (m: Model) => StartsWith(s, inf.singular(m.tableName)));
  }

  lemma SameEndsWith(inf: Inflector, models: seq<Model>, b: RelationMap)
    ensures var s := inf.singular(b.column.tableName);
      SingularOf(EndsWithTable(inf, models, b))
        == Find(RelationshipModel.OtherSingulars(inf, b.column, models), (n: string) => EndsWith(s, n))
  {
    var s := inf.singular(b.column.tableName);
    var others := Filter(models, (m: Model) => m.tableName != b.column.tableName);
    var toName := (m: Model) => TableName(inf.singular(m.tableName), m);
    var toSingular := (m: Model) => inf.singular(m.tableName);
    assert Neighbours(inf, models, b) == MapSeq(others, toName);
    assert RelationshipModel.OtherSingulars(inf, b.column, models) == MapSeq(others, toSingular);
    FindIndexMapSeq(others, toName, (n: TableName) => EndsWith(s, n.singular), (m: Model) => EndsWith(s, inf.singular(m.tableName)));
    FindIndexMapSeq(others, toSingular, (n: string) => EndsWith(s, n), (m: Model) => EndsWith(s, inf.singular(m.tableName)));
  }

  /** `isStartsWith`: the foreign key points at the prefix table. */
  predicate PointsAtPrefix(inf: Inflector, models: seq<Model>, b: RelationMap) {
    var start := StartsWithTable(inf, models, b);
    start.Some? && start.value.model.name == b.foreignKeyModel.name
  }

  /** The maps one belongs-to turns into: a many-to-many from the referenced model to the
      pivot's other neighbour, or a has-many from the referenced model followed by the
      belongs-to itself. Reading the model of an absent neighbour raises. */
  function Expand(inf: Inflector, models: seq<Model>, b: RelationMap): (r: Result<seq<RelationMap>>)
    requires b.foreignKeyColumn.Some?
    ensures r.TypeError? <==>
              IsPivot(inf, models, b)
              && (if PointsAtPrefix(inf, models, b) then EndsWithTable(inf, models, b) else StartsWithTable(inf, models, b)).None?
    ensures r.Ok? ==> forall x | x in r.value :: x.model == b.foreignKeyModel || x == b
  {
    if IsPivot(inf, models, b) then
      var related := if PointsAtPrefix(inf, models, b) then EndsWithTable(inf, models, b) else StartsWithTable(inf, models, b);
      match related
      case None => TypeError
      case Some(n) =>
        var relatedColumn := Find(n.model.columns, (c: ModelColumn) => c.tableName == n.model.tableName);
        Ok([RelationMap(ManyToMany, b.foreignKeyModel, b.foreignKeyColumn.value, n.model, relatedColumn,
                        Some(b.column.columnName), Some(b.model.tableName))])
    else
      Ok([RelationMap(HasMany, b.foreignKeyModel, b.foreignKeyColumn.value, b.model, Some(b.column), None, None), b])
  }

  /** Every map is a belongs-to with a target column. */
  predicate AreBelongsTos(bs: seq<RelationMap>) {
    forall b | b in bs :: b.relationshipType == BelongsTo && b.foreignKeyColumn.Some?
  }

  /** The maps of `bs`, in order; raises when one of them does. */
  function RelationshipMaps(inf: Inflector, models: seq<Model>, bs: seq<RelationMap>): Result<seq<RelationMap>>
    requires AreBelongsTos(bs)
  {
    if |bs| == 0 then Ok([])
    else
      match RelationshipMaps(inf, models, bs[..|bs| - 1])
      case TypeError => TypeError
      case Ok(front) =>
        match Expand(inf, models, bs[|bs| - 1])
        case TypeError => TypeError
        case Ok(more) => Ok(front + more)
  }

  /** The maps raise exactly when one belongs-to fails to expand. */
  lemma {:induction false} MapsFailIff(inf: Inflector, models: seq<Model>, bs: seq<RelationMap>)
    requires AreBelongsTos(bs)
    ensures RelationshipMaps(inf, models, bs).TypeError? <==> exists k | 0 <= k < |bs| :: Expand(inf, models, bs[k]).TypeError?
  {
    if RelationshipMaps(inf, models, bs).TypeError? {
      var k := FailingBelongsTo(inf, models, bs);
    } else if exists k | 0 <= k < |bs| :: Expand(inf, models, bs[k]).TypeError? {
      var k :| 0 <= k < |bs| && Expand(inf, models, bs[k]).TypeError?;
      ErrorPersists(inf, models, bs, k + 1);
    }
  }

  /** A belongs-to whose expansion raises, when the maps do. */
  lemma {:induction false} FailingBelongsTo(inf: Inflector, models: seq<Model>, bs: seq<RelationMap>) returns (k: nat)
    requires AreBelongsTos(bs) && RelationshipMaps(inf, models, bs).TypeError?
    ensures k < |bs| && Expand(inf, models, bs[k]).TypeError?
  {
    var init := bs[..|bs| - 1];
    assert AreBelongsTos(init) by {
      assert forall b | b in init :: b in bs;
    }
    if RelationshipMaps(inf, models, init).TypeError? {
      k := FailingBelongsTo(inf, models, init);
      assert init[k] == bs[k];
    } else {
      k := |bs| - 1;
    }
  }

  /** How many of `bs` pass the pivot test. */
  function PivotCount(inf: Inflector, models: seq<Model>, bs: seq<RelationMap>): (n: nat)
    ensures n <= |bs|
  {
    if |bs| == 0 then 0
    else PivotCount(inf, models, bs[..|bs| - 1]) + (if IsPivot(inf, models, bs[|bs| - 1]) then 1 else 0)
  }

  /** A pivot belongs-to becomes one many-to-many whose owner is the referenced model, whose
      related model is the pivot's other neighbour and which records the pivot table and
      column; any other belongs-to becomes a has-many in the opposite direction followed by
      the belongs-to itself. */
  lemma ExpandShape(inf: Inflector, models: seq<Model>, b: RelationMap, out: seq<RelationMap>)
    requires b.foreignKeyColumn.Some? && Expand(inf, models, b) == Ok(out)
    ensures IsPivot(inf, models, b) ==>
              && |out| == 1
              && out[0].relationshipType == ManyToMany
              && out[0].model == b.foreignKeyModel
              && out[0].column == b.foreignKeyColumn.value
              && out[0].foreignKeyModel ==
                   (if PointsAtPrefix(inf, models, b) then EndsWithTable(inf, models, b) else StartsWithTable(inf, models, b)).value.model
              && out[0].foreignKeyModel in models
              && out[0].foreignKeyModel.tableName != b.column.tableName
              && out[0].pivotTableName == Some(b.model.tableName)
              && out[0].pivotColumnName == Some(b.column.columnName)
    ensures !IsPivot(inf, models, b) ==>
              && |out| == 2
              && out[0].relationshipType == HasMany
              && out[0].model == b.foreignKeyModel
              && out[0].column == b.foreignKeyColumn.value
              && out[0].foreignKeyModel == b.model
              && out[0].foreignKeyColumn == Some(b.column)
              && out[1] == b
  {
    if IsPivot(inf, models, b) {
      var n := (if PointsAtPrefix(inf, models, b) then EndsWithTable(inf, models, b) else StartsWithTable(inf, models, b)).value;
      assert n in Neighbours(inf, models, b);
      var i :| 0 <= i < |Neighbours(inf, models, b)| && Neighbours(inf, models, b)[i] == n;
      var others := Filter(models, (m: Model) => m.tableName != b.column.tableName);
      assert n.model == others[i];
      assert others[i] in others;
    }
  }

  /** Expanding a belongs-to raises only when it passes the pivot test with a missing
      neighbour, that is only when its table's singular literally begins with `undefined_`
      or ends with `_undefined`. */
  lemma ExpandFailsOnlyOnUndefined(inf: Inflector, models: seq<Model>, b: RelationMap)
    requires b.foreignKeyColumn.Some? && Expand(inf, models, b).TypeError?
    ensures IsPivot(inf, models, b)
    ensures StartsWith(inf.singular(b.column.tableName), "undefined_") || EndsWith(inf.singular(b.column.tableName), "_undefined")
  {
    MissingSideSpellsUndefined(inf.singular(b.column.tableName),
      SingularOf(StartsWithTable(inf, models, b)), SingularOf(EndsWithTable(inf, models, b)));
  }

  /** One belongs-to yields one map when it is a pivot and two otherwise, never a has-one. */
  lemma ExpandCount(inf: Inflector, models: seq<Model>, b: RelationMap, out: seq<RelationMap>)
    requires b.relationshipType == BelongsTo && b.foreignKeyColumn.Some? && Expand(inf, models, b) == Ok(out)
    ensures |out| == (if IsPivot(inf, models, b) then 1 else 2)
    ensures forall x | x in out :: x.relationshipType != HasOne
  {
    ExpandShape(inf, models, b, out);
  }

  /** Each belongs-to yields one map when it is a pivot and two otherwise; no has-one is ever
      produced. */
  lemma {:induction false} MapsCount(inf: Inflector, models: seq<Model>, bs: seq<RelationMap>, out: seq<RelationMap>)
    requires AreBelongsTos(bs) && RelationshipMaps(inf, models, bs) == Ok(out)
    ensures |out| == 2 * (|bs| - PivotCount(inf, models, bs)) + PivotCount(inf, models, bs)
    ensures forall x | x in out :: x.relationshipType != HasOne
  {
    if |bs| > 0 {
      var init := bs[..|bs| - 1];
      var last := bs[|bs| - 1];
      assert last in bs;
      var front := RelationshipMaps(inf, models, init).value;
      var more := Expand(inf, models, last).value;
      MapsCount(inf, models, init, front);
      ExpandCount(inf, models, last, more);
      assert out == front + more;
    }
  }

  /** The models the extractor marks as pivots. */
  predicate MarkedBy(inf: Inflector, models: seq<Model>, bs: seq<RelationMap>, m: Model) {
    exists k | 0 <= k < |bs| :: bs[k].model == m && IsPivot(inf, models, bs[k])
  }

  // ---------------------------------------------------------------------------------
  // `ModelRelationship`

  /** `#getPropertyName`. */
  function PropertyName(inf: Inflector, m: RelationMap): string {
    match m.relationshipType
    case BelongsTo => inf.camelCase(ReplaceFirst(m.column.name, "Id", ""))
    case HasMany => inf.plural(inf.camelCase(m.foreignKeyModel.name))
    case ManyToMany => inf.plural(inf.camelCase(m.foreignKeyModel.name))
    case HasOne => inf.camelCase(m.foreignKeyModel.name)
  }

  /** What a property name depends on: a belongs-to's only on its column's name, any other
      relation's only on the related model's name. A has-many and a many-to-many to the same
      model share their name, which is the plural of the has-one's. */
  lemma PropertyNameDependsOn(inf: Inflector, m: RelationMap, n: RelationMap)
    ensures m.relationshipType == BelongsTo && n.relationshipType == BelongsTo && m.column.name == n.column.name ==>
              PropertyName(inf, m) == PropertyName(inf, n)
    ensures m.relationshipType in {HasMany, ManyToMany} && n.relationshipType in {HasMany, ManyToMany}
            && m.foreignKeyModel.name == n.foreignKeyModel.name ==>
              PropertyName(inf, m) == PropertyName(inf, n)
    ensures m.relationshipType == HasMany ==> PropertyName(inf, m) == inf.plural(PropertyName(inf, m.(relationshipType := HasOne)))
  {
  }

  /** Only the first `Id` of a belongs-to column's name is dropped. */
  lemma BelongsToPropertyDropsFirstId(inf: Inflector, m: RelationMap, head: string, tail: string)
    requires m.relationshipType == BelongsTo && m.column.name == head + "Id" + tail
    requires forall i: nat :: !OccursAt(head, "Id", i)
    ensures PropertyName(inf, m) == inf.camelCase(head + tail)
  {
    DropFirstId(head, tail);
  }

  /** Removing the first `Id` from `head + "Id" + tail`, when `head` has none, leaves
      `head + tail`. */
  lemma DropFirstId(head: string, tail: string)
    requires forall i: nat :: !OccursAt(head, "Id", i)
    ensures ReplaceFirst(head + "Id" + tail, "Id", "") == head + tail
  {
    var s := head + "Id" + tail;
    assert OccursAt(s, "Id", |head|) by {
      assert s[|head|..|head| + 2] == "Id";
    }
    forall j: nat | j < |head|
      ensures !OccursAt(s, "Id", j)
    {
      if j + 2 <= |head| {
        assert !OccursAt(head, "Id", j);
        assert s[j..j + 2] == head[j..j + 2];
      } else {
        IdDoesNotOverlap(s, j);
      }
    }
    FirstOccurrence(s, "Id", |head|);
    assert s[..|head|] == head;
    assert s[|head| + 2..] == tail;
    assert ReplaceFirst(s, "Id", "") == head + "" + tail;
    assert head + "" + tail == head + tail;
  }

  /** `Id` cannot start one position before another `Id`. */
  lemma IdDoesNotOverlap(s: string, j: nat)
    requires OccursAt(s, "Id", j + 1)
    ensures !OccursAt(s, "Id", j)
  {
    assert s[j + 1] == s[j + 1..j + 3][0] == 'I';
    assert s[j..j + 2][1] == 'I';
  }

  /** The pivot table name the ORM assumes: the two model names, sorted, joined by `_` and
      snake-cased. */
  function DefaultPivotTable(inf: Inflector, m: RelationMap): string {
    inf.snakeCase(Join(SortPair(m.model.name, m.foreignKeyModel.name), "_"))
  }

  /** The default pivot name does not depend on which side owns the relationship. */
  lemma DefaultPivotTableSymmetric(inf: Inflector, m: RelationMap, n: RelationMap)
    requires m.model.name == n.foreignKeyModel.name && m.foreignKeyModel.name == n.model.name
    ensures DefaultPivotTable(inf, m) == DefaultPivotTable(inf, n)
  {
    SortPairSymmetric(m.model.name, m.foreignKeyModel.name);
  }

  /** The key the ORM assumes, and the key the map actually uses. */
  function DefaultKey(inf: Inflector, m: RelationMap): string {
    match m.relationshipType
    case ManyToMany => DefaultPivotTable(inf, m)
    case BelongsTo => inf.camelCase(m.foreignKeyModel.name + "Id")
    case _ => inf.camelCase(m.model.name + "Id")
  }

  /** `#getDecoratorOptions`: no options when the actual key (the pivot table, the local
      column, or the related model's column) is the conventional one; otherwise a single
      option holding the actual value. A has-many or has-one without a related column raises. */
  function DecoratorOptions(inf: Inflector, m: RelationMap): (r: Result<Option<seq<DecoratorOption>>>)
    ensures r.TypeError? <==> (m.relationshipType == HasMany || m.relationshipType == HasOne) && m.foreignKeyColumn.None?
    ensures m.relationshipType == ManyToMany ==>
              && (r == Ok(None) <==> m.pivotTableName == Some(DefaultKey(inf, m)))
              && (r != Ok(None) ==> r == Ok(Some([DecoratorOption("pivotTable", OrUndefined(m.pivotTableName))])))
    ensures m.relationshipType == BelongsTo ==>
              && (r == Ok(None) <==> m.column.name == DefaultKey(inf, m))
              && (r != Ok(None) ==> r == Ok(Some([DecoratorOption("foreignKey", m.column.name)])))
    ensures (m.relationshipType == HasMany || m.relationshipType == HasOne) && r.Ok? ==>
              && (r == Ok(None) <==> m.foreignKeyColumn.value.name == DefaultKey(inf, m))
              && (r != Ok(None) ==> r == Ok(Some([DecoratorOption("foreignKey", m.foreignKeyColumn.value.name)])))
  {
    match m.relationshipType
    case ManyToMany =>
      if m.pivotTableName == Some(DefaultPivotTable(inf, m)) then Ok(None)
      else Ok(Some([DecoratorOption("pivotTable", OrUndefined(m.pivotTableName))]))
    case BelongsTo =>
      if m.column.name == inf.camelCase(m.foreignKeyModel.name + "Id") then Ok(None)
      else Ok(Some([DecoratorOption("foreignKey", m.column.name)]))
    case _ =>
      match m.foreignKeyColumn
      case None => TypeError
      case Some(c) =>
        if c.name == inf.camelCase(m.model.name + "Id") then Ok(None)
        else Ok(Some([DecoratorOption("foreignKey", c.name)]))
  }

  /** One option as the stub writes it. */
  function OptionText(o: DecoratorOption): string {
    o.key + ": '" + o.value + "'"
  }

  /** `#getDecoratorString`. */
  function DecoratorString(options: Option<seq<DecoratorOption>>): string {
    var keys := if options.None? then [] else options.value;
    if |keys| == 0 then ""
    else
      var inner := Join(MapSeq(keys, OptionText), ", ");
      if inner == "" then "" else ", { " + inner + " }"
  }

  /** No options render as nothing; a single option renders as `, { key: 'value' }`. */
  lemma DecoratorStringShape(options: Option<seq<DecoratorOption>>)
    ensures (options.None? || options.value == []) ==> DecoratorString(options) == ""
    ensures options.Some? && |options.value| == 1 ==>
              DecoratorString(options) == ", { " + OptionText(options.value[0]) + " }"
  {
    if options.Some? && |options.value| == 1 {
      var parts := MapSeq(options.value, OptionText);
      assert parts == [OptionText(options.value[0])];
      assert Join(parts, ", ") == OptionText(options.value[0]);
      assert OptionText(options.value[0])[|options.value[0].key|] == ':';
    }
  }

  /** `#getDefinition`, the decorator line. */
  function Decorator(t: RelationshipType, related: string, options: Option<seq<DecoratorOption>>): string {
    "@" + Value(t) + "(() => " + related + DecoratorString(options) + ")"
  }

  /** `#getDefinition`, the property line. */
  function Property(inf: Inflector, t: RelationshipType, propertyName: string, related: string): string {
    "declare " + propertyName + ": " + inf.pascalCase(Value(t)) + "<typeof " + related + ">"
  }

  /** The constructor of `ModelRelationship`. */
  function NewModelRelationship(inf: Inflector, m: RelationMap): (r: Result<ModelRelationship>)
    ensures r.TypeError? <==> DecoratorOptions(inf, m).TypeError?
    ensures r.Ok? ==>
              && r.value.relationshipType == m.relationshipType
              && r.value.modelName == m.model.name
              && r.value.relatedModelName == m.foreignKeyModel.name
              && r.value.relationMap == m
              && r.value.decoratorOptions == DecoratorOptions(inf, m).value
              && r.value.propertyName == PropertyName(inf, m)
  {
    match DecoratorOptions(inf, m)
    case TypeError => TypeError
    case Ok(options) =>
      var propertyName := PropertyName(inf, m);
      Ok(ModelRelationship(
        relationshipType := m.relationshipType,
        propertyName := propertyName,
        modelName := m.model.name,
        relatedModelName := m.foreignKeyModel.name,
        decoratorOptions := options,
        relationMap := m,
        decorator := Decorator(m.relationshipType, m.foreignKeyModel.name, options),
        property := Property(inf, m.relationshipType, propertyName, m.foreignKeyModel.name)))
  }

  /** A relationship that follows the naming convention renders without options:
      `@type(() => Related)`. One that does not carries its actual key:
      `@type(() => Related, { key: 'actual' })`. Either way the property line is
      `declare name: PascalType<typeof Related>`. */
  lemma DefinitionShape(inf: Inflector, m: RelationMap)
    requires NewModelRelationship(inf, m).Ok?
    ensures var d := NewModelRelationship(inf, m).value;
      && (d.decoratorOptions.None? ==> d.decorator == "@" + Value(m.relationshipType) + "(() => " + m.foreignKeyModel.name + ")")
      && (d.decoratorOptions.Some? ==>
            && |d.decoratorOptions.value| == 1
            && d.decorator == "@" + Value(m.relationshipType) + "(() => " + m.foreignKeyModel.name
                              + ", { " + d.decoratorOptions.value[0].key + ": '" + d.decoratorOptions.value[0].value + "' })")
      && d.property == "declare " + d.propertyName + ": " + inf.pascalCase(Value(m.relationshipType)) + "<typeof " + m.foreignKeyModel.name + ">"
  {
    var d := NewModelRelationship(inf, m).value;
    var options := DecoratorOptions(inf, m).value;
    assert d.decoratorOptions == options;
    assert d.decorator == Decorator(m.relationshipType, m.foreignKeyModel.name, options);
    assert options.Some? ==> |options.value| == 1;
    DecoratorLine(m.relationshipType, m.foreignKeyModel.name, options);
  }

  /** The decorator line for no options and for a single option. */
  lemma DecoratorLine(t: RelationshipType, related: string, options: Option<seq<DecoratorOption>>)
    ensures options.None? ==> Decorator(t, related, options) == "@" + Value(t) + "(() => " + related + ")"
    ensures options.Some? && |options.value| == 1 ==>
              Decorator(t, related, options)
              == "@" + Value(t) + "(() => " + related + ", { " + options.value[0].key + ": '" + options.value[0].value + "' })"
  {
    DecoratorStringShape(options);
  }

  /** Every map rendered into a definition, in order; raises when one of them does. */
  function RenderAll(inf: Inflector, maps: seq<RelationMap>): (r: Result<seq<ModelRelationship>>)
    ensures r.Ok? ==> |r.value| == |maps|
  {
    if |maps| == 0 then Ok([])
    else
      match RenderAll(inf, maps[..|maps| - 1])
      case TypeError => TypeError
      case Ok(front) =>
        match NewModelRelationship(inf, maps[|maps| - 1])
        case TypeError => TypeError
        case Ok(last) => Ok(front + [last])
  }

  /** A successful rendering holds, at each position, the definition of the map there. */
  lemma {:induction false} RenderAllPointwise(inf: Inflector, maps: seq<RelationMap>)
    requires RenderAll(inf, maps).Ok?
    ensures forall i | 0 <= i < |maps| :: NewModelRelationship(inf, maps[i]) == Ok(RenderAll(inf, maps).value[i])
  {
    if |maps| > 0 {
      var init := maps[..|maps| - 1];
      RenderAllPointwise(inf, init);
      var front := RenderAll(inf, init).value;
      var last := NewModelRelationship(inf, maps[|maps| - 1]).value;
      assert RenderAll(inf, maps).value == front + [last];
      forall i | 0 <= i < |maps| - 1
        ensures NewModelRelationship(inf, maps[i]) == Ok(RenderAll(inf, maps).value[i])
      {
        assert init[i] == maps[i];
      }
    }
  }

  /** Every has-many or has-one map carries its related column. */
  predicate Renderable(maps: seq<RelationMap>) {
    forall x | x in maps :: x.relationshipType == HasMany || x.relationshipType == HasOne ==> x.foreignKeyColumn.Some?
  }

  lemma {:induction false} RenderAllOk(inf: Inflector, maps: seq<RelationMap>)
    requires Renderable(maps)
    ensures RenderAll(inf, maps).Ok?
  {
    if |maps| > 0 {
      RenderAllOk(inf, maps[..|maps| - 1]);
      assert maps[|maps| - 1] in maps;
    }
  }

  /** The maps the extractor builds can always be rendered. */
  lemma {:induction false} MapsRenderable(inf: Inflector, models: seq<Model>, bs: seq<RelationMap>)
    requires AreBelongsTos(bs) && RelationshipMaps(inf, models, bs).Ok?
    ensures Renderable(RelationshipMaps(inf, models, bs).value)
  {
    if |bs| > 0 {
      MapsRenderable(inf, models, bs[..|bs| - 1]);
      ExpandShape(inf, models, bs[|bs| - 1], Expand(inf, models, bs[|bs| - 1]).value);
    }
  }

  /** What `extract` returns for a catalog. */
  function ExtractResult(inf: Inflector, models: seq<Model>): Result<seq<ModelRelationship>> {
    var bs := BelongsTos(models, models);
    match RelationshipMaps(inf, models, bs)
    case TypeError => TypeError
    case Ok(maps) => RenderAll(inf, maps)
  }

  /** `extract` raises only when building the maps does; the rendering never does. */
  lemma ExtractFailsOnlyInMaps(inf: Inflector, models: seq<Model>)
    ensures ExtractResult(inf, models).TypeError? <==> RelationshipMaps(inf, models, BelongsTos(models, models)).TypeError?
  {
    var bs := BelongsTos(models, models);
    if RelationshipMaps(inf, models, bs).Ok? {
      MapsRenderable(inf, models, bs);
      RenderAllOk(inf, RelationshipMaps(inf, models, bs).value);
    }
  }

  // ---------------------------------------------------------------------------------
  // `ModelRelationshipManager`

  class RelationshipManager {
    const models: seq<Model>

    constructor (models: seq<Model>)
      ensures this.models == models
    {
      this.models := models;
    }

    /** `#getBelongsTos`. */
    method GetBelongsTos() returns (r: seq<RelationMap>)
      ensures r == BelongsTos(models, models)
    {
      r := [];
      var i := 0;
      while i < |models|
        invariant 0 <= i <= |models|
        invariant r == BelongsTos(models, models[..i])
      {
        var model := models[i];
        var here: seq<RelationMap> := [];
        var j := 0;
        while j < |model.columns|
          invariant 0 <= j <= |model.columns|
          invariant here == ColumnsBelongsTos(models, model, model.columns[..j])
        {
          var column := model.columns[j];
          assert model.columns[..j + 1][..j] == model.columns[..j];
          if Truthy(column.foreignKeyTable) {
            var foreignKeyModel := TargetModel(models, column);
            if foreignKeyModel.Some? {
              var foreignKeyColumn := TargetColumn(foreignKeyModel.value, column);
              if foreignKeyColumn.Some? {
                here := here + [RelationMap(BelongsTo, model, column, foreignKeyModel.value, foreignKeyColumn, None, None)];
              }
            }
          }
          j := j + 1;
        }
        assert model.columns[..j] == model.columns;
        assert models[..i + 1][..i] == models[..i];
        r := r + here;
        i := i + 1;
      }
      assert models[..i] == models;
    }

    /** `#getRelationshipMaps`: expands every belongs-to and marks each pivot model. On
        success the maps are those of `RelationshipMaps`, and exactly the owners of pivot
        belongs-tos have been marked in addition to those marked before. */
    method GetRelationshipMaps(inf: Inflector) returns (r: Result<seq<RelationMap>>)
      modifies models
      ensures r == RelationshipMaps(inf, models, BelongsTos(models, models))
      ensures forall m | m in models :: m.relationships == old(m.relationships) && m.imports == old(m.imports)
      ensures r.Ok? ==> forall m | m in models ::
                m.isPivotTable == (old(m.isPivotTable) || MarkedBy(inf, models, BelongsTos(models, models), m))
    {
      var belongsTos := GetBelongsTos();
      r := ExpandAll(inf, belongsTos);
    }

    /** The loop of `#getRelationshipMaps` over the belongs-tos `bs`. */
    method ExpandAll(inf: Inflector, bs: seq<RelationMap>) returns (r: Result<seq<RelationMap>>)
      requires AreBelongsTos(bs) && forall b | b in bs :: b.model in models
      modifies models
      ensures r == RelationshipMaps(inf, models, bs)
      ensures forall m | m in models :: m.relationships == old(m.relationships) && m.imports == old(m.imports)
      ensures r.Ok? ==> forall m | m in models :: m.isPivotTable == (old(m.isPivotTable) || MarkedBy(inf, models, bs, m))
    {
      ghost var entry := map m | m in models :: m.isPivotTable;
      var relationships: seq<RelationMap> := [];
      var k := 0;
      while k < |bs|
        invariant 0 <= k <= |bs|
        invariant RelationshipMaps(inf, models, bs[..k]) == Ok(relationships)
        invariant forall m | m in models :: m.isPivotTable == (entry[m] || MarkedBy(inf, models, bs[..k], m))
        invariant forall m | m in models :: m.relationships == old(m.relationships) && m.imports == old(m.imports)
      {
        var belongsTo := bs[k];
        var expanded := Expand(inf, models, belongsTo);
        if expanded.TypeError? {
          ErrorPersists(inf, models, bs, k + 1);
          return TypeError;
        }
        MapsStep(inf, models, bs, k, relationships);
        relationships := relationships + expanded.value;
        assert RelationshipMaps(inf, models, bs[..k + 1]) == Ok(relationships);
        MarkNext(inf, bs, k, entry);
        k := k + 1;
      }
      assert bs[..k] == bs;
      r := Ok(relationships);
    }

    /** One step of the marking: the owner of `bs[k]` is marked if it is a pivot. */
    method MarkNext(inf: Inflector, bs: seq<RelationMap>, k: nat, ghost entry: map<Model, bool>)
      requires k < |bs| && bs[k].model in models
      requires forall m | m in models :: m in entry && m.isPivotTable == (entry[m] || MarkedBy(inf, models, bs[..k], m))
      modifies bs[k].model
      ensures forall m | m in models :: m.isPivotTable == (entry[m] || MarkedBy(inf, models, bs[..k + 1], m))
      ensures forall m | m in models :: m.relationships == old(m.relationships) && m.imports == old(m.imports)
    {
      MarkStep(inf, models, bs, k);
      MarkIfPivot(inf, bs[k]);
    }

    /** Line 177: the owner of a pivot belongs-to is marked. */
    method MarkIfPivot(inf: Inflector, b: RelationMap)
      modifies b.model
      ensures b.model.isPivotTable == (old(b.model.isPivotTable) || IsPivot(inf, models, b))
      ensures b.model.relationships == old(b.model.relationships) && b.model.imports == old(b.model.imports)
    {
      if IsPivot(inf, models, b) {
        b.model.isPivotTable := true;
      }
    }

    /** `extract`: the rendered relationships, in the order of their maps. */
    method Extract(inf: Inflector) returns (r: Result<seq<ModelRelationship>>)
      modifies models
      ensures r == ExtractResult(inf, models)
      ensures forall m | m in models :: m.relationships == old(m.relationships) && m.imports == old(m.imports)
      ensures r.Ok? ==> forall m | m in models ::
                m.isPivotTable == (old(m.isPivotTable) || MarkedBy(inf, models, BelongsTos(models, models), m))
    {
      var maps := GetRelationshipMaps(inf);
      if maps.TypeError? {
        return TypeError;
      }
      ExtractFailsOnlyInMaps(inf, models);
      r := RenderAll(inf, maps.value);
    }
  }

  /** Once a prefix of the belongs-tos fails to expand, every longer prefix does. */
  lemma {:induction false} ErrorPersists(inf: Inflector, models: seq<Model>, bs: seq<RelationMap>, k: nat)
    requires AreBelongsTos(bs) && 0 < k <= |bs| && Expand(inf, models, bs[k - 1]).TypeError?
    ensures RelationshipMaps(inf, models, bs).TypeError?
  {
    if k < |bs| {
      ErrorPersists(inf, models, bs[..|bs| - 1], k);
    } else {
      assert bs[..|bs| - 1] == bs[..k - 1];
    }
  }

  /** One more belongs-to appends its expansion. */
  lemma MapsStep(inf: Inflector, models: seq<Model>, bs: seq<RelationMap>, k: nat, front: seq<RelationMap>)
    requires AreBelongsTos(bs) && k < |bs|
    requires RelationshipMaps(inf, models, bs[..k]) == Ok(front) && Expand(inf, models, bs[k]).Ok?
    ensures RelationshipMaps(inf, models, bs[..k + 1]) == Ok(front + Expand(inf, models, bs[k]).value)
  {
    assert bs[..k + 1][..k] == bs[..k];
  }

  /** Marking the owner of one more pivot belongs-to. */
  lemma MarkStep(inf: Inflector, models: seq<Model>, bs: seq<RelationMap>, k: nat)
    requires k < |bs|
    ensures forall m :: MarkedBy(inf, models, bs[..k + 1], m) <==>
              MarkedBy(inf, models, bs[..k], m) || (bs[k].model == m && IsPivot(inf, models, bs[k]))
  {
    forall m
      ensures MarkedBy(inf, models, bs[..k + 1], m) <==>
                MarkedBy(inf, models, bs[..k], m) || (bs[k].model == m && IsPivot(inf, models, bs[k]))
    {
      if MarkedBy(inf, models, bs[..k + 1], m) {
        var j :| 0 <= j < k + 1 && bs[..k + 1][j].model == m && IsPivot(inf, models, bs[..k + 1][j]);
        if j < k {
          assert bs[..k][j] == bs[..k + 1][j];
        }
      }
      if MarkedBy(inf, models, bs[..k], m) {
        var j :| 0 <= j < k && bs[..k][j].model == m && IsPivot(inf, models, bs[..k][j]);
        assert bs[..k + 1][j] == bs[..k][j];
      }
      if bs[k].model == m && IsPivot(inf, models, bs[k]) {
        assert bs[..k + 1][k] == bs[k];
      }
    }
  }
}
