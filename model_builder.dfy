/** Model assembly (`src/model/index.ts`): one model per table, the extracted relationship
    definitions attached to the model that owns them, the import statements each model file
    needs, and the catalog without its pivot tables. */
module ModelBuilder {
  import opened Basics
  import opened Inflection
  import opened Entities
  import opened Column
  import opened RelationshipExtractor
  import opened ImportExtractor

  /** The model columns of a table: one per column definition, in order. */
  function ColumnsFromInfo(inf: Inflector, infos: seq<ColumnInfo>): (r: seq<ModelColumn>)
    ensures |r| == |infos|
    ensures forall i | 0 <= i < |infos| :: r[i] == FromInfo(inf, infos[i])
  {
    if |infos| == 0 then [] else ColumnsFromInfo(inf, infos[..|infos| - 1]) + [FromInfo(inf, infos[|infos| - 1])]
  }

  /** What a freshly built model holds for its table. */
  predicate BuiltFrom(inf: Inflector, m: Model, t: TableSchema)
    reads m
  {
    && m.name == inf.modelName(t.name)
    && m.fileName == inf.modelFileName(t.name)
    && m.tableName == t.name
    && m.columns == ColumnsFromInfo(inf, t.columns)
  }

  /** Pairwise different objects. */
  predicate DistinctModels(models: seq<Model>) {
    forall i, j | 0 <= i < j < |models| :: models[i] != models[j]
  }

  /** `#getModelsFromTables`: one new model per table, in table order, not yet marked as a
      pivot; its relationships and imports are not assigned yet. */
  method ModelsFromTables(inf: Inflector, tables: seq<TableSchema>) returns (models: seq<Model>)
    ensures |models| == |tables| && DistinctModels(models)
    ensures forall i | 0 <= i < |tables| ::
              && fresh(models[i])
              && BuiltFrom(inf, models[i], tables[i])
              && !models[i].isPivotTable
  {
    models := [];
    var i := 0;
    while i < |tables|
      invariant 0 <= i <= |tables| && |models| == i && DistinctModels(models)
      invariant forall j | 0 <= j < i ::
                  && fresh(models[j])
                  && BuiltFrom(inf, models[j], tables[j])
                  && !models[j].isPivotTable
    {
      var m := new Model(inf, tables[i].name, ColumnsFromInfo(inf, tables[i].columns));
      models := models + [m];
      i := i + 1;
    }
  }

  /** The definitions owned by the model called `name`, in extraction order. */
  function OwnedBy(relationships: seq<ModelRelationship>, name: string): (r: seq<ModelRelationship>)
    ensures forall x | x in r :: x in relationships && x.modelName == name
    ensures forall x | x in relationships && x.modelName == name :: x in r
  {
    Filter(relationships, (x: ModelRelationship) => x.modelName == name)
  }

  /** The import statements a fresh import manager produces for a model with this name,
      these columns and these relationship definitions. */
  function ImportsFor(inf: Inflector, name: string, columns: seq<ModelColumn>, ds: seq<ModelRelationship>): seq<string> {
    Statements(Groups(MergeAll([], Requests(inf, name, columns, ds))))
  }

  /** The models not marked as pivots, in their original order. */
  function NonPivot(models: seq<Model>): (r: seq<Model>)
    reads models
    ensures |r| <= |models|
    ensures forall m | m in r :: m in models && !m.isPivotTable
    ensures forall m | m in models && !m.isPivotTable :: m in r
  {
    if |models| == 0 then []
    else
      var last := models[|models| - 1];
      NonPivot(models[..|models| - 1]) + (if last.isPivotTable then [] else [last])
  }

  /** Dropping pivots keeps order: the kept models of two runs are those of the first run
      followed by those of the second. */
  lemma {:induction false} NonPivotAppend(xs: seq<Model>, ys: seq<Model>)
    ensures NonPivot(xs + ys) == NonPivot(xs) + NonPivot(ys)
  {
    if |ys| == 0 {
      assert xs + ys == xs;
    } else {
      var init := ys[..|ys| - 1];
      assert (xs + ys)[..|xs + ys| - 1] == xs + init;
      assert (xs + ys)[|xs + ys| - 1] == ys[|ys| - 1];
      var last := ys[|ys| - 1];
      var tail := if last.isPivotTable then [] else [last];
      NonPivotAppend(xs, init);
      calc {
        NonPivot(xs + ys);
        NonPivot(xs + init) + tail;
        (NonPivot(xs) + NonPivot(init)) + tail;
        { ConcatAssoc(NonPivot(xs), NonPivot(init), tail); }
        NonPivot(xs) + (NonPivot(init) + tail);
        NonPivot(xs) + NonPivot(ys);
      }
    }
  }

  /** What the loop of `build` gives one model. */
  predicate Attached(inf: Inflector, m: Model, relationships: seq<ModelRelationship>)
    reads m
  {
    Carries(inf, m.name, m.columns, m.relationships, m.imports, relationships)
  }

  /** A model with this name and these columns carries these definitions and imports. */
  predicate Carries(inf: Inflector, name: string, columns: seq<ModelColumn>, ds: seq<ModelRelationship>,
                    imports: seq<string>, relationships: seq<ModelRelationship>)
  {
    ds == OwnedBy(relationships, name) && imports == ImportsFor(inf, name, columns, ds)
  }

  /** The loop of `build`: every model gets the relationships it owns and the statements of
      a fresh import manager. */
  method Attach(inf: Inflector, models: seq<Model>, relationships: seq<ModelRelationship>)
    requires DistinctModels(models)
    modifies models
    ensures forall j | 0 <= j < |models| :: models[j].isPivotTable == old(models[j].isPivotTable)
    ensures forall j | 0 <= j < |models| :: Attached(inf, models[j], relationships)
  {
    var i := 0;
    while i < |models|
      invariant 0 <= i <= |models|
      invariant forall j | 0 <= j < |models| :: models[j].isPivotTable == old(models[j].isPivotTable)
      invariant forall j | 0 <= j < i ::
                  Carries(inf, models[j].name, models[j].columns, models[j].relationships, models[j].imports, relationships)
    {
      assert forall j | 0 <= j < |models| && j != i :: models[j] != models[i];
      AttachOne(inf, models[i], relationships);
      i := i + 1;
    }
  }

  /** One iteration of that loop. */
  method AttachOne(inf: Inflector, model: Model, relationships: seq<ModelRelationship>)
    modifies model
    ensures model.isPivotTable == old(model.isPivotTable)
    ensures Attached(inf, model, relationships)
  {
    var owned := OwnedBy(relationships, model.name);
    model.relationships := owned;
    var imports := FreshImports(inf, model);
    model.imports := imports;
  }

  /** A fresh import manager's statements for `model`; nothing that existed before changes. */
  method FreshImports(inf: Inflector, model: Model) returns (r: seq<string>)
    ensures r == ImportsFor(inf, model.name, model.columns, model.relationships)
  {
    var importManager := new ModelImportManager();
    r := importManager.Extract(inf, model);
  }

  /** `Model.build`. `models` names every model built, pivots included. The build raises
      exactly when the extractor does. Otherwise every model carries the relationships it owns,
      in extraction order, and the statements of its own import manager; a model is a pivot
      exactly when it owns a belongs-to that passes the pivot test; and the result is the
      models that are not pivots, in table order. */
  method Build(inf: Inflector, tables: seq<TableSchema>) returns (r: Result<seq<Model>>, ghost models: seq<Model>)
    ensures |models| == |tables| && DistinctModels(models)
    ensures forall i | 0 <= i < |tables| :: fresh(models[i]) && BuiltFrom(inf, models[i], tables[i])
    ensures r.TypeError? <==> ExtractResult(inf, models).TypeError?
    ensures r.Ok? ==> forall m | m in models :: m.relationships == OwnedBy(ExtractResult(inf, models).value, m.name)
    ensures r.Ok? ==> forall m | m in models :: m.imports == ImportsFor(inf, m.name, m.columns, m.relationships)
    ensures r.Ok? ==> forall m | m in models :: m.isPivotTable == MarkedBy(inf, models, BelongsTos(models, models), m)
    ensures r.Ok? ==> r.value == NonPivot(models)
  {
    var built := ModelsFromTables(inf, tables);
    models := built;
    var manager := new RelationshipManager(built);
    var relationships := manager.Extract(inf);
    if relationships.TypeError? {
      return TypeError, models;
    }
    Attach(inf, built, relationships.value);
    r := Ok(NonPivot(built));
  }
}
