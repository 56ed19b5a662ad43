# generate-models: a verified model of the model-generation core

The system reads a database's tables and columns and writes one Lucid ORM model file
per table. This project models the core of that, in Dafny:

- **Type extraction**: a database column type maps to a TypeScript type.
- **Column model**: a column definition turns into a model column.
- **Model assembly** (`Model.build`):
  - one model per table;
  - relationship extraction, in the extractor used by the build and in the legacy
    `Relationship` class;
  - the grouped import statements each model file needs;
  - pivot tables left out of the result.

Records are Dafny datatypes. The model object, whose pivot flag, relationships and imports
the build assigns in place, is a class. The relationship manager and the import manager are
classes too. Their methods are proved equal to functions over the old state, and the build's
guarantees are stated on those functions.

Module by module:

- **TypeExtractor** holds the six database-type sets. The lookup upper-cases the type,
  keeps the text before the first `[]`, trims it and falls back to `unknown`; so `int[][]x`
  looks up `INT`.
- **Column** covers the model column's construction: a camel-cased property name, and
  `isDateTime` when the type contains `timestamp` or is `date`. It also has the `_id` test.
- **RelationshipModel** is the legacy `Relationship` class, together with the column's
  `getRelationship` lookup that builds one:
  - parent and child type resolution;
  - the foreign-key string;
  - `parse`, which files every relationship under both model names, keyed by foreign key.
- **RelationshipExtractor** is the extractor that `Model.build` calls:
  - belongs-to collection;
  - expansion: a pivot's belongs-to becomes one many-to-many, and any other belongs-to
    becomes a has-many paired with the belongs-to;
  - rendering of each relation into a property name, decorator options, a decorator line
    and a property line.
- **ImportExtractor** is the import manager:
  - merging by `name@namespace`, where a type-only import loses that flag when a value
    import of the same key arrives;
  - grouping by namespace, first occurrence first;
  - rendering the statements.
- **ModelBuilder** is `Model.build` and `getModelsFromTables`.

Calls into code outside the core are fields of an `Inflector` value passed to every
operation that needs them:
- the string helpers `singular`, `plural`, `camelCase`, `snakeCase` and `pascalCase`;
- the generators' `modelName` and `modelFileName`.

A JavaScript `TypeError` is the `TypeError` case of `Result`. It arises from a property
read through `undefined` (a missing model or column behind `!`).

Several quirks of the code are modelled as written:

- The extractor has no `_id` test: any column with a truthy foreign-key table that resolves
  is a belongs-to (`IgnoresColumnName`).
- A pivot neighbour that is not found renders as `undefined` in the compared name
  (`MissingSideSpellsUndefined`, `ExpandFailsOnlyOnUndefined`).
- A belongs-to's property name drops only the first `Id` (`BelongsToPropertyDropsFirstId`).
- `ModelColumn.type` is never assigned, so the luxon `DateTime` import is never produced
  (`NeverImportsLuxon`).

Where the prose description of the system and the code disagree, the model follows the
code:

- The legacy `parse` raises on a column whose foreign-key model is missing instead of
  skipping it (`DanglingForeignKeyRaises`).
- The extractor emits one many-to-many relation per foreign key of a pivot table, owned by
  the table that key points at, and no has-many for it (`ExpandShape`).

## Model

| member | source | states |
|---|---|---|
| RelationshipTypes.ValueInjective | src/enums/relationship_types.ts:1-6 | The four relationship kinds have pairwise different string values. |
| TypeExtractor.ExtractColumnTypeScriptType | src/extractors/type_extractor.ts:129-141 | The result is always one of nine types: `string`, `number`, `string[]`, `number[]`, `DateTime`, `Buffer`, `boolean`, `Record<string, any>` or `unknown`. |
| TypeExtractor.ExtractIffGroup | src/extractors/type_extractor.ts:129-141 | Each TypeScript type is produced exactly when the normalized type is in its set. String and number results gain `[]` exactly when the input ends with `[]`; every other result ignores the suffix. `unknown` is produced exactly when the type is in no set. |
| TypeExtractor.TypeSetsDisjoint | src/extractors/type_extractor.ts:12-120 | The six database-type sets are pairwise disjoint, so the order of the checks does not matter. |
| TypeExtractor.ExtractIgnoresCase | src/extractors/type_extractor.ts:131 | Two types that upper-case to the same string map to the same TypeScript type. |
| TypeExtractor.ExtractArrayOf | src/extractors/type_extractor.ts:130-140 | For a bracket-free type `t`, a `string` or `number` result for `t` becomes `string[]` or `number[]` for `t[]`; every other result is unchanged. |
| TypeExtractor.ArraySuffixFlags | src/extractors/type_extractor.ts:130 | A bracket-free type is not an array type, and the same type with `[]` appended is. |
| Column.IsDateTimeType | src/model/column.ts:25 | A type is a date-time type iff it contains `timestamp` or is exactly `date`. |
| Column.DateTimeIsCaseSensitive | src/model/column.ts:25 | The test is case sensitive: no type without lower-case ASCII letters (such as `TIMESTAMP` or `DATE`) is a date-time type. |
| Column.FromInfo | src/model/column.ts:11-28 | The property name is the camel-cased column name. Table, nullability, primary key and foreign-key fields are copied. `type` stays unset. `isDateTime` follows the type test. |
| Column.IsIdColumn | src/model/column.ts:30-32 | A column is an id column iff its name ends with `_id`. |
| Entities.Model.constructor | src/model/index.ts:17-24 | A new model has the generated model name and file name and the table's name and columns. It is not a pivot. Its relationships and imports are left unspecified, as the source only declares them. |
| Pivot.PivotName | src/model/relationship.ts:57-64 | With both neighbour tables found, the name is `prefix_suffix`. |
| Pivot.MissingSideSpellsUndefined | src/extractors/relationship_extractor.ts:163-169 | A missing prefix table makes the name start with `undefined_`; a missing suffix table makes it end with `_undefined`. |
| RelationshipModel.GetModelColumn | src/model/relationship.ts:52-54 | Raises iff no column of the model has that column name; otherwise returns the property name of such a column. |
| RelationshipModel.SideTypes | src/model/relationship.ts:56-86 | Both sides are many-to-many iff the table name matches the pivot pattern or the type was many-to-many. Otherwise the child is belongs-to, and the parent is has-many for a belongs-to and the given type for the rest. |
| RelationshipModel.SideTypesShape | src/model/relationship.ts:68-85 | The parent is never belongs-to, and the child is belongs-to or many-to-many. |
| RelationshipModel.NewRelationship | src/model/relationship.ts:21-46 | The foreign key is `table.column`, with `null` for a missing part. For a belongs-to, the parent is the referenced model and the child is the column's model; other types swap them. Both models come from the catalog. |
| RelationshipModel.NewRelationshipRaisesIff | src/model/relationship.ts:21-54 | For any kind, the constructor raises iff an end cannot be found: the first model of the foreign-key table is missing or lacks the foreign-key column, or the first model of the column's own table is missing or lacks the column. |
| RelationshipModel.GetRelationship | src/model/column.ts:34-41 | There is no relationship iff the column is not an `_id` column or its foreign-key column is empty. Otherwise the lookup raises iff an end of the relationship cannot be found (`ForeignResolves`, `LocalResolves`), and any relationship it returns has the column's table and column as its child and the foreign key's table and column as its parent. |
| RelationshipModel.DanglingForeignKeyRaises | src/model/relationship.ts:97-100 | An `_id` column with a foreign-key column but no matching model raises. |
| RelationshipModel.File | src/model/relationship.ts:97-107 | Filing one relationship stores it under the parent's model name and its foreign key, then under the child's unless the two names coincide, as `Insert` does. |
| RelationshipModel.FileColumns | src/model/relationship.ts:92-108 | The loop over one model's columns raises iff some column's lookup raises. Otherwise it files exactly the relationships those columns yield, in order. |
| RelationshipModel.InsertAllIsLastFiled | src/model/relationship.ts:102-107 | Under each model name and foreign key, the index holds the last relationship filed there. A model name is present iff some relationship names it. |
| RelationshipModel.ParseKeysAreForeignKeys | src/model/relationship.ts:88-112 | Every entry is filed under its own foreign key and under one of its two model names. |
| RelationshipModel.ParseEntriesComeFromColumns | src/model/relationship.ts:88-112 | Every entry is the relationship some column of some model yields. |
| RelationshipModel.Parse | src/model/relationship.ts:88-112 | The loop over models and columns computes `ParseResult`: the index, or the error, of the fold of per-column relationships. |
| RelationshipExtractor.ColumnBelongsTo | src/extractors/relationship_extractor.ts:219-232 | A column yields a belongs-to iff its foreign-key table is truthy and both the target model and the target column exist. The relation links the owner and column to that model and column. |
| RelationshipExtractor.BelongsToIffResolvable | src/extractors/relationship_extractor.ts:219-232 | With distinct table names, a column yields a belongs-to iff some model has the foreign-key table's name and a column with the foreign-key column's name. |
| RelationshipExtractor.IgnoresColumnName | src/extractors/relationship_extractor.ts:219 | Renaming a column does not change whether it yields a belongs-to: there is no `_id` test. |
| RelationshipExtractor.BelongsTos | src/extractors/relationship_extractor.ts:214-237 | Every collected relation is a resolved belongs-to of a column of its owner. Every column that resolves is collected. The order is stated by `BelongsTosAppend`. |
| RelationshipExtractor.ColumnsBelongsTosAppend | src/extractors/relationship_extractor.ts:218-233 | Collection keeps column order: the belongs-tos of two runs of columns are those of the first run followed by those of the second. |
| RelationshipExtractor.BelongsTosAppend | src/extractors/relationship_extractor.ts:217-234 | Collection keeps model order: the belongs-tos of two runs of models are those of the first run followed by those of the second. |
| RelationshipExtractor.RelationshipManager.GetBelongsTos | src/extractors/relationship_extractor.ts:214-237 | The nested loops collect exactly `BelongsTos`. |
| RelationshipExtractor.PivotTestsAgree | src/extractors/relationship_extractor.ts:158-169 | The extractor's pivot test (`IsPivot`) holds exactly when the legacy class's pivot-name test (`MatchesPivotName`, src/model/relationship.ts:57-68) does, for the same table and catalog. |
| RelationshipExtractor.Expand | src/extractors/relationship_extractor.ts:158-203 | Raises iff the belongs-to passes the pivot test and the related neighbour is missing: the suffix table when the prefix table is the referenced model, the prefix table otherwise. Every relation produced is owned by the referenced model or is the belongs-to itself. |
| RelationshipExtractor.MapsFailIff | src/extractors/relationship_extractor.ts:153-207 | Expanding all belongs-tos (`RelationshipMaps`) raises iff expanding some single one raises. |
| RelationshipExtractor.ExpandShape | src/extractors/relationship_extractor.ts:158-203 | A pivot's belongs-to becomes one many-to-many from the referenced model to the other neighbour. Its pivot column is the column's name and its pivot table the owner's table. Any other belongs-to becomes a has-many from the referenced model back to the column, followed by the belongs-to itself. |
| RelationshipExtractor.ExpandFailsOnlyOnUndefined | src/extractors/relationship_extractor.ts:163-175 | Expansion raises only for a pivot whose singular name starts with `undefined_` or ends with `_undefined`. |
| RelationshipExtractor.ExpandCount | src/extractors/relationship_extractor.ts:179-203 | A pivot's belongs-to yields one relation and any other yields two; none is has-one. |
| RelationshipExtractor.MapsCount | src/extractors/relationship_extractor.ts:153-207 | For n belongs-tos of which p are pivots, the output has 2(n - p) + p relations and no has-one. |
| RelationshipExtractor.RelationshipManager.ExpandAll | src/extractors/relationship_extractor.ts:157-206 | The loop returns the fold of expansions. A model's pivot flag becomes set iff it was set before or one of its belongs-tos passes the pivot test. Relationships and imports are untouched. |
| RelationshipExtractor.RelationshipManager.MarkIfPivot | src/extractors/relationship_extractor.ts:177 | The owner's pivot flag is raised exactly when the relation passes the pivot test. Its relationships and imports are untouched. |
| RelationshipExtractor.RelationshipManager.GetRelationshipMaps | src/extractors/relationship_extractor.ts:153-207 | The method returns the expansions of `BelongsTos` and marks exactly the models that own a pivot belongs-to. Relationships and imports are untouched. |
| RelationshipExtractor.BelongsToPropertyDropsFirstId | src/extractors/relationship_extractor.ts:55-68 | For a belongs-to named `head + "Id" + tail` with no `Id` in `head`, the property is `camelCase(head + tail)`. |
| RelationshipExtractor.PropertyNameDependsOn | src/extractors/relationship_extractor.ts:55-68 | A belongs-to's property name (`PropertyName`) depends only on its column's name. A has-many's or many-to-many's depends only on the related model's name. A has-many's is the plural of the has-one name for the same relation. |
| RelationshipExtractor.DefaultPivotTableSymmetric | src/extractors/relationship_extractor.ts:77-84 | The default pivot-table name is the same seen from either side. |
| RelationshipExtractor.DecoratorOptions | src/extractors/relationship_extractor.ts:75-103 | Raises iff a has-many or has-one has no foreign-key column. Each kind yields no options exactly when its key equals the default, and otherwise the one option naming the actual key. |
| RelationshipExtractor.DecoratorStringShape | src/extractors/relationship_extractor.ts:109-121 | The options text (`DecoratorString`) is empty for no options; one option renders as `, { key: 'value' }`. |
| RelationshipExtractor.NewModelRelationship | src/extractors/relationship_extractor.ts:36-48 | Raises iff its decorator options raise. Otherwise it records the type's value, the property name, the owner's and related model's names, the options, the decorator and the property line. |
| RelationshipExtractor.DecoratorLine | src/extractors/relationship_extractor.ts:127-129 | The decorator (`Decorator`) is `@type(() => Related)` without options, and with one option it is `@type(() => Related, { key: 'value' })`. |
| RelationshipExtractor.DefinitionShape | src/extractors/relationship_extractor.ts:127-132 | Without options the decorator is `@type(() => Related)`. With options it carries the single `{ key: 'value' }`. The property line (`Property`) is `declare name: PascalType<typeof Related>`. |
| RelationshipExtractor.RenderAll | src/extractors/relationship_extractor.ts:143-146 | On success, the output has one definition per relation. |
| RelationshipExtractor.RenderAllPointwise | src/extractors/relationship_extractor.ts:143-146 | On success, the i-th definition is the rendering of the i-th relation, so order is kept. |
| RelationshipExtractor.MapsRenderable | src/extractors/relationship_extractor.ts:143-146 | Every relation the expansion yields has what rendering needs, so rendering never raises after a successful expansion. |
| RelationshipExtractor.ExtractFailsOnlyInMaps | src/extractors/relationship_extractor.ts:143-146 | Extraction (`ExtractResult`) raises iff the expansion step does. |
| RelationshipExtractor.RelationshipManager.constructor | src/extractors/relationship_extractor.ts:137 | The manager holds the given models. |
| RelationshipExtractor.RelationshipManager.Extract | src/extractors/relationship_extractor.ts:143-146 | The method returns `ExtractResult` and marks exactly the models that own a pivot belongs-to. Relationships and imports are untouched. |
| ImportExtractor.NewImport | src/extractors/import_extractor.ts:8-16 | The flags are set only by an explicit `true`; a missing flag means `false`. |
| ImportExtractor.KeyIndex | src/extractors/import_extractor.ts:82-84 | The first position whose `name@namespace` key is the given key, or none iff no entry has it. |
| ImportExtractor.KeyInjectiveWithoutAt | src/extractors/import_extractor.ts:82-84 | For names and namespaces without `@`, two imports have the same `name@namespace` key (`Key`) iff they have the same name and namespace. |
| ImportExtractor.Merge | src/extractors/import_extractor.ts:66-75 | Adding an import appends it exactly when its key is new, and then leaves every existing entry unchanged. For a known key, only the entry at that key changes: it stays type-only only if both it and the new import are. |
| ImportExtractor.MergeEntryStep | src/extractors/import_extractor.ts:66-75 | With distinct keys, one add leaves the entry of every other key as it was. It makes the added key present: a new key holds the added import, and a known key's entry stays type-only only if both were. |
| ImportExtractor.MergeKeepsKeysDistinct | src/extractors/import_extractor.ts:66-75 | Adding keeps one entry per key, and the added key is present. |
| ImportExtractor.MergeAllEntry | src/extractors/import_extractor.ts:66-75 | After a series of adds, keys are distinct. A key is present iff it was added. Its entry is the first add with that key, type-only iff every add with that key was type-only. |
| ImportExtractor.ModelImportManager.constructor | src/extractors/import_extractor.ts:60 | A new manager holds no imports. |
| ImportExtractor.ModelImportManager.Add | src/extractors/import_extractor.ts:66-75 | The managed values become the merge of the old values with the new import. |
| ImportExtractor.GroupsPartition | src/extractors/import_extractor.ts:46-56 | Groups have distinct namespaces. Each holds exactly the imports of its namespace, in order. Every import's namespace has a group. |
| ImportExtractor.GetNamespaceGroups | src/extractors/import_extractor.ts:46-56 | The loop computes `Groups`. |
| ImportExtractor.DefaultName | src/extractors/import_extractor.ts:27 | Present iff some item is a default import, and then the name of the first default import. |
| ImportExtractor.NamesShape | src/extractors/import_extractor.ts:33-35 | With a non-empty default name and non-empty named imports, the names read `Default, { a, b }`. |
| ImportExtractor.StatementShape | src/extractors/import_extractor.ts:37 | A statement (`Statement`) whose leading item is type-only begins with `import type `; otherwise it begins with `import <names> from '`. Every statement ends with ` from '<namespace>'`. |
| ImportExtractor.Statements | src/extractors/import_extractor.ts:26-38 | One statement per group, in group order. |
| ImportExtractor.GetStatements | src/extractors/import_extractor.ts:23-39 | Computes the statements of the groups of the imports. |
| ImportExtractor.RequestsCover | src/extractors/import_extractor.ts:91-108 | The requests (`Requests`) start with `BaseModel` and `column` from the ORM. For every definition they include its type from the ORM and its Pascal-cased type from the relation types, and a default import from `./<snake name>.js` for every related model other than the model itself. |
| ImportExtractor.ColumnRequestsDateTime | src/extractors/import_extractor.ts:95-99 | A luxon import is requested iff some column's `type` is `DateTime`, and it is the only import columns request. |
| ImportExtractor.DefinitionsRequestsNotLuxon | src/extractors/import_extractor.ts:101-108 | Relationships never request a luxon import. |
| ImportExtractor.DefinitionsRequestsNoSelfImport | src/extractors/import_extractor.ts:102-104 | No default import names the model itself. |
| ImportExtractor.NeverImportsLuxon | src/extractors/import_extractor.ts:91-111 | Because a column's `type` is never assigned, a model built from tables never requests luxon. |
| ImportExtractor.ModelImportManager.Extract | src/extractors/import_extractor.ts:91-111 | The manager merges all of the model's requests in order and returns the statements of the grouped values. |
| ModelBuilder.ColumnsFromInfo | src/model/index.ts:53 | One model column per column definition, pointwise `FromInfo`. |
| ModelBuilder.ModelsFromTables | src/model/index.ts:51-56 | One fresh, distinct model per table, in table order, built by the constructor. |
| ModelBuilder.OwnedBy | src/model/index.ts:39 | Exactly the definitions whose model name is the given name. |
| ModelBuilder.NonPivot | src/model/index.ts:43 | Exactly the models that are not pivots. The order is stated by `NonPivotAppend`. |
| ModelBuilder.NonPivotAppend | src/model/index.ts:43 | Dropping pivots keeps order: the kept models of two runs are those of the first run followed by those of the second. |
| ModelBuilder.FreshImports | src/model/index.ts:37-40 | A new import manager's statements for a model are `ImportsFor` its name, columns and definitions: the grouped statements of its requests merged in order. No object that existed before changes. |
| ModelBuilder.Attach | src/model/index.ts:36-41 | Every model gets its own definitions and the statements of a fresh import manager; pivot flags are untouched. |
| ModelBuilder.Build | src/model/index.ts:31-44 | The build raises iff extraction raises. Otherwise every model carries its own definitions and imports, and exactly the models owning a pivot belongs-to are pivots. The result lists the non-pivot models in table order. |

## Left out

- Database introspection (`src/db/schema.ts`) and the command that writes files (`commands/generate_models.ts`) are I/O. The build takes the table list as a parameter.
- The string helpers and the generators' name functions are parameters, so nothing is proved about what they compute.
- `Relationship.toDefinition` is an empty stub in the source and has no counterpart.
- `toUpperCase` is modelled on ASCII letters only. Strings order by code point, not by UTF-16 unit.
- The legacy `parse` result is a JavaScript `Map` of `Map`s. It is modelled as a Dafny map, so its insertion order is not captured.
- `ModelImport` objects stored by the manager and mutated by a later `add` are modelled by value. The aliasing between the stored object and the caller's is not captured.
- The state of models after a `TypeError` is not specified, since the exception aborts the build.
- Entities.Model.constructor: `relationships` and `imports` are only declared in the source, so they are undefined until `build` assigns them. The model leaves them unspecified and states nothing about them before `Attach`.
- `ModelColumn`'s declared relationship-type field is never assigned or read and is not modelled.
- Two imports whose name and namespace join to the same `name@namespace` key share an entry. The model reproduces this and says nothing more about it.
- ImportExtractor.StatementShape: states the prefix for type-only and value groups one way only. For the converse, a default import literally named `type` would make the two prefixes coincide.
- RelationshipExtractor.Expand: requires the belongs-to to carry its target column. Collection always sets it, and a relation's foreign-key column is typed as present at this point.
