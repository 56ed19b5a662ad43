/** The records the generator passes between its stages: the inspector's column facts, the
    model columns and models built from them, and the relation maps and relationship
    definitions the extractor derives. They share one module because a model holds its
    relationship definitions and every relation map refers back to models. */
module Entities {
  import opened Basics
  import opened Inflection
  import opened RelationshipTypes

  /** A column as the schema inspector reports it (the fields of knex-schema-inspector's
      `Column` that the generator reads); an absent foreign key is `null` there. */
  datatype ColumnInfo = ColumnInfo(
    name: string,
    table: string,
    dataType: string,
    isPrimaryKey: bool,
    isNullable: bool,
    foreignKeyTable: Option<string>,
    foreignKeyColumn: Option<string>)

  /** A table and its columns, in the inspector's order. */
  datatype TableSchema = TableSchema(name: string, columns: seq<ColumnInfo>)

  /** A column of a model. `columnType` stands for the declared `type` field, which the
      constructor never assigns, so it is always `None` (JavaScript `undefined`). */
  datatype ModelColumn = ModelColumn(
    name: string,
    columnName: string,
    tableName: string,
    columnType: Option<string>,
    isPrimary: bool,
    isNullable: bool,
    isDateTime: bool,
    foreignKeyTable: Option<string>,
    foreignKeyColumn: Option<string>)

  /** One model per table. Its names, table and columns are fixed at construction; the
      relationship extractor sets `isPivotTable`, and the builder fills in `relationships`
      and `imports`, which are only declared, so the constructor leaves them unspecified. */
  class Model {
    const name: string
    const fileName: string
    const tableName: string
    const columns: seq<ModelColumn>
    var relationships: seq<ModelRelationship>
    var imports: seq<string>
    var isPivotTable: bool

    constructor (inf: Inflector, name: string, columns: seq<ModelColumn>)
      ensures this.name == inf.modelName(name) && fileName == inf.modelFileName(name)
      ensures tableName == name && this.columns == columns
      ensures !isPivotTable
    {
      this.name := inf.modelName(name);
      this.fileName := inf.modelFileName(name);
      this.tableName := name;
      this.columns := columns;
      this.isPivotTable := false;
    }
  }

  /** What the extractor knows about one side of a relationship: `model` owns the
      definition, `foreignKeyModel` is the related model. `foreignKeyColumn` is absent only
      when a many-to-many finds no column on its related model. */
  datatype RelationMap = RelationMap(
    relationshipType: RelationshipType,
    model: Model,
    column: ModelColumn,
    foreignKeyModel: Model,
    foreignKeyColumn: Option<ModelColumn>,
    pivotColumnName: Option<string>,
    pivotTableName: Option<string>)

  /** One key of the decorator's options object, in insertion order. */
  datatype DecoratorOption = DecoratorOption(key: string, value: string)

  /** A rendered relationship definition (the extractor's `ModelRelationship`). */
  datatype ModelRelationship = ModelRelationship(
    relationshipType: RelationshipType,
    propertyName: string,
    modelName: string,
    relatedModelName: string,
    decoratorOptions: Option<seq<DecoratorOption>>,
    relationMap: RelationMap,
    decorator: string,
    property: string)
}
