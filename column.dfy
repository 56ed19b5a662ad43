/** The column classifier (`src/model/column.ts`): what a model column derives from the
    inspector's record, and whether it is an identifier-style column. `getRelationship`
    builds a parent/child relationship and lives with it in module RelationshipModel. */
module Column {
  import opened Basics
  import opened Strings
  import opened Inflection
  import opened Entities

  /** A raw data type is a date-time when it contains `timestamp` or is exactly `date`;
      the test is case-sensitive. */
  function IsDateTimeType(dataType: string): (b: bool)
    ensures b <==> (exists i: nat :: OccursAt(dataType, "timestamp", i)) || dataType == "date"
  {
    IncludesIff(dataType, "timestamp");
    Includes(dataType, "timestamp") || dataType == "date"
  }

  /** The constructor: the name is camel-cased, the other facts are copied as they are,
      and the `type` field is left unassigned. */
  function FromInfo(inf: Inflector, info: ColumnInfo): (c: ModelColumn)
    ensures c.name == inf.camelCase(info.name)
    ensures c.columnName == info.name && c.tableName == info.table
    ensures c.isPrimary == info.isPrimaryKey && c.isNullable == info.isNullable
    ensures c.foreignKeyTable == info.foreignKeyTable && c.foreignKeyColumn == info.foreignKeyColumn
    ensures c.columnType == None
    ensures c.isDateTime <==> (exists i: nat :: OccursAt(info.dataType, "timestamp", i)) || info.dataType == "date"
  {
    ModelColumn(
      name := inf.camelCase(info.name),
      columnName := info.name,
      tableName := info.table,
      columnType := None,
      isPrimary := info.isPrimaryKey,
      isNullable := info.isNullable,
      isDateTime := IsDateTimeType(info.dataType),
      foreignKeyTable := info.foreignKeyTable,
      foreignKeyColumn := info.foreignKeyColumn)
  }

  /** `isIdColumn`: the raw column name ends with `_id`. */
  function IsIdColumn(c: ModelColumn): (b: bool)
    ensures b <==> exists head: string :: c.columnName == head + "_id"
  {
    EndsWithIff(c.columnName, "_id");
    EndsWith(c.columnName, "_id")
  }

  /** The test is case-sensitive: a type without lower-case ASCII letters, such as
      `TIMESTAMP` or `DATE`, is never a date-time type. */
  lemma DateTimeIsCaseSensitive(s: string)
    requires forall j | 0 <= j < |s| :: !('a' <= s[j] <= 'z')
    ensures !IsDateTimeType(s)
  {
    forall i: nat
      ensures !OccursAt(s, "timestamp", i)
    {
      TimestampStartsLower(s, i);
    }
    if |s| > 0 {
      assert s[0] != 'd';
    }
  }

  /** An occurrence of `timestamp` starts with a lower-case letter. */
  lemma TimestampStartsLower(s: string, i: nat)
    ensures OccursAt(s, "timestamp", i) ==> i < |s| && s[i] == 't'
  {
    if OccursAt(s, "timestamp", i) {
      assert s[i] == s[i..i + 9][0];
    }
  }
}
