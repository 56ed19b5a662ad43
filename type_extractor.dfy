/** The mapping from a raw database column type to the TypeScript type written into a model
    (`src/extractors/type_extractor.ts`). */
module TypeExtractor {
  import opened Basics
  import opened Strings

  // MySQL 8.0 and PostgreSQL 9.5 type names, grouped by the TypeScript type they map to.

  const MysqlStringTypes: set<string> :=
    {"CHAR", "VARCHAR", "BLOB", "TEXT", "TINYTEXT", "MEDIUMTEXT", "LONGTEXT", "ENUM", "SET"}
  const PgStringTypes: set<string> := {"CHARACTER", "CHAR", "CHARACTER VARYING", "VARCHAR", "TEXT", "UUID"}
  const DbStringTypes: set<string> := MysqlStringTypes + PgStringTypes

  const MysqlNumberTypes: set<string> :=
    {"INTEGER", "INT", "SMALLINT", "TINYINT", "MEDIUMINT", "BIGINT", "DECIMAL", "NUMERIC", "FLOAT", "DOUBLE"}
  const PgNumberTypes: set<string> :=
    {"SMALLINT", "INT2", "INTEGER", "INT", "INT4", "BIGINT", "INT8", "DECIMAL", "NUMERIC", "REAL",
     "DOUBLE PRECISION", "FLOAT8", "SMALLSERIAL", "SERIAL2", "SERIAL", "SERIAL4", "BIGSERIAL", "SERIAL8"}
  const DbNumberTypes: set<string> := MysqlNumberTypes + PgNumberTypes

  const MysqlDateTypes: set<string> := {"DATE", "TIME", "DATETIME", "TIMESTAMP", "YEAR"}
  const PgDateTypes: set<string> :=
    {"TIMESTAMP", "TIMESTAMPTZ", "TIMESTAMP WITH TIME ZONE", "DATE", "TIME", "TIMETZ", "TIME WITH TIMEZONE"}
  const DbDateTypes: set<string> := MysqlDateTypes + PgDateTypes

  const MysqlBinaryTypes: set<string> := {"BINARY", "VARBINARY"}
  const PgBinaryTypes: set<string> := {"BYTEA"}
  const DbBinaryTypes: set<string> := MysqlBinaryTypes + PgBinaryTypes

  const MysqlBooleanTypes: set<string> := {"BOOL", "BOOLEAN"}
  const PgBooleanTypes: set<string> := {"BOOLEAN"}
  const DbBooleanTypes: set<string> := MysqlBooleanTypes + PgBooleanTypes

  const MysqlJsonTypes: set<string> := {"JSON"}
  const PgJsonTypes: set<string> := {"JSON", "JSONB"}
  const DbJsonTypes: set<string> := MysqlJsonTypes + PgJsonTypes

  /** The nine texts the mapping can produce. */
  const TypeScriptTypes: set<string> :=
    {"string", "string[]", "number", "number[]", "DateTime", "Buffer", "boolean", "Record<string, any>", "unknown"}

  /** The lookup key: upper-cased, cut at the first `[]`, trimmed. */
  function NormalizedDbType(dbDataType: string): string {
    Trim(BeforeFirst(AsciiUpper(dbDataType), "[]"))
  }

  function ExtractColumnTypeScriptType(dbDataType: string): (r: string)
    ensures r in TypeScriptTypes
  {
    TypeForKey(NormalizedDbType(dbDataType), EndsWith(dbDataType, "[]"))
  }

  /** The tests of the six groups, in the order the source makes them. */
  function TypeForKey(normalizedDbType: string, isArray: bool): (r: string)
    ensures r in TypeScriptTypes
  {
    if normalizedDbType in DbStringTypes then (if isArray then "string[]" else "string")
    else if normalizedDbType in DbNumberTypes then (if isArray then "number[]" else "number")
    else if normalizedDbType in DbDateTypes then "DateTime"
    else if normalizedDbType in DbBinaryTypes then "Buffer"
    else if normalizedDbType in DbBooleanTypes then "boolean"
    else if normalizedDbType in DbJsonTypes then "Record<string, any>"
    else "unknown"
  }

  lemma StringNotNumber()
    ensures DbStringTypes !! DbNumberTypes
  {
    MysqlStringNotMysqlNumber();
    MysqlStringNotPgNumber();
    PgStringNotMysqlNumber();
    PgStringNotPgNumber();
  }

  lemma MysqlStringNotMysqlNumber()
    ensures MysqlStringTypes !! MysqlNumberTypes
  {
  }

  lemma MysqlStringNotPgNumber()
    ensures MysqlStringTypes !! PgNumberTypes
  {
  }

  lemma PgStringNotMysqlNumber()
    ensures PgStringTypes !! MysqlNumberTypes
  {
  }

  lemma PgStringNotPgNumber()
    ensures PgStringTypes !! PgNumberTypes
  {
  }

  lemma StringNotDate()
    ensures DbStringTypes !! DbDateTypes
  {
  }

  lemma StringNotBinary()
    ensures DbStringTypes !! DbBinaryTypes
  {
  }

  lemma StringNotBoolean()
    ensures DbStringTypes !! DbBooleanTypes
  {
  }

  lemma StringNotJson()
    ensures DbStringTypes !! DbJsonTypes
  {
  }

  lemma NumberNotDate()
    ensures DbNumberTypes !! DbDateTypes
  {
    MysqlNumberNotMysqlDate();
    MysqlNumberNotPgDate();
    PgNumberNotMysqlDate();
    PgNumberNotPgDate();
  }

  lemma MysqlNumberNotMysqlDate()
    ensures MysqlNumberTypes !! MysqlDateTypes
  {
  }

  lemma MysqlNumberNotPgDate()
    ensures MysqlNumberTypes !! PgDateTypes
  {
  }

  lemma PgNumberNotMysqlDate()
    ensures PgNumberTypes !! MysqlDateTypes
  {
  }

  lemma PgNumberNotPgDate()
    ensures PgNumberTypes !! PgDateTypes
  {
  }

  lemma NumberNotBinary()
    ensures DbNumberTypes !! DbBinaryTypes
  {
  }

  lemma NumberNotBoolean()
    ensures DbNumberTypes !! DbBooleanTypes
  {
  }

  lemma NumberNotJson()
    ensures DbNumberTypes !! DbJsonTypes
  {
  }

  lemma DateNotBinary()
    ensures DbDateTypes !! DbBinaryTypes
  {
  }

  lemma DateNotBoolean()
    ensures DbDateTypes !! DbBooleanTypes
  {
  }

  lemma DateNotJson()
    ensures DbDateTypes !! DbJsonTypes
  {
  }

  lemma BinaryNotBoolean()
    ensures DbBinaryTypes !! DbBooleanTypes
  {
  }

  lemma BinaryNotJson()
    ensures DbBinaryTypes !! DbJsonTypes
  {
  }

  lemma BooleanNotJson()
    ensures DbBooleanTypes !! DbJsonTypes
  {
  }

  /** No type name belongs to two groups. */
  lemma TypeSetsDisjoint()
    ensures DbStringTypes !! DbNumberTypes && DbStringTypes !! DbDateTypes
    ensures DbStringTypes !! DbBinaryTypes && DbStringTypes !! DbBooleanTypes && DbStringTypes !! DbJsonTypes
    ensures DbNumberTypes !! DbDateTypes && DbNumberTypes !! DbBinaryTypes
    ensures DbNumberTypes !! DbBooleanTypes && DbNumberTypes !! DbJsonTypes
    ensures DbDateTypes !! DbBinaryTypes && DbDateTypes !! DbBooleanTypes && DbDateTypes !! DbJsonTypes
    ensures DbBinaryTypes !! DbBooleanTypes && DbBinaryTypes !! DbJsonTypes
    ensures DbBooleanTypes !! DbJsonTypes
  {
    StringNotNumber();
    StringNotDate();
    StringNotBinary();
    StringNotBoolean();
    StringNotJson();
    NumberNotDate();
    NumberNotBinary();
    NumberNotBoolean();
    NumberNotJson();
    DateNotBinary();
    DateNotBoolean();
    DateNotJson();
    BinaryNotBoolean();
    BinaryNotJson();
    BooleanNotJson();
  }

  /** Each result is produced exactly when the key lies in its group, whichever order the
      groups are tested in; only the string and number groups look at the `[]` suffix. */
  lemma ExtractIffGroup(dbDataType: string)
    ensures var n, isArray, r := NormalizedDbType(dbDataType), EndsWith(dbDataType, "[]"), ExtractColumnTypeScriptType(dbDataType);
      && (r == "string" <==> n in DbStringTypes && !isArray)
      && (r == "string[]" <==> n in DbStringTypes && isArray)
      && (r == "number" <==> n in DbNumberTypes && !isArray)
      && (r == "number[]" <==> n in DbNumberTypes && isArray)
      && (r == "DateTime" <==> n in DbDateTypes)
      && (r == "Buffer" <==> n in DbBinaryTypes)
      && (r == "boolean" <==> n in DbBooleanTypes)
      && (r == "Record<string, any>" <==> n in DbJsonTypes)
      && (r == "unknown" <==> n !in DbStringTypes + DbNumberTypes + DbDateTypes + DbBinaryTypes + DbBooleanTypes + DbJsonTypes)
  {
    TypeSetsDisjoint();
  }

  lemma UpperCharKeepsBrackets(c: char)
    ensures UpperChar(c) == '[' <==> c == '['
    ensures UpperChar(c) == ']' <==> c == ']'
  {
  }

  /** Upper-casing ASCII letters changes neither the lookup key nor the `[]` suffix. */
  lemma SameKeyWhenSameUpper(s: string, t: string)
    requires AsciiUpper(s) == AsciiUpper(t)
    ensures NormalizedDbType(s) == NormalizedDbType(t)
    ensures EndsWith(s, "[]") == EndsWith(t, "[]")
  {
    SameBracketSuffix(s, t);
  }

  /** Upper-casing ASCII letters keeps `[` and `]`, so two texts with the same upper-cased
      form both end with `[]` or neither does. */
  lemma SameBracketSuffix(s: string, t: string)
    requires AsciiUpper(s) == AsciiUpper(t)
    ensures EndsWith(s, "[]") == EndsWith(t, "[]")
  {
    assert |s| == |t|;
    if |s| >= 2 {
      var u := AsciiUpper(s);
      assert u[|s| - 2] == UpperChar(s[|s| - 2]) == UpperChar(t[|t| - 2]);
      assert u[|s| - 1] == UpperChar(s[|s| - 1]) == UpperChar(t[|t| - 1]);
      UpperCharKeepsBrackets(s[|s| - 2]);
      UpperCharKeepsBrackets(t[|t| - 2]);
      UpperCharKeepsBrackets(s[|s| - 1]);
      UpperCharKeepsBrackets(t[|t| - 1]);
      assert EndsWith(s, "[]") <==> s[|s| - 2] == '[' && s[|s| - 1] == ']';
      assert EndsWith(t, "[]") <==> t[|t| - 2] == '[' && t[|t| - 1] == ']';
    }
  }

  /** The lookup ignores the case of ASCII letters. */
  lemma ExtractIgnoresCase(s: string, t: string)
    requires AsciiUpper(s) == AsciiUpper(t)
    ensures ExtractColumnTypeScriptType(s) == ExtractColumnTypeScriptType(t)
  {
    SameKeyWhenSameUpper(s, t);
  }

  /** `s` holds no `[]`. */
  predicate NoBrackets(s: string) {
    forall j: nat | j < |s| :: !OccursAt(s, "[]", j)
  }

  lemma UpperKeepsNoBrackets(s: string)
    requires NoBrackets(s)
    ensures NoBrackets(AsciiUpper(s))
  {
    forall j: nat | j < |s|
      ensures OccursAt(AsciiUpper(s), "[]", j) ==> OccursAt(s, "[]", j)
    {
      UpperBracketsAt(s, j);
    }
  }

  /** `[]` in the upper-cased text stands where `[]` stood before. */
  lemma UpperBracketsAt(s: string, j: nat)
    ensures OccursAt(AsciiUpper(s), "[]", j) ==> OccursAt(s, "[]", j)
  {
    var u := AsciiUpper(s);
    if OccursAt(u, "[]", j) {
      UpperCharKeepsBrackets(s[j]);
      UpperCharKeepsBrackets(s[j + 1]);
      assert u[j] == '[' && u[j + 1] == ']' by {
        assert u[j..j + 2] == "[]";
      }
      assert s[j..j + 2] == [s[j], s[j + 1]];
    }
  }

  lemma NoBracketsBefore(u: string, j: nat)
    requires NoBrackets(u) && j < |u|
    ensures !OccursAt(u + "[]", "[]", j)
  {
    var v := u + "[]";
    if j + 2 <= |u| {
      assert v[j..j + 2] == u[j..j + 2];
      assert !OccursAt(u, "[]", j);
    } else {
      assert j + 1 == |u| && v[j + 1] == '[';
    }
  }

  lemma FirstBracketsAtEnd(u: string)
    requires NoBrackets(u)
    ensures IndexOf(u + "[]", "[]") == Some(|u|)
  {
    BracketsAtEnd(u);
    NoBracketsBeforeEnd(u);
    FirstOccurrence(u + "[]", "[]", |u|);
  }

  lemma BracketsAtEnd(u: string)
    ensures OccursAt(u + "[]", "[]", |u|)
  {
    assert (u + "[]")[|u|..|u| + 2] == "[]";
  }

  lemma NoBracketsBeforeEnd(u: string)
    requires NoBrackets(u)
    ensures forall j: nat | j < |u| :: !OccursAt(u + "[]", "[]", j)
  {
    forall j: nat | j < |u|
      ensures !OccursAt(u + "[]", "[]", j)
    {
      NoBracketsBefore(u, j);
    }
  }

  /** Appending `[]` to a type without brackets keeps the lookup key. */
  lemma NormalizedArraySuffix(s: string)
    requires NoBrackets(s)
    ensures NormalizedDbType(s + "[]") == NormalizedDbType(s)
  {
    var u := AsciiUpper(s);
    assert AsciiUpper(s + "[]") == u + "[]";
    UpperKeepsNoBrackets(s);
    FirstBracketsAtEnd(u);
    assert BeforeFirst(u + "[]", "[]") == (u + "[]")[..|u|];
    assert (u + "[]")[..|u|] == u;
  }

  /** The result for an array column: `[]` marks the string and number types as arrays and
      leaves every other result as it is. */
  lemma ExtractArrayOf(s: string)
    requires NoBrackets(s)
    ensures var r, ra := ExtractColumnTypeScriptType(s), ExtractColumnTypeScriptType(s + "[]");
      ra == (if r == "string" then "string[]" else if r == "number" then "number[]" else r)
  {
    NormalizedArraySuffix(s);
    ArraySuffixFlags(s);
    ArrayFlagMarks(NormalizedDbType(s));
  }

  /** The array flag only marks the string and number results. */
  lemma ArrayFlagMarks(key: string)
    ensures var r := TypeForKey(key, false);
      TypeForKey(key, true) == (if r == "string" then "string[]" else if r == "number" then "number[]" else r)
  {
    if key !in DbStringTypes && key !in DbNumberTypes {
      var r := TypeForKey(key, false);
      assert r in {"DateTime", "Buffer", "boolean", "Record<string, any>", "unknown"};
      assert r != "string" && r != "number";
    }
  }

  lemma ArraySuffixFlags(s: string)
    requires NoBrackets(s)
    ensures EndsWith(s + "[]", "[]") && !EndsWith(s, "[]")
  {
    assert (s + "[]")[|s + "[]"| - 2..] == "[]";
    if EndsWith(s, "[]") {
      assert OccursAt(s, "[]", |s| - 2);
    }
  }
}
