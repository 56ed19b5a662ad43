/** The import merger (`src/extractors/import_extractor.ts`): the imports a model file needs,
    deduplicated by `name@namespace`, grouped by namespace and rendered as statements. */
module ImportExtractor {
  import opened Basics
  import opened Strings
  import opened Inflection
  import opened RelationshipTypes
  import opened Entities

  /** One imported name. */
  datatype ModelImport = ModelImport(name: string, namespace: string, isDefault: bool, isType: bool)

  /** The constructor: an absent (`null`) flag stays `false`. */
  function NewImport(name: string, namespace: string, isDefault: Option<bool>, isType: Option<bool>): (r: ModelImport)
    ensures r.name == name && r.namespace == namespace
    ensures r.isDefault <==> isDefault == Some(true)
    ensures r.isType <==> isType == Some(true)
  {
    ModelImport(name, namespace, isDefault.GetOr(false), isType.GetOr(false))
  }

  /** `#getName`: the key an import is stored under. */
  function Key(i: ModelImport): string {
    i.name + "@" + i.namespace
  }

  /** Names without `@` give different keys to different name and namespace pairs. */
  lemma KeyInjectiveWithoutAt(a: ModelImport, b: ModelImport)
    requires '@' !in a.name && '@' !in b.name
    ensures Key(a) == Key(b) <==> a.name == b.name && a.namespace == b.namespace
  {
    KeyLayout(a);
    KeyLayout(b);
  }

  /** The key holds the name, then `@` at its length, then the namespace. */
  lemma KeyLayout(i: ModelImport)
    ensures |Key(i)| == |i.name| + 1 + |i.namespace| && Key(i)[|i.name|] == '@'
    ensures Key(i)[..|i.name|] == i.name && Key(i)[|i.name| + 1..] == i.namespace
    ensures forall j | 0 <= j < |i.name| :: Key(i)[j] == i.name[j]
  {
  }

  // ---------------------------------------------------------------------------------
  // What `add` does to the stored imports, in insertion order.

  /** The first position of `entries` stored under `key`. */
  function KeyIndex(entries: seq<ModelImport>, key: string): (r: Option<nat>)
    ensures r.Some? ==> r.value < |entries| && Key(entries[r.value]) == key
    ensures r.Some? ==> forall j | 0 <= j < r.value :: Key(entries[j]) != key
    ensures r.None? <==> forall j | 0 <= j < |entries| :: Key(entries[j]) != key
  {
    if |entries| == 0 then None
    else if Key(entries[0]) == key then Some(0)
    else
      match KeyIndex(entries[1..], key)
      case None => None
      case Some(k) => Some(k + 1)
  }

  /** `add`: a new key is appended; for a known key the stored import stays where it is, and
      a request that is not type-only clears its `isType`. */
  function Merge(entries: seq<ModelImport>, value: ModelImport): (r: seq<ModelImport>)
    ensures |r| == |entries| + (if KeyIndex(entries, Key(value)).None? then 1 else 0)
    ensures forall j | 0 <= j < |entries| :: r[j].(isType := entries[j].isType) == entries[j]
    ensures forall j | 0 <= j < |entries| :: r[j].isType ==> entries[j].isType
    ensures |r| > |entries| ==> r[|entries|] == value
    ensures KeyIndex(entries, Key(value)).Some? ==>
              var i := KeyIndex(entries, Key(value)).value;
              && r[i] == entries[i].(isType := entries[i].isType && value.isType)
              && forall j | 0 <= j < |entries| && j != i :: r[j] == entries[j]
    ensures KeyIndex(entries, Key(value)).None? ==> forall j | 0 <= j < |entries| :: r[j] == entries[j]
  {
    match KeyIndex(entries, Key(value))
    case None => entries + [value]
    case Some(i) => entries[i := entries[i].(isType := entries[i].isType && value.isType)]
  }

  /** `adds`, one `add` after the other, starting from `entries`. */
  function MergeAll(entries: seq<ModelImport>, adds: seq<ModelImport>): seq<ModelImport> {
    if |adds| == 0 then entries else Merge(MergeAll(entries, adds[..|adds| - 1]), adds[|adds| - 1])
  }

  /** No two entries share a key. */
  predicate KeysDistinct(entries: seq<ModelImport>) {
    forall i, j | 0 <= i < j < |entries| :: Key(entries[i]) != Key(entries[j])
  }

  /** `add` keeps one entry per key, and a key is stored once it has been added. */
  lemma MergeKeepsKeysDistinct(entries: seq<ModelImport>, value: ModelImport)
    requires KeysDistinct(entries)
    ensures KeysDistinct(Merge(entries, value))
    ensures KeyIndex(Merge(entries, value), Key(value)).Some?
  {
    var merged := Merge(entries, value);
    if KeyIndex(entries, Key(value)).None? {
      assert Key(merged[|entries|]) == Key(value);
    } else {
      var i := KeyIndex(entries, Key(value)).value;
      assert forall j | 0 <= j < |merged| :: Key(merged[j]) == Key(entries[j]);
    }
  }

  /** Whether every add stored under `key` was type-only. */
  predicate AllTypeOnly(adds: seq<ModelImport>, key: string) {
    forall j | 0 <= j < |adds| && Key(adds[j]) == key :: adds[j].isType
  }

  /** After any sequence of adds into an empty manager, a key is stored exactly when it was
      added, its entry is the first import added under it except for `isType`, and `isType`
      holds exactly when every add under that key was type-only. */
  lemma {:induction false} MergeAllEntry(adds: seq<ModelImport>, key: string)
    ensures KeysDistinct(MergeAll([], adds))
    ensures KeyIndex(MergeAll([], adds), key).Some? <==> KeyIndex(adds, key).Some?
    ensures KeyIndex(adds, key).Some? ==>
              var entry := MergeAll([], adds)[KeyIndex(MergeAll([], adds), key).value];
              var first := adds[KeyIndex(adds, key).value];
              entry == first.(isType := AllTypeOnly(adds, key))
  {
    if |adds| > 0 {
      var init := adds[..|adds| - 1];
      var last := adds[|adds| - 1];
      var before := MergeAll([], init);
      assert adds == init + [last];
      assert MergeAll([], adds) == Merge(before, last);
      MergeAllEntry(init, key);
      MergeKeepsKeysDistinct(before, last);
      MergeEntryStep(before, last, key);
      KeyIndexSnoc(init, last, key);
      AllTypeOnlySnoc(init, last, key);
    }
  }

  /** How one `add` changes the entry stored under `key`. */
  lemma MergeEntryStep(entries: seq<ModelImport>, value: ModelImport, key: string)
    requires KeysDistinct(entries)
    ensures Key(value) == key ==> KeyIndex(Merge(entries, value), key).Some?
    ensures Key(value) != key ==> KeyIndex(Merge(entries, value), key) == KeyIndex(entries, key)
    ensures Key(value) != key && KeyIndex(entries, key).Some? ==>
              Merge(entries, value)[KeyIndex(Merge(entries, value), key).value] == entries[KeyIndex(entries, key).value]
    ensures Key(value) == key && KeyIndex(entries, key).None? ==>
              Merge(entries, value)[KeyIndex(Merge(entries, value), key).value] == value
    ensures Key(value) == key && KeyIndex(entries, key).Some? ==>
              var prior := entries[KeyIndex(entries, key).value];
              Merge(entries, value)[KeyIndex(Merge(entries, value), key).value] == prior.(isType := prior.isType && value.isType)
  {
    var merged := Merge(entries, value);
    MergeKeepsKeysDistinct(entries, value);
    if KeyIndex(entries, Key(value)).None? {
      assert merged[..|entries|] == entries;
      if KeyIndex(entries, key).Some? {
        KeyIndexAt(merged, key, KeyIndex(entries, key).value);
      } else if Key(value) == key {
        KeyIndexAt(merged, key, |entries|);
      } else {
        assert forall j | 0 <= j < |merged| :: Key(merged[j]) != key;
      }
    } else {
      var i := KeyIndex(entries, Key(value)).value;
      assert forall j | 0 <= j < |merged| :: Key(merged[j]) == Key(entries[j]);
      if KeyIndex(entries, key).Some? {
        KeyIndexAt(merged, key, KeyIndex(entries, key).value);
      }
    }
  }

  /** The position `KeyIndex` reports is the first one with that key. */
  lemma KeyIndexAt(entries: seq<ModelImport>, key: string, i: nat)
    requires i < |entries| && Key(entries[i]) == key
    requires forall j | 0 <= j < i :: Key(entries[j]) != key
    ensures KeyIndex(entries, key) == Some(i)
  {
  }

  /** Looking a key up in a longer list of adds. */
  lemma KeyIndexSnoc(adds: seq<ModelImport>, last: ModelImport, key: string)
    ensures KeyIndex(adds, key).Some? ==> KeyIndex(adds + [last], key) == KeyIndex(adds, key)
    ensures KeyIndex(adds, key).None? && Key(last) == key ==> KeyIndex(adds + [last], key) == Some(|adds|)
    ensures KeyIndex(adds, key).None? && Key(last) != key ==> KeyIndex(adds + [last], key).None?
  {
    var all := adds + [last];
    if KeyIndex(adds, key).Some? {
      KeyIndexAt(all, key, KeyIndex(adds, key).value);
    } else if Key(last) == key {
      KeyIndexAt(all, key, |adds|);
    } else {
      assert forall j | 0 <= j < |all| :: Key(all[j]) != key;
    }
  }

  lemma AllTypeOnlySnoc(adds: seq<ModelImport>, last: ModelImport, key: string)
    ensures AllTypeOnly(adds + [last], key) <==> AllTypeOnly(adds, key) && (Key(last) == key ==> last.isType)
  {
    var all := adds + [last];
    if AllTypeOnly(adds, key) && (Key(last) == key ==> last.isType) {
      forall j | 0 <= j < |all| && Key(all[j]) == key
        ensures all[j].isType
      {
        if j < |adds| {
          assert all[j] == adds[j];
        }
      }
    }
    if AllTypeOnly(all, key) {
      forall j | 0 <= j < |adds| && Key(adds[j]) == key
        ensures adds[j].isType
      {
        assert all[j] == adds[j];
      }
      assert all[|adds|] == last;
    }
  }

  // ---------------------------------------------------------------------------------
  // `#getNamespaceGroups` and `getStatements`

  /** The imports of one namespace, in add order. */
  datatype Group = Group(namespace: string, items: seq<ModelImport>)

  /** The first group of `namespace`. */
  function GroupIndex(groups: seq<Group>, namespace: string): (r: Option<nat>)
    ensures r.Some? ==> r.value < |groups| && groups[r.value].namespace == namespace
    ensures r.Some? ==> forall j | 0 <= j < r.value :: groups[j].namespace != namespace
    ensures r.None? <==> forall j | 0 <= j < |groups| :: groups[j].namespace != namespace
  {
    if |groups| == 0 then None
    else if groups[0].namespace == namespace then Some(0)
    else
      match GroupIndex(groups[1..], namespace)
      case None => None
      case Some(k) => Some(k + 1)
  }

  /** One step of the reduce: push onto the namespace's group, opening it if need be. */
  function AddToGroups(groups: seq<Group>, imp: ModelImport): seq<Group> {
    match GroupIndex(groups, imp.namespace)
    case None => groups + [Group(imp.namespace, [imp])]
    case Some(i) => groups[i := groups[i].(items := groups[i].items + [imp])]
  }

  /** The groups of `imports`, in the order their namespaces first occur. */
  function Groups(imports: seq<ModelImport>): (r: seq<Group>)
    ensures forall g | g in r :: g.items != []
  {
    if |imports| == 0 then [] else AddToGroups(Groups(imports[..|imports| - 1]), imports[|imports| - 1])
  }

  /** The imports of `namespace`, in order. */
  function InNamespace(imports: seq<ModelImport>, namespace: string): (r: seq<ModelImport>)
    ensures forall x | x in r :: x in imports && x.namespace == namespace
  {
    if |imports| == 0 then []
    else
      var front := InNamespace(imports[..|imports| - 1], namespace);
      if imports[|imports| - 1].namespace == namespace then front + [imports[|imports| - 1]] else front
  }

  /** What one step of the reduce does: namespaces already grouped stay grouped and keep
      their place, the import's namespace gets a group, and only that group grows, by the
      import at its end. */
  lemma AddToGroupsStep(groups: seq<Group>, imp: ModelImport)
    requires forall i, j | 0 <= i < j < |groups| :: groups[i].namespace != groups[j].namespace
    ensures var after := AddToGroups(groups, imp);
      && |groups| <= |after| <= |groups| + 1
      && GroupIndex(after, imp.namespace).Some?
      && (forall k | 0 <= k < |groups| :: after[k].namespace == groups[k].namespace)
      && (forall k | 0 <= k < |groups| && groups[k].namespace != imp.namespace :: after[k] == groups[k])
      && (forall k | 0 <= k < |after| && after[k].namespace == imp.namespace ::
            after[k].items == (if k < |groups| then groups[k].items else []) + [imp])
      && (|after| == |groups| + 1 ==> GroupIndex(groups, imp.namespace).None? && after[|groups|].namespace == imp.namespace)
  {
    var after := AddToGroups(groups, imp);
    if GroupIndex(groups, imp.namespace).None? {
      assert after[|groups|].namespace == imp.namespace;
    } else {
      var i := GroupIndex(groups, imp.namespace).value;
      assert after[i].namespace == imp.namespace;
    }
  }

  /** No two groups share a namespace. */
  lemma {:induction false} GroupsDistinct(imports: seq<ModelImport>)
    ensures forall i, j | 0 <= i < j < |Groups(imports)| :: Groups(imports)[i].namespace != Groups(imports)[j].namespace
  {
    if |imports| > 0 {
      var before := Groups(imports[..|imports| - 1]);
      var last := imports[|imports| - 1];
      GroupsDistinct(imports[..|imports| - 1]);
      AddToGroupsStep(before, last);
    }
  }

  /** Every import's namespace has a group. */
  lemma {:induction false} GroupsCover(imports: seq<ModelImport>)
    ensures forall x | x in imports :: GroupIndex(Groups(imports), x.namespace).Some?
  {
    if |imports| > 0 {
      var init := imports[..|imports| - 1];
      var last := imports[|imports| - 1];
      var before := Groups(init);
      var after := Groups(imports);
      GroupsCover(init);
      GroupsDistinct(init);
      AddToGroupsStep(before, last);
      forall x | x in imports
        ensures GroupIndex(after, x.namespace).Some?
      {
        if x != last {
          assert x in init;
          var i := GroupIndex(before, x.namespace).value;
          assert after[i].namespace == x.namespace;
        }
      }
    }
  }

  /** Each group holds exactly the imports of its namespace, in add order. */
  lemma {:induction false} GroupsItems(imports: seq<ModelImport>)
    ensures forall g | g in Groups(imports) :: g.items == InNamespace(imports, g.namespace)
  {
    if |imports| > 0 {
      var init := imports[..|imports| - 1];
      var last := imports[|imports| - 1];
      var before := Groups(init);
      var after := Groups(imports);
      GroupsItems(init);
      GroupsCover(init);
      GroupsDistinct(init);
      AddToGroupsStep(before, last);
      forall g | g in after
        ensures g.items == InNamespace(imports, g.namespace)
      {
        var k :| 0 <= k < |after| && after[k] == g;
        if k < |before| {
          assert before[k] in before;
        } else {
          forall x | x in init
            ensures x.namespace != last.namespace
          {
          }
          InNamespaceEmpty(init, last.namespace);
        }
      }
    }
  }

  /** The grouping is a partition: one group per namespace that occurs, each holding exactly
      the imports of that namespace in add order. */
  lemma GroupsPartition(imports: seq<ModelImport>)
    ensures forall i, j | 0 <= i < j < |Groups(imports)| :: Groups(imports)[i].namespace != Groups(imports)[j].namespace
    ensures forall g | g in Groups(imports) :: g.items == InNamespace(imports, g.namespace)
    ensures forall x | x in imports :: GroupIndex(Groups(imports), x.namespace).Some?
  {
    GroupsDistinct(imports);
    GroupsItems(imports);
    GroupsCover(imports);
  }

  lemma {:induction false} InNamespaceEmpty(imports: seq<ModelImport>, namespace: string)
    requires forall x | x in imports :: x.namespace != namespace
    ensures InNamespace(imports, namespace) == []
  {
    if |imports| > 0 {
      assert imports[|imports| - 1] in imports;
      InNamespaceEmpty(imports[..|imports| - 1], namespace);
    }
  }

  /** `#getNamespaceGroups`. */
  method GetNamespaceGroups(imports: seq<ModelImport>) returns (groups: seq<Group>)
    ensures groups == Groups(imports)
  {
    groups := [];
    var k := 0;
    while k < |imports|
      invariant 0 <= k <= |imports|
      invariant groups == Groups(imports[..k])
    {
      var imp := imports[k];
      assert imports[..k + 1][..k] == imports[..k];
      var i := 0;
      while i < |groups| && groups[i].namespace != imp.namespace
        invariant 0 <= i <= |groups|
        invariant forall j | 0 <= j < i :: groups[j].namespace != imp.namespace
      {
        i := i + 1;
      }
      if i == |groups| {
        groups := groups + [Group(imp.namespace, [imp])];
      } else {
        GroupIndexAt(groups, imp.namespace, i);
        groups := groups[i := groups[i].(items := groups[i].items + [imp])];
      }
      k := k + 1;
    }
    assert imports[..k] == imports;
  }

  lemma GroupIndexAt(groups: seq<Group>, namespace: string, i: nat)
    requires i < |groups| && groups[i].namespace == namespace
    requires forall j | 0 <= j < i :: groups[j].namespace != namespace
    ensures GroupIndex(groups, namespace) == Some(i)
  {
  }

  /** The name of the first default import, if any. */
  function DefaultName(items: seq<ModelImport>): (r: Option<string>)
    ensures r.Some? <==> exists x | x in items :: x.isDefault
    ensures r.Some? ==> exists k | 0 <= k < |items| ::
              items[k].isDefault && items[k].name == r.value && forall j | 0 <= j < k :: !items[j].isDefault
  {
    if |items| == 0 then None
    else if items[0].isDefault then Some(items[0].name)
    else
      var rest := DefaultName(items[1..]);
      if rest.Some? then
        var k :| 0 <= k < |items| - 1 && items[1..][k].isDefault && items[1..][k].name == rest.value
                 && forall j | 0 <= j < k :: !items[1..][j].isDefault;
        assert forall j | 0 <= j < k + 1 :: !items[j].isDefault by {
          forall j | 0 <= j < k + 1 ensures !items[j].isDefault {
            if j > 0 { assert items[j] == items[1..][j - 1]; }
          }
        }
        rest
      else rest
  }

  /** The names of the non-default imports, in order. */
  function NamedImports(items: seq<ModelImport>): (r: seq<string>)
    ensures |r| <= |items|
  {
    if |items| == 0 then []
    else (if items[0].isDefault then [] else [items[0].name]) + NamedImports(items[1..])
  }

  /** The names part of a statement: the default import's name, then the named imports in
      braces, each left out when empty, separated by a comma. */
  function ImportedNames(items: seq<ModelImport>): string {
    var named := Join(NamedImports(items), ", ");
    var parts := (if DefaultName(items).Some? && DefaultName(items).value != "" then [DefaultName(items).value] else [])
                 + (if named != "" then ["{ " + named + " }"] else []);
    Join(parts, ", ")
  }

  /** One statement of `getStatements`. */
  function Statement(g: Group): string
    requires g.items != []
  {
    "import" + (if g.items[0].isType then " type" else "") + " " + ImportedNames(g.items) + " from '" + g.items[0].namespace + "'"
  }

  /** A type-only first import makes the statement an `import type`; otherwise the names
      follow `import` directly. The statement ends with the group's namespace. */
  lemma StatementShape(g: Group)
    requires g.items != []
    ensures g.items[0].isType ==> StartsWith(Statement(g), "import type ")
    ensures !g.items[0].isType ==> StartsWith(Statement(g), "import " + ImportedNames(g.items) + " from '")
    ensures EndsWith(Statement(g), " from '" + g.items[0].namespace + "'")
  {
    if g.items[0].isType {
      TypeStatementPrefix(g);
    } else {
      ValueStatementPrefix(g);
    }
    StatementSuffix(g);
  }

  lemma TypeStatementPrefix(g: Group)
    requires g.items != [] && g.items[0].isType
    ensures StartsWith(Statement(g), "import type ")
  {
    var s := Statement(g);
    assert s == "import type " + (ImportedNames(g.items) + " from '" + g.items[0].namespace + "'");
    assert s[..12] == "import type ";
  }

  lemma ValueStatementPrefix(g: Group)
    requires g.items != [] && !g.items[0].isType
    ensures StartsWith(Statement(g), "import " + ImportedNames(g.items) + " from '")
  {
    var s := Statement(g);
    var p := "import " + ImportedNames(g.items) + " from '";
    assert s == p + (g.items[0].namespace + "'");
    assert s[..|p|] == p;
  }

  lemma StatementSuffix(g: Group)
    requires g.items != []
    ensures EndsWith(Statement(g), " from '" + g.items[0].namespace + "'")
  {
    var s := Statement(g);
    var t := " from '" + g.items[0].namespace + "'";
    assert s == ("import" + (if g.items[0].isType then " type" else "") + " " + ImportedNames(g.items)) + t;
    assert s[|s| - |t|..] == t;
  }

  /** A group with a default import and named imports renders as
      `import Default, { a, b } from '…'`. */
  lemma NamesShape(items: seq<ModelImport>)
    requires DefaultName(items).Some? && DefaultName(items).value != ""
    requires Join(NamedImports(items), ", ") != ""
    ensures ImportedNames(items) == DefaultName(items).value + ", { " + Join(NamedImports(items), ", ") + " }"
  {
    var parts := [DefaultName(items).value] + ["{ " + Join(NamedImports(items), ", ") + " }"];
    assert parts == [DefaultName(items).value, "{ " + Join(NamedImports(items), ", ") + " }"];
    JoinSnoc([DefaultName(items).value], "{ " + Join(NamedImports(items), ", ") + " }", ", ");
    assert [DefaultName(items).value] + ["{ " + Join(NamedImports(items), ", ") + " }"] == parts;
  }

  /** The statements of a list of groups. */
  function Statements(groups: seq<Group>): (r: seq<string>)
    requires forall g | g in groups :: g.items != []
    ensures |r| == |groups|
    ensures forall i | 0 <= i < |groups| :: r[i] == Statement(groups[i])
  {
    if |groups| == 0 then [] else [Statement(groups[0])] + Statements(groups[1..])
  }

  /** `getStatements`: one statement per namespace, in the order namespaces first occur. */
  method GetStatements(imports: seq<ModelImport>) returns (r: seq<string>)
    ensures r == Statements(Groups(imports))
  {
    var groups := GetNamespaceGroups(imports);
    r := Statements(groups);
  }

  // ---------------------------------------------------------------------------------
  // `extract`

  const Orm := "@adonisjs/lucid/orm"
  const Relations := "@adonisjs/lucid/types/relations"

  /** The `add` for one column. */
  function ColumnRequests(columns: seq<ModelColumn>): seq<ModelImport> {
    if |columns| == 0 then []
    else
      ColumnRequests(columns[..|columns| - 1])
      + (if columns[|columns| - 1].columnType == Some("DateTime") then [NewImport("DateTime", "luxon", None, None)] else [])
  }

  /** The adds for one relationship definition. */
  function RelationshipRequests(inf: Inflector, modelName: string, d: ModelRelationship): seq<ModelImport> {
    (if d.relatedModelName != modelName
     then [NewImport(d.relatedModelName, "./" + inf.snakeCase(d.relatedModelName) + ".js", Some(true), None)]
     else [])
    + [NewImport(Value(d.relationshipType), Orm, None, None),
       NewImport(inf.pascalCase(Value(d.relationshipType)), Relations, Some(false), Some(true))]
  }

  function DefinitionsRequests(inf: Inflector, modelName: string, ds: seq<ModelRelationship>): seq<ModelImport> {
    if |ds| == 0 then []
    else DefinitionsRequests(inf, modelName, ds[..|ds| - 1]) + RelationshipRequests(inf, modelName, ds[|ds| - 1])
  }

  /** Every `add` that `extract` makes for a model with this name, these columns and these
      relationship definitions, in order. */
  function Requests(inf: Inflector, modelName: string, columns: seq<ModelColumn>, ds: seq<ModelRelationship>): seq<ModelImport> {
    [NewImport("BaseModel", Orm, None, None), NewImport("column", Orm, None, None)]
    + ColumnRequests(columns) + DefinitionsRequests(inf, modelName, ds)
  }

  /** `extract` asks first for `BaseModel` and `column`, and for every relationship
      definition its decorator, its relation type and, unless it points back at the model
      itself, the related model. */
  lemma RequestsCover(inf: Inflector, modelName: string, columns: seq<ModelColumn>, ds: seq<ModelRelationship>)
    ensures var r := Requests(inf, modelName, columns, ds);
      && |r| >= 2 && r[0] == NewImport("BaseModel", Orm, None, None) && r[1] == NewImport("column", Orm, None, None)
      && (forall d | d in ds ::
            && NewImport(Value(d.relationshipType), Orm, None, None) in r
            && NewImport(inf.pascalCase(Value(d.relationshipType)), Relations, Some(false), Some(true)) in r)
      && (forall d | d in ds && d.relatedModelName != modelName ::
            NewImport(d.relatedModelName, "./" + inf.snakeCase(d.relatedModelName) + ".js", Some(true), None) in r)
  {
    DefinitionsRequestsCover(inf, modelName, ds);
    var front := [NewImport("BaseModel", Orm, None, None), NewImport("column", Orm, None, None)] + ColumnRequests(columns);
    assert Requests(inf, modelName, columns, ds) == front + DefinitionsRequests(inf, modelName, ds);
  }

  lemma {:induction false} DefinitionsRequestsCover(inf: Inflector, modelName: string, ds: seq<ModelRelationship>)
    ensures forall d | d in ds ::
              && NewImport(Value(d.relationshipType), Orm, None, None) in DefinitionsRequests(inf, modelName, ds)
              && NewImport(inf.pascalCase(Value(d.relationshipType)), Relations, Some(false), Some(true)) in DefinitionsRequests(inf, modelName, ds)
    ensures forall d | d in ds && d.relatedModelName != modelName ::
              NewImport(d.relatedModelName, "./" + inf.snakeCase(d.relatedModelName) + ".js", Some(true), None) in DefinitionsRequests(inf, modelName, ds)
  {
    if |ds| > 0 {
      var init := ds[..|ds| - 1];
      DefinitionsRequestsCover(inf, modelName, init);
      assert forall d | d in ds :: d in init || d == ds[|ds| - 1];
    }
  }

  /** `DateTime` is requested exactly when a column's `type` is `DateTime`. */
  lemma {:induction false} ColumnRequestsDateTime(columns: seq<ModelColumn>)
    ensures (exists x | x in ColumnRequests(columns) :: x.namespace == "luxon") <==>
            exists c | c in columns :: c.columnType == Some("DateTime")
    ensures forall x | x in ColumnRequests(columns) :: x == NewImport("DateTime", "luxon", None, None)
  {
    if |columns| > 0 {
      var init := columns[..|columns| - 1];
      var last := columns[|columns| - 1];
      ColumnRequestsDateTime(init);
      assert columns == init + [last];
      var extra := if last.columnType == Some("DateTime") then [NewImport("DateTime", "luxon", None, None)] else [];
      assert ColumnRequests(columns) == ColumnRequests(init) + extra;
      if exists c | c in columns :: c.columnType == Some("DateTime") {
        var c :| c in columns && c.columnType == Some("DateTime");
        if c != last {
          assert c in init;
        } else {
          assert extra[0] in ColumnRequests(columns);
        }
      }
    }
  }

  /** The relationship adds never use the `luxon` namespace. */
  lemma {:induction false} DefinitionsRequestsNotLuxon(inf: Inflector, modelName: string, ds: seq<ModelRelationship>)
    ensures forall x | x in DefinitionsRequests(inf, modelName, ds) :: x.namespace != "luxon"
  {
    if |ds| > 0 {
      DefinitionsRequestsNotLuxon(inf, modelName, ds[..|ds| - 1]);
      var last := ds[|ds| - 1];
      assert "./" + inf.snakeCase(last.relatedModelName) + ".js" != "luxon" by {
        assert ("./" + inf.snakeCase(last.relatedModelName) + ".js")[0] == '.';
      }
    }
  }

  /** Every relationship import of a related model is a default import from its file, and
      a model never imports itself. */
  lemma {:induction false} DefinitionsRequestsNoSelfImport(inf: Inflector, modelName: string, ds: seq<ModelRelationship>)
    ensures forall x | x in DefinitionsRequests(inf, modelName, ds) && x.isDefault ::
              x.name != modelName && x.namespace == "./" + inf.snakeCase(x.name) + ".js" && !x.isType
  {
    if |ds| > 0 {
      DefinitionsRequestsNoSelfImport(inf, modelName, ds[..|ds| - 1]);
    }
  }

  /** The `column.type` quirk: a column built from an inspector record never has a `type`,
      so no model built that way imports `DateTime` from `luxon`, whatever its date columns. */
  lemma NeverImportsLuxon(inf: Inflector, modelName: string, columns: seq<ModelColumn>, ds: seq<ModelRelationship>)
    requires forall c | c in columns :: c.columnType.None?
    ensures forall x | x in Requests(inf, modelName, columns, ds) :: x.namespace != "luxon"
  {
    ColumnRequestsDateTime(columns);
    DefinitionsRequestsNotLuxon(inf, modelName, ds);
  }

  // ---------------------------------------------------------------------------------
  // `ModelImportManager`

  /** The imports `keys` names, in that order. */
  function Lookup(keys: seq<string>, entries: map<string, ModelImport>): (r: seq<ModelImport>)
    requires forall k | k in keys :: k in entries
    ensures |r| == |keys|
    ensures forall i | 0 <= i < |keys| :: r[i] == entries[keys[i]]
  {
    if |keys| == 0 then [] else Lookup(keys[..|keys| - 1], entries) + [entries[keys[|keys| - 1]]]
  }

  class ModelImportManager {
    /** The keys of `#imports` in insertion order, and the stored imports. */
    var keys: seq<string>
    var entries: map<string, ModelImport>

    ghost predicate Valid()
      reads this
    {
      WellKeyed(keys, entries)
    }

    /** The stored imports, in the order their keys were first added. */
    function Values(): seq<ModelImport>
      requires Valid()
      reads this
    {
      Lookup(keys, entries)
    }

    constructor ()
      ensures Valid() && Values() == []
    {
      keys := [];
      entries := map[];
    }

    /** `add`. */
    method Add(value: ModelImport)
      requires Valid()
      modifies this
      ensures Valid()
      ensures Values() == Merge(old(Values()), value)
    {
      var name := Key(value);
      if name in entries {
        var existing := entries[name];
        if existing.isType && !value.isType {
          existing := existing.(isType := false);
        }
        StoreKnown(keys, entries, value, existing);
        entries := entries[name := existing];
      } else {
        StoreNew(keys, entries, value);
        entries := entries[name := value];
        keys := keys + [name];
      }
    }

    /** The `add`s for the columns. */
    method AddColumns(columns: seq<ModelColumn>)
      requires Valid()
      modifies this
      ensures Valid()
      ensures Values() == MergeAll(old(Values()), ColumnRequests(columns))
    {
      ghost var start := Values();
      var j := 0;
      while j < |columns|
        invariant 0 <= j <= |columns|
        invariant Valid()
        invariant Values() == MergeAll(start, ColumnRequests(columns[..j]))
      {
        ColumnRequestsStep(columns, j);
        if columns[j].columnType == Some("DateTime") {
          var dt := NewImport("DateTime", "luxon", None, None);
          MergeAllSnoc(start, ColumnRequests(columns[..j]), dt);
          Add(dt);
        }
        j := j + 1;
      }
      assert columns[..j] == columns;
    }

    /** The `add`s for one relationship definition. */
    method AddDefinition(inf: Inflector, modelName: string, d: ModelRelationship)
      requires Valid()
      modifies this
      ensures Valid()
      ensures Values() == MergeAll(old(Values()), RelationshipRequests(inf, modelName, d))
    {
      ghost var start := Values();
      var kind := NewImport(Value(d.relationshipType), Orm, None, None);
      var typeName := NewImport(inf.pascalCase(Value(d.relationshipType)), Relations, Some(false), Some(true));
      if d.relatedModelName != modelName {
        var related := NewImport(d.relatedModelName, "./" + inf.snakeCase(d.relatedModelName) + ".js", Some(true), None);
        assert RelationshipRequests(inf, modelName, d) == [related, kind, typeName];
        MergeThree(start, related, kind, typeName);
        Add(related);
        Add(kind);
        Add(typeName);
      } else {
        assert RelationshipRequests(inf, modelName, d) == [kind, typeName];
        MergeTwo(start, kind, typeName);
        Add(kind);
        Add(typeName);
      }
    }

    /** The `add`s for the relationship definitions. */
    method AddDefinitions(inf: Inflector, modelName: string, ds: seq<ModelRelationship>)
      requires Valid()
      modifies this
      ensures Valid()
      ensures Values() == MergeAll(old(Values()), DefinitionsRequests(inf, modelName, ds))
    {
      ghost var start := Values();
      var k := 0;
      while k < |ds|
        invariant 0 <= k <= |ds|
        invariant Valid()
        invariant Values() == MergeAll(start, DefinitionsRequests(inf, modelName, ds[..k]))
      {
        DefinitionsRequestsStep(inf, modelName, ds, k);
        MergeAllAppend(start, DefinitionsRequests(inf, modelName, ds[..k]), RelationshipRequests(inf, modelName, ds[k]));
        AddDefinition(inf, modelName, ds[k]);
        k := k + 1;
      }
      assert ds[..k] == ds;
    }

    /** `extract`: the statements for `model`, after adding everything it needs. */
    method Extract(inf: Inflector, model: Model) returns (r: seq<string>)
      requires Valid()
      modifies this
      ensures Valid()
      ensures Values() == MergeAll(old(Values()), Requests(inf, model.name, model.columns, model.relationships))
      ensures r == Statements(Groups(Values()))
    {
      ghost var start := Values();
      var base := NewImport("BaseModel", Orm, None, None);
      var col := NewImport("column", Orm, None, None);
      MergeTwo(start, base, col);
      Add(base);
      Add(col);
      MergeAllAppend(start, [base, col], ColumnRequests(model.columns));
      AddColumns(model.columns);
      MergeAllAppend(start, [base, col] + ColumnRequests(model.columns), DefinitionsRequests(inf, model.name, model.relationships));
      AddDefinitions(inf, model.name, model.relationships);
      r := GetStatements(Values());
    }
  }

  lemma ColumnRequestsStep(columns: seq<ModelColumn>, j: nat)
    requires j < |columns|
    ensures columns[j].columnType == Some("DateTime") ==>
              ColumnRequests(columns[..j + 1]) == ColumnRequests(columns[..j]) + [NewImport("DateTime", "luxon", None, None)]
    ensures columns[j].columnType != Some("DateTime") ==> ColumnRequests(columns[..j + 1]) == ColumnRequests(columns[..j])
  {
    assert columns[..j + 1][..j] == columns[..j];
  }

  lemma DefinitionsRequestsStep(inf: Inflector, modelName: string, ds: seq<ModelRelationship>, k: nat)
    requires k < |ds|
    ensures DefinitionsRequests(inf, modelName, ds[..k + 1])
            == DefinitionsRequests(inf, modelName, ds[..k]) + RelationshipRequests(inf, modelName, ds[k])
  {
    assert ds[..k + 1][..k] == ds[..k];
  }

  /** Two adds in a row. */
  lemma MergeTwo(start: seq<ModelImport>, a: ModelImport, b: ModelImport)
    ensures MergeAll(start, [a, b]) == Merge(Merge(start, a), b)
  {
    assert [a, b][..1] == [a] && [a][..0] == [];
    assert MergeAll(start, [a]) == Merge(MergeAll(start, []), a);
    assert MergeAll(start, [a, b]) == Merge(MergeAll(start, [a]), b);
  }

  /** Three adds in a row. */
  lemma MergeThree(start: seq<ModelImport>, a: ModelImport, b: ModelImport, c: ModelImport)
    ensures MergeAll(start, [a, b, c]) == Merge(Merge(Merge(start, a), b), c)
  {
    assert [a, b] + [c] == [a, b, c];
    MergeAllSnoc(start, [a, b], c);
    MergeTwo(start, a, b);
  }

  /** One more add. */
  lemma MergeAllSnoc(start: seq<ModelImport>, adds: seq<ModelImport>, value: ModelImport)
    ensures MergeAll(start, adds + [value]) == Merge(MergeAll(start, adds), value)
  {
    assert (adds + [value])[..|adds|] == adds;
  }

  /** Adding two lists one after the other. */
  lemma {:induction false} MergeAllAppend(start: seq<ModelImport>, first: seq<ModelImport>, second: seq<ModelImport>)
    ensures MergeAll(start, first + second) == MergeAll(MergeAll(start, first), second)
  {
    if |second| == 0 {
      assert first + second == first;
    } else {
      var init := second[..|second| - 1];
      assert (first + second)[..|first + second| - 1] == first + init;
      assert (first + second)[|first + second| - 1] == second[|second| - 1];
      MergeAllAppend(start, first, init);
    }
  }

  /** Every key is stored once, and under its own `name@namespace`. */
  predicate WellKeyed(keys: seq<string>, entries: map<string, ModelImport>) {
    && Distinct(keys)
    && (forall k | k in entries :: k in keys)
    && (forall k | k in keys :: k in entries && Key(entries[k]) == k)
  }

  /** `add` for a key that is already stored. */
  lemma StoreKnown(keys: seq<string>, entries: map<string, ModelImport>, value: ModelImport, existing: ModelImport)
    requires WellKeyed(keys, entries) && Key(value) in entries
    requires existing == entries[Key(value)].(isType := entries[Key(value)].isType && value.isType)
    ensures WellKeyed(keys, entries[Key(value) := existing])
    ensures Lookup(keys, entries[Key(value) := existing]) == Merge(Lookup(keys, entries), value)
  {
    var i :| 0 <= i < |keys| && keys[i] == Key(value);
    var vs := Lookup(keys, entries);
    KeyIndexOfKeys(keys, entries, i);
    assert vs[i] == entries[Key(value)];
    assert Merge(vs, value) == vs[i := existing];
    LookupUpdate(keys, entries, i, existing);
    KeyedUpdate(keys, entries, existing);
  }

  /** Replacing a stored import by one with the same key keeps the keys in order. */
  lemma KeyedUpdate(keys: seq<string>, entries: map<string, ModelImport>, v: ModelImport)
    requires WellKeyed(keys, entries) && Key(v) in entries
    ensures WellKeyed(keys, entries[Key(v) := v])
  {
  }

  /** `add` for a new key. */
  lemma StoreNew(keys: seq<string>, entries: map<string, ModelImport>, value: ModelImport)
    requires WellKeyed(keys, entries) && Key(value) !in entries
    ensures WellKeyed(keys + [Key(value)], entries[Key(value) := value])
    ensures Lookup(keys + [Key(value)], entries[Key(value) := value]) == Merge(Lookup(keys, entries), value)
  {
    KeyAbsent(keys, entries, Key(value));
    LookupAppend(keys, entries, Key(value), value);
  }

  /** Replacing the import stored under one key. */
  lemma LookupUpdate(keys: seq<string>, entries: map<string, ModelImport>, i: nat, v: ModelImport)
    requires Distinct(keys) && i < |keys| && forall k | k in keys :: k in entries
    ensures Lookup(keys, entries[keys[i] := v]) == Lookup(keys, entries)[i := v]
  {
    var after := Lookup(keys, entries[keys[i] := v]);
    forall j | 0 <= j < |keys|
      ensures after[j] == Lookup(keys, entries)[i := v][j]
    {
      if j != i {
        assert keys[j] != keys[i];
      }
    }
  }

  /** Storing a new key. */
  lemma LookupAppend(keys: seq<string>, entries: map<string, ModelImport>, name: string, v: ModelImport)
    requires name !in keys && forall k | k in keys :: k in entries
    ensures Lookup(keys + [name], entries[name := v]) == Lookup(keys, entries) + [v]
  {
    var after := Lookup(keys + [name], entries[name := v]);
    forall j | 0 <= j < |keys|
      ensures after[j] == Lookup(keys, entries)[j]
    {
      assert (keys + [name])[j] == keys[j];
    }
  }

  /** A stored key is found at its position among the keys. */
  lemma KeyIndexOfKeys(keys: seq<string>, entries: map<string, ModelImport>, i: nat)
    requires WellKeyed(keys, entries) && i < |keys|
    ensures KeyIndex(Lookup(keys, entries), keys[i]) == Some(i)
  {
    var vs := Lookup(keys, entries);
    forall j | 0 <= j < i
      ensures Key(vs[j]) != keys[i]
    {
      assert keys[j] in keys;
    }
    assert keys[i] in keys;
    KeyIndexAt(vs, keys[i], i);
  }

  /** A key that is not stored is not found. */
  lemma KeyAbsent(keys: seq<string>, entries: map<string, ModelImport>, name: string)
    requires WellKeyed(keys, entries) && name !in entries
    ensures KeyIndex(Lookup(keys, entries), name).None?
  {
    var vs := Lookup(keys, entries);
    forall j | 0 <= j < |vs|
      ensures Key(vs[j]) != name
    {
      assert keys[j] in keys;
    }
  }
}
