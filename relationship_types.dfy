/** The four relationship kinds of Lucid (`src/enums/relationship_types.ts`). */
module RelationshipTypes {

  datatype RelationshipType = BelongsTo | HasOne | HasMany | ManyToMany

  /** The enum's string value, which is also the name of Lucid's decorator. */
  function Value(t: RelationshipType): string {
    match t
    case BelongsTo => "belongsTo"
    case HasOne => "hasOne"
    case HasMany => "hasMany"
    case ManyToMany => "manyToMany"
  }

  /** Distinct kinds render as distinct decorator names. */
  lemma ValueInjective(a: RelationshipType, b: RelationshipType)
    requires Value(a) == Value(b)
    ensures a == b
  {
  }
}
