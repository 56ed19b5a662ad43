/** The pivot-name heuristic shared by both relationship variants: a table is taken for a
    pivot when its singular name is `prefix_suffix`, with `prefix` and `suffix` the
    singular names of the first other tables, in catalog order, that it starts and ends
    with. A template literal renders a table that was not found as `undefined`. */
module Pivot {
  import opened Basics
  import opened Strings

  function PivotName(prefix: Option<string>, suffix: Option<string>): (r: string)
    ensures prefix.Some? && suffix.Some? ==> r == prefix.value + "_" + suffix.value
  {
    OrUndefined(prefix) + "_" + OrUndefined(suffix)
  }

  /** A name passes the test with a missing prefix table only if it literally starts with
      `undefined_`, and with a missing suffix table only if it ends with `_undefined`. */
  lemma MissingSideSpellsUndefined(s: string, prefix: Option<string>, suffix: Option<string>)
    requires s == PivotName(prefix, suffix)
    ensures prefix.None? ==> StartsWith(s, "undefined_")
    ensures suffix.None? ==> EndsWith(s, "_undefined")
  {
    if prefix.None? {
      assert s == "undefined_" + OrUndefined(suffix);
      assert s[..10] == "undefined_";
    }
    if suffix.None? {
      assert s == OrUndefined(prefix) + "_undefined";
      assert s[|s| - 10..] == "_undefined";
    }
  }
}
