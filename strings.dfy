/** The JavaScript string operations the generator relies on: `startsWith`, `endsWith`,
    `includes`, `replace` with a string pattern, `split(sep)[0]`, `trim`, `toUpperCase`,
    `join`, the default `sort` order, and how a template literal renders a missing value. */
module Strings {
  import opened Basics

  predicate StartsWith(s: string, prefix: string) {
    |prefix| <= |s| && s[..|prefix|] == prefix
  }

  predicate EndsWith(s: string, suffix: string) {
    |suffix| <= |s| && s[|s| - |suffix|..] == suffix
  }

  /** `s` ends with `suffix` exactly when it is some text followed by `suffix`. */
  lemma EndsWithIff(s: string, suffix: string)
    ensures EndsWith(s, suffix) <==> exists head: string :: s == head + suffix
  {
    if EndsWith(s, suffix) {
      assert s == s[..|s| - |suffix|] + suffix;
    }
    if exists head: string :: s == head + suffix {
      var head: string :| s == head + suffix;
      assert s[|s| - |suffix|..] == suffix;
    }
  }

  /** `sub` occurs in `s` starting at position `i`. */
  predicate OccursAt(s: string, sub: string, i: nat) {
    i + |sub| <= |s| && s[i..i + |sub|] == sub
  }

  /** `s.indexOf(sub)`: the first position where `sub` occurs. */
  function IndexOf(s: string, sub: string): (r: Option<nat>)
    ensures r.Some? ==> OccursAt(s, sub, r.value)
    ensures r.Some? ==> forall j: nat | j < r.value :: !OccursAt(s, sub, j)
    ensures r.None? ==> forall j: nat :: !OccursAt(s, sub, j)
  {
    if StartsWith(s, sub) then Some(0)
    else if |s| == 0 then None
    else
      OccursInTail(s, sub);
      match IndexOf(s[1..], sub)
      case None => None
      case Some(k) => Some(k + 1)
  }

  /** Past the first position, `sub` occurs in `s` exactly where it occurs one earlier in
      the tail of `s`. */
  lemma OccursInTail(s: string, sub: string)
    requires |s| > 0
    ensures forall j: nat | 0 < j :: OccursAt(s, sub, j) <==> OccursAt(s[1..], sub, j - 1)
  {
    forall j: nat | 0 < j
      ensures OccursAt(s, sub, j) <==> OccursAt(s[1..], sub, j - 1)
    {
      if j + |sub| <= |s| {
        var here, there := s[j..j + |sub|], s[1..][j - 1..j - 1 + |sub|];
        assert forall k | 0 <= k < |sub| :: here[k] == there[k];
        assert here == there;
      }
    }
  }

  /** An occurrence with none before it is the one `indexOf` finds. */
  lemma FirstOccurrence(s: string, sub: string, i: nat)
    requires OccursAt(s, sub, i)
    requires forall j: nat | j < i :: !OccursAt(s, sub, j)
    ensures IndexOf(s, sub) == Some(i)
  {
  }

  /** `s.includes(sub)`. */
  predicate Includes(s: string, sub: string) {
    IndexOf(s, sub).Some?
  }

  lemma IncludesIff(s: string, sub: string)
    ensures Includes(s, sub) <==> exists i: nat :: OccursAt(s, sub, i)
  {
  }

  /** `s.replace(pattern, replacement)` with a string pattern: only the first occurrence is replaced. */
  function ReplaceFirst(s: string, pattern: string, replacement: string): (r: string)
    ensures IndexOf(s, pattern).None? ==> r == s
    ensures IndexOf(s, pattern).Some? ==>
              var i := IndexOf(s, pattern).value; r == s[..i] + replacement + s[i + |pattern|..]
  {
    match IndexOf(s, pattern)
    case None => s
    case Some(i) => s[..i] + replacement + s[i + |pattern|..]
  }

  /** `s.split(separator)[0]` for a non-empty separator: the text before its first occurrence. */
  function BeforeFirst(s: string, separator: string): (r: string)
    requires separator != ""
    ensures StartsWith(s, r)
    ensures IndexOf(r, separator).None?
    ensures IndexOf(s, separator).None? ==> r == s
    ensures IndexOf(s, separator).Some? ==> OccursAt(s, separator, |r|)
  {
    match IndexOf(s, separator)
    case None => s
    case Some(i) => BeforeFirstNoSeparator(s, separator, i); s[..i]
  }

  lemma BeforeFirstNoSeparator(s: string, separator: string, i: nat)
    requires separator != "" && OccursAt(s, separator, i)
    requires forall j: nat | j < i :: !OccursAt(s, separator, j)
    ensures IndexOf(s[..i], separator).None?
  {
    var r := s[..i];
    forall j: nat | OccursAt(r, separator, j)
      ensures false
    {
      assert r[j..j + |separator|] == s[j..j + |separator|];
      assert OccursAt(s, separator, j);
    }
  }

  /** The characters JavaScript's `String.prototype.trim` removes: white space and line terminators. */
  predicate IsJsWhitespace(c: char) {
    || c == ' ' || ('\t' <= c <= '\r')
    || c == '\U{00A0}' || c == '\U{1680}' || ('\U{2000}' <= c <= '\U{200A}')
    || c == '\U{2028}' || c == '\U{2029}' || c == '\U{202F}' || c == '\U{205F}'
    || c == '\U{3000}' || c == '\U{FEFF}'
  }

  /** How many JavaScript white-space characters `s` starts with. */
  function LeadingSpace(s: string): (k: nat)
    ensures k <= |s|
    ensures forall j | 0 <= j < k :: IsJsWhitespace(s[j])
    ensures k == |s| || !IsJsWhitespace(s[k])
  {
    if |s| > 0 && IsJsWhitespace(s[0]) then 1 + LeadingSpace(s[1..]) else 0
  }

  /** Where the run of JavaScript white space that `s` ends with begins. */
  function TrailingSpace(s: string): (k: nat)
    ensures k <= |s|
    ensures forall j | k <= j < |s| :: IsJsWhitespace(s[j])
    ensures k == 0 || !IsJsWhitespace(s[k - 1])
  {
    if |s| > 0 && IsJsWhitespace(s[|s| - 1]) then TrailingSpace(s[..|s| - 1]) else |s|
  }

  /** `s.trim()`: drops JavaScript white space at both ends and nothing else. */
  function Trim(s: string): (r: string)
    ensures r == [] || (!IsJsWhitespace(r[0]) && !IsJsWhitespace(r[|r| - 1]))
    ensures LeadingSpace(s) + |r| <= |s| && r == s[LeadingSpace(s)..LeadingSpace(s) + |r|]
    ensures forall j | 0 <= j < LeadingSpace(s) :: IsJsWhitespace(s[j])
    ensures forall j | LeadingSpace(s) + |r| <= j < |s| :: IsJsWhitespace(s[j])
  {
    var front := s[LeadingSpace(s)..];
    front[..TrailingSpace(front)]
  }

  function UpperChar(c: char): char {
    if 'a' <= c <= 'z' then (c as int - 32) as char else c
  }

  /** `s.toUpperCase()`, restricted to ASCII letters. */
  function AsciiUpper(s: string): (r: string)
    ensures |r| == |s|
    ensures forall i | 0 <= i < |s| :: r[i] == UpperChar(s[i])
  {
    if |s| == 0 then [] else [UpperChar(s[0])] + AsciiUpper(s[1..])
  }

  /** `parts.join(separator)`. */
  function Join(parts: seq<string>, separator: string): (r: string)
    ensures |parts| == 1 ==> r == parts[0]
  {
    if |parts| == 0 then ""
    else if |parts| == 1 then parts[0]
    else parts[0] + separator + Join(parts[1..], separator)
  }

  /** Appending a part adds the separator and the part at the end. */
  lemma {:induction false} JoinSnoc(parts: seq<string>, last: string, separator: string)
    requires parts != []
    ensures Join(parts + [last], separator) == Join(parts, separator) + separator + last
  {
    if |parts| == 1 {
      assert parts + [last] == [parts[0], last];
    } else {
      assert (parts + [last])[1..] == parts[1..] + [last];
      JoinSnoc(parts[1..], last, separator);
    }
  }

  /** How a template literal renders an optional value that JavaScript holds as `undefined`. */
  function OrUndefined(s: Option<string>): string {
    s.GetOr("undefined")
  }

  /** How a template literal renders an optional value that JavaScript holds as `null`. */
  function OrNull(s: Option<string>): string {
    s.GetOr("null")
  }

  /** `a <= b` in the order of JavaScript's default `Array.prototype.sort`: character by
      character, a proper prefix before the longer text. */
  predicate LexLe(a: string, b: string) {
    if |a| == 0 then true
    else if |b| == 0 then false
    else if a[0] != b[0] then a[0] < b[0]
    else LexLe(a[1..], b[1..])
  }

  lemma {:induction false} LexLeTotal(a: string, b: string)
    ensures LexLe(a, b) || LexLe(b, a)
  {
    if |a| > 0 && |b| > 0 && a[0] == b[0] {
      LexLeTotal(a[1..], b[1..]);
    }
  }

  lemma {:induction false} LexLeAntisymmetric(a: string, b: string)
    requires LexLe(a, b) && LexLe(b, a)
    ensures a == b
  {
    if |a| > 0 && |b| > 0 {
      LexLeAntisymmetric(a[1..], b[1..]);
      assert a == [a[0]] + a[1..] && b == [b[0]] + b[1..];
    }
  }

  /** `[a, b].sort()`. */
  function SortPair(a: string, b: string): (r: seq<string>)
    ensures multiset(r) == multiset{a, b}
    ensures |r| == 2 && LexLe(r[0], r[1])
  {
    LexLeTotal(a, b);
    if LexLe(a, b) then [a, b] else [b, a]
  }

  /** The sorted pair does not depend on the order its two texts are given in. */
  lemma SortPairSymmetric(a: string, b: string)
    ensures SortPair(a, b) == SortPair(b, a)
  {
    LexLeTotal(a, b);
    if LexLe(a, b) && LexLe(b, a) {
      LexLeAntisymmetric(a, b);
    }
  }
}
