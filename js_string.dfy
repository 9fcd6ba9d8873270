/**
 * The JavaScript string operations the wallet-asset components use:
 * `startsWith`, `indexOf` and `replace` with a string pattern, which
 * replaces only the first occurrence of the pattern.
 */
module JsString {
  import opened Wrappers

  /** `s.startsWith(prefix)` */
  predicate StartsWith(s: string, prefix: string) {
    |prefix| <= |s| && s[..|prefix|] == prefix
  }

  /** `pattern` occurs in `s` starting at index `i`. */
  predicate OccursAt(s: string, pattern: string, i: nat) {
    i + |pattern| <= |s| && s[i..i + |pattern|] == pattern
  }

  /** `s.includes(pattern)` */
  ghost predicate Contains(s: string, pattern: string) {
    exists i: nat :: OccursAt(s, pattern, i)
  }

  /**
   * The first occurrence at or after `from`, with `None` for -1. This agrees
   * with `s.indexOf(pattern, from)` for `from <= |s|`; JavaScript clamps a
   * larger `from` to `|s|`, a case `IndexOf` never reaches since it starts at 0.
   */
  function IndexOfFrom(s: string, pattern: string, from: nat): (r: Option<nat>)
    decreases |s| - from
    ensures r.Some? ==> from <= r.value && OccursAt(s, pattern, r.value)
    ensures r.Some? ==> forall j: nat :: from <= j < r.value ==> !OccursAt(s, pattern, j)
    ensures r.None? ==> forall j: nat :: from <= j ==> !OccursAt(s, pattern, j)
  {
    if OccursAt(s, pattern, from) then Some(from)
    else if |s| <= from + |pattern| then None
    else IndexOfFrom(s, pattern, from + 1)
  }

  /** `s.indexOf(pattern)`: the first occurrence, or `None` when there is none. */
  function IndexOf(s: string, pattern: string): (r: Option<nat>)
    ensures r.Some? ==> OccursAt(s, pattern, r.value)
    ensures r.Some? ==> forall j: nat :: j < r.value ==> !OccursAt(s, pattern, j)
    ensures r.None? <==> !Contains(s, pattern)
  {
    IndexOfFrom(s, pattern, 0)
  }

  /**
   * `s.replace(pattern, "")`: a string pattern removes its first occurrence
   * only, wherever that occurrence is, and leaves `s` alone when it does not occur.
   */
  function RemoveFirst(s: string, pattern: string): (r: string)
  {
    match IndexOf(s, pattern)
    case None => s
    case Some(i) => s[..i] + s[i + |pattern|..]
  }

  /** Removing a pattern that does not occur changes nothing. */
  lemma RemoveFirstAbsent(s: string, pattern: string)
    requires !Contains(s, pattern)
    ensures RemoveFirst(s, pattern) == s
  {
  }

  /** The removal happens at the first occurrence, and only there. */
  lemma RemoveFirstAt(s: string, pattern: string, i: nat)
    requires OccursAt(s, pattern, i)
    requires forall j: nat :: j < i ==> !OccursAt(s, pattern, j)
    ensures RemoveFirst(s, pattern) == s[..i] + s[i + |pattern|..]
    ensures |RemoveFirst(s, pattern)| == |s| - |pattern|
  {
    assert Contains(s, pattern);
  }

  /** A string that starts with the pattern loses exactly that prefix. */
  lemma RemoveFirstOfPrefix(s: string, prefix: string)
    requires StartsWith(s, prefix)
    ensures RemoveFirst(s, prefix) == s[|prefix|..]
  {
    assert OccursAt(s, prefix, 0);
    RemoveFirstAt(s, prefix, 0);
  }

  /** Putting the pattern back where it was removed gives the original string. */
  lemma RemoveFirstReinsert(s: string, pattern: string)
    requires Contains(s, pattern)
    ensures var i := IndexOf(s, pattern).value;
            var r := RemoveFirst(s, pattern);
            i <= |r| && r[..i] + pattern + r[i..] == s
  {
    var i := IndexOf(s, pattern).value;
    var r := RemoveFirst(s, pattern);
    assert r == s[..i] + s[i + |pattern|..];
    assert r[..i] == s[..i];
    assert r[i..] == s[i + |pattern|..];
    assert s == s[..i] + s[i..i + |pattern|] + s[i + |pattern|..];
  }
}
