/** Small string vocabulary shared by the decoder: an optional value,
    prefix tests and substring search with the meaning of JavaScript's
    `startsWith` and `includes`. Strings are sequences of characters that
    have already been decoded from UTF-8. */
module Text {

  datatype Option<+T> = None | Some(value: T)

  /** An optional string that JavaScript treats as true: present and
      non-empty (`undefined`, `null` and `""` are all false). */
  predicate Truthy(v: Option<string>) {
    v.Some? && v.value != ""
  }

  /** `s.startsWith(p)` */
  predicate StartsWith(s: string, p: string) {
    |p| <= |s| && s[..|p|] == p
  }

  /** `s.includes(p)`: some suffix of `s` starts with `p`. */
  predicate Contains(s: string, p: string)
    decreases |s|
  {
    StartsWith(s, p) || (|s| > 0 && Contains(s[1..], p))
  }

  /** The pieces of `parts` one after the other. */
  function Concat(parts: seq<string>): string
    decreases |parts|
  {
    if parts == [] then "" else parts[0] + Concat(parts[1..])
  }

  /** No line break inside `s`. */
  predicate NoNewline(s: string) {
    '\n' !in s
  }

  /** `Contains` agrees with the positional reading of substring search:
      some index `i` has `p` starting at it. */
  lemma ContainsAt(s: string, p: string)
    ensures Contains(s, p) <==> exists i :: 0 <= i <= |s| && StartsWith(s[i..], p)
  {
    if Contains(s, p) {
      var i := MatchIndex(s, p);
      assert 0 <= i <= |s| && StartsWith(s[i..], p);
    }
    if exists i :: 0 <= i <= |s| && StartsWith(s[i..], p) {
      var i :| 0 <= i <= |s| && StartsWith(s[i..], p);
      MatchContained(s, p, i);
    }
  }

  /** Where `includes` finds its match. */
  lemma {:induction false} MatchIndex(s: string, p: string) returns (i: nat)
    requires Contains(s, p)
    ensures i <= |s| && StartsWith(s[i..], p)
    decreases |s|
  {
    if StartsWith(s, p) {
      i := 0;
      assert s[0..] == s;
    } else {
      var j := MatchIndex(s[1..], p);
      i := j + 1;
      assert s[1..][j..] == s[i..];
    }
  }

  /** A match at any index is found by `includes`. */
  lemma {:induction false} MatchContained(s: string, p: string, i: nat)
    requires i <= |s| && StartsWith(s[i..], p)
    ensures Contains(s, p)
    decreases i
  {
    if i == 0 {
      assert s[0..] == s;
    } else {
      assert s[1..][i - 1..] == s[i..];
      MatchContained(s[1..], p, i - 1);
    }
  }
}
