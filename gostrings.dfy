/**
  The parts of Go's `strings` package that the preprocessor relies on:
  `TrimSpace`, `Index`, `SplitN(s, sep, 2)[0]`, `HasPrefix` and `TrimPrefix`.
  Strings are sequences of Unicode scalar values.
*/
module GoStrings {

  /** `unicode.IsSpace`: the Latin-1 spaces plus the other White_Space code points. */
  predicate IsSpace(c: char)
  {
    || c == ' '
    || ('\t' <= c <= '\r')
    || c == '\U{85}'
    || c == '\U{A0}'
    || c == '\U{1680}'
    || ('\U{2000}' <= c <= '\U{200A}')
    || c == '\U{2028}'
    || c == '\U{2029}'
    || c == '\U{202F}'
    || c == '\U{205F}'
    || c == '\U{3000}'
  }

  /** Neither the first nor the last character is white space. */
  predicate Trimmed(s: string)
  {
    s == [] || (!IsSpace(s[0]) && !IsSpace(s[|s| - 1]))
  }

  /** The number of white-space characters at the start of `s`. */
  function LeadingSpace(s: string): (k: nat)
    ensures k <= |s|
    ensures forall i :: 0 <= i < k ==> IsSpace(s[i])
    ensures k < |s| ==> !IsSpace(s[k])
  {
    if s != [] && IsSpace(s[0]) then 1 + LeadingSpace(s[1..]) else 0
  }

  /** The number of white-space characters at the end of `s`. */
  function TrailingSpace(s: string): (k: nat)
    ensures k <= |s|
    ensures forall i :: |s| - k <= i < |s| ==> IsSpace(s[i])
    ensures k < |s| ==> !IsSpace(s[|s| - 1 - k])
  {
    if s != [] && IsSpace(s[|s| - 1]) then 1 + TrailingSpace(s[..|s| - 1]) else 0
  }

  /**
    `strings.TrimSpace`: `s` with its leading and trailing white space removed.
    The result is the slice of `s` that starts after the leading white space,
    and everything after it in `s` is white space.
  */
  function TrimSpace(s: string): (r: string)
    ensures Trimmed(r)
    ensures LeadingSpace(s) + |r| <= |s|
    ensures r == s[LeadingSpace(s)..LeadingSpace(s) + |r|]
    ensures forall i :: LeadingSpace(s) + |r| <= i < |s| ==> IsSpace(s[i])
  {
    var rest := s[LeadingSpace(s)..];
    var r := rest[..|rest| - TrailingSpace(rest)];
    assert rest != [] ==> !IsSpace(rest[0]);
    assert rest != [] ==> TrailingSpace(rest) < |rest|;
    r
  }

  /** Trimming a string that is already trimmed changes nothing. */
  lemma {:induction false} TrimSpaceOfTrimmed(s: string)
    requires Trimmed(s)
    ensures TrimSpace(s) == s
  {
    assert LeadingSpace(s) == 0;
  }

  /** `strings.TrimSpace` is idempotent. */
  lemma TrimSpaceIdempotent(s: string)
    ensures TrimSpace(TrimSpace(s)) == TrimSpace(s)
  {
    TrimSpaceOfTrimmed(TrimSpace(s));
  }

  /**
    `TrimSpace` characterised independently: if `s` is white space before `a`
    and from `b` on, and `s[a..b]` neither starts nor ends with white space,
    the trimmed string is `s[a..b]`.
  */
  lemma TrimSpaceBetween(s: string, a: nat, b: nat)
    requires a <= b <= |s|
    requires forall i :: 0 <= i < a ==> IsSpace(s[i])
    requires forall i :: b <= i < |s| ==> IsSpace(s[i])
    requires a < b ==> !IsSpace(s[a]) && !IsSpace(s[b - 1])
    ensures TrimSpace(s) == s[a..b]
  {
    var k := LeadingSpace(s);
    var r := TrimSpace(s);
    if a < b {
      assert k == a;
      assert k + |r| >= b;
      assert k + |r| == b;
    } else {
      assert k == |s|;
    }
  }

  /** `sub` occurs in `s` starting at index `i`. */
  predicate OccursAt(s: string, sub: string, i: nat)
  {
    i + |sub| <= |s| && s[i..i + |sub|] == sub
  }

  /** `sub` occurs somewhere in `s`. */
  predicate Contains(s: string, sub: string)
  {
    exists i :: 0 <= i <= |s| && OccursAt(s, sub, i)
  }

  /** The first occurrence of `sub` in `s` at or after `from`, or -1 if there is none. */
  function IndexFrom(s: string, sub: string, from: nat): (r: int)
    requires from <= |s|
    ensures r == -1 || (from <= r <= |s| && OccursAt(s, sub, r))
    ensures forall j :: from <= j <= |s| && (r == -1 || j < r) ==> !OccursAt(s, sub, j)
    decreases |s| - from
  {
    if OccursAt(s, sub, from) then from
    else if from == |s| then -1
    else IndexFrom(s, sub, from + 1)
  }

  /** `strings.Index`: the first occurrence of `sub` in `s`, or -1 if there is none. */
  function Index(s: string, sub: string): (r: int)
    ensures r == -1 <==> !Contains(s, sub)
    ensures r != -1 ==> 0 <= r <= |s| && OccursAt(s, sub, r)
    ensures forall j :: 0 <= j < r ==> !OccursAt(s, sub, j)
  {
    IndexFrom(s, sub, 0)
  }

  /**
    The first element of `strings.SplitN(s, sep, 2)` for a non-empty separator:
    the prefix of `s` that ends where `sep` first occurs, or all of `s`.
  */
  function SplitFirst(s: string, sep: string): (r: string)
    requires sep != ""
    ensures |r| <= |s| && r == s[..|r|]
    ensures forall j :: 0 <= j < |r| ==> !OccursAt(s, sep, j)
    ensures |r| < |s| ==> OccursAt(s, sep, |r|)
    ensures !Contains(r, sep)
  {
    var k := Index(s, sep);
    var r := if k == -1 then s else s[..k];
    forall j | 0 <= j <= |r| ensures !OccursAt(r, sep, j) {
      if OccursAt(r, sep, j) {
        assert s[j..j + |sep|] == r[j..j + |sep|];
        assert OccursAt(s, sep, j);
      }
    }
    r
  }

  /**
    `SplitFirst` characterised independently: `k` is where `sep` first occurs,
    or the end of `s` when it does not occur.
  */
  lemma SplitFirstAt(s: string, sep: string, k: nat)
    requires sep != ""
    requires k <= |s|
    requires k == |s| || OccursAt(s, sep, k)
    requires forall j :: 0 <= j < k ==> !OccursAt(s, sep, j)
    ensures SplitFirst(s, sep) == s[..k]
  {
    var r := SplitFirst(s, sep);
    assert |r| == k;
  }

  /** `strings.HasPrefix`. */
  predicate HasPrefix(s: string, prefix: string)
  {
    |prefix| <= |s| && s[..|prefix|] == prefix
  }

  /** `strings.TrimPrefix`: `s` without `prefix` when it starts with it, else `s`. */
  function TrimPrefix(s: string, prefix: string): (r: string)
    ensures HasPrefix(s, prefix) ==> prefix + r == s
    ensures !HasPrefix(s, prefix) ==> r == s
  {
    if HasPrefix(s, prefix) then s[|prefix|..] else s
  }

  /** A string without an occurrence of `sub` has none in any of its slices. */
  lemma SliceKeepsAbsence(s: string, sub: string, a: nat, b: nat)
    requires a <= b <= |s|
    requires !Contains(s, sub)
    ensures !Contains(s[a..b], sub)
  {
    var t := s[a..b];
    forall j | 0 <= j <= |t| ensures !OccursAt(t, sub, j) {
      if OccursAt(t, sub, j) {
        assert forall k :: 0 <= k < |sub| ==> s[a + j + k] == t[j + k] == sub[k];
        assert s[a + j..a + j + |sub|] == sub;
        assert OccursAt(s, sub, a + j);
      }
    }
  }
}
