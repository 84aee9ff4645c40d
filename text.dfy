/** The string operations the core relies on: `String.indexOf`,
    Apache Commons' `StringUtils.contains` and `String.toLowerCase`.

    Each is given an executable definition shaped like the library's own
    search or conversion, and a declarative partner (`OccursAt`, `Occurs`,
    `EqualsIgnoreCase`) that its contract and lemmas are stated against. */
module Text {
  import opened JavaLang

  /** `t` occurs in `s` starting at index `i`. */
  predicate OccursAt(s: string, t: string, i: int) {
    0 <= i && i + |t| <= |s| && s[i..i + |t|] == t
  }

  /** `t` is a substring of `s`. */
  ghost predicate Occurs(s: string, t: string) {
    exists i :: OccursAt(s, t, i)
  }

  /** `s.indexOf(t, from)`: the first index at or after `from` where `t`
      occurs in `s`, or -1 when there is none. */
  function IndexOfFrom(s: string, t: string, from: nat): (r: int)
    requires from <= |s|
    ensures r == -1 || (from <= r && OccursAt(s, t, r))
    ensures r != -1 ==> forall i :: from <= i < r ==> !OccursAt(s, t, i)
    ensures r == -1 ==> forall i :: from <= i ==> !OccursAt(s, t, i)
    decreases |s| - from
  {
    if from + |t| > |s| then -1
    else if s[from..from + |t|] == t then from
    else
      assert |t| != 0;
      IndexOfFrom(s, t, from + 1)
  }

  /** `s.indexOf(t)`: the first occurrence of `t` in `s`, or -1. */
  function IndexOf(s: string, t: string): (r: int)
    ensures r == -1 <==> !Occurs(s, t)
    ensures r != -1 ==> OccursAt(s, t, r) && forall i :: 0 <= i < r ==> !OccursAt(s, t, i)
  {
    IndexOfFrom(s, t, 0)
  }

  /** `StringUtils.contains(seq, searchSeq)` with a non-null search string:
      false for a null `seq`, otherwise whether `searchSeq` is a substring. */
  function Contains(s: Nullable<string>, search: string): (b: bool)
    ensures b <==> s.NonNull? && Occurs(s.value, search)
  {
    match s
    case Null => false
    case NonNull(v) => IndexOf(v, search) >= 0
  }

  /** A substring of a substring is a substring: an occurrence of `u` at `j`
      inside an occurrence of `t` at `i` is an occurrence of `u` at `i + j`. */
  lemma OccursWithin(s: string, t: string, u: string, i: int, j: int)
    requires OccursAt(s, t, i) && OccursAt(t, u, j)
    ensures OccursAt(s, u, i + j)
  {
    forall k | 0 <= k < |u|
      ensures s[i + j + k] == u[k]
    {
      assert s[i..i + |t|][j + k] == t[j + k];
      assert t[j..j + |u|][k] == u[k];
    }
  }

  /** `t` cannot occur in `s` when `s` lacks one of its characters. */
  lemma AbsentByMissingChar(s: string, t: string, c: char)
    requires c in t && c !in s
    ensures !Occurs(s, t)
  {
  }

  /** `t` cannot occur in `s == a + [c] + b` when it holds `c` at two
      positions while `s` holds `c` only once. */
  lemma AbsentBySingleCopy(s: string, a: string, c: char, b: string, t: string, p: int, q: int)
    requires s == a + [c] + b && c !in a && c !in b
    requires 0 <= p < q < |t| && t[p] == c && t[q] == c
    ensures !Occurs(s, t)
  {
  }

  predicate IsUpper(c: char) {
    'A' <= c <= 'Z'
  }

  /** `Character.toLowerCase` restricted to ASCII: upper-case letters move to
      their lower-case counterpart, every other character is kept. */
  function LowerChar(c: char): (d: char)
    ensures !IsUpper(d)
    ensures !IsUpper(c) ==> d == c
    ensures IsUpper(c) ==> 'a' <= d <= 'z' && d as int - 'a' as int == c as int - 'A' as int
  {
    if IsUpper(c) then (c as int - 'A' as int + 'a' as int) as char else c
  }

  /** `s.toLowerCase()`, character by character. */
  function ToLowerCase(s: string): (r: string)
    ensures |r| == |s|
    ensures forall i :: 0 <= i < |s| ==> r[i] == LowerChar(s[i])
  {
    if s == [] then [] else [LowerChar(s[0])] + ToLowerCase(s[1..])
  }

  /** `a.equalsIgnoreCase(b)` over ASCII: same length, and the same letters
      once case is ignored. */
  predicate EqualsIgnoreCase(a: string, b: string) {
    |a| == |b| && forall i :: 0 <= i < |a| ==> LowerChar(a[i]) == LowerChar(b[i])
  }

  /** Lower-casing leaves no upper-case letter and changes nothing a second time. */
  lemma ToLowerCaseIdempotent(s: string)
    ensures forall i :: 0 <= i < |s| ==> !IsUpper(ToLowerCase(s)[i])
    ensures ToLowerCase(ToLowerCase(s)) == ToLowerCase(s)
  {
    var l := ToLowerCase(s);
    assert forall i :: 0 <= i < |l| ==> ToLowerCase(l)[i] == l[i];
  }

  /** Two strings have the same lower-case form exactly when they are equal
      ignoring case. */
  lemma ToLowerCaseEqualIff(a: string, b: string)
    ensures ToLowerCase(a) == ToLowerCase(b) <==> EqualsIgnoreCase(a, b)
  {
    if ToLowerCase(a) == ToLowerCase(b) {
      forall i | 0 <= i < |a|
        ensures LowerChar(a[i]) == LowerChar(b[i])
      {
        assert ToLowerCase(a)[i] == ToLowerCase(b)[i];
      }
    }
    if EqualsIgnoreCase(a, b) {
      assert forall i :: 0 <= i < |a| ==> ToLowerCase(a)[i] == ToLowerCase(b)[i];
    }
  }

  /** An occurrence of `t` in `s` survives lower-casing both. */
  lemma ToLowerCaseKeepsOccurrence(s: string, t: string, i: int)
    requires OccursAt(s, t, i)
    ensures OccursAt(ToLowerCase(s), ToLowerCase(t), i)
  {
    var ls, lt := ToLowerCase(s), ToLowerCase(t);
    forall k | 0 <= k < |t|
      ensures ls[i + k] == lt[k]
    {
      assert s[i..i + |t|][k] == t[k];
    }
    assert ls[i..i + |t|] == lt;
  }

  /** A lower-case letter is missing from `s.toLowerCase()` when neither it
      nor its upper-case form is in `s`. */
  lemma ToLowerCaseLacks(s: string, c: char, upper: char)
    requires IsUpper(upper) && c == LowerChar(upper)
    requires c !in s && upper !in s
    ensures c !in ToLowerCase(s)
  {
    var l := ToLowerCase(s);
    forall i | 0 <= i < |l|
      ensures l[i] != c
    {
      assert s[i] in s;
    }
  }
}
