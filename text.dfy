/** The .NET string operations the tool relies on, restricted to ASCII case
    folding: StringComparison.OrdinalIgnoreCase, ToLowerInvariant,
    ToUpperInvariant, EndsWith/Contains/StartsWith, char.IsWhiteSpace and
    Split on one character. */
module Text {

  function LowerChar(c: char): char {
    if 'A' <= c <= 'Z' then (c as int + 32) as char else c
  }

  function UpperChar(c: char): char {
    if 'a' <= c <= 'z' then (c as int - 32) as char else c
  }

  /** ToLowerInvariant on ASCII letters. */
  function Lower(s: string): (r: string)
    ensures |r| == |s|
    ensures forall i :: 0 <= i < |s| ==> r[i] == LowerChar(s[i])
  {
    seq(|s|, i requires 0 <= i < |s| => LowerChar(s[i]))
  }

  /** ToUpperInvariant on ASCII letters. */
  function Upper(s: string): (r: string)
    ensures |r| == |s|
    ensures forall i :: 0 <= i < |s| ==> r[i] == UpperChar(s[i])
  {
    seq(|s|, i requires 0 <= i < |s| => UpperChar(s[i]))
  }

  /** string.Equals(a, b, StringComparison.OrdinalIgnoreCase): same length and
      equal character by character once both are upper-cased. */
  predicate EqualsIgnoreCase(a: string, b: string) {
    |a| == |b| && forall i :: 0 <= i < |a| ==> UpperChar(a[i]) == UpperChar(b[i])
  }

  lemma FoldedCharsAgree(x: char, y: char)
    ensures LowerChar(x) == LowerChar(y) <==> UpperChar(x) == UpperChar(y)
  {
  }

  /** Comparing ignoring case is the same as comparing the lower-cased strings
      (what the hash codes of the models are built from). */
  lemma EqualsIgnoreCaseIffLowerEqual(a: string, b: string)
    ensures EqualsIgnoreCase(a, b) <==> Lower(a) == Lower(b)
  {
    if Lower(a) == Lower(b) {
      forall i | 0 <= i < |a| ensures UpperChar(a[i]) == UpperChar(b[i]) {
        assert Lower(a)[i] == Lower(b)[i];
        FoldedCharsAgree(a[i], b[i]);
      }
    }
    if EqualsIgnoreCase(a, b) {
      forall i | 0 <= i < |a| ensures Lower(a)[i] == Lower(b)[i] {
        FoldedCharsAgree(a[i], b[i]);
      }
    }
  }

  /** ... and the same as comparing the upper-cased strings. */
  lemma EqualsIgnoreCaseIffUpperEqual(a: string, b: string)
    ensures EqualsIgnoreCase(a, b) <==> Upper(a) == Upper(b)
  {
    if Upper(a) == Upper(b) {
      forall i | 0 <= i < |a| ensures UpperChar(a[i]) == UpperChar(b[i]) {
        assert Upper(a)[i] == Upper(b)[i];
      }
    }
  }

  lemma EqualsIgnoreCaseIsEquivalence(a: string, b: string, c: string)
    ensures EqualsIgnoreCase(a, a)
    ensures EqualsIgnoreCase(a, b) ==> EqualsIgnoreCase(b, a)
    ensures EqualsIgnoreCase(a, b) && EqualsIgnoreCase(b, c) ==> EqualsIgnoreCase(a, c)
  {
    EqualsIgnoreCaseIffUpperEqual(a, a);
    EqualsIgnoreCaseIffUpperEqual(a, b);
    EqualsIgnoreCaseIffUpperEqual(b, a);
    EqualsIgnoreCaseIffUpperEqual(b, c);
    EqualsIgnoreCaseIffUpperEqual(a, c);
  }

  /** Lower-casing commutes with taking a slice. */
  lemma LowerSlice(s: string, i: nat, j: nat)
    requires i <= j <= |s|
    ensures Lower(s)[i..j] == Lower(s[i..j])
  {
  }

  predicate StartsWithChar(s: string, c: char) {
    |s| > 0 && s[0] == c
  }

  predicate EndsWithChar(s: string, c: char) {
    |s| > 0 && s[|s| - 1] == c
  }

  /** s.EndsWith(suffix, StringComparison.OrdinalIgnoreCase). */
  predicate EndsWithIgnoreCase(s: string, suffix: string) {
    |suffix| <= |s| && EqualsIgnoreCase(s[|s| - |suffix|..], suffix)
  }

  /** Two strings equal ignoring case end with the same suffixes. */
  lemma EndsWithIgnoreCaseRespectsFolding(s: string, t: string, suffix: string)
    requires EqualsIgnoreCase(s, t)
    ensures EndsWithIgnoreCase(s, suffix) <==> EndsWithIgnoreCase(t, suffix)
  {
    if |suffix| <= |s| {
      var a, b := s[|s| - |suffix|..], t[|t| - |suffix|..];
      assert forall i :: 0 <= i < |a| ==> UpperChar(a[i]) == UpperChar(b[i]) by {
        forall i | 0 <= i < |a| ensures UpperChar(a[i]) == UpperChar(b[i]) {
          assert a[i] == s[|s| - |suffix| + i] && b[i] == t[|t| - |suffix| + i];
        }
      }
      EqualsIgnoreCaseIsEquivalence(a, b, suffix);
      EqualsIgnoreCaseIsEquivalence(b, a, suffix);
    }
  }

  /** sub occurs in s at position i, ignoring case. */
  predicate OccursIgnoreCaseAt(s: string, sub: string, i: nat) {
    i + |sub| <= |s| && EqualsIgnoreCase(s[i..i + |sub|], sub)
  }

  /** s.Contains(sub, StringComparison.OrdinalIgnoreCase). */
  predicate ContainsIgnoreCase(s: string, sub: string) {
    exists i: nat | i <= |s| :: OccursIgnoreCaseAt(s, sub, i)
  }

  /** sub occurs in s at position i, case-sensitively. */
  predicate OccursAt(s: string, sub: string, i: nat) {
    i + |sub| <= |s| && s[i..i + |sub|] == sub
  }

  /** Ordinary, case-sensitive substring test. */
  predicate IsSubstring(sub: string, s: string) {
    exists i: nat | i <= |s| :: OccursAt(s, sub, i)
  }

  /** Searching ignoring case is searching the lower-cased text for the
      lower-cased needle. */
  lemma ContainsIgnoreCaseIffLowerSubstring(s: string, sub: string)
    ensures ContainsIgnoreCase(s, sub) <==> IsSubstring(Lower(sub), Lower(s))
  {
    if ContainsIgnoreCase(s, sub) {
      var i: nat :| i <= |s| && OccursIgnoreCaseAt(s, sub, i);
      EqualsIgnoreCaseIffLowerEqual(s[i..i + |sub|], sub);
      LowerSlice(s, i, i + |sub|);
      assert OccursAt(Lower(s), Lower(sub), i);
    }
    if IsSubstring(Lower(sub), Lower(s)) {
      var i: nat :| i <= |Lower(s)| && OccursAt(Lower(s), Lower(sub), i);
      LowerSlice(s, i, i + |sub|);
      EqualsIgnoreCaseIffLowerEqual(s[i..i + |sub|], sub);
      assert OccursIgnoreCaseAt(s, sub, i);
    }
  }

  /** char.IsWhiteSpace: the separator categories of Unicode plus the control
      characters U+0009 to U+000D and U+0085. */
  predicate IsWhiteSpace(c: char) {
    || c == ' '
    || '\t' <= c <= '\r'
    || c == '\U{85}'
    || c == '\U{A0}'
    || c == '\U{1680}'
    || '\U{2000}' <= c <= '\U{200A}'
    || c == '\U{2028}'
    || c == '\U{2029}'
    || c == '\U{202F}'
    || c == '\U{205F}'
    || c == '\U{3000}'
  }

  /** string.IsNullOrWhiteSpace of a non-null string: empty or only white space. */
  predicate IsWhiteSpaceOnly(s: string) {
    forall i :: 0 <= i < |s| ==> IsWhiteSpace(s[i])
  }

  /** Position of the first occurrence of c in s. */
  function IndexOf(s: string, c: char): (i: nat)
    requires c in s
    ensures i < |s| && s[i] == c && c !in s[..i]
  {
    if s[0] == c then 0 else 1 + IndexOf(s[1..], c)
  }

  /** s.Split(sep): the pieces between separators, empty pieces included. */
  function Split(s: string, sep: char): (parts: seq<string>)
    ensures |parts| >= 1
    ensures forall p :: p in parts ==> sep !in p
    decreases |s|
  {
    if sep !in s then [s]
    else
      var i := IndexOf(s, sep);
      [s[..i]] + Split(s[i + 1..], sep)
  }

  /** string.Join(sep, parts), the inverse of Split. */
  function Join(parts: seq<string>, sep: char): string
    requires |parts| >= 1
  {
    if |parts| == 1 then parts[0] else parts[0] + [sep] + Join(parts[1..], sep)
  }

  /** Splitting loses nothing: joining the pieces back gives the input. */
  lemma {:induction false} JoinSplit(s: string, sep: char)
    ensures Join(Split(s, sep), sep) == s
    decreases |s|
  {
    if sep in s {
      var i := IndexOf(s, sep);
      JoinSplit(s[i + 1..], sep);
      assert s == s[..i] + [sep] + s[i + 1..];
    }
  }
}
