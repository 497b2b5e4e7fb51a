/**
 * Character classes of the summary pattern and the ordering Python uses when
 * it compares two strings (code point by code point, a proper prefix first).
 */
module Text {

  /** `\d` (ASCII digits). */
  predicate IsDigit(c: char) { '0' <= c <= '9' }

  /** `[A-Z0-9]`, the paper-code class. */
  predicate IsPaperChar(c: char) { 'A' <= c <= 'Z' || IsDigit(c) }

  /** `[A-Z+]`, the event-type class. */
  predicate IsTypeChar(c: char) { 'A' <= c <= 'Z' || c == '+' }

  predicate AllDigits(s: string) { forall i :: 0 <= i < |s| ==> IsDigit(s[i]) }

  predicate AllPaperChars(s: string) { forall i :: 0 <= i < |s| ==> IsPaperChar(s[i]) }

  /** Python's `a <= b` on strings. */
  predicate StrLe(a: string, b: string)
    decreases |a|
  {
    |a| == 0 || (|b| > 0 && (a[0] < b[0] || (a[0] == b[0] && StrLe(a[1..], b[1..]))))
  }

  lemma {:induction false} StrLeReflexive(a: string)
    ensures StrLe(a, a)
    decreases |a|
  {
    if |a| > 0 { StrLeReflexive(a[1..]); }
  }

  lemma {:induction false} StrLeTotal(a: string, b: string)
    ensures StrLe(a, b) || StrLe(b, a)
    decreases |a|
  {
    if |a| > 0 && |b| > 0 && a[0] == b[0] { StrLeTotal(a[1..], b[1..]); }
  }

  lemma {:induction false} StrLeAntisymmetric(a: string, b: string)
    requires StrLe(a, b) && StrLe(b, a)
    ensures a == b
    decreases |a|
  {
    if |a| > 0 {
      StrLeAntisymmetric(a[1..], b[1..]);
      assert a == [a[0]] + a[1..] && b == [b[0]] + b[1..];
    }
  }

  lemma {:induction false} StrLeTransitive(a: string, b: string, c: string)
    requires StrLe(a, b) && StrLe(b, c)
    ensures StrLe(a, c)
    decreases |a|
  {
    if |a| > 0 && a[0] == b[0] && b[0] == c[0] { StrLeTransitive(a[1..], b[1..], c[1..]); }
  }

  /** Python's `a < b` on strings. */
  predicate StrLt(a: string, b: string) { StrLe(a, b) && a != b }

  lemma StrLtTrichotomy(a: string, b: string)
    ensures StrLt(a, b) || StrLt(b, a) || a == b
  {
    StrLeTotal(a, b);
  }

  lemma StrLtTransitive(a: string, b: string, c: string)
    requires StrLt(a, b) && StrLt(b, c)
    ensures StrLt(a, c)
  {
    StrLeTransitive(a, b, c);
    if a == c { StrLeAntisymmetric(a, b); }
  }

  /** Not below means at or above. */
  lemma NotStrLt(a: string, b: string)
    requires !StrLt(b, a)
    ensures StrLe(a, b)
  {
    StrLeTotal(a, b);
    if a == b { StrLeReflexive(a); }
  }
}
