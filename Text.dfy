/**
 * The .NET string primitives the address code relies on:
 * `char.IsWhiteSpace`, `string.IsNullOrWhiteSpace`, `Trim` (defined through
 * its two halves `TrimStart` and `TrimEnd`), `Replace(x, "")` for a
 * one-character `x`, and `ToUpperInvariant`. `StartsWith` and `EndsWith` are
 * the model's own predicates, used to state how the full address opens and
 * closes.
 */
module Text {
  import opened Wrappers

  /** `char.IsWhiteSpace`: the Unicode White_Space characters. */
  predicate IsWhite(c: char) {
    || ('\t' <= c <= '\r')
    || c == ' '
    || c == '\U{0085}'
    || c == '\U{00A0}'
    || c == '\U{1680}'
    || ('\U{2000}' <= c <= '\U{200A}')
    || c == '\U{2028}'
    || c == '\U{2029}'
    || c == '\U{202F}'
    || c == '\U{205F}'
    || c == '\U{3000}'
  }

  /** Among ASCII characters, white space is exactly the space and the controls from tab to carriage return. */
  lemma AsciiWhiteSpace(c: char)
    requires c as int < 128
    ensures IsWhite(c) <==> c == ' ' || '\t' <= c <= '\r'
  {
  }

  /** `string.IsNullOrWhiteSpace` on a non-null string: empty or all white space. */
  predicate IsBlank(s: string) {
    forall i :: 0 <= i < |s| ==> IsWhite(s[i])
  }

  /** `string.IsNullOrWhiteSpace` on a nullable string. */
  predicate IsNullOrBlank(o: Option<string>) {
    o.None? || IsBlank(o.value)
  }

  /** Neither the first nor the last character is white space. */
  predicate IsTrimmed(s: string) {
    |s| == 0 || (!IsWhite(s[0]) && !IsWhite(s[|s| - 1]))
  }

  /** Drops leading white space: the result is the suffix that starts at the first non-white character. */
  function TrimStart(s: string): (r: string)
    ensures |r| <= |s| && r == s[|s| - |r|..]
    ensures IsBlank(s[..|s| - |r|])
    ensures |r| > 0 ==> !IsWhite(r[0])
    decreases |s|
  {
    if |s| > 0 && IsWhite(s[0]) then TrimStart(s[1..]) else s
  }

  /** Drops trailing white space: the result is the prefix that ends at the last non-white character. */
  function TrimEnd(s: string): (r: string)
    ensures |r| <= |s| && r == s[..|r|]
    ensures IsBlank(s[|r|..])
    ensures |r| > 0 ==> !IsWhite(r[|r| - 1])
    decreases |s|
  {
    if |s| > 0 && IsWhite(s[|s| - 1]) then TrimEnd(s[..|s| - 1]) else s
  }

  /** `string.Trim()`: removes leading and trailing white space. */
  function Trim(s: string): (r: string)
    ensures IsTrimmed(r)
    ensures r == "" <==> IsBlank(s)
  {
    var t := TrimStart(s);
    var r := TrimEnd(t);
    assert r == "" ==> IsBlank(s) by {
      if r == "" {
        forall i | 0 <= i < |s| ensures IsWhite(s[i]) {
          assert s[..|s| - |t|][i] == s[i];
        }
      }
    }
    r
  }

  /** `Trim` only removes characters: everything in its result occurs in its input. */
  lemma TrimKeepsCharacters(s: string)
    ensures forall x :: x in Trim(s) ==> x in s
  {
    var t := TrimStart(s);
    var r := TrimEnd(t);
    assert Trim(s) == r;
    forall x | x in r ensures x in s {
      var i :| 0 <= i < |r| && r[i] == x;
      assert r[i] == t[..|r|][i] == t[i];
      assert t[i] == s[|s| - |t|..][i] == s[|s| - |t| + i];
    }
  }

  /** Trimming white-space padding off a trimmed core gives back exactly the core. */
  lemma {:induction false} TrimPadded(p: string, m: string, q: string)
    requires IsBlank(p) && IsBlank(q) && IsTrimmed(m)
    ensures Trim(p + m + q) == m
  {
    assert p + m + q == p + (m + q);
    TrimStartPadded(p, m + q);
    if m != "" {
      assert (m + q)[0] == m[0];
      TrimEndPadded(m, q);
    }
  }

  /** Leading white space in front of `t` makes no difference to `TrimStart`. */
  lemma {:induction false} TrimStartPadded(p: string, t: string)
    requires IsBlank(p)
    ensures TrimStart(p + t) == TrimStart(t)
  {
    if p != [] {
      assert (p + t)[1..] == p[1..] + t;
      TrimStartPadded(p[1..], t);
    } else {
      assert p + t == t;
    }
  }

  /** Trailing white space after a string that does not end in white space is exactly what `TrimEnd` removes. */
  lemma {:induction false} TrimEndPadded(t: string, q: string)
    requires IsBlank(q) && |t| > 0 && !IsWhite(t[|t| - 1])
    ensures TrimEnd(t + q) == t
  {
    if q == [] {
      assert t + q == t;
    } else {
      assert (t + q)[..|t + q| - 1] == t + q[..|q| - 1];
      TrimEndPadded(t, q[..|q| - 1]);
    }
  }

  /** A blank string with no white space at either end is empty. */
  lemma BlankTrimmedIsEmpty(s: string)
    requires IsBlank(s) && IsTrimmed(s)
    ensures s == ""
  {
  }

  /** A string with no white space at either end is left unchanged by `Trim`. */
  lemma TrimTrimmed(s: string)
    requires IsTrimmed(s)
    ensures Trim(s) == s
  {
    TrimPadded("", s, "");
    assert "" + s + "" == s;
  }

  /** `Trim` is idempotent. */
  lemma TrimIdempotent(s: string)
    ensures Trim(Trim(s)) == Trim(s)
  {
    TrimTrimmed(Trim(s));
  }

  /** `s.Replace(c.ToString(), "")`: every occurrence of `c` removed, the rest kept in order. */
  function Remove(s: string, c: char): (r: string)
    ensures forall x :: x in r <==> x in s && x != c
    ensures c !in s ==> r == s
  {
    if s == [] then []
    else
      assert s == [s[0]] + s[1..];
      (if s[0] == c then [] else [s[0]]) + Remove(s[1..], c)
  }

  /** Removing a character distributes over concatenation. */
  lemma {:induction false} RemoveAppend(a: string, b: string, c: char)
    ensures Remove(a + b, c) == Remove(a, c) + Remove(b, c)
  {
    if a == [] {
      assert a + b == b;
    } else {
      assert (a + b)[0] == a[0];
      assert (a + b)[1..] == a[1..] + b;
      RemoveAppend(a[1..], b, c);
    }
  }

  /** `p` is a prefix of `s`: the model's own predicate for stating how the full address opens. */
  predicate StartsWith(s: string, p: string) {
    |p| <= |s| && s[..|p|] == p
  }

  /** `q` is a suffix of `s`: the model's own predicate for stating how the full address closes. */
  predicate EndsWith(s: string, q: string) {
    |q| <= |s| && s[|s| - |q|..] == q
  }

  lemma StartsWithAppend(p: string, t: string)
    ensures StartsWith(p + t, p)
  {
    assert (p + t)[..|p|] == p;
  }

  lemma StartsWithExtend(s: string, p: string, t: string)
    requires StartsWith(s, p)
    ensures StartsWith(s + t, p)
  {
    assert (s + t)[..|p|] == s[..|p|];
  }

  lemma EndsWithExtend(p: string, s: string, q: string)
    requires EndsWith(s, q)
    ensures EndsWith(p + s, q)
  {
    assert (p + s)[|p + s| - |q|..] == s[|s| - |q|..];
  }

  lemma EndsWithPair(s: string, x: string, y: string)
    ensures EndsWith(s + x + y, x + y)
  {
    assert s + x + y == s + (x + y);
    assert (s + (x + y))[|s|..] == x + y;
  }

  predicate IsLowerAscii(c: char) {
    'a' <= c <= 'z'
  }

  /** `char.ToUpperInvariant`, restricted to the ASCII letters. */
  function ToUpperChar(c: char): (r: char)
    ensures !IsLowerAscii(r)
    ensures IsLowerAscii(c) ==> 'A' <= r <= 'Z' && r as int - 'A' as int == c as int - 'a' as int
    ensures !IsLowerAscii(c) ==> r == c
    ensures IsWhite(r) <==> IsWhite(c)
  {
    if IsLowerAscii(c) then (c as int - 32) as char else c
  }

  /** `string.ToUpperInvariant()`: each character mapped through `ToUpperChar`. */
  function ToUpperInvariant(s: string): (r: string)
    ensures |r| == |s|
    ensures forall i :: 0 <= i < |s| ==> r[i] == ToUpperChar(s[i])
  {
    if s == [] then [] else [ToUpperChar(s[0])] + ToUpperInvariant(s[1..])
  }

  /** No character of `s` is a lower-case ASCII letter. */
  predicate IsUpperCase(s: string) {
    forall i :: 0 <= i < |s| ==> !IsLowerAscii(s[i])
  }

  /** Upper-casing yields an upper-case string, leaves one already upper-case alone, and keeps white space where it was. */
  lemma ToUpperInvariantFacts(s: string)
    ensures IsUpperCase(ToUpperInvariant(s))
    ensures IsUpperCase(s) ==> ToUpperInvariant(s) == s
    ensures IsBlank(ToUpperInvariant(s)) <==> IsBlank(s)
    ensures IsTrimmed(ToUpperInvariant(s)) <==> IsTrimmed(s)
  {
  }

  /** Upper-casing keeps white space exactly where it was. */
  lemma ToUpperInvariantKeepsWhite(s: string)
    ensures forall i :: 0 <= i < |s| ==> (IsWhite(ToUpperInvariant(s)[i]) <==> IsWhite(s[i]))
  {
  }
}
