/**
 * The string primitives the core relies on, written out: Java's trim() and
 * its "null or trim().isEmpty()" blank test, UTF-8 and UTF-16 lengths,
 * String.replace, contains, and the ASCII case mapping.
 * A Dafny char is a Unicode scalar value, so a Java or JavaScript string is
 * a seq<char> whose UTF-16 length is computed explicitly.
 */
module Strings {
  import opened Wrappers

  /** Java's String.trim() removes every char whose code is at most U+0020. */
  predicate IsJavaSpace(c: char) { c <= ' ' }

  /** `s.trim().isEmpty()` in Java. */
  predicate IsBlank(s: string) { forall i :: 0 <= i < |s| ==> IsJavaSpace(s[i]) }

  /** `s == null || s.trim().isEmpty()`, the blank test used all over the Java code. */
  predicate NullOrBlank(s: Option<string>) { s.None? || IsBlank(s.value) }

  function TrimStart(s: string): (r: string)
    ensures |r| <= |s| && r == s[|s| - |r|..]
    ensures IsBlank(s[..|s| - |r|])
    ensures r == [] || !IsJavaSpace(r[0])
  {
    if s != [] && IsJavaSpace(s[0]) then TrimStart(s[1..]) else s
  }

  function TrimEnd(s: string): (r: string)
    ensures |r| <= |s| && r == s[..|r|]
    ensures IsBlank(s[|r|..])
    ensures r == [] || !IsJavaSpace(r[|r| - 1])
  {
    if s != [] && IsJavaSpace(s[|s| - 1]) then TrimEnd(s[..|s| - 1]) else s
  }

  /** Java's String.trim(). */
  function JavaTrim(s: string): string { TrimEnd(TrimStart(s)) }

  /** trim() keeps exactly the middle of the string, which starts and ends with a non-space char. */
  lemma JavaTrimSlice(s: string)
    ensures exists i, j :: 0 <= i <= j <= |s| && JavaTrim(s) == s[i..j] && IsBlank(s[..i]) && IsBlank(s[j..])
    ensures JavaTrim(s) == [] || (!IsJavaSpace(JavaTrim(s)[0]) && !IsJavaSpace(JavaTrim(s)[|JavaTrim(s)| - 1]))
  {
    var i, j := JavaTrimBounds(s);
    JavaTrimEnds(s);
  }

  lemma JavaTrimBounds(s: string) returns (i: int, j: int)
    ensures 0 <= i <= j <= |s| && JavaTrim(s) == s[i..j] && IsBlank(s[..i]) && IsBlank(s[j..])
  {
    var t := TrimStart(s);
    var e := TrimEnd(t);
    i := |s| - |t|;
    j := i + |e|;
    assert e == s[i..j] by {
      assert t == s[i..] && e == t[..|e|];
    }
    assert IsBlank(s[j..]) by {
      assert s[j..] == t[|e|..];
    }
  }

  lemma JavaTrimEnds(s: string)
    ensures JavaTrim(s) == [] || (!IsJavaSpace(JavaTrim(s)[0]) && !IsJavaSpace(JavaTrim(s)[|JavaTrim(s)| - 1]))
  {
    var t := TrimStart(s);
    var e := TrimEnd(t);
    if e != [] {
      assert e[0] == t[0];
    }
  }

  lemma {:induction false} TrimStartKeepsNonBlank(s: string)
    requires !IsBlank(s)
    ensures !IsBlank(TrimStart(s))
  {
    if s != [] && IsJavaSpace(s[0]) {
      var k :| 0 <= k < |s| && !IsJavaSpace(s[k]);
      assert s[1..][k - 1] == s[k];
      TrimStartKeepsNonBlank(s[1..]);
    }
  }

  lemma {:induction false} TrimEndKeepsNonBlank(s: string)
    requires !IsBlank(s)
    ensures !IsBlank(TrimEnd(s))
  {
    if s != [] && IsJavaSpace(s[|s| - 1]) {
      var k :| 0 <= k < |s| && !IsJavaSpace(s[k]);
      assert s[..|s| - 1][k] == s[k];
      TrimEndKeepsNonBlank(s[..|s| - 1]);
    }
  }

  /** trim() yields the empty string exactly for blank strings. */
  lemma TrimEmptyIffBlank(s: string)
    ensures JavaTrim(s) == [] <==> IsBlank(s)
  {
    if !IsBlank(s) {
      TrimStartKeepsNonBlank(s);
      TrimEndKeepsNonBlank(TrimStart(s));
    }
  }

  /** A string that starts and ends with a non-space char is its own trim. */
  lemma JavaTrimKeeps(s: string)
    requires s != [] && !IsJavaSpace(s[0]) && !IsJavaSpace(s[|s| - 1])
    ensures JavaTrim(s) == s
  {
    assert TrimStart(s) == s;
  }

  /** Trimming twice is trimming once. */
  lemma JavaTrimIdempotent(s: string)
    ensures JavaTrim(JavaTrim(s)) == JavaTrim(s)
  {
    JavaTrimSlice(s);
    var r := JavaTrim(s);
    if r != [] {
      assert TrimStart(r) == r;
      assert TrimEnd(r) == r;
    }
  }

  /** Bytes of one scalar value in UTF-8 (Java's getBytes(UTF_8)). */
  function Utf8Width(c: char): nat
  {
    if c as int < 0x80 then 1 else if c as int < 0x800 then 2 else if c as int < 0x10000 then 3 else 4
  }

  /** `s.getBytes(StandardCharsets.UTF_8).length`. */
  function Utf8Length(s: string): nat
  {
    if s == [] then 0 else Utf8Width(s[0]) + Utf8Length(s[1..])
  }

  /** Java's String.length() and JavaScript's .length count UTF-16 code units. */
  function Utf16Length(s: string): nat
  {
    if s == [] then 0 else (if s[0] as int < 0x10000 then 1 else 2) + Utf16Length(s[1..])
  }

  lemma {:induction false} Utf8LengthBounds(s: string)
    ensures |s| <= Utf8Length(s) <= 4 * |s|
    ensures (forall i :: 0 <= i < |s| ==> s[i] as int < 0x80) ==> Utf8Length(s) == |s|
  {
    if s != [] { Utf8LengthBounds(s[1..]); }
  }

  lemma {:induction false} Utf8LengthAppend(a: string, b: string)
    ensures Utf8Length(a + b) == Utf8Length(a) + Utf8Length(b)
  {
    if a != [] {
      assert (a + b)[0] == a[0];
      assert (a + b)[1..] == a[1..] + b;
      Utf8LengthAppend(a[1..], b);
    } else {
      assert a + b == b;
    }
  }

  lemma {:induction false} Utf16LengthBmp(s: string)
    requires forall i :: 0 <= i < |s| ==> s[i] as int < 0x10000
    ensures Utf16Length(s) == |s|
  {
    if s != [] { Utf16LengthBmp(s[1..]); }
  }

  /** Java's contains / JavaScript's includes. */
  predicate Contains(s: string, t: string)
  {
    exists i | 0 <= i <= |s| :: OccursAt(s, t, i)
  }

  predicate OccursAt(s: string, t: string, i: int)
  {
    0 <= i <= |s| - |t| && s[i..i + |t|] == t
  }

  /** An occurrence in the tail of a string is an occurrence in the string. */
  lemma ContainsTail(s: string, t: string)
    requires s != [] && !Contains(s, t)
    ensures !Contains(s[1..], t)
  {
    forall i | 0 <= i <= |s[1..]| - |t| ensures !OccursAt(s[1..], t, i) {
      assert s[1..][i..i + |t|] == s[i + 1..i + 1 + |t|];
      assert !OccursAt(s, t, i + 1);
    }
  }

  predicate StartsWith(s: string, p: string) { |p| <= |s| && s[..|p|] == p }

  predicate EndsWith(s: string, p: string) { |p| <= |s| && s[|s| - |p|..] == p }

  /**
   * Java's String.replace(target, replacement): every occurrence of target,
   * scanning left to right without overlap, is replaced.
   */
  function ReplaceAll(s: string, target: string, replacement: string): string
    requires |target| > 0
    decreases |s|
  {
    if |s| < |target| then s
    else if s[..|target|] == target then replacement + ReplaceAll(s[|target|..], target, replacement)
    else [s[0]] + ReplaceAll(s[1..], target, replacement)
  }

  /** A string without the target is left as it is. */
  lemma {:induction false} ReplaceAllAbsent(s: string, target: string, replacement: string)
    requires |target| > 0 && !Contains(s, target)
    ensures ReplaceAll(s, target, replacement) == s
  {
    if |s| >= |target| {
      assert !OccursAt(s, target, 0);
      ContainsTail(s, target);
      ReplaceAllAbsent(s[1..], target, replacement);
    }
  }

  /**
   * Removing every occurrence of a suffix whose first char occurs nowhere
   * else in it gives back the front part, provided the front part does not
   * contain the suffix: no occurrence can straddle the seam.
   */
  lemma {:induction false} ReplaceAllDropsSuffix(u: string, t: string)
    requires |t| > 0 && (forall k :: 0 < k < |t| ==> t[k] != t[0])
    requires !Contains(u, t)
    ensures ReplaceAll(u + t, t, "") == u
    decreases |u|
  {
    var s := u + t;
    if u == [] {
      assert s == t && s[..|t|] == t && s[|t|..] == [];
    } else {
      ReplaceAllStepsOver(u, t);
      assert s[1..] == u[1..] + t;
      ContainsTail(u, t);
      ReplaceAllDropsSuffix(u[1..], t);
    }
  }

  /** The first char of the front part is not the start of an occurrence, so it is kept. */
  lemma ReplaceAllStepsOver(u: string, t: string)
    requires |t| > 0 && (forall k :: 0 < k < |t| ==> t[k] != t[0])
    requires !Contains(u, t) && u != []
    ensures ReplaceAll(u + t, t, "") == [u[0]] + ReplaceAll((u + t)[1..], t, "")
  {
    var s := u + t;
    if |u| >= |t| {
      assert u[0..|t|] == s[..|t|];
      assert !OccursAt(u, t, 0);
    } else {
      assert s[..|t|][|u|] == s[|u|] == t[0] != t[|u|];
    }
    assert s[..|t|] != t;
  }

  /** ASCII case mapping (see the validators for why this equals Java's toLowerCase on their inputs). */
  function LowerChar(c: char): char
  {
    if 'A' <= c <= 'Z' then (c as int + 32) as char else c
  }

  function ToLower(s: string): (r: string)
    ensures |r| == |s| && forall i :: 0 <= i < |s| ==> r[i] == LowerChar(s[i])
  {
    if s == [] then [] else [LowerChar(s[0])] + ToLower(s[1..])
  }

  /** Decimal digits of a natural number, as Java and JavaScript print it. */
  function NatToString(n: nat): (r: string)
    ensures |r| > 0 && forall i :: 0 <= i < |r| ==> '0' <= r[i] <= '9'
    ensures n < 10 <==> |r| == 1
  {
    if n < 10 then [(48 + n) as char] else NatToString(n / 10) + [(48 + n % 10) as char]
  }
}
