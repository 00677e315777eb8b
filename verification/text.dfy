/**
 * The three Go string routines the core relies on: `strings.Split` with a
 * one-character separator, `strings.ToLower` (as far as it matters for
 * comparing against an ASCII word) and `strings.TrimSpace`.
 */
module Text {

  /** Number of occurrences of `c` in `s`. */
  function Count(s: string, c: char): nat
  {
    if |s| == 0 then 0 else (if s[0] == c then 1 else 0) + Count(s[1..], c)
  }

  /** `strings.Join(parts, string(sep))`. */
  function Join(parts: seq<string>, sep: char): string
    requires |parts| >= 1
  {
    if |parts| == 1 then parts[0] else parts[0] + [sep] + Join(parts[1..], sep)
  }

  /**
   * `strings.Split(s, string(sep))`: every occurrence of the separator ends
   * one part and starts the next, so an empty string gives one empty part and
   * two adjacent separators give an empty part between them.
   */
  function Split(s: string, sep: char): (parts: seq<string>)
    ensures |parts| == Count(s, sep) + 1
    ensures forall i :: 0 <= i < |parts| ==> sep !in parts[i]
    ensures Join(parts, sep) == s
    decreases |s|
  {
    if |s| == 0 then [""]
    else
      var rest := Split(s[1..], sep);
      if s[0] == sep then
        assert s == [sep] + s[1..];
        [""] + rest
      else
        var parts := [[s[0]] + rest[0]] + rest[1..];
        assert Join(parts, sep) == [s[0]] + Join(rest, sep) by {
          if |rest| > 1 {
            assert parts[1..] == rest[1..];
            assert ([s[0]] + rest[0]) + [sep] + Join(rest[1..], sep)
                == [s[0]] + (rest[0] + [sep] + Join(rest[1..], sep));
          }
        }
        assert s == [s[0]] + s[1..];
        parts
  }

  lemma {:induction false} SplitNoSeparator(s: string, sep: char)
    requires sep !in s
    ensures Split(s, sep) == [s]
    decreases |s|
  {
    if |s| > 0 {
      SplitNoSeparator(s[1..], sep);
    }
  }

  lemma {:induction false} SplitAfterFirstPart(a: string, sep: char, rest: string)
    requires sep !in a
    ensures Split(a + [sep] + rest, sep) == [a] + Split(rest, sep)
    decreases |a|
  {
    if |a| > 0 {
      assert (a + [sep] + rest)[1..] == a[1..] + [sep] + rest;
      SplitAfterFirstPart(a[1..], sep, rest);
      assert a == [a[0]] + a[1..];
    } else {
      assert a + [sep] + rest == [sep] + rest;
    }
  }

  /** Split undoes Join whenever no part contains the separator. */
  lemma {:induction false} SplitJoin(parts: seq<string>, sep: char)
    requires |parts| >= 1
    requires forall i :: 0 <= i < |parts| ==> sep !in parts[i]
    ensures Split(Join(parts, sep), sep) == parts
    decreases |parts|
  {
    if |parts| == 1 {
      SplitNoSeparator(parts[0], sep);
    } else {
      SplitJoin(parts[1..], sep);
      SplitAfterFirstPart(parts[0], sep, Join(parts[1..], sep));
      assert parts == [parts[0]] + parts[1..];
    }
  }

  /** A header splits into exactly two parts iff it is two separator-free strings around one separator. */
  lemma SplitTwoParts(s: string, sep: char)
    ensures |Split(s, sep)| == 2 <==>
      exists a: string, b: string :: sep !in a && sep !in b && s == a + [sep] + b
  {
    var parts := Split(s, sep);
    if |parts| == 2 {
      assert parts[1..] == [parts[1]];
      assert Join(parts[1..], sep) == parts[1];
      assert s == parts[0] + [sep] + parts[1];
    }
    if exists a: string, b: string :: sep !in a && sep !in b && s == a + [sep] + b {
      var a: string, b: string :| sep !in a && sep !in b && s == a + [sep] + b;
      SplitJoin([a, b], sep);
      assert [a, b][1..] == [b];
    }
  }

  /** `unicode.ToLower` restricted to ASCII: capitals map to small letters, nothing else moves. */
  function LowerChar(c: char): char
  {
    if 'A' <= c <= 'Z' then (c as int + 32) as char else c
  }

  function UpperChar(c: char): char
  {
    if 'a' <= c <= 'z' then (c as int - 32) as char else c
  }

  /** `strings.ToLower`: rune by rune, so the length is kept. */
  function ToLower(s: string): (r: string)
    ensures |r| == |s|
    ensures forall i :: 0 <= i < |s| ==> r[i] == LowerChar(s[i])
  {
    if |s| == 0 then [] else [LowerChar(s[0])] + ToLower(s[1..])
  }

  predicate IsLowerWord(w: string)
  {
    forall i :: 0 <= i < |w| ==> 'a' <= w[i] <= 'z'
  }

  /**
   * Comparing `strings.ToLower(s)` with a lower-case ASCII word accepts exactly
   * the strings that spell the word with each letter in either case.
   */
  lemma LowerEqualsWord(s: string, w: string)
    requires IsLowerWord(w)
    ensures ToLower(s) == w <==>
      |s| == |w| && forall i :: 0 <= i < |s| ==> s[i] == w[i] || s[i] == UpperChar(w[i])
  {
    var t := ToLower(s);
    if t == w {
      forall i | 0 <= i < |s| ensures s[i] == w[i] || s[i] == UpperChar(w[i]) {
        LowerCharInverse(s[i], w[i]);
      }
    }
    if |s| == |w| && forall i :: 0 <= i < |s| ==> s[i] == w[i] || s[i] == UpperChar(w[i]) {
      forall i | 0 <= i < |s| ensures t[i] == w[i] {
        LowerCharInverse(s[i], w[i]);
      }
    }
  }

  lemma LowerCharInverse(c: char, l: char)
    requires 'a' <= l <= 'z'
    ensures LowerChar(c) == l <==> c == l || c == UpperChar(l)
  {
  }

  /** `unicode.IsSpace`: the Latin-1 spaces plus the rest of Unicode's White_Space property. */
  predicate IsSpace(c: char)
  {
    || (9 <= c as int <= 13)
    || c == ' '
    || c as int == 0x85
    || c as int == 0xA0
    || c as int == 0x1680
    || (0x2000 <= c as int <= 0x200A)
    || c as int == 0x2028
    || c as int == 0x2029
    || c as int == 0x202F
    || c as int == 0x205F
    || c as int == 0x3000
  }

  predicate AllSpace(s: string)
  {
    forall i :: 0 <= i < |s| ==> IsSpace(s[i])
  }

  /** Neither end of `s` is white space (vacuously so when `s` is empty). */
  predicate TrimmedEnds(s: string)
  {
    |s| > 0 ==> !IsSpace(s[0]) && !IsSpace(s[|s| - 1])
  }

  /** How many characters of white space `s` starts with. */
  function LeadingSpace(s: string): (n: nat)
    ensures n <= |s|
    ensures forall k :: 0 <= k < n ==> IsSpace(s[k])
    ensures n < |s| ==> !IsSpace(s[n])
    decreases |s|
  {
    if |s| > 0 && IsSpace(s[0]) then
      var n := LeadingSpace(s[1..]);
      assert forall k :: 1 <= k < n + 1 ==> s[k] == s[1..][k - 1];
      n + 1
    else 0
  }

  /** Where the white space `s` ends with begins. */
  function TrailingSpace(s: string): (j: nat)
    ensures j <= |s|
    ensures forall k :: j <= k < |s| ==> IsSpace(s[k])
    ensures j > 0 ==> !IsSpace(s[j - 1])
    decreases |s|
  {
    if |s| > 0 && IsSpace(s[|s| - 1]) then
      var j := TrailingSpace(s[..|s| - 1]);
      assert forall k :: j <= k < |s| - 1 ==> s[k] == s[..|s| - 1][k];
      j
    else |s|
  }

  /**
   * `strings.TrimSpace`: the middle of `s` between its leading and its
   * trailing white space; empty when `s` is nothing but white space.
   */
  function TrimSpace(s: string): (r: string)
    ensures |r| <= |s|
    ensures TrimmedEnds(r)
  {
    var i := LeadingSpace(s);
    if i == |s| then ""
    else
      var j := TrailingSpace(s);
      assert i < j;
      s[i..j]
  }

  /** The trimmed string is empty exactly when the input is nothing but white space. */
  lemma TrimSpaceEmpty(s: string)
    ensures TrimSpace(s) == "" <==> AllSpace(s)
  {
    var i := LeadingSpace(s);
    if i < |s| {
      assert !IsSpace(s[i]);
      assert i < TrailingSpace(s);
    }
  }

  /** Where the trimmed string sits in its input: everything cut off is white space. */
  lemma TrimSpaceBounds(s: string) returns (i: nat, j: nat)
    ensures i <= j <= |s| && TrimSpace(s) == s[i..j] && AllSpace(s[..i]) && AllSpace(s[j..])
  {
    i := LeadingSpace(s);
    if i == |s| {
      j := i;
    } else {
      j := TrailingSpace(s);
      assert i < j;
      SpaceFromIndexes(s, j);
    }
    SpaceBeforeIndexes(s, i);
  }

  lemma SpaceBeforeIndexes(s: string, n: nat)
    requires n <= |s| && forall k :: 0 <= k < n ==> IsSpace(s[k])
    ensures AllSpace(s[..n])
  {
    assert forall k :: 0 <= k < n ==> s[..n][k] == s[k];
  }

  lemma SpaceFromIndexes(s: string, n: nat)
    requires n <= |s| && forall k :: n <= k < |s| ==> IsSpace(s[k])
    ensures AllSpace(s[n..])
  {
    assert forall k :: 0 <= k < |s| - n ==> s[n..][k] == s[k + n];
  }

  /** A string with neither end white space is its own trimmed form. */
  lemma TrimSpaceOfTrimmed(s: string)
    requires TrimmedEnds(s)
    ensures TrimSpace(s) == s
  {
    if |s| > 0 {
      assert LeadingSpace(s) == 0;
      assert TrailingSpace(s) == |s|;
      assert s[0..|s|] == s;
    }
  }

  /** Trimming twice trims nothing more. */
  lemma TrimSpaceIdempotent(s: string)
    ensures TrimSpace(TrimSpace(s)) == TrimSpace(s)
  {
    TrimSpaceOfTrimmed(TrimSpace(s));
  }

  /**
   * The trimmed string is pinned down by its ends: any slice whose cut-off
   * parts are white space and whose ends are not is the trimmed string.
   */
  lemma TrimSpaceUnique(s: string, i: nat, j: nat)
    requires i <= j <= |s| && AllSpace(s[..i]) && AllSpace(s[j..])
    requires TrimmedEnds(s[i..j])
    ensures TrimSpace(s) == s[i..j]
  {
    SpaceBefore(s, i);
    SpaceFrom(s, j);
    if i == j {
      TrimSpaceEmpty(s);
    } else {
      assert s[i..j][0] == s[i] && s[i..j][j - i - 1] == s[j - 1];
      LeadingSpaceAt(s, i);
      TrailingSpaceAt(s, j);
    }
  }

  lemma SpaceBefore(s: string, n: nat)
    requires n <= |s| && AllSpace(s[..n])
    ensures forall k :: 0 <= k < n ==> IsSpace(s[k])
  {
    assert forall k :: 0 <= k < n ==> s[..n][k] == s[k];
  }

  lemma SpaceFrom(s: string, n: nat)
    requires n <= |s| && AllSpace(s[n..])
    ensures forall k :: n <= k < |s| ==> IsSpace(s[k])
  {
    assert forall k :: n <= k < |s| ==> s[n..][k - n] == s[k];
  }

  /** The first character that is not white space is where the leading white space stops. */
  lemma LeadingSpaceAt(s: string, i: nat)
    requires i < |s| && !IsSpace(s[i]) && forall k :: 0 <= k < i ==> IsSpace(s[k])
    ensures LeadingSpace(s) == i
  {
  }

  /** The last character that is not white space is where the trailing white space starts. */
  lemma TrailingSpaceAt(s: string, j: nat)
    requires 0 < j <= |s| && !IsSpace(s[j - 1]) && forall k :: j <= k < |s| ==> IsSpace(s[k])
    ensures TrailingSpace(s) == j
  {
  }

  lemma AllSpaceConcat(a: string, b: string)
    requires AllSpace(a) && AllSpace(b)
    ensures AllSpace(a + b)
  {
    forall k | 0 <= k < |a + b| ensures IsSpace((a + b)[k]) {
      if k < |a| { assert (a + b)[k] == a[k]; } else { assert (a + b)[k] == b[k - |a|]; }
    }
  }

  /** A string made of white space, a middle with non-space ends, and white space trims to the middle. */
  lemma TrimSpaceOfPieces(a: string, m: string, b: string)
    requires AllSpace(a) && AllSpace(b)
    requires TrimmedEnds(m)
    ensures TrimSpace(a + m + b) == m
  {
    var u := a + m + b;
    assert u[..|a|] == a;
    assert u[|a| + |m|..] == b;
    assert u[|a|..|a| + |m|] == m;
    TrimSpaceUnique(u, |a|, |a| + |m|);
  }

  /** The pieces a string is cut into by trimming. */
  lemma TrimSpacePieces(s: string) returns (a: string, b: string)
    ensures s == a + TrimSpace(s) + b && AllSpace(a) && AllSpace(b)
  {
    var i, j := TrimSpaceBounds(s);
    a, b := s[..i], s[j..];
    SliceThree(s, i, j);
  }

  lemma SliceThree(s: string, i: nat, j: nat)
    requires i <= j <= |s|
    ensures s == s[..i] + s[i..j] + s[j..]
  {
  }

  lemma Regroup(s: string, pad: string, a: string, m: string, b: string)
    requires s == a + m + b
    ensures pad + s + pad == (pad + a) + m + (b + pad)
  {
  }

  /** White space added around a string is trimmed away with the rest. */
  lemma TrimSpacePadded(s: string, pad: string)
    requires AllSpace(pad)
    ensures TrimSpace(pad + s + pad) == TrimSpace(s)
  {
    var a, b := TrimSpacePieces(s);
    var m := TrimSpace(s);
    Regroup(s, pad, a, m, b);
    AllSpaceConcat(pad, a);
    AllSpaceConcat(b, pad);
    TrimSpaceOfPieces(pad + a, m, b + pad);
  }
}
