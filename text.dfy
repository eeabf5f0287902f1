/**
 * The string primitives the core relies on (Go's `strings` package, the
 * JavaScript `String` methods and regex replaces), over `seq<char>`.
 * Case mapping covers ASCII letters only.
 */
module Text {
  import Seqs

  predicate IsDigit(c: char) {
    '0' <= c <= '9'
  }

  predicate IsUpperAscii(c: char) {
    'A' <= c <= 'Z'
  }

  function LowerChar(c: char): (r: char)
    ensures !IsUpperAscii(r)
    ensures !IsUpperAscii(c) ==> r == c
  {
    if IsUpperAscii(c) then (c as int + 32) as char else c
  }

  /** `strings.ToLower` / `toLowerCase`, restricted to ASCII letters. */
  function ToLower(s: string): (r: string)
    ensures |r| == |s|
    ensures forall i :: 0 <= i < |s| ==> r[i] == LowerChar(s[i])
  {
    seq(|s|, i requires 0 <= i < |s| => LowerChar(s[i]))
  }

  lemma ToLowerIdempotent(s: string)
    ensures ToLower(ToLower(s)) == ToLower(s)
  {
  }

  /** The first piece of `s` split at `sep` (`strings.Split(s, sep)[0]`, `s.split(sep)[0]`). */
  function BeforeFirst(s: string, sep: char): (r: string)
    ensures r <= s
    ensures sep !in r
    ensures |r| < |s| ==> s[|r|] == sep
  {
    if s == [] then []
    else if s[0] == sep then []
    else [s[0]] + BeforeFirst(s[1..], sep)
  }

  /** `s` with every occurrence of `c` deleted (`strings.ReplaceAll(s, c, "")`, `replace(/c/g, '')`). */
  function RemoveAll(s: string, c: char): (r: string)
    ensures c !in r
    ensures |r| <= |s|
    ensures forall x :: x in r ==> x in s
    ensures forall x :: x in s && x != c ==> x in r
  {
    if s == [] then []
    else if s[0] == c then RemoveAll(s[1..], c)
    else [s[0]] + RemoveAll(s[1..], c)
  }

  /** The index of the first occurrence of `c` in `s`, or -1 (`indexOf`). */
  function IndexOf(s: string, c: char): (r: int)
    ensures -1 <= r < |s|
    ensures r >= 0 ==> s[r] == c
    ensures forall j :: 0 <= j < |s| && (r == -1 || j < r) ==> s[j] != c
    ensures r == -1 <==> c !in s
  {
    if s == [] then -1
    else if s[0] == c then 0
    else
      var k := IndexOf(s[1..], c);
      if k == -1 then -1 else k + 1
  }

  /** `s` with the first occurrence of `a` replaced by `b` (a non-global `replace`). */
  function ReplaceFirst(s: string, a: char, b: char): (r: string)
    ensures |r| == |s|
  {
    if s == [] then []
    else if s[0] == a then [b] + s[1..]
    else [s[0]] + ReplaceFirst(s[1..], a, b)
  }

  /**
   * The replace changes the character at the first occurrence of `a` and no
   * other position; a string without `a` comes back unchanged.
   */
  lemma {:induction false} ReplaceFirstChangesFirstOnly(s: string, a: char, b: char)
    ensures forall j :: 0 <= j < |s| ==> ReplaceFirst(s, a, b)[j] == if j == IndexOf(s, a) then b else s[j]
    ensures a !in s ==> ReplaceFirst(s, a, b) == s
  {
    if s != [] && s[0] != a {
      ReplaceFirstChangesFirstOnly(s[1..], a, b);
      var r := ReplaceFirst(s, a, b);
      forall j | 0 <= j < |s| ensures r[j] == if j == IndexOf(s, a) then b else s[j] {
        if j > 0 {
          assert r[j] == ReplaceFirst(s[1..], a, b)[j - 1];
          assert s[j] == s[1..][j - 1];
        }
      }
    }
  }

  /** The test "is the character `c`", as a value to filter with. */
  function IsChar(c: char): char -> bool {
    (x: char) => x == c
  }

  /** The test "is not the character `c`", as a value to filter with. */
  function IsNotChar(c: char): char -> bool {
    (x: char) => x != c
  }

  /** Deleting every `c` keeps exactly the other characters, in order. */
  lemma {:induction false} RemoveAllIsFilter(s: string, c: char)
    ensures RemoveAll(s, c) == Seqs.Filter(s, IsNotChar(c))
  {
    if s != [] {
      RemoveAllIsFilter(s[1..], c);
    }
  }

  /** Deleting a character that does not occur changes nothing. */
  lemma {:induction false} RemoveAbsent(s: string, c: char)
    requires c !in s
    ensures RemoveAll(s, c) == s
  {
    if s != [] {
      RemoveAbsent(s[1..], c);
    }
  }

  /** Replacing the first `a` of a string whose first `a` follows `pre` changes just that one. */
  lemma {:induction false} ReplaceFirstAt(pre: string, a: char, post: string, b: char)
    requires a !in pre
    ensures ReplaceFirst(pre + [a] + post, a, b) == pre + [b] + post
  {
    if pre != [] {
      ReplaceFirstAt(pre[1..], a, post, b);
      assert (pre + [a] + post)[1..] == pre[1..] + [a] + post;
    }
  }

  /** Deleting a character that `p` rejects leaves the characters `p` accepts as they were. */
  lemma {:induction false} RemoveAllKeeps(s: string, c: char, p: char -> bool)
    requires !p(c)
    ensures Seqs.Filter(RemoveAll(s, c), p) == Seqs.Filter(s, p)
  {
    if s != [] {
      RemoveAllKeeps(s[1..], c, p);
      if s[0] != c {
        assert ([s[0]] + RemoveAll(s[1..], c))[1..] == RemoveAll(s[1..], c);
      }
    }
  }

  /** Replacing one character `p` rejects by another leaves the characters `p` accepts as they were. */
  lemma {:induction false} ReplaceFirstKeeps(s: string, a: char, b: char, p: char -> bool)
    requires !p(a) && !p(b)
    ensures Seqs.Filter(ReplaceFirst(s, a, b), p) == Seqs.Filter(s, p)
  {
    if s != [] {
      if s[0] == a {
        assert ([b] + s[1..])[1..] == s[1..];
      } else {
        ReplaceFirstKeeps(s[1..], a, b, p);
        assert ([s[0]] + ReplaceFirst(s[1..], a, b))[1..] == ReplaceFirst(s[1..], a, b);
      }
    }
  }

  predicate StartsWith(s: string, prefix: string) {
    |prefix| <= |s| && s[..|prefix|] == prefix
  }

  /** The index of the last occurrence of `c` in `s`, or -1 (`lastIndexOf`). */
  function LastIndexOf(s: string, c: char): (r: int)
    ensures -1 <= r < |s|
    ensures r >= 0 ==> s[r] == c
    ensures forall j :: r < j < |s| ==> s[j] != c
    ensures r == -1 <==> c !in s
  {
    if s == [] then -1
    else if s[|s| - 1] == c then |s| - 1
    else LastIndexOf(s[..|s| - 1], c)
  }

  function DigitChar(d: nat): (c: char)
    requires d < 10
    ensures IsDigit(c)
  {
    ('0' as int + d) as char
  }

  /** The decimal digits of `n` with no leading zero (Go's `%d` of a non-negative int). */
  function NatToString(n: nat): (r: string)
    ensures |r| > 0
    ensures forall c :: c in r ==> IsDigit(c)
    decreases n
  {
    if n < 10 then [DigitChar(n)] else NatToString(n / 10) + [DigitChar(n % 10)]
  }

  /** Go's `%d` of any int: a minus sign before the digits of a negative value. */
  function IntToString(i: int): (r: string)
    ensures |r| > 0
  {
    if i < 0 then "-" + NatToString(-i) else NatToString(i)
  }
}
