/**
 * The Python string operations the core relies on, stated over Dafny strings
 * (sequences of Unicode scalar values): `str.lower`, `str.strip`, `str.split`
 * on one character, `sep.join`, `str(int)`, the `in` substring test and the
 * whitespace class shared by `str.isspace` and the regular expression `\s`.
 */
module Text {

  // ---------------------------------------------------------------- characters

  predicate IsAsciiChar(c: char) {
    c as int < 128
  }

  predicate IsAscii(s: string) {
    forall i :: 0 <= i < |s| ==> IsAsciiChar(s[i])
  }

  /** Python's whitespace: the characters `str.isspace()` accepts and `\s` matches. */
  predicate IsSpace(c: char) {
    var n := c as int;
    (9 <= n <= 13) || (28 <= n <= 32) || n == 0x85 || n == 0xA0 || n == 0x1680
    || (0x2000 <= n <= 0x200A) || n == 0x2028 || n == 0x2029 || n == 0x202F
    || n == 0x205F || n == 0x3000
  }

  predicate NoSpace(s: string) {
    forall i :: 0 <= i < |s| ==> !IsSpace(s[i])
  }

  predicate IsUpperAscii(c: char) {
    'A' <= c <= 'Z'
  }

  predicate NoUpperAscii(s: string) {
    forall i :: 0 <= i < |s| ==> !IsUpperAscii(s[i])
  }

  /**
   * Python's `str.lower()` on one character, for ASCII and Latin-1: the
   * letters A-Z and U+00C0..U+00DE (except the multiplication sign U+00D7)
   * move up by 0x20; every other character is left alone.
   */
  function LowerChar(c: char): char {
    var n := c as int;
    if 65 <= n <= 90 || (0xC0 <= n <= 0xDE && n != 0xD7) then (n + 32) as char else c
  }

  // ---------------------------------------------------------------- str.lower

  function Lower(s: string): (r: string)
    ensures |r| == |s|
    ensures forall i :: 0 <= i < |s| ==> r[i] == LowerChar(s[i])
  {
    if s == [] then [] else [LowerChar(s[0])] + Lower(s[1..])
  }

  /** Lowering is idempotent and keeps ASCII text ASCII, with no upper-case letter left. */
  lemma LowerProperties(s: string)
    ensures Lower(Lower(s)) == Lower(s)
    ensures NoUpperAscii(Lower(s))
    ensures IsAscii(s) ==> IsAscii(Lower(s))
    ensures NoSpace(s) <==> NoSpace(Lower(s))
  {
    var l := Lower(s);
    assert forall i :: 0 <= i < |s| ==> LowerChar(l[i]) == l[i];
    assert Lower(l) == l;
    assert forall i :: 0 <= i < |s| ==> (IsSpace(l[i]) <==> IsSpace(s[i]));
  }

  /** A string with no upper-case ASCII letter and only ASCII characters is its own lowering. */
  lemma LowerIdentity(s: string)
    requires IsAscii(s) && NoUpperAscii(s)
    ensures Lower(s) == s
  {
    assert forall i :: 0 <= i < |s| ==> LowerChar(s[i]) == s[i];
  }

  /** Lowering commutes with taking a slice. */
  lemma LowerSlice(s: string, i: int, j: int)
    requires 0 <= i <= j <= |s|
    ensures Lower(s)[i..j] == Lower(s[i..j])
  {
    LoweredSlice(s, Lower(s), s[i..j], Lower(s[i..j]), i, j);
  }

  /** A slice of a character-wise lowering is the lowering of the slice. */
  lemma LoweredSlice(s: string, whole: string, part: string, lowered: string, i: int, j: int)
    requires 0 <= i <= j <= |s| && part == s[i..j]
    requires |whole| == |s| && forall k :: 0 <= k < |s| ==> whole[k] == LowerChar(s[k])
    requires |lowered| == |part| && forall k :: 0 <= k < |part| ==> lowered[k] == LowerChar(part[k])
    ensures whole[i..j] == lowered
  {
    forall k | 0 <= k < j - i ensures whole[i..j][k] == lowered[k] {
      assert part[k] == s[i + k];
    }
  }

  // ---------------------------------------------------------------- re.sub(r"\s+", "", s)

  /** `re.sub(r"\s+", "", s)`: every whitespace character removed, the rest kept in order. */
  function RemoveSpaces(s: string): (r: string)
    ensures NoSpace(r)
    ensures |r| <= |s|
  {
    if s == [] then [] else (if IsSpace(s[0]) then [] else [s[0]]) + RemoveSpaces(s[1..])
  }

  /** Removing whitespace distributes over concatenation. */
  lemma {:induction false} RemoveSpacesAppend(a: string, b: string)
    ensures RemoveSpaces(a + b) == RemoveSpaces(a) + RemoveSpaces(b)
  {
    if a != [] {
      assert (a + b)[0] == a[0] && (a + b)[1..] == a[1..] + b;
      RemoveSpacesAppend(a[1..], b);
      var head := if IsSpace(a[0]) then [] else [a[0]];
      assert RemoveSpaces(a + b) == head + RemoveSpaces(a[1..] + b);
    } else {
      assert a + b == b;
    }
  }

  /** A string is left unchanged exactly when it holds no whitespace. */
  lemma {:induction false} RemoveSpacesIdentity(s: string)
    ensures RemoveSpaces(s) == s <==> NoSpace(s)
  {
    if s != [] {
      RemoveSpacesIdentity(s[1..]);
      if IsSpace(s[0]) {
        assert |RemoveSpaces(s)| <= |s[1..]| < |s|;
      }
    }
  }

  /** Removing whitespace keeps ASCII text ASCII. */
  lemma {:induction false} RemoveSpacesAscii(s: string)
    requires IsAscii(s)
    ensures IsAscii(RemoveSpaces(s))
  {
    if s != [] {
      RemoveSpacesAscii(s[1..]);
    }
  }

  /** Lowering neither creates nor removes whitespace, so the two steps commute. */
  lemma {:induction false} RemoveSpacesLower(s: string)
    ensures RemoveSpaces(Lower(s)) == Lower(RemoveSpaces(s))
  {
    if s != [] {
      assert Lower(s)[1..] == Lower(s[1..]);
      RemoveSpacesLower(s[1..]);
      assert IsSpace(LowerChar(s[0])) <==> IsSpace(s[0]);
    }
  }

  // ---------------------------------------------------------------- str.strip()

  /** `str.lstrip()`: the longest suffix that does not start with whitespace. */
  function StripLeft(s: string): (r: string)
    ensures |r| <= |s| && r == s[|s| - |r|..]
    ensures r != [] ==> !IsSpace(r[0])
    ensures forall i :: 0 <= i < |s| - |r| ==> IsSpace(s[i])
  {
    if s != [] && IsSpace(s[0]) then
      var r := StripLeft(s[1..]);
      assert s[1..][|s| - 1 - |r|..] == s[|s| - |r|..];
      r
    else s
  }

  /** `str.rstrip()`: the longest prefix that does not end with whitespace. */
  function StripRight(s: string): (r: string)
    ensures |r| <= |s| && r == s[..|r|]
    ensures r != [] ==> !IsSpace(r[|r| - 1])
    ensures forall i :: |r| <= i < |s| ==> IsSpace(s[i])
  {
    if s != [] && IsSpace(s[|s| - 1]) then StripRight(s[..|s| - 1]) else s
  }

  /**
   * `str.strip()`: the infix `s[a..b]` left once the whitespace on both
   * sides is removed; it neither starts nor ends with whitespace.
   */
  function Strip(s: string): (r: string)
    ensures exists a, b :: 0 <= a <= b <= |s| && r == s[a..b]
                           && (forall i :: 0 <= i < a ==> IsSpace(s[i]))
                           && (forall i :: b <= i < |s| ==> IsSpace(s[i]))
    ensures r != [] ==> !IsSpace(r[0]) && !IsSpace(r[|r| - 1])
  {
    var l := StripLeft(s);
    var r := StripRight(l);
    var a := |s| - |l|;
    assert r == s[a..a + |r|];
    r
  }

  /** Text with no whitespace is its own strip. */
  lemma StripPlain(s: string)
    requires NoSpace(s)
    ensures Strip(s) == s
  {
    assert StripLeft(s) == s;
    assert StripRight(s) == s;
  }

  // ---------------------------------------------------------------- str.split(c)

  predicate Lacks(s: string, c: char) {
    forall i :: 0 <= i < |s| ==> s[i] != c
  }

  /** Joining two strings that lack `c` by another character keeps `c` out. */
  lemma LacksJoin(a: string, sep: char, b: string, c: char)
    requires Lacks(a, c) && Lacks(b, c) && sep != c
    ensures Lacks(a + [sep] + b, c)
  {
    var j := a + [sep] + b;
    forall i | 0 <= i < |j| ensures j[i] != c {
      if i > |a| {
        assert j[i] == b[i - |a| - 1];
      }
    }
  }

  function Count(s: string, c: char): nat {
    if s == [] then 0 else (if s[0] == c then 1 else 0) + Count(s[1..], c)
  }

  /**
   * `s.split(c)` for a one-character separator: the pieces between the
   * occurrences of `c`; there is always at least one, and none contains `c`.
   */
  function Split(s: string, c: char): (r: seq<string>)
    ensures |r| == Count(s, c) + 1
    ensures forall k :: 0 <= k < |r| ==> Lacks(r[k], c)
  {
    if s == [] then [""]
    else
      var rest := Split(s[1..], c);
      if s[0] == c then [""] + rest else [[s[0]] + rest[0]] + rest[1..]
  }

  /** Joining the pieces back with the separator gives the original string. */
  lemma {:induction false} SplitJoin(s: string, c: char)
    ensures Join(Split(s, c), [c]) == s
  {
    if s != [] {
      var rest := Split(s[1..], c);
      SplitJoin(s[1..], c);
      if s[0] == c {
        assert Split(s, c) == [""] + rest;
        assert ([""] + rest)[1..] == rest;
      } else {
        var parts := [[s[0]] + rest[0]] + rest[1..];
        if |rest| == 1 {
          assert Join(rest, [c]) == rest[0];
        } else {
          assert Join(rest, [c]) == rest[0] + [c] + Join(rest[1..], [c]);
          assert parts[1..] == rest[1..];
        }
      }
    }
  }

  /** Splitting `a + [c] + b`, where neither side contains `c`, gives exactly the two sides. */
  lemma {:induction false} SplitTwo(a: string, b: string, c: char)
    requires Lacks(a, c) && Lacks(b, c)
    ensures Split(a + [c] + b, c) == [a, b]
  {
    SplitPrefix(a, [c] + b, c);
    assert a + [c] + b == a + ([c] + b);
    SplitNoSeparator(b, c);
    assert ([c] + b)[1..] == b;
  }

  lemma {:induction false} SplitNoSeparator(s: string, c: char)
    requires Lacks(s, c)
    ensures Split(s, c) == [s]
  {
    if s != [] {
      SplitNoSeparator(s[1..], c);
      assert [s[0]] + s[1..] == s;
    }
  }

  /** A leading piece without the separator joins the first piece of the rest. */
  lemma {:induction false} SplitPrefix(a: string, t: string, c: char)
    requires Lacks(a, c) && t != [] && t[0] == c
    ensures Split(a + t, c) == [a] + Split(t[1..], c)
  {
    if a == [] {
      assert a + t == t;
    } else {
      assert (a + t)[1..] == a[1..] + t;
      SplitPrefix(a[1..], t, c);
      assert [a[0]] + a[1..] == a;
    }
  }

  // ---------------------------------------------------------------- sep.join(parts)

  /** `sep.join(parts)`. */
  function Join(parts: seq<string>, sep: string): string {
    if parts == [] then ""
    else if |parts| == 1 then parts[0]
    else parts[0] + sep + Join(parts[1..], sep)
  }

  /** Appending a part to a non-empty list appends the separator and the part. */
  lemma {:induction false} JoinSnoc(parts: seq<string>, p: string, sep: string)
    ensures Join(parts + [p], sep) == if parts == [] then p else Join(parts, sep) + sep + p
  {
    if |parts| == 1 {
      assert parts + [p] == [parts[0], p];
    } else if |parts| > 1 {
      assert (parts + [p])[1..] == parts[1..] + [p];
      JoinSnoc(parts[1..], p, sep);
    }
  }

  function SumLengths(parts: seq<string>): nat {
    if parts == [] then 0 else |parts[0]| + SumLengths(parts[1..])
  }

  /** The joined text is the parts plus one separator between each pair of neighbours. */
  lemma {:induction false} JoinLength(parts: seq<string>, sep: string)
    ensures |Join(parts, sep)| == SumLengths(parts) + (if parts == [] then 0 else (|parts| - 1) * |sep|)
  {
    if |parts| > 1 {
      JoinLength(parts[1..], sep);
    } else if |parts| == 1 {
      assert parts[1..] == [];
    }
  }

  /** When no part is empty, the joined text is empty exactly when there are no parts. */
  lemma JoinEmpty(parts: seq<string>, sep: string)
    requires forall k :: 0 <= k < |parts| ==> parts[k] != ""
    ensures Join(parts, sep) == "" <==> parts == []
  {
    if parts != [] {
      JoinLength(parts, sep);
      assert |parts[0]| > 0;
      assert SumLengths(parts) >= |parts[0]|;
    }
  }

  // ---------------------------------------------------------------- str(int)

  predicate IsDigit(c: char) {
    '0' <= c <= '9'
  }

  function DigitChar(d: nat): (c: char)
    requires d < 10
    ensures IsDigit(c)
  {
    (48 + d) as char
  }

  /** `str(n)` for a natural number: decimal, no leading zeros. */
  function NatToString(n: nat): (r: string)
    ensures |r| >= 1
    ensures forall i :: 0 <= i < |r| ==> IsDigit(r[i])
    ensures |r| == 1 <==> n < 10
  {
    if n < 10 then [DigitChar(n)] else NatToString(n / 10) + [DigitChar(n % 10)]
  }

  /** Distinct numbers have distinct decimal representations. */
  lemma {:induction false} NatToStringInjective(a: nat, b: nat)
    requires NatToString(a) == NatToString(b)
    ensures a == b
  {
    if a >= 10 && b >= 10 {
      var sa, sb := NatToString(a), NatToString(b);
      assert sa[|sa| - 1] == DigitChar(a % 10) && sb[|sb| - 1] == DigitChar(b % 10);
      assert sa[..|sa| - 1] == NatToString(a / 10);
      assert sb[..|sb| - 1] == NatToString(b / 10);
      NatToStringInjective(a / 10, b / 10);
    }
  }

  /** `str(i)` for any integer: a minus sign exactly for negative numbers, then the decimal digits. */
  function IntToString(i: int): (r: string)
    ensures |r| >= 1 && (r[0] == '-' <==> i < 0)
    ensures forall k :: 0 < k < |r| ==> IsDigit(r[k])
  {
    if i < 0 then "-" + NatToString(-i) else NatToString(i)
  }

  /** A printed integer holds no space, colon or underscore, so it can end an identifier built with those. */
  lemma IntToStringSeparators(i: int)
    ensures Lacks(IntToString(i), ' ') && Lacks(IntToString(i), ':') && Lacks(IntToString(i), '_')
  {
  }

  /** Distinct integers print differently. */
  lemma IntToStringInjective(a: int, b: int)
    requires IntToString(a) == IntToString(b)
    ensures a == b
  {
    if a < 0 && b < 0 {
      assert IntToString(a)[1..] == NatToString(-a);
      assert IntToString(b)[1..] == NatToString(-b);
      NatToStringInjective(-a, -b);
    } else if a >= 0 && b >= 0 {
      NatToStringInjective(a, b);
    }
  }

  // ---------------------------------------------------------------- substrings

  predicate OccursAt(s: string, w: string, i: nat) {
    i + |w| <= |s| && s[i..i + |w|] == w
  }

  /** Python's `w in s` for strings. */
  predicate Contains(s: string, w: string) {
    exists i: nat | i <= |s| :: OccursAt(s, w, i)
  }

  /**
   * Cutting a string at its last `c`: when the parts after the cut hold no
   * `c`, equal strings give equal parts.
   */
  lemma CutAtLast(x: string, y: string, x': string, y': string, c: char)
    requires Lacks(y, c) && Lacks(y', c)
    requires x + [c] + y == x' + [c] + y'
    ensures x == x' && y == y'
  {
    var s := x + [c] + y;
    assert s[|x|] == c;
    assert (x' + [c] + y')[|x'|] == c;
    assert forall k :: |x| < k < |s| ==> s[k] == y[k - |x| - 1];
    assert forall k :: |x'| < k < |s| ==> s[k] == y'[k - |x'| - 1];
    assert |x| == |x'|;
    assert x == s[..|x|] && x' == s[..|x'|];
    assert y == s[|x| + 1..] && y' == s[|x'| + 1..];
  }

  /** A string "name_i" determines the number `i`, whatever `name` holds. */
  lemma EnumeratedIdPosition(a: string, i: nat, b: string, j: nat)
    ensures a + "_" + NatToString(i) == b + "_" + NatToString(j) ==> i == j
  {
    if a + "_" + NatToString(i) == b + "_" + NatToString(j) {
      assert a + "_" + NatToString(i) == a + ['_'] + NatToString(i);
      assert b + "_" + NatToString(j) == b + ['_'] + NatToString(j);
      CutAtLast(a, NatToString(i), b, NatToString(j), '_');
      NatToStringInjective(i, j);
    }
  }

  predicate StartsWith(s: string, p: string) {
    |p| <= |s| && s[..|p|] == p
  }

  predicate EndsWith(s: string, p: string) {
    |p| <= |s| && s[|s| - |p|..] == p
  }
}
