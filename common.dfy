/**
 * Values and string operations that every component of the diary shares:
 * an Option/Result pair for JavaScript's null and thrown errors, and the
 * JavaScript string built-ins the code relies on (`trim`, `join`,
 * `includes`, `padStart`, `String(n)`, `parseInt`, and the `<`/`>` order
 * on strings).
 */
module Common {

  datatype Option<+T> = None | Some(value: T)

  datatype Result<+T, +E> = Success(value: T) | Failure(error: E)

  // ---------------------------------------------------------------------
  // Whitespace, as ECMAScript's `trim` and the regular-expression class
  // `\s` understand it: the WhiteSpace and LineTerminator code points.
  // ---------------------------------------------------------------------

  /** The line terminators, which `.` in a regular expression never matches. */
  predicate IsLineTerminator(c: char)
  {
    c == '\n' || c == '\r' || c == '\U{2028}' || c == '\U{2029}'
  }

  predicate IsSpace(c: char)
  {
    || IsLineTerminator(c)
    || c == '\t' || c == '\U{B}' || c == '\U{C}' || c == ' '
    || c == '\U{A0}' || c == '\U{1680}' || ('\U{2000}' <= c <= '\U{200A}')
    || c == '\U{202F}' || c == '\U{205F}' || c == '\U{3000}' || c == '\U{FEFF}'
  }

  ghost predicate AllSpace(s: string)
  {
    forall i :: 0 <= i < |s| ==> IsSpace(s[i])
  }

  /** The end of the run of whitespace that starts at `i` (`\s*`, greedy). */
  function SpaceEnd(s: string, i: nat): (e: nat)
    requires i <= |s|
    ensures i <= e <= |s|
    ensures forall k :: i <= k < e ==> IsSpace(s[k])
    ensures e == |s| || !IsSpace(s[e])
    decreases |s| - i
  {
    if i < |s| && IsSpace(s[i]) then SpaceEnd(s, i + 1) else i
  }

  /** True when `s` neither starts nor ends with whitespace. */
  predicate IsTrimmed(s: string)
  {
    s == [] || (!IsSpace(s[0]) && !IsSpace(s[|s| - 1]))
  }

  function TrimStart(s: string): (r: string)
    ensures |r| <= |s| && r == s[|s| - |r|..]
    ensures forall k :: 0 <= k < |s| - |r| ==> IsSpace(s[k])
    ensures r == [] || !IsSpace(r[0])
  {
    if s != [] && IsSpace(s[0]) then TrimStart(s[1..]) else s
  }

  function TrimEnd(s: string): (r: string)
    ensures |r| <= |s| && r == s[..|r|]
    ensures forall k :: |r| <= k < |s| ==> IsSpace(s[k])
    ensures r == [] || !IsSpace(r[|r| - 1])
  {
    if s != [] && IsSpace(s[|s| - 1]) then TrimEnd(s[..|s| - 1]) else s
  }

  /** `s.trim()`: what is left once the whitespace at both ends is removed. */
  function Trim(s: string): (r: string)
    ensures IsTrimmed(r) && |r| <= |s|
  {
    TrimEnd(TrimStart(s))
  }

  /** `Trim(s)` is empty exactly when `s` is all whitespace. */
  lemma TrimEmptyIff(s: string)
    ensures Trim(s) == [] <==> AllSpace(s)
  {
    var t := TrimStart(s);
    assert Trim(s) == [] ==> s == s[..|s| - |t|] + t;
  }

  /** `Trim(s)` is a slice of `s`. */
  lemma TrimSlice(s: string) returns (a: nat, b: nat)
    ensures a <= b <= |s| && Trim(s) == s[a..b]
  {
    var t := TrimStart(s);
    var r := TrimEnd(t);
    a := |s| - |t|;
    b := a + |r|;
    PrefixOfSuffix(s, a, |r|);
  }

  lemma PrefixOfSuffix(s: string, a: nat, m: nat)
    requires a + m <= |s|
    ensures s[a..][..m] == s[a..a + m]
  {
  }

  /** A character absent from `s` is absent from each slice of it. */
  lemma SliceAvoids(s: string, a: nat, b: nat, c: char)
    requires a <= b <= |s| && Lacks(s, c)
    ensures Lacks(s[a..b], c)
  {
    forall i | 0 <= i < b - a
      ensures s[a..b][i] != c
    {
      assert s[a..b][i] == s[a + i];
    }
  }

  /** A character absent from `s` is absent from `Trim(s)`. */
  lemma TrimAvoids(s: string, c: char)
    requires Lacks(s, c)
    ensures Lacks(Trim(s), c)
  {
    var a, b := TrimSlice(s);
    SliceAvoids(s, a, b, c);
  }

  lemma TrimmedIsFixedPoint(s: string)
    requires IsTrimmed(s)
    ensures Trim(s) == s
  {
  }

  // ---------------------------------------------------------------------
  // Searching and joining
  // ---------------------------------------------------------------------

  predicate StartsWith(s: string, prefix: string)
  {
    |prefix| <= |s| && s[..|prefix|] == prefix
  }

  /** `s.includes(sub)`. */
  predicate Contains(s: string, sub: string)
    decreases |s|
  {
    StartsWith(s, sub) || (s != [] && Contains(s[1..], sub))
  }

  /** `sub` occurs in `s` starting at index `i`. */
  ghost predicate OccursAt(s: string, sub: string, i: int)
  {
    0 <= i && i + |sub| <= |s| && s[i..i + |sub|] == sub
  }

  lemma {:induction false} ContainsIffOccurs(s: string, sub: string)
    ensures Contains(s, sub) <==> exists i :: OccursAt(s, sub, i)
    decreases |s|
  {
    if s != [] {
      ContainsIffOccurs(s[1..], sub);
      if exists i :: OccursAt(s, sub, i) {
        var i :| OccursAt(s, sub, i);
        if i > 0 {
          assert OccursAt(s[1..], sub, i - 1);
        }
      }
      if StartsWith(s, sub) {
        assert OccursAt(s, sub, 0);
      } else if Contains(s[1..], sub) {
        var i :| OccursAt(s[1..], sub, i);
        assert s[i + 1..i + 1 + |sub|] == s[1..][i..i + |sub|];
        assert OccursAt(s, sub, i + 1);
      }
    } else {
      assert OccursAt(s, sub, 0) <==> sub == [];
    }
  }

  /** `parts.join(sep)`. */
  function Join(parts: seq<string>, sep: string): (r: string)
    ensures (exists i :: 0 <= i < |parts| && parts[i] != []) ==> r != []
  {
    if |parts| == 0 then ""
    else if |parts| == 1 then parts[0]
    else
      var rest := Join(parts[1..], sep);
      assert (exists i :: 1 <= i < |parts| && parts[i] != []) ==>
        exists i :: 0 <= i < |parts[1..]| && parts[1..][i] != [] by {
        if exists i :: 1 <= i < |parts| && parts[i] != [] {
          var i :| 1 <= i < |parts| && parts[i] != [];
          assert parts[1..][i - 1] != [];
        }
      }
      parts[0] + sep + rest
  }

  /** No character of `s` is `c`. */
  predicate Lacks(s: string, c: char)
  {
    forall i :: 0 <= i < |s| ==> s[i] != c
  }

  lemma LacksConcat(a: string, b: string, c: char)
    requires Lacks(a, c) && Lacks(b, c)
    ensures Lacks(a + b, c)
  {
    forall i | |a| <= i < |a + b| ensures (a + b)[i] != c {
      assert (a + b)[i] == b[i - |a|];
    }
  }

  // ---------------------------------------------------------------------
  // Decimal text: `String(n)`, `padStart(2, "0")`, `parseInt(s, 10)`
  // ---------------------------------------------------------------------

  predicate IsDigit(c: char)
  {
    '0' <= c <= '9'
  }

  function DigitChar(d: nat): (c: char)
    requires d < 10
    ensures IsDigit(c) && c as int - '0' as int == d
  {
    ('0' as int + d) as char
  }

  function DigitValue(c: char): (d: nat)
    requires IsDigit(c)
    ensures d < 10 && DigitChar(d) == c
  {
    (c as int - '0' as int) as nat
  }

  /** `String(n)` for a non-negative integer: its decimal digits, no leading zero. */
  function NatToString(n: nat): (r: string)
    ensures r != [] && forall i :: 0 <= i < |r| ==> IsDigit(r[i])
    ensures n >= 10 ==> r[0] != '0'
  {
    if n < 10 then [DigitChar(n)] else NatToString(n / 10) + [DigitChar(n % 10)]
  }

  /** `String(n)` for any integer. */
  function IntToString(n: int): string
  {
    if n < 0 then "-" + NatToString(-n) else NatToString(n)
  }

  /** The value of a non-empty run of decimal digits. */
  function DigitsValue(s: string): nat
    requires forall i :: 0 <= i < |s| ==> IsDigit(s[i])
  {
    if s == [] then 0 else DigitsValue(s[..|s| - 1]) * 10 + DigitValue(s[|s| - 1])
  }

  lemma {:induction false} DigitsValueOfNatToString(n: nat)
    ensures DigitsValue(NatToString(n)) == n
  {
    if n >= 10 {
      var s := NatToString(n);
      DigitsValueOfNatToString(n / 10);
      assert s[..|s| - 1] == NatToString(n / 10);
    }
  }

  /** `String(s).padStart(2, "0")`. */
  function PadStart2(s: string): (r: string)
    ensures |r| == if |s| >= 2 then |s| else 2
    ensures r[|r| - |s|..] == s && forall i :: 0 <= i < |r| - |s| ==> r[i] == '0'
  {
    if |s| >= 2 then s else seq(2 - |s|, _ => '0') + s
  }

  /** The two decimal digits of `n`, with a leading zero below 10. */
  function TwoDigits(n: nat): (r: string)
    requires n < 100
    ensures |r| == 2 && IsDigit(r[0]) && IsDigit(r[1])
    ensures DigitsValue(r) == n
  {
    var r := [DigitChar(n / 10), DigitChar(n % 10)];
    assert r[..1] == [r[0]] && [r[0]][..0] == [];
    assert DigitsValue([r[0]]) == n / 10;
    assert DigitsValue(r) == DigitsValue([r[0]]) * 10 + n % 10;
    r
  }

  /** `String(n).padStart(2, "0")` is the two-digit field of any `n` below 100. */
  lemma PaddedIsTwoDigits(n: nat)
    requires n < 100
    ensures PadStart2(IntToString(n)) == TwoDigits(n)
  {
    if n >= 10 {
      assert NatToString(n) == NatToString(n / 10) + [DigitChar(n % 10)];
    }
  }

  // ---------------------------------------------------------------------
  // String order: JavaScript's `a < b` on strings, lexicographic with a
  // proper prefix ordered first.
  // ---------------------------------------------------------------------

  predicate StrLess(a: string, b: string)
    decreases |a|
  {
    if a == [] then b != []
    else if b == [] then false
    else if a[0] != b[0] then a[0] < b[0]
    else StrLess(a[1..], b[1..])
  }

  lemma {:induction false} StrLessIrreflexive(a: string)
    ensures !StrLess(a, a)
    decreases |a|
  {
    if a != [] {
      StrLessIrreflexive(a[1..]);
    }
  }

  lemma {:induction false} StrLessTransitive(a: string, b: string, c: string)
    requires StrLess(a, b) && StrLess(b, c)
    ensures StrLess(a, c)
    decreases |a|
  {
    if a != [] && a[0] == b[0] && b[0] == c[0] {
      StrLessTransitive(a[1..], b[1..], c[1..]);
    }
  }

  lemma {:induction false} StrLessTotal(a: string, b: string)
    requires a != b
    ensures StrLess(a, b) || StrLess(b, a)
    decreases |a|
  {
    if a != [] && b != [] && a[0] == b[0] {
      assert a == [a[0]] + a[1..] && b == [b[0]] + b[1..];
      StrLessTotal(a[1..], b[1..]);
    }
  }
}
