/**
 * The few Python string operations the application relies on, on ASCII text:
 * `str.strip()`, `str.lower()`, `str.capitalize()`, `str(int)`, `int(str)`,
 * and the code-point order a database uses for `ORDER BY` on a text column.
 */
module Strings {
  import opened Wrappers

  /** Whitespace removed by `str.strip()`: the ASCII whitespace characters and the separators 0x1C-0x1F. */
  predicate IsSpace(c: char) {
    c == ' ' || (9 <= c as int <= 13) || (28 <= c as int <= 31)
  }

  predicate IsDigit(c: char) {
    '0' <= c <= '9'
  }

  /** Leading whitespace removed: the result is a suffix of `s` and starts with a non-space. */
  function StripStart(s: string): (r: string)
    ensures |r| <= |s|
    ensures forall k :: 0 <= k < |r| ==> r[k] == s[|s| - |r| + k]
    ensures r == [] || !IsSpace(r[0])
    ensures forall i :: 0 <= i < |s| - |r| ==> IsSpace(s[i])
  {
    if s != [] && IsSpace(s[0]) then
      var r := StripStart(s[1..]);
      assert forall k :: 0 <= k < |r| ==> r[k] == s[1..][|s| - 1 - |r| + k] == s[|s| - |r| + k];
      r
    else s
  }

  /** Trailing whitespace removed: the result is a prefix of `s` and ends with a non-space. */
  function StripEnd(s: string): (r: string)
    ensures |r| <= |s|
    ensures forall k :: 0 <= k < |r| ==> r[k] == s[k]
    ensures r == [] || !IsSpace(r[|r| - 1])
    ensures forall i :: |r| <= i < |s| ==> IsSpace(s[i])
  {
    if s != [] && IsSpace(s[|s| - 1]) then StripEnd(s[..|s| - 1]) else s
  }

  /**
   * Python's `str.strip()`: `s` with its whitespace prefix (StripStart) and then its
   * whitespace suffix (StripEnd) cut off; neither end of the result is whitespace.
   */
  function Strip(s: string): (r: string)
    ensures |r| <= |s|
    ensures r == [] || (!IsSpace(r[0]) && !IsSpace(r[|r| - 1]))
  {
    StripEnd(StripStart(s))
  }

  /** A string with no whitespace at all is left as it is by `strip()`. */
  lemma StripNoSpace(s: string)
    requires forall i :: 0 <= i < |s| ==> !IsSpace(s[i])
    ensures Strip(s) == s
  {
  }

  predicate IsUpper(c: char) {
    'A' <= c <= 'Z'
  }

  predicate IsLower(c: char) {
    'a' <= c <= 'z'
  }

  /** An upper-case ASCII letter becomes its lower-case partner; anything else is kept. */
  function LowerChar(c: char): (r: char)
    ensures IsUpper(c) ==> IsLower(r) && r as int == c as int + 32
    ensures !IsUpper(c) ==> r == c
  {
    if IsUpper(c) then (c as int + 32) as char else c
  }

  /** A lower-case ASCII letter becomes its upper-case partner; anything else is kept. */
  function UpperChar(c: char): (r: char)
    ensures IsLower(c) ==> IsUpper(r) && r as int == c as int - 32
    ensures !IsLower(c) ==> r == c
  {
    if IsLower(c) then (c as int - 32) as char else c
  }

  /** Two characters agree up to case in lower case exactly when they do in upper case. */
  lemma SameUpToCase(a: char, b: char)
    ensures UpperChar(a) == UpperChar(b) <==> LowerChar(a) == LowerChar(b)
  {
  }

  /** Python's `str.lower()` on ASCII letters: each upper-case letter is lowered, every other character kept. */
  function Lower(s: string): (r: string)
    ensures |r| == |s|
    ensures forall i :: 0 <= i < |s| ==> r[i] == LowerChar(s[i])
    ensures forall i :: 0 <= i < |s| ==> !IsUpper(r[i]) && (!IsUpper(s[i]) ==> r[i] == s[i])
  {
    seq(|s|, i requires 0 <= i < |s| => LowerChar(s[i]))
  }

  /**
   * Python's `str.capitalize()` on ASCII letters: the first character in upper case and
   * the rest in lower case, each character otherwise kept.
   */
  function Capitalize(s: string): (r: string)
    ensures |r| == |s|
    ensures r != [] ==> r[0] == UpperChar(s[0])
    ensures forall i :: 1 <= i < |r| ==> r[i] == LowerChar(s[i])
  {
    if s == [] then [] else [UpperChar(s[0])] + Lower(s[1..])
  }

  /** Text without upper-case letters is its own lower case. */
  lemma LowerKeeps(s: string)
    requires forall i :: 0 <= i < |s| ==> !IsUpper(s[i])
    ensures Lower(s) == s
  {
  }

  /** Lowering twice is lowering once. */
  lemma LowerIdempotent(s: string)
    ensures Lower(Lower(s)) == Lower(s)
  {
  }

  /** Capitalizing twice is capitalizing once. */
  lemma CapitalizeIdempotent(s: string)
    ensures Capitalize(Capitalize(s)) == Capitalize(s)
  {
    var c := Capitalize(s);
    assert forall i :: 0 <= i < |s| ==> Capitalize(c)[i] == c[i];
  }

  /** Two strings capitalize alike exactly when they are equal up to case. */
  lemma CapitalizeUpToCase(s: string, t: string)
    ensures Capitalize(s) == Capitalize(t) <==> Lower(s) == Lower(t)
  {
    if |s| == |t| {
      forall i | 0 <= i < |s| ensures UpperChar(s[i]) == UpperChar(t[i]) <==> LowerChar(s[i]) == LowerChar(t[i]) {
        SameUpToCase(s[i], t[i]);
      }
      if Capitalize(s) == Capitalize(t) {
        forall i | 0 <= i < |s| ensures Lower(s)[i] == Lower(t)[i] {
          if i == 0 {
            assert Capitalize(s)[0] == Capitalize(t)[0];
          } else {
            assert Capitalize(s)[i] == Capitalize(t)[i];
          }
        }
      }
      if Lower(s) == Lower(t) {
        forall i | 0 <= i < |s| ensures Capitalize(s)[i] == Capitalize(t)[i] {
          assert Lower(s)[i] == Lower(t)[i];
        }
      }
    } else {
      assert |Lower(s)| != |Lower(t)|;
    }
  }

  function DigitChar(d: int): (c: char)
    requires 0 <= d < 10
    ensures IsDigit(c) && c as int - '0' as int == d
  {
    ('0' as int + d) as char
  }

  /** Decimal digits of `n`, most significant first, without leading zeros. */
  function NatToDecimal(n: nat): (r: string)
    ensures |r| >= 1
    ensures forall i :: 0 <= i < |r| ==> IsDigit(r[i])
    ensures |r| > 1 ==> r[0] != '0'
  {
    if n < 10 then [DigitChar(n)] else NatToDecimal(n / 10) + [DigitChar(n % 10)]
  }

  /** Python's `str(n)` for an integer. */
  function IntToDecimal(n: int): (r: string)
    ensures |r| >= 1
    ensures (r[0] == '-') == (n < 0)
  {
    if n < 0 then "-" + NatToDecimal(-n) else NatToDecimal(n)
  }

  predicate AllDigits(s: string) {
    |s| > 0 && forall i :: 0 <= i < |s| ==> IsDigit(s[i])
  }

  function DigitValue(c: char): nat
    requires IsDigit(c)
  {
    c as int - '0' as int
  }

  /** The number a string of decimal digits denotes. */
  function DigitsValue(s: string): nat
    requires forall i :: 0 <= i < |s| ==> IsDigit(s[i])
  {
    if s == [] then 0 else DigitsValue(s[..|s| - 1]) * 10 + DigitValue(s[|s| - 1])
  }

  /**
   * Python's `int(s)` for a string: surrounding whitespace is ignored, an optional
   * sign is followed by at least one decimal digit; anything else is a ValueError (None).
   */
  function ParseInt(s: string): (r: Option<int>)
    ensures r.Some? ==> Strip(s) != []
    ensures Strip(s) == [] ==> r == None
  {
    var t := Strip(s);
    if t == [] then None
    else if t[0] == '-' || t[0] == '+' then
      if AllDigits(t[1..]) then
        var magnitude: int := DigitsValue(t[1..]);
        Some(if t[0] == '-' then -magnitude else magnitude)
      else None
    else if AllDigits(t) then Some(DigitsValue(t))
    else None
  }

  lemma {:induction false} DigitsValueOfDecimal(n: nat)
    ensures DigitsValue(NatToDecimal(n)) == n
  {
    if n >= 10 {
      var r := NatToDecimal(n);
      assert r[..|r| - 1] == NatToDecimal(n / 10);
      DigitsValueOfDecimal(n / 10);
    }
  }

  lemma {:induction false} ParseIntOfDigits(d: string)
    requires AllDigits(d)
    ensures ParseInt(d) == Some(DigitsValue(d))
  {
    StripNoSpace(d);
  }

  lemma {:induction false} ParseIntOfNegativeDigits(r: string)
    requires |r| > 1 && r[0] == '-' && AllDigits(r[1..])
    ensures ParseInt(r) == Some(-(DigitsValue(r[1..]) as int))
  {
    forall i | 0 <= i < |r| ensures !IsSpace(r[i]) {
      if i > 0 { assert r[i] == r[1..][i - 1]; }
    }
    StripNoSpace(r);
  }

  lemma {:induction false} ParseIntOfSignedDigits(r: string, d: string, n: int)
    requires r == "-" + d && AllDigits(d) && DigitsValue(d) == -n
    ensures ParseInt(r) == Some(n)
  {
    assert r[1..] == d;
    ParseIntOfNegativeDigits(r);
  }

  /** `int(str(n)) == n`: decimal rendering and parsing are inverse. */
  lemma {:induction false} ParseIntOfDecimal(n: int)
    ensures ParseInt(IntToDecimal(n)) == Some(n)
  {
    var r := IntToDecimal(n);
    if n < 0 {
      DigitsValueOfDecimal(-n);
      ParseIntOfSignedDigits(r, NatToDecimal(-n), n);
    } else {
      DigitsValueOfDecimal(n);
      ParseIntOfDigits(r);
    }
  }

  /** Lexicographic order of strings by character code, as a database sorts a text column. */
  predicate StrLe(a: string, b: string)
    decreases |a|
  {
    a == [] || (b != [] && (a[0] < b[0] || (a[0] == b[0] && StrLe(a[1..], b[1..]))))
  }

  lemma {:induction false} StrLeTotal(a: string, b: string)
    ensures StrLe(a, b) || StrLe(b, a)
    decreases |a|
  {
    if a != [] && b != [] && a[0] == b[0] {
      StrLeTotal(a[1..], b[1..]);
    }
  }

  lemma {:induction false} StrLeTransitive(a: string, b: string, c: string)
    requires StrLe(a, b) && StrLe(b, c)
    ensures StrLe(a, c)
    decreases |a|
  {
    if a != [] && a[0] == b[0] && b[0] == c[0] {
      StrLeTransitive(a[1..], b[1..], c[1..]);
    }
  }

  lemma {:induction false} StrLeAntisymmetric(a: string, b: string)
    requires StrLe(a, b) && StrLe(b, a)
    ensures a == b
    decreases |a|
  {
    if a != [] {
      StrLeAntisymmetric(a[1..], b[1..]);
      assert a == [a[0]] + a[1..];
      assert b == [b[0]] + b[1..];
    }
  }
}
