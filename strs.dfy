// Decimal formatting and parsing (Go's strconv), joining and splitting of strings.
module Strs {
  import opened Common

  predicate IsDigit(c: char) { '0' <= c <= '9' }

  predicate AllDigits(s: string) { forall i :: 0 <= i < |s| ==> IsDigit(s[i]) }

  function DigitChar(d: nat): (c: char)
    requires d < 10
    ensures IsDigit(c) && c as int - '0' as int == d
  {
    ('0' as int + d) as char
  }

  /** Decimal digits of a natural number, without leading zeros (`strconv.Itoa` for n >= 0). */
  function NatToString(n: nat): (s: string)
    ensures |s| >= 1 && AllDigits(s)
    ensures |s| > 1 ==> s[0] != '0'
    decreases n
  {
    if n < 10 then [DigitChar(n)] else NatToString(n / 10) + [DigitChar(n % 10)]
  }

  /** `strconv.Itoa` / `strconv.FormatInt(x, 10)`. */
  function IntToString(x: int): (s: string)
    ensures |s| >= 1
    ensures x >= 0 <==> IsDigit(s[0])
    ensures x < 0 <==> s[0] == '-'
  {
    if x >= 0 then NatToString(x) else "-" + NatToString(-x)
  }

  /** The value of a string of decimal digits. */
  function DigitsValue(s: string): nat
    requires AllDigits(s)
  {
    if |s| == 0 then 0 else DigitsValue(s[..|s| - 1]) * 10 + (s[|s| - 1] as int - '0' as int)
  }

  lemma {:induction false} DigitsValueOfNatToString(n: nat)
    ensures DigitsValue(NatToString(n)) == n
    decreases n
  {
    if n >= 10 {
      var s := NatToString(n);
      assert s[..|s| - 1] == NatToString(n / 10);
      DigitsValueOfNatToString(n / 10);
    }
  }

  /** `strconv.Atoi`: an optional sign, then at least one decimal digit, within the 64-bit range. */
  function Atoi(s: string): (r: Option<int>)
    ensures r.Some? ==> InInt64(r.value) && |s| >= 1
    ensures r.Some? && IsDigit(s[0]) ==> r.value >= 0
  {
    if |s| >= 2 && (s[0] == '+' || s[0] == '-') && AllDigits(s[1..]) then
      var mag: int := DigitsValue(s[1..]);
      var v := if s[0] == '-' then 0 - mag else mag;
      if InInt64(v) then Some(v) else None
    else if |s| >= 1 && AllDigits(s) && InInt64(DigitsValue(s)) then Some(DigitsValue(s))
    else None
  }

  /** Formatting then parsing gives the number back. */
  lemma AtoiOfIntToString(x: int)
    requires InInt64(x)
    ensures Atoi(IntToString(x)) == Some(x)
  {
    if x >= 0 {
      DigitsValueOfNatToString(x);
    } else {
      DigitsValueOfNatToString(-x);
      assert IntToString(x)[1..] == NatToString(-x);
    }
  }

  /** Two numbers with the same decimal form are equal. */
  lemma IntToStringInjective(x: int, y: int)
    requires IntToString(x) == IntToString(y)
    ensures x == y
  {
    if x >= 0 {
      DigitsValueOfNatToString(x);
      DigitsValueOfNatToString(y);
    } else {
      assert IntToString(x)[1..] == NatToString(-x);
      assert IntToString(y)[1..] == NatToString(-y);
      DigitsValueOfNatToString(-x);
      DigitsValueOfNatToString(-y);
    }
  }

  /** `strings.Join`. */
  function Join(parts: seq<string>, sep: string): string
  {
    if |parts| == 0 then "" else if |parts| == 1 then parts[0] else parts[0] + sep + Join(parts[1..], sep)
  }

  /** A character in neither the pieces nor the separator is not in their join. */
  lemma {:induction false} JoinWithout(parts: seq<string>, sep: string, c: char)
    requires c !in sep && forall i :: 0 <= i < |parts| ==> c !in parts[i]
    ensures c !in Join(parts, sep)
  {
    if |parts| > 1 {
      JoinWithout(parts[1..], sep, c);
    }
  }

  /** A decimal number holds only digits and a sign. */
  lemma IntToStringChars(x: int, c: char)
    requires !IsDigit(c) && c != '-'
    ensures c !in IntToString(x)
  {
    if x < 0 {
      assert IntToString(x) == "-" + NatToString(-x);
    }
  }

  /** `strings.Split` with a one-character separator: always at least one piece. */
  function Split(s: string, sep: char): (r: seq<string>)
    ensures |r| >= 1
    ensures forall i :: 0 <= i < |r| ==> sep !in r[i]
  {
    if |s| == 0 then [""]
    else
      var rest := Split(s[1..], sep);
      if s[0] == sep then [""] + rest else [[s[0]] + rest[0]] + rest[1..]
  }

  lemma {:induction false} SplitNoSep(s: string, sep: char)
    requires sep !in s
    ensures Split(s, sep) == [s]
  {
    if |s| > 0 {
      SplitNoSep(s[1..], sep);
      assert [s[0]] + s[1..] == s;
    }
  }

  lemma {:induction false} SplitAtSep(a: string, sep: char, b: string)
    requires sep !in a
    ensures Split(a + [sep] + b, sep) == [a] + Split(b, sep)
  {
    if |a| == 0 {
      assert (a + [sep] + b)[1..] == b;
    } else {
      assert (a + [sep] + b)[1..] == a[1..] + [sep] + b;
      SplitAtSep(a[1..], sep, b);
      assert [a[0]] + a[1..] == a;
    }
  }

  /** Splitting a joined list of separator-free pieces gives the pieces back. */
  lemma {:induction false} SplitJoin(parts: seq<string>, sep: char)
    requires |parts| >= 1
    requires forall i :: 0 <= i < |parts| ==> sep !in parts[i]
    ensures Split(Join(parts, [sep]), sep) == parts
  {
    if |parts| == 1 {
      SplitNoSep(parts[0], sep);
    } else {
      SplitJoin(parts[1..], sep);
      SplitAtSep(parts[0], sep, Join(parts[1..], [sep]));
    }
  }

  /** Byte-wise lexicographic order: Go's `<` on strings, and the order Mongo
      and Redis give strings. */
  predicate StrLess(a: string, b: string)
  {
    if |b| == 0 then false
    else if |a| == 0 then true
    else if a[0] != b[0] then a[0] < b[0]
    else StrLess(a[1..], b[1..])
  }

  /** Exactly one of `a < b`, `a == b`, `b < a` holds. */
  lemma {:induction false} StrLessTrichotomy(a: string, b: string)
    ensures a == b || StrLess(a, b) || StrLess(b, a)
    ensures !(StrLess(a, b) && StrLess(b, a))
    ensures !StrLess(a, a)
  {
    if |a| > 0 {
      StrLessTrichotomy(a[1..], a[1..]);
    }
    if |a| > 0 && |b| > 0 && a[0] == b[0] {
      StrLessTrichotomy(a[1..], b[1..]);
      if a[1..] == b[1..] {
        assert a == [a[0]] + a[1..] && b == [b[0]] + b[1..];
      }
    }
  }

  lemma {:induction false} StrLessTrans(a: string, b: string, c: string)
    requires StrLess(a, b) && StrLess(b, c)
    ensures StrLess(a, c)
  {
    if |a| > 0 && a[0] == b[0] && b[0] == c[0] {
      StrLessTrans(a[1..], b[1..], c[1..]);
    }
  }

  /** `strings.HasPrefix`. */
  predicate HasPrefix(s: string, prefix: string)
  {
    |prefix| <= |s| && s[..|prefix|] == prefix
  }

  /** `strings.TrimLeft(s, [c])`: drop every leading `c`. */
  function TrimLeftChar(s: string, c: char): (r: string)
    ensures |r| == 0 || r[0] != c
    ensures |r| <= |s| && r == s[|s| - |r|..]
    ensures forall i :: 0 <= i < |s| - |r| ==> s[i] == c
  {
    if |s| > 0 && s[0] == c then TrimLeftChar(s[1..], c) else s
  }

  /** `strings.TrimPrefix`. */
  function TrimPrefix(s: string, prefix: string): (r: string)
    ensures HasPrefix(s, prefix) ==> prefix + r == s
    ensures !HasPrefix(s, prefix) ==> r == s
  {
    if HasPrefix(s, prefix) then s[|prefix|..] else s
  }

  /** Two prefixes that differ at a position both reach never start equal strings. */
  lemma DivergentPrefixes(p1: string, p2: string, a: string, b: string, k: nat)
    requires k < |p1| && k < |p2| && p1[k] != p2[k]
    ensures p1 + a != p2 + b
  {
    assert (p1 + a)[k] == p1[k];
    assert (p2 + b)[k] == p2[k];
  }

  /** `a + [sep] + b` determines `a` and `b` when `a` holds no separator. */
  lemma SeparatedPairInjective(a1: string, b1: string, a2: string, b2: string, sep: char)
    requires sep !in a1 && sep !in a2
    requires a1 + [sep] + b1 == a2 + [sep] + b2
    ensures a1 == a2 && b1 == b2
  {
    var s1 := a1 + [sep] + b1;
    var s2 := a2 + [sep] + b2;
    assert s1[|a1|] == sep && s2[|a2|] == sep;
    assert |a1| <= |a2| ==> s2[|a1|] == sep;
    assert |a2| <= |a1| ==> s1[|a2|] == sep;
    assert a1 == s1[..|a1|] == s2[..|a2|] == a2;
    assert b1 == s1[|a1| + 1..] == s2[|a2| + 1..] == b2;
  }
}
