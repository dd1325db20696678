/** Decimal text as the C++ standard library writes and reads it:
    `std::ostream << int` (an optional '-' followed by the digits, no leading
    zeros) and `atoi` (leading white space, an optional sign, then the longest
    run of digits). Integers are unbounded here; `atoi`'s undefined behaviour
    on overflow is not modelled. */
module Decimal {
  import opened Wrappers

  predicate IsDigit(c: char) {
    '0' <= c <= '9'
  }

  predicate AllDigits(s: string) {
    forall i :: 0 <= i < |s| ==> IsDigit(s[i])
  }

  /** The characters `isspace` accepts in the "C" locale. */
  predicate IsSpace(c: char) {
    c == ' ' || c == '\t' || c == '\n' || c == '\U{B}' || c == '\U{C}' || c == '\r'
  }

  function DigitChar(d: nat): (c: char)
    requires d < 10
    ensures IsDigit(c) && c as int - '0' as int == d
  {
    (d + '0' as int) as char
  }

  /** The digits of `n`, most significant first, as `<<` prints them. */
  function NatToString(n: nat): (s: string)
    ensures |s| > 0 && AllDigits(s)
    ensures s[0] == '0' ==> n == 0
  {
    if n < 10 then [DigitChar(n)] else NatToString(n / 10) + [DigitChar(n % 10)]
  }

  /** `std::ostream << int`. */
  function IntToString(i: int): (s: string)
    ensures |s| > 0
    ensures i < 0 ==> s[0] == '-' && AllDigits(s[1..])
    ensures i >= 0 ==> AllDigits(s)
  {
    if i < 0 then "-" + NatToString(-i) else NatToString(i)
  }

  /** The value of a run of digits, read most significant first. */
  function DigitsValue(s: string): nat
    requires AllDigits(s)
  {
    if s == [] then 0
    else DigitsValue(s[..|s| - 1]) * 10 + (s[|s| - 1] as int - '0' as int)
  }

  /** The longest prefix of `s` made of digits. */
  function LeadingDigits(s: string): (d: string)
    ensures AllDigits(d) && d <= s
    ensures |d| < |s| ==> !IsDigit(s[|d|])
  {
    if s != [] && IsDigit(s[0]) then [s[0]] + LeadingDigits(s[1..]) else []
  }

  function SkipSpaces(s: string): (t: string)
    ensures |t| <= |s| && t == s[|s| - |t|..]
    ensures t != [] ==> !IsSpace(t[0])
  {
    if s != [] && IsSpace(s[0]) then SkipSpaces(s[1..]) else s
  }

  /** `atoi`: text that does not start with a number reads as 0. */
  function Atoi(s: string): int {
    var t := SkipSpaces(s);
    if t != [] && t[0] == '-' then 0 - DigitsValue(LeadingDigits(t[1..]))
    else if t != [] && t[0] == '+' then DigitsValue(LeadingDigits(t[1..]))
    else DigitsValue(LeadingDigits(t))
  }

  lemma {:induction false} DigitsValueOfNatToString(n: nat)
    ensures DigitsValue(NatToString(n)) == n
  {
    var s := NatToString(n);
    if n >= 10 {
      DigitsValueOfNatToString(n / 10);
      assert s[..|s| - 1] == NatToString(n / 10);
    }
  }

  lemma {:induction false} LeadingDigitsOfAppend(d: string, rest: string)
    requires AllDigits(d)
    requires rest == [] || !IsDigit(rest[0])
    ensures LeadingDigits(d + rest) == d
  {
    if d != [] {
      assert (d + rest)[1..] == d[1..] + rest;
      LeadingDigitsOfAppend(d[1..], rest);
    } else {
      assert d + rest == rest;
    }
  }

  lemma SkipSpacesOfNonSpace(s: string)
    requires s != [] && !IsSpace(s[0])
    ensures SkipSpaces(s) == s
  {
  }

  lemma {:induction false} AtoiOfNatToString(n: nat, rest: string)
    requires rest == [] || !IsDigit(rest[0])
    ensures Atoi(NatToString(n) + rest) == n
  {
    var digits := NatToString(n);
    var s := digits + rest;
    assert s[0] == digits[0] && IsDigit(s[0]);
    SkipSpacesOfNonSpace(s);
    assert Atoi(s) == DigitsValue(LeadingDigits(s));
    LeadingDigitsOfAppend(digits, rest);
    DigitsValueOfNatToString(n);
  }

  lemma {:induction false} AtoiOfNegative(n: nat, rest: string)
    requires rest == [] || !IsDigit(rest[0])
    ensures Atoi(['-'] + NatToString(n) + rest) == 0 - n
  {
    var digits := NatToString(n);
    var s := ['-'] + digits + rest;
    assert s[0] == '-';
    SkipSpacesOfNonSpace(s);
    var t := SkipSpaces(s);
    assert t == s;
    assert t[1..] == digits + rest;
    LeadingDigitsOfAppend(digits, rest);
    assert LeadingDigits(t[1..]) == digits;
    DigitsValueOfNatToString(n);
  }

  /** `atoi` reads back what `<<` printed, whatever follows that is not a digit. */
  lemma {:induction false} AtoiOfIntToString(i: int, rest: string)
    requires rest == [] || !IsDigit(rest[0])
    ensures Atoi(IntToString(i) + rest) == i
  {
    if i < 0 {
      var n: nat := -i;
      assert IntToString(i) == ['-'] + NatToString(n);
      AtoiOfNegative(n, rest);
    } else {
      assert IntToString(i) == NatToString(i);
      AtoiOfNatToString(i, rest);
    }
  }

  /** `atoi` of a printed integer followed by ':' and anything is that integer. */
  lemma AtoiBeforeColon(i: int, x: string)
    ensures Atoi(IntToString(i) + ":" + x) == i
  {
    assert IntToString(i) + ":" + x == IntToString(i) + ([':'] + x);
    AtoiOfIntToString(i, [':'] + x);
  }

  /** `<<` never prints two integers the same way. */
  lemma IntToStringInjective(i: int, j: int)
    requires IntToString(i) == IntToString(j)
    ensures i == j
  {
    AtoiOfIntToString(i, []);
    AtoiOfIntToString(j, []);
    assert IntToString(i) + [] == IntToString(i);
    assert IntToString(j) + [] == IntToString(j);
  }

  /** No printed integer contains a character other than '-' and the digits. */
  lemma IntToStringHasNo(i: int, c: char)
    requires c != '-' && !IsDigit(c)
    ensures c !in IntToString(i)
  {
    var s := IntToString(i);
    forall k | 0 <= k < |s| ensures s[k] != c {
      if i < 0 && k > 0 {
        assert s[k] == s[1..][k - 1];
      }
    }
  }

  /** `strchr`: the index of the first occurrence of `c`. */
  function IndexOf(s: string, c: char): (r: Option<nat>)
    ensures r.None? <==> c !in s
    ensures r.Some? ==> r.value < |s| && s[r.value] == c && c !in s[..r.value]
  {
    if s == [] then None
    else if s[0] == c then Some(0)
    else
      var r := IndexOf(s[1..], c);
      if r.None? then None
      else
        assert s[..r.value + 1] == [s[0]] + s[1..][..r.value];
        Some(r.value + 1)
  }

  lemma FirstIndexIs(s: string, c: char, i: nat)
    requires i < |s| && s[i] == c && c !in s[..i]
    ensures IndexOf(s, c) == Some(i)
  {
  }

  /** `strrchr`: the index of the last occurrence of `c`. */
  function LastIndexOf(s: string, c: char): (r: Option<nat>)
    ensures r.None? <==> c !in s
    ensures r.Some? ==> r.value < |s| && s[r.value] == c && c !in s[r.value + 1..]
  {
    if s == [] then None
    else if s[|s| - 1] == c then Some(|s| - 1)
    else
      var r := LastIndexOf(s[..|s| - 1], c);
      if r.None? then None
      else
        assert s[r.value + 1..] == s[..|s| - 1][r.value + 1..] + [s[|s| - 1]];
        r
  }

  lemma LastIndexIs(s: string, c: char, i: nat)
    requires i < |s| && s[i] == c && c !in s[i + 1..]
    ensures LastIndexOf(s, c) == Some(i)
  {
  }

  /** A printed integer followed by ':' can be split off again: the ':' is
      the first one in the text. */
  lemma SplitAfterInt(a: int, x: string, b: int, y: string)
    requires IntToString(a) + ":" + x == IntToString(b) + ":" + y
    ensures a == b && x == y
  {
    var sa, sb := IntToString(a), IntToString(b);
    var s := sa + ":" + x;
    IntToStringHasNo(a, ':');
    IntToStringHasNo(b, ':');
    assert s[..|sa|] == sa && s[..|sb|] == sb;
    FirstIndexIs(s, ':', |sa|);
    FirstIndexIs(s, ':', |sb|);
    assert sa == s[..|sa|] == sb;
    IntToStringInjective(a, b);
    assert x == s[|sa| + 1..] == y;
  }

  /** A printed integer after a ':' can be split off again: the ':' is the
      last one in the text. */
  lemma SplitBeforeInt(x: string, a: int, y: string, b: int)
    requires x + ":" + IntToString(a) == y + ":" + IntToString(b)
    ensures x == y && a == b
  {
    var sa, sb := IntToString(a), IntToString(b);
    var s := x + ":" + sa;
    IntToStringHasNo(a, ':');
    IntToStringHasNo(b, ':');
    ColonJoin(x, sa);
    ColonJoin(y, sb);
    LastIndexIs(s, ':', |x|);
    LastIndexIs(s, ':', |y|);
    IntToStringInjective(a, b);
  }

  /** The parts of `x + ":" + t` sit where they were put. */
  lemma ColonJoin(x: string, t: string)
    ensures (x + ":" + t)[..|x|] == x && (x + ":" + t)[|x|] == ':' && (x + ":" + t)[|x| + 1..] == t
  {
  }
}
