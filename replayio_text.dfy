/** Two helpers for recording assertions (src/replayio/replayio-commands.cc):
    `ToReadableString`, which makes a C string printable, and `HashBytes`,
    the 31-multiplier rolling hash of a byte buffer. */
module AssertionText {
  import Decimal

  /** A C `char`, which is signed on the platforms the recorder supports. */
  type SignedChar = c: int | -128 <= c < 128

  /** A `uint8_t`. */
  type Byte = b: int | 0 <= b < 256

  /** The characters of a NUL-terminated string: everything before the
      first 0 (the whole sequence when there is none). */
  function CString(s: seq<SignedChar>): (t: seq<SignedChar>)
    ensures t <= s && 0 !in t
    ensures |t| < |s| ==> s[|t|] == 0
  {
    if s == [] || s[0] == 0 then [] else [s[0]] + CString(s[1..])
  }

  /** Whether a character code is copied as it is. */
  predicate IsPrintable(c: int) {
    32 <= c <= 126
  }

  /** How one character is written: itself when printable, otherwise a
      backslash and its decimal code. */
  function Escape(c: SignedChar): string {
    if IsPrintable(c) then [c as char] else "\\" + Decimal.IntToString(c)
  }

  /** The readable form of a string that holds no NUL. */
  function Readable(t: seq<SignedChar>): string {
    if t == [] then "" else Readable(t[..|t| - 1]) + Escape(t[|t| - 1])
  }

  /** `ToReadableString`. */
  method ToReadableString(s: seq<SignedChar>) returns (o: string)
    ensures o == Readable(CString(s))
  {
    o := "";
    var i := 0;
    while i < |s| && s[i] != 0
      invariant 0 <= i <= |s|
      invariant 0 !in s[..i]
      invariant o == Readable(s[..i])
    {
      ReadablePrefixStep(s, i);
      o := o + Escape(s[i]);
      i := i + 1;
    }
    CStringIs(s, i);
  }

  /** One more character of the input adds its escaped form at the end, and
      keeps the prefix free of NUL when it is not NUL itself. */
  lemma ReadablePrefixStep(s: seq<SignedChar>, i: nat)
    requires i < |s|
    ensures Readable(s[..i + 1]) == Readable(s[..i]) + Escape(s[i])
    ensures 0 !in s[..i] && s[i] != 0 ==> 0 !in s[..i + 1]
  {
    assert s[..i + 1][..i] == s[..i];
    assert s[..i + 1] == s[..i] + [s[i]];
  }

  /** A prefix free of NUL that ends at a NUL or at the end is the C string. */
  lemma {:induction false} CStringIs(s: seq<SignedChar>, i: nat)
    requires i <= |s| && 0 !in s[..i]
    requires i < |s| ==> s[i] == 0
    ensures CString(s) == s[..i]
  {
    if i > 0 {
      assert s[..i][0] == s[0];
      assert s[1..][..i - 1] == s[1..i];
      CStringIs(s[1..], i - 1);
    } else if s != [] {
      assert s[0] == 0;
    }
  }

  /** Every character of the output is printable. */
  lemma {:induction false} ReadableIsPrintable(t: seq<SignedChar>)
    ensures forall k :: 0 <= k < |Readable(t)| ==> IsPrintable(Readable(t)[k] as int)
  {
    if t != [] {
      ReadableIsPrintable(t[..|t| - 1]);
      EscapeIsPrintable(t[|t| - 1]);
    }
  }

  lemma EscapeIsPrintable(c: SignedChar)
    ensures forall k :: 0 <= k < |Escape(c)| ==> IsPrintable(Escape(c)[k] as int)
  {
    if !IsPrintable(c) {
      var digits := Decimal.IntToString(c);
      assert forall k :: 0 <= k < |digits| ==> digits[k] == '-' || Decimal.IsDigit(digits[k]) by {
        if c < 0 {
          assert forall k :: 1 <= k < |digits| ==> digits[1..][k - 1] == digits[k];
        }
      }
      assert forall k :: 1 <= k < |Escape(c)| ==> Escape(c)[k] == digits[k - 1];
    }
  }

  /** A string that is already printable comes out unchanged. */
  lemma {:induction false} ReadableOfPrintable(t: seq<SignedChar>)
    requires forall k :: 0 <= k < |t| ==> IsPrintable(t[k])
    ensures |Readable(t)| == |t|
    ensures forall k :: 0 <= k < |t| ==> Readable(t)[k] as int == t[k]
  {
    if t != [] {
      ReadableOfPrintable(t[..|t| - 1]);
    }
  }

  /** The escaping is not reversible: a backslash followed by the digit 1
      reads exactly like the control character 1. */
  lemma ReadableIsAmbiguous()
    ensures Readable(['\\' as int, '1' as int]) == Readable([1])
  {
    assert Decimal.IntToString(1) == "1";
    assert Readable(['\\' as int, '1' as int]) == Readable(['\\' as int]) + "1";
    assert Readable(['\\' as int]) == "" + "\\";
    assert Readable([1]) == "" + ("\\" + "1");
  }

  /** 2 to the 32nd. */
  const TwoTo32: int := 0x1_0000_0000
  const TwoTo31: int := 0x8000_0000

  /** Two's-complement wrap-around into a 32-bit `int`. */
  function Wrap32(x: int): (r: int)
    ensures -TwoTo31 <= r < TwoTo31
    ensures (r - x) % TwoTo32 == 0
  {
    (x + TwoTo31) % TwoTo32 - TwoTo31
  }

  /** The hash of a buffer: each byte updates `hash` to `hash * 31 + byte`,
      wrapped to 32 bits (`(hash << 5) - hash` is `hash * 31`). */
  function HashOf(bytes: seq<Byte>): int {
    if bytes == [] then 0 else Wrap32(31 * HashOf(bytes[..|bytes| - 1]) + bytes[|bytes| - 1])
  }

  /** `HashBytes`. */
  method HashBytes(bytes: seq<Byte>) returns (hash: int)
    ensures hash == HashOf(bytes)
    ensures -TwoTo31 <= hash < TwoTo31
  {
    hash := 0;
    var i := 0;
    while i < |bytes|
      invariant 0 <= i <= |bytes|
      invariant hash == HashOf(bytes[..i])
    {
      assert bytes[..i + 1][..i] == bytes[..i];
      hash := Wrap32(31 * hash + bytes[i]);
      i := i + 1;
    }
    assert bytes[..i] == bytes;
  }

  /** The polynomial the hash computes without wrapping:
      the sum of `bytes[k] * 31^(n-1-k)`. */
  function Polynomial(bytes: seq<Byte>): int {
    if bytes == [] then 0 else 31 * Polynomial(bytes[..|bytes| - 1]) + bytes[|bytes| - 1]
  }

  /** Wrapping at every step gives the polynomial wrapped once. */
  lemma {:induction false} HashIsWrappedPolynomial(bytes: seq<Byte>)
    ensures HashOf(bytes) == Wrap32(Polynomial(bytes))
  {
    if bytes != [] {
      var init := bytes[..|bytes| - 1];
      var last := bytes[|bytes| - 1];
      HashIsWrappedPolynomial(init);
      var p := Polynomial(init);
      var q := (p + TwoTo31) / TwoTo32;
      assert Wrap32(p) == p - TwoTo32 * q;
      WrapOfShift(31 * p + last, 31 * q);
    }
  }

  /** Wrapping ignores multiples of 2^32. */
  lemma WrapOfShift(x: int, k: int)
    ensures Wrap32(x - TwoTo32 * k) == Wrap32(x)
  {
    var a := x + TwoTo31;
    assert a == TwoTo32 * (a / TwoTo32) + a % TwoTo32;
    assert a - TwoTo32 * k == TwoTo32 * (a / TwoTo32 - k) + a % TwoTo32;
    ModOfMultipleAdded(a % TwoTo32, a / TwoTo32 - k);
  }

  lemma ModOfMultipleAdded(r: int, m: int)
    requires 0 <= r < TwoTo32
    ensures (TwoTo32 * m + r) % TwoTo32 == r
  {
  }
}
