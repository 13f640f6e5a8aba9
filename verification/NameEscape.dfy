/** How the process lister prints file and command names: a backslash is doubled, other visible characters stand for
  * themselves, anything else is a backslash and the octal digits that "%03o" prints. For command names
  * that is the byte; for file names it is the plain char, which on a machine with signed chars is
  * a 32-bit negative number from 128 on. */
module NameEscape {
  import opened Bytes

  const BACKSLASH: Byte := 92
  const ZERO: Byte := 48
  const THREE: Byte := 51

  predicate Visible(c: Byte) {
    32 < c <= 126
  }

  /** What "%o" is given. */
  function Argument(signed: bool, c: Byte): (n: nat)
    ensures n < 0x1_0000_0000 && n % 256 == c
  {
    if signed && c >= 128 then 0x1_0000_0000 - 256 + c else c
  }

  function Width(n: nat): nat {
    if n < 8 then 1 else 1 + Width(n / 8)
  }

  /** The last `width` octal digits of n. */
  function Digits(n: nat, width: nat): (s: seq<Byte>)
    ensures |s| == width && forall i :: 0 <= i < |s| ==> ZERO <= s[i] < ZERO + 8
  {
    if width == 0 then [] else Digits(n / 8, width - 1) + [ZERO + n % 8]
  }

  function Printf03o(n: nat): seq<Byte> {
    Digits(n, if Width(n) < 3 then 3 else Width(n))
  }

  function Escape(signed: bool, c: Byte): (shown: seq<Byte>)
    ensures forall i :: 0 <= i < |shown| ==> Visible(shown[i])
  {
    if c == BACKSLASH then [BACKSLASH, BACKSLASH]
    else if Visible(c) then [c]
    else [BACKSLASH] + Printf03o(Argument(signed, c))
  }

  function Escaped(signed: bool, name: seq<Byte>): (shown: seq<Byte>)
    ensures forall i :: 0 <= i < |shown| ==> Visible(shown[i])
  {
    if name == [] then [] else Escaped(signed, name[..|name| - 1]) + Escape(signed, name[|name| - 1])
  }

  /** The printing loop, with its running count of the columns used. */
  method PrintName(signed: bool, name: seq<Byte>) returns (out: seq<Byte>, length: nat)
    ensures out == Escaped(signed, name) && length == |out|
    ensures forall i :: 0 <= i < |out| ==> Visible(out[i])
  {
    out, length := [], 0;
    for scan := 0 to |name|
      invariant out == Escaped(signed, name[..scan]) && length == |out|
    {
      var c := name[scan];
      assert name[..scan + 1][..scan] == name[..scan];
      if c == BACKSLASH {
        out, length := out + [BACKSLASH, BACKSLASH], length + 2;
      } else if 32 < c <= 126 {
        out, length := out + [c], length + 1;
      } else {
        var octal := Printf03o(Argument(signed, c));
        out, length := out + ([BACKSLASH] + octal), length + 1 + |octal|;
      }
    }
    assert name[..|name|] == name;
  }

  // ----- reading it back -----

  datatype Parsed = Malformed | Name(bytes: seq<Byte>)

  function Prepend(c: Byte, rest: Parsed): Parsed {
    match rest
    case Malformed => Malformed
    case Name(bytes) => Name([c] + bytes)
  }

  predicate IsOctal(s: seq<Byte>) {
    forall i :: 0 <= i < |s| ==> ZERO <= s[i] < ZERO + 8
  }

  function Value(s: seq<Byte>): nat
    requires IsOctal(s)
  {
    if s == [] then 0 else 8 * Value(s[..|s| - 1]) + (s[|s| - 1] - ZERO)
  }

  /** A negative number is the only one whose first digit is a 3, and has eleven digits. */
  function Decode(signed: bool, s: seq<Byte>): Parsed {
    if s == [] then Name([])
    else if s[0] != BACKSLASH then Prepend(s[0], Decode(signed, s[1..]))
    else if |s| == 1 then Malformed
    else if s[1] == BACKSLASH then Prepend(BACKSLASH, Decode(signed, s[2..]))
    else
      var end := if signed && s[1] == THREE then 12 else 4;
      if |s| < end || !IsOctal(s[1..end]) then Malformed
      else Prepend(Value(s[1..end]) % 256, Decode(signed, s[end..]))
  }

  /** d times the k-th power of eight. */
  function Scaled(d: nat, k: nat): nat {
    if k == 0 then d else 8 * Scaled(d, k - 1)
  }

  lemma {:induction false} WidthIs(n: nat, k: nat)
    requires k > 0 && n < Scaled(1, k) && (k == 1 || Scaled(1, k - 1) <= n)
    ensures Width(n) == k
  {
    if k > 1 {
      WidthIs(n / 8, k - 1);
    }
  }

  lemma {:induction false} ValueOfDigits(n: nat, width: nat)
    requires n < Scaled(1, width)
    ensures Value(Digits(n, width)) == n
  {
    if width > 0 {
      ValueOfDigits(n / 8, width - 1);
      var s := Digits(n, width);
      assert s[..width - 1] == Digits(n / 8, width - 1);
    }
  }

  lemma {:induction false} FirstDigit(n: nat, width: nat, d: nat)
    requires width > 0 && d < 8 && Scaled(d, width - 1) <= n < Scaled(d + 1, width - 1)
    ensures Digits(n, width)[0] == ZERO + d
  {
    if width > 1 {
      FirstDigit(n / 8, width - 1, d);
      assert Digits(n, width)[0] == Digits(n / 8, width - 1)[0];
    }
  }

  lemma ScaledIs(d: nat)
    ensures Scaled(d, 2) == 64 * d && Scaled(d, 10) == 0x4000_0000 * d
  {
    assert Scaled(d, 2) == 8 * Scaled(d, 1) == 64 * Scaled(d, 0);
    assert Scaled(d, 4) == 8 * Scaled(d, 3) == 64 * Scaled(d, 2);
    assert Scaled(d, 6) == 8 * Scaled(d, 5) == 64 * Scaled(d, 4);
    assert Scaled(d, 8) == 8 * Scaled(d, 7) == 64 * Scaled(d, 6);
    assert Scaled(d, 10) == 8 * Scaled(d, 9) == 64 * Scaled(d, 8);
  }

  lemma DigitsOfHigh(c: Byte)
    requires c >= 128
    ensures var n := Argument(true, c);
      && |Printf03o(n)| == 11 && Printf03o(n)[0] == THREE && Value(Printf03o(n)) == n
  {
    var n := Argument(true, c);
    ScaledIs(1);
    ScaledIs(3);
    ScaledIs(4);
    assert Scaled(1, 11) == 8 * Scaled(1, 10);
    WidthIs(n, 11);
    ValueOfDigits(n, 11);
    FirstDigit(n, 11, 3);
  }

  lemma DigitsOfLow(n: Byte)
    ensures |Printf03o(n)| == 3 && Printf03o(n)[0] == ZERO + n / 64 && Value(Printf03o(n)) == n
  {
    var d := n / 64;
    ScaledIs(1);
    ScaledIs(d);
    ScaledIs(d + 1);
    assert Scaled(1, 1) == 8 && Scaled(1, 3) == 8 * Scaled(1, 2);
    WidthIs(n, if n < 8 then 1 else if n < 64 then 2 else 3);
    ValueOfDigits(n, 3);
    FirstDigit(n, 3, d);
  }

  /** What one byte becomes: a backslash and digits whose number and value can be told from the digits. */
  lemma DigitsOfByte(signed: bool, c: Byte)
    ensures var digits := Printf03o(Argument(signed, c));
      && |digits| == (if signed && digits[0] == THREE then 11 else 3)
      && Value(digits) == Argument(signed, c)
  {
    if signed && c >= 128 {
      DigitsOfHigh(c);
    } else {
      DigitsOfLow(c);
    }
  }

  /** Which bytes stand for themselves, and what the others become: four characters, or twelve for a negative char. */
  lemma EscapeMeans(signed: bool, c: Byte)
    ensures var shown := Escape(signed, c);
      && (shown == [c] <==> 32 < c <= 126 && c != 92)
      && (shown == [92, 92] <==> c == 92)
      && (!(32 < c <= 126) ==>
            && |shown| == (if signed && c >= 128 then 12 else 4) && shown[0] == 92 && IsOctal(shown[1..])
            && Value(shown[1..]) == if signed && c >= 128 then 0x1_0000_0000 - (256 - c) else c)
  {
    if !(32 < c <= 126) {
      assert Escape(signed, c)[1..] == Printf03o(Argument(signed, c));
      if signed && c >= 128 {
        DigitsOfHigh(c);
      } else {
        DigitsOfLow(c);
      }
    }
  }

  lemma DecodeOne(signed: bool, c: Byte, rest: seq<Byte>)
    ensures Decode(signed, Escape(signed, c) + rest) == Prepend(c, Decode(signed, rest))
  {
    var shown := Escape(signed, c);
    var s := shown + rest;
    assert s[|shown|..] == rest;
    if c != BACKSLASH && !Visible(c) {
      var digits := Printf03o(Argument(signed, c));
      DigitsOfByte(signed, c);
      assert s[1..1 + |digits|] == digits;
      assert s[1] == digits[0];
    }
  }

  function Before(name: seq<Byte>, rest: Parsed): Parsed {
    match rest
    case Malformed => Malformed
    case Name(bytes) => Name(name + bytes)
  }

  lemma BeforeOneMore(name: seq<Byte>, c: Byte, rest: Parsed)
    ensures Before(name, Prepend(c, rest)) == Before(name + [c], rest)
  {
  }

  /** On every byte string, whatever follows it, the decoder inverts the printer. */
  lemma {:induction false} DecodeInverts(signed: bool, name: seq<Byte>, rest: seq<Byte>)
    ensures Decode(signed, Escaped(signed, name) + rest) == Before(name, Decode(signed, rest))
  {
    if name == [] {
      assert Escaped(signed, name) + rest == rest;
      BeforeNothing(Decode(signed, rest));
    } else {
      var before, c := name[..|name| - 1], name[|name| - 1];
      var tail := Escape(signed, c) + rest;
      assert Escaped(signed, name) + rest == Escaped(signed, before) + tail;
      DecodeInverts(signed, before, tail);
      DecodeOne(signed, c, rest);
      BeforeOneMore(before, c, Decode(signed, rest));
      assert before + [c] == name;
    }
  }

  lemma BeforeNothing(rest: Parsed)
    ensures Before([], rest) == rest
  {
  }

  /** Distinct names print differently, whichever way the machine's chars go. */
  lemma PrintsAreDistinct(signed: bool, a: seq<Byte>, b: seq<Byte>)
    ensures Decode(signed, Escaped(signed, a)) == Name(a)
    ensures Escaped(signed, a) == Escaped(signed, b) <==> a == b
  {
    DecodeInverts(signed, a, []);
    DecodeInverts(signed, b, []);
    assert Escaped(signed, a) + [] == Escaped(signed, a) && Escaped(signed, b) + [] == Escaped(signed, b);
    assert a + [] == a && b + [] == b;
  }
}
