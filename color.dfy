/**
 * Hex colour parsing: a string with or without a leading `#`, in six-digit or three-digit
 * shorthand form, read as three base-16 channels; and the same for a 32-bit value formatted
 * as hex. Channels are the integers `strtol` returns, before the division by 255.
 */
module Color {
  import opened Wrappers
  import opened Vulkan
  import Bits

  datatype Rgb = Rgb(r: int, g: int, b: int)

  /** `std::out_of_range`, thrown by `std::string::at` and `std::string::substr`. */
  datatype HexError = OutOfRange

  // ---------------------------------------------------------------- strtol in base 16

  predicate IsHexDigit(c: char)
  {
    '0' <= c <= '9' || 'a' <= c <= 'f' || 'A' <= c <= 'F'
  }

  function HexValue(c: char): (v: nat)
    requires IsHexDigit(c)
    ensures v < 16
  {
    if '0' <= c <= '9' then c as int - '0' as int
    else if 'a' <= c <= 'f' then c as int - 'a' as int + 10
    else c as int - 'A' as int + 10
  }

  /** The white space `isspace` accepts in the C locale. */
  predicate IsSpace(c: char)
  {
    c == ' ' || c == '\t' || c == '\n' || c == '\r' || c == 11 as char || c == 12 as char
  }

  /** The longest prefix made of hex digits. */
  function LeadingDigits(s: string): (d: string)
    ensures d <= s && forall i :: 0 <= i < |d| ==> IsHexDigit(d[i])
    ensures |d| < |s| ==> !IsHexDigit(s[|d|])
  {
    if s != [] && IsHexDigit(s[0]) then [s[0]] + LeadingDigits(s[1..]) else []
  }

  /** The value of a string of hex digits, most significant first. */
  function DigitsValue(d: string): (v: nat)
    requires forall i :: 0 <= i < |d| ==> IsHexDigit(d[i])
    decreases |d|
  {
    if d == [] then 0 else 16 * DigitsValue(d[..|d| - 1]) + HexValue(d[|d| - 1])
  }

  /**
   * `strtol(s, nullptr, 16)`: white space, an optional sign, an optional `0x` prefix, then
   * as many hex digits as there are; no digits reads as 0. Inputs here have at most two
   * characters, so the overflow clamp of `strtol` is never reached.
   */
  function StrToL16(s: string): int
  {
    if s != [] && IsSpace(s[0]) then StrToL16(s[1..]) else SignedValue(s)
  }

  /** The value after the white space: a sign, a prefix and the digits. */
  function SignedValue(t: string): (v: int)
    ensures t != [] && t[0] == '-' ==> v <= 0
    ensures (t == [] || t[0] != '-') ==> v >= 0
    ensures |t| >= 3 && t[0] == '0' && (t[1] == 'x' || t[1] == 'X') && IsHexDigit(t[2]) ==> v == DigitsValue(LeadingDigits(t[2..]))
  {
    var negative := t != [] && t[0] == '-';
    var u := if t != [] && (t[0] == '-' || t[0] == '+') then t[1..] else t;
    var w := if |u| >= 3 && u[0] == '0' && (u[1] == 'x' || u[1] == 'X') && IsHexDigit(u[2]) then u[2..] else u;
    var v: int := DigitsValue(LeadingDigits(w));
    if negative then -v else v
  }

  /** The longest hex-digit prefix of a run of hex digits is all of it. */
  lemma {:induction false} LeadingDigitsAll(s: string)
    requires forall i :: 0 <= i < |s| ==> IsHexDigit(s[i])
    ensures LeadingDigits(s) == s
  {
    if s != [] {
      LeadingDigitsAll(s[1..]);
    }
  }

  /** `strtol` reads a run of hex digits as their value. */
  lemma StrToL16Digits(s: string)
    requires forall i :: 0 <= i < |s| ==> IsHexDigit(s[i])
    ensures StrToL16(s) == DigitsValue(s)
  {
    LeadingDigitsAll(s);
  }

  /** `strtol` skips leading white space. */
  lemma {:induction false} StrToL16SkipsSpace(ws: string, t: string)
    requires forall i :: 0 <= i < |ws| ==> IsSpace(ws[i])
    requires t == [] || !IsSpace(t[0])
    ensures StrToL16(ws + t) == SignedValue(t)
  {
    if ws != [] {
      assert (ws + t)[1..] == ws[1..] + t;
      StrToL16SkipsSpace(ws[1..], t);
    } else {
      assert ws + t == t;
    }
  }

  /** Two hex digits read as one channel in 0..255. */
  lemma TwoDigitsChannel(a: char, b: char)
    requires IsHexDigit(a) && IsHexDigit(b)
    ensures StrToL16([a, b]) == 16 * HexValue(a) + HexValue(b)
    ensures 0 <= StrToL16([a, b]) <= 255
  {
    assert LeadingDigits([a, b]) == [a, b] by {
      assert [a, b][1..] == [b];
      assert LeadingDigits([b]) == [b] by { assert [b][1..] == []; }
    }
    assert [a, b][..1] == [a];
    assert DigitsValue([a]) == HexValue(a) by { assert [a][..0] == []; }
  }

  // ---------------------------------------------------------------- string form

  /** `std::string::substr(pos, len)`: out of range when `pos` is past the end. */
  function Substr(s: string, pos: nat, len: nat): (r: Result<string, HexError>)
    ensures r.Err? <==> pos > |s|
    ensures r.Ok? ==> r.value <= s[pos..] && |r.value| == if pos + len <= |s| then len else |s| - pos
  {
    if pos > |s| then Err(OutOfRange)
    else if pos + len <= |s| then Ok(s[pos..pos + len]) else Ok(s[pos..])
  }

  /** The body after one leading `#`. */
  function StripHash(s: string): string
  {
    if s != [] && s[0] == '#' then s[1..] else s
  }

  /** Three-character shorthand with every character doubled; other lengths unchanged. */
  function Expand(s: string): (t: string)
    ensures |s| == 3 ==> t == [s[0], s[0], s[1], s[1], s[2], s[2]]
    ensures |s| != 3 ==> t == s
  {
    if |s| == 3 then [s[0], s[0], s[1], s[1], s[2], s[2]] else s
  }

  /**
   * The colour a string denotes: an empty string has no first character; otherwise the
   * normalised body is cut into pairs at 0, 2 and 4, a cut past the end being out of range.
   */
  function ParseHex(s: string): Result<Rgb, HexError>
  {
    if s == [] then Err(OutOfRange) else Channels(Expand(StripHash(s)))
  }

  /** The pairs at 0, 2 and 4 of a normalised body, a cut past the end being out of range. */
  function Channels(t: string): Result<Rgb, HexError>
  {
    match (Substr(t, 0, 2), Substr(t, 2, 2), Substr(t, 4, 2))
    case (Ok(r), Ok(g), Ok(b)) => Ok(Rgb(StrToL16(r), StrToL16(g), StrToL16(b)))
    case _ => Err(OutOfRange)
  }

  /**
   * `ref_hex`: removes a leading `#` from the string and expands shorthand in place, then
   * reads the three channels.
   */
  method RefHex(colorValue: string) returns (r: Result<Rgb, HexError>)
    ensures r == ParseHex(colorValue)
  {
    if |colorValue| == 0 {
      return Err(OutOfRange);
    }
    var value := colorValue;
    if value[0] == '#' {
      value := value[1..];
    }
    assert value == StripHash(colorValue);
    if |value| == 3 {
      value := [value[0]] + [value[0]] + [value[1]] + [value[1]] + [value[2]] + [value[2]];
    }
    assert value == Expand(StripHash(colorValue));
    var red := Substr(value, 0, 2);
    var green := Substr(value, 2, 2);
    var blue := Substr(value, 4, 2);
    if red.Err? || green.Err? || blue.Err? {
      return Err(OutOfRange);
    }
    r := Ok(Rgb(StrToL16(red.value), StrToL16(green.value), StrToL16(blue.value)));
  }

  /** `hex(std::string)`: the string path, on a copy of the argument. */
  method HexString(col: string) returns (r: Result<Rgb, HexError>)
    ensures r == ParseHex(col)
  {
    r := RefHex(col);
  }

  // ---------------------------------------------------------------- properties of the string form

  /** An empty string throws: it has no first character to compare with `#`. */
  lemma EmptyIsOutOfRange()
    ensures ParseHex("") == Err(OutOfRange)
  {
  }

  /**
   * Exactly the strings whose normalised body is shorter than four characters throw; this
   * includes a lone `#`.
   */
  lemma ErrorExactlyWhenShort(s: string)
    ensures ParseHex(s).Err? <==> s == [] || |Expand(StripHash(s))| < 4
  {
  }

  /** One leading `#` is ignored. */
  lemma HashIsIgnored(s: string)
    requires s == [] || s[0] != '#'
    ensures ParseHex("#" + s) == ParseHex(s)
  {
    assert ("#" + s)[1..] == s;
  }

  /** Three-character shorthand means each character doubled. */
  lemma ShorthandDoubles(s: string)
    requires |s| == 3 && s[0] != '#'
    ensures ParseHex(s) == ParseHex([s[0], s[0], s[1], s[1], s[2], s[2]])
  {
  }

  /** Six leading hex digits are read as three pairs, each in 0..255. */
  lemma SixDigitsGiveChannels(t: string)
    requires |t| >= 6 && forall i :: 0 <= i < 6 ==> IsHexDigit(t[i])
    ensures Channels(t) == Ok(Rgb(16 * HexValue(t[0]) + HexValue(t[1]),
                                  16 * HexValue(t[2]) + HexValue(t[3]),
                                  16 * HexValue(t[4]) + HexValue(t[5])))
  {
    assert t[0..2] == [t[0], t[1]] && t[2..4] == [t[2], t[3]] && t[4..6] == [t[4], t[5]];
    assert Substr(t, 0, 2) == Ok(t[0..2]) && Substr(t, 2, 2) == Ok(t[2..4]) && Substr(t, 4, 2) == Ok(t[4..6]);
    TwoDigitsChannel(t[0], t[1]);
    TwoDigitsChannel(t[2], t[3]);
    TwoDigitsChannel(t[4], t[5]);
  }

  /** A body of six or more hex digits reads its first three pairs, each in 0..255. */
  lemma HexDigitsGiveChannels(s: string)
    requires var t := Expand(StripHash(s)); |t| >= 6 && forall i :: 0 <= i < 6 ==> IsHexDigit(t[i])
    ensures var t := Expand(StripHash(s));
      ParseHex(s) == Ok(Rgb(16 * HexValue(t[0]) + HexValue(t[1]),
                            16 * HexValue(t[2]) + HexValue(t[3]),
                            16 * HexValue(t[4]) + HexValue(t[5])))
    ensures 0 <= ParseHex(s).value.r <= 255 && 0 <= ParseHex(s).value.g <= 255 && 0 <= ParseHex(s).value.b <= 255
  {
    SixDigitsGiveChannels(Expand(StripHash(s)));
  }

  /** Without the hex-digit condition a channel can leave 0..255: `strtol` accepts a sign. */
  lemma SignedPairIsNegative()
    ensures ParseHex("-f0000") == Ok(Rgb(-15, 0, 0))
  {
    assert LeadingDigits("f") == "f" by { assert "f"[1..] == []; }
    assert DigitsValue("f") == 15 by { assert "f"[..0] == []; }
    TwoDigitsChannel('0', '0');
    assert "-f0000"[0..2] == "-f" && "-f"[1..] == "f";
    assert "-f0000"[2..4] == ['0', '0'] && "-f0000"[4..6] == ['0', '0'];
  }

  // ---------------------------------------------------------------- the 32-bit form

  function LowerDigit(d: nat): (c: char)
    requires d < 16
    ensures IsHexDigit(c) && HexValue(c) == d && !('A' <= c <= 'F')
  {
    if d < 10 then ('0' as int + d) as char else ('a' as int + d - 10) as char
  }

  /** `fmt::format("{:x}", x)`: lowercase hex digits without leading zeros, `"0"` for zero. */
  function LowerHex(x: nat): (s: string)
    ensures |s| >= 1 && forall i :: 0 <= i < |s| ==> IsHexDigit(s[i]) && !('A' <= s[i] <= 'F')
    ensures x > 0 ==> s[0] != '0'
  {
    if x < 16 then [LowerDigit(x)] else LowerHex(x / 16) + [LowerDigit(x % 16)]
  }

  /** The formatted digits read back as the value. */
  lemma {:induction false} LowerHexRoundTrip(x: nat)
    ensures DigitsValue(LowerHex(x)) == x
  {
    var s := LowerHex(x);
    if x < 16 {
      assert s[..0] == [];
    } else {
      LowerHexRoundTrip(x / 16);
      assert s[..|s| - 1] == LowerHex(x / 16);
    }
  }

  /** `hex(uint32_t)`: the value formatted as unpadded lowercase hex, then the string path. */
  method HexU32AsWritten(col: u32) returns (r: Result<Rgb, HexError>)
    ensures r == ParseHex(LowerHex(col))
  {
    var hex := LowerHex(col);
    r := RefHex(hex);
  }

  /** A run of `n` zero digits. */
  function Zeros(n: nat): (z: string)
    ensures |z| == n && forall i :: 0 <= i < n ==> z[i] == '0'
  {
    if n == 0 then [] else Zeros(n - 1) + ['0']
  }

  /** `fmt::format("{:06x}", x)`: the digits of `{:x}`, zero-padded on the left to at least six. */
  function PaddedHex(x: nat): (s: string)
    ensures |s| >= 6 && forall i :: 0 <= i < |s| ==> IsHexDigit(s[i])
  {
    var digits := LowerHex(x);
    (if |digits| < 6 then Zeros(6 - |digits|) else []) + digits
  }

  function Pow16(k: nat): (r: nat)
    ensures r >= 1
  {
    if k == 0 then 1 else 16 * Pow16(k - 1)
  }

  lemma Pow16Values()
    ensures Pow16(0) == 1 && Pow16(1) == 0x10 && Pow16(2) == 0x100
    ensures Pow16(6) == 0x100_0000 && Pow16(7) == 0x1000_0000 && Pow16(8) == 0x1_0000_0000
  {
    assert Pow16(1) == 16 * Pow16(0);
    assert Pow16(2) == 16 * Pow16(1);
    assert Pow16(3) == 16 * Pow16(2);
    assert Pow16(4) == 16 * Pow16(3);
    assert Pow16(5) == 16 * Pow16(4);
    assert Pow16(6) == 16 * Pow16(5);
    assert Pow16(7) == 16 * Pow16(6);
    assert Pow16(8) == 16 * Pow16(7);
  }

  /** Leading zero digits do not change the value. */
  lemma {:induction false} LeadingZerosValue(n: nat, s: string)
    requires forall i :: 0 <= i < |s| ==> IsHexDigit(s[i])
    ensures DigitsValue(Zeros(n) + s) == DigitsValue(s)
    decreases n + |s|
  {
    if s == [] {
      assert Zeros(n) + s == Zeros(n);
      if n > 0 {
        assert Zeros(n)[..n - 1] == Zeros(n - 1);
        LeadingZerosValue(n - 1, []);
        assert Zeros(n - 1) + [] == Zeros(n - 1);
      }
    } else {
      var t := Zeros(n) + s;
      assert t[..|t| - 1] == Zeros(n) + s[..|s| - 1];
      assert t[|t| - 1] == s[|s| - 1];
      LeadingZerosValue(n, s[..|s| - 1]);
    }
  }

  /** The padded digits read back as the value. */
  lemma PaddedHexValue(x: nat)
    ensures DigitsValue(PaddedHex(x)) == x
  {
    var digits := LowerHex(x);
    LowerHexRoundTrip(x);
    if |digits| < 6 {
      LeadingZerosValue(6 - |digits|, digits);
    } else {
      assert PaddedHex(x) == digits;
    }
  }

  /** `{:x}` has at most `k` digits exactly when the value is below `16^k`. */
  lemma {:induction false} LowerHexLength(x: nat, k: nat)
    requires k >= 1
    ensures |LowerHex(x)| <= k <==> x < Pow16(k)
    decreases x
  {
    Pow16AtLeast(k);
    if x >= 16 {
      assert |LowerHex(x)| == |LowerHex(x / 16)| + 1;
      if k >= 2 {
        LowerHexLength(x / 16, k - 1);
        assert x / 16 < Pow16(k - 1) <==> x < 16 * Pow16(k - 1);
      }
    }
  }

  lemma {:induction false} Pow16AtLeast(k: nat)
    requires k >= 1
    ensures Pow16(k) >= 16
  {
    if k > 1 {
      Pow16AtLeast(k - 1);
    }
  }

  /** The first `m` of a run of digits are the value with the last `|s| - m` digits dropped. */
  lemma {:induction false} PrefixValue(s: string, m: nat)
    requires m <= |s| && forall i :: 0 <= i < |s| ==> IsHexDigit(s[i])
    ensures DigitsValue(s[..m]) == Shift(DigitsValue(s), |s| - m)
    decreases |s| - m
  {
    if m == |s| {
      assert s[..m] == s;
    } else {
      var init := s[..|s| - 1];
      assert init[..m] == s[..m];
      PrefixValue(init, m);
      assert DigitsValue(s) / 16 == DigitsValue(init);
    }
  }

  /** The value of six digits, as three pairs. */
  lemma SixDigitsValue(t: string)
    requires |t| == 6 && forall i :: 0 <= i < 6 ==> IsHexDigit(t[i])
    ensures DigitsValue(t) == 0x1_0000 * (16 * HexValue(t[0]) + HexValue(t[1]))
                            + 0x100 * (16 * HexValue(t[2]) + HexValue(t[3]))
                            + (16 * HexValue(t[4]) + HexValue(t[5]))
  {
    assert t[..5][..4] == t[..4] && t[..4][..3] == t[..3] && t[..3][..2] == t[..2];
    assert t[..2][..1] == t[..1] && t[..1][..0] == [];
    assert DigitsValue(t[..1]) == HexValue(t[0]);
    assert DigitsValue(t[..2]) == 16 * HexValue(t[0]) + HexValue(t[1]);
    assert DigitsValue(t[..3]) == 16 * DigitsValue(t[..2]) + HexValue(t[2]);
    assert DigitsValue(t[..4]) == 16 * DigitsValue(t[..3]) + HexValue(t[3]);
    assert DigitsValue(t[..5]) == 16 * DigitsValue(t[..4]) + HexValue(t[4]);
    assert DigitsValue(t) == 16 * DigitsValue(t[..5]) + HexValue(t[5]);
  }

  /** The red, green and blue bytes of a 24-bit value. */
  function Bytes24(y: nat): Rgb
  {
    Rgb(y / 0x1_0000, y / 0x100 % 0x100, y % 0x100)
  }

  /** A run of six or more digits reads as the bytes of its first six. */
  lemma DigitsChannels(s: string)
    requires |s| >= 6 && forall i :: 0 <= i < |s| ==> IsHexDigit(s[i])
    ensures ParseHex(s) == Ok(Bytes24(DigitsValue(s[..6])))
  {
    var t := s[..6];
    assert Expand(StripHash(s)) == s;
    SixDigitsGiveChannels(s);
    SixDigitsValue(t);
    SplitBytes(DigitsValue(t), 16 * HexValue(s[0]) + HexValue(s[1]),
               16 * HexValue(s[2]) + HexValue(s[3]), 16 * HexValue(s[4]) + HexValue(s[5]));
  }

  /**
   * The padded form reads the value with the digits past the sixth dropped: all of a 24-bit
   * value, and the top 24 bits of a longer one.
   */
  lemma PaddedHexReads(x: nat)
    ensures ParseHex(PaddedHex(x)) == Ok(Bytes24(Shift(x, |PaddedHex(x)| - 6)))
  {
    PaddedHexValue(x);
    ReadsShifted(PaddedHex(x), x);
  }

  /** A run of six or more digits of value `x` reads as the bytes of `x` cut to six digits. */
  lemma ReadsShifted(s: string, x: nat)
    requires |s| >= 6 && forall i :: 0 <= i < |s| ==> IsHexDigit(s[i])
    requires DigitsValue(s) == x
    ensures ParseHex(s) == Ok(Bytes24(Shift(x, |s| - 6)))
  {
    PrefixValue(s, 6);
    DigitsChannels(s);
  }

  lemma ShiftByDigits(x: nat)
    ensures Shift(x, 0) == x && Shift(x, 1) == x / 0x10 && Shift(x, 2) == x / 0x100
  {
    assert Shift(x, 2) == Shift(x / 0x10, 1) == Shift(x / 0x10 / 0x10, 0);
  }

  /** The value with its last `k` hex digits dropped. */
  function Shift(x: nat, k: nat): nat
  {
    if k == 0 then x else Shift(x / 16, k - 1)
  }

  /** Six digits exactly for a 24-bit value, seven or eight for the rest of `uint32_t`. */
  lemma PaddedHexLength(x: nat)
    ensures x < 0x100_0000 <==> |PaddedHex(x)| == 6
    ensures 0x100_0000 <= x < 0x1000_0000 ==> |PaddedHex(x)| == 7
    ensures 0x1000_0000 <= x < 0x1_0000_0000 ==> |PaddedHex(x)| == 8
  {
    Pow16Values();
    LowerHexLength(x, 6);
    LowerHexLength(x, 7);
    LowerHexLength(x, 8);
  }

  /**
   * `hex(uint32_t)` with the value zero-padded to six digits: a 24-bit value gives its red,
   * green and blue bytes; a longer one its top 24 bits, the string path reading only six digits.
   */
  method HexU32(col: u32) returns (r: Result<Rgb, HexError>)
    ensures col < 0x100_0000 ==> r == Ok(Bytes24(col))
    ensures 0x100_0000 <= col < 0x1000_0000 ==> r == Ok(Bytes24(col / 0x10))
    ensures 0x1000_0000 <= col ==> r == Ok(Bytes24(col / 0x100))
  {
    var hex := PaddedHex(col);
    r := RefHex(hex);
    PaddedHexU32(col);
  }

  /** What the padded form of a `uint32_t` reads as, by its number of digits. */
  lemma PaddedHexU32(x: nat)
    requires x < 0x1_0000_0000
    ensures x < 0x100_0000 ==> ParseHex(PaddedHex(x)) == Ok(Bytes24(x))
    ensures 0x100_0000 <= x < 0x1000_0000 ==> ParseHex(PaddedHex(x)) == Ok(Bytes24(x / 0x10))
    ensures 0x1000_0000 <= x ==> ParseHex(PaddedHex(x)) == Ok(Bytes24(x / 0x100))
  {
    PaddedHexValue(x);
    PaddedHexLength(x);
    ReadsByLength(PaddedHex(x), x);
  }

  /** Six, seven or eight digits of value `x` read as the bytes of `x`, `x / 16` or `x / 256`. */
  lemma ReadsByLength(s: string, x: nat)
    requires |s| >= 6 && forall i :: 0 <= i < |s| ==> IsHexDigit(s[i])
    requires DigitsValue(s) == x
    ensures |s| == 6 ==> ParseHex(s) == Ok(Bytes24(x))
    ensures |s| == 7 ==> ParseHex(s) == Ok(Bytes24(x / 0x10))
    ensures |s| == 8 ==> ParseHex(s) == Ok(Bytes24(x / 0x100))
  {
    ReadsShifted(s, x);
    ShiftByDigits(x);
  }

  /** The padded form of a 24-bit value reads back its red, green and blue bytes. */
  lemma PaddedHexChannels(x: nat)
    requires x < 0x100_0000
    ensures ParseHex(PaddedHex(x)) == Ok(Rgb(x / 0x1_0000, x / 0x100 % 0x100, x % 0x100))
  {
    PaddedHexReads(x);
    PaddedHexLength(x);
    Pow16Values();
  }

  /** A seven- or eight-digit value reads as if its digits past the sixth were not there. */
  lemma LongValuesLoseLowDigits(x: nat)
    requires 0x100_0000 <= x < 0x1_0000_0000
    ensures x < 0x1000_0000 ==> ParseHex(PaddedHex(x)) == ParseHex(PaddedHex(x / 0x10))
    ensures 0x1000_0000 <= x ==> ParseHex(PaddedHex(x)) == ParseHex(PaddedHex(x / 0x100))
  {
    PaddedHexU32(x);
    PaddedHexU32(x / 0x10);
    PaddedHexU32(x / 0x100);
  }

  /** `0x1ff00ff` is padded to nothing more than its own seven digits and read as `1ff00f`. */
  lemma SevenDigitsDropLast(x: nat)
    requires x == 0x1ff00ff
    ensures ParseHex(PaddedHex(x)) == Ok(Rgb(31, 240, 15))
  {
    PaddedHexU32(x);
    KnownBytes(ParseHex(PaddedHex(x)), x / 0x10, 31, 240, 15);
  }

  /** A read of `Bytes24(x)` whose bytes are known. */
  lemma KnownBytes(v: Result<Rgb, HexError>, x: nat, r: nat, g: nat, b: nat)
    requires v == Ok(Bytes24(x)) && x == 0x1_0000 * r + 0x100 * g + b && g < 256 && b < 256
    ensures v == Ok(Rgb(r, g, b))
  {
    SplitBytes(x, r, g, b);
  }

  /**
   * The unpadded form loses the leading zeros the string path needs: green, `0x00ff00`, is
   * formatted as `ff00` and reads as red.
   */
  lemma GreenReadsAsRed(green: nat)
    requires green == 0x00ff00
    ensures LowerHex(green) == "ff00"
    ensures ParseHex(LowerHex(green)) == Ok(Rgb(255, 0, 0))
    ensures ParseHex(PaddedHex(green)) == Ok(Rgb(0, 255, 0))
  {
    LowerHexOf(green, 0xff0, "ff0", 0);
    FourDigitsLeaveBlueZero('f', 'f', '0', '0');
    PaddedHexU32(green);
    KnownBytes(ParseHex(PaddedHex(green)), green, 0, 255, 0);
  }

  /** `0x000fff` is formatted as `fff` and read as the shorthand for white. */
  lemma ShortValueReadsAsShorthand(blue: nat)
    requires blue == 0x000fff
    ensures LowerHex(blue) == "fff"
    ensures ParseHex(LowerHex(blue)) == ParseHex("ffffff")
    ensures ParseHex(PaddedHex(blue)) == Ok(Rgb(0, 15, 255))
  {
    LowerHexOf(blue, 0xff, "ff", 15);
    PaddedHexU32(blue);
    KnownBytes(ParseHex(PaddedHex(blue)), blue, 0, 15, 255);
  }

  /** Four hex digits give red and green from the two pairs, and blue 0 from the empty rest. */
  lemma FourDigitsLeaveBlueZero(a: char, b: char, c: char, d: char)
    requires IsHexDigit(a) && IsHexDigit(b) && IsHexDigit(c) && IsHexDigit(d) && a != '#'
    ensures ParseHex([a, b, c, d]) == Ok(Rgb(16 * HexValue(a) + HexValue(b), 16 * HexValue(c) + HexValue(d), 0))
  {
    var t := [a, b, c, d];
    assert Expand(StripHash(t)) == t;
    assert t[0..2] == [a, b] && t[2..4] == [c, d] && t[4..] == [];
    assert Substr(t, 0, 2) == Ok([a, b]) && Substr(t, 2, 2) == Ok([c, d]) && Substr(t, 4, 2) == Ok([]);
    TwoDigitsChannel(a, b);
    TwoDigitsChannel(c, d);
    assert StrToL16([]) == 0;
  }

  /** The bytes of a 24-bit value are unique. */
  lemma SplitBytes(x: nat, r: nat, g: nat, b: nat)
    requires x == 0x1_0000 * r + 0x100 * g + b && g < 256 && b < 256
    ensures x / 0x1_0000 == r && x / 0x100 % 0x100 == g && x % 0x100 == b
  {
    Bits.ModUnique(x, 0x1_0000, r, 0x100 * g + b);
    Bits.ModUnique(x, 0x100, 0x100 * r + g, b);
    Bits.ModUnique(0x100 * r + g, 0x100, r, g);
  }

  /** The digits of `16 * q + d` are those of `q` followed by the digit `d`. */
  lemma LowerHexOf(x: nat, q: nat, digits: string, d: nat)
    requires d < 16 && x == 16 * q + d && q >= 1 && LowerHex(q) == digits
    ensures LowerHex(x) == digits + [LowerDigit(d)]
  {
    assert x / 16 == q && x % 16 == d;
  }
}
