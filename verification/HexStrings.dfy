/** Ethereum hex strings: the `impl_hex_string!` types of evm_rpc_types. */
module HexStrings {
  import opened Prelude
  import opened Numerals

  type Byte = b: nat | b < 256

  /** What a hex type wraps: `[u8; n]`, `Vec<u8>`, or the one-byte `Byte`. */
  datatype Shape = Fixed(n: nat) | AnyLength | OneByte

  const HEX_BYTE := OneByte
  const HEX20 := Fixed(20)
  const HEX32 := Fixed(32)
  const HEX256 := Fixed(256)
  const HEX := AnyLength

  datatype HexError = NoPrefix | OddLength | InvalidStringLength | InvalidHexCharacter

  /** How many bytes a value of the shape holds. */
  predicate HasShape(shape: Shape, data: seq<Byte>) {
    match shape
    case Fixed(n) => |data| == n
    case AnyLength => true
    case OneByte => |data| == 1
  }

  predicate IsHexDigit(c: char) {
    '0' <= c <= '9' || 'a' <= c <= 'f' || 'A' <= c <= 'F'
  }

  ghost predicate AllHex(s: string) {
    forall i :: 0 <= i < |s| ==> IsHexDigit(s[i])
  }

  function Nibble(c: char): (v: nat)
    requires IsHexDigit(c)
    ensures v < 16
  {
    if c <= '9' then (c - '0') as nat
    else if c <= 'F' then (c - 'A') as nat + 10
    else (c - 'a') as nat + 10
  }

  function HexChar(v: nat): char
    requires v < 16
  {
    if v < 10 then '0' + v as char else 'a' + (v - 10) as char
  }

  function Lower(c: char): char {
    if 'A' <= c <= 'Z' then c - 'A' + 'a' else c
  }

  function LowerAll(s: string): string {
    seq(|s|, i requires 0 <= i < |s| => Lower(s[i]))
  }

  /** `hex::encode`: two lower-case digits a byte. */
  function Encode(data: seq<Byte>): string {
    if data == [] then "" else [HexChar(data[0] / 16), HexChar(data[0] % 16)] + Encode(data[1..])
  }

  function DecodePairs(s: string): (r: Result<seq<Byte>, HexError>)
    requires |s| % 2 == 0
    ensures r.Ok? ==> |r.value| * 2 == |s|
  {
    if s == "" then Ok([])
    else if !IsHexDigit(s[0]) || !IsHexDigit(s[1]) then Err(InvalidHexCharacter)
    else
      match DecodePairs(s[2..])
      case Ok(rest) => Ok([Nibble(s[0]) * 16 + Nibble(s[1])] + rest)
      case Err(e) => Err(e)
  }

  /** `FromHex` for `Vec<u8>` and for arrays, which also check the length. */
  function DecodeExactly(s: string, n: Option<nat>): Result<seq<Byte>, HexError> {
    if |s| % 2 != 0 then Err(OddLength)
    else if n.Some? && |s| / 2 != n.value then Err(InvalidStringLength)
    else DecodePairs(s)
  }

  /** `FromHex` of each wrapped type; `Byte` pads a single digit with a zero. */
  function FromHex(shape: Shape, s: string): Result<seq<Byte>, HexError> {
    match shape
    case Fixed(n) => DecodeExactly(s, Some(n))
    case AnyLength => DecodeExactly(s, None)
    case OneByte => DecodeExactly(if |s| == 1 then "0" + s else s, Some(1))
  }

  function Display(data: seq<Byte>): string {
    "0x" + Encode(data)
  }

  function FromStr(shape: Shape, s: string): Result<seq<Byte>, HexError> {
    if |s| < 2 || s[..2] != "0x" then Err(NoPrefix) else FromHex(shape, s[2..])
  }

  lemma NibbleOfChar(v: nat)
    requires v < 16
    ensures IsHexDigit(HexChar(v)) && Nibble(HexChar(v)) == v
  {
  }

  lemma CharsOfByte(hi: char, lo: char)
    requires IsHexDigit(hi) && IsHexDigit(lo)
    ensures var b := Nibble(hi) * 16 + Nibble(lo);
            HexChar(b / 16) == Lower(hi) && HexChar(b % 16) == Lower(lo)
  {
    var b := Nibble(hi) * 16 + Nibble(lo);
    assert b / 16 == Nibble(hi) && b % 16 == Nibble(lo);
  }

  lemma {:induction false} DecodeOfEncode(data: seq<Byte>)
    ensures |Encode(data)| == 2 * |data|
    ensures DecodePairs(Encode(data)) == Ok(data)
  {
    if data != [] {
      DecodeOfEncode(data[1..]);
      NibbleOfChar(data[0] / 16);
      NibbleOfChar(data[0] % 16);
      assert Encode(data)[2..] == Encode(data[1..]);
      assert data == [data[0]] + data[1..];
    }
  }

  lemma {:induction false} EncodeOfDecode(s: string)
    requires |s| % 2 == 0
    ensures DecodePairs(s).Ok? <==> AllHex(s)
    ensures DecodePairs(s).Ok? ==> Encode(DecodePairs(s).value) == LowerAll(s)
  {
    if s != "" {
      EncodeOfDecode(s[2..]);
      assert s == [s[0], s[1]] + s[2..];
      if DecodePairs(s).Ok? {
        var data := DecodePairs(s).value;
        assert data[1..] == DecodePairs(s[2..]).value;
        CharsOfByte(s[0], s[1]);
        assert LowerAll(s) == [Lower(s[0]), Lower(s[1])] + LowerAll(s[2..]);
      }
    }
  }

  /** The digits are those of base 16 in section 8 of RFC 4648, in lower case when printed. */
  lemma DigitTable(v: nat)
    requires v < 16
    ensures HexChar(v) == "0123456789abcdef"[v]
    ensures Nibble("0123456789abcdef"[v]) == v && Nibble("0123456789ABCDEF"[v]) == v
    ensures Lower("0123456789ABCDEF"[v]) == "0123456789abcdef"[v]
  {
  }

  /** Why a text is refused: what comes first of prefix, even length, right length and digits. */
  lemma RefusedBecause(shape: Shape, s: string)
    ensures var prefixed := |s| >= 2 && s[..2] == "0x";
            var h := if prefixed then s[2..] else "";
            var n := if shape == OneByte && |h| == 1 then 2 else |h|;
            && (FromStr(shape, s) == Err(NoPrefix) <==> !prefixed)
            && (FromStr(shape, s) == Err(OddLength) <==> prefixed && n % 2 == 1)
            && (FromStr(shape, s) == Err(InvalidStringLength) <==>
                  && prefixed && n % 2 == 0
                  && match shape
                     case Fixed(k) => n != 2 * k
                     case AnyLength => false
                     case OneByte => n != 2)
  {
    if |s| >= 2 && s[..2] == "0x" {
      var h := s[2..];
      var t := if shape == OneByte && |h| == 1 then "0" + h else h;
      if |t| % 2 == 0 {
        PairsFailOnDigits(t);
      }
    }
  }

  lemma {:induction false} PairsFailOnDigits(s: string)
    requires |s| % 2 == 0
    ensures DecodePairs(s).Err? ==> DecodePairs(s).error == InvalidHexCharacter
  {
    if s != "" {
      PairsFailOnDigits(s[2..]);
    }
  }

  /** Parsing a printed value gives it back, for every shape. */
  lemma ParseOfPrint(shape: Shape, data: seq<Byte>)
    requires HasShape(shape, data)
    ensures FromStr(shape, Display(data)) == Ok(data)
  {
    DecodeOfEncode(data);
    assert Display(data)[2..] == Encode(data);
  }

  /** The texts a shape accepts at full length. */
  ghost predicate FullLength(shape: Shape, s: string) {
    |s| >= 2 && s[..2] == "0x" && AllHex(s[2..]) && FitsShape(shape, s[2..])
  }

  /** The number of hex digits of a shape at full length. */
  predicate FitsShape(shape: Shape, h: string) {
    match shape
    case Fixed(n) => |h| == 2 * n
    case AnyLength => |h| % 2 == 0
    case OneByte => |h| == 2
  }

  /** The one short form: a single digit for a byte. */
  ghost predicate OneDigit(shape: Shape, s: string) {
    shape == OneByte && |s| == 3 && s[..2] == "0x" && AllHex(s[2..])
  }

  /** Accepted texts, exactly; and printing a full-length one back only lowers its case. */
  lemma PrintOfParse(shape: Shape, s: string)
    ensures FromStr(shape, s).Ok? <==> FullLength(shape, s) || OneDigit(shape, s)
    ensures FromStr(shape, s).Ok? ==> HasShape(shape, FromStr(shape, s).value)
    ensures FullLength(shape, s) ==> Display(FromStr(shape, s).value) == LowerAll(s)
  {
    if |s| >= 2 && s[..2] == "0x" {
      var h := s[2..];
      DecodedShape(shape, h);
      assert s == "0x" + h;
      assert LowerAll(s) == "0x" + LowerAll(h);
    }
  }

  lemma DecodedShape(shape: Shape, h: string)
    ensures FromHex(shape, h).Ok? <==> AllHex(h) && (FitsShape(shape, h) || (shape == OneByte && |h| == 1))
    ensures FromHex(shape, h).Ok? ==> HasShape(shape, FromHex(shape, h).value)
    ensures AllHex(h) && FitsShape(shape, h) ==> Encode(FromHex(shape, h).value) == LowerAll(h)
  {
    if |h| % 2 == 0 {
      EncodeOfDecode(h);
    }
    if |h| == 1 {
      EncodeOfDecode("0" + h);
      assert AllHex("0" + h) <==> AllHex(h);
    }
  }

  /** A single digit means its zero-padded form. */
  lemma OneDigitMeans(c: char)
    requires IsHexDigit(c)
    ensures FromStr(OneByte, "0x" + [c]) == FromStr(OneByte, "0x0" + [c]) == Ok([Nibble(c)])
  {
    var h := "0" + [c];
    assert h[2..] == "";
    assert DecodePairs("") == Ok([]);
    assert [Nibble(c)] + [] == [Nibble(c)];
    assert DecodePairs(h) == Ok([Nibble(c)]);
    var short, long := "0x" + [c], "0x0" + [c];
    assert short[..2] == long[..2] == "0x" && short[2..] == [c] && long[2..] == h;
  }

  /** The digits of an encoding, as base-16 digits. */
  function NibblesOf(s: string): seq<nat>
    requires AllHex(s)
  {
    seq(|s|, i requires 0 <= i < |s| => Nibble(s[i]))
  }

  /** The printed digits, read in base 16, are the bytes read in base 256. */
  lemma {:induction false} EncodeKeepsValue(data: seq<Byte>)
    ensures AllHex(Encode(data))
    ensures Value(NibblesOf(Encode(data)), 16) == Value(data, 256)
  {
    if data != [] {
      var init, last := data[..|data| - 1], data[|data| - 1];
      EncodeKeepsValue(init);
      EncodeOfLast(init, last);
      assert data == init + [last];
      var hi, lo := last / 16, last % 16;
      NibbleOfChar(hi);
      NibbleOfChar(lo);
      var ns := NibblesOf(Encode(init));
      assert NibblesOf(Encode(data)) == ns + [hi, lo];
      assert (ns + [hi, lo])[..|ns| + 1] == ns + [hi];
      assert (ns + [hi])[..|ns|] == ns;
    }
  }

  lemma {:induction false} EncodeOfLast(init: seq<Byte>, last: Byte)
    ensures Encode(init + [last]) == Encode(init) + [HexChar(last / 16), HexChar(last % 16)]
  {
    var data := init + [last];
    if init == [] {
      assert data[1..] == [];
    } else {
      EncodeOfLast(init[1..], last);
      assert data[1..] == init[1..] + [last];
    }
  }
}
