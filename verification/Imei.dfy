/**
 The device identity message: two length bytes and the IMEI. Both directions go through hexadecimal text
 (section 8 of RFC 4648), which is proved to change nothing. A Go string is its bytes.
 */
module Imei {
  import opened Wrappers
  import opened Bytes

  datatype ImeiError = TooShort | LengthNotHex | NotHex | InvalidLength | NotFifteen

  datatype ImeiResult = Ok(imei: seq<uint8>) | Err(error: ImeiError)

  // ---------------------------------------------------------------- hexadecimal text

  function HexDigit(n: nat): char
    requires n < 16
  {
    if n < 10 then '0' + n as char else 'a' + (n - 10) as char
  }

  /** The value of a hexadecimal digit of either case. */
  function HexValue(c: char): Option<nat> {
    if '0' <= c <= '9' then Some(c as int - '0' as int)
    else if 'a' <= c <= 'f' then Some(c as int - 'a' as int + 10)
    else if 'A' <= c <= 'F' then Some(c as int - 'A' as int + 10)
    else None
  }

  function HexEncode(data: seq<uint8>): string {
    if data == [] then [] else [HexDigit(data[0] / 16), HexDigit(data[0] % 16)] + HexEncode(data[1..])
  }

  function HexDecode(s: string): Option<seq<uint8>> {
    if s == [] then Some([])
    else if |s| == 1 then None
    else
      match (HexValue(s[0]), HexValue(s[1]), HexDecode(s[2..]))
      case (Some(hi), Some(lo), Some(rest)) =>
        if hi < 16 && lo < 16 then Some([hi * 16 + lo] + rest) else None
      case _ => None
  }

  /** The number written by hexadecimal digits, as `strconv.ParseInt(s, 16, 64)` reads unsigned text. */
  function ParseHex(s: string): Option<nat> {
    if s == [] then None
    else
      var n := |s| - 1;
      match (HexValue(s[n]), if n == 0 then Some(0) else ParseHex(s[..n]))
      case (Some(d), Some(front)) => Some(front * 16 + d)
      case _ => None
  }

  lemma DigitValue(n: nat)
    requires n < 16
    ensures HexValue(HexDigit(n)) == Some(n)
  {
  }

  /** Encoding to text and back is the identity on every byte string. */
  lemma {:induction false} HexIdentity(data: seq<uint8>)
    ensures HexDecode(HexEncode(data)) == Some(data)
  {
    hide HexDigit, HexValue;
    if data == [] {
    } else {
      HexIdentity(data[1..]);
      DigitValue(data[0] / 16);
      DigitValue(data[0] % 16);
      assert HexEncode(data)[2..] == HexEncode(data[1..]);
      assert [data[0]] + data[1..] == data;
    }
  }

  const DIGITS := "0123456789abcdef"

  /** The text of a byte string: two lower-case digits for each byte, the high one first. */
  lemma {:induction false} HexText(data: seq<uint8>, i: nat)
    requires i < |data|
    ensures |HexEncode(data)| == 2 * |data|
    ensures HexEncode(data)[2 * i] == DIGITS[data[i] / 16] && HexEncode(data)[2 * i + 1] == DIGITS[data[i] % 16]
    decreases |data|
  {
    hide HexDigit;
    if i == 0 {
      DigitIs(data[0] / 16);
      DigitIs(data[0] % 16);
      if |data| > 1 {
        HexText(data[1..], 0);
      }
    } else {
      HexText(data[1..], i - 1);
    }
  }

  lemma DigitIs(n: nat)
    requires n < 16
    ensures HexDigit(n) == DIGITS[n]
  {
  }

  lemma FourDigits(s: string, a: nat, b: nat, c: nat, d: nat)
    requires |s| == 4 && a < 16 && b < 16 && c < 16 && d < 16
    requires HexValue(s[0]) == Some(a) && HexValue(s[1]) == Some(b)
    requires HexValue(s[2]) == Some(c) && HexValue(s[3]) == Some(d)
    ensures ParseHex(s) == Some(((a * 16 + b) * 16 + c) * 16 + d)
  {
    hide HexValue;
    assert s[..3][..2] == s[..2] && s[..2][..1] == s[..1];
    assert ParseHex(s[..1]) == Some(a);
    assert ParseHex(s[..2]) == Some(a * 16 + b);
    assert ParseHex(s[..3]) == Some((a * 16 + b) * 16 + c);
  }

  lemma LengthText(data: seq<uint8>)
    requires |data| == 2
    ensures ParseHex(HexEncode(data)) == Some(Uint16(data) as nat)
  {
    hide HexDigit, HexValue, ParseHex;
    var a, b, c, d := data[0] / 16, data[0] % 16, data[1] / 16, data[1] % 16;
    DigitValue(a);
    DigitValue(b);
    DigitValue(c);
    DigitValue(d);
    assert HexEncode(data[1..]) == [HexDigit(c), HexDigit(d)] by { assert HexEncode(data[1..][1..]) == []; }
    assert HexEncode(data) == [HexDigit(a), HexDigit(b), HexDigit(c), HexDigit(d)];
    FourDigits(HexEncode(data), a, b, c, d);
  }

  // ---------------------------------------------------------------- the message

  function DecodeIMEI(data: seq<uint8>): ImeiResult {
    if |data| < 2 then Err(TooShort)
    else
      match ParseHex(HexEncode(data[..2]))
      case None => Err(LengthNotHex)
      case Some(length) =>
        match HexDecode(HexEncode(data[2..]))
        case None => Err(NotHex)
        case Some(imei) => if |imei| != length then Err(InvalidLength) else Ok(imei)
  }

  function EncodeIMEIToHex(imei: seq<uint8>): ImeiResult {
    if |imei| != 15 then Err(NotFifteen)
    else
      match HexDecode("000F" + HexEncode(imei))
      case None => Err(NotHex)
      case Some(data) => Ok(data)
  }

  /** The whole decoder: it accepts exactly what announces its own length, and fails in two ways only. */
  lemma DecodeIff(data: seq<uint8>)
    ensures DecodeIMEI(data)
         == if |data| < 2 then Err(TooShort)
            else if Uint16(data[..2]) != |data| - 2 then Err(InvalidLength)
            else Ok(data[2..])
  {
    hide HexEncode, HexDecode, ParseHex, Uint16;
    if |data| >= 2 {
      LengthText(data[..2]);
      HexIdentity(data[2..]);
    }
  }

  /** The encoder: 15 bytes get the length in front, anything else is refused. */
  lemma EncodeIff(imei: seq<uint8>)
    ensures EncodeIMEIToHex(imei) == if |imei| == 15 then Ok([0, 15] + imei) else Err(NotFifteen)
  {
    hide HexEncode;
    if |imei| == 15 {
      var text := "000F" + HexEncode(imei);
      HexIdentity(imei);
      assert text[2..] == "0F" + HexEncode(imei) && text[2..][2..] == HexEncode(imei);
      assert HexDecode(text[2..]) == Some([15] + imei);
      assert [0] + ([15] + imei) == [0, 15] + imei;
    }
  }

  /** What a device sends, the server reads. */
  lemma DecodeEncoded(imei: seq<uint8>)
    requires |imei| == 15
    ensures EncodeIMEIToHex(imei).Ok? && DecodeIMEI(EncodeIMEIToHex(imei).imei) == Ok(imei)
  {
    hide DecodeIMEI, EncodeIMEIToHex;
    EncodeIff(imei);
    DecodeIff([0, 15] + imei);
    assert ([0, 15] + imei)[2..] == imei;
    assert ([0, 15] + imei)[..2] == [0, 15];
  }

  /** An accepted message of 17 bytes is what the encoder prints for its IMEI. */
  lemma EncodeDecoded(data: seq<uint8>)
    requires |data| == 17 && DecodeIMEI(data).Ok?
    ensures EncodeIMEIToHex(DecodeIMEI(data).imei) == Ok(data)
  {
    hide DecodeIMEI, EncodeIMEIToHex;
    DecodeIff(data);
    EncodeIff(data[2..]);
    assert data == data[..2] + data[2..];
    assert data[..2] == [0, 15];
  }
}
