/**
 * Text helpers of the code generator: escaping a string constant's bytes
 * for an LLVM `c"..."` constant, the UTF-8 bytes Rust's `str::bytes`
 * yields, and joining rendered items with a separator.
 */
module CodegenUtils {
  import opened Wrappers

  newtype byte = x: int | 0 <= x < 256

  // ---------------------------------------------------------------------
  // UTF-8

  /** The UTF-8 encoding of one Unicode scalar value. */
  function Utf8Char(c: char): (r: seq<byte>)
    ensures 1 <= |r| <= 4
    ensures (|r| == 1) <==> (c as int < 0x80)
  {
    var n := c as int;
    if n < 0x80 then [n as byte]
    else if n < 0x800 then [(0xC0 + n / 64) as byte, (0x80 + n % 64) as byte]
    else if n < 0x10000 then
      [(0xE0 + n / 4096) as byte, (0x80 + n / 64 % 64) as byte, (0x80 + n % 64) as byte]
    else
      [(0xF0 + n / 262144) as byte, (0x80 + n / 4096 % 64) as byte,
       (0x80 + n / 64 % 64) as byte, (0x80 + n % 64) as byte]
  }

  /** `String::bytes`. */
  function Utf8(s: string): seq<byte>
    decreases |s|
  {
    if |s| == 0 then [] else Utf8Char(s[0]) + Utf8(s[1..])
  }

  /** For ASCII text, one byte per character, equal to its code. */
  lemma {:induction false} AsciiBytes(s: string)
    requires forall i :: 0 <= i < |s| ==> s[i] as int < 0x80
    ensures |Utf8(s)| == |s|
    ensures forall i :: 0 <= i < |s| ==> Utf8(s)[i] as int == s[i] as int
    decreases |s|
  {
    if |s| > 0 {
      AsciiBytes(s[1..]);
      assert Utf8(s) == [s[0] as int as byte] + Utf8(s[1..]);
    }
  }

  // ---------------------------------------------------------------------
  // Hexadecimal escapes

  function HexDigit(d: nat): (c: char)
    requires d < 16
  {
    "0123456789ABCDEF"[d]
  }

  /** The value of a hex digit, either case, as LLVM's `hexDigitValue` reads it. */
  function HexValue(c: char): Option<nat>
  {
    if '0' <= c <= '9' then Some(c as int - '0' as int)
    else if 'A' <= c <= 'F' then Some(c as int - 'A' as int + 10)
    else if 'a' <= c <= 'f' then Some(c as int - 'a' as int + 10)
    else None
  }

  lemma HexDigitValue(d: nat)
    requires d < 16
    ensures HexValue(HexDigit(d)) == Some(d)
  {
  }

  /** `char_to_hex`: a backslash and the byte in uppercase hex, without padding. */
  function CharToHex(b: byte): (r: string)
    ensures |r| == (if b < 16 then 2 else 3) && r[0] == '\\'
  {
    if b < 16 then ['\\', HexDigit(b as nat)]
    else ['\\', HexDigit(b as nat / 16), HexDigit(b as nat % 16)]
  }

  /** `string_to_hex`: the chunks of the bytes, in order. */
  function StringToHex(bs: seq<byte>): string
    decreases |bs|
  {
    if |bs| == 0 then "" else CharToHex(bs[0]) + StringToHex(bs[1..])
  }

  /** The escape with the two digits LLVM expects. */
  function CharToHexPadded(b: byte): (r: string)
    ensures |r| == 3
  {
    ['\\', HexDigit(b as nat / 16), HexDigit(b as nat % 16)]
  }

  function StringToHexPadded(bs: seq<byte>): string
    decreases |bs|
  {
    if |bs| == 0 then "" else CharToHexPadded(bs[0]) + StringToHexPadded(bs[1..])
  }

  /** The value of a hex digit's byte, either case, as LLVM's `hexDigitValue` reads it. */
  function HexByteValue(b: byte): Option<nat>
  {
    if 48 <= b <= 57 then Some(b as nat - 48)
    else if 65 <= b <= 70 then Some(b as nat - 55)
    else if 97 <= b <= 102 then Some(b as nat - 87)
    else None
  }

  /**
   * How LLVM's lexer reads the bytes of a `c"..."` constant's body (its
   * `UnEscapeLexedString`): `\\` is one backslash, a backslash followed by
   * two hex digits is the byte they spell, and any other byte, a lone
   * backslash included, stands for itself.
   */
  function LlvmUnescape(bs: seq<byte>): seq<byte>
    decreases |bs|
  {
    if |bs| == 0 then []
    else if bs[0] == 92 && |bs| >= 2 && bs[1] == 92 then
      [92 as byte] + LlvmUnescape(bs[2..])
    else if bs[0] == 92 && |bs| >= 3 && HexByteValue(bs[1]).Some? && HexByteValue(bs[2]).Some? then
      [(HexByteValue(bs[1]).value * 16 + HexByteValue(bs[2]).value) as byte] + LlvmUnescape(bs[3..])
    else [bs[0]] + LlvmUnescape(bs[1..])
  }

  /** The bytes of a concatenation are the bytes of its parts. */
  lemma {:induction false} Utf8Append(a: string, b: string)
    ensures Utf8(a + b) == Utf8(a) + Utf8(b)
    decreases |a|
  {
    if |a| == 0 {
      assert a + b == b;
    } else {
      assert (a + b)[0] == a[0] && (a + b)[1..] == a[1..] + b;
      Utf8Append(a[1..], b);
    }
  }

  /** The escaping distributes over concatenation; the empty input gives the empty text. */
  lemma {:induction false} StringToHexAppend(a: seq<byte>, b: seq<byte>)
    ensures StringToHex([]) == ""
    ensures StringToHex(a + b) == StringToHex(a) + StringToHex(b)
    decreases |a|
  {
    if |a| > 0 {
      assert (a + b)[0] == a[0] && (a + b)[1..] == a[1..] + b;
      StringToHexAppend(a[1..], b);
    } else {
      assert a + b == b;
    }
  }

  /** The number of bytes that take two hex digits. */
  function Wide(bs: seq<byte>): nat
    decreases |bs|
  {
    if |bs| == 0 then 0 else (if bs[0] >= 16 then 1 else 0) + Wide(bs[1..])
  }

  /** One backslash per byte plus the digits: between two and three characters per byte. */
  lemma {:induction false} StringToHexLength(bs: seq<byte>)
    ensures |StringToHex(bs)| == 2 * |bs| + Wide(bs)
    ensures 2 * |bs| <= |StringToHex(bs)| <= 3 * |bs|
    decreases |bs|
  {
    if |bs| > 0 {
      StringToHexLength(bs[1..]);
    }
  }

  /** Each chunk spells its byte: the digits after the backslash are its hex value. */
  lemma CharToHexDigits(b: byte)
    ensures var r := CharToHex(b);
            if b < 16 then HexValue(r[1]) == Some(b as nat)
            else HexValue(r[1]) == Some(b as nat / 16) && HexValue(r[2]) == Some(b as nat % 16)
  {
    if b < 16 {
      HexDigitValue(b as nat);
    } else {
      HexDigitValue(b as nat / 16);
      HexDigitValue(b as nat % 16);
    }
  }

  /**
   * As written, a newline (byte 10) becomes `\A`, which LLVM reads as the
   * two bytes `\` and `A` rather than the one byte 10.
   */
  lemma NewlineEscapeMisread()
    ensures StringToHex([10 as byte]) == "\\A"
    ensures LlvmUnescape(Utf8(StringToHex([10 as byte]))) == [92 as byte, 65 as byte]
  {
    assert StringToHex([10 as byte]) == CharToHex(10 as byte) + StringToHex([]);
    var bs := Utf8("\\A");
    AsciiBytes("\\A");
    assert bs == [92 as byte, 65 as byte];
    assert LlvmUnescape(bs) == [92 as byte] + LlvmUnescape(bs[1..]);
    assert bs[1..] == [65 as byte];
  }

  /** The byte of an uppercase hex digit. */
  function HexDigitByte(d: nat): (r: byte)
    requires d < 16
    ensures HexByteValue(r) == Some(d) && r != 92
  {
    if d < 10 then (48 + d) as byte else (55 + d) as byte
  }

  /** The bytes of the padded escapes: a backslash and two digits per byte. */
  function PaddedBytes(bs: seq<byte>): (r: seq<byte>)
    ensures |r| == 3 * |bs|
    decreases |bs|
  {
    if |bs| == 0 then []
    else [92 as byte, HexDigitByte(bs[0] as nat / 16), HexDigitByte(bs[0] as nat % 16)] + PaddedBytes(bs[1..])
  }

  /** The padded escape text is ASCII, so its UTF-8 bytes are `PaddedBytes`. */
  lemma {:induction false} PaddedText(bs: seq<byte>)
    ensures Utf8(StringToHexPadded(bs)) == PaddedBytes(bs)
    decreases |bs|
  {
    if |bs| > 0 {
      var b := bs[0];
      HexDigitValue(b as nat / 16);
      HexDigitValue(b as nat % 16);
      AsciiBytes(CharToHexPadded(b));
      assert Utf8(CharToHexPadded(b)) == [92 as byte, HexDigitByte(b as nat / 16), HexDigitByte(b as nat % 16)];
      Utf8Append(CharToHexPadded(b), StringToHexPadded(bs[1..]));
      PaddedText(bs[1..]);
    }
  }

  /** The bytes after a padded chunk are read on from where the chunk ends. */
  lemma PaddedChunk(b: byte, t: seq<byte>)
    ensures LlvmUnescape([92 as byte, HexDigitByte(b as nat / 16), HexDigitByte(b as nat % 16)] + t) == [b] + LlvmUnescape(t)
  {
    var s := [92 as byte, HexDigitByte(b as nat / 16), HexDigitByte(b as nat % 16)] + t;
    assert s[0] == 92 && s[1] != 92 && s[3..] == t;
  }

  /** With padding, LLVM reads the escaped bytes back and then goes on with what follows. */
  lemma {:induction false} PaddedUnescape(bs: seq<byte>, t: seq<byte>)
    ensures LlvmUnescape(PaddedBytes(bs) + t) == bs + LlvmUnescape(t)
    decreases |bs|
  {
    if |bs| == 0 {
      assert PaddedBytes(bs) + t == t;
    } else {
      PaddedUnescape(bs[1..], t);
      PaddedUnescapeStep(bs, t);
    }
  }

  /** One chunk more in front: the step of `PaddedUnescape`. */
  lemma PaddedUnescapeStep(bs: seq<byte>, t: seq<byte>)
    requires |bs| > 0
    requires LlvmUnescape(PaddedBytes(bs[1..]) + t) == bs[1..] + LlvmUnescape(t)
    ensures LlvmUnescape(PaddedBytes(bs) + t) == bs + LlvmUnescape(t)
  {
    var head := [92 as byte, HexDigitByte(bs[0] as nat / 16), HexDigitByte(bs[0] as nat % 16)];
    var tail := PaddedBytes(bs[1..]);
    assert PaddedBytes(bs) + t == head + (tail + t);
    PaddedChunk(bs[0], tail + t);
    PrependBytes(bs, LlvmUnescape(t));
  }

  /** The first byte in front of the rest of `bs` and what follows is `bs` and what follows. */
  lemma PrependBytes(bs: seq<byte>, rest: seq<byte>)
    requires |bs| > 0
    ensures [bs[0]] + (bs[1..] + rest) == bs + rest
  {
    assert bs == [bs[0]] + bs[1..];
  }

  /** The padded escapes of some bytes followed by the escape of a zero byte read back as those bytes and a zero. */
  lemma PaddedThenNul(bs: seq<byte>)
    ensures Utf8(StringToHexPadded([0 as byte])) == Utf8("\\00")
    ensures LlvmUnescape(PaddedBytes(bs) + PaddedBytes([0 as byte])) == bs + [0 as byte]
  {
    assert StringToHexPadded([0 as byte]) == CharToHexPadded(0 as byte) + StringToHexPadded([]);
    assert CharToHexPadded(0 as byte) == "\\00";
    var nul := PaddedBytes([0 as byte]);
    assert nul == [92 as byte, HexDigitByte(0), HexDigitByte(0)] + [];
    PaddedUnescape(bs, nul);
    PaddedChunk(0 as byte, []);
    assert [92 as byte, HexDigitByte(0), HexDigitByte(0)] + [] == nul;
    assert LlvmUnescape(nul) == [0 as byte];
  }

  /** With padding, LLVM reads back exactly the bytes: the constant holds the string. */
  lemma PaddedRoundTrip(bs: seq<byte>)
    ensures |StringToHexPadded(bs)| == 3 * |bs|
    ensures LlvmUnescape(Utf8(StringToHexPadded(bs))) == bs
  {
    PaddedText(bs);
    PaddedUnescape(bs, []);
    assert PaddedBytes(bs) + [] == PaddedBytes(bs);
    assert LlvmUnescape([]) == [] && bs + [] == bs;
    PaddedLength(bs);
  }

  lemma {:induction false} PaddedLength(bs: seq<byte>)
    ensures |StringToHexPadded(bs)| == 3 * |bs|
    decreases |bs|
  {
    if |bs| > 0 {
      PaddedLength(bs[1..]);
    }
  }

  // ---------------------------------------------------------------------
  // Joining

  /**
   * `join`, which the code generator imports from its `utils` module but
   * whose definition is not part of this model: assumed, from its call
   * sites, to put `sep` between consecutive items and nothing else; the
   * callers map their items to text first.
   */
  function Join(items: seq<string>, sep: string): string
    decreases |items|
  {
    if |items| == 0 then ""
    else if |items| == 1 then items[0]
    else items[0] + sep + Join(items[1..], sep)
  }

  /** Appending an item appends a separator and the item's text. */
  lemma {:induction false} JoinSnoc(items: seq<string>, x: string, sep: string)
    ensures Join(items + [x], sep) == if |items| == 0 then x else Join(items, sep) + sep + x
    decreases |items|
  {
    if |items| == 0 {
      assert items + [x] == [x];
    } else if |items| == 1 {
      assert items + [x] == [items[0], x];
      assert [items[0], x][1..] == [x];
    } else {
      assert (items + [x])[0] == items[0] && (items + [x])[1..] == items[1..] + [x];
      JoinSnoc(items[1..], x, sep);
    }
  }

  /** The joined text's length: every item and one separator between each pair. */
  function TotalLength(items: seq<string>): nat
    decreases |items|
  {
    if |items| == 0 then 0 else |items[0]| + TotalLength(items[1..])
  }

  lemma {:induction false} JoinLength(items: seq<string>, sep: string)
    requires |items| > 0
    ensures |Join(items, sep)| == TotalLength(items) + (|items| - 1) * |sep|
    decreases |items|
  {
    if |items| > 1 {
      JoinLength(items[1..], sep);
    }
  }
}
