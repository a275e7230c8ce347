/**
  `is_binlog_file`: a raw MySQL binary log begins with the magic bytes
  fe 62 69 6e; the tool reads at most four bytes, renders them with
  `bytes.hex()` and compares with the text "fe62696e".
 */
module Guard {

  newtype Byte = x: int | 0 <= x < 256

  /** The magic number of a binary log. */
  const Magic: seq<Byte> := [0xfe, 0x62, 0x69, 0x6e]

  /** Lower-case hexadecimal digit, as `bytes.hex()` writes it. */
  function HexDigit(d: int): (c: char)
    requires 0 <= d < 16
    ensures ('0' <= c <= '9') || ('a' <= c <= 'f')
  {
    if d < 10 then ('0' as int + d) as char else ('a' as int + d - 10) as char
  }

  /** `bytes.hex()`: two digits per byte, high nibble first. */
  function Hex(bs: seq<Byte>): (r: string)
    ensures |r| == 2 * |bs|
  {
    if bs == [] then ""
    else [HexDigit((bs[0] / 16) as int), HexDigit((bs[0] % 16) as int)] + Hex(bs[1..])
  }

  /** Distinct bytes are rendered differently. */
  lemma HexDigitsDetermineByte(a: Byte, b: Byte)
    requires HexDigit((a / 16) as int) == HexDigit((b / 16) as int)
    requires HexDigit((a % 16) as int) == HexDigit((b % 16) as int)
    ensures a == b
  {
    assert a / 16 == b / 16 && a % 16 == b % 16;
  }

  /** The rendering can be read back: equal renderings come from equal bytes. */
  lemma {:induction false} HexInjective(a: seq<Byte>, b: seq<Byte>)
    requires Hex(a) == Hex(b)
    ensures a == b
    decreases |a|
  {
    if a != [] {
      assert Hex(a)[0] == Hex(b)[0] && Hex(a)[1] == Hex(b)[1];
      HexDigitsDetermineByte(a[0], b[0]);
      assert Hex(a)[2..] == Hex(a[1..]) && Hex(b)[2..] == Hex(b[1..]);
      HexInjective(a[1..], b[1..]);
      assert a == [a[0]] + a[1..] && b == [b[0]] + b[1..];
    }
  }

  /** `is_binlog_file` on the file's contents `data`: `f.read(4)` yields the
      first four bytes, or all of them when the file is shorter. */
  function IsBinlogFile(data: seq<Byte>): bool {
    Hex(data[..if |data| < 4 then |data| else 4]) == "fe62696e"
  }

  /** The guard fires exactly when the file begins with the magic bytes. */
  lemma IsBinlogFileIff(data: seq<Byte>)
    ensures IsBinlogFile(data) <==> |data| >= 4 && data[..4] == Magic
  {
    assert Hex(Magic) == "fe62696e";
    if IsBinlogFile(data) {
      var head := data[..if |data| < 4 then |data| else 4];
      assert |Hex(head)| == 8;
      HexInjective(head, Magic);
    }
  }
}
