/**
  * Conversation identifiers: twelve-byte object ids, rendered as 24 lower-case
  * hex digits (`ObjectID.Hex`) and parsed back from client text
  * (`primitive.ObjectIDFromHex`, which wants exactly 24 hex digits of either case
  * and yields the nil id on failure).
  */
module ObjectIds {
  import opened Wrappers
  import opened Transport

  type ObjectId = s: seq<byte> | |s| == 12 witness [0, 0, 0, 0, 0, 0, 0, 0, 0, 0, 0, 0]

  type Nibble = x: int | 0 <= x < 16

  /** The all-zero id that a failed parse leaves behind. */
  const NilObjectId: ObjectId := [0, 0, 0, 0, 0, 0, 0, 0, 0, 0, 0, 0]

  const HexDigits: string := "0123456789abcdef"

  /** Two lower-case hex digits per byte, high nibble first. */
  function HexOf(bytes: seq<byte>): (s: string)
    ensures |s| == 2 * |bytes|
  {
    if bytes == [] then []
    else [HexDigits[bytes[0] / 16], HexDigits[bytes[0] % 16]] + HexOf(bytes[1..])
  }

  function Hex(id: ObjectId): (s: string)
    ensures |s| == 24
  {
    HexOf(id)
  }

  /** The value of one hex digit, upper or lower case. */
  function DigitValue(c: char): (r: Option<Nibble>)
    ensures r.Some? <==> ('0' <= c <= '9' || 'a' <= c <= 'f' || 'A' <= c <= 'F')
  {
    if '0' <= c <= '9' then Some((c - '0') as int)
    else if 'a' <= c <= 'f' then Some((c - 'a') as int + 10)
    else if 'A' <= c <= 'F' then Some((c - 'A') as int + 10)
    else None
  }

  /** Hex decoding: fails on an odd length or on any character that is not a hex digit. */
  function DecodeHex(s: string): (r: Option<seq<byte>>)
    ensures r.Some? ==> 2 * |r.value| == |s|
  {
    if s == [] then Some([])
    else if |s| == 1 then None
    else
      var hi, lo, rest := DigitValue(s[0]), DigitValue(s[1]), DecodeHex(s[2..]);
      if hi.None? || lo.None? || rest.None? then None
      else Some([(hi.value * 16 + lo.value) as byte] + rest.value)
  }

  /** Parse a conversation id sent by a client. */
  function FromHex(s: string): (r: Option<ObjectId>)
    ensures r.Some? ==> |s| == 24
  {
    if |s| != 24 then None
    else
      match DecodeHex(s)
      case Some(bytes) => Some(bytes)
      case None => None
  }

  lemma DigitRoundTrip(n: Nibble)
    ensures DigitValue(HexDigits[n]) == Some(n)
  {
    if n < 10 {
      assert HexDigits[n] == '0' + n as char;
    } else {
      assert HexDigits[n] == 'a' + (n - 10) as char;
    }
  }

  lemma NibblesOf(b: byte)
    ensures 0 <= b / 16 < 16 && 0 <= b % 16 < 16 && (b / 16) * 16 + b % 16 == b
  {
  }

  /** Decoding two hex digits followed by more text. */
  lemma DecodePair(c0: char, c1: char, rest: string, hi: Nibble, lo: Nibble)
    requires DigitValue(c0) == Some(hi) && DigitValue(c1) == Some(lo) && DecodeHex(rest).Some?
    ensures DecodeHex([c0, c1] + rest) == Some([(hi * 16 + lo) as byte] + DecodeHex(rest).value)
  {
    var s := [c0, c1] + rest;
    assert s[0] == c0 && s[1] == c1 && s[2..] == rest;
  }

  lemma {:induction false} DecodeHexOf(bytes: seq<byte>)
    ensures DecodeHex(HexOf(bytes)) == Some(bytes)
  {
    if bytes != [] {
      var b := bytes[0];
      NibblesOf(b);
      var hi: Nibble, lo: Nibble := b / 16, b % 16;
      DigitRoundTrip(hi);
      DigitRoundTrip(lo);
      DecodeHexOf(bytes[1..]);
      DecodePair(HexDigits[hi], HexDigits[lo], HexOf(bytes[1..]), hi, lo);
      assert [b] + bytes[1..] == bytes;
    }
  }

  /** A rendered id parses back to itself: a notification's id, echoed by a client, names the same conversation. */
  lemma FromHexOfHex(id: ObjectId)
    ensures FromHex(Hex(id)) == Some(id)
  {
    DecodeHexOf(id);
  }

  /** Distinct conversations are never rendered as the same text. */
  lemma HexInjective(a: ObjectId, b: ObjectId)
    requires Hex(a) == Hex(b)
    ensures a == b
  {
    FromHexOfHex(a);
    FromHexOfHex(b);
  }
}
