/** MongoDB ObjectIDs: twelve bytes, written as 24 hexadecimal digits. */
module ObjectIds {

  import opened Common

  type Byte = b: int | 0 <= b < 256

  type ObjectId = s: seq<Byte> | |s| == 12 witness [0, 0, 0, 0, 0, 0, 0, 0, 0, 0, 0, 0]

  /** The nil ObjectID; `IsZero` compares against it. */
  const Zero: ObjectId := [0, 0, 0, 0, 0, 0, 0, 0, 0, 0, 0, 0]

  predicate IsZero(id: ObjectId)
  {
    id == Zero
  }

  /** The lower-case digit for a nibble, as `encoding/hex` writes it. */
  function HexDigit(n: nat): (c: char)
    requires n < 16
    ensures '0' <= c <= '9' || 'a' <= c <= 'f'
  {
    if n < 10 then (48 + n) as char else (87 + n) as char
  }

  /** The value of a hexadecimal digit of either case; None for any other character. */
  function DigitValue(c: char): (r: Option<nat>)
    ensures r.Some? ==> r.value < 16
  {
    if '0' <= c <= '9' then Some(c as int - 48)
    else if 'a' <= c <= 'f' then Some(c as int - 87)
    else if 'A' <= c <= 'F' then Some(c as int - 55)
    else None
  }

  predicate IsHexDigit(c: char)
  {
    DigitValue(c).Some?
  }

  /** `ObjectID.Hex`: two lower-case digits per byte, high nibble first. */
  function Hex(bytes: seq<Byte>): (s: string)
    ensures |s| == 2 * |bytes|
  {
    if bytes == [] then []
    else [HexDigit(bytes[0] / 16), HexDigit(bytes[0] % 16)] + Hex(bytes[1..])
  }

  /** `hex.DecodeString` on an even-length string. */
  function DecodeHex(s: string): (r: Option<seq<Byte>>)
    requires |s| % 2 == 0
    ensures r.Some? ==> 2 * |r.value| == |s|
  {
    if s == [] then Some([])
    else
      match (DigitValue(s[0]), DigitValue(s[1]), DecodeHex(s[2..]))
      case (Some(hi), Some(lo), Some(rest)) => Some([16 * hi + lo] + rest)
      case _ => None
  }

  /** The identifiers the store accepts: 24 hexadecimal digits. */
  predicate ValidId(s: string)
  {
    |s| == 24 && forall i :: 0 <= i < |s| ==> IsHexDigit(s[i])
  }

  /** `primitive.ObjectIDFromHex`: it accepts exactly the valid identifiers. */
  function FromHex(s: string): (r: Option<ObjectId>)
    ensures r.Some? <==> ValidId(s)
  {
    if |s| != 24 then None
    else
      DecodeHexSucceeds(s);
      match DecodeHex(s)
      case Some(bytes) => Some(bytes)
      case None => None
  }

  lemma {:induction false} DecodeHexSucceeds(s: string)
    requires |s| % 2 == 0
    ensures DecodeHex(s).Some? <==> forall i :: 0 <= i < |s| ==> IsHexDigit(s[i])
    decreases |s|
  {
    if s != [] {
      DecodeHexSucceeds(s[2..]);
      assert forall i :: 2 <= i < |s| ==> s[i] == s[2..][i - 2];
    }
  }

  lemma DigitRoundTrip(n: nat)
    requires n < 16
    ensures DigitValue(HexDigit(n)) == Some(n)
  {
  }

  lemma {:induction false} DecodeHexOfHex(bytes: seq<Byte>)
    ensures DecodeHex(Hex(bytes)) == Some(bytes)
  {
    if bytes != [] {
      var b := bytes[0];
      var s := Hex(bytes);
      DigitRoundTrip(b / 16);
      DigitRoundTrip(b % 16);
      assert s[2..] == Hex(bytes[1..]);
      DecodeHexOfHex(bytes[1..]);
      assert [16 * (b / 16) + b % 16] + bytes[1..] == bytes;
    }
  }

  /** Writing an ObjectID in hex and parsing it back gives the same ObjectID. */
  lemma HexRoundTrip(id: ObjectId)
    ensures FromHex(Hex(id)) == Some(id)
    ensures ValidId(Hex(id))
  {
    DecodeHexOfHex(id);
  }

  /** The hex form uses only the digits and the lower-case letters a to f. */
  lemma {:induction false} HexIsLowerCase(bytes: seq<Byte>)
    ensures forall i :: 0 <= i < |Hex(bytes)| ==> '0' <= Hex(bytes)[i] <= '9' || 'a' <= Hex(bytes)[i] <= 'f'
  {
    if bytes != [] {
      HexIsLowerCase(bytes[1..]);
    }
  }

  /** The same for any well-formed string, up to the case of its letters. */
  function LowerHexDigit(c: char): char
  {
    if 'A' <= c <= 'F' then (c as int + 32) as char else c
  }

  lemma {:induction false} HexOfDecodeHex(s: string)
    requires |s| % 2 == 0
    requires DecodeHex(s).Some?
    ensures Hex(DecodeHex(s).value) == seq(|s|, i requires 0 <= i < |s| => LowerHexDigit(s[i]))
    decreases |s|
  {
    if s != [] {
      HexOfDecodeHex(s[2..]);
    }
  }

  /** Parsing a valid identifier and writing it back yields it with lower-case letters. */
  lemma FromHexThenHex(s: string)
    requires ValidId(s)
    ensures FromHex(s).Some?
    ensures Hex(FromHex(s).value) == seq(|s|, i requires 0 <= i < |s| => LowerHexDigit(s[i]))
  {
    DecodeHexSucceeds(s);
    HexOfDecodeHex(s);
  }
}
