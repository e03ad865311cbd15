/**
 * BSON object identifiers as the controller uses them: `ObjectId.TryParse(id, out var
 * objectId)` followed by `objectId.ToString()`.
 *
 * An ObjectId is 12 bytes. The model takes as given that `TryParse` accepts exactly the
 * strings of 24 hexadecimal digits, in either case, and that `ToString` writes the 12
 * bytes back as 24 lower-case hexadecimal digits. The BSON library itself is not part of
 * this model.
 */
module ObjectIds {
  import opened Wrappers

  type Byte = b: int | 0 <= b < 256

  /** The 12 bytes of a BSON ObjectId. */
  type ObjectId = s: seq<Byte> | |s| == 12 witness [0, 0, 0, 0, 0, 0, 0, 0, 0, 0, 0, 0]

  /** Number of characters in the text form of an ObjectId. */
  const TextLength: nat := 24

  /** The value of one hexadecimal digit, in either case. */
  function HexValue(c: char): (r: Option<nat>)
    ensures r.Some? ==> r.value < 16
  {
    if '0' <= c <= '9' then Some(c as int - '0' as int)
    else if 'a' <= c <= 'f' then Some(c as int - 'a' as int + 10)
    else if 'A' <= c <= 'F' then Some(c as int - 'A' as int + 10)
    else None
  }

  predicate IsHexChar(c: char) {
    HexValue(c).Some?
  }

  predicate IsLowerHexChar(c: char) {
    '0' <= c <= '9' || 'a' <= c <= 'f'
  }

  /** The lower-case digit for a value below 16. */
  function HexDigit(n: nat): (c: char)
    requires n < 16
    ensures IsLowerHexChar(c) && HexValue(c) == Some(n)
  {
    if n < 10 then ('0' as int + n) as char else ('a' as int + n - 10) as char
  }

  /** Lower-cases the letters of a hexadecimal digit; any other character is kept. */
  function LowerHex(c: char): char {
    if 'A' <= c <= 'F' then (c as int - 'A' as int + 'a' as int) as char else c
  }

  function LowerHexString(s: string): (r: string)
    ensures |r| == |s| && forall i :: 0 <= i < |s| ==> r[i] == LowerHex(s[i])
  {
    seq(|s|, i requires 0 <= i < |s| => LowerHex(s[i]))
  }

  predicate IsHexString(s: string) {
    forall i :: 0 <= i < |s| ==> IsHexChar(s[i])
  }

  /** The text form that `ToString` produces: 24 lower-case hexadecimal digits. */
  predicate IsCanonicalText(s: string) {
    |s| == TextLength && forall i :: 0 <= i < |s| ==> IsLowerHexChar(s[i])
  }

  /** Two lower-case hexadecimal digits per byte, high half first. */
  function Encode(bytes: seq<Byte>): (s: string)
    ensures |s| == 2 * |bytes|
    ensures forall i :: 0 <= i < |s| ==> IsLowerHexChar(s[i])
  {
    if bytes == [] then []
    else [HexDigit(bytes[0] / 16), HexDigit(bytes[0] % 16)] + Encode(bytes[1..])
  }

  /** Reads pairs of hexadecimal digits back into bytes; `None` on a non-hex character
      or a dangling half byte. */
  function Decode(s: string): (r: Option<seq<Byte>>)
    ensures r.Some? ==> 2 * |r.value| == |s|
    decreases |s|
  {
    if |s| == 0 then Some([])
    else if |s| == 1 then None
    else
      match (HexValue(s[0]), HexValue(s[1]), Decode(s[2..]))
      case (Some(hi), Some(lo), Some(rest)) => Some([hi * 16 + lo] + rest)
      case _ => None
  }

  /** `ObjectId.TryParse`. */
  function TryParse(s: string): (r: Option<ObjectId>)
  {
    if |s| != TextLength then None
    else
      match Decode(s)
      case Some(bytes) => Some(bytes)
      case None => None
  }

  /** `ObjectId.ToString`. */
  function ToString(id: ObjectId): (s: string)
    ensures IsCanonicalText(s)
  {
    Encode(id)
  }

  /** The canonical form of a path id: `Some(objectId.ToString())` when `TryParse` succeeds. */
  function Canonical(s: string): (r: Option<string>)
    ensures r.Some? <==> |s| == TextLength && IsHexString(s)
    ensures r.Some? ==> r.value == LowerHexString(s) && IsCanonicalText(r.value)
  {
    DecodeSucceeds(s);
    match TryParse(s)
    case Some(id) => DecodeLowers(s, id); Some(ToString(id))
    case None => None
  }

  lemma {:induction false} DecodeEncode(bytes: seq<Byte>)
    ensures Decode(Encode(bytes)) == Some(bytes)
  {
    if bytes != [] {
      var s := Encode(bytes);
      DecodeEncode(bytes[1..]);
      assert s[2..] == Encode(bytes[1..]);
      assert (bytes[0] / 16) * 16 + bytes[0] % 16 == bytes[0];
      assert [bytes[0]] + bytes[1..] == bytes;
    }
  }

  lemma {:induction false} DecodeSucceeds(s: string)
    ensures Decode(s).Some? <==> |s| % 2 == 0 && IsHexString(s)
    decreases |s|
  {
    if |s| >= 2 {
      DecodeSucceeds(s[2..]);
      if IsHexString(s[2..]) && IsHexChar(s[0]) && IsHexChar(s[1]) {
        forall i | 0 <= i < |s| ensures IsHexChar(s[i]) {
          if i >= 2 { assert s[i] == s[2..][i - 2]; }
        }
      }
      if IsHexString(s) {
        forall i | 0 <= i < |s| - 2 ensures IsHexChar(s[2..][i]) {
          assert s[2..][i] == s[i + 2];
        }
      }
    } else if |s| == 1 {
      assert !(|s| % 2 == 0);
    }
  }

  lemma {:induction false} DecodeLowers(s: string, bytes: seq<Byte>)
    requires Decode(s) == Some(bytes)
    ensures Encode(bytes) == LowerHexString(s)
    decreases |s|
  {
    if |s| >= 2 {
      var hi, lo := HexValue(s[0]).value, HexValue(s[1]).value;
      var rest := Decode(s[2..]).value;
      assert bytes == [hi * 16 + lo] + rest;
      DecodeLowers(s[2..], rest);
      assert (hi * 16 + lo) / 16 == hi && (hi * 16 + lo) % 16 == lo;
      assert HexDigit(hi) == LowerHex(s[0]);
      assert HexDigit(lo) == LowerHex(s[1]);
      assert bytes[1..] == rest;
      assert LowerHexString(s) == [LowerHex(s[0]), LowerHex(s[1])] + LowerHexString(s[2..]);
    }
  }

  /** The text `ToString` writes parses back to the same ObjectId. */
  lemma ParseToString(id: ObjectId)
    ensures TryParse(ToString(id)) == Some(id)
  {
    DecodeEncode(id);
  }

  /** `TryParse` succeeds exactly on 24 hexadecimal digits, and `ToString` of the result
      is the input in lower case. */
  lemma TryParseCharacterised(s: string)
    ensures TryParse(s).Some? <==> |s| == TextLength && IsHexString(s)
    ensures TryParse(s).Some? ==> ToString(TryParse(s).value) == LowerHexString(s)
  {
    DecodeSucceeds(s);
    if TryParse(s).Some? {
      DecodeLowers(s, TryParse(s).value);
    }
  }

  /** Canonicalising twice changes nothing, and a canonical text is its own canonical form. */
  lemma CanonicalIdempotent(s: string)
    ensures Canonical(s).Some? ==> Canonical(Canonical(s).value) == Canonical(s)
    ensures IsCanonicalText(s) ==> Canonical(s) == Some(s)
  {
    if Canonical(s).Some? {
      var c := Canonical(s).value;
      assert forall i :: 0 <= i < |c| ==> IsHexChar(c[i]) && LowerHex(c[i]) == c[i];
      assert LowerHexString(c) == c;
    }
    if IsCanonicalText(s) {
      assert LowerHexString(s) == s;
    }
  }

  /** Ids that differ only in the case of their letters name the same ObjectId: an id and
      its lower-cased text have the same canonical form, or neither has one. */
  lemma CanonicalIgnoresCase(s: string)
    ensures Canonical(LowerHexString(s)) == Canonical(s)
  {
    var t := LowerHexString(s);
    assert forall i :: 0 <= i < |s| ==> (IsHexChar(t[i]) <==> IsHexChar(s[i]));
    assert forall i :: 0 <= i < |s| ==> LowerHex(t[i]) == t[i];
    assert LowerHexString(t) == t;
  }
}
