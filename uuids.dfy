/** The request correlation id: a 128-bit UUID and its canonical text form
    (lower-case hexadecimal in 8-4-4-4-12 groups), which is what goes into
    the `x-request-id` header. */
module Uuids {
  import opened Wrappers

  newtype byte = b: int | 0 <= b < 256

  /** A UUID is sixteen bytes. */
  type Uuid = s: seq<byte> | |s| == 16
    witness [0, 0, 0, 0, 0, 0, 0, 0, 0, 0, 0, 0, 0, 0, 0, 0]

  function HexDigit(n: int): (c: char)
    requires 0 <= n < 16
    ensures HexValue(c) == Some(n)
  {
    if n < 10 then (48 + n) as char else (87 + n) as char
  }

  /** Value of one lower-case hexadecimal digit. */
  function HexValue(c: char): (r: Option<int>)
    ensures r.Some? ==> 0 <= r.value < 16
  {
    if '0' <= c <= '9' then Some(c as int - 48)
    else if 'a' <= c <= 'f' then Some(c as int - 87)
    else None
  }

  /** Two hexadecimal digits per byte, high nibble first. */
  function Hex(bs: seq<byte>): (s: string)
    ensures |s| == 2 * |bs|
  {
    if bs == [] then []
    else [HexDigit(bs[0] as int / 16), HexDigit(bs[0] as int % 16)] + Hex(bs[1..])
  }

  function Unhex(s: string): Option<seq<byte>>
    decreases |s|
  {
    if s == [] then Some([])
    else if |s| == 1 then None
    else match (HexValue(s[0]), HexValue(s[1]), Unhex(s[2..]))
      case (Some(hi), Some(lo), Some(rest)) => Some([(hi * 16 + lo) as byte] + rest)
      case _ => None
  }

  lemma {:induction false} UnhexHex(bs: seq<byte>)
    ensures Unhex(Hex(bs)) == Some(bs)
  {
    if bs != [] {
      var s := Hex(bs);
      assert s[2..] == Hex(bs[1..]);
      UnhexHex(bs[1..]);
      assert [bs[0]] + bs[1..] == bs;
    }
  }

  /** The canonical hyphenated form, `xxxxxxxx-xxxx-xxxx-xxxx-xxxxxxxxxxxx`. */
  function Hyphenated(u: Uuid): (s: string)
    ensures |s| == 36
    ensures s[8] == s[13] == s[18] == s[23] == '-'
    ensures forall i :: 0 <= i < 36 && i != 8 && i != 13 && i != 18 && i != 23 ==> HexValue(s[i]).Some?
  {
    var s := Hex(u[..4]) + "-" + Hex(u[4..6]) + "-" + Hex(u[6..8]) + "-" + Hex(u[8..10]) + "-" + Hex(u[10..]);
    HexDigitsAreHex(u[..4]);
    HexDigitsAreHex(u[4..6]);
    HexDigitsAreHex(u[6..8]);
    HexDigitsAreHex(u[8..10]);
    HexDigitsAreHex(u[10..]);
    s
  }

  lemma {:induction false} HexDigitsAreHex(bs: seq<byte>)
    ensures forall i :: 0 <= i < |Hex(bs)| ==> HexValue(Hex(bs)[i]).Some?
  {
    if bs != [] {
      HexDigitsAreHex(bs[1..]);
    }
  }

  /** Reads the hyphenated form back; a left inverse of Hyphenated. */
  function ParseHyphenated(s: string): Option<Uuid> {
    if |s| != 36 || s[8] != '-' || s[13] != '-' || s[18] != '-' || s[23] != '-' then None
    else match (Unhex(s[..8]), Unhex(s[9..13]), Unhex(s[14..18]), Unhex(s[19..23]), Unhex(s[24..]))
      case (Some(a), Some(b), Some(c), Some(d), Some(e)) =>
        if |a + b + c + d + e| == 16 then Some(a + b + c + d + e) else None
      case _ => None
  }

  lemma ParseHyphenatedRoundTrip(u: Uuid)
    ensures ParseHyphenated(Hyphenated(u)) == Some(u)
  {
    var s := Hyphenated(u);
    assert s[..8] == Hex(u[..4]);
    assert s[9..13] == Hex(u[4..6]);
    assert s[14..18] == Hex(u[6..8]);
    assert s[19..23] == Hex(u[8..10]);
    assert s[24..] == Hex(u[10..]);
    UnhexHex(u[..4]);
    UnhexHex(u[4..6]);
    UnhexHex(u[6..8]);
    UnhexHex(u[8..10]);
    UnhexHex(u[10..]);
    assert u[..4] + u[4..6] + u[6..8] + u[8..10] + u[10..] == u;
  }

  /** Distinct ids give distinct `x-request-id` header values. */
  lemma HyphenatedInjective(u: Uuid, v: Uuid)
    requires Hyphenated(u) == Hyphenated(v)
    ensures u == v
  {
    ParseHyphenatedRoundTrip(u);
    ParseHyphenatedRoundTrip(v);
  }
}
