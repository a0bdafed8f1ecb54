/** Clipping text to a number of UTF-8 bytes (section 3 of RFC 3629), decoding what is left while
    ignoring errors. */
module Utf8Clip {
  import opened Text

  type Byte = b: int | 0 <= b < 256

  /** A code point that UTF-8 can encode: any but the surrogates. */
  predicate IsScalar(c: int) {
    0 <= c < 0xD800 || 0xE000 <= c < 0x110000
  }

  type Scalar = c: int | 0 <= c < 0xD800 || 0xE000 <= c < 0x110000

  // ---------------------------------------------------------------- encoding

  function EncodeOne(c: Scalar): (r: seq<Byte>)
    ensures 1 <= |r| <= 4
  {
    if c < 0x80 then [c]
    else if c < 0x800 then [0xC0 + c / 64, 0x80 + c % 64]
    else if c < 0x10000 then [0xE0 + c / 4096, 0x80 + c / 64 % 64, 0x80 + c % 64]
    else [0xF0 + c / 262144, 0x80 + c / 4096 % 64, 0x80 + c / 64 % 64, 0x80 + c % 64]
  }

  function Encode(s: seq<Scalar>): seq<Byte> {
    if s == [] then [] else EncodeOne(s[0]) + Encode(s[1..])
  }

  // ---------------------------------------------------------------- decoding, errors ignored

  /** The length of the sequence a byte starts, 0 if it starts none. */
  function Expected(first: Byte): (n: nat)
    ensures n <= 4
  {
    if first < 0x80 then 1
    else if 0xC2 <= first <= 0xDF then 2
    else if 0xE0 <= first <= 0xEF then 3
    else if 0xF0 <= first <= 0xF4 then 4
    else 0
  }

  /** Whether a byte may follow the first one; overlong forms, surrogates and values past the last
      code point are shut out here. */
  predicate SecondOk(first: Byte, second: Byte) {
    && 0x80 <= second <= 0xBF
    && (first == 0xE0 ==> second >= 0xA0) && (first == 0xED ==> second <= 0x9F)
    && (first == 0xF0 ==> second >= 0x90) && (first == 0xF4 ==> second <= 0x8F)
  }

  /** How many of the leading bytes could begin one sequence. */
  function Leading(bs: seq<Byte>): (n: nat)
    requires bs != []
    ensures n <= |bs| && n <= Expected(bs[0])
  {
    var want := Expected(bs[0]);
    if want <= 1 then want
    else if |bs| < 2 || !SecondOk(bs[0], bs[1]) then 1
    else if want == 2 || |bs| < 3 || !(0x80 <= bs[2] <= 0xBF) then 2
    else if want == 3 || |bs| < 4 || !(0x80 <= bs[3] <= 0xBF) then 3
    else 4
  }

  function Assembled(bs: seq<Byte>): int
    requires 1 <= |bs| <= 4
  {
    if |bs| == 1 then (bs[0] as int)
    else if |bs| == 2 then ((bs[0] as int) - 0xC0) * 64 + ((bs[1] as int) - 0x80)
    else if |bs| == 3 then ((bs[0] as int) - 0xE0) * 4096 + ((bs[1] as int) - 0x80) * 64 + ((bs[2] as int) - 0x80)
    else ((bs[0] as int) - 0xF0) * 262144 + ((bs[1] as int) - 0x80) * 4096 + ((bs[2] as int) - 0x80) * 64 + ((bs[3] as int) - 0x80)
  }

  lemma CompleteIsScalar(bs: seq<Byte>)
    requires bs != [] && Expected(bs[0]) > 0 && Leading(bs) == Expected(bs[0])
    ensures IsScalar(Assembled(bs[..Expected(bs[0])]))
  {
  }

  /** Complete sequences give their code point; a stretch that cannot be completed is skipped. */
  function Decode(bs: seq<Byte>): seq<Scalar> {
    if bs == [] then []
    else if Expected(bs[0]) > 0 && Leading(bs) == Expected(bs[0]) then
      CompleteIsScalar(bs);
      [Assembled(bs[..Expected(bs[0])])] + Decode(bs[Expected(bs[0])..])
    else
      Decode(bs[if Leading(bs) > 1 then Leading(bs) else 1..])
  }

  // ---------------------------------------------------------------- one code point

  lemma EncodedOne(c: Scalar)
    ensures var e := EncodeOne(c); Expected(e[0]) == |e| && Leading(e) == |e| && Assembled(e) == c
  {
    Digits64(c);
  }

  /** The forms of section 3: the number of bytes is the least for the code point, the first byte
      tells it, and the bytes after it lie between 0x80 and 0xBF. */
  lemma EncodedForm(c: Scalar)
    ensures var e := EncodeOne(c);
      && (forall i :: 1 <= i < |e| ==> 0x80 <= e[i] <= 0xBF)
      && (c < 0x80 <==> e == [c])
      && (0x80 <= c < 0x800 <==> |e| == 2 && 0xC2 <= e[0] <= 0xDF)
      && (0x800 <= c < 0x10000 <==> |e| == 3 && 0xE0 <= e[0] <= 0xEF)
      && (0x10000 <= c <==> |e| == 4 && 0xF0 <= e[0] <= 0xF4)
  {
  }

  lemma Digits64(c: int)
    requires 0 <= c < 0x110000
    ensures c == c / 64 * 64 + c % 64
    ensures c == c / 4096 * 4096 + c / 64 % 64 * 64 + c % 64
    ensures c == c / 262144 * 262144 + c / 4096 % 64 * 4096 + c / 64 % 64 * 64 + c % 64
  {
    var d := c / 64;
    var e := d / 64;
    assert c / 4096 == e && c / 262144 == e / 64;
    assert c == d * 64 + c % 64 && d == e * 64 + d % 64 && e == e / 64 * 64 + e % 64;
  }

  lemma LeadingOfMore(e: seq<Byte>, rest: seq<Byte>)
    requires e != [] && Leading(e) == |e| == Expected(e[0])
    ensures Leading(e + rest) == |e|
  {
  }

  lemma DecodeWhole(c: Scalar, rest: seq<Byte>)
    ensures Decode(EncodeOne(c) + rest) == [c] + Decode(rest)
  {
    var e := EncodeOne(c);
    EncodedOne(c);
    LeadingOfMore(e, rest);
    var bs := e + rest;
    assert bs[0] == e[0] && bs[..|e|] == e && bs[|e|..] == rest;
  }

  /** A code point cut short at the end of the bytes leaves nothing. */
  lemma DecodePart(c: Scalar, n: nat)
    requires n < |EncodeOne(c)|
    ensures Decode(EncodeOne(c)[..n]) == []
  {
    var e := EncodeOne(c);
    EncodedOne(c);
    if n > 0 {
      var bs := e[..n];
      assert bs[0] == e[0] && Leading(bs) == n;
      assert bs[n..] == [];
    }
  }

  // ---------------------------------------------------------------- clipping

  /** How many whole code points fit into a number of bytes. */
  function Fitting(s: seq<Scalar>, limit: nat): (k: nat)
    ensures k <= |s|
  {
    if s == [] || |EncodeOne(s[0])| > limit then 0 else 1 + Fitting(s[1..], limit - |EncodeOne(s[0])|)
  }

  lemma {:induction false} EncodePrefix(s: seq<Scalar>, k: nat)
    requires k < |s|
    ensures Encode(s[..k + 1]) == Encode(s[..k]) + EncodeOne(s[k])
    ensures |Encode(s[..k])| + |EncodeOne(s[k])| <= |Encode(s)|
  {
    if k == 0 {
      assert s[..1][1..] == [] && s[..0] == [];
      assert Encode(s[..1]) == EncodeOne(s[0]);
    } else {
      EncodePrefix(s[1..], k - 1);
      assert s[..k + 1][1..] == s[1..][..k] && s[..k][1..] == s[1..][..k - 1];
      hide EncodeOne;
      assert Encode(s[..k + 1]) == EncodeOne(s[0]) + Encode(s[1..][..k]);
      assert Encode(s[..k]) == EncodeOne(s[0]) + Encode(s[1..][..k - 1]);
    }
  }

  /** The count is right: that many code points fit, one more would not, and at most three bytes
      of the limit go unused if anything is cut. */
  lemma {:induction false} FittingIsLongest(s: seq<Scalar>, limit: nat)
    ensures var k := Fitting(s, limit);
      && |Encode(s[..k])| <= limit
      && (k < |s| ==> |Encode(s[..k + 1])| > limit && |Encode(s[..k])| >= limit - 3)
      && (k == |s| <==> |Encode(s)| <= limit)
  {
    if s != [] && |EncodeOne(s[0])| <= limit {
      var rest := s[1..];
      FittingIsLongest(rest, limit - |EncodeOne(s[0])|);
      var k := Fitting(rest, limit - |EncodeOne(s[0])|);
      assert s[..k + 1][1..] == rest[..k];
      assert s[..k + 1] == [s[0]] + rest[..k];
      if k < |rest| {
        assert s[..k + 2][1..] == rest[..k + 1];
      } else {
        assert s[..k + 1] == s;
      }
    } else if s != [] {
      assert s[..1][1..] == [];
    }
  }

  lemma PrefixSnoc(s: seq<Scalar>, k: nat)
    requires k < |s|
    ensures s[..k + 1] == [s[0]] + s[1..][..k]
  {
  }

  /** Decoding the first bytes of an encoded text gives its first whole code points. */
  lemma {:induction false} DecodeClipped(s: seq<Scalar>, limit: nat)
    requires limit <= |Encode(s)|
    ensures Decode(Encode(s)[..limit]) == s[..Fitting(s, limit)]
  {
    if s != [] {
      var e, rest := EncodeOne(s[0]), Encode(s[1..]);
      if |e| > limit {
        assert Encode(s)[..limit] == e[..limit];
        DecodePart(s[0], limit);
      } else {
        assert Encode(s)[..limit] == e + rest[..limit - |e|];
        DecodeWhole(s[0], rest[..limit - |e|]);
        DecodeClipped(s[1..], limit - |e|);
        PrefixSnoc(s, Fitting(s[1..], limit - |e|));
      }
    }
  }

  /** Decoding undoes encoding. */
  lemma DecodeEncode(s: seq<Scalar>)
    ensures Decode(Encode(s)) == s
  {
    var all := Encode(s);
    assert all[..|all|] == all;
    DecodeClipped(s, |all|);
    FittingIsLongest(s, |all|);
    assert s[..|s|] == s;
  }

  // ---------------------------------------------------------------- the bounded text

  function Scalars(s: string): (r: seq<Scalar>)
    ensures |r| == |s| && forall i :: 0 <= i < |s| ==> r[i] == s[i] as int
  {
    seq(|s|, i requires 0 <= i < |s| => s[i] as int)
  }

  function Suffix(size: nat): seq<Scalar> {
    Scalars("\n[truncated public dashboard payload: " + Decimal(size) + " bytes]")
  }

  /** The suffix writes the number of bytes. */
  lemma SuffixSays(size: nat) returns (digits: string)
    ensures Writes(digits, size)
    ensures Suffix(size) == Scalars("\n[truncated public dashboard payload: " + digits + " bytes]")
  {
    digits := Decimal(size);
    DecimalWrites(size);
  }

  /** Where a slice up to a limit ends; a negative limit counts from the end. */
  function SliceEnd(length: nat, limit: int): (r: nat)
    ensures r <= length
    ensures limit >= 0 ==> r == limit || r == length < limit
    ensures limit < 0 ==> r == length + limit || (r == 0 && length + limit < 0)
  {
    if limit >= 0 then (if limit < length then limit else length)
    else if length + limit > 0 then length + limit
    else 0
  }

  /** `_bounded_text`. */
  function BoundedText(value: seq<Scalar>, maxBytes: int): seq<Scalar> {
    var encoded := Encode(value);
    if |encoded| <= maxBytes then value
    else Decode(encoded[..SliceEnd(|encoded|, maxBytes)]) + Suffix(|encoded|)
  }

  /** Text that fits is kept as it is. Any other text keeps exactly the longest prefix of whole
      code points that fits, at most three bytes short of the limit, and says how long it was. */
  lemma BoundedTextIsExact(value: seq<Scalar>, maxBytes: int) returns (k: nat, digits: string)
    ensures |Encode(value)| <= maxBytes ==> BoundedText(value, maxBytes) == value
    ensures |Encode(value)| > maxBytes ==>
              && k <= |value| && Writes(digits, |Encode(value)|)
              && BoundedText(value, maxBytes) == value[..k] + Scalars("\n[truncated public dashboard payload: " + digits + " bytes]")
              && |Encode(value[..k])| <= SliceEnd(|Encode(value)|, maxBytes)
    ensures |Encode(value)| > maxBytes && k < |value| ==>
              SliceEnd(|Encode(value)|, maxBytes) - 3 <= |Encode(value[..k])|
              && SliceEnd(|Encode(value)|, maxBytes) < |Encode(value[..k + 1])|
    ensures |Encode(value)| > maxBytes >= 0 ==> k < |value| && SliceEnd(|Encode(value)|, maxBytes) == maxBytes
  {
    var end := SliceEnd(|Encode(value)|, maxBytes);
    k := Fitting(value, end);
    digits := SuffixSays(|Encode(value)|);
    FittingIsLongest(value, end);
    DecodeClipped(value, end);
  }
}
