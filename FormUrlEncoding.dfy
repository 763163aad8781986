/**
 * The application/x-www-form-urlencoded byte serializer (WHATWG URL Standard,
 * section 5.2; HTML 4.01, section 17.13.4.1), as `java.net.URLEncoder.encode`
 * implements it with the UTF-8 charset: the bytes of the UTF-8 form of the
 * input are written one by one, `A-Z a-z 0-9 . - * _` as themselves, the
 * space as `+`, and every other byte as `%` and two upper-case hex digits.
 *
 * The input is taken as its UTF-8 bytes. Every byte of a multi-byte UTF-8
 * sequence is at least 0x80 and so is always percent-escaped, which is why
 * encoding byte by byte gives the same text as encoding character by character.
 *
 * `FormDecode` is the inverse the serializer is checked against: `+` is a
 * space, `%XX` is the byte with hex value XX, and any other ASCII character
 * is its own byte.
 */
module FormUrlEncoding {
  import opened Wrappers

  type byte = b: int | 0 <= b < 256

  const Space: byte := 0x20
  const UpperHexDigits: string := "0123456789ABCDEF"

  /** The bytes URLEncoder writes unchanged: `A-Z a-z 0-9 . - * _`. */
  predicate IsUnreservedByte(b: byte) {
    ('A' as int <= b <= 'Z' as int) || ('a' as int <= b <= 'z' as int) || ('0' as int <= b <= '9' as int)
    || b == '.' as int || b == '-' as int || b == '*' as int || b == '_' as int
  }

  /** The same set, as characters of the encoded text. */
  predicate IsUnreservedChar(c: char) {
    ('A' <= c <= 'Z') || ('a' <= c <= 'z') || ('0' <= c <= '9')
    || c == '.' || c == '-' || c == '*' || c == '_'
  }

  predicate IsUpperHexDigit(c: char) {
    ('0' <= c <= '9') || ('A' <= c <= 'F')
  }

  predicate IsHexDigit(c: char) {
    IsUpperHexDigit(c) || ('a' <= c <= 'f')
  }

  function HexValue(c: char): (n: nat)
    requires IsHexDigit(c)
    ensures n < 16
  {
    if '0' <= c <= '9' then (c as int) - ('0' as int)
    else if 'A' <= c <= 'F' then (c as int) - ('A' as int) + 10
    else (c as int) - ('a' as int) + 10
  }

  lemma HexDigitRoundTrip(n: nat)
    requires n < 16
    ensures IsUpperHexDigit(UpperHexDigits[n]) && HexValue(UpperHexDigits[n]) == n
  {
  }

  /**
   * The shape of every string the serializer can produce: a run of unreserved
   * characters, `+`, and `%` escapes with two UPPER-case hex digits.
   */
  predicate IsFormEncoded(s: string)
    decreases |s|
  {
    if s == [] then true
    else if IsUnreservedChar(s[0]) || s[0] == '+' then IsFormEncoded(s[1..])
    else s[0] == '%' && |s| >= 3 && IsUpperHexDigit(s[1]) && IsUpperHexDigit(s[2]) && IsFormEncoded(s[3..])
  }

  /** The encoding of a single byte. */
  function EncodeByte(b: byte): (s: string)
    ensures IsUnreservedByte(b) ==> s == [b as char]
    ensures b == Space ==> s == "+"
    ensures !IsUnreservedByte(b) && b != Space ==> |s| == 3 && s[0] == '%'
    ensures IsFormEncoded(s) && FormDecode(s) == Some([b])
  {
    if IsUnreservedByte(b) then
      var s := [b as char];
      assert s[0] != '+' && s[0] != '%' && s[1..] == [];
      assert FormDecode(s) == Some([b] + []);
      assert [b] + [] == [b];
      s
    else if b == Space then
      var s := "+";
      assert s[0] == '+' && s[1..] == [];
      assert FormDecode(s) == Some([Space] + []);
      assert [Space] + [] == [b];
      s
    else
      HexDigitRoundTrip(b / 16);
      HexDigitRoundTrip(b % 16);
      var s := ['%', UpperHexDigits[b / 16], UpperHexDigits[b % 16]];
      assert s[3..] == [] && FormDecode(s[3..]) == Some([]);
      assert HexValue(s[1]) * 16 + HexValue(s[2]) == b;
      assert FormDecode(s) == Some([b] + []);
      assert [b] + [] == [b];
      s
  }

  /** `URLEncoder.encode(text, StandardCharsets.UTF_8)`, on the UTF-8 bytes of `text`. */
  function Encode(bs: seq<byte>): (s: string)
    ensures IsFormEncoded(s)
    ensures |bs| <= |s| <= 3 * |bs|
    decreases |bs|
  {
    if bs == [] then
      ""
    else
      FormEncodedPrefix(bs[0], Encode(bs[1..]));
      EncodeByte(bs[0]) + Encode(bs[1..])
  }

  /** Prepends a decoded byte to the rest of a decoding, failing if the rest failed. */
  function Prepend(b: byte, rest: Option<seq<byte>>): (r: Option<seq<byte>>)
    ensures r.Some? <==> rest.Some?
    ensures r.Some? ==> r.value == [b] + rest.value
  {
    if rest.None? then None else Some([b] + rest.value)
  }

  /**
   * Decoding of a form-encoded value: `+` is a space, `%XX` (either case of
   * hex digit) is one byte, any other ASCII character is its own byte. A `%`
   * not followed by two hex digits, or a non-ASCII character, is malformed.
   */
  function FormDecode(s: string): (r: Option<seq<byte>>)
    ensures r.Some? ==> |r.value| <= |s|
    decreases |s|
  {
    if s == [] then
      Some([])
    else if s[0] == '+' then
      Prepend(Space, FormDecode(s[1..]))
    else if s[0] == '%' then
      if |s| >= 3 && IsHexDigit(s[1]) && IsHexDigit(s[2]) then
        Prepend(HexValue(s[1]) * 16 + HexValue(s[2]), FormDecode(s[3..]))
      else
        None
    else if (s[0] as int) < 128 then
      Prepend(s[0] as int, FormDecode(s[1..]))
    else
      None
  }

  /** The encoding of a byte followed by encoded text is encoded text. */
  lemma FormEncodedPrefix(b: byte, rest: string)
    requires IsFormEncoded(rest)
    ensures IsFormEncoded(EncodeByte(b) + rest)
  {
    var s := EncodeByte(b) + rest;
    if IsUnreservedByte(b) || b == Space {
      assert s[0] == EncodeByte(b)[0] && s[1..] == rest;
    } else {
      HexDigitRoundTrip(b / 16);
      HexDigitRoundTrip(b % 16);
      assert s[0] == '%' && s[1] == UpperHexDigits[b / 16] && s[2] == UpperHexDigits[b % 16];
      assert s[3..] == rest;
    }
  }

  /** Decoding reads the encoding of the first byte and then goes on with the rest. */
  lemma DecodeEncodedByte(b: byte, rest: string)
    ensures FormDecode(EncodeByte(b) + rest) == Prepend(b, FormDecode(rest))
  {
    var unit := EncodeByte(b);
    var s := unit + rest;
    if IsUnreservedByte(b) {
      assert s[0] == b as char && s[1..] == rest;
    } else if b == Space {
      assert s[0] == '+' && s[1..] == rest;
    } else {
      HexDigitRoundTrip(b / 16);
      HexDigitRoundTrip(b % 16);
      assert s[0] == '%' && s[1] == UpperHexDigits[b / 16] && s[2] == UpperHexDigits[b % 16];
      assert s[3..] == rest;
    }
  }

  /** Decoding the serializer's output gives back exactly the input bytes. */
  lemma {:induction false} DecodeEncode(bs: seq<byte>)
    ensures FormDecode(Encode(bs)) == Some(bs)
    decreases |bs|
  {
    if bs != [] {
      DecodeEncode(bs[1..]);
      DecodeEncodedByte(bs[0], Encode(bs[1..]));
      assert [bs[0]] + bs[1..] == bs;
    }
  }

  /** So the serializer is injective: different inputs never share an encoding. */
  lemma EncodeInjective(a: seq<byte>, b: seq<byte>)
    ensures Encode(a) == Encode(b) ==> a == b
  {
    DecodeEncode(a);
    DecodeEncode(b);
  }

  /** The serializer works byte by byte: encoding a concatenation concatenates the encodings. */
  lemma {:induction false} EncodeConcat(a: seq<byte>, b: seq<byte>)
    ensures Encode(a + b) == Encode(a) + Encode(b)
    decreases |a|
  {
    if a == [] {
      assert a + b == b;
    } else {
      assert (a + b)[1..] == a[1..] + b;
      EncodeConcat(a[1..], b);
    }
  }

  /** Input made only of unreserved bytes is written unchanged, character for byte. */
  lemma {:induction false} EncodeUnreserved(bs: seq<byte>)
    requires forall i | 0 <= i < |bs| :: IsUnreservedByte(bs[i])
    ensures |Encode(bs)| == |bs|
    ensures forall i | 0 <= i < |bs| :: Encode(bs)[i] as int == bs[i]
    decreases |bs|
  {
    if bs != [] {
      EncodeUnreserved(bs[1..]);
    }
  }

  /** Wherever a space is, the encoding has a `+`. */
  lemma EncodeSpace(before: seq<byte>, after: seq<byte>)
    ensures Encode(before + [Space] + after) == Encode(before) + "+" + Encode(after)
  {
    assert [Space][1..] == [];
    var plus := Encode([Space]);
    assert plus == EncodeByte(Space) + Encode([]);
    assert plus == "+";
    EncodeConcat(before, [Space]);
    EncodeConcat(before + [Space], after);
  }

  /** The encoded text holds no `&`, `=` or `?`, so it is one opaque query-parameter value. */
  lemma {:induction false} FormEncodedHasNoDelimiters(s: string)
    requires IsFormEncoded(s)
    ensures '&' !in s && '=' !in s && '?' !in s
    decreases |s|
  {
    if s != [] {
      if IsUnreservedChar(s[0]) || s[0] == '+' {
        FormEncodedHasNoDelimiters(s[1..]);
        assert s == [s[0]] + s[1..];
      } else {
        FormEncodedHasNoDelimiters(s[3..]);
        assert s == s[..3] + s[3..];
      }
    }
  }
}
