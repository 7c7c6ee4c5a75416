/** `encodeURIComponent`, which the search box applies to the query when it builds
    the results address, and its inverse `decodeURIComponent`, both as ECMAScript
    defines them (the abstract operations Encode and Decode of the URI handling
    functions): unreserved characters are copied, every other character is written
    as its UTF-8 bytes, each byte as '%' and two upper-case hexadecimal digits. */
module UriComponent {
  import opened Text

  /** uriUnescaped: ASCII letters, decimal digits and the marks - _ . ! ~ * ' ( ) */
  predicate IsUnreserved(c: char) {
    ('A' <= c <= 'Z') || ('a' <= c <= 'z') || ('0' <= c <= '9')
      || c == '-' || c == '_' || c == '.' || c == '!' || c == '~' || c == '*' || c == '\'' || c == '(' || c == ')'
  }

  /** An upper-case hexadecimal digit, as the encoder writes them. */
  predicate IsHexDigit(c: char) {
    ('0' <= c <= '9') || ('A' <= c <= 'F')
  }

  function HexDigit(d: nat): (c: char)
    requires d < 16
    ensures IsHexDigit(c)
  {
    if d < 10 then ('0' as int + d) as char else ('A' as int + d - 10) as char
  }

  /** The value of a hexadecimal digit of either case. */
  function HexValue(c: char): (r: Option<nat>)
    ensures r.Some? ==> r.value < 16
  {
    if '0' <= c <= '9' then Some(c as int - '0' as int)
    else if 'A' <= c <= 'F' then Some(c as int - 'A' as int + 10)
    else if 'a' <= c <= 'f' then Some(c as int - 'a' as int + 10)
    else None
  }

  newtype Byte = b: int | 0 <= b < 256

  /** One byte as "%XY". */
  function Escape(b: Byte): (r: string)
    ensures |r| == 3 && r[0] == '%' && IsHexDigit(r[1]) && IsHexDigit(r[2])
  {
    ['%', HexDigit(b as int / 16), HexDigit(b as int % 16)]
  }

  /** The UTF-8 encoding of the code point of `c`. */
  function Utf8(c: char): (bs: seq<Byte>)
    ensures 1 <= |bs| <= 4
  {
    var n := c as int;
    if n < 0x80 then [n as Byte]
    else if n < 0x800 then [(0xC0 + n / 64) as Byte, (0x80 + n % 64) as Byte]
    else if n < 0x10000 then [(0xE0 + n / 4096) as Byte, (0x80 + (n / 64) % 64) as Byte, (0x80 + n % 64) as Byte]
    else
      assert n / 262144 <= 4;
      [(0xF0 + n / 262144) as Byte, (0x80 + (n / 4096) % 64) as Byte, (0x80 + (n / 64) % 64) as Byte, (0x80 + n % 64) as Byte]
  }

  function EscapeAll(bs: seq<Byte>): (r: string)
    ensures |r| == 3 * |bs|
  {
    if bs == [] then [] else Escape(bs[0]) + EscapeAll(bs[1..])
  }

  function EncodeChar(c: char): string {
    if IsUnreserved(c) then [c] else EscapeAll(Utf8(c))
  }

  /** encodeURIComponent(s). */
  function Encode(s: string): string {
    if s == [] then [] else EncodeChar(s[0]) + Encode(s[1..])
  }

  /** The byte written as "%XY" at the start of `s`, if there is one. */
  function LeadingByte(s: string): Option<Byte> {
    if 3 <= |s| && s[0] == '%' && HexValue(s[1]).Some? && HexValue(s[2]).Some?
    then Some((16 * HexValue(s[1]).value + HexValue(s[2]).value) as Byte)
    else None
  }

  /** The number of bytes of a UTF-8 sequence announced by its first byte, or 0 when
      the byte cannot start one. */
  function SequenceLength(b: Byte): nat {
    if 0xC0 <= b < 0xE0 then 2
    else if 0xE0 <= b < 0xF0 then 3
    else if 0xF0 <= b < 0xF8 then 4
    else 0
  }

  /** The bits of the first byte of a `len`-byte sequence that mark its length. */
  function LeadMarker(len: nat): int {
    if len == 2 then 0xC0 else if len == 3 then 0xE0 else if len == 4 then 0xF0 else 0
  }

  /** Reads `count` escaped continuation bytes (10xxxxxx) from the start of `s`,
      shifting their six payload bits into `acc`. */
  function Continuations(s: string, count: nat, acc: int): Option<int>
    decreases count
  {
    if count == 0 then Some(acc)
    else match LeadingByte(s)
      case Some(b) =>
        if 0x80 <= b < 0xC0 then Continuations(s[3..], count - 1, acc * 64 + (b as int - 0x80)) else None
      case None => None
  }

  /** A code point the UTF-8 sequence of `len` bytes may encode: not overlong, not a
      surrogate, not beyond U+10FFFF. */
  predicate ValidScalar(cp: int, len: nat) {
    && (len == 2 ==> cp >= 0x80)
    && (len == 3 ==> cp >= 0x800)
    && (len == 4 ==> cp >= 0x10000)
    && cp <= 0x10FFFF && !(0xD800 <= cp < 0xE000)
  }

  function Cons(c: char, r: Option<string>): Option<string> {
    match r
    case Some(t) => Some([c] + t)
    case None => None
  }

  /** The first character `decodeURIComponent` produces from a non-empty `s`, with the
      number of input characters it consumes; None where ECMAScript throws URIError
      (a malformed escape or an invalid UTF-8 sequence). */
  function DecodeHead(s: string): (r: Option<(char, nat)>)
    requires s != []
    ensures r.Some? ==> 0 < r.value.1 <= |s|
  {
    if s[0] != '%' then Some((s[0], 1))
    else match LeadingByte(s)
      case None => None
      case Some(b) =>
        if b < 0x80 then Some((b as int as char, 3))
        else
          var len := SequenceLength(b);
          if len == 0 || |s| < 3 * len then None
          else match Continuations(s[3..], len - 1, b as int - LeadMarker(len))
            case Some(cp) =>
              if ValidScalar(cp, len) then Some((cp as char, 3 * len)) else None
            case None => None
  }

  /** decodeURIComponent(s), None where it throws. */
  function Decode(s: string): Option<string>
    decreases |s|
  {
    if s == [] then Some([])
    else match DecodeHead(s)
      case None => None
      case Some((c, k)) => Cons(c, Decode(s[k..]))
  }

  lemma HexRoundTrip(d: nat)
    requires d < 16
    ensures HexValue(HexDigit(d)) == Some(d)
  {
  }

  lemma LeadingByteOfEscape(b: Byte, rest: string)
    ensures LeadingByte(Escape(b) + rest) == Some(b)
  {
    var s := Escape(b) + rest;
    assert s[0] == '%' && s[1] == HexDigit(b as int / 16) && s[2] == HexDigit(b as int % 16);
    HexRoundTrip(b as int / 16);
    HexRoundTrip(b as int % 16);
  }

  lemma EscapeAllCons(bs: seq<Byte>, rest: string)
    requires bs != []
    ensures EscapeAll(bs) + rest == Escape(bs[0]) + (EscapeAll(bs[1..]) + rest)
  {
    assert EscapeAll(bs) == Escape(bs[0]) + EscapeAll(bs[1..]);
  }

  lemma DropEscape(b: Byte, tail: string)
    ensures (Escape(b) + tail)[3..] == tail
  {
  }

  /** The value obtained by shifting the payload bits of continuation bytes into `acc`. */
  function Payload(bs: seq<Byte>, acc: int): int
    decreases |bs|
  {
    if bs == [] then acc else Payload(bs[1..], acc * 64 + (bs[0] as int - 0x80))
  }

  lemma {:induction false} ContinuationsOf(bs: seq<Byte>, rest: string, acc: int)
    requires forall j :: 0 <= j < |bs| ==> 0x80 <= bs[j] < 0xC0
    ensures Continuations(EscapeAll(bs) + rest, |bs|, acc) == Some(Payload(bs, acc))
    decreases |bs|
  {
    if bs != [] {
      var tail := EscapeAll(bs[1..]) + rest;
      var acc' := acc * 64 + (bs[0] as int - 0x80);
      EscapeAllCons(bs, rest);
      ContinuationStep(bs[0], tail, |bs|, acc);
      ContinuationsOf(bs[1..], rest, acc');
    }
  }

  /** An escaped continuation byte adds its six payload bits and is consumed. */
  lemma ContinuationStep(b: Byte, tail: string, count: nat, acc: int)
    requires 0x80 <= b < 0xC0 && 0 < count
    ensures Continuations(Escape(b) + tail, count, acc) == Continuations(tail, count - 1, acc * 64 + (b as int - 0x80))
  {
    DropEscape(b, tail);
    LeadingByteOfEscape(b, tail);
  }

  lemma DivDiv4096(n: int)
    requires 0 <= n
    ensures (n / 64) / 64 == n / 4096
  {
    var q, r := n / 4096, n % 4096;
    assert n == 4096 * q + r && 0 <= r < 4096;
    assert n / 64 == 64 * q + r / 64;
  }

  lemma DivDiv262144(n: int)
    requires 0 <= n
    ensures (n / 4096) / 64 == n / 262144
  {
    var q, r := n / 262144, n % 262144;
    assert n == 262144 * q + r && 0 <= r < 262144;
    assert n / 4096 == 64 * q + r / 4096;
  }

  lemma TwoBytes(n: int)
    requires 0 <= n
    ensures Payload([(0x80 + n % 64) as Byte], n / 64) == n
  {
    assert [(0x80 + n % 64) as Byte][1..] == [];
  }

  lemma ThreeBytes(n: int)
    requires 0 <= n
    ensures Payload([(0x80 + (n / 64) % 64) as Byte, (0x80 + n % 64) as Byte], n / 4096) == n
  {
    DivDiv4096(n);
    var m := n / 64;
    assert m / 64 * 64 + m % 64 == m;
    assert [(0x80 + m % 64) as Byte, (0x80 + n % 64) as Byte][1..] == [(0x80 + n % 64) as Byte];
    TwoBytes(n);
  }

  lemma FourBytes(n: int)
    requires 0 <= n
    ensures Payload([(0x80 + (n / 4096) % 64) as Byte, (0x80 + (n / 64) % 64) as Byte, (0x80 + n % 64) as Byte], n / 262144) == n
  {
    DivDiv262144(n);
    var m := n / 4096;
    assert m / 64 * 64 + m % 64 == m;
    assert [(0x80 + m % 64) as Byte, (0x80 + (n / 64) % 64) as Byte, (0x80 + n % 64) as Byte][1..]
      == [(0x80 + (n / 64) % 64) as Byte, (0x80 + n % 64) as Byte];
    ThreeBytes(n);
  }

  /** The escapes of a well-formed multi-byte sequence for `c` (its lead byte and its
      continuation bytes) decode to `c`. */
  lemma HeadOfSequence(lead: Byte, conts: seq<Byte>, rest: string, c: char)
    requires 1 <= |conts| <= 3 && SequenceLength(lead) == |conts| + 1
    requires forall j :: 0 <= j < |conts| ==> 0x80 <= conts[j] < 0xC0
    requires Payload(conts, lead as int - LeadMarker(|conts| + 1)) == c as int
    requires ValidScalar(c as int, |conts| + 1)
    ensures DecodeHead(Escape(lead) + (EscapeAll(conts) + rest)) == Some((c, 3 * (|conts| + 1)))
  {
    var tail := EscapeAll(conts) + rest;
    var s := Escape(lead) + tail;
    LeadingByteOfEscape(lead, tail);
    assert s[3..] == tail;
    ContinuationsOf(conts, rest, lead as int - LeadMarker(|conts| + 1));
  }

  lemma EscapeAllLead(lead: Byte, conts: seq<Byte>, rest: string)
    ensures EscapeAll([lead] + conts) + rest == Escape(lead) + (EscapeAll(conts) + rest)
  {
    assert ([lead] + conts)[1..] == conts;
  }

  /** The escapes of one encoded character decode to that character, and use up
      exactly the encoding. */
  lemma HeadOfEncodedChar(c: char, rest: string)
    ensures EncodeChar(c) != []
    ensures DecodeHead(EncodeChar(c) + rest) == Some((c, |EncodeChar(c)|))
  {
    var n := c as int;
    if IsUnreserved(c) {
    } else if n < 0x80 {
      HeadOfOneByte(c, rest);
    } else if n < 0x800 {
      HeadOfTwoBytes(c, rest);
    } else if n < 0x10000 {
      HeadOfThreeBytes(c, rest);
    } else {
      HeadOfFourBytes(c, rest);
    }
  }

  lemma HeadOfOneByte(c: char, rest: string)
    requires !IsUnreserved(c) && c as int < 0x80
    ensures DecodeHead(EncodeChar(c) + rest) == Some((c, |EncodeChar(c)|))
  {
    var b := c as int as Byte;
    assert Utf8(c) == [b];
    assert EncodeChar(c) == Escape(b) by {
      EscapeAllLead(b, [], []);
    }
    LeadingByteOfEscape(b, rest);
  }

  lemma HeadOfTwoBytes(c: char, rest: string)
    requires !IsUnreserved(c) && 0x80 <= c as int < 0x800
    ensures DecodeHead(EncodeChar(c) + rest) == Some((c, |EncodeChar(c)|))
  {
    var n := c as int;
    var lead, conts := (0xC0 + n / 64) as Byte, [(0x80 + n % 64) as Byte];
    assert Utf8(c) == [lead] + conts;
    EscapeAllLead(lead, conts, rest);
    TwoBytes(n);
    HeadOfSequence(lead, conts, rest, c);
  }

  lemma HeadOfThreeBytes(c: char, rest: string)
    requires !IsUnreserved(c) && 0x800 <= c as int < 0x10000
    ensures DecodeHead(EncodeChar(c) + rest) == Some((c, |EncodeChar(c)|))
  {
    var n := c as int;
    var lead, conts := (0xE0 + n / 4096) as Byte, [(0x80 + (n / 64) % 64) as Byte, (0x80 + n % 64) as Byte];
    assert Utf8(c) == [lead] + conts;
    EscapeAllLead(lead, conts, rest);
    ThreeBytes(n);
    HeadOfSequence(lead, conts, rest, c);
  }

  lemma HeadOfFourBytes(c: char, rest: string)
    requires 0x10000 <= c as int
    ensures DecodeHead(EncodeChar(c) + rest) == Some((c, |EncodeChar(c)|))
  {
    var n := c as int;
    assert n / 262144 <= 4;
    var lead := (0xF0 + n / 262144) as Byte;
    var conts := [(0x80 + (n / 4096) % 64) as Byte, (0x80 + (n / 64) % 64) as Byte, (0x80 + n % 64) as Byte];
    assert Utf8(c) == [lead] + conts;
    EscapeAllLead(lead, conts, rest);
    FourBytes(n);
    HeadOfSequence(lead, conts, rest, c);
  }

  /** Decoding the escapes of one encoded character gives back that character. */
  lemma DecodeEncodedChar(c: char, rest: string)
    ensures Decode(EncodeChar(c) + rest) == Cons(c, Decode(rest))
  {
    HeadOfEncodedChar(c, rest);
    assert (EncodeChar(c) + rest)[|EncodeChar(c)|..] == rest;
  }

  /** decodeURIComponent undoes encodeURIComponent on every string. */
  lemma {:induction false} DecodeEncode(s: string)
    ensures Decode(Encode(s)) == Some(s)
  {
    if s != [] {
      DecodeEncode(s[1..]);
      DecodeCons(s[0], s[1..]);
      assert [s[0]] + s[1..] == s;
    }
  }

  /** Prepending one character keeps the round trip. */
  lemma DecodeCons(c: char, tail: string)
    requires Decode(Encode(tail)) == Some(tail)
    ensures Decode(Encode([c] + tail)) == Some([c] + tail)
  {
    assert ([c] + tail)[1..] == tail;
    assert Encode([c] + tail) == EncodeChar(c) + Encode(tail);
    DecodeEncodedChar(c, Encode(tail));
  }

  /** What the encoding can contain: unreserved characters, '%' and upper-case hex digits;
      in particular no '&', '=', '#', '+' or space, so the encoded query is one parameter
      value of a URL and no separator. */
  lemma {:induction false} EncodedAlphabet(s: string)
    ensures forall i :: 0 <= i < |Encode(s)| ==> IsUnreserved(Encode(s)[i]) || Encode(s)[i] == '%' || IsHexDigit(Encode(s)[i])
  {
    if s != [] {
      EncodedAlphabet(s[1..]);
      var e := EncodeChar(s[0]);
      if !IsUnreserved(s[0]) {
        EscapeAllAlphabet(Utf8(s[0]));
      }
      assert Encode(s) == e + Encode(s[1..]);
    }
  }

  lemma {:induction false} EscapeAllAlphabet(bs: seq<Byte>)
    ensures forall i :: 0 <= i < |EscapeAll(bs)| ==> EscapeAll(bs)[i] == '%' || IsHexDigit(EscapeAll(bs)[i])
  {
    if bs != [] {
      EscapeAllAlphabet(bs[1..]);
    }
  }

  /** A string made of unreserved characters only is its own encoding. */
  lemma {:induction false} UnreservedUnchanged(s: string)
    requires forall i :: 0 <= i < |s| ==> IsUnreserved(s[i])
    ensures Encode(s) == s
  {
    if s != [] {
      UnreservedUnchanged(s[1..]);
    }
  }
}
