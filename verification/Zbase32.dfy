/** The endpoint-id encoding of internal/iroh/z32.go: hex in, z-base-32 out, over the bit packing of
    section 6 of RFC 4648 without padding. `Decode` is the inverse that makes the encoding a name.
 */
module Zbase32 {
  import opened Ordering

  type Byte = b: int | 0 <= b < 256

  // ----- Bits, most significant first -----

  function Bits(n: nat, width: nat): (r: seq<bool>)
    ensures |r| == width
  {
    if width == 0 then [] else Bits(n / 2, width - 1) + [n % 2 == 1]
  }

  function Value(bits: seq<bool>): nat
  {
    if bits == [] then 0
    else 2 * Value(bits[..|bits| - 1]) + if bits[|bits| - 1] then 1 else 0
  }

  function Pow2(n: nat): nat { if n == 0 then 1 else 2 * Pow2(n - 1) }

  lemma {:induction false} BitsRoundTrip(n: nat, width: nat)
    requires n < Pow2(width)
    ensures Value(Bits(n, width)) == n
  {
    if width > 0 {
      BitsRoundTrip(n / 2, width - 1);
      assert Bits(n, width)[..width - 1] == Bits(n / 2, width - 1);
    }
  }

  lemma {:induction false} ValueRoundTrip(bits: seq<bool>)
    ensures Value(bits) < Pow2(|bits|) && Bits(Value(bits), |bits|) == bits
  {
    if bits != [] {
      var n := |bits| - 1;
      ValueRoundTrip(bits[..n]);
      assert bits == bits[..n] + [bits[n]];
      assert Value(bits) / 2 == Value(bits[..n]);
    }
  }

  lemma Pow2s()
    ensures Pow2(5) == 32 && Pow2(8) == 256
  {
    assert Pow2(3) == 8;
    assert Pow2(6) == 64;
  }

  function Zeros(n: nat): (r: seq<bool>)
    ensures |r| == n
  {
    seq(n, _ => false)
  }

  function BytesToBits(bytes: seq<Byte>): (r: seq<bool>)
    ensures |r| == 8 * |bytes|
  {
    if bytes == [] then [] else Bits(bytes[0], 8) + BytesToBits(bytes[1..])
  }

  /** Whole bytes only; fewer than eight trailing bits are dropped. */
  function BitsToBytes(bits: seq<bool>): seq<Byte>
  {
    if |bits| < 8 then []
    else
      ValueRoundTrip(bits[..8]); Pow2s();
      [Value(bits[..8])] + BitsToBytes(bits[8..])
  }

  lemma {:induction false} BytesRoundTrip(bytes: seq<Byte>, tail: seq<bool>)
    requires |tail| < 8
    ensures BitsToBytes(BytesToBits(bytes) + tail) == bytes
  {
    if bytes == [] {
      assert BytesToBits(bytes) + tail == tail;
    } else {
      var all := BytesToBits(bytes) + tail;
      assert all[..8] == Bits(bytes[0], 8) && all[8..] == BytesToBits(bytes[1..]) + tail;
      Pow2s();
      BitsRoundTrip(bytes[0], 8);
      BytesRoundTrip(bytes[1..], tail);
    }
  }

  // ----- The alphabet -----

  const ALPHABET := "ybndrfg8ejkmcpqxot1uwisza345h769"

  function IndexFrom(c: char, i: nat): nat
    requires i <= 32
    decreases 32 - i
  {
    if i == 32 then 0 else if ALPHABET[i] == c then i else IndexFrom(c, i + 1)
  }

  lemma AlphabetIsDistinct(i: nat, j: nat)
    requires i < j < 32
    ensures ALPHABET[i] != ALPHABET[j]
  {
  }

  lemma {:induction false} IndexFinds(v: nat, i: nat)
    requires i <= v < 32
    ensures IndexFrom(ALPHABET[v], i) == v
    decreases v - i
  {
    if i < v {
      AlphabetIsDistinct(i, v);
      IndexFinds(v, i + 1);
    }
  }

  // ----- z-base-32 -----

  function Symbol(bits: seq<bool>): char
    requires |bits| == 5
  {
    ValueRoundTrip(bits); Pow2s();
    ALPHABET[Value(bits)]
  }

  function EncodeBits(bits: seq<bool>): string
  {
    if bits == [] then ""
    else if |bits| < 5 then [Symbol(bits + Zeros(5 - |bits|))]
    else [Symbol(bits[..5])] + EncodeBits(bits[5..])
  }

  function DecodeBits(s: string): seq<bool>
  {
    if s == [] then [] else Bits(IndexFrom(s[0], 0), 5) + DecodeBits(s[1..])
  }

  function Encode(bytes: seq<Byte>): string { EncodeBits(BytesToBits(bytes)) }

  function Decode(s: string): seq<Byte> { BitsToBytes(DecodeBits(s)) }

  lemma SymbolRoundTrip(bits: seq<bool>)
    requires |bits| == 5
    ensures Bits(IndexFrom(Symbol(bits), 0), 5) == bits
  {
    ValueRoundTrip(bits);
    Pow2s();
    IndexFinds(Value(bits), 0);
  }

  lemma DecodeChunk(chunk: seq<bool>, rest: string)
    requires |chunk| == 5
    ensures DecodeBits([Symbol(chunk)] + rest) == chunk + DecodeBits(rest)
  {
    SymbolRoundTrip(chunk);
    var s := [Symbol(chunk)] + rest;
    assert s[1..] == rest;
  }

  lemma EncodedShort(bits: seq<bool>)
    requires 0 < |bits| < 5
    ensures |EncodeBits(bits)| == 1 && DecodeBits(EncodeBits(bits)) == bits + Zeros(5 - |bits|)
  {
    var chunk := bits + Zeros(5 - |bits|);
    DecodeChunk(chunk, []);
    assert [Symbol(chunk)] + [] == [Symbol(chunk)] && chunk + DecodeBits([]) == chunk;
  }

  lemma EncodedLong(head: seq<bool>, tail: seq<bool>, fill: nat)
    requires |head| == 5 && DecodeBits(EncodeBits(tail)) == tail + Zeros(fill)
    ensures EncodeBits(head + tail) == [Symbol(head)] + EncodeBits(tail)
    ensures DecodeBits(EncodeBits(head + tail)) == head + tail + Zeros(fill)
  {
    assert (head + tail)[..5] == head && (head + tail)[5..] == tail;
    DecodeChunk(head, EncodeBits(tail));
    assert head + (tail + Zeros(fill)) == head + tail + Zeros(fill);
  }

  lemma {:induction false} EncodedLength(bits: seq<bool>)
    ensures |EncodeBits(bits)| == (|bits| + 4) / 5
  {
    if |bits| >= 5 { EncodedLength(bits[5..]); }
  }

  /** What is missing to a multiple of five. */
  function Fill(n: nat): nat { if n % 5 == 0 then 0 else 5 - n % 5 }

  lemma FillIs(n: nat)
    ensures 0 < n < 5 ==> Fill(n) == 5 - n
    ensures n >= 5 ==> Fill(n) == Fill(n - 5)
  {
  }

  /** Decoding gives back the bits, followed by the zeros that filled the last symbol. */
  lemma {:induction false} EncodedBits(bits: seq<bool>)
    ensures DecodeBits(EncodeBits(bits)) == bits + Zeros(Fill(|bits|))
  {
    FillIs(|bits|);
    if bits == [] {
      assert bits + Zeros(0) == bits;
    } else if |bits| < 5 {
      EncodedShort(bits);
    } else {
      var head, tail := bits[..5], bits[5..];
      assert bits == head + tail;
      EncodedBits(tail);
      EncodedLong(head, tail, Fill(|bits|));
    }
  }

  /** z-base-32 loses nothing, for byte strings of every length. */
  lemma EncodeRoundTrip(bytes: seq<Byte>)
    ensures Decode(Encode(bytes)) == bytes
    ensures |Encode(bytes)| == (8 * |bytes| + 4) / 5
  {
    var bits := BytesToBits(bytes);
    EncodedBits(bits);
    EncodedLength(bits);
    BytesRoundTrip(bytes, Zeros(Fill(|bits|)));
  }

  lemma SymbolInAlphabet(bits: seq<bool>)
    requires |bits| == 5
    ensures Symbol(bits) in ALPHABET
  {
    ValueRoundTrip(bits);
    Pow2s();
  }

  lemma {:induction false} EncodeUsesAlphabet(bits: seq<bool>)
    ensures forall i :: 0 <= i < |EncodeBits(bits)| ==> EncodeBits(bits)[i] in ALPHABET
  {
    if |bits| >= 5 {
      SymbolInAlphabet(bits[..5]);
      EncodeUsesAlphabet(bits[5..]);
    } else if bits != [] {
      SymbolInAlphabet(bits + Zeros(5 - |bits|));
    }
  }

  // ----- Hex -----

  function HexDigit(c: char): Option<int>
  {
    if '0' <= c <= '9' then Some(c as int - '0' as int)
    else if 'a' <= c <= 'f' then Some(10 + c as int - 'a' as int)
    else if 'A' <= c <= 'F' then Some(10 + c as int - 'A' as int)
    else None
  }

  function HexDecode(s: string): (r: Option<seq<Byte>>)
    ensures r.Some? <==> |s| % 2 == 0 && forall i :: 0 <= i < |s| ==> HexDigit(s[i]).Some?
    ensures r.Some? ==> |s| == 2 * |r.value|
  {
    if s == [] then Some([])
    else if |s| == 1 then None
    else
      assert s == [s[0], s[1]] + s[2..];
      var rest := HexDecode(s[2..]);
      if HexDigit(s[0]).None? || HexDigit(s[1]).None? || rest.None? then None
      else Some([16 * HexDigit(s[0]).value + HexDigit(s[1]).value] + rest.value)
  }

  const ENDPOINT_ID_BYTES := 32

  function EndpointHexToZ32(hex: string): Option<string>
  {
    var b := HexDecode(hex);
    if b.None? || |b.value| != ENDPOINT_ID_BYTES then None else Some(Encode(b.value))
  }

  function RecordSetName(z32: string): string { "iroh-" + z32 }

  /** An id is either refused, exactly when it is not 64 hex digits, or gets 52 alphabet characters
      that decode back to its 32 bytes. */
  lemma EndpointNameIsFaithful(hex: string)
    ensures EndpointHexToZ32(hex).Some? <==> |hex| == 64 && forall i :: 0 <= i < 64 ==> HexDigit(hex[i]).Some?
    ensures EndpointHexToZ32(hex).Some? ==>
      var z := EndpointHexToZ32(hex).value;
      && |z| == 52 && (forall i :: 0 <= i < 52 ==> z[i] in ALPHABET)
      && Some(Decode(z)) == HexDecode(hex)
  {
    var b := HexDecode(hex);
    if b.Some? && |b.value| == 32 {
      EncodeRoundTrip(b.value);
      EncodeUsesAlphabet(BytesToBits(b.value));
    }
  }

  /** Two accepted ids share a record name exactly when they decode to the same bytes. */
  lemma SameNameSameBytes(hex: string, hex': string)
    requires EndpointHexToZ32(hex).Some? && EndpointHexToZ32(hex').Some?
    ensures RecordSetName(EndpointHexToZ32(hex).value) == RecordSetName(EndpointHexToZ32(hex').value)
       <==> HexDecode(hex) == HexDecode(hex')
  {
    EndpointNameIsFaithful(hex);
    EndpointNameIsFaithful(hex');
    assert RecordSetName(EndpointHexToZ32(hex).value)[5..] == EndpointHexToZ32(hex).value;
    assert RecordSetName(EndpointHexToZ32(hex').value)[5..] == EndpointHexToZ32(hex').value;
  }

  // ----- Bit by bit -----

  /** The value of a hex digit, either case. */
  predicate HexPosition(c: char, v: nat) { v < 16 && (c == "0123456789abcdef"[v] || c == "0123456789ABCDEF"[v]) }

  /** The value of a symbol of Zooko's alphabet. */
  predicate ZPosition(c: char, v: nat) { v < 32 && c == "ybndrfg8ejkmcpqxot1uwisza345h769"[v] }

  lemma LowerDigit(v: nat)
    requires v < 16
    ensures HexDigit("0123456789abcdef"[v]) == Some(v)
  {
  }

  lemma UpperDigit(v: nat)
    requires v < 16
    ensures HexDigit("0123456789ABCDEF"[v]) == Some(v)
  {
  }

  lemma HexDigitIs(c: char, v: nat)
    ensures HexDigit(c) == Some(v) <==> HexPosition(c, v)
  {
    if v < 16 {
      LowerDigit(v);
      UpperDigit(v);
    }
  }

  lemma {:induction false} BitsSplit(a: nat, b: nat, n: nat, m: nat)
    requires b < Pow2(m)
    ensures Bits(Pow2(m) * a + b, n + m) == Bits(a, n) + Bits(b, m)
  {
    if m == 0 {
      assert Bits(a, n) + [] == Bits(a, n);
    } else {
      assert (Pow2(m) * a + b) / 2 == Pow2(m - 1) * a + b / 2 && (Pow2(m) * a + b) % 2 == b % 2 by {
        assert Pow2(m) * a == 2 * (Pow2(m - 1) * a);
      }
      BitsSplit(a, b / 2, n, m - 1);
    }
  }

  /** One piece of bits for each element. */
  function Spread<T>(s: seq<T>, f: T -> seq<bool>): seq<bool> { if s == [] then [] else f(s[0]) + Spread(s[1..], f) }

  lemma {:induction false} SpreadBit<T(!new)>(s: seq<T>, f: T -> seq<bool>, w: nat, i: nat, j: nat)
    requires i < |s| && j < w && forall x :: |f(x)| == w
    ensures w * i + j < |Spread(s, f)| && Spread(s, f)[w * i + j] == f(s[i])[j]
  {
    if i > 0 {
      SpreadBit(s[1..], f, w, i - 1, j);
      assert w * i == w * (i - 1) + w;
    }
  }

  function ByteBits(): Byte -> seq<bool> { (b: Byte) => Bits(b, 8) }

  function SymbolBits(): char -> seq<bool> { c => Bits(IndexFrom(c, 0), 5) }

  lemma {:induction false} BytesAreSpread(bytes: seq<Byte>)
    ensures BytesToBits(bytes) == Spread(bytes, ByteBits())
  {
    if bytes != [] { BytesAreSpread(bytes[1..]); }
  }

  lemma {:induction false} SymbolsAreSpread(s: string)
    ensures DecodeBits(s) == Spread(s, SymbolBits())
  {
    if s != [] { SymbolsAreSpread(s[1..]); }
  }

  lemma PieceLengths()
    ensures (forall b: Byte :: |ByteBits()(b)| == 8) && forall c :: |SymbolBits()(c)| == 5
  {
  }

  lemma ByteBit(bytes: seq<Byte>, i: nat, j: nat)
    requires i < |bytes| && j < 8
    ensures |ByteBits()(bytes[i])| == 8 && BytesToBits(bytes)[8 * i + j] == ByteBits()(bytes[i])[j]
  {
    PieceLengths();
    BytesAreSpread(bytes);
    SpreadBit(bytes, ByteBits(), 8, i, j);
  }

  lemma DecodedBit(s: string, i: nat, j: nat)
    requires i < |s| && j < 5
    ensures 5 * i + j < |DecodeBits(s)| && |SymbolBits()(s[i])| == 5 && DecodeBits(s)[5 * i + j] == SymbolBits()(s[i])[j]
  {
    PieceLengths();
    SymbolsAreSpread(s);
    SpreadBit(s, SymbolBits(), 5, i, j);
  }

  // Hex digits

  lemma {:induction false} HexByte(s: string, i: nat)
    requires HexDecode(s).Some? && 2 * i + 1 < |s|
    ensures HexDigit(s[2 * i]).Some? && HexDigit(s[2 * i + 1]).Some?
    ensures HexDecode(s).value[i] == 16 * HexDigit(s[2 * i]).value + HexDigit(s[2 * i + 1]).value
  {
    if i > 0 { HexByte(s[2..], i - 1); }
  }

  lemma ByteHalves(hi: nat, lo: nat)
    requires hi < 16 && lo < 16
    ensures ByteBits()(16 * hi + lo) == Bits(hi, 4) + Bits(lo, 4)
  {
    assert Pow2(4) == 16;
    BitsSplit(hi, lo, 4, 4);
  }

  lemma HalfBit(bytes: seq<Byte>, d: nat, b: nat, hi: seq<bool>, lo: seq<bool>)
    requires d / 2 < |bytes| && b < 4 && |hi| == 4 && |lo| == 4 && ByteBits()(bytes[d / 2]) == hi + lo
    ensures BytesToBits(bytes)[4 * d + b] == (if d % 2 == 0 then hi else lo)[b]
  {
    var j := if d % 2 == 0 then b else 4 + b;
    ByteBit(bytes, d / 2, j);
    assert 4 * d + b == 8 * (d / 2) + j;
  }

  lemma DigitsAt(hex: string, d: nat, h: nat) returns (hi: nat, lo: nat)
    requires HexDecode(hex).Some? && d < |hex| && HexPosition(hex[d], h)
    ensures hi < 16 && lo < 16 && d / 2 < |HexDecode(hex).value| && HexDecode(hex).value[d / 2] == 16 * hi + lo
    ensures h == if d % 2 == 0 then hi else lo
  {
    var i := d / 2;
    HexByte(hex, i);
    HexDigitIs(hex[d], h);
    hi, lo := HexDigit(hex[2 * i]).value, HexDigit(hex[2 * i + 1]).value;
  }

  /** Bit `b` of hex digit `d` of an id. */
  lemma IdBit(hex: string, d: nat, b: nat, h: nat, half: seq<bool>)
    requires HexDecode(hex).Some? && d < |hex| && b < 4 && HexPosition(hex[d], h) && half == Bits(h, 4)
    ensures 4 * d + b < 8 * |HexDecode(hex).value| && BytesToBits(HexDecode(hex).value)[4 * d + b] == half[b]
  {
    var bytes := HexDecode(hex).value;
    var hi, lo := DigitsAt(hex, d, h);
    ByteHalves(hi, lo);
    HalfBit(bytes, d, b, Bits(hi, 4), Bits(lo, 4));
  }

  // Symbols

  lemma SymbolPosition(c: char, v: nat)
    requires ZPosition(c, v)
    ensures SymbolBits()(c) == Bits(v, 5)
  {
    assert c == ALPHABET[v];
    IndexFinds(v, 0);
  }

  lemma ZeroPadded(bits: seq<bool>, decoded: seq<bool>, fill: nat, n: nat)
    requires decoded == bits + Zeros(fill) && n < |decoded|
    ensures decoded[n] == (n < |bits| && bits[n])
  {
  }

  /** The symbols spell the bits, five to a symbol, followed by zeros. */
  lemma SpelledBit(bits: seq<bool>, z: string, fill: nat, i: nat, j: nat)
    requires DecodeBits(z) == bits + Zeros(fill) && i < |z| && j < 5
    ensures |SymbolBits()(z[i])| == 5 && SymbolBits()(z[i])[j] == (5 * i + j < |bits| && bits[5 * i + j])
  {
    DecodedBit(z, i, j);
    ZeroPadded(bits, DecodeBits(z), fill, 5 * i + j);
  }

  /** The name spells the id's 256 bits, most significant first, five to a symbol: bit `j` of symbol `i` is the bit `b`
      of hex digit `d` in the same place, and zero after the last. */
  lemma NameSpellsBits(hex: string, i: nat, j: nat, v: nat, d: nat, b: nat, h: nat)
    requires EndpointHexToZ32(hex).Some? && i < |EndpointHexToZ32(hex).value| && j < 5 && ZPosition(EndpointHexToZ32(hex).value[i], v)
    requires 5 * i + j == 4 * d + b && b < 4 && (d < |hex| ==> HexPosition(hex[d], h))
    ensures Bits(v, 5)[j] == (d < 64 && Bits(h, 4)[b])
  {
    var z := EndpointHexToZ32(hex).value;
    var bits := BytesToBits(HexDecode(hex).value);
    EncodedBits(bits);
    SpelledBit(bits, z, Fill(|bits|), i, j);
    SymbolPosition(z[i], v);
    if d < |hex| { IdBit(hex, d, b, h, Bits(h, 4)); }
  }
}
