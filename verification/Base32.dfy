/**
The unpadded Base32 of section 6 of RFC 4648, as `encode_base32` computes it through a 32-bit
buffer that is shifted and never cleared, and the decoder the tests read it back with.

The reference definition is on bit strings: the symbols, five bits each, spell the octets, eight
bits each, followed by the fewest zero bits that fill the last symbol.
*/
module Base32 {
  import opened Bytes

  const U32: int := 0x1_0000_0000

  type Bits = seq<bool>

  function Pow2(n: nat): (r: nat)
    ensures r > 0
  {
    if n == 0 then 1 else 2 * Pow2(n - 1)
  }

  /** The low `width` bits of a number, most significant first. */
  function ToBits(v: nat, width: nat): (b: Bits)
    ensures |b| == width
  {
    if width == 0 then [] else ToBits(v / 2, width - 1) + [v % 2 == 1]
  }

  /** The numbers written out one after the other, `width` bits each. */
  function Spell(values: seq<nat>, width: nat): (b: Bits)
    ensures |b| == width * |values|
  {
    if values == [] then [] else Spell(values[..|values| - 1], width) + ToBits(values[|values| - 1], width)
  }

  function Zeros(n: nat): Bits {
    seq(n, _ => false)
  }

  predicate Below(values: seq<nat>, bound: nat) {
    forall i :: 0 <= i < |values| ==> values[i] < bound
  }

  // ---------------------------------------------------------------------------------------------
  // Numbers and their bits
  // ---------------------------------------------------------------------------------------------

  lemma {:induction false} ConcatBits(high: nat, low: nat, w: nat, k: nat)
    requires low < Pow2(k)
    ensures ToBits(high * Pow2(k) + low, w + k) == ToBits(high, w) + ToBits(low, k)
  {
    if k > 0 {
      var v := high * Pow2(k) + low;
      assert v / 2 == high * Pow2(k - 1) + low / 2 && v % 2 == low % 2 by {
        assert high * Pow2(k) == 2 * (high * Pow2(k - 1));
      }
      ConcatBits(high, low / 2, w, k - 1);
    } else {
      assert high * Pow2(0) == high;
      assert ToBits(high, w) + [] == ToBits(high, w);
    }
  }

  lemma {:induction false} BitsDetermine(a: nat, b: nat, w: nat)
    requires a < Pow2(w) && b < Pow2(w) && ToBits(a, w) == ToBits(b, w)
    ensures a == b
  {
    if w > 0 {
      assert ToBits(a, w)[..w - 1] == ToBits(a / 2, w - 1);
      assert ToBits(b, w)[..w - 1] == ToBits(b / 2, w - 1);
      assert ToBits(a, w)[w - 1] == ToBits(b, w)[w - 1];
      BitsDetermine(a / 2, b / 2, w - 1);
    }
  }

  lemma {:induction false} SpellingDetermines(a: seq<nat>, b: seq<nat>, w: nat)
    requires |a| == |b| && Below(a, Pow2(w)) && Below(b, Pow2(w)) && Spell(a, w) == Spell(b, w)
    ensures a == b
  {
    if a != [] {
      var n := |a| - 1;
      assert Spell(a, w)[..w * n] == Spell(a[..n], w) && Spell(a, w)[w * n..] == ToBits(a[n], w);
      assert Spell(b, w)[..w * n] == Spell(b[..n], w) && Spell(b, w)[w * n..] == ToBits(b[n], w);
      SpellingDetermines(a[..n], b[..n], w);
      BitsDetermine(a[n], b[n], w);
      assert a == a[..n] + [a[n]] && b == b[..n] + [b[n]];
    }
  }

  lemma SpellOneMore(values: seq<nat>, v: nat, w: nat)
    ensures Spell(values + [v], w) == Spell(values, w) + ToBits(v, w)
  {
    assert (values + [v])[..|values|] == values;
  }

  lemma Powers()
    ensures Pow2(0) == 1 && Pow2(1) == 2 && Pow2(2) == 4 && Pow2(3) == 8 && Pow2(4) == 16 && Pow2(5) == 32
    ensures Pow2(6) == 64 && Pow2(7) == 128 && Pow2(8) == 256 && Pow2(9) == 512 && Pow2(10) == 1024
    ensures Pow2(11) == 2048 && Pow2(12) == 4096
  {
    assert Pow2(6) == 64;
    assert Pow2(12) == 64 * Pow2(6);
  }

  // ---------------------------------------------------------------------------------------------
  // The buffer
  // ---------------------------------------------------------------------------------------------

  /** The bits waiting in the buffer are its low ones, whatever lies above them. */
  lemma {:induction false} HighBitsIgnored(v: nat, m: nat, w: nat)
    ensures ToBits(v + m * Pow2(w), w) == ToBits(v, w)
  {
    if w > 0 {
      assert m * Pow2(w) == 2 * (m * Pow2(w - 1));
      HighBitsIgnored(v / 2, m, w - 1);
    }
  }

  /** A logical shift to the right. */
  function ShiftRight(v: nat, n: nat): nat {
    if n == 0 then v else ShiftRight(v / 2, n - 1)
  }

  lemma {:induction false} SplitBits(v: nat, a: nat, b: nat)
    ensures ToBits(v, a + b) == ToBits(ShiftRight(v, b), a) + ToBits(v, b)
  {
    if b > 0 {
      SplitBits(v / 2, a, b - 1);
    } else {
      assert ToBits(v, a) + [] == ToBits(v, a);
    }
  }

  /** The top waiting bits are read off by shifting and masking. */
  lemma ReadOff(buf: nat, bits: nat, k: nat)
    requires k <= bits && k in {5, 8}
    ensures var v := ShiftRight(buf, bits - k) % (if k == 5 then 0x20 else 0x100);
      ToBits(buf, bits) == ToBits(v, k) + ToBits(buf, bits - k)
  {
    SplitBits(buf, k, bits - k);
    MaskBits(ShiftRight(buf, bits - k));
  }

  lemma MaskBits(v: nat)
    ensures ToBits(v % 0x20, 5) == ToBits(v, 5) && ToBits(v % 0x100, 8) == ToBits(v, 8)
  {
    hide ToBits;
    Powers();
    HighBitsIgnored(v % 0x20, v / 0x20, 5);
    HighBitsIgnored(v % 0x100, v / 0x100, 8);
  }

  lemma {:induction false} PowSplit(a: nat, b: nat)
    ensures Pow2(a) * Pow2(b) == Pow2(a + b)
  {
    if b > 0 {
      PowSplit(a, b - 1);
      assert Pow2(a) * Pow2(b) == 2 * (Pow2(a) * Pow2(b - 1));
    }
  }

  lemma WordIsPow()
    ensures Pow2(32) == U32
  {
    Powers();
    PowSplit(8, 8);
    PowSplit(16, 16);
  }

  /** Shifting a value in: the bits lost beyond the 32nd were not waiting. */
  lemma ShiftIn(buf: nat, bits: nat, v: nat, k: nat)
    requires bits + k <= 32 && v < Pow2(k)
    ensures ToBits(buf * Pow2(k) % U32 + v, bits + k) == ToBits(buf, bits) + ToBits(v, k)
  {
    hide ToBits;
    ConcatBits(buf, v, bits, k);
    DropHigh(buf * Pow2(k), v, bits + k);
  }

  lemma DropHigh(word: nat, v: nat, w: nat)
    requires w <= 32
    ensures ToBits(word % U32 + v, w) == ToBits(word + v, w)
  {
    hide ToBits;
    var lost := word / U32;
    WordIsPow();
    PowSplit(32 - w, w);
    Reassociate(lost, Pow2(32 - w), Pow2(w));
    hide Pow2;
    HighBitsIgnored(word % U32 + v, lost * Pow2(32 - w), w);
  }

  lemma Reassociate(a: nat, b: nat, c: nat)
    ensures a * (b * c) == (a * b) * c
  {
  }

  // ---------------------------------------------------------------------------------------------
  // Symbols
  // ---------------------------------------------------------------------------------------------

  const ALPHABET: string := "ABCDEFGHIJKLMNOPQRSTUVWXYZ234567"

  function Symbol(v: nat): (c: char)
    requires v < 32
    ensures Position(c) == v
  {
    if v < 26 then 'A' + (v as char) else '2' + ((v - 26) as char)
  }

  predicate InAlphabet(c: char) {
    'A' <= c <= 'Z' || '2' <= c <= '7'
  }

  function Position(c: char): (v: nat) {
    if 'A' <= c <= 'Z' then (c - 'A') as nat
    else if '2' <= c <= '7' then (c - '2') as nat + 26
    else 32
  }

  lemma AlphabetIs(v: nat)
    requires v < 32
    ensures |ALPHABET| == 32 && ALPHABET[v] == Symbol(v) && InAlphabet(Symbol(v))
  {
  }

  predicate Spelled(text: string) {
    forall i :: 0 <= i < |text| ==> InAlphabet(text[i])
  }

  function Positions(text: string): (r: seq<nat>)
    ensures |r| == |text|
  {
    seq(|text|, i requires 0 <= i < |text| => Position(text[i]))
  }

  function Octets(bytes: seq<Byte>): (r: seq<nat>)
    ensures |r| == |bytes|
  {
    seq(|bytes|, i requires 0 <= i < |bytes| => bytes[i])
  }

  /** `text` is the Base32 form of `bytes`. */
  predicate IsEncoding(bytes: seq<Byte>, text: string) {
    && Spelled(text)
    && |text| == (8 * |bytes| + 4) / 5
    && Spell(Positions(text), 5) == Spell(Octets(bytes), 8) + Zeros(5 * |text| - 8 * |bytes|)
  }

  /** `bytes` are the whole octets that the symbols of `text` spell. */
  predicate IsDecoding(text: string, bytes: seq<Byte>) {
    && |bytes| == 5 * |text| / 8
    && Spell(Octets(bytes), 8) == Spell(Positions(text), 5)[..8 * |bytes|]
  }

  lemma AddSymbol(text: string, c: char)
    ensures Spell(Positions(text + [c]), 5) == Spell(Positions(text), 5) + ToBits(Position(c), 5)
  {
    assert Positions(text + [c]) == Positions(text) + [Position(c)];
    SpellOneMore(Positions(text), Position(c), 5);
  }

  lemma AddOctet(bytes: seq<Byte>, b: Byte)
    ensures Spell(Octets(bytes + [b]), 8) == Spell(Octets(bytes), 8) + ToBits(b, 8)
  {
    assert Octets(bytes + [b]) == Octets(bytes) + [b];
    SpellOneMore(Octets(bytes), b, 8);
  }

  /** Padding the waiting bits with zeros makes the last symbol. */
  lemma LastSymbol(buf: nat, bits: nat)
    requires 0 < bits < 5
    ensures var v := buf * Pow2(5 - bits) % U32 % 0x20; ToBits(v, 5) == ToBits(buf, bits) + Zeros(5 - bits)
  {
    ShiftIn(buf, bits, 0, 5 - bits);
    MaskBits(buf * Pow2(5 - bits) % U32);
    ZeroBits(5 - bits);
  }

  lemma {:induction false} ZeroBits(k: nat)
    ensures ToBits(0, k) == Zeros(k)
  {
    if k > 0 {
      ZeroBits(k - 1);
      assert Zeros(k) == Zeros(k - 1) + [false];
    }
  }

  /** `encode_base32`. */
  method EncodeBase32(bytes: seq<Byte>) returns (out: string)
    ensures IsEncoding(bytes, out)
  {
    hide Pow2, ShiftRight, Symbol, Spell, ToBits, Position;
    out := "";
    var buf: nat := 0;
    var bits: nat := 0;
    StartEmpty();
    for i := 0 to |bytes|
      invariant 0 <= buf < U32 && bits < 5
      invariant Spelled(out) && 5 * |out| + bits == 8 * i
      invariant Spell(Positions(out), 5) + ToBits(buf, bits) == Spell(Octets(bytes[..i]), 8)
    {
      var b := bytes[i];
      Powers();
      ShiftIn(buf, bits, b, 8);
      AddOctet(bytes[..i], b);
      assert bytes[..i] + [b] == bytes[..i + 1];
      ghost var joined := Spell(Positions(out), 5) + ToBits(buf, bits) + ToBits(b, 8);
      assert joined == Spell(Positions(out), 5) + (ToBits(buf, bits) + ToBits(b, 8));
      buf := buf * 0x100 % U32 + b;
      bits := bits + 8;
      while bits >= 5
        invariant bits <= 12
        invariant Spelled(out) && 5 * |out| + bits == 8 * (i + 1)
        invariant Spell(Positions(out), 5) + ToBits(buf, bits) == Spell(Octets(bytes[..i + 1]), 8)
      {
        ReadOff(buf, bits, 5);
        bits := bits - 5;
        var idx := ShiftRight(buf, bits) % 0x20;
        AlphabetIs(idx);
        AddSymbol(out, Symbol(idx));
        SymbolPosition(idx);
        ghost var before := Spell(Positions(out), 5);
        assert before + (ToBits(idx, 5) + ToBits(buf, bits)) == before + ToBits(idx, 5) + ToBits(buf, bits);
        out := out + [ALPHABET[idx]];
      }
    }
    assert bytes[..|bytes|] == bytes;
    if bits > 0 {
      var idx := buf * Pow2(5 - bits) % U32 % 0x20;
      LastSymbol(buf, bits);
      AlphabetIs(idx);
      SymbolPosition(idx);
      AddSymbol(out, Symbol(idx));
      ghost var before := Spell(Positions(out), 5);
      assert before + (ToBits(buf, bits) + Zeros(5 - bits)) == before + ToBits(buf, bits) + Zeros(5 - bits);
      out := out + [ALPHABET[idx]];
    } else {
      NoBitsWaiting(buf);
      assert Zeros(0) == [];
    }
  }

  lemma StartEmpty()
    ensures Spell(Positions(""), 5) + ToBits(0, 0) == Spell(Octets([]), 8)
  {
    assert Positions("") == [] && Octets([]) == [];
  }

  lemma NoBitsWaiting(buf: nat)
    ensures ToBits(buf, 0) == []
  {
  }

  lemma SymbolPosition(v: nat)
    requires v < 32
    ensures Position(Symbol(v)) == v
  {
  }

  /** The decoder of the repository's tests, on text of the alphabet. */
  method DecodeBase32(text: string) returns (out: seq<Byte>)
    requires Spelled(text)
    ensures IsDecoding(text, out)
  {
    hide Pow2, ShiftRight, Spell, ToBits, Position;
    out := [];
    var buf: nat := 0;
    var bits: nat := 0;
    StartEmpty();
    for i := 0 to |text|
      invariant 0 <= buf < U32 && bits < 8
      invariant 8 * |out| + bits == 5 * i
      invariant Spell(Octets(out), 8) + ToBits(buf, bits) == Spell(Positions(text[..i]), 5)
    {
      var idx := Position(text[i]);
      Powers();
      PositionBound(text[i]);
      ShiftIn(buf, bits, idx, 5);
      AddSymbol(text[..i], text[i]);
      assert text[..i] + [text[i]] == text[..i + 1];
      ghost var before := Spell(Octets(out), 8);
      assert before + (ToBits(buf, bits) + ToBits(idx, 5)) == before + ToBits(buf, bits) + ToBits(idx, 5);
      buf := buf * 32 % U32 + idx;
      bits := bits + 5;
      if bits >= 8 {
        ReadOff(buf, bits, 8);
        bits := bits - 8;
        var b: Byte := ShiftRight(buf, bits) % 0x100;
        AddOctet(out, b);
        assert before + (ToBits(b, 8) + ToBits(buf, bits)) == before + ToBits(b, 8) + ToBits(buf, bits);
        out := out + [b];
      }
    }
    assert text[..|text|] == text;
  }

  lemma PositionBound(c: char)
    requires InAlphabet(c)
    ensures Position(c) < 32
  {
  }

  // ---------------------------------------------------------------------------------------------
  // What the two are to each other
  // ---------------------------------------------------------------------------------------------

  lemma OctetsBelow(bytes: seq<Byte>)
    ensures Below(Octets(bytes), Pow2(8))
  {
    Powers();
  }

  /** There is only one encoding. */
  lemma EncodingIsUnique(bytes: seq<Byte>, a: string, b: string)
    requires IsEncoding(bytes, a) && IsEncoding(bytes, b)
    ensures a == b
  {
    hide Spell;
    Powers();
    SpellingDetermines(Positions(a), Positions(b), 5);
    forall i | 0 <= i < |a| ensures a[i] == b[i] {
      assert Positions(a)[i] == Positions(b)[i];
    }
  }

  /** Decoding an encoding gives the octets back. */
  lemma DecodeEncode(bytes: seq<Byte>, text: string, back: seq<Byte>)
    requires IsEncoding(bytes, text) && IsDecoding(text, back)
    ensures back == bytes
  {
    hide Spell;
    assert |back| == |bytes|;
    OctetsBelow(bytes);
    OctetsBelow(back);
    SpellingDetermines(Octets(back), Octets(bytes), 8);
    forall i | 0 <= i < |bytes| ensures back[i] == bytes[i] {
      assert Octets(back)[i] == Octets(bytes)[i];
    }
  }

  method RoundTrip(bytes: seq<Byte>) returns (back: seq<Byte>)
    ensures back == bytes
  {
    var text := EncodeBase32(bytes);
    assert Spelled(text);
    back := DecodeBase32(text);
    DecodeEncode(bytes, text, back);
  }
}
