/**
How normalisation sees through percent-encoding: the effect of the five-round limit, stated for
any decoder, and the encodings that it does and does not undo.
*/
module PathDecoding {
  import opened Bytes
  import opened Wrappers
  import opened Text
  import opened PolicyPath

  // ---------------------------------------------------------------------------------------------
  // Decoding
  // ---------------------------------------------------------------------------------------------

  function Times(decode: Decoder, p: Path, n: nat): Option<Path>
    decreases n
  {
    if n == 0 then Some(p)
    else
      match decode(p)
      case None => None
      case Some(next) => Times(decode, next, n - 1)
  }

  lemma {:induction false} FixedForever(decode: Decoder, p: Path, n: nat)
    requires decode(p) == Some(p)
    ensures Times(decode, p, n) == Some(p)
  {
    if n > 0 { FixedForever(decode, p, n - 1); }
  }

  /** Stopping at a fixed point changes nothing. */
  lemma {:induction false} RoundsAreTimes(decode: Decoder, p: Path, n: nat)
    ensures Rounds(decode, p, n) == Times(decode, p, n)
    decreases n
  {
    if n > 0 {
      match decode(p)
      case None =>
      case Some(next) =>
        if next == p { FixedForever(decode, p, n); } else { RoundsAreTimes(decode, next, n - 1); }
    }
  }

  lemma {:induction false} OneMoreTime(decode: Decoder, p: Path, n: nat)
    ensures Times(decode, p, n + 1) == match Times(decode, p, n)
                                       case None => None
                                       case Some(q) => decode(q)
    decreases n
  {
    if n > 0 && decode(p).Some? { OneMoreTime(decode, decode(p).value, n - 1); }
  }

  function Accepted(r: Result<Path, PathError>): Option<Path> {
    match r
    case Ok(p) => Some(p)
    case Err(_) => None
  }

  /** Whether a sixth round would still change the text, and into something acceptable. */
  predicate SixthRoundMatters(decode: Decoder, p: Path) {
    var fifth := Rounds(decode, p, ROUNDS);
    && fifth.Some?
    && var sixth := decode(fifth.value);
       sixth.Some? && sixth.value != fifth.value && Acceptable(sixth.value)
  }

  /**
  A path and its once-decoded form get the same answer exactly when no sixth round matters. The
  limit of five rounds is the whole reason why the two can differ.
  */
  lemma OnceDecodedAgrees(decode: Decoder, p: Path, next: Path)
    requires LeavesPlain(decode) && decode(p) == Some(next)
    ensures Accepted(Normalize(decode, next)) == Accepted(Normalize(decode, p)) <==> !SixthRoundMatters(decode, p)
  {
    hide Acceptable, ResolveDots, LeavesPlain;
    RoundsAreTimes(decode, p, 5);
    RoundsAreTimes(decode, next, 5);
    OneMoreTime(decode, p, 5);
    assert Times(decode, p, 6) == Times(decode, next, 5);
    var fifth := Times(decode, p, 5);
    if fifth.Some? && decode(fifth.value) != Some(fifth.value) {
      PlainIsFixed(decode, fifth.value);
      AcceptableIsPlain(fifth.value);
    }
  }

  lemma PlainIsFixed(decode: Decoder, p: Path)
    requires LeavesPlain(decode)
    ensures PERCENT !in p ==> decode(p) == Some(p)
  {
  }

  // ---------------------------------------------------------------------------------------------
  // Percent-encoding
  // ---------------------------------------------------------------------------------------------

  function HexValue(b: Byte): Option<Byte> {
    if 0x30 <= b <= 0x39 then Some(b - 0x30)
    else if 0x41 <= b <= 0x46 then Some(b - 0x41 + 10)
    else if 0x61 <= b <= 0x66 then Some(b - 0x61 + 10)
    else None
  }

  function HexDigit(n: Byte): (b: Byte)
    requires n < 16
    ensures HexValue(b) == Some(n)
  {
    if n < 10 then 0x30 + n else 0x41 + n - 10
  }

  /** Each well-formed escape becomes its octet (section 2.1 of RFC 3986); anything else stays. */
  function Unescape(p: Path): Path {
    if p == [] then []
    else if p[0] == PERCENT && |p| > 2 && HexValue(p[1]).Some? && HexValue(p[2]).Some? then
      [16 * HexValue(p[1]).value + HexValue(p[2]).value] + Unescape(p[3..])
    else [p[0]] + Unescape(p[1..])
  }

  predicate Continuation(p: Path, i: nat) {
    i < |p| && 0x80 <= p[i] <= 0xBF
  }

  /** The length of the UTF-8 sequence at the front, by table 3-7 of the Unicode Standard; 0 if none. */
  function Utf8Length(p: Path): (n: nat)
    ensures n <= |p|
  {
    if p == [] then 0
    else
      var b := p[0];
      if b < 0x80 then 1
      else if 0xC2 <= b <= 0xDF && Continuation(p, 1) then 2
      else if 0xE0 <= b <= 0xEF && Continuation(p, 1) && Continuation(p, 2)
              && (b == 0xE0 ==> p[1] >= 0xA0) && (b == 0xED ==> p[1] < 0xA0) then 3
      else if 0xF0 <= b <= 0xF4 && Continuation(p, 1) && Continuation(p, 2) && Continuation(p, 3)
              && (b == 0xF0 ==> p[1] >= 0x90) && (b == 0xF4 ==> p[1] < 0x90) then 4
      else 0
  }

  predicate ValidUtf8(p: Path)
    decreases |p|
  {
    p == [] || (Utf8Length(p) > 0 && ValidUtf8(p[Utf8Length(p)..]))
  }

  /** Decoding a string: text without escapes is borrowed as it is, other results must be UTF-8. */
  function StrDecode(p: Path): Option<Path> {
    if PERCENT !in p then Some(p)
    else if ValidUtf8(Unescape(p)) then Some(Unescape(p))
    else None
  }

  lemma StrDecodeLeavesPlain()
    ensures LeavesPlain(StrDecode)
  {
  }

  predicate Unreserved(b: Byte) {
    || 0x30 <= b <= 0x39 || 0x41 <= b <= 0x5A || 0x61 <= b <= 0x7A
    || b == 0x2D || b == DOT || b == 0x5F || b == 0x7E
  }

  /** Percent-encode every octet but slashes and unreserved characters. */
  function Escape(p: Path): Path {
    if p == [] then []
    else if Unreserved(p[0]) || p[0] == SLASH then [p[0]] + Escape(p[1..])
    else [PERCENT, HexDigit(p[0] / 16), HexDigit(p[0] % 16)] + Escape(p[1..])
  }

  function EscapeTimes(p: Path, n: nat): Path {
    if n == 0 then p else Escape(EscapeTimes(p, n - 1))
  }

  lemma {:induction false} UnescapeEscape(p: Path)
    ensures Unescape(Escape(p)) == p
  {
    if p != [] {
      UnescapeEscape(p[1..]);
      var e := Escape(p);
      if Unreserved(p[0]) || p[0] == SLASH {
        assert e[1..] == Escape(p[1..]);
      } else {
        assert e[3..] == Escape(p[1..]);
      }
      assert [p[0]] + p[1..] == p;
    }
  }

  predicate Ascii(p: Path) {
    forall i :: 0 <= i < |p| ==> p[i] < 0x80
  }

  lemma {:induction false} AsciiIsValid(p: Path)
    requires Ascii(p)
    ensures ValidUtf8(p)
  {
    if p != [] { AsciiIsValid(p[1..]); }
  }

  lemma {:induction false} EscapeIsAscii(p: Path)
    ensures Ascii(Escape(p))
  {
    if p != [] { EscapeIsAscii(p[1..]); }
  }

  lemma {:induction false} PlainEscape(p: Path)
    ensures PERCENT !in Escape(p) ==> Escape(p) == p
  {
    if p != [] {
      PlainEscape(p[1..]);
      var e := Escape(p);
      if Unreserved(p[0]) || p[0] == SLASH {
        assert e[1..] == Escape(p[1..]);
        assert PERCENT in Escape(p[1..]) ==> PERCENT in e;
        assert [p[0]] + p[1..] == p;
      } else {
        assert e[0] == PERCENT;
      }
    }
  }

  lemma DecodeEscape(p: Path)
    requires ValidUtf8(p)
    ensures StrDecode(Escape(p)) == Some(p) && ValidUtf8(Escape(p))
  {
    hide ValidUtf8, Escape, Unescape;
    UnescapeEscape(p);
    EscapeIsAscii(p);
    AsciiIsValid(Escape(p));
    PlainEscape(p);
  }

  /** Escaping `k` times is undone by `k` rounds, and later rounds leave plain text alone. */
  lemma {:induction false} RoundsUndoEscapes(p: Path, k: nat, n: nat)
    requires ValidUtf8(p) && PERCENT !in p
    ensures Times(StrDecode, EscapeTimes(p, k), n) == Some(EscapeTimes(p, if k <= n then 0 else k - n))
    ensures ValidUtf8(EscapeTimes(p, k))
  {
    hide StrDecode, ValidUtf8, Escape;
    if k == 0 {
      StrDecodeLeavesPlain();
      FixedForever(StrDecode, p, n);
    } else {
      RoundsUndoEscapes(p, k - 1, if n == 0 then 0 else n - 1);
      DecodeEscape(EscapeTimes(p, k - 1));
    }
  }

  lemma {:induction false} EscapeFixed(p: Path, k: nat)
    ensures Escape(p) == p ==> EscapeTimes(p, k) == p
    ensures Escape(p) != p && k > 0 ==> PERCENT in EscapeTimes(p, k)
  {
    if k > 0 {
      EscapeFixed(p, k - 1);
      if Escape(p) != p {
        var q := EscapeTimes(p, k - 1);
        PlainEscape(q);
        if k == 1 { PlainEscape(p); } else { EscapeKeepsPercent(q); }
      }
    }
  }

  lemma {:induction false} EscapeKeepsPercent(p: Path)
    requires PERCENT in p
    ensures PERCENT in Escape(p)
  {
    if p[0] == PERCENT {
      assert Escape(p)[0] == PERCENT;
    } else {
      assert p[1..] == p[1..] && PERCENT in p[1..];
      EscapeKeepsPercent(p[1..]);
    }
  }

  /**
  However often a plain path was percent-encoded, up to five times over, the policy it selects is
  that of the path itself; encoded more often, it is refused unless encoding changed nothing.
  */
  lemma EncodingIsSeenThrough(p: Path, k: nat)
    requires ValidUtf8(p) && PERCENT !in p
    ensures Accepted(Normalize(StrDecode, EscapeTimes(p, k))) ==
      if k <= ROUNDS || Escape(p) == p then Accepted(Normalize(StrDecode, p)) else None
  {
    hide StrDecode, ValidUtf8, Escape, Acceptable, ResolveDots;
    RoundsUndoEscapes(p, k, ROUNDS);
    RoundsUndoEscapes(p, 0, ROUNDS);
    RoundsAreTimes(StrDecode, EscapeTimes(p, k), ROUNDS);
    RoundsAreTimes(StrDecode, p, ROUNDS);
    EscapeFixed(p, k);
    if k > ROUNDS {
      EscapeFixed(p, k - ROUNDS);
      AcceptableIsPlain(EscapeTimes(p, k - ROUNDS));
    }
  }

  /** A six-fold encoding is refused although its once-decoded form is accepted: the path "/ ". */
  lemma SixFoldEncodingDiffers()
    ensures var p := EscapeTimes([SLASH, 0x20], 6);
      && StrDecode(p) == Some(EscapeTimes([SLASH, 0x20], 5))
      && Normalize(StrDecode, p).Err?
      && Normalize(StrDecode, EscapeTimes([SLASH, 0x20], 5)) == Ok([SLASH, 0x20])
  {
    hide StrDecode, Escape;
    var space: Path := [SLASH, 0x20];
    AsciiIsValid(space);
    SpaceFacts();
    EncodingIsSeenThrough(space, 6);
    EncodingIsSeenThrough(space, 5);
    EncodingIsSeenThrough(space, 0);
    RoundsUndoEscapes(space, 6, 1);
    RoundsUndoEscapes(space, 5, 0);
    DecodeEscape(EscapeTimes(space, 5));
  }

  lemma SpaceFacts()
    ensures Escape([SLASH, 0x20]) != [SLASH, 0x20]
    ensures Normalize(StrDecode, [SLASH, 0x20]) == Ok([SLASH, 0x20])
  {
    var space: Path := [SLASH, 0x20];
    assert Escape(space) == [SLASH] + Escape([0x20]) by { assert space[1..] == [0x20]; }
    assert Escape([0x20])[0] == PERCENT;
    SplitCons<Byte>([], [0x20], SLASH);
    SplitNone<Byte>([0x20], SLASH);
    assert [] + [SLASH] + [0x20] == space;
    assert Canonical(space);
    StrDecodeLeavesPlain();
    FixedIffCanonical(StrDecode, space);
  }
}
