/**
The BER guard in front of the LDAP parser: the header reader, the explicit-stack walker, and the
framing of a byte stream.

The reference definition is a grammar. `Elements` are trees of definite-length values in the
sense of sections 8.1.2 and 8.1.3 of ITU-T X.690, and the walker accepts exactly their encodings.
*/
module Ber {
  import opened Bytes

  const USIZE_MAX: int := 0xFFFF_FFFF_FFFF_FFFF
  const USIZE_OCTETS: nat := 8
  const MAX_BER_DEPTH: nat := 32

  // ---------------------------------------------------------------------------------------------
  // Headers
  // ---------------------------------------------------------------------------------------------

  datatype Header = Incomplete | Malformed | Header(size: nat, body: nat)

  /** The header at the front of `buf`, with unbounded arithmetic. */
  function HeaderOf(buf: seq<Byte>): (h: Header)
    ensures h.Header? ==> 2 <= h.size <= 2 + USIZE_OCTETS && h.size <= |buf| && h.body <= USIZE_MAX
  {
    if |buf| < 2 then Incomplete
    else if buf[1] < 0x80 then Header(2, buf[1])
    else
      var octets := buf[1] % 0x80;
      if octets == 0 || octets > USIZE_OCTETS then Malformed
      else if |buf| < 2 + octets then Incomplete
      else
        var length := BigEndian(buf[2..2 + octets]);
        assert length <= USIZE_MAX by { Pow256Grows(octets, 8); }
        Header(2 + octets, length)
  }

  /** Length octets in the definite form: one octet below 128, or a count and that many octets. */
  predicate LengthOctets(length: seq<Byte>, n: nat) {
    || (|length| == 1 && length[0] < 0x80 && length[0] == n)
    || (2 <= |length| <= 1 + USIZE_OCTETS && length[0] == 0x80 + (|length| - 1) && BigEndian(length[1..]) == n)
  }

  /**
  A header is read exactly when the bytes start with an identifier octet and length octets for
  that length, whatever follows.
  */
  lemma HeaderIsExact(buf: seq<Byte>, size: nat, body: nat)
    ensures HeaderOf(buf) == Header(size, body)
       <==> 2 <= size <= |buf| && LengthOctets(buf[1..size], body)
  {
    if 2 <= size <= |buf| {
      var length := buf[1..size];
      assert length[0] == buf[1] && length[1..] == buf[2..size];
    }
    if HeaderOf(buf).Header? {
      var h := HeaderOf(buf);
      assert buf[1..h.size][1..] == buf[2..h.size];
    }
  }

  /** Neither a header nor a refusal is revised when more bytes arrive. */
  lemma HeaderIsStable(buf: seq<Byte>, more: seq<Byte>)
    requires !HeaderOf(buf).Incomplete?
    ensures HeaderOf(buf + more) == HeaderOf(buf)
  {
    if buf[1] >= 0x80 && 0 < buf[1] % 0x80 <= USIZE_OCTETS {
      var end := 2 + buf[1] % 0x80;
      assert (buf + more)[2..end] == buf[2..end];
    }
  }

  lemma BigEndianStep(s: seq<Byte>, i: nat)
    requires i < |s|
    ensures BigEndian(s[..i + 1]) == 256 * BigEndian(s[..i]) + s[i]
  {
    assert s[..i + 1][..i] == s[..i];
  }

  lemma PrefixFitsUsize(s: seq<Byte>, i: nat)
    requires i < |s| <= USIZE_OCTETS
    ensures BigEndian(s[..i]) * 256 <= USIZE_MAX && BigEndian(s[..i]) * 256 + s[i] <= USIZE_MAX
  {
    BigEndianStep(s, i);
    Pow256Grows(i + 1, 8);
  }

  /** `ber_header`, with its checked arithmetic; neither overflow branch can be taken. */
  method BerHeader(buf: seq<Byte>) returns (h: Header)
    ensures h == HeaderOf(buf)
  {
    if |buf| < 2 {
      return Incomplete;
    }
    var lengthByte := buf[1];
    if lengthByte < 0x80 {
      return Header(2, lengthByte);
    }
    var octets: nat := lengthByte % 0x80;
    if octets == 0 || octets > USIZE_OCTETS {
      return Malformed;
    }
    if |buf| < 2 + octets {
      return Incomplete;
    }
    var digits := buf[2..2 + octets];
    var length := 0;
    for i := 0 to |digits|
      invariant length == BigEndian(digits[..i])
    {
      PrefixFitsUsize(digits, i);
      BigEndianStep(digits, i);
      if length * 256 > USIZE_MAX {
        return Malformed;
      }
      if length * 256 + digits[i] > USIZE_MAX {
        return Malformed;
      }
      length := length * 256 + digits[i];
    }
    assert digits[..|digits|] == digits;
    h := Header(2 + octets, length);
  }

  // ---------------------------------------------------------------------------------------------
  // The grammar
  // ---------------------------------------------------------------------------------------------

  /** A sequence of values: each an identifier octet, length octets and contents. */
  datatype Elements =
    | End
    | Primitive(tag: Byte, length: seq<Byte>, contents: seq<Byte>, rest: Elements)
    | Constructed(tag: Byte, length: seq<Byte>, children: Elements, rest: Elements)

  function Encode(e: Elements): seq<Byte> {
    match e
    case End => []
    case Primitive(tag, length, contents, rest) => [tag] + length + contents + Encode(rest)
    case Constructed(tag, length, children, rest) => [tag] + length + Encode(children) + Encode(rest)
  }

  /** Lengths and constructed bits agree with the contents, nested at most `depth` deep. */
  predicate WellFormed(e: Elements, depth: nat) {
    match e
    case End => true
    case Primitive(tag, length, contents, rest) =>
      !Bit5(tag) && LengthOctets(length, |contents|) && WellFormed(rest, depth)
    case Constructed(tag, length, children, rest) =>
      && Bit5(tag) && LengthOctets(length, |Encode(children)|)
      && depth > 0 && WellFormed(children, depth - 1) && WellFormed(rest, depth)
  }

  /** The recursive recogniser that the walker replaces. */
  predicate Recognised(s: seq<Byte>, depth: nat)
    decreases |s|
  {
    s == [] ||
    match HeaderOf(s)
    case Header(size, body) =>
      && size + body <= |s|
      && (Bit5(s[0]) ==> depth > 0 && Recognised(s[size..size + body], depth - 1))
      && Recognised(s[size + body..], depth)
    case _ => false
  }

  lemma SplitElement(s: seq<Byte>, size: nat, body: nat)
    requires HeaderOf(s) == Header(size, body) && size + body <= |s|
    ensures s == [s[0]] + s[1..size] + s[size..size + body] + s[size + body..]
    ensures LengthOctets(s[1..size], body)
  {
    HeaderIsExact(s, size, body);
  }

  function Parse(s: seq<Byte>, depth: nat): (e: Elements)
    requires Recognised(s, depth)
    ensures WellFormed(e, depth) && Encode(e) == s
    decreases |s|
  {
    if s == [] then End
    else
      var h := HeaderOf(s);
      SplitElement(s, h.size, h.body);
      var contents, rest := s[h.size..h.size + h.body], Parse(s[h.size + h.body..], depth);
      if Bit5(s[0]) then Constructed(s[0], s[1..h.size], Parse(contents, depth - 1), rest)
      else Primitive(s[0], s[1..h.size], contents, rest)
  }

  lemma JoinElement(tag: Byte, length: seq<Byte>, contents: seq<Byte>, rest: seq<Byte>)
    requires LengthOctets(length, |contents|)
    ensures
      var s := [tag] + length + contents + rest;
      var size := 1 + |length|;
      && HeaderOf(s) == Header(size, |contents|)
      && s[0] == tag && s[size..size + |contents|] == contents && s[size + |contents|..] == rest
      && s[1..size] == length
  {
    var s := [tag] + length + contents + rest;
    assert s[1..1 + |length|] == length;
    HeaderIsExact(s, 1 + |length|, |contents|);
  }

  lemma {:induction false} EncodingIsRecognised(e: Elements, depth: nat)
    requires WellFormed(e, depth)
    ensures Recognised(Encode(e), depth)
  {
    match e
    case End =>
    case Primitive(tag, length, contents, rest) =>
      JoinElement(tag, length, contents, Encode(rest));
      EncodingIsRecognised(rest, depth);
    case Constructed(tag, length, children, rest) =>
      JoinElement(tag, length, Encode(children), Encode(rest));
      EncodingIsRecognised(children, depth - 1);
      EncodingIsRecognised(rest, depth);
  }

  predicate Encodes(s: seq<Byte>, e: Elements, depth: nat) {
    WellFormed(e, depth) && Encode(e) == s
  }

  /** A byte string is recognised exactly when it encodes some well-formed elements. */
  lemma RecognisedIffEncoding(s: seq<Byte>, depth: nat)
    ensures Recognised(s, depth) <==> exists e :: Encodes(s, e, depth)
  {
    hide Recognised, WellFormed, Encode, Parse;
    if Recognised(s, depth) {
      assert Encodes(s, Parse(s, depth), depth);
    }
    forall e | Encodes(s, e, depth) ensures Recognised(s, depth) {
      EncodingIsRecognised(e, depth);
    }
  }

  /** The grammar is unambiguous: no two well-formed trees share an encoding. */
  lemma {:induction false} EncodingIsUnique(e1: Elements, e2: Elements, depth: nat)
    requires WellFormed(e1, depth) && WellFormed(e2, depth) && Encode(e1) == Encode(e2)
    ensures e1 == e2
    decreases e1
  {
    if e1.End? {
      assert e2.End?;
    } else {
      assert e2 != End;
      var c1 := if e1.Primitive? then e1.contents else Encode(e1.children);
      var c2 := if e2.Primitive? then e2.contents else Encode(e2.children);
      JoinElement(e1.tag, e1.length, c1, Encode(e1.rest));
      JoinElement(e2.tag, e2.length, c2, Encode(e2.rest));
      EncodingIsUnique(e1.rest, e2.rest, depth);
      if e1.Constructed? {
        EncodingIsUnique(e1.children, e2.children, depth - 1);
      }
    }
  }

  // ---------------------------------------------------------------------------------------------
  // The walker
  // ---------------------------------------------------------------------------------------------

  /** The open containers' ends nest, outermost first, and all enclose `position`. */
  predicate Nested(ends: seq<nat>, position: nat, size: nat) {
    && (forall i, j :: 0 <= i < j < |ends| ==> ends[j] <= ends[i])
    && (forall i :: 0 <= i < |ends| ==> position <= ends[i] <= size)
  }

  /** What is still to be read: the rest of the innermost container, then of each around it. */
  predicate Outstanding(frame: seq<Byte>, ends: seq<nat>, position: nat)
    requires Nested(ends, position, |frame|) && |ends| <= MAX_BER_DEPTH
    decreases |ends|
  {
    |ends| == 0 ||
    var top := ends[|ends| - 1];
    && Recognised(frame[position..top], MAX_BER_DEPTH - |ends|)
    && Outstanding(frame, ends[..|ends| - 1], top)
  }

  lemma EnterNested(ends: seq<nat>, position: nat, size: nat, start: nat, end: nat)
    requires Nested(ends, position, size) && ends != [] && position <= start <= end <= ends[|ends| - 1]
    ensures Nested(ends, end, size) && Nested(ends + [end], start, size)
  {
  }

  lemma EnterElement(frame: seq<Byte>, ends: seq<nat>, position: nat, h: Header)
    requires Nested(ends, position, |frame|) && 0 < |ends| <= MAX_BER_DEPTH
    requires position < ends[|ends| - 1]
    requires h.Header? && h == HeaderOf(frame[position..ends[|ends| - 1]])
    requires position + h.size + h.body <= ends[|ends| - 1]
    ensures
      var start, end := position + h.size, position + h.size + h.body;
      if !Bit5(frame[position]) then
        && Nested(ends, end, |frame|)
        && Outstanding(frame, ends, position) == Outstanding(frame, ends, end)
      else if |ends| < MAX_BER_DEPTH then
        && Nested(ends + [end], start, |frame|)
        && Outstanding(frame, ends, position) == Outstanding(frame, ends + [end], start)
      else !Outstanding(frame, ends, position)
  {
    hide HeaderOf, Recognised, Outstanding, BigEndian;
    var top := ends[|ends| - 1];
    var start, end := position + h.size, position + h.size + h.body;
    EnterNested(ends, position, |frame|, start, end);
    InnermostOutstanding(frame, ends, position);
    InnermostOutstanding(frame, ends, end);
    InnerElement(frame, position, top, MAX_BER_DEPTH - |ends|, h);
    if Bit5(frame[position]) && |ends| < MAX_BER_DEPTH {
      hide Nested;
      assert (ends + [end])[..|ends|] == ends;
      InnermostOutstanding(frame, ends + [end], start);
    }
  }

  /** The first element between two positions of a frame. */
  lemma InnerElement(frame: seq<Byte>, position: nat, top: nat, depth: nat, h: Header)
    requires position < top <= |frame| && h.Header? && h == HeaderOf(frame[position..top])
    requires position + h.size + h.body <= top
    ensures var start, end := position + h.size, position + h.size + h.body;
      Recognised(frame[position..top], depth)
      <==> && (Bit5(frame[position]) ==> depth > 0 && Recognised(frame[start..end], depth - 1))
           && Recognised(frame[end..top], depth)
  {
    hide HeaderOf, Recognised;
    var remaining := frame[position..top];
    FirstElement(remaining, depth, h);
    SliceOfSlice(frame, position, top, h.size, h.size + h.body);
    SliceOfSlice(frame, position, top, h.size + h.body, |remaining|);
    assert remaining[h.size + h.body..|remaining|] == remaining[h.size + h.body..];
  }

  lemma SliceOfSlice(s: seq<Byte>, from: nat, to: nat, i: nat, j: nat)
    requires from <= to <= |s| && i <= j <= to - from
    ensures s[from..to][i..j] == s[from + i..from + j]
  {
    var (a, b) := (s[from..to][i..j], s[from + i..from + j]);
    assert |a| == |b|;
    forall k | 0 <= k < |a| ensures a[k] == b[k] {
      assert a[k] == s[from..to][i + k] == s[from + (i + k)];
    }
  }

  lemma FirstElement(s: seq<Byte>, depth: nat, h: Header)
    requires s != [] && h.Header? && h == HeaderOf(s) && h.size + h.body <= |s|
    ensures Recognised(s, depth)
       <==> && (Bit5(s[0]) ==> depth > 0 && Recognised(s[h.size..h.size + h.body], depth - 1))
            && Recognised(s[h.size + h.body..], depth)
  {
    hide HeaderOf;
  }

  lemma InnermostOutstanding(frame: seq<Byte>, ends: seq<nat>, position: nat)
    requires Nested(ends, position, |frame|) && 0 < |ends| <= MAX_BER_DEPTH
    ensures var top := ends[|ends| - 1];
      && Nested(ends[..|ends| - 1], top, |frame|)
      && (Outstanding(frame, ends, position)
          <==> && Recognised(frame[position..top], MAX_BER_DEPTH - |ends|)
               && Outstanding(frame, ends[..|ends| - 1], top))
  {
    hide Recognised;
  }

  /** `validate_ber_structure` on a slice, whose length always fits `usize`. */
  method ValidateBerStructure(frame: seq<Byte>) returns (ok: bool)
    requires |frame| <= USIZE_MAX
    ensures ok == Recognised(frame, MAX_BER_DEPTH - 1)
  {
    hide Recognised, HeaderOf, Outstanding;
    var ends: seq<nat> := [|frame|];
    var position: nat := 0;
    StartOutstanding(frame);
    while |ends| > 0
      invariant |ends| <= MAX_BER_DEPTH && position <= |frame|
      invariant Nested(ends, position, |frame|)
      invariant Outstanding(frame, ends, position) == Recognised(frame, MAX_BER_DEPTH - 1)
      decreases |frame| - position, |ends|
    {
      var parentEnd := ends[|ends| - 1];
      if position == parentEnd {
        LeaveContainer(frame, ends, position);
        ends := ends[..|ends| - 1];
        continue;
      }
      var remaining := frame[position..parentEnd];
      var header := BerHeader(remaining);
      if !header.Header? {
        BadElement(frame, ends, position);
        return false;
      }
      HeaderBounds(remaining);
      var bodyStart := position + header.size;
      if bodyStart > USIZE_MAX || bodyStart + header.body > USIZE_MAX {
        BadElement(frame, ends, position);
        return false;
      }
      var bodyEnd := bodyStart + header.body;
      if bodyEnd > parentEnd {
        BadElement(frame, ends, position);
        return false;
      }
      EnterElement(frame, ends, position, header);
      if Bit5(remaining[0]) {
        if |ends| >= MAX_BER_DEPTH {
          return false;
        }
        ends := ends + [bodyEnd];
        position := bodyStart;
      } else {
        position := bodyEnd;
      }
    }
    NothingOutstanding(frame, position);
    ok := true;
  }

  lemma NothingOutstanding(frame: seq<Byte>, position: nat)
    ensures Outstanding(frame, [], position)
  {
  }

  lemma HeaderBounds(s: seq<Byte>)
    requires HeaderOf(s).Header?
    ensures HeaderOf(s).size >= 2
  {
  }

  lemma StartOutstanding(frame: seq<Byte>)
    ensures Nested([|frame|], 0, |frame|)
    ensures Outstanding(frame, [|frame|], 0) == Recognised(frame, MAX_BER_DEPTH - 1)
  {
    hide Recognised;
    assert frame[0..|frame|] == frame;
    assert [|frame|][..0] == [];
  }

  lemma LeaveContainer(frame: seq<Byte>, ends: seq<nat>, position: nat)
    requires Nested(ends, position, |frame|) && 0 < |ends| <= MAX_BER_DEPTH && position == ends[|ends| - 1]
    ensures Nested(ends[..|ends| - 1], position, |frame|)
    ensures Outstanding(frame, ends, position) == Outstanding(frame, ends[..|ends| - 1], position)
  {
    assert frame[position..position] == [];
  }

  lemma BadElement(frame: seq<Byte>, ends: seq<nat>, position: nat)
    requires Nested(ends, position, |frame|) && 0 < |ends| <= MAX_BER_DEPTH && position < ends[|ends| - 1]
    requires var remaining := frame[position..ends[|ends| - 1]];
      var h := HeaderOf(remaining); h.Header? ==> h.size + h.body > |remaining|
    ensures !Outstanding(frame, ends, position)
  {
    assert frame[position..ends[|ends| - 1]] != [];
  }

  /** The walker accepts exactly the encodings of elements nested at most 31 deep. */
  lemma AcceptedIffElements(frame: seq<Byte>)
    ensures Recognised(frame, MAX_BER_DEPTH - 1)
       <==> exists e :: Encodes(frame, e, 31)
  {
    RecognisedIffEncoding(frame, 31);
  }

  // ---------------------------------------------------------------------------------------------
  // Framing
  // ---------------------------------------------------------------------------------------------

  datatype Decision = NeedMore | Reject | Deliver(size: nat)

  /** What the codec does with the bytes buffered so far; `limit` is the library's maximum size. */
  function Decide(buf: seq<Byte>, limit: nat): (d: Decision)
    ensures d.Deliver? ==> 2 <= d.size <= |buf| && d.size <= limit
  {
    match HeaderOf(buf)
    case Malformed => Reject
    case Incomplete => NeedMore
    case Header(size, body) =>
      if size + body > limit then Reject
      else if |buf| < size + body then NeedMore
      else if Recognised(buf[..size + body], MAX_BER_DEPTH - 1) then Deliver(size + body)
      else Reject
  }

  lemma DecideIsStable(buf: seq<Byte>, more: seq<Byte>, limit: nat)
    requires !Decide(buf, limit).NeedMore?
    ensures Decide(buf + more, limit) == Decide(buf, limit)
  {
    hide Recognised;
    HeaderIsStable(buf, more);
    var h := HeaderOf(buf);
    if h.Header? && h.size + h.body <= |buf| {
      assert (buf + more)[..h.size + h.body] == buf[..h.size + h.body];
    }
  }

  /** While more is needed, less than one maximal frame is buffered. */
  lemma WaitingIsBounded(buf: seq<Byte>, limit: nat)
    requires Decide(buf, limit).NeedMore?
    ensures |buf| < 10 || |buf| < limit
  {
  }

  /** The frames delivered from a stretch of bytes, what is left over, and whether the codec failed. */
  datatype Drained = Drained(frames: seq<seq<Byte>>, rest: seq<Byte>, failed: bool)

  function Drain(buf: seq<Byte>, limit: nat): (d: Drained)
    decreases |buf|
  {
    match Decide(buf, limit)
    case NeedMore => Drained([], buf, false)
    case Reject => Drained([], buf, true)
    case Deliver(size) =>
      var tail := Drain(buf[size..], limit);
      tail.(frames := [buf[..size]] + tail.frames)
  }

  /** Bytes that arrive later only add to what was already decided. */
  lemma {:induction false} DrainAppends(buf: seq<Byte>, more: seq<Byte>, limit: nat)
    ensures
      var first := Drain(buf, limit);
      var all := Drain(buf + more, limit);
      if first.failed then all.failed && all.frames == first.frames
      else
        var later := Drain(first.rest + more, limit);
        all.frames == first.frames + later.frames && all.rest == later.rest && all.failed == later.failed
    decreases |buf|
  {
    hide Decide;
    match Decide(buf, limit)
    case NeedMore =>
    case Reject => DecideIsStable(buf, more, limit);
    case Deliver(size) =>
      DecideIsStable(buf, more, limit);
      FirstFrame(buf, more, size);
      DrainAppends(buf[size..], more, limit);
      var (frame, tail) := (buf[..size], Drain(buf[size..], limit));
      var later := Drain(tail.rest + more, limit);
      assert ([frame] + tail.frames) + later.frames == [frame] + (tail.frames + later.frames);
  }

  lemma FirstFrame(buf: seq<Byte>, more: seq<Byte>, size: nat)
    requires size <= |buf|
    ensures (buf + more)[..size] == buf[..size] && (buf + more)[size..] == buf[size..] + more
  {
  }

  lemma DeliverBounds(buf: seq<Byte>, limit: nat)
    requires Decide(buf, limit).Deliver?
    ensures 2 <= Decide(buf, limit).size <= |buf|
  {
  }

  function Join(chunks: seq<seq<Byte>>): seq<Byte> {
    if chunks == [] then [] else Join(chunks[..|chunks| - 1]) + chunks[|chunks| - 1]
  }

  /** One connection's decoder: the buffered bytes, the frames handed on, and whether it has failed. */
  class Framer {
    const limit: nat
    var buffer: seq<Byte>
    var frames: seq<seq<Byte>>
    var failed: bool

    constructor (limit: nat)
      ensures this.limit == limit && buffer == [] && frames == [] && !failed
    {
      this.limit := limit;
      buffer, frames, failed := [], [], false;
    }

    /** One call of `decode`: guard first, then hand the frame to the inner parser. */
    method Decode() returns (d: Decision)
      requires |buffer| <= USIZE_MAX && limit <= USIZE_MAX
      modifies this
      ensures d == Decide(old(buffer), limit)
      ensures failed == (old(failed) || d.Reject?)
      ensures if d.Deliver?
              then frames == old(frames) + [old(buffer)[..d.size]] && buffer == old(buffer)[d.size..]
              else frames == old(frames) && buffer == old(buffer)
    {
      hide Recognised;
      var header := BerHeader(buffer);
      match header
      case Malformed =>
        failed := true;
        return Reject;
      case Incomplete =>
        return NeedMore;
      case Header(size, body) =>
        if body + size > USIZE_MAX || body + size > limit {
          failed := true;
          return Reject;
        }
        if |buffer| < body + size {
          return NeedMore;
        }
        var ok := ValidateBerStructure(buffer[..body + size]);
        if !ok {
          failed := true;
          return Reject;
        }
        frames := frames + [buffer[..body + size]];
        buffer := buffer[body + size..];
        return Deliver(body + size);
    }

    /** Bytes arrive, and frames are taken off until more are needed or the stream is refused. */
    method Feed(chunk: seq<Byte>)
      requires |buffer| + |chunk| <= USIZE_MAX && limit <= USIZE_MAX && !failed
      modifies this
      ensures var all := Drain(old(buffer) + chunk, limit);
        frames == old(frames) + all.frames && buffer == all.rest && failed == all.failed
    {
      hide Decide;
      buffer := buffer + chunk;
      ghost var whole := Drain(buffer, limit);
      ghost var before := frames;
      var d := Deliver(0);
      while d.Deliver?
        invariant |buffer| <= USIZE_MAX && before == old(frames)
        invariant d.Deliver? ==>
          var left := Drain(buffer, limit);
          && !failed && before + whole.frames == frames + left.frames
          && left.rest == whole.rest && left.failed == whole.failed
        invariant !d.Deliver? ==>
          frames == before + whole.frames && buffer == whole.rest && failed == whole.failed
        decreases d.Deliver?, |buffer|
      {
        ghost var was := buffer;
        d := Decode();
        if d.Deliver? {
          DeliverBounds(was, limit);
        }
      }
    }
  }

  /**
  The state of the codec after some chunks: what one drain of all their bytes leaves, with
  nothing fed after a failure.
  */
  function AfterChunks(chunks: seq<seq<Byte>>, limit: nat): Drained {
    if chunks == [] then Drained([], [], false)
    else
      var before := AfterChunks(chunks[..|chunks| - 1], limit);
      if before.failed then before
      else
        var now := Drain(before.rest + chunks[|chunks| - 1], limit);
        now.(frames := before.frames + now.frames)
  }

  /** However a stream is cut into chunks, the same frames are delivered and the same refusal made. */
  lemma {:induction false} ChunkingIsInvisible(chunks: seq<seq<Byte>>, limit: nat)
    ensures
      var cut, whole := AfterChunks(chunks, limit), Drain(Join(chunks), limit);
      cut.frames == whole.frames && cut.failed == whole.failed && (!cut.failed ==> cut.rest == whole.rest)
  {
    if chunks == [] {
    } else {
      var earlier := chunks[..|chunks| - 1];
      ChunkingIsInvisible(earlier, limit);
      DrainAppends(Join(earlier), chunks[|chunks| - 1], limit);
    }
  }
}
