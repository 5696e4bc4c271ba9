/**
Canonical paths for forward-auth policies: up to five rounds of percent-decoding, a check that
nothing ambiguous is left, and dot segments resolved on a stack.

Paths are UTF-8 octets. The percent-decoder is a library; the results about normalisation hold for
any decoder that leaves text without a percent sign alone, and `StrDecode` is one of them.
*/
module PolicyPath {
  import opened Bytes
  import opened Wrappers
  import opened Text

  type Path = seq<Byte>

  const SLASH: Byte := 0x2F
  const DOT: Byte := 0x2E
  const PERCENT: Byte := 0x25
  const BACKSLASH: Byte := 0x5C
  const ROUNDS: nat := 5

  datatype PathError = InvalidPath | AmbiguousPath

  type Decoder = Path -> Option<Path>

  // ---------------------------------------------------------------------------------------------
  // Normalisation
  // ---------------------------------------------------------------------------------------------

  predicate IsControl(b: Byte) {
    b < 0x20 || b == 0x7F
  }

  predicate SafeLocalPath(p: Path) {
    && p != [] && p[0] == SLASH
    && !(|p| > 1 && p[1] == SLASH)
    && forall i :: 0 <= i < |p| ==> p[i] != BACKSLASH && !IsControl(p[i])
  }

  predicate DoubleSlash(p: Path) {
    exists i :: 0 <= i < |p| - 1 && p[i] == SLASH && p[i + 1] == SLASH
  }

  predicate Acceptable(p: Path) {
    SafeLocalPath(p) && PERCENT !in p && !DoubleSlash(p)
  }

  /** `n` rounds of decoding, stopping at a fixed point; nothing when a round is not UTF-8. */
  function Rounds(decode: Decoder, p: Path, n: nat): Option<Path>
    decreases n
  {
    if n == 0 then Some(p)
    else
      match decode(p)
      case None => None
      case Some(next) => if next == p then Some(p) else Rounds(decode, next, n - 1)
  }

  /** The stack after one more segment. */
  function NextStack(s: Path, stack: seq<Path>): seq<Path> {
    if s == [] || s == [DOT] then stack
    else if s == [DOT, DOT] then (if stack == [] then [] else stack[..|stack| - 1])
    else stack + [s]
  }

  function Resolve(segments: seq<Path>, stack: seq<Path>): seq<Path> {
    if segments == [] then stack else Resolve(segments[1..], NextStack(segments[0], stack))
  }

  function ResolveDots(p: Path): Path {
    var normalized := [SLASH] + Join(Resolve(Split(p, SLASH), []), SLASH);
    if p != [] && p[|p| - 1] == SLASH && normalized != [SLASH] then normalized + [SLASH] else normalized
  }

  function Normalize(decode: Decoder, p: Path): Result<Path, PathError> {
    match Rounds(decode, p, ROUNDS)
    case None => Err(InvalidPath)
    case Some(decoded) => if Acceptable(decoded) then Ok(ResolveDots(decoded)) else Err(AmbiguousPath)
  }

  /** `normalize_policy_path`. */
  method NormalizePolicyPath(decode: Decoder, p: Path) returns (r: Result<Path, PathError>)
    ensures r == Normalize(decode, p)
  {
    hide ResolveDots, Acceptable;
    var decoded := p;
    var round := 0;
    while round < ROUNDS
      invariant 0 <= round <= ROUNDS
      invariant Rounds(decode, p, ROUNDS) == Rounds(decode, decoded, ROUNDS - round)
    {
      var next := decode(decoded);
      if next.None? {
        return Err(InvalidPath);
      }
      if next.value == decoded {
        break;
      }
      decoded := next.value;
      round := round + 1;
    }
    assert Rounds(decode, p, ROUNDS) == Some(decoded);
    if !Acceptable(decoded) {
      return Err(AmbiguousPath);
    }
    var normalized := ResolveLoop(decoded);
    r := Ok(normalized);
  }

  method ResolveLoop(p: Path) returns (r: Path)
    ensures r == ResolveDots(p)
  {
    var parts := Split(p, SLASH);
    var segments: seq<Path> := [];
    for i := 0 to |parts|
      invariant Resolve(parts, []) == Resolve(parts[i..], segments)
    {
      assert parts[i..][1..] == parts[i + 1..];
      if parts[i] == [] || parts[i] == [DOT] {
      } else if parts[i] == [DOT, DOT] {
        if segments != [] {
          segments := segments[..|segments| - 1];
        }
      } else {
        segments := segments + [parts[i]];
      }
    }
    r := [SLASH] + Join(segments, SLASH);
    if p != [] && p[|p| - 1] == SLASH && r != [SLASH] {
      r := r + [SLASH];
    }
  }

  // ---------------------------------------------------------------------------------------------
  // Canonical paths
  // ---------------------------------------------------------------------------------------------

  /** A segment that resolution keeps. */
  predicate Proper(s: Path) {
    s != [] && s != [DOT] && s != [DOT, DOT] && SLASH !in s
  }

  /** Proper segments between an empty first part and a last part that may be empty too. */
  predicate CanonicalParts(parts: seq<Path>) {
    && parts != [] && parts[0] == []
    && (forall i :: 1 <= i < |parts| - 1 ==> Proper(parts[i]))
    && (parts[|parts| - 1] == [] || Proper(parts[|parts| - 1]))
  }

  /** No percent sign, no dot segment, and no empty segment but that of a trailing slash. */
  predicate Canonical(p: Path) {
    SafeLocalPath(p) && PERCENT !in p && CanonicalParts(Split(p, SLASH))
  }

  predicate AllProper(stack: seq<Path>) {
    forall i :: 0 <= i < |stack| ==> Proper(stack[i])
  }

  predicate CleanOctets(p: Path) {
    forall i :: 0 <= i < |p| ==> p[i] != BACKSLASH && !IsControl(p[i]) && p[i] != PERCENT
  }

  lemma {:induction false} SplitOctets(p: Path)
    requires CleanOctets(p)
    ensures forall i :: 0 <= i < |Split(p, SLASH)| ==> CleanOctets(Split(p, SLASH)[i])
  {
    if p != [] { SplitOctets(p[1..]); }
  }

  lemma {:induction false} ResolveProper(segments: seq<Path>, stack: seq<Path>)
    requires AllProper(stack) && forall i :: 0 <= i < |stack| ==> CleanOctets(stack[i])
    requires forall i :: 0 <= i < |segments| ==> CleanOctets(segments[i]) && SLASH !in segments[i]
    ensures var r := Resolve(segments, stack);
      AllProper(r) && forall i :: 0 <= i < |r| ==> CleanOctets(r[i])
  {
    hide CleanOctets;
    if segments != [] {
      ResolveProper(segments[1..], NextStack(segments[0], stack));
    }
  }

  lemma {:induction false} JoinOctets(stack: seq<Path>)
    requires forall i :: 0 <= i < |stack| ==> CleanOctets(stack[i])
    ensures CleanOctets(Join(stack, SLASH))
  {
    if |stack| > 1 { JoinOctets(stack[1..]); }
  }

  lemma {:induction false} JoinProper(stack: seq<Path>)
    requires AllProper(stack) && stack != []
    ensures var j := Join(stack, SLASH); j != [] && j[0] != SLASH && j[|j| - 1] != SLASH
  {
    assert Proper(stack[0]);
    assert stack[0][0] in stack[0] && stack[0][|stack[0]| - 1] in stack[0];
    if |stack| > 1 { JoinProper(stack[1..]); }
  }

  /** The path of a stack, with or without a trailing slash, splits into the stack again. */
  lemma SplitStack(stack: seq<Path>)
    requires AllProper(stack) && stack != []
    ensures Split([SLASH] + Join(stack, SLASH), SLASH) == [[]] + stack
    ensures Split([SLASH] + Join(stack, SLASH) + [SLASH], SLASH) == [[]] + stack + [[]]
  {
    SplitJoin(stack, SLASH);
    SplitCons<Byte>([], Join(stack, SLASH), SLASH);
    assert [] + [SLASH] + Join(stack, SLASH) == [SLASH] + Join(stack, SLASH);
    var closed := stack + [[]];
    forall i | 0 <= i < |closed| ensures SLASH !in closed[i] {
      if i < |stack| { assert Proper(stack[i]); }
    }
    SplitJoin(closed, SLASH);
    JoinLast(stack, [], SLASH);
    SplitCons<Byte>([], Join(closed, SLASH), SLASH);
    assert [] + [SLASH] + Join(closed, SLASH) == [SLASH] + Join(stack, SLASH) + [SLASH];
  }

  lemma StackIsSafe(stack: seq<Path>, closed: bool)
    requires AllProper(stack) && stack != [] && forall i :: 0 <= i < |stack| ==> CleanOctets(stack[i])
    ensures var p := [SLASH] + Join(stack, SLASH) + if closed then [SLASH] else [];
      SafeLocalPath(p) && PERCENT !in p
  {
    hide Proper, Join;
    JoinOctets(stack);
    JoinProper(stack);
    assert CleanOctets([]) && CleanOctets([SLASH]);
    hide CleanOctets;
    BodyIsSafe(Join(stack, SLASH), if closed then [SLASH] else []);
  }

  lemma BodyIsSafe(body: Path, tail: Path)
    requires CleanOctets(body) && CleanOctets(tail) && body != [] && body[0] != SLASH
    ensures var p := [SLASH] + body + tail; SafeLocalPath(p) && PERCENT !in p
  {
    var p := [SLASH] + body + tail;
    assert p[1] == body[0];
    forall i | 0 <= i < |p| ensures p[i] != BACKSLASH && !IsControl(p[i]) && p[i] != PERCENT {
      assert p[i] == if i == 0 then SLASH else if i <= |body| then body[i - 1] else tail[i - 1 - |body|];
    }
  }

  lemma StackIsCanonical(stack: seq<Path>, closed: bool)
    requires AllProper(stack) && forall i :: 0 <= i < |stack| ==> CleanOctets(stack[i])
    ensures var p := [SLASH] + Join(stack, SLASH);
      Canonical(if closed && p != [SLASH] then p + [SLASH] else p)
  {
    hide Canonical, CleanOctets, Proper;
    var p := [SLASH] + Join(stack, SLASH);
    if stack == [] {
      RootIsCanonical();
      assert p == [SLASH];
    } else {
      JoinProper(stack);
      hide Join;
      if closed {
        ClosedIsCanonical(stack);
      } else {
        OpenIsCanonical(stack);
      }
    }
  }

  lemma OpenIsCanonical(stack: seq<Path>)
    requires AllProper(stack) && stack != [] && forall i :: 0 <= i < |stack| ==> CleanOctets(stack[i])
    ensures Canonical([SLASH] + Join(stack, SLASH))
  {
    hide SafeLocalPath, CleanOctets, Proper, Join, Split, CanonicalParts;
    SplitStack(stack);
    StackIsSafe(stack, false);
    StackParts(stack);
    assert [SLASH] + Join(stack, SLASH) + [] == [SLASH] + Join(stack, SLASH);
  }

  lemma ClosedIsCanonical(stack: seq<Path>)
    requires AllProper(stack) && stack != [] && forall i :: 0 <= i < |stack| ==> CleanOctets(stack[i])
    ensures Canonical([SLASH] + Join(stack, SLASH) + [SLASH])
  {
    hide SafeLocalPath, CleanOctets, Proper, Join, Split, CanonicalParts;
    SplitStack(stack);
    StackIsSafe(stack, true);
    StackParts(stack);
  }

  lemma StackParts(stack: seq<Path>)
    requires AllProper(stack) && stack != []
    ensures CanonicalParts([[]] + stack) && CanonicalParts([[]] + stack + [[]])
  {
    hide Proper;
  }

  lemma RootIsCanonical()
    ensures Canonical([SLASH])
  {
    SplitCons<Byte>([], [], SLASH);
    assert [] + [SLASH] + [] == [SLASH];
  }

  /** Whatever is accepted is canonical. */
  lemma NormalizedIsCanonical(decode: Decoder, p: Path)
    ensures var r := Normalize(decode, p); r.Ok? ==> Canonical(r.value)
  {
    hide Rounds, Canonical;
    var r := Normalize(decode, p);
    if r.Ok? {
      var decoded := Rounds(decode, p, ROUNDS).value;
      assert CleanOctets(decoded);
      SplitOctets(decoded);
      SplitParts(decoded, SLASH);
      ResolveProper(Split(decoded, SLASH), []);
      StackIsCanonical(Resolve(Split(decoded, SLASH), []), decoded[|decoded| - 1] == SLASH);
    }
  }

  lemma {:induction false} ResolveKeeps(segments: seq<Path>, stack: seq<Path>)
    requires AllProper(segments)
    ensures Resolve(segments, stack) == stack + segments
  {
    if segments != [] {
      assert Proper(segments[0]);
      ResolveKeeps(segments[1..], stack + [segments[0]]);
      assert stack + [segments[0]] + segments[1..] == stack + segments;
    }
  }

  lemma {:induction false} NoDoubleSlashes(p: Path)
    requires DoubleSlash(p)
    ensures exists i :: 0 < i < |Split(p, SLASH)| - 1 && Split(p, SLASH)[i] == []
  {
    var k :| 0 <= k < |p| - 1 && p[k] == SLASH && p[k + 1] == SLASH;
    var parts := Split(p, SLASH);
    var tail := Split(p[1..], SLASH);
    if k == 0 {
      assert p[1..][0] == SLASH;
      assert tail == [[]] + Split(p[2..], SLASH) by { assert p[1..][1..] == p[2..]; }
      assert parts[1] == [];
    } else {
      assert p[1..][k - 1] == SLASH && p[1..][k] == SLASH;
      NoDoubleSlashes(p[1..]);
      var i :| 0 < i < |tail| - 1 && tail[i] == [];
      assert if p[0] == SLASH then parts[i + 1] == [] && i + 1 < |parts| - 1 else parts[i] == [] && i < |parts| - 1;
    }
  }

  lemma ResolveClosed(segments: seq<Path>)
    requires AllProper(segments)
    ensures Resolve([[]] + segments, []) == segments
    ensures Resolve([[]] + segments + [[]], []) == segments
  {
    assert ([[]] + segments)[1..] == segments;
    ResolveKeeps(segments, []);
    assert [] + segments == segments;
    var closed := [[]] + segments + [[]];
    assert closed[1..] == segments + [[]];
    ResolveKeepsThen(segments, []);
  }

  lemma {:induction false} ResolveKeepsThen(segments: seq<Path>, stack: seq<Path>)
    requires AllProper(segments)
    ensures Resolve(segments + [[]], stack) == stack + segments
  {
    if segments == [] {
      assert (segments + [[]])[1..] == [];
    } else {
      assert Proper(segments[0]);
      assert (segments + [[]])[1..] == segments[1..] + [[]];
      ResolveKeepsThen(segments[1..], stack + [segments[0]]);
      assert stack + [segments[0]] + segments[1..] == stack + segments;
    }
  }

  lemma CanonicalIsAcceptable(p: Path)
    requires Canonical(p)
    ensures Acceptable(p)
  {
    hide Split;
    if DoubleSlash(p) {
      NoDoubleSlashes(p);
      assert false;
    }
  }

  lemma OpenIsFixed(p: Path, segments: seq<Path>)
    requires p != [] && Split(p, SLASH) == [[]] + segments && AllProper(segments) && segments != []
    ensures ResolveDots(p) == p
  {
    hide Split, Resolve;
    JoinSplit(p, SLASH);
    LastPart(p);
    ResolveClosed(segments);
    assert ([[]] + segments)[1..] == segments;
    assert Proper(segments[|segments| - 1]);
  }

  lemma ClosedIsFixed(p: Path, segments: seq<Path>)
    requires p != [] && Split(p, SLASH) == [[]] + segments + [[]] && AllProper(segments)
    ensures ResolveDots(p) == p
  {
    hide Split, Resolve, Proper;
    JoinSplit(p, SLASH);
    LastPart(p);
    ResolveClosed(segments);
    ClosedJoin(segments);
    assert |Split(p, SLASH)| == |segments| + 2 && Split(p, SLASH)[|segments| + 1] == [];
    hide Join;
  }

  lemma ClosedJoin(segments: seq<Path>)
    requires AllProper(segments)
    ensures Join([[]] + segments + [[]], SLASH)
         == if segments == [] then [SLASH] else [SLASH] + Join(segments, SLASH) + [SLASH]
    ensures segments != [] ==> Join(segments, SLASH) != []
    ensures segments == [] ==> Join(segments, SLASH) == []
  {
    hide Proper;
    JoinLast([[]] + segments, [], SLASH);
    if segments == [] {
      assert [[]] + segments == [[]];
      assert Join([[]], SLASH) == [];
    } else {
      assert ([[]] + segments)[1..] == segments;
      JoinProper(segments);
    }
  }

  lemma CanonicalIsFixed(p: Path)
    requires Canonical(p)
    ensures Acceptable(p) && ResolveDots(p) == p
  {
    hide Split, Resolve, ResolveDots, Proper, SafeLocalPath;
    CanonicalIsAcceptable(p);
    var parts := Split(p, SLASH);
    assert p != [] by { SafeIsNonEmpty(p); }
    LastPart(p);
    if |parts| == 1 {
      assert false;
    } else if parts[|parts| - 1] == [] {
      var segments := parts[1..|parts| - 1];
      assert parts == [[]] + segments + [[]];
      ClosedIsFixed(p, segments);
    } else {
      var segments := parts[1..];
      assert parts == [[]] + segments;
      OpenIsFixed(p, segments);
    }
  }

  lemma SafeIsNonEmpty(p: Path)
    ensures SafeLocalPath(p) ==> p != []
  {
  }

  /** A path ends in a slash exactly when its last part is empty. */
  lemma {:induction false} LastPart(p: Path)
    requires p != []
    ensures var parts := Split(p, SLASH);
      (p[|p| - 1] == SLASH) == (|parts| > 1 && parts[|parts| - 1] == []) && (|parts| == 1 ==> parts[0] == p)
  {
    if |p| == 1 {
      assert p[1..] == [];
    } else {
      LastPart(p[1..]);
      assert [p[0]] + p[1..] == p;
      assert p[1..][|p| - 2] == p[|p| - 1];
    }
  }

  /** Text without a percent sign is left as it is. */
  ghost predicate LeavesPlain(decode: Decoder) {
    forall p: Path :: PERCENT !in p ==> decode(p) == Some(p)
  }

  /** The canonical paths are exactly the paths that normalisation returns unchanged. */
  lemma FixedIffCanonical(decode: Decoder, p: Path)
    requires LeavesPlain(decode)
    ensures Canonical(p) <==> Normalize(decode, p) == Ok(p)
  {
    hide Canonical, Acceptable, ResolveDots;
    if Canonical(p) {
      CanonicalIsFixed(p);
      AcceptableIsPlain(p);
    }
    if Normalize(decode, p) == Ok(p) {
      NormalizedIsCanonical(decode, p);
    }
  }

  lemma AcceptableIsPlain(p: Path)
    ensures Acceptable(p) ==> PERCENT !in p
  {
  }

  /** Normalising twice is normalising once. */
  lemma NormalizeIsIdempotent(decode: Decoder, p: Path)
    requires LeavesPlain(decode)
    ensures var r := Normalize(decode, p); r.Ok? ==> Normalize(decode, r.value) == r
  {
    hide Canonical, Normalize;
    var r := Normalize(decode, p);
    if r.Ok? {
      NormalizedIsCanonical(decode, p);
      FixedIffCanonical(decode, r.value);
    }
  }
}
