/** The segment stack against the dot-segment algorithm of section 5.2.4 of RFC 3986. */
module PathDots {
  import opened Bytes
  import opened Text
  import opened PolicyPath

  // ---------------------------------------------------------------------------------------------
  // Dot segments
  // ---------------------------------------------------------------------------------------------

  predicate StartsWith(p: Path, prefix: Path) {
    |prefix| <= |p| && p[..|prefix|] == prefix
  }

  function NextSlash(p: Path, from: nat): (r: nat)
    requires from <= |p|
    ensures from <= r <= |p|
    ensures forall i :: from <= i < r ==> p[i] != SLASH
    ensures r < |p| ==> p[r] == SLASH
    decreases |p| - from
  {
    if from == |p| || p[from] == SLASH then from else NextSlash(p, from + 1)
  }

  /** Drop the last segment and the slash before it, if there is one. */
  function DropLastSegment(p: Path): Path {
    if p == [] then []
    else if p[|p| - 1] == SLASH then p[..|p| - 1]
    else DropLastSegment(p[..|p| - 1])
  }

  /** The algorithm of section 5.2.4 of RFC 3986, rule by rule. */
  function RemoveDotSegments(input: Path, output: Path): Path
    decreases |input|
  {
    if input == [] then output
    else if StartsWith(input, [DOT, DOT, SLASH]) then RemoveDotSegments(input[3..], output)
    else if StartsWith(input, [DOT, SLASH]) then RemoveDotSegments(input[2..], output)
    else if StartsWith(input, [SLASH, DOT, SLASH]) then RemoveDotSegments(input[2..], output)
    else if input == [SLASH, DOT] then RemoveDotSegments([SLASH], output)
    else if StartsWith(input, [SLASH, DOT, DOT, SLASH]) then RemoveDotSegments(input[3..], DropLastSegment(output))
    else if input == [SLASH, DOT, DOT] then RemoveDotSegments([SLASH], DropLastSegment(output))
    else if input == [DOT] || input == [DOT, DOT] then output
    else
      var end := NextSlash(input, 1);
      RemoveDotSegments(input[end..], output + input[..end])
  }

  /** The output buffer that holds a stack of segments. */
  function Flat(stack: seq<Path>): Path {
    if stack == [] then [] else Flat(stack[..|stack| - 1]) + [SLASH] + stack[|stack| - 1]
  }

  lemma {:induction false} DropSegment(p: Path, s: Path)
    requires SLASH !in s
    ensures DropLastSegment(p + [SLASH] + s) == p
    decreases |s|
  {
    var whole := p + [SLASH] + s;
    if s == [] {
      assert whole[..|whole| - 1] == p;
    } else {
      assert whole[|whole| - 1] == s[|s| - 1] && s[|s| - 1] in s;
      assert whole[..|whole| - 1] == p + [SLASH] + s[..|s| - 1];
      DropSegment(p, s[..|s| - 1]);
    }
  }

  lemma {:induction false} FlatIsJoin(stack: seq<Path>)
    requires stack != []
    ensures Flat(stack) == [SLASH] + Join(stack, SLASH)
  {
    if |stack| == 1 {
      assert stack[..0] == [];
    } else {
      var init := stack[..|stack| - 1];
      FlatIsJoin(init);
      JoinLast(init, stack[|stack| - 1], SLASH);
      assert init + [stack[|stack| - 1]] == stack;
    }
  }

  predicate IsDotSegment(s: Path) {
    s == [DOT] || s == [DOT, DOT]
  }

  /** What RFC 3986 makes of the segments still to come, over the stack of those done. */
  function Rest(segments: seq<Path>, stack: seq<Path>): Path
    requires segments != []
  {
    var r := Resolve(segments, stack);
    var last := segments[|segments| - 1];
    if last == [] || IsDotSegment(last) then Flat(r) + [SLASH] else Flat(r)
  }

  predicate PlainSegments(segments: seq<Path>) {
    && segments != []
    && (forall i :: 0 <= i < |segments| ==> SLASH !in segments[i])
    && (forall i :: 0 <= i < |segments| - 1 ==> segments[i] != [])
  }

  lemma SlashAhead(s: Path, tail: Path)
    requires SLASH !in s && (tail != [] ==> tail[0] == SLASH)
    ensures var input := [SLASH] + s + tail;
      NextSlash(input, 1) == 1 + |s| && input[..1 + |s|] == [SLASH] + s && input[1 + |s|..] == tail
  {
    hide NextSlash;
    var input := [SLASH] + s + tail;
    assert forall i :: 1 <= i < 1 + |s| ==> input[i] == s[i - 1] && s[i - 1] in s;
    assert tail != [] ==> input[1 + |s|] == tail[0];
  }

  lemma PushFlat(stack: seq<Path>, s: Path)
    ensures Flat(stack + [s]) == Flat(stack) + ([SLASH] + s)
  {
    assert (stack + [s])[..|stack|] == stack;
  }

  lemma PopFlat(stack: seq<Path>)
    requires stack != [] ==> SLASH !in stack[|stack| - 1]
    ensures DropLastSegment(Flat(stack)) == Flat(NextStack([DOT, DOT], stack))
  {
    if stack != [] { DropSegment(Flat(stack[..|stack| - 1]), stack[|stack| - 1]); }
  }

  lemma LastSegment(s: Path, stack: seq<Path>)
    requires SLASH !in s && AllProper(stack)
    ensures RemoveDotSegments([SLASH] + s, Flat(stack)) == Rest([s], stack)
  {
    hide RemoveDotSegments, DropLastSegment, Flat, Resolve;
    var input := [SLASH] + s;
    var output := Flat(stack);
    ResolveOne(s, stack);
    PopFlat(stack);
    FinalRules(output);
    if s == [] {
      assert input == [SLASH];
    } else if s == [DOT] {
      assert input == [SLASH, DOT];
    } else if s == [DOT, DOT] {
      assert input == [SLASH, DOT, DOT];
    } else {
      PlainRule(s, [], output);
      FinalRules(output + ([SLASH] + s));
      assert input + [] == input;
      PushFlat(stack, s);
    }
  }

  lemma ResolveOne(s: Path, stack: seq<Path>)
    ensures Resolve([s], stack) == NextStack(s, stack)
  {
    assert [s][1..] == [];
  }

  lemma FinalRules(output: Path)
    ensures RemoveDotSegments([], output) == output
    ensures RemoveDotSegments([SLASH], output) == output + [SLASH]
    ensures RemoveDotSegments([SLASH, DOT], output) == output + [SLASH]
    ensures RemoveDotSegments([SLASH, DOT, DOT], output) == DropLastSegment(output) + [SLASH]
  {
    hide DropLastSegment;
    SlashLeft(output);
    SlashLeft(DropLastSegment(output));
    FirstOctet([SLASH, DOT], [DOT, SLASH]);
    FirstOctet([SLASH, DOT, DOT], [DOT, SLASH]);
    FirstOctet([SLASH, DOT, DOT], [DOT, DOT, SLASH]);
    assert [SLASH, DOT, DOT][..3][2] == DOT;
  }

  /** A segment that is no dot segment is moved. */
  lemma PlainRule(s: Path, tail: Path, output: Path)
    requires SLASH !in s && s != [] && !IsDotSegment(s) && (tail != [] ==> tail[0] == SLASH)
    ensures RemoveDotSegments([SLASH] + s + tail, output) == RemoveDotSegments(tail, output + ([SLASH] + s))
  {
    hide RemoveDotSegments, StartsWith, NextSlash;
    var input := [SLASH] + s + tail;
    SlashAhead(s, tail);
    assert input[1..1 + |s|] == s;
    assert tail != [] ==> input[1 + |s|] == tail[0];
    NotDotRules(input, s);
    MoveRule(input, output);
  }

  /** The last rule of the algorithm: one more segment is moved to the output. */
  lemma MoveRule(input: Path, output: Path)
    requires input != []
    requires !StartsWith(input, [DOT, DOT, SLASH]) && !StartsWith(input, [DOT, SLASH])
    requires !StartsWith(input, [SLASH, DOT, SLASH]) && !StartsWith(input, [SLASH, DOT, DOT, SLASH])
    requires input != [SLASH, DOT] && input != [SLASH, DOT, DOT] && input != [DOT] && input != [DOT, DOT]
    ensures var end := NextSlash(input, 1);
      RemoveDotSegments(input, output) == RemoveDotSegments(input[end..], output + input[..end])
  {
    hide StartsWith;
  }

  /** A dot segment with more to follow is dropped, and a double one takes a segment with it. */
  lemma DotRules(s: Path, tail: Path, output: Path)
    requires IsDotSegment(s) && tail != [] && tail[0] == SLASH
    ensures RemoveDotSegments([SLASH] + s + tail, output)
         == RemoveDotSegments(tail, if s == [DOT] then output else DropLastSegment(output))
  {
    hide DropLastSegment;
    var input := [SLASH] + s + tail;
    FirstOctet(input, [DOT, DOT, SLASH]);
    FirstOctet(input, [DOT, SLASH]);
    if s == [DOT] {
      assert input[..3] == [SLASH, DOT, SLASH] && input[2..] == tail;
    } else {
      assert input[..4] == [SLASH, DOT, DOT, SLASH] && input[3..] == tail;
      assert input[..3][2] == DOT;
    }
  }

  lemma FirstOctet(input: Path, prefix: Path)
    requires prefix != []
    ensures StartsWith(input, prefix) ==> input != [] && input[0] == prefix[0]
  {
    if StartsWith(input, prefix) { assert input[..|prefix|][0] == prefix[0]; }
  }

  lemma SlashLeft(output: Path)
    ensures RemoveDotSegments([SLASH], output) == output + [SLASH]
  {
    assert [SLASH][1..] == [] && [SLASH][..1] == [SLASH];
  }

  lemma {:induction false} DotSegmentsRemoved(segments: seq<Path>, stack: seq<Path>)
    requires PlainSegments(segments) && AllProper(stack)
    ensures RemoveDotSegments([SLASH] + Join(segments, SLASH), Flat(stack)) == Rest(segments, stack)
  {
    hide RemoveDotSegments, Flat, Rest;
    var s, rest := segments[0], segments[1..];
    if rest == [] {
      assert segments == [s];
      assert Join(segments, SLASH) == s;
      LastSegment(s, stack);
    } else {
      hide Join;
      DotSegmentsRemoved(rest, NextStack(s, stack));
      RestStep(segments, stack);
      OneSegment(segments, stack);
    }
  }

  lemma RestStep(segments: seq<Path>, stack: seq<Path>)
    requires |segments| > 1
    ensures Rest(segments, stack) == Rest(segments[1..], NextStack(segments[0], stack))
  {
    hide NextStack, Flat;
  }

  /** One segment with more to follow: the rule that applies, and the buffers it leaves. */
  lemma OneSegment(segments: seq<Path>, stack: seq<Path>)
    requires PlainSegments(segments) && |segments| > 1 && AllProper(stack)
    ensures
      RemoveDotSegments([SLASH] + Join(segments, SLASH), Flat(stack))
      == RemoveDotSegments([SLASH] + Join(segments[1..], SLASH), Flat(NextStack(segments[0], stack)))
  {
    hide RemoveDotSegments, Flat, DropLastSegment;
    var (s, tail) := (segments[0], [SLASH] + Join(segments[1..], SLASH));
    assert [SLASH] + Join(segments, SLASH) == [SLASH] + s + tail;
    hide Join;
    PopFlat(stack);
    PushFlat(stack, s);
    if IsDotSegment(s) { DotRules(s, tail, Flat(stack)); } else { PlainRule(s, tail, Flat(stack)); }
  }

  lemma NotDotRules(input: Path, s: Path)
    requires |input| >= 1 + |s| && input[0] == SLASH && input[1..1 + |s|] == s
    requires |input| > 1 + |s| ==> input[1 + |s|] == SLASH
    requires s != [] && s != [DOT] && s != [DOT, DOT] && SLASH !in s
    ensures !StartsWith(input, [DOT, DOT, SLASH]) && !StartsWith(input, [DOT, SLASH])
    ensures !StartsWith(input, [SLASH, DOT, SLASH]) && !StartsWith(input, [SLASH, DOT, DOT, SLASH])
    ensures input != [SLASH, DOT] && input != [SLASH, DOT, DOT] && input != [DOT] && input != [DOT, DOT]
  {
    assert input[1] == s[0];
    if |s| == 1 {
      assert s == [s[0]];
    } else {
      assert input[2] == s[1] && s[1] in s;
      if |s| == 2 { assert s == [s[0], s[1]]; } else { assert input[3] == s[2] && s[2] in s; }
    }
  }

  /**
  On the paths that pass the check, resolution agrees with RFC 3986, except that a final dot
  segment leaves no trailing slash.
  */
  lemma AgreesWithRfc3986(p: Path)
    requires Acceptable(p)
    ensures
      var parts := Split(p, SLASH);
      var rfc := RemoveDotSegments(p, []);
      rfc == if IsDotSegment(parts[|parts| - 1]) && ResolveDots(p) != [SLASH]
             then ResolveDots(p) + [SLASH] else ResolveDots(p)
  {
    var parts := Split(p, SLASH);
    JoinSplit(p, SLASH);
    SplitParts(p, SLASH);
    LastPart(p);
    NoEmptyParts(p);
    var segments := parts[1..];
    assert p == [SLASH] + Join(segments, SLASH);
    DotSegmentsRemoved(segments, []);
    assert Flat([]) == [];
    var r := Resolve(parts, []);
    assert r == Resolve(segments, []);
    ResolveSegments(segments, []);
    if r != [] {
      FlatIsJoin(r);
      JoinProper(r);
    } else {
      assert [SLASH] + Join(r, SLASH) == [SLASH];
      LastProperStays(segments, []);
    }
  }

  lemma {:induction false} ResolveSegments(segments: seq<Path>, stack: seq<Path>)
    requires AllProper(stack) && forall i :: 0 <= i < |segments| ==> SLASH !in segments[i]
    ensures AllProper(Resolve(segments, stack))
  {
    if segments != [] {
      ResolveSegments(segments[1..], NextStack(segments[0], stack));
    }
  }

  /** A final segment that is neither empty nor a dot segment is kept. */
  lemma {:induction false} LastProperStays(segments: seq<Path>, stack: seq<Path>)
    requires segments != []
    ensures var last := segments[|segments| - 1];
      last != [] && !IsDotSegment(last) ==> Resolve(segments, stack) != []
  {
    if |segments| > 1 { LastProperStays(segments[1..], NextStack(segments[0], stack)); }
  }

  /** Only the first and last parts of an acceptable path can be empty, and the first is. */
  lemma NoEmptyParts(p: Path)
    requires Acceptable(p)
    ensures var parts := Split(p, SLASH);
      |parts| > 1 && parts[0] == [] && forall i :: 1 <= i < |parts| - 1 ==> parts[i] != []
  {
    assert Split(p, SLASH) == [[]] + Split(p[1..], SLASH);
    var parts := Split(p, SLASH);
    forall i | 1 <= i < |parts| - 1 ensures parts[i] != [] {
      if parts[i] == [] { EmptyPartIsDouble(p, i); }
    }
  }

  lemma {:induction false} EmptyPartIsDouble(p: Path, i: nat)
    requires var parts := Split(p, SLASH); 0 < i < |parts| - 1 && parts[i] == []
    ensures DoubleSlash(p)
  {
    var tail := Split(p[1..], SLASH);
    if p[0] == SLASH && i == 1 {
      assert tail[0] == [] && |tail| > 1;
      assert p[1] == p[1..][0] == SLASH;
    } else {
      EmptyPartIsDouble(p[1..], if p[0] == SLASH then i - 1 else i);
      var k :| 0 <= k < |p[1..]| - 1 && p[1..][k] == SLASH && p[1..][k + 1] == SLASH;
      assert p[k + 1] == SLASH && p[k + 2] == SLASH;
    }
  }
}
