/**
Which forward-auth policy applies to a request: a single pass that keeps the best-ranked match and
remembers whether the best rank was seen twice.
*/
module PolicySelection {
  import opened Wrappers
  import opened Text

  datatype Policy = Policy(
    id: nat,
    forwardAuth: bool,
    enabled: bool,
    hostPattern: Option<string>,
    pathPrefix: Option<string>)

  datatype Denied = Forbidden

  /** Whether a pattern compiles and, anchored and ignoring case, matches the host. */
  type Regex = (string, string) -> bool

  datatype Query = Query(host: string, path: string, regex: Regex)

  predicate LiteralChar(c: char) {
    'a' <= c <= 'z' || 'A' <= c <= 'Z' || '0' <= c <= '9' || c == '.' || c == '-' || c == ':' || c == '_'
  }

  predicate LiteralHost(pattern: string) {
    pattern != [] && forall i :: 0 <= i < |pattern| ==> LiteralChar(pattern[i])
  }

  predicate HostMatches(pattern: string, q: Query) {
    if LiteralHost(pattern) then EqIgnoreCase(pattern, q.host) else q.regex(pattern, q.host)
  }

  predicate Matches(p: Policy, q: Query) {
    && (p.hostPattern.Some? ==> HostMatches(p.hostPattern.value, q))
    && (p.pathPrefix.Some? ==> p.pathPrefix.value <= q.path)
  }

  predicate Candidate(p: Policy, q: Query) {
    p.forwardAuth && Matches(p, q)
  }

  function Prefix(p: Policy): string {
    UnwrapOr(p.pathPrefix, "")
  }

  /** Longer path prefixes first; among equals, a literal host before any other. */
  datatype Rank = Rank(prefix: nat, literal: bool)

  function RankOf(p: Policy): Rank {
    Rank(|Prefix(p)|, p.hostPattern.Some? && LiteralHost(p.hostPattern.value))
  }

  predicate Less(a: Rank, b: Rank) {
    a.prefix < b.prefix || (a.prefix == b.prefix && !a.literal && b.literal)
  }

  // ---------------------------------------------------------------------------------------------
  // The specification
  // ---------------------------------------------------------------------------------------------

  predicate Top(policies: seq<Policy>, q: Query, i: int) {
    && 0 <= i < |policies| && Candidate(policies[i], q)
    && forall k :: 0 <= k < |policies| && Candidate(policies[k], q) ==>
         !Less(RankOf(policies[i]), RankOf(policies[k]))
  }

  predicate Ambiguous(policies: seq<Policy>, q: Query) {
    exists i, j :: 0 <= i < j < |policies| && Top(policies, q, i) && Top(policies, q, j)
  }

  /** Refused when the best rank is attained twice; else the best match, if there is one and it is enabled. */
  ghost function Select(policies: seq<Policy>, q: Query): Result<Option<Policy>, Denied> {
    if Ambiguous(policies, q) then Err(Forbidden)
    else if exists i :: Top(policies, q, i) then
      var i :| Top(policies, q, i);
      Ok(if policies[i].enabled then Some(policies[i]) else None)
    else Ok(None)
  }

  lemma SelectIs(policies: seq<Policy>, q: Query, i: nat)
    requires Top(policies, q, i) && !Ambiguous(policies, q)
    ensures Select(policies, q) == Ok(if policies[i].enabled then Some(policies[i]) else None)
  {
    TopBound(policies, q);
    hide Top;
    var k :| Top(policies, q, k) && Select(policies, q) == Ok(if policies[k].enabled then Some(policies[k]) else None);
  }

  lemma TopBound(policies: seq<Policy>, q: Query)
    ensures forall i :: Top(policies, q, i) ==> 0 <= i < |policies|
  {
  }

  /** What the pass knows after the first `n` policies. */
  ghost predicate Scanned(policies: seq<Policy>, q: Query, n: nat, best: Option<nat>, ambiguous: bool)
    requires n <= |policies|
  {
    var seen := policies[..n];
    && (best.None? ==> !ambiguous && forall k :: 0 <= k < n ==> !Candidate(seen[k], q))
    && (best.Some? ==> Top(seen, q, best.value))
    && (best.Some? ==> (ambiguous <==> exists k :: k != best.value && Top(seen, q, k)))
  }

  lemma TopStep(policies: seq<Policy>, q: Query, n: nat, i: nat)
    requires n < |policies| && i < n
    ensures Top(policies[..n + 1], q, i) <==>
      && Top(policies[..n], q, i)
      && (Candidate(policies[n], q) ==> !Less(RankOf(policies[i]), RankOf(policies[n])))
  {
    hide Candidate, Less, RankOf;
    var (seen, more) := (policies[..n], policies[..n + 1]);
    assert more == seen + [policies[n]];
    if Top(more, q, i) {
      forall k | 0 <= k < n && Candidate(seen[k], q) ensures !Less(RankOf(seen[i]), RankOf(seen[k])) {
        assert more[k] == seen[k];
      }
    }
  }

  lemma NewTop(policies: seq<Policy>, q: Query, n: nat)
    requires n < |policies|
    ensures Top(policies[..n + 1], q, n) <==>
      && Candidate(policies[n], q)
      && forall k :: 0 <= k < n && Candidate(policies[k], q) ==> !Less(RankOf(policies[n]), RankOf(policies[k]))
  {
    hide Candidate, RankOf;
    var more := policies[..n + 1];
    assert forall k :: 0 <= k <= n ==> more[k] == policies[k];
  }

  lemma ScanSkips(policies: seq<Policy>, q: Query, n: nat, best: Option<nat>, ambiguous: bool)
    requires n < |policies| && Scanned(policies, q, n, best, ambiguous)
    requires Candidate(policies[n], q) ==> best.Some? && Less(RankOf(policies[n]), RankOf(policies[best.value]))
    ensures Scanned(policies, q, n + 1, best, ambiguous)
  {
    hide Candidate, RankOf;
    var (seen, more) := (policies[..n], policies[..n + 1]);
    assert forall k :: 0 <= k < n ==> seen[k] == policies[k];
    NewTop(policies, q, n);
    forall i | 0 <= i < n ensures Top(more, q, i) <==> Top(seen, q, i) {
      TopStep(policies, q, n, i);
      if Candidate(policies[n], q) { assert seen[best.value] == policies[best.value]; }
    }
    TopBound(seen, q);
    TopBound(more, q);
    assert !Top(more, q, n) by {
      if best.Some? { assert seen[best.value] == policies[best.value]; }
    }
  }

  lemma ScanTies(policies: seq<Policy>, q: Query, n: nat, best: Option<nat>, ambiguous: bool)
    requires n < |policies| && Scanned(policies, q, n, best, ambiguous)
    requires Candidate(policies[n], q) && best.Some? && RankOf(policies[n]) == RankOf(policies[best.value])
    ensures Scanned(policies, q, n + 1, best, true)
  {
    hide Candidate, RankOf;
    NewTop(policies, q, n);
    TopStep(policies, q, n, best.value);
    var seen := policies[..n];
    assert seen[best.value] == policies[best.value];
    assert forall k :: 0 <= k < n ==> seen[k] == policies[k];
    assert Top(policies[..n + 1], q, n);
  }

  lemma ScanReplaces(policies: seq<Policy>, q: Query, n: nat, best: Option<nat>, ambiguous: bool)
    requires n < |policies| && Scanned(policies, q, n, best, ambiguous) && Candidate(policies[n], q)
    requires best.Some? ==> Less(RankOf(policies[best.value]), RankOf(policies[n]))
    ensures Scanned(policies, q, n + 1, Some(n), false)
  {
    hide Candidate, RankOf;
    NewTop(policies, q, n);
    var (seen, more) := (policies[..n], policies[..n + 1]);
    assert forall k :: 0 <= k < n ==> seen[k] == policies[k];
    TopBound(more, q);
    forall i | 0 <= i < n ensures !Top(more, q, i) {
      TopStep(policies, q, n, i);
      if best.Some? { assert seen[best.value] == policies[best.value]; }
    }
  }

  /** `find_matching`. */
  method FindMatching(policies: seq<Policy>, q: Query) returns (r: Result<Option<Policy>, Denied>)
    ensures r == Select(policies, q)
  {
    hide Candidate, Top, Scanned, RankOf;
    var selected: Option<Policy> := None;
    var selectedRank: Option<Rank> := None;
    var ambiguous := false;
    ghost var best: Option<nat> := None;
    assert Scanned(policies, q, 0, None, false) by { NothingScanned(policies, q); }
    for n := 0 to |policies|
      invariant Scanned(policies, q, n, best, ambiguous)
      invariant best.Some? <==> selected.Some?
      invariant best.Some? <==> selectedRank.Some?
      invariant best.Some? ==> best.value < |policies| && selected == Some(policies[best.value])
      invariant best.Some? ==> selectedRank == Some(RankOf(policies[best.value]))
    {
      var policy := policies[n];
      if !Candidate(policy, q) {
        ScanSkips(policies, q, n, best, ambiguous);
        continue;
      }
      var rank := RankOf(policy);
      if selectedRank.Some? && Less(rank, selectedRank.value) {
        ScanSkips(policies, q, n, best, ambiguous);
        continue;
      }
      if selectedRank.Some? && rank == selectedRank.value {
        ScanTies(policies, q, n, best, ambiguous);
        ambiguous := true;
      } else {
        ScanReplaces(policies, q, n, best, ambiguous);
        selectedRank := Some(rank);
        selected := Some(policy);
        ambiguous := false;
        best := Some(n);
      }
    }
    ScanDecides(policies, q, best, ambiguous);
    if ambiguous {
      return Err(Forbidden);
    }
    r := Ok(if selected.Some? && selected.value.enabled then selected else None);
  }

  lemma NothingScanned(policies: seq<Policy>, q: Query)
    ensures Scanned(policies, q, 0, None, false)
  {
  }

  lemma ScanDecides(policies: seq<Policy>, q: Query, best: Option<nat>, ambiguous: bool)
    requires Scanned(policies, q, |policies|, best, ambiguous)
    ensures best.Some? ==> best.value < |policies|
    ensures Select(policies, q) ==
      if ambiguous then Err(Forbidden)
      else if best.Some? && policies[best.value].enabled then Ok(Some(policies[best.value]))
      else Ok(None)
  {
    hide Candidate;
    assert policies[..|policies|] == policies;
    if best.Some? {
      var b := best.value;
      if ambiguous {
        var k :| k != b && Top(policies, q, k);
        if k < b { assert Top(policies, q, k) && Top(policies, q, b); }
        else { assert Top(policies, q, b) && Top(policies, q, k); }
      } else {
        assert !Ambiguous(policies, q);
        SelectIs(policies, q, b);
      }
    }
  }

  /** `p` is more specific than `r`: a longer path prefix, or an equally long one and the only literal host. */
  predicate MoreSpecific(p: Policy, r: Policy) {
    || |Prefix(p)| > |Prefix(r)|
    || (&& |Prefix(p)| == |Prefix(r)|
        && p.hostPattern.Some? && LiteralHost(p.hostPattern.value)
        && !(r.hostPattern.Some? && LiteralHost(r.hostPattern.value)))
  }

  /** A match that is more specific than every other match is the one that decides. */
  lemma MostSpecificDecides(policies: seq<Policy>, q: Query, i: nat)
    requires i < |policies| && Candidate(policies[i], q)
    requires forall k :: 0 <= k < |policies| && k != i && Candidate(policies[k], q) ==>
      MoreSpecific(policies[i], policies[k])
    ensures Select(policies, q) == Ok(if policies[i].enabled then Some(policies[i]) else None)
  {
    hide Candidate, LiteralHost;
    assert Top(policies, q, i);
    SelectIs(policies, q, i);
  }

  // ---------------------------------------------------------------------------------------------
  // What the choice depends on
  // ---------------------------------------------------------------------------------------------

  /** `perm` rearranges the indices below `n`, and `back` undoes it. */
  predicate Rearranges(perm: seq<nat>, back: seq<nat>, n: nat) {
    && |perm| == n && |back| == n
    && (forall i :: 0 <= i < n ==> perm[i] < n && back[perm[i]] == i)
    && (forall i :: 0 <= i < n ==> back[i] < n && perm[back[i]] == i)
  }

  lemma TopMoves(policies: seq<Policy>, moved: seq<Policy>, q: Query, perm: seq<nat>, back: seq<nat>, i: nat)
    requires |moved| == |policies| && Rearranges(perm, back, |policies|) && i < |policies|
    requires forall k :: 0 <= k < |moved| ==> moved[k] == policies[perm[k]]
    ensures Top(moved, q, i) <==> Top(policies, q, perm[i])
  {
    hide Candidate, RankOf;
    forall k | 0 <= k < |policies| ensures policies[k] == moved[back[k]] {
    }
  }

  lemma AmbiguityMoves(policies: seq<Policy>, moved: seq<Policy>, q: Query, perm: seq<nat>, back: seq<nat>)
    requires |moved| == |policies| && Rearranges(perm, back, |policies|)
    requires forall k :: 0 <= k < |moved| ==> moved[k] == policies[perm[k]]
    requires Ambiguous(moved, q)
    ensures Ambiguous(policies, q)
  {
    hide Top;
    var i, j :| 0 <= i < j < |moved| && Top(moved, q, i) && Top(moved, q, j);
    TopMoves(policies, moved, q, perm, back, i);
    TopMoves(policies, moved, q, perm, back, j);
    if perm[i] < perm[j] {
      assert Top(policies, q, perm[i]) && Top(policies, q, perm[j]);
    } else {
      assert back[perm[i]] != back[perm[j]];
      assert Top(policies, q, perm[j]) && Top(policies, q, perm[i]);
    }
  }

  /** The order in which the policies are listed is irrelevant. */
  lemma OrderIsIrrelevant(policies: seq<Policy>, moved: seq<Policy>, q: Query, perm: seq<nat>, back: seq<nat>)
    requires |moved| == |policies| && Rearranges(perm, back, |policies|)
    requires forall k :: 0 <= k < |moved| ==> moved[k] == policies[perm[k]]
    ensures Select(moved, q) == Select(policies, q)
  {
    TopBound(policies, q);
    TopBound(moved, q);
    hide Top;
    forall k | 0 <= k < |policies| ensures policies[k] == moved[back[k]] {
      assert moved[back[k]] == policies[perm[back[k]]];
    }
    if Ambiguous(policies, q) {
      AmbiguityMoves(moved, policies, q, back, perm);
    } else if Ambiguous(moved, q) {
      AmbiguityMoves(policies, moved, q, perm, back);
    } else if i :| Top(moved, q, i) {
      TopMoves(policies, moved, q, perm, back, i);
      SelectIs(moved, q, i);
      SelectIs(policies, q, perm[i]);
    } else if i :| Top(policies, q, i) {
      TopMoves(policies, moved, q, perm, back, back[i]);
      assert false;
    }
  }

  /** The same policies with other enabled flags. */
  predicate FlagsDiffer(a: seq<Policy>, b: seq<Policy>) {
    |a| == |b| && forall i :: 0 <= i < |a| ==> b[i] == a[i].(enabled := b[i].enabled)
  }

  lemma FlagsKeepTop(a: seq<Policy>, b: seq<Policy>, q: Query, i: int)
    requires FlagsDiffer(a, b)
    ensures Top(a, q, i) == Top(b, q, i)
  {
    forall k | 0 <= k < |a|
      ensures Candidate(a[k], q) == Candidate(b[k], q) && RankOf(a[k]) == RankOf(b[k])
    {
      assert b[k] == a[k].(enabled := b[k].enabled);
    }
    hide Candidate, RankOf;
  }

  /**
  Enabling or disabling policies never makes a different one apply: the flags decide only whether
  the one chosen without regard to them counts.
  */
  lemma FlagsNeverRedirect(a: seq<Policy>, b: seq<Policy>, q: Query)
    requires FlagsDiffer(a, b)
    ensures Select(a, q).Err? <==> Select(b, q).Err?
    ensures Select(a, q).Ok? && Select(a, q).value.Some? ==>
      var p := Select(a, q).value.value;
      Select(b, q) == Ok(None) || Select(b, q) == Ok(Some(p))
  {
    TopBound(a, q);
    TopBound(b, q);
    hide Top;
    forall i ensures Top(a, q, i) == Top(b, q, i) {
      FlagsKeepTop(a, b, q, i);
    }
    if !Ambiguous(a, q) && exists i :: Top(a, q, i) {
      var i :| Top(a, q, i);
      SelectIs(a, q, i);
      SelectIs(b, q, i);
      assert b[i] == a[i].(enabled := b[i].enabled);
    }
  }

  /** Two policies compete for some request on equal terms. */
  ghost predicate CanTie(p: Policy, r: Policy, regex: Regex) {
    RankOf(p) == RankOf(r) && exists q: Query :: q.regex == regex && Matches(p, q) && Matches(r, q)
  }

  /** Two policies with literal hosts can tie exactly when the hosts agree ignoring case and the prefixes are equal. */
  lemma LiteralTies(p: Policy, r: Policy, regex: Regex)
    requires p.hostPattern.Some? && LiteralHost(p.hostPattern.value)
    requires r.hostPattern.Some? && LiteralHost(r.hostPattern.value)
    ensures CanTie(p, r, regex) <==>
      EqIgnoreCase(p.hostPattern.value, r.hostPattern.value) && Prefix(p) == Prefix(r)
  {
    hide LiteralHost, EqIgnoreCase;
    if CanTie(p, r, regex) {
      var q: Query :| q.regex == regex && Matches(p, q) && Matches(r, q);
      SameLengthPrefixes(Prefix(p), Prefix(r), q.path);
      SameHost(p.hostPattern.value, r.hostPattern.value, q.host);
    }
    if EqIgnoreCase(p.hostPattern.value, r.hostPattern.value) && Prefix(p) == Prefix(r) {
      var q := Query(r.hostPattern.value, Prefix(p), regex);
      SameHost(r.hostPattern.value, r.hostPattern.value, r.hostPattern.value);
      assert q.regex == regex && Matches(p, q) && Matches(r, q);
    }
  }

  lemma SameLengthPrefixes(a: string, b: string, path: string)
    requires a <= path && b <= path && |a| == |b|
    ensures a == b
  {
    assert a == path[..|a|];
    assert b == path[..|b|];
  }

  lemma SameHost(a: string, b: string, host: string)
    ensures EqIgnoreCase(a, host) && EqIgnoreCase(b, host) ==> EqIgnoreCase(a, b)
    ensures EqIgnoreCase(a, a)
  {
  }
}
