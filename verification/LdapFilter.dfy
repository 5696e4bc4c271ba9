/**
LDAP filters over a flat entry: boolean structure, equality, presence, and substring assertions
decided by one greedy pass from left to right.
*/
module LdapFilter {
  import opened Wrappers
  import opened Text

  datatype Entry = Entry(dn: string, attrs: seq<(string, seq<string>)>)

  datatype SubstringParts = SubstringParts(initial: Option<string>, any: seq<string>, final: Option<string>)

  datatype Filter =
    | And(children: seq<Filter>)
    | Or(children: seq<Filter>)
    | Not(inner: Filter)
    | Present(attr: string)
    | Equality(attr: string, value: string)
    | Approx(attr: string, value: string)
    | Substring(attr: string, parts: SubstringParts)
    | GreaterOrEqual(attr: string, value: string)
    | LessOrEqual(attr: string, value: string)
    | Extensible

  /** The values of the first attribute of that name, whatever its case. */
  function AttrValues(attrs: seq<(string, seq<string>)>, name: string): Option<seq<string>> {
    if attrs == [] then None
    else if EqIgnoreCase(attrs[0].0, name) then Some(attrs[0].1)
    else AttrValues(attrs[1..], name)
  }

  // ---------------------------------------------------------------------------------------------
  // Substrings
  // ---------------------------------------------------------------------------------------------

  predicate OccursAt(text: string, needle: string, i: int) {
    0 <= i <= |text| - |needle| && text[i..i + |needle|] == needle
  }

  /** `str::find` on the text from `from` on: the earliest occurrence. */
  function Find(text: string, needle: string, from: nat): (r: Option<nat>)
    requires from <= |text|
    ensures r.Some? ==> from <= r.value && OccursAt(text, needle, r.value)
    ensures forall j :: from <= j && (r.None? || j < r.value) ==> !OccursAt(text, needle, j)
    decreases |text| - from
  {
    if OccursAt(text, needle, from) then Some(from)
    else if from == |text| then None
    else Find(text, needle, from + 1)
  }

  /** Where the part before `any[i]` ends, when the earlier parts are placed at `at`. */
  function EndBefore(parts: SubstringParts, at: seq<nat>, i: nat): nat
    requires i <= |parts.any| && i <= |at|
  {
    if i > 0 then at[i - 1] + |parts.any[i - 1]|
    else if parts.initial.Some? then |parts.initial.value| else 0
  }

  /** The first `n` middle parts lie in order, without overlap, after the initial part. */
  predicate PlacedUpTo(text: string, parts: SubstringParts, at: seq<nat>, n: nat)
    requires n <= |parts.any| && n <= |at|
  {
    forall i :: 0 <= i < n ==> EndBefore(parts, at, i) <= at[i] && OccursAt(text, Lower(parts.any[i]), at[i])
  }

  /**
  A placement of all the parts, case aside: the initial part at the start, the final part at the
  end, and the others in order between them, none overlapping (section 4.5.1.7.2 of RFC 4511).
  */
  predicate Placement(value: string, parts: SubstringParts, at: seq<nat>) {
    var text := Lower(value);
    && |at| == |parts.any|
    && (parts.initial.Some? ==> OccursAt(text, Lower(parts.initial.value), 0))
    && PlacedUpTo(text, parts, at, |at|)
    && (parts.final.Some? ==>
          && OccursAt(text, Lower(parts.final.value), |text| - |parts.final.value|)
          && EndBefore(parts, at, |at|) <= |text| - |parts.final.value|)
  }

  /** In every placement the part before `any[i]` ends at or after `cursor`. */
  ghost predicate Earliest(value: string, parts: SubstringParts, i: nat, cursor: nat) {
    forall p :: Placement(value, parts, p) && i <= |p| ==> cursor <= EndBefore(parts, p, i)
  }

  lemma EarliestStart(value: string, parts: SubstringParts)
    ensures PlacedUpTo(Lower(value), parts, [], 0)
    ensures Earliest(value, parts, 0, if parts.initial.Some? then |parts.initial.value| else 0)
    ensures parts.initial.Some? && !OccursAt(Lower(value), Lower(parts.initial.value), 0) ==>
      !exists at :: Placement(value, parts, at)
  {
    hide OccursAt;
  }

  /** The greedy choice for the next part ends no later than that part does in any placement. */
  lemma EarliestStep(value: string, parts: SubstringParts, i: nat, cursor: nat)
    requires i < |parts.any| && cursor <= |value| && Earliest(value, parts, i, cursor)
    ensures var found := Find(Lower(value), Lower(parts.any[i]), cursor);
      if found.Some? then Earliest(value, parts, i + 1, found.value + |parts.any[i]|)
      else !exists at :: Placement(value, parts, at)
  {
    var found := Find(Lower(value), Lower(parts.any[i]), cursor);
    forall p | Placement(value, parts, p)
      ensures found.Some? && found.value + |parts.any[i]| <= EndBefore(parts, p, i + 1)
    {
      assert cursor <= EndBefore(parts, p, i) <= p[i] && OccursAt(Lower(value), Lower(parts.any[i]), p[i]);
    }
    hide Find, OccursAt, Placement;
  }

  /** With every middle part placed as early as possible, only the final part can be missing. */
  lemma EarliestEnd(value: string, parts: SubstringParts, at: seq<nat>)
    requires |at| == |parts.any| && PlacedUpTo(Lower(value), parts, at, |at|)
    requires Earliest(value, parts, |at|, EndBefore(parts, at, |at|))
    requires parts.initial.Some? ==> OccursAt(Lower(value), Lower(parts.initial.value), 0)
    ensures
      var fits := parts.final.Some? ==>
        && EndBefore(parts, at, |at|) <= |value| - |parts.final.value|
        && OccursAt(Lower(value), Lower(parts.final.value), |value| - |parts.final.value|);
      (fits ==> Placement(value, parts, at)) && (!fits ==> !exists p :: Placement(value, parts, p))
  {
    hide PlacedUpTo, OccursAt;
  }

  /** The greedy matcher finds a placement whenever there is one. */
  method SubstringMatches(value: string, parts: SubstringParts) returns (r: bool)
    ensures r <==> exists at :: Placement(value, parts, at)
  {
    hide Placement, PlacedUpTo, Earliest, Find;
    EarliestStart(value, parts);
    var lower := Lower(value);
    var cursor: nat := 0;
    if parts.initial.Some? {
      var needle := Lower(parts.initial.value);
      if !OccursAt(lower, needle, 0) {
        return false;
      }
      cursor := |needle|;
    }
    ghost var at: seq<nat> := [];
    for i := 0 to |parts.any|
      invariant cursor <= |lower|
      invariant |at| == i && PlacedUpTo(lower, parts, at, i) && cursor == EndBefore(parts, at, i)
      invariant Earliest(value, parts, i, cursor)
    {
      var needle := Lower(parts.any[i]);
      var found := Find(lower, needle, cursor);
      EarliestStep(value, parts, i, cursor);
      if found.None? {
        return false;
      }
      ExtendPlacement(lower, parts, at, found.value);
      at := at + [found.value];
      cursor := found.value + |needle|;
    }
    EarliestEnd(value, parts, at);
    if parts.final.Some? {
      var needle := Lower(parts.final.value);
      if |lower| - cursor < |needle| || lower[|lower| - |needle|..] != needle {
        return false;
      }
    }
    r := true;
  }

  lemma ExtendPlacement(text: string, parts: SubstringParts, at: seq<nat>, next: nat)
    requires |at| < |parts.any| && PlacedUpTo(text, parts, at, |at|)
    requires EndBefore(parts, at, |at|) <= next && OccursAt(text, Lower(parts.any[|at|]), next)
    ensures PlacedUpTo(text, parts, at + [next], |at| + 1)
  {
    hide OccursAt, Lower;
    var at' := at + [next];
    forall i | 0 <= i < |at'|
      ensures EndBefore(parts, at', i) <= at'[i] && OccursAt(text, Lower(parts.any[i]), at'[i])
    {
      assert EndBefore(parts, at', i) == EndBefore(parts, at, i);
    }
  }

  // ---------------------------------------------------------------------------------------------
  // Filters
  // ---------------------------------------------------------------------------------------------

  ghost predicate ValueMatches(entry: Entry, attr: string, holds: string -> bool) {
    var values := AttrValues(entry.attrs, attr);
    values.Some? && exists i :: 0 <= i < |values.value| && holds(values.value[i])
  }

  /** What a filter means for an entry; orderings and extensible rules hold of none. */
  ghost predicate Matches(entry: Entry, filter: Filter) {
    match filter
    case And(children) => forall i :: 0 <= i < |children| ==> Matches(entry, children[i])
    case Or(children) => exists i :: 0 <= i < |children| && Matches(entry, children[i])
    case Not(inner) => !Matches(entry, inner)
    case Present(attr) => AttrValues(entry.attrs, attr).Some?
    case Equality(attr, value) => ValueMatches(entry, attr, v => EqIgnoreCase(v, value))
    case Approx(attr, value) => ValueMatches(entry, attr, v => EqIgnoreCase(v, value))
    case Substring(attr, parts) => ValueMatches(entry, attr, v => exists at :: Placement(v, parts, at))
    case _ => false
  }

  method EqualityMatches(entry: Entry, attr: string, value: string) returns (r: bool)
    ensures r == ValueMatches(entry, attr, v => EqIgnoreCase(v, value))
  {
    var values := AttrValues(entry.attrs, attr);
    if values.None? {
      return false;
    }
    for i := 0 to |values.value|
      invariant forall k :: 0 <= k < i ==> !EqIgnoreCase(values.value[k], value)
    {
      if EqIgnoreCase(values.value[i], value) {
        return true;
      }
    }
    r := false;
  }

  method SubstringFilterMatches(entry: Entry, attr: string, parts: SubstringParts) returns (r: bool)
    ensures r == ValueMatches(entry, attr, v => exists at :: Placement(v, parts, at))
  {
    hide Placement;
    var values := AttrValues(entry.attrs, attr);
    if values.None? {
      return false;
    }
    for i := 0 to |values.value|
      invariant forall k :: 0 <= k < i ==> !exists at :: Placement(values.value[k], parts, at)
    {
      var found := SubstringMatches(values.value[i], parts);
      if found {
        return true;
      }
    }
    r := false;
  }

  /** `filter::matches`, by recursion over the filter. */
  method Evaluate(entry: Entry, filter: Filter) returns (r: bool)
    ensures r == Matches(entry, filter)
    decreases filter
  {
    hide ValueMatches;
    match filter
    case And(children) =>
      for i := 0 to |children|
        invariant forall k :: 0 <= k < i ==> Matches(entry, children[k])
      {
        var holds := Evaluate(entry, children[i]);
        if !holds {
          return false;
        }
      }
      return true;
    case Or(children) =>
      for i := 0 to |children|
        invariant forall k :: 0 <= k < i ==> !Matches(entry, children[k])
      {
        var holds := Evaluate(entry, children[i]);
        if holds {
          return true;
        }
      }
      return false;
    case Not(inner) =>
      var holds := Evaluate(entry, inner);
      return !holds;
    case Present(attr) => return AttrValues(entry.attrs, attr).Some?;
    case Equality(attr, value) => r := EqualityMatches(entry, attr, value);
    case Approx(attr, value) => r := EqualityMatches(entry, attr, value);
    case Substring(attr, parts) => r := SubstringFilterMatches(entry, attr, parts);
    case _ => return false;
  }

  // ---------------------------------------------------------------------------------------------
  // Case
  // ---------------------------------------------------------------------------------------------

  function LowerOption(s: Option<string>): Option<string> {
    if s.Some? then Some(Lower(s.value)) else None
  }

  function LowerAll(ss: seq<string>): (r: seq<string>)
    ensures |r| == |ss| && forall i :: 0 <= i < |ss| ==> r[i] == Lower(ss[i])
  {
    seq(|ss|, i requires 0 <= i < |ss| => Lower(ss[i]))
  }

  function LowerParts(parts: SubstringParts): SubstringParts {
    SubstringParts(LowerOption(parts.initial), LowerAll(parts.any), LowerOption(parts.final))
  }

  /** The same filter with every attribute name and value in lower case. */
  function Folded(filter: Filter): Filter {
    match filter
    case And(children) => And(seq(|children|, i requires 0 <= i < |children| => Folded(children[i])))
    case Or(children) => Or(seq(|children|, i requires 0 <= i < |children| => Folded(children[i])))
    case Not(inner) => Not(Folded(inner))
    case Present(attr) => Present(Lower(attr))
    case Equality(attr, value) => Equality(Lower(attr), Lower(value))
    case Approx(attr, value) => Approx(Lower(attr), Lower(value))
    case Substring(attr, parts) => Substring(Lower(attr), LowerParts(parts))
    case _ => filter
  }

  lemma LowerIsIdempotent(s: string)
    ensures Lower(Lower(s)) == Lower(s)
  {
  }

  lemma {:induction false} LowerNameSameValues(attrs: seq<(string, seq<string>)>, name: string)
    ensures AttrValues(attrs, Lower(name)) == AttrValues(attrs, name)
  {
    LowerIsIdempotent(name);
    if attrs != [] { LowerNameSameValues(attrs[1..], name); }
  }

  lemma LowerPartsSamePlacements(value: string, parts: SubstringParts, at: seq<nat>)
    ensures Placement(value, LowerParts(parts), at) <==> Placement(value, parts, at)
  {
    var folded := LowerParts(parts);
    if parts.initial.Some? { LowerIsIdempotent(parts.initial.value); }
    if parts.final.Some? { LowerIsIdempotent(parts.final.value); }
    forall i | 0 <= i < |parts.any| ensures Lower(folded.any[i]) == Lower(parts.any[i]) {
      LowerIsIdempotent(parts.any[i]);
    }
    forall i | 0 <= i <= |parts.any| && i <= |at| ensures EndBefore(folded, at, i) == EndBefore(parts, at, i) {
    }
  }

  lemma LowerPartsMatchSame(entry: Entry, attr: string, parts: SubstringParts)
    ensures ValueMatches(entry, Lower(attr), v => exists at :: Placement(v, LowerParts(parts), at))
         == ValueMatches(entry, attr, v => exists at :: Placement(v, parts, at))
  {
    LowerNameSameValues(entry.attrs, attr);
    forall v, at: seq<nat> ensures Placement(v, LowerParts(parts), at) <==> Placement(v, parts, at) {
      LowerPartsSamePlacements(v, parts, at);
    }
  }

  lemma LowerValueMatchesSame(entry: Entry, attr: string, value: string)
    ensures ValueMatches(entry, Lower(attr), v => EqIgnoreCase(v, Lower(value)))
         == ValueMatches(entry, attr, v => EqIgnoreCase(v, value))
  {
    LowerNameSameValues(entry.attrs, attr);
    LowerIsIdempotent(value);
  }

  /** The letter case of a filter never changes what it matches. */
  lemma {:induction false} CaseIsIrrelevant(entry: Entry, filter: Filter)
    ensures Matches(entry, Folded(filter)) == Matches(entry, filter)
  {
    hide ValueMatches, Placement;
    match filter
    case And(children) =>
      var folded := Folded(filter).children;
      forall i | 0 <= i < |children| ensures Matches(entry, folded[i]) == Matches(entry, children[i]) {
        CaseIsIrrelevant(entry, children[i]);
      }
      assert Matches(entry, And(folded)) == Matches(entry, And(children));
    case Or(children) =>
      var folded := Folded(filter).children;
      forall i | 0 <= i < |children| ensures Matches(entry, folded[i]) == Matches(entry, children[i]) {
        CaseIsIrrelevant(entry, children[i]);
      }
      assert Matches(entry, Or(folded)) == Matches(entry, Or(children));
    case Not(inner) => CaseIsIrrelevant(entry, inner);
    case Present(attr) => LowerNameSameValues(entry.attrs, attr);
    case Equality(attr, value) => LowerValueMatchesSame(entry, attr, value);
    case Approx(attr, value) => LowerValueMatchesSame(entry, attr, value);
    case Substring(attr, parts) => LowerPartsMatchSame(entry, attr, parts);
    case _ =>
  }
}
