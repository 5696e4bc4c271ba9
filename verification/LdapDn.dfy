/**
Distinguished names: parsing, comparison, and the names the directory gives its entries.
*/
module LdapDn {
  import opened Wrappers
  import opened Text

  /** A parsed name: (attribute, value) pairs, leaf first. */
  type Dn = seq<(string, string)>

  datatype Syntax = InvalidDnSyntax

  // ---------------------------------------------------------------------------------------------
  // Comparison
  // ---------------------------------------------------------------------------------------------

  predicate SameRdn(a: (string, string), b: (string, string)) {
    EqIgnoreCase(a.0, b.0) && EqIgnoreCase(a.1, b.1)
  }

  predicate Equals(a: Dn, b: Dn) {
    |a| == |b| && forall i :: 0 <= i < |a| ==> SameRdn(a[i], b[i])
  }

  predicate IsUnder(a: Dn, suffix: Dn) {
    |a| >= |suffix| && Equals(a[|a| - |suffix|..], suffix)
  }

  function DepthUnder(a: Dn, suffix: Dn): Option<nat> {
    if IsUnder(a, suffix) then Some(|a| - |suffix|) else None
  }

  // ---------------------------------------------------------------------------------------------
  // Parsing
  // ---------------------------------------------------------------------------------------------

  function IndexOf(s: string, c: char): (r: Option<nat>)
    ensures r.Some? ==> r.value < |s| && s[r.value] == c && c !in s[..r.value]
    ensures r.None? ==> c !in s
  {
    if s == [] then None
    else if s[0] == c then Some(0)
    else
      var tail := IndexOf(s[1..], c);
      if tail.Some? then Some(tail.value + 1) else None
  }

  lemma {:induction false} FirstIndex(s: string, c: char, i: nat)
    requires i < |s| && s[i] == c && c !in s[..i]
    ensures IndexOf(s, c) == Some(i)
  {
    if i > 0 {
      assert s[..i][0] == s[0];
      assert s[1..][..i - 1] == s[1..i] == s[..i][1..];
      FirstIndex(s[1..], c, i - 1);
    }
  }

  function SplitRdn(raw: string): Result<(string, string), Syntax> {
    match IndexOf(raw, '=')
    case None => Err(InvalidDnSyntax)
    case Some(i) =>
      var attr, value := Trim(raw[..i]), Trim(raw[i + 1..]);
      if attr == [] || value == [] then Err(InvalidDnSyntax) else Ok((Lower(attr), value))
  }

  /** Cut at unescaped commas and drop the escaping backslashes; `current` is the piece begun. */
  function Pieces(s: string, current: string): (r: seq<string>)
    ensures r != []
  {
    if s == [] then [current]
    else if s[0] == '\\' then if |s| > 1 then Pieces(s[2..], current + [s[1]]) else [current]
    else if s[0] == ',' then [current] + Pieces(s[1..], [])
    else Pieces(s[1..], current + [s[0]])
  }

  function Rdns(pieces: seq<string>): Result<Dn, Syntax> {
    if pieces == [] then Ok([])
    else
      match SplitRdn(pieces[0])
      case Err(e) => Err(e)
      case Ok(rdn) =>
        match Rdns(pieces[1..])
        case Err(e) => Err(e)
        case Ok(rest) => Ok([rdn] + rest)
  }

  /** An empty last piece, as after a trailing comma, is ignored. */
  function WithoutEmptyLast(pieces: seq<string>): seq<string>
    requires pieces != []
  {
    if pieces[|pieces| - 1] == [] then pieces[..|pieces| - 1] else pieces
  }

  function ParseDn(input: string): Result<Dn, Syntax> {
    var trimmed := Trim(input);
    if trimmed == [] then Ok([]) else Rdns(WithoutEmptyLast(Pieces(trimmed, [])))
  }

  lemma {:induction false} RdnsAppend(a: seq<string>, b: seq<string>)
    ensures Rdns(a + b) == match Rdns(a)
                           case Err(e) => Err(e)
                           case Ok(front) => match Rdns(b)
                                             case Err(e) => Err(e)
                                             case Ok(back) => Ok(front + back)
  {
    hide SplitRdn;
    if a == [] {
      assert a + b == b;
      if Rdns(b).Ok? { assert [] + Rdns(b).value == Rdns(b).value; }
    } else {
      assert (a + b)[1..] == a[1..] + b;
      RdnsAppend(a[1..], b);
      if SplitRdn(a[0]).Ok? && Rdns(a[1..]).Ok? && Rdns(b).Ok? {
        var (rdn, front, back) := (SplitRdn(a[0]).value, Rdns(a[1..]).value, Rdns(b).value);
        assert [rdn] + (front + back) == ([rdn] + front) + back;
      }
    }
  }

  /** `parse_dn`, character by character. */
  method ParseDnLoop(input: string) returns (r: Result<Dn, Syntax>)
    ensures r == ParseDn(input)
  {
    hide SplitRdn, Trim, Rdns;
    assert Rdns([]) == Ok([]) by { NoPieces(); }
    var trimmed := Trim(input);
    if trimmed == [] {
      return Ok([]);
    }
    var rdns: Dn := [];
    var current: string := [];
    var i := 0;
    ghost var pushed: seq<string> := [];
    while i < |trimmed|
      invariant 0 <= i <= |trimmed|
      invariant Pieces(trimmed, []) == pushed + Pieces(trimmed[i..], current)
      invariant Rdns(pushed) == Ok(rdns)
    {
      var c := trimmed[i];
      var left := trimmed[i..];
      assert left[1..] == trimmed[i + 1..];
      i := i + 1;
      if c == '\\' {
        if i < |trimmed| {
          assert left[2..] == trimmed[i + 1..];
          current := current + [trimmed[i]];
          i := i + 1;
        }
      } else if c == ',' {
        PushRdn(pushed, current);
        var rdn := SplitRdn(current);
        if rdn.Err? {
          assert Pieces(left, current) == [current] + Pieces(trimmed[i..], []);
          PushFails(pushed, current, Pieces(trimmed[i..], []));
          assert ParseDn(input).Err? && ParseDn(input).error == rdn.error == InvalidDnSyntax;
          return Err(rdn.error);
        }
        pushed := pushed + [current];
        rdns := rdns + [rdn.value];
        current := [];
      } else {
        current := current + [c];
      }
    }
    assert Pieces(trimmed, []) == pushed + [current];
    if current != [] {
      PushRdn(pushed, current);
      var rdn := SplitRdn(current);
      if rdn.Err? {
        return Err(rdn.error);
      }
      rdns := rdns + [rdn.value];
    } else {
      assert (pushed + [current])[..|pushed|] == pushed;
    }
    r := Ok(rdns);
  }

  lemma NoPieces()
    ensures Rdns([]) == Ok([])
  {
  }

  lemma PushRdn(pushed: seq<string>, current: string)
    requires Rdns(pushed).Ok?
    ensures Rdns(pushed + [current]) == match SplitRdn(current)
                                        case Err(e) => Err(e)
                                        case Ok(rdn) => Ok(Rdns(pushed).value + [rdn])
  {
    hide SplitRdn;
    RdnsAppend(pushed, [current]);
    assert [current][1..] == [];
    if SplitRdn(current).Ok? { assert [SplitRdn(current).value] + [] == [SplitRdn(current).value]; }
  }

  lemma PushFails(pushed: seq<string>, current: string, rest: seq<string>)
    requires Rdns(pushed).Ok? && SplitRdn(current).Err? && rest != []
    ensures Rdns(WithoutEmptyLast(pushed + ([current] + rest))).Err?
  {
    var pieces := WithoutEmptyLast(pushed + ([current] + rest));
    var tail := WithoutEmptyLast(rest);
    assert pieces == pushed + ([current] + tail);
    hide SplitRdn;
    assert ([current] + tail)[0] == current;
    RdnsAppend(pushed, [current] + tail);
  }

  /** With no backslash the pieces are those between commas. */
  lemma {:induction false} PlainPieces(s: string, current: string)
    requires '\\' !in s
    ensures var parts := Split(s, ','); Pieces(s, current) == [current + parts[0]] + parts[1..]
  {
    if s == [] {
    } else {
      var tail := Split(s[1..], ',');
      if s[0] == ',' {
        PlainPieces(s[1..], []);
        assert [] + tail[0] == tail[0];
        assert [tail[0]] + tail[1..] == tail;
        assert ([[]] + tail)[1..] == tail;
        assert current + [] == current;
      } else {
        PlainPieces(s[1..], current + [s[0]]);
        assert current + [s[0]] + tail[0] == current + ([s[0]] + tail[0]);
      }
    }
  }

  // ---------------------------------------------------------------------------------------------
  // Printing
  // ---------------------------------------------------------------------------------------------

  function Escape(s: string): string {
    if s == [] then []
    else if s[0] == ',' || s[0] == '\\' then ['\\', s[0]] + Escape(s[1..])
    else [s[0]] + Escape(s[1..])
  }

  function PrintRdn(rdn: (string, string)): string {
    rdn.0 + "=" + rdn.1
  }

  function PrintDn(dn: Dn): string {
    if dn == [] then []
    else if |dn| == 1 then Escape(PrintRdn(dn[0]))
    else Escape(PrintRdn(dn[0])) + "," + PrintDn(dn[1..])
  }

  predicate Trimmed(s: string) {
    s != [] && !IsWhitespace(s[0]) && !IsWhitespace(s[|s| - 1])
  }

  /** A component as the parser leaves it. */
  predicate PrintableRdn(rdn: (string, string)) {
    Trimmed(rdn.0) && Lower(rdn.0) == rdn.0 && '=' !in rdn.0 && Trimmed(rdn.1)
  }

  predicate Printable(dn: Dn) {
    forall i :: 0 <= i < |dn| ==> PrintableRdn(dn[i])
  }

  lemma EscapeOne(c: char)
    ensures Escape([c]) == if c == ',' || c == '\\' then ['\\', c] else [c]
  {
    assert [c][1..] == [];
    assert Escape([]) == [];
    assert ['\\', c] + [] == ['\\', c];
  }

  lemma EscapedIsRead(c: char, rest: string, current: string)
    ensures Pieces(Escape([c]) + rest, current) == Pieces(rest, current + [c])
  {
    hide Escape;
    EscapeOne(c);
    var text := Escape([c]) + rest;
    if c == ',' || c == '\\' {
      assert text[2..] == rest;
    } else {
      assert text[1..] == rest;
    }
  }

  lemma EscapeCons(s: string)
    requires s != []
    ensures Escape(s) == Escape([s[0]]) + Escape(s[1..])
  {
    EscapeOne(s[0]);
  }

  lemma {:induction false} EscapeIsRead(s: string, rest: string, current: string)
    ensures Pieces(Escape(s) + rest, current) == Pieces(rest, current + s)
  {
    if s == [] {
      assert Escape(s) + rest == rest && current + s == current;
    } else {
      EscapeCons(s);
      hide Escape, Pieces;
      EscapeIsRead(s[1..], rest, current + [s[0]]);
      EscapedIsRead(s[0], Escape(s[1..]) + rest, current);
      assert Escape(s) + rest == Escape([s[0]]) + (Escape(s[1..]) + rest);
      assert current + [s[0]] + s[1..] == current + s;
    }
  }

  lemma PrintedRdnSplits(rdn: (string, string))
    requires PrintableRdn(rdn)
    ensures SplitRdn(PrintRdn(rdn)) == Ok(rdn)
  {
    hide IsWhitespace, Trim;
    var raw := PrintRdn(rdn);
    var i := |rdn.0|;
    assert raw[..i] == rdn.0 && raw[i + 1..] == rdn.1;
    FirstIndex(raw, '=', i);
    TrimmedIsFixed(rdn.0);
    TrimmedIsFixed(rdn.1);
  }

  function PrintedPieces(dn: Dn): seq<string> {
    seq(|dn|, i requires 0 <= i < |dn| => PrintRdn(dn[i]))
  }

  lemma {:induction false} PrintedRdns(dn: Dn)
    requires Printable(dn)
    ensures Rdns(PrintedPieces(dn)) == Ok(dn)
  {
    hide SplitRdn, PrintRdn, PrintableRdn;
    if dn != [] {
      PrintedRdnSplits(dn[0]);
      PrintedRdns(dn[1..]);
      assert [dn[0]] + dn[1..] == dn;
      assert PrintedPieces(dn)[1..] == PrintedPieces(dn[1..]);
    }
  }

  lemma {:induction false} PrintedIsRead(dn: Dn)
    requires dn != []
    ensures Pieces(PrintDn(dn), []) == PrintedPieces(dn)
  {
    hide Escape, Pieces, PrintRdn;
    assert [] + PrintRdn(dn[0]) == PrintRdn(dn[0]);
    if |dn| == 1 {
      EscapeIsRead(PrintRdn(dn[0]), [], []);
      NothingLeft(PrintRdn(dn[0]));
      assert Escape(PrintRdn(dn[0])) + [] == PrintDn(dn);
    } else {
      var rest := "," + PrintDn(dn[1..]);
      EscapeIsRead(PrintRdn(dn[0]), rest, []);
      NextPiece(PrintRdn(dn[0]), PrintDn(dn[1..]));
      assert PrintDn(dn) == Escape(PrintRdn(dn[0])) + rest;
      PrintedIsRead(dn[1..]);
      assert PrintedPieces(dn) == [PrintRdn(dn[0])] + PrintedPieces(dn[1..]);
    }
  }

  lemma NothingLeft(piece: string)
    ensures Pieces([], piece) == [piece]
  {
  }

  lemma NextPiece(piece: string, rest: string)
    ensures Pieces("," + rest, piece) == [piece] + Pieces(rest, [])
  {
    assert ("," + rest)[1..] == rest;
  }

  lemma {:induction false} EscapeKeepsEnds(s: string)
    requires s != [] && !IsWhitespace(s[|s| - 1])
    ensures var e := Escape(s); e != [] && !IsWhitespace(e[|e| - 1])
    ensures !IsWhitespace(s[0]) ==> !IsWhitespace(Escape(s)[0])
  {
    if |s| > 1 {
      EscapeKeepsEnds(s[1..]);
    } else {
      assert s[1..] == [];
    }
  }

  lemma {:induction false} PrintedEnds(dn: Dn)
    requires dn != [] && Printable(dn)
    ensures Trimmed(PrintDn(dn))
  {
    assert PrintableRdn(dn[0]);
    EscapeKeepsEnds(PrintRdn(dn[0]));
    if |dn| > 1 { PrintedEnds(dn[1..]); }
  }

  /** Printing with commas and backslashes escaped, then parsing, gives the name back. */
  lemma ParsePrint(dn: Dn)
    requires Printable(dn)
    ensures ParseDn(PrintDn(dn)) == Ok(dn)
  {
    if dn != [] {
      PrintedEnds(dn);
      TrimmedIsFixed(PrintDn(dn));
      PrintedIsRead(dn);
      PrintedRdns(dn);
      assert PrintedPieces(dn)[|dn| - 1] != [];
    }
  }

  /** What parses is printable, so parsing is onto exactly the printable names. */
  lemma {:induction false} ParsedIsPrintable(pieces: seq<string>)
    requires Rdns(pieces).Ok?
    ensures Printable(Rdns(pieces).value) && |Rdns(pieces).value| == |pieces|
  {
    hide SplitRdn, PrintableRdn;
    if pieces != [] {
      ParsedIsPrintable(pieces[1..]);
      SplitIsPrintable(pieces[0]);
    }
  }

  lemma SplitIsPrintable(raw: string)
    requires SplitRdn(raw).Ok?
    ensures PrintableRdn(SplitRdn(raw).value)
  {
    hide IsWhitespace, Trim;
    var i := IndexOf(raw, '=').value;
    var attr := Trim(raw[..i]);
    var from := TrimWindow(raw[..i]);
    forall k | 0 <= k < |attr| ensures attr[k] != '=' {
      assert raw[..i][from + k] == attr[k];
    }
    LowerKeepsEnds(attr);
  }

  lemma LowerKeepsEnds(attr: string)
    requires Trimmed(attr) && '=' !in attr
    ensures Trimmed(Lower(attr)) && '=' !in Lower(attr) && Lower(Lower(attr)) == Lower(attr)
  {
    LowerWhitespace(attr[0]);
    LowerWhitespace(attr[|attr| - 1]);
    hide IsWhitespace;
    forall k | 0 <= k < |attr| ensures Lower(attr)[k] != '=' {
      assert attr[k] != '=';
    }
  }

  lemma LowerWhitespace(c: char)
    ensures IsWhitespace(LowerChar(c)) == IsWhitespace(c)
  {
  }

  /** Parsing what was parsed and printed changes nothing. */
  lemma ParseIsStable(input: string)
    ensures var r := ParseDn(input); r.Ok? ==> ParseDn(PrintDn(r.value)) == r
  {
    var r := ParseDn(input);
    if r.Ok? {
      if Trim(input) != [] {
        ParsedIsPrintable(WithoutEmptyLast(Pieces(Trim(input), [])));
      }
      ParsePrint(r.value);
    }
  }

  // ---------------------------------------------------------------------------------------------
  // The names of the directory
  // ---------------------------------------------------------------------------------------------

  function PeopleDn(base: string): string { "ou=people," + base }

  function GroupsDn(base: string): string { "ou=groups," + base }

  function ServiceDn(base: string): string { "cn=service," + base }

  function UserDn(username: string, base: string): string { "uid=" + username + "," + PeopleDn(base) }

  function GroupDn(role: string, base: string): string { "cn=" + role + "," + GroupsDn(base) }

  /** What `validate_base_dn` asks of a component: an equals sign with something left on either side. */
  predicate ComponentAccepted(part: string) {
    var rdn := Trim(part);
    && rdn != []
    && var eq := IndexOf(rdn, '=');
       eq.Some? && Trim(rdn[..eq.value]) != [] && Trim(rdn[eq.value + 1..]) != []
  }

  /** `validate_base_dn`; its length limit counts octets, of which there are at least as many. */
  predicate ValidBaseDn(dn: string) {
    var trimmed := Trim(dn);
    && trimmed != [] && |trimmed| <= 512
    && var parts := Split(trimmed, ',');
       forall i :: 0 <= i < |parts| ==> ComponentAccepted(parts[i])
  }

  /** A base DN as stored: accepted and trimmed. */
  predicate ConfiguredBase(base: string) {
    ValidBaseDn(base) && Trim(base) == base
  }

  /** Storing the trimmed form of an accepted base DN keeps it accepted. */
  lemma StoredBase(input: string)
    requires ValidBaseDn(input)
    ensures ConfiguredBase(Trim(input))
  {
    hide IsWhitespace, Trim;
    TrimmedIsFixed(Trim(input));
    var from := TrimWindow(input);
  }

  predicate UsernameChar(c: char) {
    'A' <= c <= 'Z' || 'a' <= c <= 'z' || '0' <= c <= '9' || c == '.' || c == '-' || c == '_'
  }

  predicate ValidUsername(name: string) {
    3 <= |name| <= 64 && forall i :: 0 <= i < |name| ==> UsernameChar(name[i])
  }

  /**
  What the name rules guarantee. Role names are alphanumeric in the Unicode sense, or dashes and
  underscores; no such character is a comma, a backslash or white space.
  */
  predicate PlainName(name: string) {
    name != [] && forall i :: 0 <= i < |name| ==> name[i] != ',' && name[i] != '\\' && !IsWhitespace(name[i])
  }

  lemma UsernamesArePlain(name: string)
    requires ValidUsername(name)
    ensures PlainName(name)
  {
  }

  lemma PieceSplits(piece: string)
    requires ComponentAccepted(piece)
    ensures SplitRdn(piece).Ok?
  {
    hide IsWhitespace, Trim, IndexOf;
    var rdn := Trim(piece);
    var eq := IndexOf(rdn, '=').value;
    var from := SameSeparator(piece);
    var i := from + eq;
    InkStays(rdn[..eq], piece[..i], from);
    InkStays(rdn[eq + 1..], piece[i + 1..], 0);
  }

  /** Ink on either side of the first equals sign of a piece is there in the trimmed piece too. */
  lemma SplitPieceAccepted(piece: string)
    requires SplitRdn(piece).Ok?
    ensures ComponentAccepted(piece)
  {
    hide IsWhitespace, Trim, IndexOf;
    var i := IndexOf(piece, '=').value;
    var rdn := Trim(piece);
    var from := TrimWindow(piece);
    var a := Ink(piece[..i]);
    var v := Ink(piece[i + 1..]);
    assert piece[a] == piece[..i][a] && piece[i + 1 + v] == piece[i + 1..][v];
    SeparatorsAreInk();
    var eq := i - from;
    assert from <= a < i && i + 1 + v < from + |rdn|;
    assert rdn[eq] == piece[i];
    forall k | 0 <= k < eq ensures rdn[k] != '=' { assert piece[..i][from + k] == rdn[k]; }
    FirstIndex(rdn, '=', eq);
    assert rdn[..eq][a - from] == piece[a];
    assert rdn[eq + 1..][v] == piece[i + 1 + v];
    TrimNonEmpty(rdn[..eq]);
    TrimNonEmpty(rdn[eq + 1..]);
  }

  lemma Ink(s: string) returns (i: nat)
    requires Trim(s) != []
    ensures i < |s| && !IsWhitespace(s[i])
  {
    hide IsWhitespace, Trim;
    TrimNonEmpty(s);
    i :| 0 <= i < |s| && !IsWhitespace(s[i]);
  }

  /** The first equals sign of a trimmed piece is that of the piece. */
  lemma SameSeparator(piece: string) returns (from: nat)
    requires IndexOf(Trim(piece), '=').Some?
    ensures var (rdn, eq) := (Trim(piece), IndexOf(Trim(piece), '=').value);
      && from + |rdn| <= |piece| && piece[from..from + |rdn|] == rdn
      && IndexOf(piece, '=') == Some(from + eq)
  {
    hide IsWhitespace, Trim;
    var rdn := Trim(piece);
    var eq := IndexOf(rdn, '=').value;
    from := TrimWindow(piece);
    assert piece[from + eq] == rdn[eq];
    forall k | 0 <= k < from + eq ensures piece[k] != '=' {
      if k >= from { assert rdn[..eq][k - from] == piece[k]; } else { SeparatorsAreInk(); }
    }
    FirstIndex(piece, '=', from + eq);
  }

  /** A string that contains one with something left after trimming has something left as well. */
  lemma InkStays(inner: string, outer: string, from: nat)
    requires Trim(inner) != [] && from + |inner| <= |outer| && outer[from..from + |inner|] == inner
    ensures Trim(outer) != []
  {
    hide IsWhitespace, Trim;
    TrimNonEmpty(inner);
    var k :| 0 <= k < |inner| && !IsWhitespace(inner[k]);
    assert outer[from + k] == inner[k];
    TrimNonEmpty(outer);
  }

  lemma SeparatorsAreInk()
    ensures !IsWhitespace('=') && !IsWhitespace(',') && !IsWhitespace('\\')
  {
  }

  /** A list of pieces parses exactly when the check's own test accepts each of them. */
  lemma {:induction false} PiecesSplitIff(parts: seq<string>)
    ensures Rdns(parts).Ok? <==> forall i :: 0 <= i < |parts| ==> ComponentAccepted(parts[i])
  {
    hide SplitRdn, ComponentAccepted;
    if parts != [] {
      if SplitRdn(parts[0]).Ok? { SplitPieceAccepted(parts[0]); }
      if ComponentAccepted(parts[0]) { PieceSplits(parts[0]); }
      var rest := parts[1..];
      PiecesSplitIff(rest);
      assert forall i :: 0 < i < |parts| ==> parts[i] == rest[i - 1];
      if forall i :: 0 <= i < |parts| ==> ComponentAccepted(parts[i]) {
        forall i | 0 <= i < |rest| ensures ComponentAccepted(rest[i]) { assert parts[i + 1] == rest[i]; }
      }
    }
  }

  /**
  Exactly when an accepted base DN parses: when the components between its unescaped commas, with the
  escaping backslashes dropped, pass the test that the check applies to those between all its commas.
  */
  lemma BaseParsesIff(base: string)
    requires ConfiguredBase(base)
    ensures var pieces := WithoutEmptyLast(Pieces(base, []));
      ParseDn(base).Ok? <==> forall i :: 0 <= i < |pieces| ==> ComponentAccepted(pieces[i])
  {
    hide ParseDn, ComponentAccepted, Pieces, Rdns, ConfiguredBase;
    var pieces := WithoutEmptyLast(Pieces(base, []));
    PiecesOfBase(base);
    PiecesSplitIff(pieces);
  }

  lemma PiecesOfBase(base: string)
    requires ConfiguredBase(base)
    ensures ParseDn(base) == Rdns(WithoutEmptyLast(Pieces(base, [])))
  {
    hide Trim, Pieces, Rdns, Split, ComponentAccepted;
  }

  /** An accepted base DN without a backslash parses, to one component per comma-separated piece. */
  lemma BaseParses(base: string)
    requires ConfiguredBase(base) && '\\' !in base
    ensures ParseDn(base).Ok? && ParseDn(base) == Rdns(Split(base, ',')) && ParseDn(base).value != []
  {
    hide SplitRdn, Trim, IndexOf, Pieces;
    var parts := Split(base, ',');
    PlainPieces(base, []);
    assert [] + parts[0] == parts[0];
    assert [parts[0]] + parts[1..] == parts;
    assert ComponentAccepted(parts[|parts| - 1]);
    AcceptedIsNonEmpty(parts[|parts| - 1]);
    assert WithoutEmptyLast(parts) == parts;
    PiecesSplitIff(parts);
  }

  lemma AcceptedIsNonEmpty(part: string)
    requires ComponentAccepted(part)
    ensures part != []
  {
  }

  const ESCAPED_BASE: string := "dc=\\"

  lemma EscapedBaseIsAccepted()
    ensures ConfiguredBase(ESCAPED_BASE)
  {
    EscapedBaseIsTrimmed();
    EscapedBaseSplits();
    hide Trim, Split, IndexOf;
  }

  lemma EscapedBaseIsTrimmed()
    ensures Trim(ESCAPED_BASE) == ESCAPED_BASE && Trim("dc") == "dc" && Trim("\\") == "\\"
  {
    SeparatorsAreInk();
    LettersAreInk();
    hide IsWhitespace, Trim;
    TrimmedIsFixed(ESCAPED_BASE);
    TrimmedIsFixed("dc");
    TrimmedIsFixed("\\");
  }

  lemma EscapedBaseSplits()
    ensures Split(ESCAPED_BASE, ',') == [ESCAPED_BASE] && IndexOf(ESCAPED_BASE, '=') == Some(2)
    ensures ESCAPED_BASE[..2] == "dc" && ESCAPED_BASE[3..] == "\\"
  {
    hide Split, IndexOf;
    SplitNone(ESCAPED_BASE, ',');
    FirstIndex(ESCAPED_BASE, '=', 2);
  }

  lemma LettersAreInk()
    ensures !IsWhitespace('d') && !IsWhitespace('c')
  {
  }

  lemma EscapedBasePieces()
    ensures Pieces(ESCAPED_BASE, []) == ["dc="]
  {
    var base := ESCAPED_BASE;
    assert base[1..] == "c=\\" && "c=\\"[1..] == "=\\" && "=\\"[1..] == "\\";
    assert [] + ['d'] == "d" && "d" + ['c'] == "dc" && "dc" + ['='] == "dc=";
    assert Pieces("\\", "dc=") == ["dc="];
    assert Pieces("=\\", "dc") == ["dc="];
    assert Pieces("c=\\", "d") == ["dc="];
  }

  lemma NoValueFails()
    ensures SplitRdn("dc=").Err?
  {
    FirstIndex("dc=", '=', 2);
    assert "dc="[3..] == "";
    TrimmedIsFixed("");
    hide Trim, IndexOf;
  }

  /** The check ignores escapes and the parser does not: this base DN is accepted and does not parse. */
  lemma EscapedBaseNeedNotParse()
    ensures ConfiguredBase(ESCAPED_BASE) && ParseDn(ESCAPED_BASE).Err?
  {
    hide Pieces, SplitRdn, ValidBaseDn, Trim;
    EscapedBaseIsAccepted();
    EscapedBasePieces();
    NoValueFails();
    assert WithoutEmptyLast(["dc="]) == ["dc="];
  }

  lemma {:induction false} EscapePlain(s: string)
    requires ',' !in s && '\\' !in s
    ensures Escape(s) == s
  {
    if s != [] {
      assert s[0] in s;
      EscapePlain(s[1..]);
      assert [s[0]] + s[1..] == s;
    }
  }

  /** Putting a plain component in front of a trimmed name puts one RDN in front of what it parses to. */
  lemma PrefixParses(attr: string, value: string, base: string)
    requires PrintableRdn((attr, value)) && PlainName(attr) && PlainName(value) && Trimmed(base)
    ensures
      var whole := attr + "=" + value + "," + base;
      && Trimmed(whole)
      && ParseDn(whole) == match ParseDn(base)
                           case Err(e) => Err(e)
                           case Ok(dn) => Ok([(attr, value)] + dn)
  {
    hide IsWhitespace, Trim, SplitRdn, Pieces, PrintableRdn, Escape;
    var piece := PrintRdn((attr, value));
    var whole := piece + ("," + base);
    assert whole == attr + "=" + value + "," + base;
    PlainEnds(attr, value, base);
    TrimmedIsFixed(whole);
    TrimmedIsFixed(base);
    EscapePlain(piece);
    EscapeIsRead(piece, "," + base, []);
    assert [] + piece == piece;
    CommaEnds(piece, base);
    PrintedRdnSplits((attr, value));
    var tail := WithoutEmptyLast(Pieces(base, []));
    assert WithoutEmptyLast([piece] + Pieces(base, [])) == [piece] + tail;
    assert ([piece] + tail)[1..] == tail;
  }

  lemma CommaEnds(piece: string, rest: string)
    ensures Pieces("," + rest, piece) == [piece] + Pieces(rest, [])
  {
    assert ("," + rest)[1..] == rest;
  }

  lemma PlainEnds(attr: string, value: string, base: string)
    requires PlainName(attr) && PlainName(value) && Trimmed(base)
    ensures Trimmed(attr + "=" + value + "," + base)
    ensures ',' !in PrintRdn((attr, value)) && '\\' !in PrintRdn((attr, value))
  {
    hide IsWhitespace;
    var whole := attr + "=" + value + "," + base;
    assert whole[0] == attr[0] && whole[|whole| - 1] == base[|base| - 1];
  }

  lemma ConfiguredIsTrimmed(base: string)
    requires ConfiguredBase(base)
    ensures Trimmed(base)
  {
    hide Split, IndexOf;
  }

  lemma LiteralsPlain()
    ensures PlainName("uid") && PlainName("cn") && PlainName("ou")
    ensures PlainName("people") && PlainName("groups") && PlainName("service")
    ensures Lower("uid") == "uid" && Lower("cn") == "cn" && Lower("ou") == "ou"
  {
  }

  /** The name `dn` is the parsed `base` below the components `above`, if the base parses at all. */
  predicate Above(above: Dn, base: string, dn: string) {
    match ParseDn(base)
    case Ok(root) => ParseDn(dn) == Ok(above + root)
    case Err(e) => ParseDn(dn) == Err(e)
  }

  lemma AboveTwice(first: (string, string), second: Dn, base: string, middle: string, dn: string)
    requires Above(second, base, middle) && Above([first], middle, dn)
    ensures Above([first] + second, base, dn)
  {
    hide ParseDn;
    if ParseDn(base).Ok? {
      var root := ParseDn(base).value;
      assert [first] + (second + root) == [first] + second + root;
    }
  }

  /** The names built for the directory parse to one component above what the base parses to, or two. */
  lemma BuiltNamesParse(base: string, name: string)
    requires Trimmed(base) && PlainName(name)
    ensures Above([("ou", "people")], base, PeopleDn(base)) && Above([("ou", "groups")], base, GroupsDn(base))
    ensures Above([("cn", "service")], base, ServiceDn(base))
    ensures Above([("uid", name), ("ou", "people")], base, UserDn(name, base))
    ensures Above([("cn", name), ("ou", "groups")], base, GroupDn(name, base))
  {
    hide ParseDn, Trim, IsWhitespace;
    LiteralsPlain();
    PrefixParses("ou", "people", base);
    PrefixParses("ou", "groups", base);
    PrefixParses("cn", "service", base);
    assert "ou" + "=" + "people" + "," + base == PeopleDn(base);
    assert "ou" + "=" + "groups" + "," + base == GroupsDn(base);
    assert "cn" + "=" + "service" + "," + base == ServiceDn(base);
    PrefixParses("uid", name, PeopleDn(base));
    PrefixParses("cn", name, GroupsDn(base));
    assert "uid" + "=" + name + "," + PeopleDn(base) == UserDn(name, base);
    assert "cn" + "=" + name + "," + GroupsDn(base) == GroupDn(name, base);
    AboveTwice(("uid", name), [("ou", "people")], base, PeopleDn(base), UserDn(name, base));
    AboveTwice(("cn", name), [("ou", "groups")], base, GroupsDn(base), GroupDn(name, base));
    assert [("uid", name)] + [("ou", "people")] == [("uid", name), ("ou", "people")];
    assert [("cn", name)] + [("ou", "groups")] == [("cn", name), ("ou", "groups")];
  }
}
