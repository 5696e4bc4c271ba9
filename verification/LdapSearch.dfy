/**
The LDAP search: entries are built for users and roles, and whole branches of the directory are
skipped when the base and scope cannot reach them.
*/
module LdapSearch {
  import opened Wrappers
  import opened Text
  import opened LdapFilter
  import opened LdapDn

  datatype User = User(id: string, username: string, name: string, email: Option<string>, roles: seq<string>)

  datatype Role = Role(name: string, description: Option<string>)

  datatype Scope = Base | OneLevel | Subtree | Children

  datatype Bind = Anonymous | Service | BoundUser(active: bool)

  datatype Request = Request(base: string, scope: Scope, filter: Filter)

  datatype Config = Config(enabled: bool, base: string, version: string)

  datatype Code =
    | Success
    | InvalidSyntax
    | OperationsError
    | NoSuchObject
    | InsufficientAccessRights
    | UnwillingToPerform

  datatype Response = Response(code: Code, entries: seq<Entry>)

  // ---------------------------------------------------------------------------------------------
  // Entries
  // ---------------------------------------------------------------------------------------------

  function GroupDns(roles: seq<string>, base: string): (r: seq<string>)
    ensures |r| == |roles|
  {
    seq(|roles|, i requires 0 <= i < |roles| => GroupDn(roles[i], base))
  }

  function UserDns(usernames: seq<string>, base: string): (r: seq<string>)
    ensures |r| == |usernames|
  {
    seq(|usernames|, i requires 0 <= i < |usernames| => UserDn(usernames[i], base))
  }

  function UserEntry(user: User, base: string): Entry {
    Entry(UserDn(user.username, base),
          [("objectClass", ["top", "person", "inetOrgPerson"]),
           ("uid", [user.username]),
           ("cn", [user.name]),
           ("sn", [user.name]),
           ("displayName", [user.name]),
           ("entryUUID", [user.id])]
          + (if user.email.Some? then [("mail", [user.email.value])] else [])
          + (if user.roles != [] then [("memberOf", GroupDns(user.roles, base))] else []))
  }

  /** The users holding a role, in directory order. */
  function MembersOf(role: string, users: seq<User>): (r: seq<string>) {
    if users == [] then []
    else
      MembersOf(role, users[..|users| - 1]) +
      (if role in users[|users| - 1].roles then [users[|users| - 1].username] else [])
  }

  function MemberDns(role: Role, users: seq<User>, base: string): seq<string> {
    var members := MembersOf(role.name, users);
    if members == [] then ["cn=placeholder," + base] else UserDns(members, base)
  }

  function GroupEntry(role: Role, users: seq<User>, base: string): Entry {
    Entry(GroupDn(role.name, base),
          [("objectClass", ["top", "groupOfNames"]), ("cn", [role.name])]
          + (if role.description.Some? then [("description", [role.description.value])] else [])
          + [("member", MemberDns(role, users, base))])
  }

  function RootDse(cfg: Config): Entry {
    Entry("", [("objectClass", ["top"]), ("namingContexts", [cfg.base]), ("supportedLDAPVersion", ["3"]),
               ("vendorName", ["Authere"]), ("vendorVersion", [cfg.version])])
  }

  lemma {:induction false} MembersAreHolders(role: string, users: seq<User>, username: string)
    ensures username in MembersOf(role, users)
       <==> exists i :: 0 <= i < |users| && users[i].username == username && role in users[i].roles
  {
    if users != [] {
      var n := |users| - 1;
      MembersAreHolders(role, users[..n], username);
      if i :| 0 <= i < |users| && users[i].username == username && role in users[i].roles {
        if i < n { assert users[..n][i] == users[i]; }
      }
      if username in MembersOf(role, users[..n]) {
        var i :| 0 <= i < n && users[..n][i].username == username && role in users[..n][i].roles;
        assert users[i].username == username;
      }
    }
  }

  lemma SameNameFromDn(a: string, b: string, base: string)
    ensures UserDn(a, base) == UserDn(b, base) ==> a == b
    ensures UserDn(a, base) != "cn=placeholder," + base
    ensures GroupDn(a, base) == GroupDn(b, base) ==> a == b
  {
    var (da, db) := (UserDn(a, base), UserDn(b, base));
    assert da[0] == 'u';
    if da == db {
      assert |a| == |b|;
      assert da[4..4 + |a|] == a && db[4..4 + |b|] == b;
    }
    var (ga, gb) := (GroupDn(a, base), GroupDn(b, base));
    if ga == gb {
      assert |a| == |b|;
      assert ga[3..3 + |a|] == a && gb[3..3 + |b|] == b;
    }
  }

  /**
  The two views of a membership agree: a user entry lists a group exactly when that group's entry
  lists the user. User names are unique, as the table has it.
  */
  lemma MembershipAgrees(users: seq<User>, u: nat, role: Role, base: string)
    requires u < |users|
    requires forall i, j :: 0 <= i < j < |users| ==> users[i].username != users[j].username
    ensures GroupDn(role.name, base) in GroupDns(users[u].roles, base)
       <==> UserDn(users[u].username, base) in MemberDns(role, users, base)
  {
    hide UserDn, GroupDn;
    var user := users[u];
    var members := MembersOf(role.name, users);
    MembersAreHolders(role.name, users, user.username);
    SameNameFromDn(user.username, user.username, base);
    if UserDn(user.username, base) in MemberDns(role, users, base) && members != [] {
      var k :| 0 <= k < |members| && UserDns(members, base)[k] == UserDn(user.username, base);
      SameNameFromDn(members[k], user.username, base);
    }
    if user.username in members {
      var k :| 0 <= k < |members| && members[k] == user.username;
      assert UserDns(members, base)[k] == UserDn(user.username, base);
    }
    if GroupDn(role.name, base) in GroupDns(user.roles, base) {
      var k :| 0 <= k < |user.roles| && GroupDns(user.roles, base)[k] == GroupDn(role.name, base);
      SameNameFromDn(user.roles[k], role.name, base);
    }
    if role.name in user.roles {
      var k :| 0 <= k < |user.roles| && user.roles[k] == role.name;
      assert GroupDns(user.roles, base)[k] == GroupDn(role.name, base);
    }
  }

  // ---------------------------------------------------------------------------------------------
  // The reference search
  // ---------------------------------------------------------------------------------------------

  predicate EntryInScope(entry: Dn, base: Dn, scope: Scope) {
    match scope
    case Base => Equals(entry, base)
    case OneLevel => DepthUnder(entry, base) == Some(1)
    case Subtree => IsUnder(entry, base)
    case Children => IsUnder(entry, base) && !Equals(entry, base)
  }

  ghost predicate Wanted(entry: Entry, base: Dn, scope: Scope, filter: Filter) {
    var dn := ParseDn(entry.dn);
    dn.Ok? && EntryInScope(dn.value, base, scope) && Matches(entry, filter)
  }

  /** The wanted entries, in order. */
  ghost function Scan(entries: seq<Entry>, base: Dn, scope: Scope, filter: Filter): seq<Entry> {
    if entries == [] then []
    else
      var last := entries[|entries| - 1];
      Scan(entries[..|entries| - 1], base, scope, filter) + if Wanted(last, base, scope, filter) then [last] else []
  }

  function UserEntries(users: seq<User>, base: string): (r: seq<Entry>)
    ensures |r| == |users|
  {
    seq(|users|, i requires 0 <= i < |users| => UserEntry(users[i], base))
  }

  function GroupEntries(roles: seq<Role>, users: seq<User>, base: string): (r: seq<Entry>)
    ensures |r| == |roles|
  {
    seq(|roles|, i requires 0 <= i < |roles| => GroupEntry(roles[i], users, base))
  }

  /** Every user and role of the directory, one by one. */
  ghost function FullScan(users: seq<User>, roles: seq<Role>, cfg: Config, base: Dn, req: Request): seq<Entry> {
    Scan(UserEntries(users, cfg.base), base, req.scope, req.filter)
    + Scan(GroupEntries(roles, users, cfg.base), base, req.scope, req.filter)
  }

  /** Whether a search reaches the entries directly below the organisational unit `ou`. */
  predicate Reaches(base: Dn, scope: Scope, ou: Dn) {
    match scope
    case Base => Equals(base, ou) || DepthUnder(base, ou) == Some(1)
    case OneLevel => Equals(base, ou)
    case Subtree => IsUnder(base, ou) || IsUnder(ou, base)
    case Children => IsUnder(base, ou) || IsUnder(ou, base)
  }

  /** The parsed names of the two organisational units below a parsed base DN. */
  function People(root: Dn): Dn { [("ou", "people")] + root }

  function Groups(root: Dn): Dn { [("ou", "groups")] + root }

  /** The answer the handler owes, by testing every entry. */
  ghost function Expected(cfg: Config, bind: Bind, users: seq<User>, roles: seq<Role>, req: Request): Response {
    if !cfg.enabled then Response(UnwillingToPerform, [])
    else if bind.Anonymous? && req.base != "" then Response(InsufficientAccessRights, [])
    else if req.base == "" && req.scope.Base? then Response(Success, [RootDse(cfg)])
    else
      match ParseDn(req.base)
      case Err(_) => Response(InvalidSyntax, [])
      case Ok(base) =>
        match ParseDn(cfg.base)
        case Err(_) => Response(OperationsError, [])
        case Ok(root) =>
          Answer(cfg, bind, users, roles, req, base, root)
  }

  /** The answer when every name parses: the entries of the full scan. */
  ghost function Answer(cfg: Config, bind: Bind, users: seq<User>, roles: seq<Role>, req: Request, base: Dn,
                           root: Dn): Response {
    var reached := Reaches(base, req.scope, People(root)) || Reaches(base, req.scope, Groups(root));
    if reached && bind.BoundUser? && !bind.active then Response(InsufficientAccessRights, [])
    else
      Response(if reached || IsUnder(base, root) then Success else NoSuchObject,
               FullScan(users, roles, cfg, base, req))
  }

  predicate PlainDirectory(users: seq<User>, roles: seq<Role>) {
    && (forall i :: 0 <= i < |users| ==> PlainName(users[i].username))
    && (forall i :: 0 <= i < |roles| ==> PlainName(roles[i].name))
  }

  /** What the name rules guarantee of the directory. */
  predicate ValidDirectory(users: seq<User>, roles: seq<Role>) {
    && (forall i :: 0 <= i < |users| ==> ValidUsername(users[i].username))
    && (forall i :: 0 <= i < |roles| ==> PlainName(roles[i].name))
  }

  lemma ValidIsPlain(users: seq<User>, roles: seq<Role>)
    requires ValidDirectory(users, roles)
    ensures PlainDirectory(users, roles)
  {
    hide ValidUsername, PlainName;
    forall i | 0 <= i < |users| ensures PlainName(users[i].username) {
      UsernamesArePlain(users[i].username);
    }
  }

  // ---------------------------------------------------------------------------------------------
  // Pruning
  // ---------------------------------------------------------------------------------------------

  lemma EqualsSymmetric(a: Dn, b: Dn)
    ensures Equals(a, b) == Equals(b, a)
  {
  }

  /** A search that does not reach an organisational unit has no entry of it in scope. */
  lemma UnreachedOutOfScope(leaf: (string, string), ou: Dn, base: Dn, scope: Scope)
    requires EntryInScope([leaf] + ou, base, scope)
    ensures Reaches(base, scope, ou)
  {
    var entry := [leaf] + ou;
    assert entry[1..] == ou;
    if |base| == |entry| {
      assert Equals(entry, base);
      assert base[|base| - |ou|..] == base[1..];
      forall i | 0 <= i < |ou| ensures SameRdn(base[1..][i], ou[i]) {
        assert SameRdn(entry[i + 1], base[i + 1]);
      }
    } else {
      var k := |entry| - |base|;
      assert entry[k..] == ou[k - 1..];
      assert IsUnder(ou, base);
      if scope.OneLevel? { EqualsSymmetric(ou, base); }
    }
  }

  lemma {:induction false} NothingWanted(entries: seq<Entry>, base: Dn, scope: Scope, filter: Filter)
    requires forall i :: 0 <= i < |entries| ==> !Wanted(entries[i], base, scope, filter)
    ensures Scan(entries, base, scope, filter) == []
  {
    hide Wanted;
    if entries != [] { NothingWanted(entries[..|entries| - 1], base, scope, filter); }
  }

  lemma UsersUnreached(users: seq<User>, cfg: Config, root: Dn, base: Dn, scope: Scope, filter: Filter)
    requires Trimmed(cfg.base) && ParseDn(cfg.base) == Ok(root) && PlainDirectory(users, [])
    requires !Reaches(base, scope, People(root))
    ensures Scan(UserEntries(users, cfg.base), base, scope, filter) == []
  {
    hide ParseDn, Trimmed, PlainName, UserDn, Reaches, EntryInScope, Matches;
    var entries := UserEntries(users, cfg.base);
    forall i | 0 <= i < |entries| ensures !Wanted(entries[i], base, scope, filter) {
      BuiltNamesParse(cfg.base, users[i].username);
      LeafReaches(("uid", users[i].username), ("ou", "people"), root, base, scope);
    }
    NothingWanted(entries, base, scope, filter);
  }

  lemma LeafReaches(leaf: (string, string), unit: (string, string), root: Dn, base: Dn, scope: Scope)
    ensures EntryInScope([leaf, unit] + root, base, scope) ==> Reaches(base, scope, [unit] + root)
  {
    hide Reaches, EntryInScope;
    assert [leaf, unit] + root == [leaf] + ([unit] + root);
    if EntryInScope([leaf] + ([unit] + root), base, scope) {
      UnreachedOutOfScope(leaf, [unit] + root, base, scope);
    }
  }

  lemma GroupsUnreached(roles: seq<Role>, users: seq<User>, cfg: Config, root: Dn, base: Dn, scope: Scope,
                        filter: Filter)
    requires Trimmed(cfg.base) && ParseDn(cfg.base) == Ok(root) && PlainDirectory([], roles)
    requires !Reaches(base, scope, Groups(root))
    ensures Scan(GroupEntries(roles, users, cfg.base), base, scope, filter) == []
  {
    hide ParseDn, Trimmed, PlainName, GroupDn, Reaches, EntryInScope, Matches;
    var entries := GroupEntries(roles, users, cfg.base);
    forall i | 0 <= i < |entries| ensures !Wanted(entries[i], base, scope, filter) {
      BuiltNamesParse(cfg.base, roles[i].name);
      LeafReaches(("cn", roles[i].name), ("ou", "groups"), root, base, scope);
    }
    NothingWanted(entries, base, scope, filter);
  }

  // ---------------------------------------------------------------------------------------------
  // The handler
  // ---------------------------------------------------------------------------------------------

  lemma ScanStep(entries: seq<Entry>, i: nat, base: Dn, scope: Scope, filter: Filter)
    requires i < |entries|
    ensures Scan(entries[..i + 1], base, scope, filter)
         == Scan(entries[..i], base, scope, filter)
            + if Wanted(entries[i], base, scope, filter) then [entries[i]] else []
  {
    assert entries[..i + 1][..i] == entries[..i];
  }

  method MatchingUsers(users: seq<User>, cfg: Config, base: Dn, req: Request) returns (found: seq<Entry>)
    ensures found == Scan(UserEntries(users, cfg.base), base, req.scope, req.filter)
  {
    hide UserEntry, ParseDn, EntryInScope, Matches;
    ghost var all := UserEntries(users, cfg.base);
    found := [];
    for i := 0 to |users|
      invariant found == Scan(all[..i], base, req.scope, req.filter)
    {
      ScanStep(all, i, base, req.scope, req.filter);
      var entry := UserEntry(users[i], cfg.base);
      var dn := ParseDnLoop(entry.dn);
      if dn.Err? {
        continue;
      }
      if EntryInScope(dn.value, base, req.scope) {
        var holds := Evaluate(entry, req.filter);
        if holds {
          found := found + [entry];
        }
      }
    }
    assert all[..|users|] == all;
  }

  method MatchingGroups(roles: seq<Role>, users: seq<User>, cfg: Config, base: Dn, req: Request)
    returns (found: seq<Entry>)
    ensures found == Scan(GroupEntries(roles, users, cfg.base), base, req.scope, req.filter)
  {
    hide ParseDn, EntryInScope, Matches, GroupDn;
    ghost var all := GroupEntries(roles, users, cfg.base);
    found := [];
    for i := 0 to |roles|
      invariant found == Scan(all[..i], base, req.scope, req.filter)
    {
      ScanStep(all, i, base, req.scope, req.filter);
      var members := MembersLoop(roles[i].name, users);
      var memberDns := if members == [] then ["cn=placeholder," + cfg.base] else UserDns(members, cfg.base);
      var attrs := [("objectClass", ["top", "groupOfNames"]), ("cn", [roles[i].name])];
      if roles[i].description.Some? {
        attrs := attrs + [("description", [roles[i].description.value])];
      }
      var entry := Entry(GroupDn(roles[i].name, cfg.base), attrs + [("member", memberDns)]);
      assert entry == GroupEntry(roles[i], users, cfg.base);
      var dn := ParseDnLoop(entry.dn);
      if dn.Err? {
        continue;
      }
      if EntryInScope(dn.value, base, req.scope) {
        var holds := Evaluate(entry, req.filter);
        if holds {
          found := found + [entry];
        }
      }
    }
    assert all[..|roles|] == all;
  }

  method MembersLoop(role: string, users: seq<User>) returns (members: seq<string>)
    ensures members == MembersOf(role, users)
  {
    members := [];
    for i := 0 to |users|
      invariant members == MembersOf(role, users[..i])
    {
      assert users[..i + 1][..i] == users[..i];
      if role in users[i].roles {
        members := members + [users[i].username];
      }
    }
    assert users[..|users|] == users;
  }

  /** `handle_search`: skipping unreached branches returns what a scan of everything would. */
  method HandleSearch(cfg: Config, bind: Bind, users: seq<User>, roles: seq<Role>, req: Request)
    returns (r: Response)
    requires ConfiguredBase(cfg.base) && PlainDirectory(users, roles)
    ensures r == Expected(cfg, bind, users, roles, req)
  {
    hide ConfiguredBase, ValidBaseDn, Trimmed, ParseDn, PlainDirectory, Answer, RootDse, PeopleDn, GroupsDn;
    ConfiguredIsTrimmed(cfg.base);
    if !cfg.enabled {
      return Response(UnwillingToPerform, []);
    }
    if bind.Anonymous? && req.base != "" {
      return Response(InsufficientAccessRights, []);
    }
    if req.base == "" && req.scope.Base? {
      return Response(Success, [RootDse(cfg)]);
    }
    var parsed := ParseDnLoop(req.base);
    if parsed.Err? {
      return Response(InvalidSyntax, []);
    }
    var base := parsed.value;
    UnitsParse(cfg.base);
    var people := ParseDnLoop(PeopleDn(cfg.base));
    if people.Err? {
      return Response(OperationsError, []);
    }
    var groups := ParseDnLoop(GroupsDn(cfg.base));
    if groups.Err? {
      return Response(OperationsError, []);
    }
    var root := ParseDnLoop(cfg.base);
    if root.Err? {
      return Response(OperationsError, []);
    }
    r := SearchDirectory(cfg, bind, users, roles, req, base, root.value, people.value, groups.value);
  }

  /** The rest of `handle_search`, once every name has parsed. */
  method SearchDirectory(cfg: Config, bind: Bind, users: seq<User>, roles: seq<Role>, req: Request, base: Dn, root: Dn,
                         people: Dn, groups: Dn)
    returns (r: Response)
    requires people == People(root) && groups == Groups(root)
    requires Trimmed(cfg.base) && ParseDn(cfg.base) == Ok(root) && PlainDirectory(users, roles)
    ensures r == Answer(cfg, bind, users, roles, req, base, root)
  {
    hide Trimmed, ParseDn, Reaches, Equals, PlainName, Scan, UserEntries, GroupEntries;
    var includeUsers := Reaches(base, req.scope, people);
    var includeGroups := Reaches(base, req.scope, groups);
    if !includeUsers { UsersUnreached(users, cfg, root, base, req.scope, req.filter); }
    if !includeGroups { GroupsUnreached(roles, users, cfg, root, base, req.scope, req.filter); }
    if !includeUsers && !includeGroups {
      if !Equals(base, root) && !IsUnder(base, root) {
        return Response(NoSuchObject, []);
      }
      EqualIsUnder(base, root);
      return Response(Success, []);
    }
    if bind.BoundUser? && !bind.active {
      return Response(InsufficientAccessRights, []);
    }
    var entries: seq<Entry> := [];
    if includeUsers {
      var found := MatchingUsers(users, cfg, base, req);
      entries := entries + found;
    }
    if includeGroups {
      var found := MatchingGroups(roles, users, cfg, base, req);
      entries := entries + found;
    }
    r := Response(Success, entries);
  }

  lemma EqualIsUnder(a: Dn, b: Dn)
    ensures Equals(a, b) ==> IsUnder(a, b)
  {
    assert a[0..] == a;
  }

  lemma UnitsParse(base: string)
    requires Trimmed(base)
    ensures Above([("ou", "people")], base, PeopleDn(base)) && Above([("ou", "groups")], base, GroupsDn(base))
  {
    hide ParseDn, Trimmed, Above;
    LiteralsPlain();
    BuiltNamesParse(base, "service");
  }
}
