/** The role to capability matrix: stored as rows, cached in memory, rebuilt on restart,
    and resolved into the capabilities of a session. */
module Permissions {
  import opened Options

  /** Pseudo-role or Discord role to capability names, as edited and as cached. */
  type Matrix = map<string, seq<string>>

  datatype Row = Row(role: string, capability: string)
  datatype Session = Session(login: string, sub: string, roleIds: seq<string>)

  const ROLE_DEFAULT := "default"
  const ROLE_GUEST := "guest"
  const LOCAL_PREFIX := "local:"

  /** allCapabilities. */
  predicate Known(name: string) {
    name in {
      "players:read", "players:write", "players:delete", "world:read", "world:write", "data:export",
      "server:read", "server:control", "broadcast:send", "restarts:read", "restarts:manage",
      "config:read", "config:write", "market:read", "market-bot:read", "market-bot:manage",
      "events:read", "events:manage", "welcome:read", "welcome:manage",
      "battlepass:track", "battlepass:read", "battlepass:manage", "logs:read",
      "database:read", "database:query", "backups:read", "backups:manage",
      "auth:manage", "diagnostics:read"}
  }

  /** defaultSeedCaps. */
  const SEED_CAPS := ["players:read", "world:read", "server:read", "market:read", "battlepass:track"]
  const SEED: Matrix := map[ROLE_DEFAULT := SEED_CAPS]

  // ----- What a matrix grants -----

  /** The matrix rows a session inherits. */
  function RolesOf(s: Session): set<string> {
    if s.login == "guest" then {ROLE_DEFAULT, ROLE_GUEST} else {ROLE_DEFAULT} + set r | r in s.roleIds
  }

  function UserOf(s: Session): string {
    if |LOCAL_PREFIX| <= |s.sub| && s.sub[..|LOCAL_PREFIX|] == LOCAL_PREFIX then s.sub[|LOCAL_PREFIX|..] else s.sub
  }

  predicate HasRow(m: Matrix, role: string, name: string) {
    role in m && name in m[role]
  }

  /** users looks up the capabilities assigned to an enabled local user, when there is a
      user database. */
  predicate Assigned(s: Session, users: Option<string -> seq<string>>, name: string) {
    s.login == "local" && users.Some? && name in users.value(UserOf(s))
  }

  ghost predicate Grants(m: Matrix, s: Session, users: Option<string -> seq<string>>, name: string) {
    Known(name) && ((exists role :: role in RolesOf(s) && HasRow(m, role, name)) || Assigned(s, users, name))
  }

  /** No session of any kind, with any local users, can tell the two matrices apart. */
  ghost predicate SameMeaning(m: Matrix, n: Matrix) {
    forall s, users, name :: Grants(m, s, users, name) <==> Grants(n, s, users, name)
  }

  // ----- Rows -----

  function RowsOf(m: Matrix): set<Row> {
    set role, name | role in m && name in m[role] :: Row(role, name)
  }

  lemma RowIsListed(m: Matrix, role: string, name: string)
    ensures Row(role, name) in RowsOf(m) <==> HasRow(m, role, name)
  {}

  /** Same rows, same meaning: the order and repetition of capabilities, and roles with
      none, do not matter. */
  lemma RowsDecideMeaning(m: Matrix, n: Matrix)
    requires RowsOf(m) == RowsOf(n)
    ensures SameMeaning(m, n)
  {
    hide Known, RowsOf;
    forall s, users, name ensures Grants(m, s, users, name) <==> Grants(n, s, users, name) {
      forall role ensures HasRow(m, role, name) <==> HasRow(n, role, name) {
        RowIsListed(m, role, name);
        RowIsListed(n, role, name);
      }
    }
  }

  /** What one role's holder gets: the default row and the role's own. */
  predicate RoleHas(m: Matrix, role: string, name: string) {
    Known(name) && (HasRow(m, ROLE_DEFAULT, name) || HasRow(m, role, name))
  }

  lemma MemberOfOneRole(m: Matrix, role: string, name: string)
    ensures Grants(m, Session("discord", "", [role]), None, name) <==> RoleHas(m, role, name)
  {}

  /** Matrices mean the same for every session exactly when they do for every single role. */
  lemma MeaningIsPerRole(m: Matrix, n: Matrix)
    ensures SameMeaning(m, n) <==> forall role, name :: RoleHas(m, role, name) <==> RoleHas(n, role, name)
  {
    hide Known, HasRow, RolesOf;
    if SameMeaning(m, n) {
      forall role, name ensures RoleHas(m, role, name) <==> RoleHas(n, role, name) {
        MemberOfOneRole(m, role, name);
        MemberOfOneRole(n, role, name);
      }
    } else {
      var s, users, name :| Grants(m, s, users, name) != Grants(n, s, users, name);
      var role := if Grants(m, s, users, name) then RoleBehind(m, s, users, name) else RoleBehind(n, s, users, name);
      EveryoneInheritsDefault(s);
      assert RoleHas(m, role, name) != RoleHas(n, role, name);
    }
  }

  lemma EveryoneInheritsDefault(s: Session)
    ensures ROLE_DEFAULT in RolesOf(s)
  {}

  ghost function RoleBehind(m: Matrix, s: Session, users: Option<string -> seq<string>>, name: string): (role: string)
    requires Grants(m, s, users, name) && !Assigned(s, users, name)
    ensures role in RolesOf(s) && HasRow(m, role, name)
  {
    var role :| role in RolesOf(s) && HasRow(m, role, name);
    role
  }

  // ----- The stored matrix -----

  datatype SaveIo = SaveIo(
    beginError: Option<Error>, clearError: Option<Error>, insertError: Row -> Option<Error>, commitError: Option<Error>)

  ghost predicate Commits(m: Matrix, io: SaveIo) {
    io.beginError.None? && io.clearError.None? && io.commitError.None?
    && forall row :: row in RowsOf(m) ==> io.insertError(row).None?
  }

  class PermissionTable {
    var rows: set<Row>

    constructor ()
      ensures rows == {}
    {
      rows := {};
    }

    /** savePermissionMatrix: the whole matrix is replaced, or nothing changes. */
    method Save(m: Matrix, io: SaveIo) returns (err: Option<Error>)
      modifies this
      ensures err.None? <==> Commits(m, io)
      ensures rows == if err.None? then RowsOf(m) else old(rows)
    {
      if io.beginError.Some? { return io.beginError; }
      var tx := rows;   // the transaction's view
      if io.clearError.Some? { return io.clearError; }
      tx := {};
      var rest := m.Keys;
      while rest != {}
        invariant rest <= m.Keys
        invariant forall row :: row in tx <==> HasRow(m, row.role, row.capability) && row.role !in rest
        invariant forall row :: row in tx ==> io.insertError(row).None?
        decreases rest
      {
        var role :| role in rest;
        rest := rest - {role};
        ghost var before := tx;
        for i := 0 to |m[role]|
          invariant tx == before + set name | name in m[role][..i] :: Row(role, name)
          invariant forall row :: row in tx ==> io.insertError(row).None?
        {
          var row := Row(role, m[role][i]);
          assert m[role][..i + 1] == m[role][..i] + [m[role][i]];
          if io.insertError(row).Some? {
            RowIsListed(m, role, m[role][i]);
            return io.insertError(row);
          }
          tx := tx + {row};
        }
        assert m[role][..|m[role]|] == m[role];
      }
      assert tx == RowsOf(m) by {
        forall row ensures row in tx <==> row in RowsOf(m) { RowIsListed(m, row.role, row.capability); }
      }
      if io.commitError.Some? { return io.commitError; }
      rows := tx;
      err := None;
    }

    /** loadPermissionMatrix: rows, in any order, grouped by role; ok tells whether there
        were any. */
    method Load(fault: Option<Error>) returns (m: Matrix, ok: bool, err: Option<Error>)
      ensures err == fault
      ensures err.None? ==> RowsOf(m) == rows && (ok <==> rows != {})
    {
      m, ok, err := map[], false, fault;
      if err.Some? { return; }
      var rest := rows;
      while rest != {}
        invariant rest <= rows
        invariant forall row: Row :: HasRow(m, row.role, row.capability) <==> row in rows - rest
        invariant forall role :: role in m ==> m[role] != []
        invariant forall row: Row :: row in rows - rest ==> row.role in m
        decreases rest
      {
        var row :| row in rest;
        rest := rest - {row};
        m := m[row.role := (if row.role in m then m[row.role] else []) + [row.capability]];
      }
      forall row ensures row in RowsOf(m) <==> row in rows { RowIsListed(m, row.role, row.capability); }
      ok := |m| > 0;
      if ok {
        ghost var role :| role in m;
        assert HasRow(m, role, m[role][0]) && Row(role, m[role][0]) in rows;
      }
    }
  }

  // ----- The cached matrix -----

  class CapabilitySet {
    var names: set<string>

    constructor ()
      ensures names == {}
    {
      names := {};
    }
  }

  function KnownOf(names: seq<string>): set<string> {
    set name | name in names && Known(name)
  }

  function RowCaps(m: Matrix, role: string): set<string> {
    if role in m then KnownOf(m[role]) else {}
  }

  lemma KnownOneMore(names: seq<string>, i: nat)
    requires i < |names|
    ensures KnownOf(names[..i + 1]) == KnownOf(names[..i]) + if Known(names[i]) then {names[i]} else {}
  {}

  /** The known ones among names, added to caps. */
  method AddKnown(caps: CapabilitySet, names: seq<string>)
    modifies caps
    ensures caps.names == old(caps.names) + KnownOf(names)
  {
    hide Known, KnownOf;
    assert KnownOf(names[..0]) == {} by { NothingKnown(names); }
    for i := 0 to |names|
      invariant caps.names == old(caps.names) + KnownOf(names[..i])
    {
      KnownOneMore(names, i);
      if Known(names[i]) { caps.names := caps.names + {names[i]}; }
    }
    assert names[..|names|] == names;
  }

  lemma NothingKnown(names: seq<string>)
    ensures KnownOf(names[..0]) == {}
  {}

  class PermissionsState {
    const table: PermissionTable
    var matrix: Matrix

    constructor (table: PermissionTable)
      ensures this.table == table && matrix == map[]
    {
      this.table, matrix := table, map[];
    }

    method ApplyMatrixRow(caps: CapabilitySet, role: string)
      modifies caps
      ensures caps.names == old(caps.names) + RowCaps(matrix, role)
    {
      if role in matrix { AddKnown(caps, matrix[role]); }
    }

    /** The default row, and the rows of the session's roles. */
    method CapsForRoles(roleIds: seq<string>) returns (caps: CapabilitySet)
      ensures fresh(caps)
      ensures forall name :: name in caps.names <==>
                name in RowCaps(matrix, ROLE_DEFAULT) || exists i :: 0 <= i < |roleIds| && name in RowCaps(matrix, roleIds[i])
    {
      hide RowCaps;
      caps := new CapabilitySet();
      ApplyMatrixRow(caps, ROLE_DEFAULT);
      for i := 0 to |roleIds|
        invariant fresh(caps)
        invariant forall name :: name in caps.names <==>
                    name in RowCaps(matrix, ROLE_DEFAULT) || exists j :: 0 <= j < i && name in RowCaps(matrix, roleIds[j])
      {
        ApplyMatrixRow(caps, roleIds[i]);
      }
    }

    /** capsForSession: exactly what the matrix and the user database grant. */
    method CapsForSession(s: Session, users: Option<string -> seq<string>>) returns (names: set<string>)
      ensures forall name :: name in names <==> Grants(matrix, s, users, name)
    {
      hide RowCaps, KnownOf, Known, HasRow, RolesOf, Assigned;
      var caps;
      if s.login == "guest" {
        caps := new CapabilitySet();
        ApplyMatrixRow(caps, ROLE_DEFAULT);
        ApplyMatrixRow(caps, ROLE_GUEST);
        forall name ensures name in caps.names <==> Grants(matrix, s, users, name) { GuestGrants(matrix, s, users, name); }
        return caps.names;
      }
      caps := CapsForRoles(s.roleIds);
      if s.login == "local" && users.Some? {
        AddKnown(caps, users.value(UserOf(s)));
      }
      forall name ensures name in caps.names <==> Grants(matrix, s, users, name) { MemberGrants(matrix, s, users, name); }
      return caps.names;
    }

    /** handlePutPermissions, past authentication: refused with an unknown capability,
        stored, then applied. */
    method Put(m: Matrix, io: SaveIo) returns (err: Option<Error>)
      modifies this, table
      ensures err.None? <==> Commits(m, io) && forall row :: row in RowsOf(m) ==> Known(row.capability)
      ensures if err.None? then matrix == m && table.rows == RowsOf(m)
              else matrix == old(matrix) && table.rows == old(table.rows)
    {
      hide Known;
      var rest := m.Keys;
      while rest != {}
        invariant rest <= m.Keys
        invariant forall role, name :: role in m && role !in rest && name in m[role] ==> Known(name)
        decreases rest
      {
        var role :| role in rest;
        rest := rest - {role};
        for i := 0 to |m[role]|
          invariant forall j :: 0 <= j < i ==> Known(m[role][j])
        {
          if !Known(m[role][i]) {
            RowIsListed(m, role, m[role][i]);
            return Some(Error(false, "unknown capability"));
          }
        }
      }
      err := table.Save(m, io);
      if err.None? { matrix := m; }
    }

    /** initPermissionsMatrix, with a database open. */
    method Init(loadFault: Option<Error>, io: SaveIo)
      modifies this, table
      ensures loadFault.Some? ==> matrix == old(matrix) && table.rows == old(table.rows)
      ensures loadFault.None? ==> Restarted(old(table.rows), matrix)
      ensures loadFault.None? ==> table.rows == if old(table.rows) == {} && Commits(SEED, io) then RowsOf(SEED) else old(table.rows)
    {
      var m, ok, err := table.Load(loadFault);
      if err.Some? { return; }
      if !ok {
        var logged := table.Save(SEED, io);
        matrix := SEED;
        return;
      }
      matrix := m;
    }
  }

  lemma RowCapsGrant(m: Matrix, role: string, name: string)
    ensures name in RowCaps(m, role) <==> Known(name) && HasRow(m, role, name)
  {}

  lemma GuestGrants(m: Matrix, s: Session, users: Option<string -> seq<string>>, name: string)
    requires s.login == "guest"
    ensures Grants(m, s, users, name) <==> name in RowCaps(m, ROLE_DEFAULT) + RowCaps(m, ROLE_GUEST)
  {
    hide Known, RowCaps, HasRow;
    RowCapsGrant(m, ROLE_DEFAULT, name);
    RowCapsGrant(m, ROLE_GUEST, name);
    assert ROLE_DEFAULT in RolesOf(s) && ROLE_GUEST in RolesOf(s);
  }

  lemma MemberGrants(m: Matrix, s: Session, users: Option<string -> seq<string>>, name: string)
    requires s.login != "guest"
    ensures Grants(m, s, users, name) <==>
            name in RowCaps(m, ROLE_DEFAULT)
            || (exists i :: 0 <= i < |s.roleIds| && name in RowCaps(m, s.roleIds[i]))
            || (s.login == "local" && users.Some? && name in KnownOf(users.value(UserOf(s))))
  {
    hide Known, RowCaps, HasRow;
    forall role ensures name in RowCaps(m, role) <==> Known(name) && HasRow(m, role, name) { RowCapsGrant(m, role, name); }
    assert ROLE_DEFAULT in RolesOf(s);
    forall i | 0 <= i < |s.roleIds| ensures s.roleIds[i] in RolesOf(s) {}
  }

  // ----- Save and restart -----

  /** What a restart caches, given the stored rows. */
  ghost predicate Restarted(rows: set<Row>, m: Matrix) {
    if rows == {} then m == SEED else RowsOf(m) == rows
  }

  predicate NamesSomething(m: Matrix) {
    exists role :: role in m && m[role] != []
  }

  lemma SomethingIsARow(m: Matrix)
    ensures NamesSomething(m) <==> RowsOf(m) != {}
  {
    if NamesSomething(m) {
      var role :| role in m && m[role] != [];
      RowIsListed(m, role, m[role][0]);
    }
    if RowsOf(m) != {} {
      var row :| row in RowsOf(m);
      RowIsListed(m, row.role, row.capability);
    }
  }

  lemma SeedGrants()
    ensures Grants(SEED, Session("guest", "", []), None, "world:read")
  {
    assert HasRow(SEED, ROLE_DEFAULT, "world:read") by { assert SEED_CAPS[1] in SEED_CAPS; }
    assert ROLE_DEFAULT in RolesOf(Session("guest", "", []));
  }

  /** Saving a matrix and restarting keeps every session's capabilities if and only if some
      row of it names a capability: the empty matrix is read as a first start, and the
      read-only baseline comes back. */
  lemma RestartKeepsMeaningIffNotEmpty(m: Matrix, restarted: Matrix)
    requires Restarted(RowsOf(m), restarted)
    ensures SameMeaning(m, restarted) <==> NamesSomething(m)
  {
    hide Known, SameMeaning;
    SomethingIsARow(m);
    if NamesSomething(m) {
      RowsDecideMeaning(m, restarted);
    } else {
      SeedGrants();
      NothingGranted(m);
      DifferentMeaning(m, SEED, Session("guest", "", []), None, "world:read");
    }
  }

  lemma NothingGranted(m: Matrix)
    requires RowsOf(m) == {}
    ensures !Grants(m, Session("guest", "", []), None, "world:read")
  {
    hide Known;
    forall role ensures !HasRow(m, role, "world:read") { RowIsListed(m, role, "world:read"); }
  }

  lemma DifferentMeaning(m: Matrix, n: Matrix, s: Session, users: Option<string -> seq<string>>, name: string)
    requires !Grants(m, s, users, name) && Grants(n, s, users, name)
    ensures !SameMeaning(m, n)
  {}

  // ----- Whole runs of edits and restarts -----

  /** The table and the cache. */
  datatype Served = Served(rows: set<Row>, cache: Matrix)

  /** A restarted process begins with an empty cache, which a failed load leaves empty. */
  datatype Change = Edit(m: Matrix, io: SaveIo) | Restart(loaded: Matrix, io: SaveIo) | RestartUnread

  const EMPTY_MATRIX: Matrix := map[]

  ghost predicate Accepted(m: Matrix, io: SaveIo) {
    Commits(m, io) && forall row :: row in RowsOf(m) ==> Known(row.capability)
  }

  ghost predicate Step(x: Served, change: Change, y: Served) {
    match change
    case Edit(m, io) => y == if Accepted(m, io) then Served(RowsOf(m), m) else x
    case Restart(loaded, io) =>
      Restarted(x.rows, loaded)
      && y == Served(if x.rows == {} && Commits(SEED, io) then RowsOf(SEED) else x.rows, loaded)
    case RestartUnread => y == x.(cache := EMPTY_MATRIX)
  }

  /** Some start, from whatever the table holds, and then any edits and restarts. */
  ghost predicate Run(xs: seq<Served>, changes: seq<Change>) {
    |xs| == |changes| + 1 && changes != [] && !changes[0].Edit?
    && forall i :: 0 <= i < |changes| ==> Step(xs[i], changes[i], xs[i + 1])
  }

  /** The cache holds the stored rows, or the baseline whose save was lost, or nothing
      because the load failed. */
  ghost predicate InStep(x: Served) {
    x.rows == RowsOf(x.cache) || (x.rows == {} && x.cache == SEED) || x.cache == EMPTY_MATRIX
  }

  lemma {:induction false} CacheFollowsTable(xs: seq<Served>, changes: seq<Change>, i: nat)
    requires Run(xs, changes) && 1 <= i <= |changes|
    ensures InStep(xs[i])
  {
    hide RowsOf, Known, Commits;
    if i > 1 { CacheFollowsTable(xs, changes, i - 1); }
    assert Step(xs[i - 1], changes[i - 1], xs[i]);
  }

  predicate NoneKnown(rows: set<Row>) {
    forall row :: row in rows ==> !Known(row.capability)
  }

  /** A matrix means the same as the empty one exactly when it names no known capability. */
  lemma MeansNothingIff(m: Matrix)
    ensures SameMeaning(EMPTY_MATRIX, m) <==> NoneKnown(RowsOf(m))
  {
    hide Known, SameMeaning;
    if NoneKnown(RowsOf(m)) {
      forall role, name ensures !RoleHas(m, role, name) && !RoleHas(EMPTY_MATRIX, role, name) {
        RowIsListed(m, role, name);
        RowIsListed(m, ROLE_DEFAULT, name);
      }
      MeaningIsPerRole(EMPTY_MATRIX, m);
    } else {
      var row :| row in RowsOf(m) && Known(row.capability);
      RowIsListed(m, row.role, row.capability);
      assert RoleHas(m, row.role, row.capability) && !RoleHas(EMPTY_MATRIX, row.role, row.capability);
      MeaningIsPerRole(EMPTY_MATRIX, m);
    }
  }

  /** At any point of any run, exactly when a further restart is invisible to every session.
      A restart that loads is: with an empty table, when the baseline is being served; with
      stored rows, when they are being served already or grant nothing. One whose load fails
      is when nothing is granted before it. */
  lemma RestartIsInvisibleIff(xs: seq<Served>, changes: seq<Change>, i: nat, loaded: Matrix)
    requires Run(xs, changes) && 1 <= i <= |changes| && Restarted(xs[i].rows, loaded)
    ensures SameMeaning(xs[i].cache, loaded) <==>
            if xs[i].rows == {} then xs[i].cache == SEED else xs[i].cache != EMPTY_MATRIX || NoneKnown(xs[i].rows)
    ensures SameMeaning(EMPTY_MATRIX, xs[i].cache) <==> NoneKnown(RowsOf(xs[i].cache))
  {
    hide RowsOf, Known, SameMeaning, NamesSomething, NoneKnown;
    CacheFollowsTable(xs, changes, i);
    var x := xs[i];
    MeansNothingIff(x.cache);
    NoRowsInEmpty();
    if x.rows == RowsOf(x.cache) {
      RestartKeepsMeaningIffNotEmpty(x.cache, loaded);
      SomethingIsARow(x.cache);
      SomethingIsARow(SEED);
      SeedNamesSomething();
    } else if x.rows == {} {
      RowsDecideMeaning(SEED, SEED);
    } else {
      MeansNothingIff(loaded);
    }
  }

  lemma NoRowsInEmpty()
    ensures RowsOf(EMPTY_MATRIX) == {}
  {}

  lemma SeedNamesSomething()
    ensures NamesSomething(SEED)
  {
    assert ROLE_DEFAULT in SEED;
  }

  // ----- What each kind of session gets -----

  /** Every capability that can be granted: what may be looked at, and what may be changed. */
  lemma CapabilityCatalogue(name: string)
    ensures Known(name) <==>
            name in {"players:read", "world:read", "data:export", "server:read", "restarts:read", "config:read",
                     "market:read", "market-bot:read", "events:read", "welcome:read", "battlepass:track",
                     "battlepass:read", "logs:read", "database:read", "database:query", "backups:read", "diagnostics:read"}
            || name in {"players:write", "players:delete", "world:write", "server:control", "broadcast:send",
                        "restarts:manage", "config:write", "market-bot:manage", "events:manage", "welcome:manage",
                        "battlepass:manage", "backups:manage", "auth:manage"}
  {}

  /** A guest gets what the default and guest rows name, whatever roles it claims. */
  lemma GuestGets(m: Matrix, s: Session, users: Option<string -> seq<string>>, name: string)
    requires s.login == "guest"
    ensures Grants(m, s, users, name) <==>
            Known(name) && (("default" in m && name in m["default"]) || ("guest" in m && name in m["guest"]))
  {
    hide Known;
    assert ROLE_DEFAULT in RolesOf(s) && ROLE_GUEST in RolesOf(s);
    assert HasRow(m, "default", name) <==> "default" in m && name in m["default"];
    assert HasRow(m, "guest", name) <==> "guest" in m && name in m["guest"];
  }

  predicate RolesName(m: Matrix, roles: seq<string>, name: string) {
    ("default" in m && name in m["default"]) || exists i :: 0 <= i < |roles| && roles[i] in m && name in m[roles[i]]
  }

  lemma RowsOfRoles(m: Matrix, s: Session, name: string)
    requires s.login != "guest"
    ensures (exists role :: role in RolesOf(s) && HasRow(m, role, name)) <==> RolesName(m, s.roleIds, name)
  {
    assert ROLE_DEFAULT in RolesOf(s);
    forall i | 0 <= i < |s.roleIds| ensures s.roleIds[i] in RolesOf(s) {}
    if "default" in m && name in m["default"] { assert HasRow(m, ROLE_DEFAULT, name); }
    if i :| 0 <= i < |s.roleIds| && s.roleIds[i] in m && name in m[s.roleIds[i]] { assert HasRow(m, s.roleIds[i], name); }
  }

  /** Any other session gets the default row and its roles' rows; a local user, whose name
      follows "local:" in the session, also what the user database assigns to that name. */
  lemma MemberGets(m: Matrix, login: string, user: string, roles: seq<string>, users: Option<string -> seq<string>>, name: string)
    requires login != "guest"
    ensures Grants(m, Session(login, "local:" + user, roles), users, name) <==>
            Known(name) && (RolesName(m, roles, name) || (login == "local" && users.Some? && name in users.value(user)))
  {
    hide Known, HasRow, RolesOf, RolesName;
    var s := Session(login, "local:" + user, roles);
    assert s.sub[..|LOCAL_PREFIX|] == LOCAL_PREFIX && s.sub[|LOCAL_PREFIX|..] == user;
    RowsOfRoles(m, s, name);
  }

  /** A session of some other kind of subject keeps it whole as the user's name. */
  lemma UserNames(s: Session)
    ensures |s.sub| < 6 || s.sub[..6] != "local:" ==> UserOf(s) == s.sub
    ensures |s.sub| >= 6 && s.sub[..6] == "local:" ==> UserOf(s) == s.sub[6..]
  {}

  /** On a first start everyone, guests included, gets exactly the five read-only names. */
  lemma FirstStartGets(m: Matrix, name: string)
    requires Restarted({}, m)
    ensures Grants(m, Session("guest", "", []), None, name) <==>
            name in {"players:read", "world:read", "server:read", "market:read", "battlepass:track"}
  {
    GuestGets(m, Session("guest", "", []), None, name);
    assert m["default"] == SEED_CAPS;
    forall i | 0 <= i < 5 ensures SEED_CAPS[i] in SEED_CAPS {}
  }
}
