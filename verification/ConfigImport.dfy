/** The one-time import of config.yaml into the database: a list of separate statements,
    none of them in a transaction, which a crash or an error may cut off anywhere. */
module ConfigImport {
  import opened Options
  import opened Statements

  datatype ServerConfig = ServerConfig(name: string, columns: string)

  /** A row is inserted first and gets its typed columns by a second statement. */
  datatype Row = Row(name: string, position: nat, columns: Option<string>)

  /** The app_config tables, in the order they are saved. */
  datatype Table = MarketBot | Discord | Auth | Battlepass | Welcome | Misc

  const TABLES := [MarketBot, Discord, Auth, Battlepass, Welcome, Misc]

  /** sequence is the servers row of sqlite_sequence, 0 when there is none; marker and
      active are the two meta entries. */
  datatype Store = Store(
    servers: map<nat, Row>, sequence: nat, settings: map<Table, string>, active: Option<nat>, marker: bool)

  /** What config.yaml says, with the legacy flat connection, if there is one, as a server. */
  datatype Seed = Seed(servers: seq<ServerConfig>, flat: Option<ServerConfig>, settings: Table -> string)

  function SeedServers(seed: Seed): seq<ServerConfig> {
    if |seed.servers| > 0 then seed.servers else if seed.flat.Some? then [seed.flat.value] else []
  }

  // ----- Statements -----

  datatype Statement =
    | ClearServers
    | ResetSequence
    | SaveSettings(table: Table, fields: string)
    | InsertServer(config: ServerConfig, position: nat)
    | WriteColumns(config: ServerConfig, position: nat)
    | SetActive
    | SetMarker

  /** The store, and the importer's own variables: the id just inserted and the scope that
      is to become active. */
  datatype Importing = Importing(store: Store, lastId: nat, scope: Option<nat>)

  ghost function Highest(ids: set<nat>): (high: nat)
    ensures forall id :: id in ids ==> id <= high
    ensures high in ids || (high == 0 && ids == {})
  {
    if ids == {} then 0
    else
      var id :| id in ids;
      var rest := Highest(ids - {id});
      assert forall i :: i in ids ==> i == id || i in ids - {id};
      if id < rest then rest else id
  }

  /** An AUTOINCREMENT key is past every id in the table and every id ever given out. */
  ghost function NextId(s: Store): nat {
    var high := Highest(s.servers.Keys);
    1 + if high < s.sequence then s.sequence else high
  }

  ghost function Execute(x: Importing, st: Statement): Importing {
    var s := x.store;
    match st
    case ClearServers => x.(store := s.(servers := map[]))
    case ResetSequence => x.(store := s.(sequence := 0))
    case SaveSettings(table, fields) => x.(store := s.(settings := s.settings[table := fields]))
    case InsertServer(config, position) =>
      var id := NextId(s);
      x.(store := s.(servers := s.servers[id := Row(config.name, position, None)], sequence := id), lastId := id)
    case WriteColumns(config, position) =>
      var servers := if x.lastId in s.servers then s.servers[x.lastId := s.servers[x.lastId].(columns := Some(config.columns))] else s.servers;
      x.(store := s.(servers := servers), scope := if position == 0 then Some(x.lastId) else x.scope)
    case SetActive => if x.scope.Some? then x.(store := s.(active := x.scope)) else x
    case SetMarker => x.(store := s.(marker := true))
  }

  function SettingsStatements(settings: Table -> string, from: nat): seq<Statement>
    requires from <= |TABLES|
    decreases |TABLES| - from
  {
    if from == |TABLES| then [] else [SaveSettings(TABLES[from], settings(TABLES[from]))] + SettingsStatements(settings, from + 1)
  }

  function ServerStatements(servers: seq<ServerConfig>, from: nat): seq<Statement>
    requires from <= |servers|
    decreases |servers| - from
  {
    if from == |servers| then []
    else [InsertServer(servers[from], from), WriteColumns(servers[from], from)] + ServerStatements(servers, from + 1)
  }

  /** The active server is set when there is one; the marker comes last. */
  function Ending(seed: Seed): seq<Statement> {
    (if SeedServers(seed) == [] then [] else [SetActive]) + [SetMarker]
  }

  /** The statements of an import; resets tells whether the id sequence is reset, as the
      code does. */
  function Plan(seed: Seed, resets: bool): seq<Statement> {
    [ClearServers] + ((if resets then [ResetSequence] else [])
    + (SettingsStatements(seed.settings, 0)
    + (ServerStatements(SeedServers(seed), 0)
    + Ending(seed))))
  }

  ghost function Started(s: Store): Importing {
    Importing(s, 0, None)
  }

  /** The store after an import that completes left statements, or all of them. */
  ghost function Import(s: Store, seed: Seed, resets: bool, left: nat): Progress<Importing> {
    Perform(Execute, Started(s), Plan(seed, resets), left)
  }

  // ----- What a whole import leaves -----

  function RowFor(servers: seq<ServerConfig>, base: nat, id: nat): Row
    requires base < id <= base + |servers|
  {
    var position := id - base - 1;
    Row(servers[position].name, position, Some(servers[position].columns))
  }

  /** The imported rows, with ids base + 1, base + 2 and so on. */
  function Rows(servers: seq<ServerConfig>, base: nat): map<nat, Row> {
    map id: nat | base < id <= base + |servers| :: RowFor(servers, base, id)
  }

  function SavedFrom(settings: Table -> string, from: nat): map<Table, string>
    requires from <= |TABLES|
  {
    map table | table in TABLES[from..] :: settings(table)
  }

  /** The servers with ids after base, the first of them active, all settings saved, the
      marker set. */
  function Seeded(s: Store, seed: Seed, base: nat): Store {
    var servers := SeedServers(seed);
    Store(Rows(servers, base), base + |servers|, SavedFrom(seed.settings, 0),
          if servers == [] then s.active else Some(base + 1), true)
  }

  lemma OneTableSaved(saved: map<Table, string>, settings: Table -> string, from: nat)
    requires from < |TABLES|
    ensures saved[TABLES[from] := settings(TABLES[from])] + SavedFrom(settings, from + 1) == saved + SavedFrom(settings, from)
  {
    forall table ensures table in TABLES[from..] <==> table == TABLES[from] || table in TABLES[from + 1..] {
      FirstOrLater(TABLES, from, table);
    }
  }

  lemma FirstOrLater(tables: seq<Table>, from: nat, table: Table)
    requires from < |tables|
    ensures table in tables[from..] <==> table == tables[from] || table in tables[from + 1..]
  {
    assert tables[from..] == [tables[from]] + tables[from + 1..];
  }

  lemma AllTablesSaved(saved: map<Table, string>, settings: Table -> string)
    ensures saved + SavedFrom(settings, 0) == SavedFrom(settings, 0)
  {
    forall table ensures table in TABLES[0..] { EveryTable(table); }
  }

  lemma {:induction false} SettingsSaved(x: Importing, settings: Table -> string, from: nat, left: nat)
    requires from <= |TABLES| && |SettingsStatements(settings, from)| <= left
    ensures Perform(Execute, x, SettingsStatements(settings, from), left).state ==
            x.(store := x.store.(settings := x.store.settings + SavedFrom(settings, from)))
    decreases |TABLES| - from
  {
    hide SavedFrom;
    if from < |TABLES| {
      var st := SaveSettings(TABLES[from], settings(TABLES[from]));
      PerformOne(Execute, x, st, SettingsStatements(settings, from + 1), left);
      SettingsSaved(Execute(x, st), settings, from + 1, left - 1);
      OneTableSaved(x.store.settings, settings, from);
    } else {
      NoTableSaved(x.store.settings, settings);
    }
  }

  lemma NoTableSaved(saved: map<Table, string>, settings: Table -> string)
    ensures saved + SavedFrom(settings, |TABLES|) == saved
  {}

  lemma NextIdAfter(s: Store, servers: seq<ServerConfig>, base: nat)
    requires s.servers == Rows(servers, base) && s.sequence == base + |servers|
    ensures NextId(s) == base + |servers| + 1
  {}

  lemma RowsOneMore(servers: seq<ServerConfig>, base: nat, i: nat)
    requires i < |servers|
    ensures Rows(servers[..i + 1], base) ==
            Rows(servers[..i], base)[base + i + 1 := Row(servers[i].name, i, Some(servers[i].columns))]
  {}

  lemma ServerAdded(x: Importing, servers: seq<ServerConfig>, base: nat, i: nat)
    requires i < |servers| && x.store.servers == Rows(servers[..i], base) && x.store.sequence == base + i
    ensures
      Execute(Execute(x, InsertServer(servers[i], i)), WriteColumns(servers[i], i)) ==
      Importing(x.store.(servers := Rows(servers[..i + 1], base), sequence := base + i + 1),
                base + i + 1, if i == 0 then Some(base + 1) else x.scope)
  {
    hide NextId, Rows;
    NextIdAfter(x.store, servers[..i], base);
    RowsOneMore(servers, base, i);
  }

  lemma {:induction false} ServersAdded(x: Importing, servers: seq<ServerConfig>, base: nat, i: nat, left: nat)
    requires i <= |servers| && |ServerStatements(servers, i)| <= left
    requires x.store.servers == Rows(servers[..i], base) && x.store.sequence == base + i
    ensures
      var y := Perform(Execute, x, ServerStatements(servers, i), left).state;
      y.store == x.store.(servers := Rows(servers, base), sequence := base + |servers|)
      && y.scope == if i == 0 && servers != [] then Some(base + 1) else x.scope
    decreases |servers| - i
  {
    if i < |servers| {
      var insert, write, rest := InsertServer(servers[i], i), WriteColumns(servers[i], i), ServerStatements(servers, i + 1);
      assert ServerStatements(servers, i) == [insert] + ([write] + rest);
      PerformOne(Execute, x, insert, [write] + rest, left);
      PerformOne(Execute, Execute(x, insert), write, rest, left - 1);
      ServerAdded(x, servers, base, i);
      ServersAdded(Execute(Execute(x, insert), write), servers, base, i + 1, left - 2);
    } else {
      assert servers[..i] == servers;
    }
  }

  lemma EndOfImport(x: Importing, seed: Seed, left: nat)
    requires left >= |Ending(seed)| && (SeedServers(seed) != [] ==> x.scope.Some?)
    ensures Perform(Execute, x, Ending(seed), left).state.store ==
            x.store.(active := if SeedServers(seed) == [] then x.store.active else x.scope, marker := true)
  {
    hide Perform;
    var y := if SeedServers(seed) == [] then x else Execute(x, SetActive);
    var rest := if SeedServers(seed) == [] then left else left - 1;
    if SeedServers(seed) != [] { PerformOne(Execute, x, SetActive, [SetMarker], left); } else { assert Ending(seed) == [SetMarker]; }
    assert [SetMarker] == [SetMarker] + [];
    PerformOne(Execute, y, SetMarker, [], rest);
    PerformNothing(Execute, Execute(y, SetMarker), rest - 1);
  }

  lemma AfterClearing(x: Importing, seed: Seed, left: nat)
    requires x.store.servers == map[] && x.scope == None
    requires |SettingsStatements(seed.settings, 0) + (ServerStatements(SeedServers(seed), 0) + Ending(seed))| <= left
    ensures Perform(Execute, x, SettingsStatements(seed.settings, 0) + (ServerStatements(SeedServers(seed), 0) + Ending(seed)), left).state.store
            == Seeded(x.store, seed, x.store.sequence)
  {
    hide Perform, Execute, NextId;
    var servers, base := SeedServers(seed), x.store.sequence;
    var first, second, third := SettingsStatements(seed.settings, 0), ServerStatements(servers, 0), Ending(seed);
    PerformInParts(Execute, x, first, second + third, left);
    PerformCounts(Execute, x, first, left);
    SettingsSaved(x, seed.settings, 0, left);
    AllTablesSaved(x.store.settings, seed.settings);
    var y := Perform(Execute, x, first, left).state;
    assert Rows(servers[..0], base) == map[];
    PerformInParts(Execute, y, second, third, left - |first|);
    PerformCounts(Execute, y, second, left - |first|);
    ServersAdded(y, servers, base, 0, left - |first|);
    var z := Perform(Execute, y, second, left - |first|).state;
    EndOfImport(z, seed, left - |first| - |second|);
  }

  /** A completed import leaves the seed's servers with consecutive ids, whatever the
      database held before: from 1 with the sequence reset, and otherwise from past every
      id ever given out. */
  lemma WholeImport(s: Store, seed: Seed, resets: bool, left: nat)
    requires Import(s, seed, resets, left).ok
    ensures Import(s, seed, resets, left).state.store == Seeded(s, seed, if resets then 0 else s.sequence)
  {
    hide Execute, Perform;
    var rest := SettingsStatements(seed.settings, 0) + (ServerStatements(SeedServers(seed), 0) + Ending(seed));
    var reset := if resets then [ResetSequence] else [];
    PerformCounts(Execute, Started(s), Plan(seed, resets), left);
    PerformOne(Execute, Started(s), ClearServers, reset + rest, left);
    var cleared := Importing(s.(servers := map[]), 0, None);
    Clearing(s);
    if resets {
      PerformOne(Execute, cleared, ResetSequence, rest, left - 1);
      AfterClearing(cleared.(store := cleared.store.(sequence := 0)), seed, left - 2);
    } else {
      assert reset + rest == rest;
      AfterClearing(cleared, seed, left - 1);
    }
  }

  lemma Clearing(s: Store)
    ensures Execute(Started(s), ClearServers) == Importing(s.(servers := map[]), 0, None)
    ensures Execute(Importing(s.(servers := map[]), 0, None), ResetSequence) == Importing(s.(servers := map[], sequence := 0), 0, None)
  {}

  /** What a completed import leaves, row by row: the listed servers with ids 1, 2 and so
      on in order, or else the flat one with id 1, or else none; the first one active; every
      settings table; the marker. */
  lemma ImportedRows(s: Store, seed: Seed, left: nat)
    requires Import(s, seed, true, left).ok
    ensures
      var t := Import(s, seed, true, left).state.store;
      (seed.servers != [] ==>
        (forall id :: id in t.servers <==> 1 <= id <= |seed.servers|)
        && (forall i :: 0 <= i < |seed.servers| ==>
              t.servers[i + 1] == Row(seed.servers[i].name, i, Some(seed.servers[i].columns))))
      && (seed.servers == [] && seed.flat.Some? ==> t.servers == map[1 := Row(seed.flat.value.name, 0, Some(seed.flat.value.columns))])
      && (seed.servers == [] && seed.flat == None ==> t.servers == map[])
      && t.active == (if seed.servers != [] || seed.flat.Some? then Some(1) else s.active)
      && t.marker
      && forall table :: table in t.settings && t.settings[table] == seed.settings(table)
  {
    WholeImport(s, seed, true, left);
    SeededRows(s, seed);
  }

  lemma SeededRows(s: Store, seed: Seed)
    ensures
      var t := Seeded(s, seed, 0);
      (seed.servers != [] ==>
        (forall id :: id in t.servers <==> 1 <= id <= |seed.servers|)
        && (forall i :: 0 <= i < |seed.servers| ==>
              t.servers[i + 1] == Row(seed.servers[i].name, i, Some(seed.servers[i].columns))))
      && (seed.servers == [] && seed.flat.Some? ==> t.servers == map[1 := Row(seed.flat.value.name, 0, Some(seed.flat.value.columns))])
      && (seed.servers == [] && seed.flat == None ==> t.servers == map[])
      && t.active == (if seed.servers != [] || seed.flat.Some? then Some(1) else s.active)
      && forall table :: table in t.settings && t.settings[table] == seed.settings(table)
  {
    AllTablesSaved(map[], seed.settings);
    forall table ensures table in SavedFrom(seed.settings, 0) { EveryTable(table); }
  }

  lemma EveryTable(table: Table)
    ensures table in TABLES[0..]
  {
    assert TABLES[0..] == TABLES;
    match table {
      case MarketBot => assert TABLES[0] == table;
      case Discord => assert TABLES[1] == table;
      case Auth => assert TABLES[2] == table;
      case Battlepass => assert TABLES[3] == table;
      case Welcome => assert TABLES[4] == table;
      case Misc => assert TABLES[5] == table;
    }
  }

  // ----- Crashes -----

  /** Before the last statement nothing but the rows, the sequence and the settings is
      written, except the active server once there are servers to import. */
  lemma {:induction false} CutOffLeavesMarker(x: Importing, plan: seq<Statement>, left: nat)
    requires forall i :: 0 <= i < |plan| && plan[i].SetMarker? ==> i == |plan| - 1
    requires left < |plan|
    ensures Perform(Execute, x, plan, left).state.store.marker == x.store.marker
    decreases |plan|
  {
    if left > 0 {
      forall i | 0 <= i < |plan| - 1 && plan[1..][i].SetMarker? ensures i == |plan| - 2 { assert plan[i + 1].SetMarker?; }
      assert !plan[0].SetMarker?;
      CutOffLeavesMarker(Execute(x, plan[0]), plan[1..], left - 1);
    }
  }

  lemma {:induction false} NoServersNoActive(x: Importing, plan: seq<Statement>, left: nat)
    requires x.scope == None && forall i :: 0 <= i < |plan| ==> !plan[i].WriteColumns?
    ensures Perform(Execute, x, plan, left).state.store.active == x.store.active
    decreases |plan|
  {
    if plan != [] && left > 0 {
      assert !plan[0].WriteColumns?;
      NoServersNoActive(Execute(x, plan[0]), plan[1..], left - 1);
    }
  }

  lemma SettingsOnly(settings: Table -> string, from: nat)
    requires from <= |TABLES|
    ensures forall i :: 0 <= i < |SettingsStatements(settings, from)| ==> SettingsStatements(settings, from)[i].SaveSettings?
    decreases |TABLES| - from
  {}

  lemma {:induction false} ServersOnly(servers: seq<ServerConfig>, from: nat)
    requires from <= |servers|
    ensures forall i :: 0 <= i < |ServerStatements(servers, from)| ==>
              ServerStatements(servers, from)[i].InsertServer? || ServerStatements(servers, from)[i].WriteColumns?
    decreases |servers| - from
  {
    if from < |servers| { ServersOnly(servers, from + 1); }
  }

  lemma PlanShape(seed: Seed, resets: bool)
    ensures
      var plan := Plan(seed, resets);
      (forall i :: 0 <= i < |plan| && plan[i].SetMarker? ==> i == |plan| - 1)
      && (SeedServers(seed) == [] ==> forall i :: 0 <= i < |plan| ==> !plan[i].WriteColumns?)
  {
    SettingsOnly(seed.settings, 0);
    ServersOnly(SeedServers(seed), 0);
  }

  /** A cut-off import leaves the marker as it was, and the active server too when there is
      no server to import. */
  lemma CutOffImport(s: Store, seed: Seed, resets: bool, left: nat)
    requires !Import(s, seed, resets, left).ok
    ensures Import(s, seed, resets, left).state.store.marker == s.marker
    ensures SeedServers(seed) == [] ==> Import(s, seed, resets, left).state.store.active == s.active
  {
    hide SettingsStatements, ServerStatements, Execute;
    PlanShape(seed, resets);
    PerformCounts(Execute, Started(s), Plan(seed, resets), left);
    CutOffLeavesMarker(Started(s), Plan(seed, resets), left);
    if SeedServers(seed) == [] { NoServersNoActive(Started(s), Plan(seed, resets), left); }
  }

  // ----- Boots -----

  /** One start: whether there is a config.yaml, what it says, and how many statements the
      import completes before a crash or an error. */
  datatype Boot = Boot(hasConfig: bool, seed: Seed, statements: nat)

  /** hydrateConfigFromStore, as far as the import goes. */
  ghost function Booted(s: Store, boot: Boot): Store {
    if s.marker || !boot.hasConfig then s else Import(s, boot.seed, true, boot.statements).state.store
  }

  ghost function BootedAll(s: Store, boots: seq<Boot>): Store {
    if boots == [] then s else Booted(BootedAll(s, boots[..|boots| - 1]), boots[|boots| - 1])
  }

  predicate CutOff(boot: Boot) {
    boot.hasConfig ==> boot.statements < |Plan(boot.seed, true)|
  }

  predicate NothingToServe(boots: seq<Boot>) {
    forall i :: 0 <= i < |boots| && boots[i].hasConfig ==> SeedServers(boots[i].seed) == []
  }

  lemma {:induction false} CutOffBoots(s: Store, boots: seq<Boot>)
    requires !s.marker && forall i :: 0 <= i < |boots| ==> CutOff(boots[i])
    ensures !BootedAll(s, boots).marker
    ensures NothingToServe(boots) ==> BootedAll(s, boots).active == s.active
  {
    hide Plan, Import, SeedServers;
    if boots != [] {
      var before, boot := BootedAll(s, boots[..|boots| - 1]), boots[|boots| - 1];
      CutOffBoots(s, boots[..|boots| - 1]);
      if boot.hasConfig {
        ImportCompletes(before, boot.seed, true, boot.statements);
        CutOffImport(before, boot.seed, true, boot.statements);
      }
    }
  }

  lemma ImportCompletes(s: Store, seed: Seed, resets: bool, left: nat)
    ensures Import(s, seed, resets, left).ok <==> |Plan(seed, resets)| <= left
  {
    PerformCounts(Execute, Started(s), Plan(seed, resets), left);
  }

  /** However many starts were cut off, and wherever, the first start that completes leaves
      exactly what an undisturbed import would have: ids 1 to n in order, the first server
      active, every setting saved, the marker set. Unless it is empty of servers, the
      config.yaml may have been edited in between. */
  lemma CrashesLeaveNoTrace(s: Store, boots: seq<Boot>, last: Boot)
    requires !s.marker && last.hasConfig && !CutOff(last)
    requires forall i :: 0 <= i < |boots| ==> CutOff(boots[i])
    requires SeedServers(last.seed) != [] || NothingToServe(boots)
    ensures Booted(BootedAll(s, boots), last) == Seeded(s, last.seed, 0)
    ensures Booted(BootedAll(s, boots), last) == Booted(s, last)
  {
    hide Plan, Import, Rows, SavedFrom, SeedServers;
    var crashed := BootedAll(s, boots);
    CutOffBoots(s, boots);
    ImportCompletes(crashed, last.seed, true, last.statements);
    ImportCompletes(s, last.seed, true, last.statements);
    WholeImport(crashed, last.seed, true, last.statements);
    WholeImport(s, last.seed, true, last.statements);
  }

  /** Once the marker is set no start, with any config.yaml, changes anything imported. */
  lemma {:induction false} ImportedOnce(s: Store, boots: seq<Boot>)
    requires s.marker
    ensures BootedAll(s, boots) == s
  {
    if boots != [] { ImportedOnce(s, boots[..|boots| - 1]); }
  }

  /** Over any starts at all, what is in place for good is the first import that completes:
      earlier ones leave no trace and later ones do nothing, whatever config.yaml says by then. */
  lemma {:induction false} FirstCompleteImportStays(s: Store, boots: seq<Boot>, first: nat)
    requires !s.marker && first < |boots|
    requires !CutOff(boots[first]) && forall i :: 0 <= i < first ==> CutOff(boots[i])
    requires SeedServers(boots[first].seed) != [] || NothingToServe(boots[..first])
    ensures BootedAll(s, boots) == Seeded(s, boots[first].seed, 0)
    decreases |boots|
  {
    hide CutOff, Plan, Import, Rows, SavedFrom, SeedServers, NothingToServe;
    var front := boots[..|boots| - 1];
    if first == |front| {
      CompletesWithConfig(boots[first]);
      CrashesLeaveNoTrace(s, front, boots[first]);
    } else {
      assert front[..first] == boots[..first];
      FirstCompleteImportStays(s, front, first);
    }
  }

  lemma CompletesWithConfig(boot: Boot)
    requires !CutOff(boot)
    ensures boot.hasConfig
  {}

  /** Without a config.yaml nothing is imported and no marker set, so one dropped in later
      is imported then, with the same result. */
  lemma {:induction false} LateConfigStillImports(s: Store, boots: seq<Boot>, last: Boot)
    requires !s.marker && last.hasConfig && !CutOff(last)
    requires forall i :: 0 <= i < |boots| ==> !boots[i].hasConfig
    ensures BootedAll(s, boots) == s
    ensures Booted(BootedAll(s, boots), last) == Seeded(s, last.seed, 0)
  {
    hide Plan, Import, Rows, SavedFrom;
    if boots != [] {
      LateConfigStillImports(s, boots[..|boots| - 1], last);
    } else {
      CrashesLeaveNoTrace(s, [], last);
    }
  }

  // ----- Why the sequence is reset -----

  /** Without the reset the ids come out right exactly when no id was ever given out. */
  lemma IdsShiftWithoutReset(s: Store, seed: Seed, left: nat)
    requires Import(s, seed, false, left).ok && SeedServers(seed) != []
    ensures Import(s, seed, false, left).state.store == Seeded(s, seed, 0) <==> s.sequence == 0
  {
    WholeImport(s, seed, false, left);
    var servers := SeedServers(seed);
    if s.sequence > 0 {
      assert 1 in Rows(servers, 0) && 1 !in Rows(servers, s.sequence);
    }
  }

  lemma SettingsCount(settings: Table -> string, from: nat)
    requires from <= |TABLES|
    ensures |SettingsStatements(settings, from)| == |TABLES| - from
    decreases |TABLES| - from
  {}

  lemma CrashAfterFirstInsert(s: Store, seed: Seed)
    requires s.servers == map[] && SeedServers(seed) != []
    ensures Import(s, seed, false, |TABLES| + 2).state.store.sequence == s.sequence + 1
  {
    hide SettingsStatements, Execute;
    var servers := SeedServers(seed);
    var first, insert := SettingsStatements(seed.settings, 0), InsertServer(servers[0], 0);
    var rest := [WriteColumns(servers[0], 0)] + ServerStatements(servers, 1) + Ending(seed);
    assert Plan(seed, false) == [ClearServers] + (first + ([insert] + rest));
    PerformOne(Execute, Started(s), ClearServers, first + ([insert] + rest), |TABLES| + 2);
    Clearing(s);
    var cleared := Importing(s.(servers := map[]), 0, None);
    SettingsCount(seed.settings, 0);
    PerformInParts(Execute, cleared, first, [insert] + rest, |TABLES| + 1);
    PerformCounts(Execute, cleared, first, |TABLES| + 1);
    SettingsSaved(cleared, seed.settings, 0, |TABLES| + 1);
    var x := Perform(Execute, cleared, first, |TABLES| + 1).state;
    PerformOne(Execute, x, insert, rest, 1);
    FirstId(x, servers[0]);
  }

  lemma FirstId(x: Importing, config: ServerConfig)
    requires x.store.servers == map[]
    ensures Execute(x, InsertServer(config, 0)).store.sequence == x.store.sequence + 1
  {}

  /** One crash is enough for that: right after the first server's row, on a database that
      never gave out an id, it makes the retry give the first server id 2. */
  lemma OneCrashShiftsIds(s: Store, seed: Seed, left: nat)
    requires s.servers == map[] && s.sequence == 0 && SeedServers(seed) != []
    requires |Plan(seed, false)| <= left
    ensures
      var crashed := Import(s, seed, false, |TABLES| + 2).state.store;
      Import(crashed, seed, false, left).state.store == Seeded(crashed, seed, 1)
      && Seeded(crashed, seed, 1).active == Some(2) && 1 !in Seeded(crashed, seed, 1).servers
  {
    hide Plan, Perform;
    CrashAfterFirstInsert(s, seed);
    var crashed := Import(s, seed, false, |TABLES| + 2).state.store;
    ImportCompletes(crashed, seed, false, left);
    WholeImport(crashed, seed, false, left);
  }
}
