/** The import, statement by statement, against ConfigImport's plan. */
module ConfigStore {
  import opened Options
  import opened ConfigImport
  import opened Statements

  const FAILED := Error(false, "statement failed")

  class ConfigDatabase {
    var servers: map<nat, Row>
    var sequence: nat
    var settings: map<Table, string>
    var active: Option<nat>
    var marker: bool

    constructor ()
      ensures Contents() == Store(map[], 0, map[], None, false)
    {
      servers, sequence, settings, active, marker := map[], 0, map[], None, false;
    }

    ghost function Contents(): Store
      reads this
    {
      Store(servers, sequence, settings, active, marker)
    }

    /** The id AUTOINCREMENT gives the next row. */
    method NextRowId() returns (id: nat)
      ensures id == NextId(Contents())
    {
      id := sequence;
      var rest := servers.Keys;
      while rest != {}
        invariant rest <= servers.Keys
        invariant id >= sequence && forall i :: i in servers && i !in rest ==> i <= id
        invariant id == sequence || id in servers
        decreases rest
      {
        var i :| i in rest;
        rest := rest - {i};
        if i > id { id := i; }
      }
      id := id + 1;
    }

    /** saveAppConfigColumns: one upsert a table. */
    method SaveSettings(fields: Table -> string, left: nat, ghost x: Importing) returns (remaining: nat, err: Option<Error>)
      requires x.store == Contents()
      modifies this
      ensures Progressed(Perform(Execute, x, SettingsStatements(fields, 0), left), Contents(), remaining, err)
    {
      remaining, err := left, None;
      ghost var y := x;
      var i := 0;
      while i < |TABLES|
        invariant 0 <= i <= |TABLES| && err.None? && y.store == Contents()
        invariant Perform(Execute, x, SettingsStatements(fields, 0), left) == Perform(Execute, y, SettingsStatements(fields, i), remaining)
      {
        if remaining == 0 { return remaining, Some(FAILED); }
        PerformOne(Execute, y, Statement.SaveSettings(TABLES[i], fields(TABLES[i])), SettingsStatements(fields, i + 1), remaining);
        y := Execute(y, Statement.SaveSettings(TABLES[i], fields(TABLES[i])));
        settings := settings[TABLES[i] := fields(TABLES[i])];
        remaining := remaining - 1;
        i := i + 1;
      }
    }

    /** insertServer: the row, and then its columns. */
    method InsertServer(config: ServerConfig, position: nat, left: nat, ghost x: Importing)
      returns (id: nat, remaining: nat, err: Option<Error>)
      requires x.store == Contents()
      modifies this
      ensures
        var p := Perform(Execute, x, [Statement.InsertServer(config, position), WriteColumns(config, position)], left);
        Progressed(p, Contents(), remaining, err) && (p.ok ==> p.state.lastId == id)
    {
      PerformPair(Execute, x, Statement.InsertServer(config, position), WriteColumns(config, position), left);
      id, remaining, err := 0, left, None;
      if remaining == 0 { return id, remaining, Some(FAILED); }
      id := NextRowId();
      servers, sequence := servers[id := Row(config.name, position, None)], id;
      remaining := remaining - 1;
      if remaining == 0 { return id, remaining, Some(FAILED); }
      servers := servers[id := servers[id].(columns := Some(config.columns))];
      remaining := remaining - 1;
    }

    /** importSeedServers: every server in turn; the first one's scope is to be active. */
    method ImportSeedServers(seed: Seed, left: nat, ghost x: Importing)
      returns (scope: Option<nat>, remaining: nat, err: Option<Error>)
      requires x.store == Contents() && x.scope == None
      modifies this
      ensures
        var p := Perform(Execute, x, ServerStatements(SeedServers(seed), 0), left);
        Progressed(p, Contents(), remaining, err) && (p.ok ==> p.state.scope == scope && (scope.Some? <==> SeedServers(seed) != []))
    {
      hide Execute;
      scope, remaining, err := None, left, None;
      var id;
      ghost var y := x;
      if |seed.servers| == 0 {
        if seed.flat.None? { return; }
        OneServer(seed.flat.value);
        id, remaining, err := InsertServer(seed.flat.value, 0, remaining, x);
        ScopeAfter(x, seed.flat.value, 0, left);
        scope := Some(id);
        return;
      }
      var i := 0;
      while i < |seed.servers|
        invariant 0 <= i <= |seed.servers| && err.None? && y.store == Contents() && y.scope == scope && (scope.Some? <==> i > 0)
        invariant Perform(Execute, x, ServerStatements(seed.servers, 0), left) == Perform(Execute, y, ServerStatements(seed.servers, i), remaining)
      {
        ghost var pair := [Statement.InsertServer(seed.servers[i], i), WriteColumns(seed.servers[i], i)];
        PerformInParts(Execute, y, pair, ServerStatements(seed.servers, i + 1), remaining);
        ScopeAfter(y, seed.servers[i], i, remaining);
        ghost var before, had := y, remaining;
        id, remaining, err := InsertServer(seed.servers[i], i, remaining, before);
        y := Perform(Execute, before, pair, had).state;
        if err.Some? { return; }
        if i == 0 { scope := Some(id); }
        i := i + 1;
      }
    }

    /** The active server, if there is one, and the marker. */
    method Finish(seed: Seed, scope: Option<nat>, left: nat, ghost x: Importing) returns (err: Option<Error>)
      requires x.store == Contents() && x.scope == scope && (scope.Some? <==> SeedServers(seed) != [])
      modifies this
      ensures Contents() == Perform(Execute, x, Ending(seed), left).state.store && (err.None? <==> Perform(Execute, x, Ending(seed), left).ok)
    {
      EndingInSteps(x, seed, left);
      var remaining := left;
      err := None;
      if scope.Some? {
        if remaining == 0 { return Some(FAILED); }
        active := scope;
        remaining := remaining - 1;
      }
      if remaining == 0 { return Some(FAILED); }
      marker := true;
    }

    /** importConfigYAMLIntoStore: left of its statements succeed. */
    method ImportConfigYaml(seed: Seed, left: nat) returns (err: Option<Error>)
      modifies this
      ensures Contents() == Import(old(Contents()), seed, true, left).state.store
      ensures err.None? <==> Import(old(Contents()), seed, true, left).ok
    {
      hide Perform, Execute, Plan;
      ImportInSteps(Contents(), seed, left);
      err := None;
      if left == 0 { return Some(FAILED); }
      servers := map[];
      if left == 1 { return Some(FAILED); }
      sequence := 0;
      ghost var x := Importing(Contents(), 0, None);
      var remaining;
      remaining, err := SaveSettings(seed.settings, left - 2, x);
      if err.Some? { return; }
      SettingsKeepScope(x, seed.settings, left - 2);
      x := Perform(Execute, x, SettingsStatements(seed.settings, 0), left - 2).state;
      ghost var had := remaining;
      var scope;
      scope, remaining, err := ImportSeedServers(seed, remaining, x);
      if err.Some? { return; }
      x := Perform(Execute, x, ServerStatements(SeedServers(seed), 0), had).state;
      err := Finish(seed, scope, remaining, x);
    }

    /** hydrateConfigFromStore up to the load: import once, if there is a config.yaml. */
    method Hydrate(boot: Boot, markerError: Option<Error>)
      modifies this
      ensures Contents() == if markerError.Some? then old(Contents()) else Booted(old(Contents()), boot)
    {
      if markerError.Some? { return; }
      if !marker && boot.hasConfig {
        var logged := ImportConfigYaml(boot.seed, boot.statements);
      }
    }
  }

  ghost predicate Progressed(p: Progress<Importing>, s: Store, remaining: nat, err: Option<Error>) {
    p.state.store == s && p.left == remaining && (p.ok <==> err.None?)
  }

  lemma OneServer(config: ServerConfig)
    ensures ServerStatements([config], 0) == [InsertServer(config, 0), WriteColumns(config, 0)]
  {}

  lemma ScopeAfter(x: Importing, config: ServerConfig, position: nat, left: nat)
    ensures
      var p := Perform(Execute, x, [InsertServer(config, position), WriteColumns(config, position)], left);
      p.ok ==> p.state.scope == if position == 0 then Some(p.state.lastId) else x.scope
  {
    PerformPair(Execute, x, InsertServer(config, position), WriteColumns(config, position), left);
  }

  lemma SettingsKeepScope(x: Importing, settings: Table -> string, left: nat)
    requires Perform(Execute, x, SettingsStatements(settings, 0), left).ok
    ensures Perform(Execute, x, SettingsStatements(settings, 0), left).state.scope == x.scope
  {
    PerformCounts(Execute, x, SettingsStatements(settings, 0), left);
    SettingsSaved(x, settings, 0, left);
  }

  lemma EndingInSteps(x: Importing, seed: Seed, left: nat)
    ensures Perform(Execute, x, Ending(seed), left) ==
            if SeedServers(seed) != [] then
              if left == 0 then Progress(x, 0, false)
              else if left == 1 then Progress(Execute(x, SetActive), 0, false)
              else Progress(Execute(Execute(x, SetActive), SetMarker), left - 2, true)
            else if left == 0 then Progress(x, 0, false)
            else Progress(Execute(x, SetMarker), left - 1, true)
  {
    hide Execute;
    if SeedServers(seed) != [] {
      assert Ending(seed) == [SetActive, SetMarker];
      PerformPair(Execute, x, SetActive, SetMarker, left);
    } else if left > 0 {
      assert Ending(seed) == [SetMarker] + [];
      PerformOne(Execute, x, SetMarker, [], left);
    }
  }

  /** An import after its two clearing statements. */
  ghost function Refilled(x: Importing, seed: Seed, left: nat): Progress<Importing> {
    var p := Perform(Execute, x, SettingsStatements(seed.settings, 0), left);
    if !p.ok then p
    else
      var q := Perform(Execute, p.state, ServerStatements(SeedServers(seed), 0), p.left);
      if !q.ok then q else Perform(Execute, q.state, Ending(seed), q.left)
  }

  lemma ImportInSteps(s: Store, seed: Seed, left: nat)
    ensures Import(s, seed, true, left) ==
            if left == 0 then Progress(Started(s), 0, false)
            else if left == 1 then Progress(Importing(s.(servers := map[]), 0, None), 0, false)
            else Refilled(Importing(s.(servers := map[], sequence := 0), 0, None), seed, left - 2)
  {
    hide Perform, Execute, SettingsStatements, ServerStatements, Ending;
    var first, second, third := SettingsStatements(seed.settings, 0), ServerStatements(SeedServers(seed), 0), Ending(seed);
    var clearing, rest := [ClearServers, ResetSequence], first + (second + third);
    assert Plan(seed, true) == clearing + rest;
    PerformInParts(Execute, Started(s), clearing, rest, left);
    PerformPair(Execute, Started(s), ClearServers, ResetSequence, left);
    Clearing(s);
    if left >= 2 {
      var x := Importing(s.(servers := map[], sequence := 0), 0, None);
      PerformInParts(Execute, x, first, second + third, left - 2);
      var p := Perform(Execute, x, first, left - 2);
      PerformInParts(Execute, p.state, second, third, p.left);
    }
  }
}
