/**
 * backend/server.py: the gamepad configuration the server keeps (an INI
 * file of sections of string options), the parameter routes over it, the
 * multi-lobby controller status report and the game launch route.
 */
module Server {
  import opened Common

  /** A JSON value as the routes receive it. `Null` stands for JSON null and for a missing field. */
  datatype Value = Text(s: string) | Int(i: int) | Bool(b: bool) | Float(repr: string) | Null

  /** Python's `str(value)`; a float's rendering is carried by the value itself. */
  function PyStr(v: Value): (s: string)
    ensures v.Text? ==> s == v.s
    ensures v.Int? && v.i >= 0 ==> s == Decimal(v.i)
  {
    match v
    case Text(s) => s
    case Int(i) => if i < 0 then "-" + Decimal(-i) else Decimal(i)
    case Bool(b) => if b then "True" else "False"
    case Float(repr) => repr
    case Null => "None"
  }

  /** The configuration in memory: sections of options, every value a string. */
  type Ini = map<string, map<string, string>>

  /** A configuration as a request carries it. */
  type Data = map<string, map<string, Value>>

  /** What `save_gamepad_config` puts in the parser: every value through `str`. */
  function Render(data: Data): (ini: Ini)
    ensures ini.Keys == data.Keys
    ensures forall s :: s in ini ==> ini[s].Keys == data[s].Keys
    ensures forall s, k :: s in ini && k in ini[s] ==> ini[s][k] == PyStr(data[s][k])
  {
    map s | s in data :: map k | k in data[s] :: PyStr(data[s][k])
  }

  /** An all-string configuration as request data. */
  function Lift(ini: Ini): (data: Data)
    ensures data.Keys == ini.Keys
    ensures forall s :: s in data ==> data[s].Keys == ini[s].Keys
    ensures forall s, k :: s in data && k in data[s] ==> data[s][k] == Text(ini[s][k])
  {
    map s | s in ini :: map k | k in ini[s] :: Text(ini[s][k])
  }

  /** Saving string data stores exactly those strings. */
  lemma RenderLift(ini: Ini)
    ensures Render(Lift(ini)) == ini
  {
    var r := Render(Lift(ini));
    forall s | s in ini
      ensures r[s] == ini[s]
    {
      assert r[s].Keys == ini[s].Keys;
    }
  }

  /** The default `Movement` option names, in the order the source lists them. */
  const MovementNames: seq<string> := [
    "look_intensity",
    "move_intensity",
    "forward_intensity",
    "ads_chance",
    "jump_chance",
    "jump_interval",
    "weapon_switch_chance",
    "weapon_switch_interval",
    "strafe_chance",
    "forward_bias",
    "shoot_chance",
    "shoot_duration",
    "crouch_chance",
    "x_button_chance",
    "x_button_interval",
    "min_movement_duration",
    "max_movement_duration",
    "min_break_duration",
    "max_break_duration"
  ]

  /** The default `Movement` values, name by name: what `str` makes of each float. */
  const MovementValues: seq<string> := [
    "3.0",
    "2.0",
    "2.0",
    "0.040000000000000036",
    "1.0",
    "1.0",
    "1.0",
    "15.0",
    "0.25",
    "0.4",
    "0.09999999999999998",
    "0.29799999999999993",
    "0.3",
    "0.3",
    "5.0",
    "9.377633711507293",
    "14.817396002160994",
    "1.0",
    "3.1766612641815235"
  ]

  /** The default `AntiAFK` option names. */
  const AntiAfkNames: seq<string> := [
    "interval",
    "right_bumper_duration",
    "left_bumper_duration",
    "delay_between_buttons"
  ]

  /** The default `AntiAFK` values, name by name. */
  const AntiAfkValues: seq<string> := [
    "60.599999999999994",
    "0.1359999999999999",
    "0.1417857142857143",
    "1.012"
  ]

  predicate DistinctNames(names: seq<string>) {
    forall i, j :: 0 <= i < j < |names| ==> names[i] != names[j]
  }

  /** The section holding option `names[i]` = `values[i]`; a later name wins over an earlier one. */
  function Section(names: seq<string>, values: seq<string>): (m: map<string, string>)
    requires |names| == |values|
    ensures forall i :: 0 <= i < |names| ==> names[i] in m
    ensures forall k :: k in m <==> k in names
  {
    if names == [] then map[]
    else
      var n := |names| - 1;
      Section(names[..n], values[..n])[names[n] := values[n]]
  }

  /** Dropping the last of distinct names leaves distinct names, none of them the last. */
  lemma DistinctInit(names: seq<string>)
    requires names != [] && DistinctNames(names)
    ensures DistinctNames(names[..|names| - 1])
    ensures names[|names| - 1] !in names[..|names| - 1]
  {
    var n := |names| - 1;
    assert forall i :: 0 <= i < n ==> names[..n][i] == names[i];
  }

  /** Options with distinct names make a section of exactly that many options, each with its value. */
  lemma {:induction false} SectionOfDistinct(names: seq<string>, values: seq<string>)
    requires |names| == |values| && DistinctNames(names)
    ensures |Section(names, values)| == |names|
    ensures forall i :: 0 <= i < |names| ==> Section(names, values)[names[i]] == values[i]
  {
    if names != [] {
      var n := |names| - 1;
      var initNames, initValues := names[..n], values[..n];
      DistinctInit(names);
      SectionOfDistinct(initNames, initValues);
      var m := Section(initNames, initValues);
      assert Section(names, values) == m[names[n] := values[n]];
      assert names[n] !in m;
      forall i | 0 <= i < n
        ensures Section(names, values)[names[i]] == values[i]
      {
        assert initNames[i] == names[i] && initValues[i] == values[i];
        assert m[initNames[i]] == initValues[i];
      }
    }
  }

  /** No name in rows `lo` to `hi` - 1 of the `Movement` list recurs later in the list. */
  predicate FreshFrom(lo: nat, hi: nat) {
    forall i, j :: lo <= i < hi && i < j < |MovementNames| ==> MovementNames[i] != MovementNames[j]
  }

  /** Rows 0 to 2 of the `Movement` names do not recur further down the list. */
  lemma MovementRowsFresh0To3()
    ensures FreshFrom(0, 3)
  {
  }

  /** Rows 3 to 6 of the `Movement` names do not recur further down the list. */
  lemma MovementRowsFresh3To7()
    ensures FreshFrom(3, 7)
  {
  }

  /** Rows 7 to 11 of the `Movement` names do not recur further down the list. */
  lemma MovementRowsFresh7To12()
    ensures FreshFrom(7, 12)
  {
  }

  /** Rows 12 to 18 of the `Movement` names do not recur further down the list. */
  lemma MovementRowsFresh12To19()
    ensures FreshFrom(12, 19)
  {
  }

  /**
   * The 19 `Movement` names are distinct. One quantifier over all pairs is
   * more than the solver settles reliably, so the rows are shown fresh in
   * four bands, each a lemma of its own.
   */
  lemma MovementNamesDistinct()
    ensures DistinctNames(MovementNames)
  {
    MovementRowsFresh0To3();
    MovementRowsFresh3To7();
    MovementRowsFresh7To12();
    MovementRowsFresh12To19();
  }

  lemma AntiAfkNamesDistinct()
    ensures DistinctNames(AntiAfkNames)
  {
  }

  /** A configuration of a `Movement` and an `AntiAFK` section built from distinct names. */
  function TwoSections(movementNames: seq<string>, movementValues: seq<string>,
                       antiAfkNames: seq<string>, antiAfkValues: seq<string>): (d: Ini)
    requires |movementNames| == |movementValues| && DistinctNames(movementNames)
    requires |antiAfkNames| == |antiAfkValues| && DistinctNames(antiAfkNames)
    ensures d.Keys == {"Movement", "AntiAFK"}
    ensures |d["Movement"]| == |movementNames| && |d["AntiAFK"]| == |antiAfkNames|
    ensures forall i :: 0 <= i < |movementNames| ==>
              movementNames[i] in d["Movement"] && d["Movement"][movementNames[i]] == movementValues[i]
    ensures forall i :: 0 <= i < |antiAfkNames| ==>
              antiAfkNames[i] in d["AntiAFK"] && d["AntiAFK"][antiAfkNames[i]] == antiAfkValues[i]
  {
    SectionOfDistinct(movementNames, movementValues);
    SectionOfDistinct(antiAfkNames, antiAfkValues);
    map["Movement" := Section(movementNames, movementValues), "AntiAFK" := Section(antiAfkNames, antiAfkValues)]
  }

  /** `get_default_gamepad_config`: `Movement` with 19 options and `AntiAFK` with 4, each with its listed value. */
  function DefaultGamepadConfig(): (d: Ini)
    ensures d.Keys == {"Movement", "AntiAFK"}
    ensures |d["Movement"]| == 19 && |d["AntiAFK"]| == 4
    ensures forall i :: 0 <= i < |MovementNames| ==> MovementNames[i] in d["Movement"] && d["Movement"][MovementNames[i]] == MovementValues[i]
    ensures forall i :: 0 <= i < |AntiAfkNames| ==> AntiAfkNames[i] in d["AntiAFK"] && d["AntiAFK"][AntiAfkNames[i]] == AntiAfkValues[i]
  {
    MovementNamesDistinct();
    AntiAfkNamesDistinct();
    TwoSections(MovementNames, MovementValues, AntiAfkNames, AntiAfkValues)
  }

  /** Set option `k` of section `s` to `v`, creating the section if needed. */
  function Upsert(ini: Ini, s: string, k: string, v: string): (r: Ini)
    ensures r.Keys == ini.Keys + {s}
    ensures r[s].Keys == (if s in ini then ini[s].Keys else {}) + {k}
    ensures r[s][k] == v
    ensures forall k' :: k' in r[s] && k' != k ==> r[s][k'] == ini[s][k']
    ensures forall s' :: s' in ini && s' != s ==> r[s'] == ini[s']
  {
    ini[s := (if s in ini then ini[s] else map[])[k := v]]
  }

  /** Remove option `k` of section `s`, and the section when it is left empty. */
  function RemoveOption(ini: Ini, s: string, k: string): (r: Ini)
    requires s in ini
    ensures forall s' :: s' in ini && s' != s ==> s' in r && r[s'] == ini[s']
    ensures s in r <==> !(ini[s].Keys <= {k})
    ensures s in r ==> r[s] == ini[s] - {k}
    ensures r.Keys <= ini.Keys
  {
    var rest := ini[s] - {k};
    if |rest| == 0 then
      assert rest.Keys == {};
      ini - {s}
    else
      assert !(ini[s].Keys <= {k}) by {
        var k' :| k' in rest;
      }
      ini[s := rest]
  }

  /**
   * Deleting an option just added restores the configuration, except when
   * the option went into an existing empty section, which the delete then
   * removes.
   */
  lemma RemoveUndoesAdd(ini: Ini, s: string, k: string, v: string)
    requires s in ini ==> k !in ini[s]
    ensures RemoveOption(Upsert(ini, s, k, v), s, k) == ini <==> !(s in ini && ini[s] == map[])
  {
    if s in ini && ini[s] == map[] {
      assert Upsert(ini, s, k, v)[s].Keys == {k};
      assert s !in RemoveOption(Upsert(ini, s, k, v), s, k);
    } else if s in ini {
      RemoveUndoesAddToSection(ini, s, k, v);
    } else {
      RemoveUndoesAddNewSection(ini, s, k, v);
    }
  }

  lemma RemoveUndoesAddToSection(ini: Ini, s: string, k: string, v: string)
    requires s in ini && k !in ini[s] && ini[s] != map[]
    ensures RemoveOption(Upsert(ini, s, k, v), s, k) == ini
  {
    var added := ini[s := ini[s][k := v]];
    assert Upsert(ini, s, k, v) == added;
    var k' :| k' in ini[s];
    assert k' in added[s] && k' != k;
    assert added[s] - {k} == ini[s];
    assert RemoveOption(added, s, k) == ini[s := ini[s]];
  }

  lemma RemoveUndoesAddNewSection(ini: Ini, s: string, k: string, v: string)
    requires s !in ini
    ensures RemoveOption(Upsert(ini, s, k, v), s, k) == ini
  {
    var added := ini[s := map[k := v]];
    assert Upsert(ini, s, k, v) == added;
    assert added[s].Keys == {k};
    assert RemoveOption(added, s, k) == added - {s};
    assert added - {s} == ini;
  }

  /** Setting an option back to its previous value restores the configuration. */
  lemma UpsertRestores(ini: Ini, s: string, k: string, v: string)
    requires s in ini && k in ini[s]
    ensures Upsert(Upsert(ini, s, k, v), s, k, ini[s][k]) == ini
  {
    var back := Upsert(Upsert(ini, s, k, v), s, k, ini[s][k]);
    assert back[s] == ini[s];
  }

  /** Why a configuration call failed. */
  datatype Failure = SectionNotFound | ParameterNotFound | ParameterExists | WriteFailed | MissingFields

  /** The dictionary a configuration call returns. */
  datatype Outcome =
    | Done
    | Modified(oldValue: string, newValue: string)
    | Deleted(deletedValue: string)
    | Failed(why: Failure)

  /** A Flask route's answer: the status code and the body. */
  datatype Reply = Reply(status: nat, outcome: Outcome)

  /** `200 if result.get('success') else 400`. */
  function StatusFor(o: Outcome): (status: nat)
    ensures status == 200 <==> !o.Failed?
    ensures status == 400 <==> o.Failed?
  {
    if o.Failed? then 400 else 200
  }

  /** `all([section, key, value is not None])`: both names non-empty and a value given. */
  predicate FieldsPresent(section: Option<string>, key: Option<string>, value: Value) {
    section.Some? && section.value != "" && key.Some? && key.value != "" && value != Null
  }

  /** One entry of the multi-lobby status report. */
  datatype LobbyStatus = LobbyStatus(connected: bool, movementEnabled: bool, antiAfkEnabled: bool, controllerId: nat)

  datatype StatusReport = StatusReport(controllers: map<string, LobbyStatus>, totalLobbies: nat, connectedCount: nat)

  /** The ids `lobby1` … `lobby<n>`. */
  function LobbyIds(n: nat): (ids: set<string>)
    ensures forall i :: 1 <= i <= n ==> LobbyId(i) in ids
  {
    set i | 1 <= i <= n :: LobbyId(i)
  }

  /** There are `n` of them, since ids of distinct numbers differ. */
  lemma {:induction false} LobbyIdsCount(n: nat)
    ensures |LobbyIds(n)| == n
  {
    if n > 0 {
      LobbyIdsCount(n - 1);
      LobbyIdsStep(n);
    }
  }

  /** The ids up to `lobby<n>` are those up to `lobby<n-1>` and one new id. */
  lemma LobbyIdsStep(n: nat)
    requires n >= 1
    ensures LobbyIds(n) == LobbyIds(n - 1) + {LobbyId(n)}
    ensures LobbyId(n) !in LobbyIds(n - 1)
  {
    if LobbyId(n) in LobbyIds(n - 1) {
      var i :| 1 <= i <= n - 1 && LobbyId(i) == LobbyId(n);
      LobbyIdInjective(i, n);
    }
  }

  /** The entry `status-all` reports for lobby `i`. */
  function StatusEntry(i: nat, attached: bool, movement: bool, antiAfk: bool): LobbyStatus {
    if attached then LobbyStatus(true, movement, antiAfk, i) else LobbyStatus(false, false, false, i)
  }

  /** A JSON game record of `nizua_config.json`; `installed` is None when the field is absent. */
  datatype Game = Game(id: int, name: string, path: string, installed: Option<bool>)

  /** `next((g for g in games if g['id'] == game_id), None)`. */
  function FindGame(games: seq<Game>, gameId: int): (r: Option<nat>)
    ensures r.None? <==> forall i :: 0 <= i < |games| ==> games[i].id != gameId
    ensures r.Some? ==> r.value < |games| && games[r.value].id == gameId
    ensures r.Some? ==> forall j :: 0 <= j < r.value ==> games[j].id != gameId
  {
    if |games| == 0 then None
    else if games[0].id == gameId then Some(0)
    else match FindGame(games[1..], gameId) case None => None case Some(i) => Some(i + 1)
  }

  /** `get_game(game_id)`: the first game with that id, or None for the 404 answer. */
  function GetGame(games: seq<Game>, gameId: int): (r: Option<Game>)
    ensures r.None? <==> forall i :: 0 <= i < |games| ==> games[i].id != gameId
    ensures r.Some? ==> r.value.id == gameId && r.value in games
    ensures r.Some? ==> exists i :: 0 <= i < |games| && games[i] == r.value
                                    && forall j :: 0 <= j < i ==> games[j].id != gameId
  {
    match FindGame(games, gameId)
    case None => None
    case Some(i) => Some(games[i])
  }

  datatype LaunchReply = NotFound | NotInstalled | Launched(gameId: int, redirectUrl: string)

  /** `launch_game(game_id)`: 404, 400, or the redirect to the game's path. */
  function LaunchGame(games: seq<Game>, gameId: int): (r: LaunchReply)
    ensures r == NotFound <==> forall i :: 0 <= i < |games| ==> games[i].id != gameId
    ensures r.Launched? ==> exists i :: 0 <= i < |games| && games[i].id == gameId
                              && games[i].installed == Some(true) && r.redirectUrl == games[i].path
    ensures r.Launched? ==> r.gameId == gameId
    ensures r == NotInstalled ==> exists i :: 0 <= i < |games| && games[i].id == gameId && games[i].installed != Some(true)
    ensures r != NotFound ==>
              exists i :: && 0 <= i < |games| && games[i].id == gameId
                          && (forall j :: 0 <= j < i ==> games[j].id != gameId)
                          && r == if games[i].installed == Some(true) then Launched(gameId, games[i].path) else NotInstalled
  {
    match FindGame(games, gameId)
    case None => NotFound
    case Some(i) =>
      if games[i].installed == Some(true) then Launched(gameId, games[i].path) else NotInstalled
  }

  /**
   * The status code `launch_game(game_id)` answers with: 404 exactly when
   * no game has the id, 200 exactly when the first game with it is
   * installed, and 400 otherwise.
   */
  function LaunchStatus(games: seq<Game>, gameId: int): (status: nat)
    ensures status == 200 || status == 400 || status == 404
    ensures status == 404 <==> forall i :: 0 <= i < |games| ==> games[i].id != gameId
    ensures status == 200 <==> exists i :: && 0 <= i < |games| && games[i].id == gameId
                                          && (forall j :: 0 <= j < i ==> games[j].id != gameId)
                                          && games[i].installed == Some(true)
  {
    match LaunchGame(games, gameId)
    case NotFound => 404
    case NotInstalled => 400
    case Launched(_, _) => 200
  }

  /** The lobbies of `keys` that `m` reports connected. */
  function ConnectedAmong(m: map<string, LobbyStatus>, keys: set<string>): (c: set<string>)
    ensures c <= keys
    ensures forall l :: l in c <==> l in keys && l in m && m[l].connected
  {
    set l | l in keys && l in m && m[l].connected
  }

  /** The entries for lobbies 1..20, built one lobby at a time. */
  method BuildStatus(attached: bool, movement: bool, antiAfk: bool) returns (controllers: map<string, LobbyStatus>)
    ensures controllers.Keys == LobbyIds(20)
    ensures forall i :: 1 <= i <= 20 ==> controllers[LobbyId(i)] == StatusEntry(i, attached, movement, antiAfk)
  {
    controllers := map[];
    var i := 1;
    while i < 21
      invariant 1 <= i <= 21
      invariant controllers.Keys == LobbyIds(i - 1)
      invariant forall j :: 1 <= j < i ==> controllers[LobbyId(j)] == StatusEntry(j, attached, movement, antiAfk)
    {
      LobbyIdsStep(i);
      controllers := controllers[LobbyId(i) := StatusEntry(i, attached, movement, antiAfk)];
      i := i + 1;
    }
  }

  /** `sum(1 for c in controllers.values() if c["connected"])`. */
  method CountConnected(m: map<string, LobbyStatus>) returns (n: nat)
    ensures n == |ConnectedAmong(m, m.Keys)|
  {
    n := 0;
    var keys := m.Keys;
    ghost var seen: set<string> := {};
    while keys != {}
      invariant keys !! seen && keys + seen == m.Keys
      invariant n == |ConnectedAmong(m, seen)|
      decreases keys
    {
      var l :| l in keys;
      if m[l].connected {
        assert ConnectedAmong(m, seen + {l}) == ConnectedAmong(m, seen) + {l};
        n := n + 1;
      } else {
        assert ConnectedAmong(m, seen + {l}) == ConnectedAmong(m, seen);
      }
      keys := keys - {l};
      seen := seen + {l};
    }
    assert seen == m.Keys;
  }

  /**
   * `get_all_controller_status`: one entry per lobby 1..20 with
   * `controller_id` = its number, all connected (with the controller's
   * flags) when a gamepad is attached and all disconnected otherwise.
   */
  method StatusAll(attached: bool, movement: bool, antiAfk: bool) returns (report: StatusReport)
    ensures report.totalLobbies == 20
    ensures report.controllers.Keys == LobbyIds(20) && |report.controllers| == 20
    ensures forall i :: 1 <= i <= 20 ==> report.controllers[LobbyId(i)] == StatusEntry(i, attached, movement, antiAfk)
    ensures report.connectedCount == |ConnectedAmong(report.controllers, report.controllers.Keys)|
    ensures report.connectedCount == if attached then 20 else 0
  {
    var controllers := BuildStatus(attached, movement, antiAfk);
    var connectedCount := CountConnected(controllers);
    LobbyIdsCount(20);
    forall l | l in controllers
      ensures controllers[l].connected == attached
    {
      var j :| 1 <= j <= 20 && LobbyId(j) == l;
    }
    assert ConnectedAmong(controllers, controllers.Keys) == if attached then controllers.Keys else {};
    report := StatusReport(controllers, 20, connectedCount);
  }

  /**
   * The server's gamepad configuration. Each write to `config.ini` is an
   * input `writeOk`: when it fails the call answers with an error, while
   * changes already made in memory stay.
   */
  class NizuaServer {
    var config: Ini
    var games: seq<Game>

    constructor (config: Ini, games: seq<Game>)
      ensures this.config == config && this.games == games
    {
      this.config := config;
      this.games := games;
    }

    /** `save_gamepad_config(data)`: the new configuration replaces the old only once it is written. */
    method SaveGamepadConfig(data: Data, writeOk: bool) returns (outcome: Outcome)
      modifies this
      ensures outcome == if writeOk then Done else Failed(WriteFailed)
      ensures config == if writeOk then Render(data) else old(config)
      ensures games == old(games)
    {
      var rendered := Render(data);
      if !writeOk {
        return Failed(WriteFailed);
      }
      config := rendered;
      outcome := Done;
    }

    /** `reset_gamepad_config_to_default`: a save of the default configuration. */
    method ResetGamepadConfigToDefault(writeOk: bool) returns (outcome: Outcome)
      modifies this
      ensures outcome == if writeOk then Done else Failed(WriteFailed)
      ensures config == if writeOk then DefaultGamepadConfig() else old(config)
      ensures games == old(games)
    {
      outcome := SaveGamepadConfig(Lift(DefaultGamepadConfig()), writeOk);
      RenderLift(DefaultGamepadConfig());
    }

    /**
     * `add_gamepad_parameter`: creates a missing section first; refuses an
     * option that exists; otherwise stores `str(value)`.
     */
    method AddGamepadParameter(section: string, key: string, value: Value, writeOk: bool) returns (outcome: Outcome)
      modifies this
      ensures section in old(config) && key in old(config)[section] ==>
                outcome == Failed(ParameterExists) && config == old(config)
      ensures !(section in old(config) && key in old(config)[section]) ==>
                config == Upsert(old(config), section, key, PyStr(value))
                && outcome == if writeOk then Done else Failed(WriteFailed)
      ensures section in config
      ensures games == old(games)
    {
      if section !in config {
        config := config[section := map[]];
      }
      if key in config[section] {
        return Failed(ParameterExists);
      }
      config := config[section := config[section][key := PyStr(value)]];
      outcome := if writeOk then Done else Failed(WriteFailed);
    }

    /** `modify_gamepad_parameter`: only an existing option changes; reports old and new values. */
    method ModifyGamepadParameter(section: string, key: string, value: Value, writeOk: bool) returns (outcome: Outcome)
      modifies this
      ensures section !in old(config) ==> outcome == Failed(SectionNotFound) && config == old(config)
      ensures section in old(config) && key !in old(config)[section] ==>
                outcome == Failed(ParameterNotFound) && config == old(config)
      ensures section in old(config) && key in old(config)[section] ==>
                config == Upsert(old(config), section, key, PyStr(value))
                && outcome == if writeOk then Modified(old(config)[section][key], PyStr(value)) else Failed(WriteFailed)
      ensures games == old(games)
    {
      if section !in config {
        return Failed(SectionNotFound);
      }
      if key !in config[section] {
        return Failed(ParameterNotFound);
      }
      var oldValue := config[section][key];
      config := config[section := config[section][key := PyStr(value)]];
      outcome := if writeOk then Modified(oldValue, PyStr(value)) else Failed(WriteFailed);
    }

    /**
     * `delete_gamepad_parameter`: removes an existing option, and its
     * section once empty; reports the deleted value.
     */
    method DeleteGamepadParameter(section: string, key: string, writeOk: bool) returns (outcome: Outcome)
      modifies this
      ensures section !in old(config) ==> outcome == Failed(SectionNotFound) && config == old(config)
      ensures section in old(config) && key !in old(config)[section] ==>
                outcome == Failed(ParameterNotFound) && config == old(config)
      ensures section in old(config) && key in old(config)[section] ==>
                config == RemoveOption(old(config), section, key)
                && outcome == if writeOk then Deleted(old(config)[section][key]) else Failed(WriteFailed)
      ensures games == old(games)
    {
      if section !in config {
        return Failed(SectionNotFound);
      }
      if key !in config[section] {
        return Failed(ParameterNotFound);
      }
      var oldValue := config[section][key];
      var rest := config[section] - {key};
      if |rest| == 0 {
        config := config - {section};
      } else {
        config := config[section := rest];
      }
      outcome := if writeOk then Deleted(oldValue) else Failed(WriteFailed);
    }

    /** `update_gamepad_setting`: an upsert of `str(value)`. */
    method UpdateGamepadSetting(section: string, key: string, value: Value, writeOk: bool) returns (outcome: Outcome)
      modifies this
      ensures config == Upsert(old(config), section, key, PyStr(value))
      ensures section in config && config[section][key] == PyStr(value)
      ensures outcome == if writeOk then Done else Failed(WriteFailed)
      ensures games == old(games)
    {
      if section !in config {
        config := config[section := map[]];
      }
      config := config[section := config[section][key := PyStr(value)]];
      outcome := if writeOk then Done else Failed(WriteFailed);
    }

    /** `POST /api/controller/config`: a missing or empty configuration is refused with 400. */
    method SaveRoute(data: Option<Data>, writeOk: bool) returns (reply: Reply)
      modifies this
      ensures (data.None? || data.value == map[]) ==> reply == Reply(400, Failed(MissingFields)) && config == old(config)
      ensures data.Some? && data.value != map[] ==>
                config == (if writeOk then Render(data.value) else old(config))
                && reply.status == (if writeOk then 200 else 400)
      ensures games == old(games)
    {
      if data.None? || data.value == map[] {
        return Reply(400, Failed(MissingFields));
      }
      var outcome := SaveGamepadConfig(data.value, writeOk);
      reply := Reply(StatusFor(outcome), outcome);
    }

    /** `POST /api/controller/config/reset`. */
    method ResetRoute(writeOk: bool) returns (reply: Reply)
      modifies this
      ensures reply.status == (if writeOk then 200 else 400)
      ensures config == if writeOk then DefaultGamepadConfig() else old(config)
      ensures games == old(games)
    {
      var outcome := ResetGamepadConfigToDefault(writeOk);
      reply := Reply(StatusFor(outcome), outcome);
    }

    /** `POST /api/controller/config/parameter`. */
    method AddRoute(section: Option<string>, key: Option<string>, value: Value, writeOk: bool) returns (reply: Reply)
      modifies this
      ensures !FieldsPresent(section, key, value) ==> reply == Reply(400, Failed(MissingFields)) && config == old(config)
      ensures FieldsPresent(section, key, value) ==> section.value in config
      ensures reply.status == 200 <==> !reply.outcome.Failed?
      ensures reply.status == 200 ==>
                && FieldsPresent(section, key, value) && writeOk
                && config == Upsert(old(config), section.value, key.value, PyStr(value))
      ensures FieldsPresent(section, key, value) && section.value in old(config) && key.value in old(config)[section.value] ==>
                reply == Reply(400, Failed(ParameterExists)) && config == old(config)
      ensures FieldsPresent(section, key, value) && !(section.value in old(config) && key.value in old(config)[section.value]) ==>
                && config == Upsert(old(config), section.value, key.value, PyStr(value))
                && reply == if writeOk then Reply(200, Done) else Reply(400, Failed(WriteFailed))
      ensures games == old(games)
    {
      if !FieldsPresent(section, key, value) {
        return Reply(400, Failed(MissingFields));
      }
      var outcome := AddGamepadParameter(section.value, key.value, value, writeOk);
      reply := Reply(StatusFor(outcome), outcome);
    }

    /** `PUT /api/controller/config/parameter`. */
    method ModifyRoute(section: Option<string>, key: Option<string>, value: Value, writeOk: bool) returns (reply: Reply)
      modifies this
      ensures !FieldsPresent(section, key, value) ==> reply == Reply(400, Failed(MissingFields)) && config == old(config)
      ensures reply.status == 200 <==> !reply.outcome.Failed?
      ensures reply.status == 200 ==>
                && FieldsPresent(section, key, value) && writeOk
                && section.value in old(config) && key.value in old(config)[section.value]
                && config == Upsert(old(config), section.value, key.value, PyStr(value))
      ensures FieldsPresent(section, key, value) && section.value !in old(config) ==>
                reply == Reply(400, Failed(SectionNotFound)) && config == old(config)
      ensures FieldsPresent(section, key, value) && section.value in old(config) && key.value !in old(config)[section.value] ==>
                reply == Reply(400, Failed(ParameterNotFound)) && config == old(config)
      ensures FieldsPresent(section, key, value) && section.value in old(config) && key.value in old(config)[section.value] ==>
                && config == Upsert(old(config), section.value, key.value, PyStr(value))
                && reply == if writeOk then Reply(200, Modified(old(config)[section.value][key.value], PyStr(value)))
                            else Reply(400, Failed(WriteFailed))
      ensures games == old(games)
    {
      if !FieldsPresent(section, key, value) {
        return Reply(400, Failed(MissingFields));
      }
      var outcome := ModifyGamepadParameter(section.value, key.value, value, writeOk);
      reply := Reply(StatusFor(outcome), outcome);
    }

    /** `DELETE /api/controller/config/parameter`: needs only the section and the key. */
    method DeleteRoute(section: Option<string>, key: Option<string>, writeOk: bool) returns (reply: Reply)
      modifies this
      ensures !FieldsPresent(section, key, Bool(true)) ==> reply == Reply(400, Failed(MissingFields)) && config == old(config)
      ensures reply.status == 200 <==> !reply.outcome.Failed?
      ensures reply.status == 200 ==>
                && FieldsPresent(section, key, Bool(true)) && writeOk
                && section.value in old(config) && key.value in old(config)[section.value]
                && config == RemoveOption(old(config), section.value, key.value)
      ensures FieldsPresent(section, key, Bool(true)) && section.value !in old(config) ==>
                reply == Reply(400, Failed(SectionNotFound)) && config == old(config)
      ensures FieldsPresent(section, key, Bool(true)) && section.value in old(config) && key.value !in old(config)[section.value] ==>
                reply == Reply(400, Failed(ParameterNotFound)) && config == old(config)
      ensures FieldsPresent(section, key, Bool(true)) && section.value in old(config) && key.value in old(config)[section.value] ==>
                && config == RemoveOption(old(config), section.value, key.value)
                && reply == if writeOk then Reply(200, Deleted(old(config)[section.value][key.value]))
                            else Reply(400, Failed(WriteFailed))
      ensures games == old(games)
    {
      if !FieldsPresent(section, key, Bool(true)) {
        return Reply(400, Failed(MissingFields));
      }
      var outcome := DeleteGamepadParameter(section.value, key.value, writeOk);
      reply := Reply(StatusFor(outcome), outcome);
    }

    /** `POST /api/controller/settings`. */
    method UpdateSettingRoute(section: Option<string>, key: Option<string>, value: Value, writeOk: bool) returns (reply: Reply)
      modifies this
      ensures !FieldsPresent(section, key, value) ==> reply == Reply(400, Failed(MissingFields)) && config == old(config)
      ensures FieldsPresent(section, key, value) ==>
                config == Upsert(old(config), section.value, key.value, PyStr(value))
                && reply.status == (if writeOk then 200 else 400)
      ensures games == old(games)
    {
      if !FieldsPresent(section, key, value) {
        return Reply(400, Failed(MissingFields));
      }
      var outcome := UpdateGamepadSetting(section.value, key.value, value, writeOk);
      reply := Reply(StatusFor(outcome), outcome);
    }
  }
}
