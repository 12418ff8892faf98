/**
 * frontend/src/modules/controller-manager.js: the per-lobby controller
 * table the front end keeps, the global movement and anti-AFK flags, and
 * the broadcast toggles that update both from the server's answers.
 */
module Controllers {
  import opened Common

  /** One entry of `controllerStatus.controllers`. */
  datatype Controller = Controller(
    connected: bool, movementEnabled: bool, antiAfkEnabled: bool, controllerId: Option<int>)

  /** An object spread over an entry: the fields it carries replace the entry's. */
  datatype Patch = Patch(
    connected: Option<bool>, movementEnabled: Option<bool>, antiAfkEnabled: Option<bool>,
    controllerId: Option<int>)

  /** `{ ...c, ...p }`. */
  function Merge(c: Controller, p: Patch): (r: Controller)
    ensures r.connected == if p.connected.Some? then p.connected.value else c.connected
    ensures r.movementEnabled == if p.movementEnabled.Some? then p.movementEnabled.value else c.movementEnabled
    ensures r.antiAfkEnabled == if p.antiAfkEnabled.Some? then p.antiAfkEnabled.value else c.antiAfkEnabled
    ensures r.controllerId == if p.controllerId.Some? then p.controllerId else c.controllerId
  {
    Controller(
      if p.connected.Some? then p.connected.value else c.connected,
      if p.movementEnabled.Some? then p.movementEnabled.value else c.movementEnabled,
      if p.antiAfkEnabled.Some? then p.antiAfkEnabled.value else c.antiAfkEnabled,
      if p.controllerId.Some? then p.controllerId else c.controllerId)
  }

  /** Spreading the same object twice changes nothing the second time. */
  lemma MergeIdempotent(c: Controller, p: Patch)
    ensures Merge(Merge(c, p), p) == Merge(c, p)
  {
  }

  /** What `addController` starts from before spreading the caller's data. */
  const FreshController := Controller(true, false, false, None)

  /** The answer of one API call: its `success` flag, or a thrown error. */
  datatype Response = Answered(success: bool) | Threw

  /** Which global flag a toggle flips. */
  datatype Flag = Movement | AntiAfk

  function SetFlag(c: Controller, flag: Flag, state: bool): (r: Controller)
    ensures flag == Movement ==> r == c.(movementEnabled := state)
    ensures flag == AntiAfk ==> r == c.(antiAfkEnabled := state)
  {
    match flag
    case Movement => c.(movementEnabled := state)
    case AntiAfk => c.(antiAfkEnabled := state)
  }

  /**
   * `getConnectedControllers`: the ids, in key order, whose entry is
   * connected.
   */
  function ConnectedIds(order: seq<string>, controllers: map<string, Controller>): (ids: seq<string>)
    ensures |ids| <= |order|
    ensures forall l :: l in ids <==> l in order && l in controllers && controllers[l].connected
  {
    if |order| == 0 then []
    else
      var rest := ConnectedIds(order[1..], controllers);
      if order[0] in controllers && controllers[order[0]].connected then [order[0]] + rest else rest
  }

  /** The ids whose call answered `success: true`. */
  function Succeeded(ids: seq<string>, respond: string -> Response): (s: seq<string>)
    ensures |s| <= |ids|
    ensures forall l :: l in s <==> l in ids && respond(l) == Answered(true)
  {
    if |ids| == 0 then []
    else
      var rest := Succeeded(ids[1..], respond);
      if respond(ids[0]) == Answered(true) then [ids[0]] + rest else rest
  }

  /** Some call threw: `Promise.all` rejects. */
  predicate AnyThrew(ids: seq<string>, respond: string -> Response) {
    exists i :: 0 <= i < |ids| && respond(ids[i]) == Threw
  }

  /** The object a broadcast returns, or the error it throws. */
  datatype Outcome =
    | NoController                     // nothing connected: thrown before any call
    | CallFailed                       // a call rejected: `Promise.all` rejects, nothing is updated
    | Report(state: bool, successCount: nat, totalCount: nat)

  /** Distinct entries, as the keys of an object are. */
  predicate NoDuplicates(s: seq<string>) {
    forall i, j :: 0 <= i < j < |s| ==> s[i] != s[j]
  }

  /** `s` without `x`. */
  function Drop(s: seq<string>, x: string): (r: seq<string>)
    ensures forall l :: l in r <==> l in s && l != x
  {
    if |s| == 0 then []
    else if s[0] == x then Drop(s[1..], x)
    else [s[0]] + Drop(s[1..], x)
  }

  /** Dropping an entry keeps the rest distinct. */
  lemma {:induction false} DropKeepsDistinct(s: seq<string>, x: string)
    requires NoDuplicates(s)
    ensures NoDuplicates(Drop(s, x))
    decreases |s|
  {
    if |s| > 0 {
      assert NoDuplicates(s[1..]);
      DropKeepsDistinct(s[1..], x);
      var rest := Drop(s[1..], x);
      if s[0] != x {
        assert s[0] !in s[1..];
        assert forall j :: 0 <= j < |rest| ==> rest[j] in rest && rest[j] != s[0];
      }
    }
  }

  /**
   * The table after a broadcast: every entry among `ids` whose call
   * answered `success: true` takes `state` for `flag`; the rest keep theirs.
   */
  function Toggled(cs: map<string, Controller>, ids: seq<string>, respond: string -> Response,
                   flag: Flag, state: bool): (m: map<string, Controller>)
    ensures m.Keys == cs.Keys
    ensures forall l :: l in m ==> m[l] == if l in ids && respond(l) == Answered(true)
                                            then SetFlag(cs[l], flag, state) else cs[l]
  {
    map l | l in cs :: if l in ids && respond(l) == Answered(true) then SetFlag(cs[l], flag, state) else cs[l]
  }

  /** `Toggled` grows by one answer at a time. */
  lemma ToggledSnoc(cs: map<string, Controller>, ids: seq<string>, l: string, respond: string -> Response,
                    flag: Flag, state: bool)
    requires l in cs
    ensures var before := Toggled(cs, ids, respond, flag, state);
            Toggled(cs, ids + [l], respond, flag, state) ==
              if respond(l) == Answered(true) then before[l := SetFlag(before[l], flag, state)] else before
  {
    var before := Toggled(cs, ids, respond, flag, state);
    var after := Toggled(cs, ids + [l], respond, flag, state);
    var expected := if respond(l) == Answered(true) then before[l := SetFlag(before[l], flag, state)] else before;
    assert forall k :: k in ids + [l] <==> k in ids || k == l;
    assert after.Keys == expected.Keys;
    forall k | k in after
      ensures after[k] == expected[k]
    {
    }
  }

  /** One more answer of the `forEach`: both the table and the successes grow by that answer. */
  lemma AnswerStep(cs: map<string, Controller>, ids: seq<string>, i: nat, respond: string -> Response,
                   flag: Flag, state: bool)
    requires i < |ids| && ids[i] in cs
    ensures var before := Toggled(cs, ids[..i], respond, flag, state);
            Toggled(cs, ids[..i + 1], respond, flag, state) ==
              if respond(ids[i]) == Answered(true) then before[ids[i] := SetFlag(before[ids[i]], flag, state)] else before
    ensures |Succeeded(ids[..i + 1], respond)| ==
              |Succeeded(ids[..i], respond)| + if respond(ids[i]) == Answered(true) then 1 else 0
  {
    assert ids[..i + 1] == ids[..i] + [ids[i]];
    ToggledSnoc(cs, ids[..i], ids[i], respond, flag, state);
    SucceededSnoc(ids[..i], ids[i], respond);
  }

  /**
   * `controllerStatus`. The object's keys are kept as `order` (insertion
   * order, which `Object.keys` follows for these ids) beside the entries.
   */
  class ControllerManager {
    var order: seq<string>
    var controllers: map<string, Controller>
    var globalMovementEnabled: bool
    var globalAntiAfkEnabled: bool

    ghost predicate Valid()
      reads this
    {
      NoDuplicates(order) && (forall l :: l in order <==> l in controllers)
    }

    function Connected(): (ids: seq<string>)
      reads this
      ensures forall l :: l in ids <==> l in order && l in controllers && controllers[l].connected
    {
      ConnectedIds(order, controllers)
    }

    constructor ()
      ensures Valid() && order == [] && controllers == map[]
      ensures !globalMovementEnabled && !globalAntiAfkEnabled
    {
      order := [];
      controllers := map[];
      globalMovementEnabled := false;
      globalAntiAfkEnabled := false;
    }

    /**
     * `addController(lobbyId, data)`: a connected entry with both flags off,
     * overridden by whatever `data` carries; an existing key keeps its place.
     */
    method AddController(lobbyId: string, data: Patch)
      requires Valid()
      modifies this
      ensures Valid()
      ensures controllers == old(controllers)[lobbyId := Merge(FreshController, data)]
      ensures order == if lobbyId in old(order) then old(order) else old(order) + [lobbyId]
      ensures lobbyId in Connected() <==> data.connected != Some(false)
      ensures globalMovementEnabled == old(globalMovementEnabled) && globalAntiAfkEnabled == old(globalAntiAfkEnabled)
    {
      controllers := controllers[lobbyId := Merge(FreshController, data)];
      if lobbyId !in order {
        order := order + [lobbyId];
      }
    }

    /** `removeController(lobbyId)`: `delete` of the key. */
    method RemoveController(lobbyId: string)
      requires Valid()
      modifies this
      ensures Valid()
      ensures controllers == old(controllers) - {lobbyId}
      ensures order == Drop(old(order), lobbyId)
      ensures lobbyId !in Connected()
      ensures globalMovementEnabled == old(globalMovementEnabled) && globalAntiAfkEnabled == old(globalAntiAfkEnabled)
    {
      controllers := controllers - {lobbyId};
      DropKeepsDistinct(order, lobbyId);
      order := Drop(order, lobbyId);
    }

    /**
     * `updateControllerStatus`: `fetched` is the server's `controllers`
     * object (None when the request threw, in which case nothing changes).
     * Fetched entries are spread only over lobbies already present; no entry
     * is added.
     */
    method UpdateControllerStatus(fetched: Option<map<string, Patch>>)
      requires Valid()
      modifies this
      ensures Valid()
      ensures order == old(order) && controllers.Keys == old(controllers).Keys
      ensures forall l :: l in controllers ==>
                controllers[l] == if fetched.Some? && l in fetched.value then Merge(old(controllers)[l], fetched.value[l])
                                  else old(controllers)[l]
      ensures globalMovementEnabled == old(globalMovementEnabled) && globalAntiAfkEnabled == old(globalAntiAfkEnabled)
    {
      if fetched.None? {
        return;
      }
      var incoming := fetched.value;
      var keys := incoming.Keys;
      while keys != {}
        invariant keys <= incoming.Keys
        invariant order == old(order) && controllers.Keys == old(controllers).Keys
        invariant forall l :: l in controllers ==>
                    controllers[l] == if l in incoming && l !in keys then Merge(old(controllers)[l], incoming[l])
                                      else old(controllers)[l]
        invariant globalMovementEnabled == old(globalMovementEnabled) && globalAntiAfkEnabled == old(globalAntiAfkEnabled)
        decreases keys
      {
        var l :| l in keys;
        if l in controllers {
          controllers := controllers[l := Merge(controllers[l], incoming[l])];
        }
        keys := keys - {l};
      }
    }

    /**
     * The broadcast behind `toggleMovement` and `toggleAntiAfk`: sends the
     * negation of the global flag to every connected controller. When all
     * calls answer, each controller that answered `success: true` takes
     * the new state, and the global flag takes it when at least one did.
     */
    method Toggle(flag: Flag, respond: string -> Response) returns (outcome: Outcome)
      requires Valid()
      modifies this
      ensures Valid()
      ensures order == old(order) && controllers.Keys == old(controllers).Keys
      ensures |old(Connected())| == 0 ==> outcome == NoController
      ensures |old(Connected())| > 0 && AnyThrew(old(Connected()), respond) ==> outcome == CallFailed
      ensures outcome.Report? <==> |old(Connected())| > 0 && !AnyThrew(old(Connected()), respond)
      ensures !outcome.Report? ==>
                && controllers == old(controllers)
                && globalMovementEnabled == old(globalMovementEnabled) && globalAntiAfkEnabled == old(globalAntiAfkEnabled)
      ensures outcome.Report? ==>
                var state := if flag == Movement then !old(globalMovementEnabled) else !old(globalAntiAfkEnabled);
                && outcome.state == state
                && outcome.totalCount == |old(Connected())|
                && outcome.successCount == |Succeeded(old(Connected()), respond)|
                && outcome.successCount <= outcome.totalCount
                && controllers == Toggled(old(controllers), old(Connected()), respond, flag, state)
                && globalMovementEnabled == (if flag == Movement && outcome.successCount > 0 then state else old(globalMovementEnabled))
                && globalAntiAfkEnabled == (if flag == AntiAfk && outcome.successCount > 0 then state else old(globalAntiAfkEnabled))
    {
      var connected := Connected();
      if |connected| == 0 {
        return NoController;
      }
      var state := if flag == Movement then !globalMovementEnabled else !globalAntiAfkEnabled;
      var answered := AllAnswered(connected, respond);
      if !answered {
        return CallFailed;
      }
      var successCount := ApplyAnswers(connected, flag, state, respond);
      assert connected == old(Connected());
      if successCount > 0 {
        if flag == Movement {
          globalMovementEnabled := state;
        } else {
          globalAntiAfkEnabled := state;
        }
      }
      outcome := Report(state, successCount, |connected|);
    }

    /**
     * The `forEach` over the answers: each controller that answered
     * `success: true` takes `state` for `flag`; returns how many did.
     */
    method ApplyAnswers(ids: seq<string>, flag: Flag, state: bool, respond: string -> Response) returns (successCount: nat)
      requires forall l :: l in ids ==> l in controllers
      modifies this
      ensures controllers == Toggled(old(controllers), ids, respond, flag, state)
      ensures successCount == |Succeeded(ids, respond)|
      ensures order == old(order)
      ensures globalMovementEnabled == old(globalMovementEnabled) && globalAntiAfkEnabled == old(globalAntiAfkEnabled)
    {
      var cs := controllers;
      successCount := 0;
      var i := 0;
      while i < |ids|
        invariant 0 <= i <= |ids|
        invariant successCount == |Succeeded(ids[..i], respond)|
        invariant cs == Toggled(controllers, ids[..i], respond, flag, state)
        modifies {}
      {
        var l := ids[i];
        AnswerStep(controllers, ids, i, respond, flag, state);
        if respond(l) == Answered(true) {
          cs := cs[l := SetFlag(cs[l], flag, state)];
          successCount := successCount + 1;
        }
        i := i + 1;
      }
      assert ids[..i] == ids;
      controllers := cs;
    }

    /** `toggleMovement`. */
    method ToggleMovement(respond: string -> Response) returns (outcome: Outcome)
      requires Valid()
      modifies this
      ensures Valid()
      ensures outcome.Report? <==> |old(Connected())| > 0 && !AnyThrew(old(Connected()), respond)
      ensures !outcome.Report? ==> controllers == old(controllers) && globalMovementEnabled == old(globalMovementEnabled)
      ensures outcome.Report? ==>
                && outcome.state == !old(globalMovementEnabled)
                && outcome.successCount == |Succeeded(old(Connected()), respond)|
                && controllers == Toggled(old(controllers), old(Connected()), respond, Movement, !old(globalMovementEnabled))
                && globalMovementEnabled == (if outcome.successCount > 0 then !old(globalMovementEnabled) else old(globalMovementEnabled))
      ensures globalAntiAfkEnabled == old(globalAntiAfkEnabled)
      ensures forall l :: l in controllers && l in old(controllers) ==> controllers[l].antiAfkEnabled == old(controllers)[l].antiAfkEnabled
      ensures controllers.Keys == old(controllers).Keys && order == old(order)
    {
      outcome := Toggle(Movement, respond);
    }

    /** `toggleAntiAfk`. */
    method ToggleAntiAfk(respond: string -> Response) returns (outcome: Outcome)
      requires Valid()
      modifies this
      ensures Valid()
      ensures outcome.Report? <==> |old(Connected())| > 0 && !AnyThrew(old(Connected()), respond)
      ensures !outcome.Report? ==> controllers == old(controllers) && globalAntiAfkEnabled == old(globalAntiAfkEnabled)
      ensures outcome.Report? ==>
                && outcome.state == !old(globalAntiAfkEnabled)
                && outcome.successCount == |Succeeded(old(Connected()), respond)|
                && controllers == Toggled(old(controllers), old(Connected()), respond, AntiAfk, !old(globalAntiAfkEnabled))
                && globalAntiAfkEnabled == (if outcome.successCount > 0 then !old(globalAntiAfkEnabled) else old(globalAntiAfkEnabled))
      ensures globalMovementEnabled == old(globalMovementEnabled)
      ensures forall l :: l in controllers && l in old(controllers) ==> controllers[l].movementEnabled == old(controllers)[l].movementEnabled
      ensures controllers.Keys == old(controllers).Keys && order == old(order)
    {
      outcome := Toggle(AntiAfk, respond);
    }

    /**
     * `selectClass`: the same broadcast without any state; reports how many
     * controllers answered `success: true`.
     */
    method SelectClass(respond: string -> Response) returns (outcome: Outcome)
      ensures |Connected()| == 0 ==> outcome == NoController
      ensures outcome.Report? <==> |Connected()| > 0 && !AnyThrew(Connected(), respond)
      ensures outcome.Report? ==>
                outcome.totalCount == |Connected()| && outcome.successCount == |Succeeded(Connected(), respond)|
                && outcome.successCount <= outcome.totalCount
    {
      var connected := Connected();
      if |connected| == 0 {
        return NoController;
      }
      var answered := AllAnswered(connected, respond);
      if !answered {
        return CallFailed;
      }
      var successCount := CountSucceeded(connected, respond);
      outcome := Report(false, successCount, |connected|);
    }
  }

  /** `Promise.all` over the calls: true when every call answered. */
  method AllAnswered(ids: seq<string>, respond: string -> Response) returns (ok: bool)
    ensures ok <==> !AnyThrew(ids, respond)
  {
    var i := 0;
    while i < |ids|
      invariant 0 <= i <= |ids|
      invariant forall j :: 0 <= j < i ==> respond(ids[j]) != Threw
    {
      if respond(ids[i]) == Threw {
        return false;
      }
      i := i + 1;
    }
    return true;
  }

  /** The counting `forEach` of `selectClass`. */
  method CountSucceeded(ids: seq<string>, respond: string -> Response) returns (successCount: nat)
    ensures successCount == |Succeeded(ids, respond)|
    ensures successCount <= |ids|
  {
    successCount := 0;
    var i := 0;
    while i < |ids|
      invariant 0 <= i <= |ids|
      invariant successCount == |Succeeded(ids[..i], respond)|
    {
      SucceededSnoc(ids[..i], ids[i], respond);
      assert ids[..i + 1] == ids[..i] + [ids[i]];
      if respond(ids[i]) == Answered(true) {
        successCount := successCount + 1;
      }
      i := i + 1;
    }
    assert ids[..i] == ids;
  }

  /** `Succeeded` grows by one element at a time. */
  lemma {:induction false} SucceededSnoc(ids: seq<string>, l: string, respond: string -> Response)
    ensures Succeeded(ids + [l], respond) ==
              Succeeded(ids, respond) + (if respond(l) == Answered(true) then [l] else [])
    decreases |ids|
  {
    if |ids| == 0 {
      assert ids + [l] == [l];
    } else {
      assert (ids + [l])[1..] == ids[1..] + [l];
      SucceededSnoc(ids[1..], l, respond);
    }
  }
}
