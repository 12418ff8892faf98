/**
 * frontend/src/modules/lobby-manager.js: the list of open lobbies, its
 * ceiling of 20 and id scheme, the per-lobby simulation timers, the random
 * input the simulation sends, and the resolution-spoof fallback rule.
 */
module Lobbies {
  import opened Common
  import opened Sessions
  import opened Gamepad

  /** `this.maxLobbies`. */
  const MaxLobbies: nat := 20

  /** The ids the open loop assigns when the list holds `start` entries and `n` are added. */
  function NewIds(start: nat, n: nat): (ids: seq<string>)
    ensures |ids| == n
    ensures forall i :: 0 <= i < n ==> ids[i] == LobbyId(start + i + 1)
  {
    seq(n, i requires 0 <= i < n => LobbyId(start + i + 1))
  }

  /** `Array.prototype.indexOf`: the first position of `x`. */
  function IndexOf(s: seq<string>, x: string): (r: Option<nat>)
    ensures r.None? <==> x !in s
    ensures r.Some? ==> r.value < |s| && s[r.value] == x && x !in s[..r.value]
  {
    if |s| == 0 then None
    else if s[0] == x then Some(0)
    else match IndexOf(s[1..], x)
      case None => None
      case Some(i) => assert s[..i + 1] == [s[0]] + s[1..][..i]; Some(i + 1)
  }

  /** `indexOf` then `splice(index, 1)`: drops the first occurrence, if any. */
  function RemoveFirst(s: seq<string>, x: string): (r: seq<string>)
    ensures x !in s ==> r == s
    ensures x in s ==> |r| == |s| - 1 && r == s[..IndexOf(s, x).value] + s[IndexOf(s, x).value + 1..]
    ensures multiset(r) == multiset(s) - multiset{x}
  {
    match IndexOf(s, x)
    case None => s
    case Some(i) =>
      assert s == s[..i] + [x] + s[i + 1..];
      s[..i] + s[i + 1..]
  }

  /** One more lobby appends the next id. */
  lemma NewIdsSnoc(start: nat, n: nat)
    ensures NewIds(start, n + 1) == NewIds(start, n) + [LobbyId(start + n + 1)]
  {
  }

  /** The ids a list holds. */
  function Members(s: seq<string>): (m: set<string>)
    ensures forall l :: l in m <==> l in s
  {
    set l | l in s
  }

  /** Removing the keys of `done` and then `x` removes the keys of `done + {x}`. */
  lemma RemoveStep<V>(m: map<string, V>, done: set<string>, x: string)
    ensures m - done - {x} == m - (done + {x})
  {
  }

  /** Appending an id adds it to the members. */
  lemma MembersSnoc(s: seq<string>, x: string)
    ensures Members(s + [x]) == Members(s) + {x}
  {
  }

  /** Closing the first listed lobby drops the head of the list. */
  lemma RemoveHead(s: seq<string>)
    requires |s| > 0
    ensures RemoveFirst(s, s[0]) == s[1..]
  {
    assert IndexOf(s, s[0]) == Some(0);
  }

  /** No id appears twice. */
  predicate Distinct(s: seq<string>) {
    forall i, j :: 0 <= i < j < |s| ==> s[i] != s[j]
  }

  /** Two successive openings on an untouched list give the ids of one opening. */
  lemma NewIdsAppend(m: nat, n: nat)
    ensures NewIds(0, m) + NewIds(m, n) == NewIds(0, m + n)
  {
    assert forall i :: 0 <= i < m + n ==> (NewIds(0, m) + NewIds(m, n))[i] == LobbyId(i + 1);
  }

  /** While nothing has been closed the ids are all different. */
  lemma NewIdsDistinct(start: nat, n: nat)
    ensures Distinct(NewIds(start, n))
  {
    var ids := NewIds(start, n);
    forall i, j | 0 <= i < j < n
      ensures ids[i] != ids[j]
    {
      if ids[i] == ids[j] {
        LobbyIdInjective(start + i + 1, start + j + 1);
      }
    }
  }

  /**
   * After a close the scheme repeats ids: of `n` lobbies close `lobby1`,
   * open one more, and `lobby<n>` is listed twice.
   */
  lemma IdsRepeatAfterClose(n: nat)
    requires n >= 2
    ensures var after := RemoveFirst(NewIds(0, n), LobbyId(1)) + NewIds(n - 1, 1);
            |after| == n && after[n - 2] == LobbyId(n) && after[n - 1] == LobbyId(n) && !Distinct(after)
  {
    var ids := NewIds(0, n);
    assert ids[0] == LobbyId(1);
    RemoveHead(ids);
    var rest := ids[1..];
    assert rest[n - 2] == ids[n - 1] == LobbyId(n);
    var added := NewIds(n - 1, 1);
    assert added[0] == LobbyId(n);
    var after := rest + added;
    assert after[n - 2] == rest[n - 2] && after[n - 1] == added[0];
  }

  /** Why `openLobbies` refused. */
  datatype OpenError = InvalidCount | OverCapacity

  datatype OpenOutcome = Opened(count: nat) | Refused(error: OpenError)

  /** The admission rule of `openLobbies` for a list currently holding `current` lobbies. */
  function Admit(current: nat, requestedCount: int): (r: OpenOutcome)
    ensures r.Opened? <==> 1 <= requestedCount && current + requestedCount <= MaxLobbies
    ensures r.Opened? ==> r.count == requestedCount
    ensures r == Refused(InvalidCount) <==> requestedCount < 1 || requestedCount > MaxLobbies
  {
    if requestedCount < 1 || requestedCount > MaxLobbies then Refused(InvalidCount)
    else if current + requestedCount > MaxLobbies then Refused(OverCapacity)
    else Opened(requestedCount)
  }

  /** The random input one simulation tick sends, from three samples of `Math.random()` in [0, 1). */
  function SimulationAction(action: real, first: real, second: real): (r: Option<Input>)
    requires 0.0 <= action < 1.0 && 0.0 <= first < 1.0 && 0.0 <= second < 1.0
    ensures r.None? <==> action >= 0.6
    ensures action < 0.3 ==>
              && r.Some? && r.value.StickMovement? && r.value.rightStick.None? && r.value.leftStick.Some?
              && -1.0 <= r.value.leftStick.value.x < 1.0 && -1.0 <= r.value.leftStick.value.y < 1.0
    ensures 0.3 <= action < 0.6 ==>
              && r.Some? && r.value.ButtonPress? && r.value.buttonIndex < 4
              && r.value.duration.Some? && 100.0 <= r.value.duration.value < 300.0
  {
    if action < 0.3 then
      Some(StickMovement(Some(Stick((first - 0.5) * 2.0, (second - 0.5) * 2.0)), None))
    else if action < 0.6 then
      var index := (first * 4.0).Floor;
      assert 0 <= index < 4;
      Some(ButtonPress(index, Some(100.0 + second * 200.0)))
    else None
  }

  /** The interval of the simulation timer, drawn once when it starts. */
  function SimulationPeriod(sample: real): (ms: real)
    requires 0.0 <= sample < 1.0
    ensures 2000.0 <= ms < 5000.0
  {
    2000.0 + sample * 3000.0
  }

  /**
   * A simulated button press lands on one of the four face buttons: it
   * leaves exactly that button pressed on the pad, and its release leaves
   * all buttons released.
   */
  lemma SimulatedPressIsFaceButton(cur: seq<Button>, action: real, first: real, second: real)
    requires 0.0 <= action < 1.0 && 0.0 <= first < 1.0 && 0.0 <= second < 1.0
    requires 0.3 <= action < 0.6 && |cur| == ButtonCount
    ensures var input := SimulationAction(action, first, second).value;
            var script := ButtonPressScript(input.buttonIndex, input.duration);
            var pressed := MergeButtons(cur, script.press.buttons.value);
            && input.buttonIndex < 4
            && (forall i :: 0 <= i < ButtonCount ==> (pressed[i].pressed <==> i == input.buttonIndex))
            && script.releaseDelay == input.duration.value
  {
    var input := SimulationAction(action, first, second).value;
    assert input.ButtonPress? && 100.0 <= input.duration.value;
    PressThenRelease(cur, input.buttonIndex, input.duration);
    var script := ButtonPressScript(input.buttonIndex, input.duration);
    assert script.releaseDelay == input.duration.value;
    var pressed := MergeButtons(cur, script.press.buttons.value);
    assert forall i :: 0 <= i < ButtonCount ==> pressed[i].pressed == (i == input.buttonIndex);
  }

  // ---------------------------------------------------------------------------
  // The resolution spoof
  // ---------------------------------------------------------------------------

  datatype AttachedProbe = AlreadyAttached | NotAttached | IsAttachedThrows
  datatype AttachOutcome = AttachOk | AttachThrows
  /** `sendCommand` succeeds, throws synchronously, or returns a promise that rejects. */
  datatype SendOutcome = Applied | SendThrows | SendRejects

  /** How the webview's debugger behaves, if it has one. */
  datatype DebuggerProbe =
    | NoDebugger
    | Debugger(isAttached: AttachedProbe, attach: AttachOutcome, send: SendOutcome)

  /** The path `setupResolutionSpoofing` takes: what it called and how often the CSS fallback ran. */
  datatype SpoofRun = SpoofRun(attachCalled: bool, commandSent: bool, fallbackCalls: nat)

  /** The page ends with 464x264 metrics: the command took effect or the fallback ran. */
  predicate Spoofed(p: DebuggerProbe, r: SpoofRun) {
    (r.commandSent && p.Debugger? && p.send == Applied) || r.fallbackCalls > 0
  }

  /** A step the override needs went wrong, however it was reported. */
  predicate SpoofStepFails(p: DebuggerProbe) {
    || p.NoDebugger?
    || p.isAttached == IsAttachedThrows
    || (p.isAttached == NotAttached && p.attach == AttachThrows)
    || p.send != Applied
  }

  /**
   * The decision as written: each synchronous failure calls the fallback
   * and returns. `sendCommand` is not awaited, so its rejection is never
   * caught and the fallback does not run.
   */
  function SpoofAsWritten(p: DebuggerProbe): (r: SpoofRun)
    ensures r.fallbackCalls <= 1
    ensures r.fallbackCalls == 1 <==> SpoofStepFails(p) && !(p.Debugger? && p.send == SendRejects
                                         && p.isAttached != IsAttachedThrows
                                         && !(p.isAttached == NotAttached && p.attach == AttachThrows))
    ensures r.attachCalled <==> p.Debugger? && p.isAttached == NotAttached
    ensures p.Debugger? && p.send == Applied && r.commandSent ==> r.fallbackCalls == 0
  {
    match p
    case NoDebugger => SpoofRun(false, false, 1)
    case Debugger(isAttached, attach, send) =>
      if isAttached == IsAttachedThrows then SpoofRun(false, false, 1)
      else if isAttached == NotAttached && attach == AttachThrows then SpoofRun(true, false, 1)
      else SpoofRun(isAttached == NotAttached, true, if send == SendThrows then 1 else 0)
  }

  /** A debugger that is attached but whose command promise rejects leaves the page unspoofed. */
  lemma RejectedCommandNotSpoofed()
    ensures var p := Debugger(AlreadyAttached, AttachOk, SendRejects);
            SpoofStepFails(p) && !Spoofed(p, SpoofAsWritten(p))
  {
  }

  /**
   * The decision with the command's promise awaited inside the `try`: the
   * fallback runs exactly once when any step fails, never when the
   * override took effect.
   */
  function SpoofAwaited(p: DebuggerProbe): (r: SpoofRun)
    ensures r.fallbackCalls <= 1
    ensures r.fallbackCalls == 1 <==> SpoofStepFails(p)
    ensures r.attachCalled <==> p.Debugger? && p.isAttached == NotAttached
    ensures Spoofed(p, r)
  {
    match p
    case NoDebugger => SpoofRun(false, false, 1)
    case Debugger(isAttached, attach, send) =>
      if isAttached == IsAttachedThrows then SpoofRun(false, false, 1)
      else if isAttached == NotAttached && attach == AttachThrows then SpoofRun(true, false, 1)
      else SpoofRun(isAttached == NotAttached, true, if send == Applied then 0 else 1)
  }

  /** The two agree wherever the command's failure, if any, is reported synchronously. */
  lemma SpoofAgreesWithoutRejection(p: DebuggerProbe)
    requires p.Debugger? ==> p.send != SendRejects
    ensures SpoofAsWritten(p) == SpoofAwaited(p)
  {
  }

  /**
   * The ids of `ids` that `keep` selects, in order: the timers a loop over
   * `ids` schedules when it schedules one for each id that passes `keep`.
   */
  function Chosen(ids: seq<string>, keep: string -> bool): seq<string>
    decreases |ids|
  {
    if |ids| == 0 then []
    else
      var last := ids[|ids| - 1];
      Chosen(ids[..|ids| - 1], keep) + if keep(last) then [last] else []
  }

  /**
   * Every id `keep` selects occurs as often as in `ids`; no other id
   * occurs.
   */
  lemma {:induction false} ChosenCount(ids: seq<string>, keep: string -> bool)
    ensures forall l :: multiset(Chosen(ids, keep))[l] == if keep(l) then multiset(ids)[l] else 0
    ensures forall l :: l in Chosen(ids, keep) <==> l in ids && keep(l)
    decreases |ids|
  {
    if |ids| > 0 {
      var front := ids[..|ids| - 1];
      ChosenCount(front, keep);
      assert ids == front + [ids[|ids| - 1]];
    }
  }

  /** One more id adds itself to the selection exactly when `keep` selects it. */
  lemma ChosenSnoc(ids: seq<string>, x: string, keep: string -> bool)
    ensures Chosen(ids + [x], keep) == Chosen(ids, keep) + if keep(x) then [x] else []
  {
    assert (ids + [x])[..|ids|] == ids;
  }

  // ---------------------------------------------------------------------------
  // The manager
  // ---------------------------------------------------------------------------

  /**
   * The lobby manager. Besides the list and the simulation timers it keeps
   * the timers the source schedules with `setTimeout` and never cancels:
   * the 500 ms webview setup of each created lobby (`pendingSetups`), the
   * 2 s simulation start after each successful connect (`pendingStarts`)
   * and the 2 s session re-initialisation after each refresh
   * (`pendingReinits`). Each firing is a method call.
   */
  class LobbyManager {
    var lobbies: seq<string>
    var simulationIntervals: map<string, TimerHandle>
    var pendingSetups: seq<string>
    var pendingStarts: seq<string>
    var pendingReinits: seq<string>
    const sessionManager: SessionManager

    ghost predicate Valid()
      reads this
    {
      |lobbies| <= MaxLobbies
    }

    constructor ()
      ensures Valid() && lobbies == [] && simulationIntervals == map[] && fresh(sessionManager)
      ensures pendingSetups == [] && pendingStarts == [] && pendingReinits == []
      ensures sessionManager.sessions == map[] && sessionManager.sessionTimeouts == map[]
    {
      lobbies := [];
      simulationIntervals := map[];
      pendingSetups := [];
      pendingStarts := [];
      pendingReinits := [];
      sessionManager := new SessionManager();
    }

    /**
     * `openLobbies(requestedCount)`: refuses without any change when the
     * count is out of 1..20 or the total would pass 20; otherwise appends
     * `lobby<length + 1>` once per lobby, creates its instance (scheduling
     * its webview setup) and connects a controller for it
     * (`connectSucceeds` is the API's answer for that id), and returns the
     * count.
     */
    method OpenLobbies(requestedCount: int, connectSucceeds: string -> bool) returns (outcome: OpenOutcome)
      requires Valid()
      modifies this`lobbies, this`pendingSetups, this`pendingStarts
      ensures Valid()
      ensures outcome == Admit(|old(lobbies)|, requestedCount)
      ensures outcome.Refused? ==>
                lobbies == old(lobbies) && pendingSetups == old(pendingSetups) && pendingStarts == old(pendingStarts)
      ensures outcome.Opened? ==> lobbies == old(lobbies) + NewIds(|old(lobbies)|, requestedCount)
      ensures outcome.Opened? ==> pendingSetups == old(pendingSetups) + NewIds(|old(lobbies)|, requestedCount)
      ensures outcome.Opened? ==>
                pendingStarts == old(pendingStarts) + Chosen(NewIds(|old(lobbies)|, requestedCount), connectSucceeds)
    {
      outcome := Admit(|lobbies|, requestedCount);
      if outcome.Refused? {
        return;
      }
      var i := 0;
      ghost var added: seq<string> := [];
      ghost var connected: seq<string> := [];
      while i < requestedCount
        invariant 0 <= i <= requestedCount
        invariant added == NewIds(|old(lobbies)|, i) && connected == Chosen(added, connectSucceeds)
        invariant lobbies == old(lobbies) + added && pendingSetups == old(pendingSetups) + added
        invariant pendingStarts == old(pendingStarts) + connected
      {
        var lobbyId := LobbyId(|lobbies| + 1);
        NewIdsSnoc(|old(lobbies)|, i);
        ChosenSnoc(added, lobbyId, connectSucceeds);
        AddLobby(lobbyId, connectSucceeds(lobbyId));
        added := added + [lobbyId];
        if connectSucceeds(lobbyId) {
          connected := connected + [lobbyId];
        }
        i := i + 1;
      }
    }

    /**
     * One round of the `openLobbies` loop: pushes the id, creates its
     * instance and connects its controller, `connectSucceeds` being the
     * API's answer.
     */
    method AddLobby(lobbyId: string, connectSucceeds: bool)
      modifies this`lobbies, this`pendingSetups, this`pendingStarts
      ensures lobbies == old(lobbies) + [lobbyId] && pendingSetups == old(pendingSetups) + [lobbyId]
      ensures pendingStarts == old(pendingStarts) + if connectSucceeds then [lobbyId] else []
    {
      lobbies := lobbies + [lobbyId];
      CreateLobbyInstance(lobbyId);
      var connected := ConnectControllerForLobby(lobbyId, Some(connectSucceeds));
    }

    /**
     * `createLobbyInstance(lobbyId)`: besides building the lobby's DOM, it
     * schedules `setupLobbyWebview(lobbyId)` after 500 ms.
     */
    method CreateLobbyInstance(lobbyId: string)
      modifies this`pendingSetups
      ensures pendingSetups == old(pendingSetups) + [lobbyId]
    {
      pendingSetups := pendingSetups + [lobbyId];
    }

    /**
     * The 500 ms timer fires `setupLobbyWebview(lobbyId)`: without a webview
     * element it returns; otherwise it initialises the lobby's session with
     * monitor `handle`. It does not look at the list.
     */
    method SetupLobbyWebview(lobbyId: string, webviewPresent: bool, now: int, handle: TimerHandle)
      requires lobbyId in pendingSetups
      modifies this`pendingSetups, sessionManager
      ensures pendingSetups == RemoveFirst(old(pendingSetups), lobbyId)
      ensures webviewPresent ==>
                sessionManager.sessions == old(sessionManager.sessions)[lobbyId := NewSession(lobbyId, now)]
                && sessionManager.sessionTimeouts == old(sessionManager.sessionTimeouts)[lobbyId := handle]
      ensures !webviewPresent ==>
                sessionManager.sessions == old(sessionManager.sessions)
                && sessionManager.sessionTimeouts == old(sessionManager.sessionTimeouts)
      ensures sessionManager.autoPlayEnabled == old(sessionManager.autoPlayEnabled)
    {
      pendingSetups := RemoveFirst(pendingSetups, lobbyId);
      if webviewPresent {
        var session := sessionManager.InitializeWebviewSession(lobbyId, now, handle);
      }
    }

    /**
     * `startGamepadSimulation(lobbyId)`: records the new timer under the
     * lobby; a timer already recorded there is overwritten without being
     * cleared and is returned as `leaked`.
     */
    method StartGamepadSimulation(lobbyId: string, handle: TimerHandle) returns (leaked: Option<TimerHandle>)
      modifies this`simulationIntervals
      ensures simulationIntervals == old(simulationIntervals)[lobbyId := handle]
      ensures leaked == if lobbyId in old(simulationIntervals) then Some(old(simulationIntervals)[lobbyId]) else None
    {
      leaked := if lobbyId in simulationIntervals then Some(simulationIntervals[lobbyId]) else None;
      simulationIntervals := simulationIntervals[lobbyId := handle];
    }

    /**
     * `connectControllerForLobby`: `reply` is the API's `success` flag, None
     * when the call failed. On success the simulation start is scheduled
     * 2 s later; no timer is recorded yet.
     */
    method ConnectControllerForLobby(lobbyId: string, reply: Option<bool>) returns (connected: bool)
      modifies this`pendingStarts
      ensures connected <==> reply == Some(true)
      ensures pendingStarts == if connected then old(pendingStarts) + [lobbyId] else old(pendingStarts)
    {
      connected := reply == Some(true);
      if connected {
        pendingStarts := pendingStarts + [lobbyId];
      }
    }

    /**
     * The 2 s timer of a successful connect fires and starts the
     * simulation. Nothing checks that the lobby is still open, so a lobby
     * closed in between gets an interval that no close will clear.
     */
    method SimulationStartFires(lobbyId: string, handle: TimerHandle) returns (leaked: Option<TimerHandle>)
      requires lobbyId in pendingStarts
      modifies this`pendingStarts, this`simulationIntervals
      ensures pendingStarts == RemoveFirst(old(pendingStarts), lobbyId)
      ensures simulationIntervals == old(simulationIntervals)[lobbyId := handle]
      ensures leaked == if lobbyId in old(simulationIntervals) then Some(old(simulationIntervals)[lobbyId]) else None
    {
      pendingStarts := RemoveFirst(pendingStarts, lobbyId);
      leaked := StartGamepadSimulation(lobbyId, handle);
    }

    /**
     * `closeLobby(lobbyId)`: destroys the session, clears and forgets the
     * simulation timer, and drops the first occurrence from the list. The
     * timers still pending for the lobby are not cancelled.
     */
    method CloseLobby(lobbyId: string)
      requires Valid()
      modifies this`lobbies, this`simulationIntervals, sessionManager
      ensures Valid()
      ensures lobbies == RemoveFirst(old(lobbies), lobbyId)
      ensures simulationIntervals == old(simulationIntervals) - {lobbyId}
      ensures sessionManager.sessions == old(sessionManager.sessions) - {lobbyId}
      ensures sessionManager.sessionTimeouts == old(sessionManager.sessionTimeouts) - {lobbyId}
      ensures sessionManager.autoPlayEnabled == old(sessionManager.autoPlayEnabled)
    {
      var cleared := sessionManager.DestroySession(lobbyId);
      if lobbyId in simulationIntervals {
        simulationIntervals := simulationIntervals - {lobbyId};
      }
      lobbies := RemoveFirst(lobbies, lobbyId);
    }

    /** `closeAllLobbies`: closes each lobby of a copy of the list; returns how many there were. */
    method CloseAllLobbies() returns (count: nat)
      requires Valid()
      modifies this`lobbies, this`simulationIntervals, sessionManager
      ensures Valid()
      ensures count == |old(lobbies)| && lobbies == []
      ensures simulationIntervals == old(simulationIntervals) - Members(old(lobbies))
      ensures sessionManager.sessions == old(sessionManager.sessions) - Members(old(lobbies))
      ensures sessionManager.sessionTimeouts == old(sessionManager.sessionTimeouts) - Members(old(lobbies))
    {
      count := |lobbies|;
      var copy := lobbies;
      var i := 0;
      while i < |copy|
        invariant 0 <= i <= |copy|
        invariant Valid()
        invariant lobbies == copy[i..]
        invariant simulationIntervals == old(simulationIntervals) - Members(copy[..i])
        invariant sessionManager.sessions == old(sessionManager.sessions) - Members(copy[..i])
        invariant sessionManager.sessionTimeouts == old(sessionManager.sessionTimeouts) - Members(copy[..i])
      {
        RemoveHead(lobbies);
        assert copy[..i + 1] == copy[..i] + [copy[i]];
        MembersSnoc(copy[..i], copy[i]);
        CloseLobby(copy[i]);
        assert copy[i..][1..] == copy[i + 1..];
        i := i + 1;
      }
      assert copy[..|copy|] == copy;
    }

    /**
     * `refreshLobby(lobbyId)`: when its webview exists, the session is
     * destroyed and its re-initialisation scheduled 2 s later; the list is
     * never touched.
     */
    method RefreshLobby(lobbyId: string, webviewPresent: bool)
      modifies this`pendingReinits, sessionManager
      ensures webviewPresent ==>
                sessionManager.sessions == old(sessionManager.sessions) - {lobbyId}
                && sessionManager.sessionTimeouts == old(sessionManager.sessionTimeouts) - {lobbyId}
                && pendingReinits == old(pendingReinits) + [lobbyId]
      ensures !webviewPresent ==>
                sessionManager.sessions == old(sessionManager.sessions)
                && sessionManager.sessionTimeouts == old(sessionManager.sessionTimeouts)
                && pendingReinits == old(pendingReinits)
      ensures sessionManager.autoPlayEnabled == old(sessionManager.autoPlayEnabled)
    {
      if webviewPresent {
        var cleared := sessionManager.DestroySession(lobbyId);
        pendingReinits := pendingReinits + [lobbyId];
      }
    }

    /**
     * The 2 s timer of a refresh fires: the captured webview's session is
     * initialised again with monitor `handle`, whether or not the lobby
     * was closed in the meantime.
     */
    method SessionReinitFires(lobbyId: string, now: int, handle: TimerHandle)
      requires lobbyId in pendingReinits
      modifies this`pendingReinits, sessionManager
      ensures pendingReinits == RemoveFirst(old(pendingReinits), lobbyId)
      ensures sessionManager.sessions == old(sessionManager.sessions)[lobbyId := NewSession(lobbyId, now)]
      ensures sessionManager.sessionTimeouts == old(sessionManager.sessionTimeouts)[lobbyId := handle]
      ensures sessionManager.autoPlayEnabled == old(sessionManager.autoPlayEnabled)
    {
      pendingReinits := RemoveFirst(pendingReinits, lobbyId);
      var session := sessionManager.InitializeWebviewSession(lobbyId, now, handle);
    }

    /**
     * `refreshAllLobbies`: refreshes every listed lobby and returns the
     * list's length. Exactly the listed lobbies whose webview exists lose
     * their session and monitor and have a re-initialisation pending, in
     * list order.
     */
    method RefreshAllLobbies(webviewPresent: string -> bool) returns (count: nat)
      modifies this`pendingReinits, sessionManager
      ensures count == |lobbies|
      ensures pendingReinits == old(pendingReinits) + Chosen(lobbies, webviewPresent)
      ensures sessionManager.sessions == old(sessionManager.sessions) - Members(Chosen(lobbies, webviewPresent))
      ensures sessionManager.sessionTimeouts == old(sessionManager.sessionTimeouts) - Members(Chosen(lobbies, webviewPresent))
      ensures sessionManager.autoPlayEnabled == old(sessionManager.autoPlayEnabled)
    {
      var i := 0;
      ghost var scheduled: seq<string> := [];
      ghost var refreshed: set<string> := {};
      while i < |lobbies|
        invariant 0 <= i <= |lobbies|
        invariant scheduled == Chosen(lobbies[..i], webviewPresent) && refreshed == Members(scheduled)
        invariant pendingReinits == old(pendingReinits) + scheduled
        invariant sessionManager.sessions == old(sessionManager.sessions) - refreshed
        invariant sessionManager.sessionTimeouts == old(sessionManager.sessionTimeouts) - refreshed
        invariant sessionManager.autoPlayEnabled == old(sessionManager.autoPlayEnabled)
      {
        var lobbyId := lobbies[i];
        assert lobbies[..i + 1] == lobbies[..i] + [lobbyId];
        ChosenSnoc(lobbies[..i], lobbyId, webviewPresent);
        RefreshLobby(lobbyId, webviewPresent(lobbyId));
        if webviewPresent(lobbyId) {
          RemoveStep(old(sessionManager.sessions), refreshed, lobbyId);
          RemoveStep(old(sessionManager.sessionTimeouts), refreshed, lobbyId);
          MembersSnoc(scheduled, lobbyId);
          scheduled := scheduled + [lobbyId];
          refreshed := refreshed + {lobbyId};
        }
        i := i + 1;
      }
      assert lobbies[..i] == lobbies;
      count := |lobbies|;
    }
  }

  /**
   * A close within 2 s of a successful connect leaks the simulation: one
   * lobby is opened, closed, and then its pending start fires, leaving no
   * lobby listed but an interval recorded for the closed one.
   */
  method EarlyCloseLeaksSimulation(handle: TimerHandle) returns (m: LobbyManager)
    ensures m.lobbies == []
    ensures m.simulationIntervals == map[LobbyId(1) := handle]
  {
    var id := LobbyId(1);
    var connects: string -> bool := l => true;
    m := new LobbyManager();
    var outcome := m.OpenLobbies(1, connects);
    assert m.lobbies == [id] && m.pendingStarts == [id] by {
      assert Admit(0, 1) == Opened(1);
      assert NewIds(0, 1) == [] + [id];
      ChosenSnoc([], id, connects);
    }
    m.CloseLobby(id);
    assert m.lobbies == [] && m.simulationIntervals == map[] by {
      assert IndexOf([id], id) == Some(0);
    }
    var leaked := m.SimulationStartFires(id, handle);
  }

  /**
   * A close within 2 s of a refresh revives the session: one lobby is
   * opened and refreshed, then closed, and then the pending
   * re-initialisation fires, leaving no lobby listed but a session and a
   * running monitor for the closed one.
   */
  method CloseAfterRefreshRevivesSession(now: int, handle: TimerHandle) returns (m: LobbyManager)
    ensures m.lobbies == []
    ensures m.sessionManager.sessions == map[LobbyId(1) := NewSession(LobbyId(1), now)]
    ensures m.sessionManager.sessionTimeouts == map[LobbyId(1) := handle]
  {
    var id := LobbyId(1);
    m := new LobbyManager();
    var outcome := m.OpenLobbies(1, l => false);
    assert m.lobbies == [id] by {
      assert Admit(0, 1) == Opened(1);
      assert NewIds(0, 1) == [id];
    }
    m.RefreshLobby(id, true);
    m.CloseLobby(id);
    assert m.lobbies == [] && m.sessionManager.sessions == map[] && m.sessionManager.sessionTimeouts == map[] by {
      assert IndexOf([id], id) == Some(0);
    }
    m.SessionReinitFires(id, now, handle);
  }
}
