# Nizua Loader — a Dafny model of its bookkeeping core

Nizua Loader is an Electron shell that opens up to twenty Xbox Cloud Gaming
"lobbies", each in its own webview. Each lobby gets a virtual gamepad and an
isolated session. A Flask back end keeps the gamepad configuration and
reports controller status. This project models the state each part keeps and
the rules that update it, and it proves what those rules promise.

| module | file | models |
|---|---|---|
| `Common` | `common.dfy` | `Option`, timer handles, `lobby<n>` ids and their injectivity, and the string predicates the JavaScript uses (`startsWith`, `includes`, and `toLowerCase` and `trim` restricted to ASCII) |
| `Gamepad` | `gamepad.dfy` | the virtual pad injected into each page: `getGamepads`, the `updateVirtualGamepad` merge rule, the ambient jitter. Also the host-side pad registry and the `button_press`, `stick_movement` and `continuous_movement` input scripts |
| `Sessions` | `sessions.dfy` | the session registry and its monitor timers; the isolated `localStorage` and `sessionStorage` wrappers; the page's auto-play click-retry machine |
| `Lobbies` | `lobbies.dfy` | the lobby list with its ceiling of 20 and its id scheme; opening, closing and refreshing lobbies; simulation timers and their random input; the resolution-spoof fallback rule |
| `Controllers` | `controllers.dfy` | the per-lobby controller table, the connected filter, and the movement, anti-AFK and class broadcasts |
| `Settings` | `settings.dfy` | the front end's copy of the configuration, its dirty flag, and the slider-id ↔ config-key ↔ section rules |
| `Server` | `server.dfy` | the back end's INI configuration and its add/modify/delete/upsert/save/reset operations with their error paths, the parameter routes and their field validation, the 20-lobby status report, and game lookup and launch |

Mutable objects of the source are classes whose methods state the whole new
state in terms of the old one. Pure rules are functions, and the properties
that relate several calls are lemmas. Everything outside the program is an
input to the member that uses it:

- the clock (`now`);
- `Math.random()` samples in [0, 1);
- the DOM (`Dom`: a `querySelectorAll` oracle and the body text);
- whether a webview element exists;
- the handle a timer call returns;
- the server's answers (`Response`, `Option` replies);
- whether a file write succeeds (`writeOk`).

Timers are not clocks here: each timer firing is a method call (`RetryTick`,
`CutoffFires`, `MonitorTick`, `AmbientTick`, the ticks of
`RunContinuousMovement`, `SetupLobbyWebview`, `SimulationStartFires`,
`SessionReinitFires`). The lobby manager keeps the one-shot timers it has
scheduled but not yet seen fire; a firing may come at any later point,
including after the lobby was closed. The source never cancels them, and
the model shows what that costs: a lobby closed within 2 s of a successful
connect keeps a simulation interval that no later close clears
(`Lobbies.EarlyCloseLeaksSimulation`), and a lobby closed within 2 s of a
refresh gets its session and monitor back
(`Lobbies.CloseAfterRefreshRevivesSession`).

## Model

| member | source | states |
|---|---|---|
| Common.LobbyIdInjective | frontend/src/modules/lobby-manager.js:24 | `lobby<m>` and `lobby<n>` are equal only when m = n |
| Gamepad.NewPad | frontend/src/gamepad_injector.js:10-24 | a new pad has 17 unpressed, untouched buttons of value 0, 4 zero axes, `connected`, mapping `standard`, and the given index, id and timestamp |
| Gamepad.GamepadInjector.constructor | frontend/src/gamepad_injector.js:4-7 | the registry starts empty and not injecting |
| Gamepad.GamepadInjector.CreateVirtualGamepad | frontend/src/gamepad_injector.js:10-24 | the pad is a new pad with index defaulting to 0; it is recorded under the webview id, replacing any earlier one |
| Gamepad.InjectedGamepad.constructor | frontend/src/gamepad_injector.js:39-57 | the page's pad is a new pad with index 0 and the `Virtual Xbox Controller (<id>)` name |
| Gamepad.InjectedGamepad.GetGamepads | frontend/src/gamepad_injector.js:60-64 | always 4 slots: slot 0 is the pad, slots 1-3 are null |
| Gamepad.MergeButtons | frontend/src/gamepad_injector.js:70-77 | the length is kept; an input at an existing index sets `pressed` (missing means false) and `value` (missing means 0); holes, indices past the end and `touched` leave buttons unchanged |
| Gamepad.MergeAxes | frontend/src/gamepad_injector.js:79-85 | the length is kept; axis i takes input i when given, and inputs past the 4th are dropped |
| Gamepad.EventFor | frontend/src/gamepad_injector.js:90-95 | exactly one event when `connected` is supplied: connected for true, disconnected for false; none otherwise |
| Gamepad.InjectedGamepad.UpdateVirtualGamepad | frontend/src/gamepad_injector.js:67-96 | the two in-place loops yield exactly the merged buttons and axes; the timestamp is always refreshed; the pad's own `connected` never changes; the event returned is `EventFor` |
| Gamepad.ShapeSurvivesUpdates | frontend/src/gamepad_injector.js:67-96 | after any sequence of updates there are still 17 buttons and 4 axes |
| Gamepad.Jitter | frontend/src/gamepad_injector.js:112 | the ambient offset lies in [-0.05, 0.05) |
| Gamepad.InjectedGamepad.AmbientTick | frontend/src/gamepad_injector.js:109-117 | a connected pad gets the same offset on both left-stick axes and a new timestamp; a disconnected pad is untouched; buttons never change |
| Gamepad.ButtonArray | frontend/src/gamepad_injector.js:143-144 | 17 released inputs with the entry at `buttonIndex`; an index past the end extends the array with holes |
| Gamepad.ButtonPressScript | frontend/src/gamepad_injector.js:141-151 | a press update, then a release update of the same button; the release delay is the duration, or 100 when it is missing or 0 |
| Gamepad.PressThenRelease | frontend/src/gamepad_injector.js:141-151 | on a 17-button pad, the press leaves exactly `buttonIndex` pressed with value 1 and all others released; the release leaves all released; `touched` is untouched |
| Gamepad.StickUpdate | frontend/src/gamepad_injector.js:156-163 | four axes starting at 0; a given left stick sets axes 0-1 and a given right stick sets axes 2-3 |
| Gamepad.MovementUpdate | frontend/src/gamepad_injector.js:178-185 | tick k sends `movements[k mod 5]` on the left stick and 0 on the right stick |
| Gamepad.RunContinuousMovement | frontend/src/gamepad_injector.js:166-198 | the updates sent are ticks 0, 1, … in order; 15 of them when no send throws, otherwise stopping right after the first send that throws; the sends repeat with period 5 (three cycles of the five movements), and a full run ends with both sticks centred |
| Sessions.NewSession | frontend/src/modules/session-manager.js:9-17 | a record with status `initializing`, the clock reading, no auto-play, 0 attempts and the unused cap 5 |
| Sessions.SessionManager.constructor | frontend/src/modules/session-manager.js:3-7 | no sessions, no timers, auto-play enabled |
| Sessions.SessionManager.CreateSession | frontend/src/modules/session-manager.js:9-21 | the new record is stored under the lobby id, replacing any earlier one; timers are unchanged |
| Sessions.SessionManager.StartSessionMonitoring | frontend/src/modules/session-manager.js:297-340 | the monitor timer is recorded under the lobby id |
| Sessions.SessionManager.InitializeWebviewSession | frontend/src/modules/session-manager.js:23-37 | a new record and a monitor timer under the lobby id |
| Sessions.SessionManager.DestroySession | frontend/src/modules/session-manager.js:342-354 | the record and the timer are removed and the cleared timer is returned; an unknown id changes nothing |
| Sessions.SessionManager.MonitorTick | frontend/src/modules/session-manager.js:298-337 | without a session the monitor stops; without the webview the session is destroyed; otherwise `lastActivity` is refreshed and the page is probed |
| Sessions.StorageKey | frontend/src/modules/session-manager.js:51-60 | every stored name starts with `<sessionKey>_` |
| Sessions.ForeignKeyOutsidePrefix | frontend/src/modules/session-manager.js:45-70 | for distinct session keys without `_`, no name one wrapper stores under carries the other's prefix, so one wrapper's clear never removes the other's entries |
| Sessions.StorageKeysDisjoint | frontend/src/modules/session-manager.js:45-57 | distinct underscore-free session keys never store under the same name |
| Sessions.LobbyIdsIsolated | frontend/src/modules/session-manager.js:45-57 | the wrappers of two different lobbies never collide |
| Sessions.KeysWithPrefix | frontend/src/modules/session-manager.js:64-65 | exactly the keys of the map that start with the prefix |
| Sessions.Without | frontend/src/modules/session-manager.js:62-70 | exactly the entries whose key is not removed, with their values |
| Sessions.Lookup | frontend/src/modules/session-manager.js:51 | null for a missing key and for a stored empty string; otherwise the stored value |
| Sessions.SharedStorage.constructor | frontend/src/modules/session-manager.js:44 | the page's original storage with its items |
| Sessions.IsolatedLocalStorage.constructor | frontend/src/modules/session-manager.js:45-49 | an empty private map over the original storage |
| Sessions.IsolatedLocalStorage.GetItem | frontend/src/modules/session-manager.js:50-52 | reads only the private map under the prefixed name |
| Sessions.IsolatedLocalStorage.SetItem | frontend/src/modules/session-manager.js:53-57 | both maps store the value under the prefixed name; reading the key back gives the value, or null when the value is empty |
| Sessions.IsolatedLocalStorage.RemoveItem | frontend/src/modules/session-manager.js:58-61 | the prefixed name leaves both maps; reading the key gives null |
| Sessions.IsolatedLocalStorage.Clear | frontend/src/modules/session-manager.js:62-70 | the private map ends empty; the original storage loses exactly the prefixed names the private map held |
| Sessions.IsolatedSessionStorage.constructor | frontend/src/modules/session-manager.js:81-82 | an empty private map |
| Sessions.IsolatedSessionStorage.GetItem | frontend/src/modules/session-manager.js:83-85 | reads the private map under the prefixed name |
| Sessions.IsolatedSessionStorage.SetItem | frontend/src/modules/session-manager.js:86-88 | only the private map changes; the key reads back as stored |
| Sessions.IsolatedSessionStorage.RemoveItem | frontend/src/modules/session-manager.js:89-91 | only the private map changes; the key reads as null |
| Sessions.IsolatedSessionStorage.Clear | frontend/src/modules/session-manager.js:92-94 | the whole private map is emptied |
| Sessions.FilterText | frontend/src/modules/session-manager.js:148-150 | keeps exactly the buttons whose trimmed, lower-cased text contains the lower-cased needle, and never lengthens the list |
| Sessions.FilterTextIsSubsequence | frontend/src/modules/session-manager.js:148-150 | the buttons kept stay in document order |
| Sessions.FilterTextCounts | frontend/src/modules/session-manager.js:148-150 | every matching button is kept as often as it occurs, and no other button is kept |
| Sessions.Candidates | frontend/src/modules/session-manager.js:144-153 | nothing exactly when the query it runs throws (the CSS itself, or `button` for a text pseudo-selector); a CSS selector yields the query's matches unchanged; a text pseudo-selector yields the `FilterText` of the buttons, so only buttons whose text matches |
| Sessions.FirstClickable | frontend/src/modules/session-manager.js:155-156 | the position of the first rendered, enabled element, or none exactly when there is no such element |
| Sessions.FirstTarget | frontend/src/modules/session-manager.js:143-207 | the element clicked, if any, is rendered and enabled (which selector it comes from is `FirstTargetIsFirstYield`) |
| Sessions.FirstTargetIsFirstYield | frontend/src/modules/session-manager.js:143-207 | the element clicked is the first clickable element of the first selector, in list order, that yields one; every earlier selector throws or yields no clickable element |
| Sessions.NoTargetIffNoYield | frontend/src/modules/session-manager.js:143-207 | nothing is clicked exactly when every selector throws or yields no clickable element |
| Sessions.ScanElements | frontend/src/modules/session-manager.js:155-156 | the inner loop finds exactly `FirstClickable` of the elements one selector yields |
| Sessions.SelectTarget | frontend/src/modules/session-manager.js:143-207 | the two nested loops find exactly `FirstTarget` |
| Sessions.TextSelectorsCoincide | frontend/src/modules/session-manager.js:134-150 | `:contains("Play")` and `:contains("PLAY")` select the same buttons |
| Sessions.MonitorImpliesPlay | frontend/src/modules/session-manager.js:322-328 | body text that triggers the host monitor also triggers the page's own check |
| Sessions.ClickSequence | frontend/src/modules/session-manager.js:160-195 | mousedown, mouseup, click and direct click, in non-decreasing delay order, all inside the element's box |
| Sessions.AutoPlayScript.constructor | frontend/src/modules/session-manager.js:118-120 | inactive, 0 attempts, no timers |
| Sessions.AutoPlayScript.FindAndClickPlayButton | frontend/src/modules/session-manager.js:123-208 | at 10 attempts nothing is clicked; otherwise `FirstTarget` is clicked and counted once; the counter never passes 10 |
| Sessions.AutoPlayScript.CheckForPlayButton | frontend/src/modules/session-manager.js:211-260 | activates only when an indicator is in the body and no activation runs; timers start only if the first click found a target; if it found none, the script is stuck active for good |
| Sessions.AutoPlayScript.RetryTick | frontend/src/modules/session-manager.js:234-251 | below the cap it clicks again while play is still needed, and otherwise deactivates and clears itself; at the cap it clears itself and leaves the flag set |
| Sessions.AutoPlayScript.CutoffFires | frontend/src/modules/session-manager.js:254-257 | after 30 s the retry timer is cleared and the flag reset, even while a later activation runs |
| Sessions.AutoPlayScript.MonitorProbe | frontend/src/modules/session-manager.js:316-333 | clicks through `triggerAutoPlay` when a monitor phrase is present, whatever the flag says |
| Lobbies.NewIds | frontend/src/modules/lobby-manager.js:23-28 | the ids the open loop assigns are `lobby<start+1>` … `lobby<start+n>` |
| Lobbies.IndexOf | frontend/src/modules/lobby-manager.js:470 | the first position of the id, or none exactly when it is absent |
| Lobbies.RemoveFirst | frontend/src/modules/lobby-manager.js:469-473 | drops exactly the first occurrence and keeps the others in order; an unknown id leaves the list unchanged |
| Lobbies.RemoveHead | frontend/src/modules/lobby-manager.js:495-499 | closing the first listed lobby drops the head of the list |
| Lobbies.NewIdsAppend | frontend/src/modules/lobby-manager.js:23-25 | two openings on an untouched list assign the same ids as one opening |
| Lobbies.NewIdsDistinct | frontend/src/modules/lobby-manager.js:24 | the ids are all different while nothing has been closed |
| Lobbies.IdsRepeatAfterClose | frontend/src/modules/lobby-manager.js:24 | with n ≥ 2 lobbies open, closing `lobby1` and opening one more lists `lobby<n>` twice |
| Lobbies.Admit | frontend/src/modules/lobby-manager.js:12-21 | opens iff 1 ≤ count and the total stays ≤ 20; an invalid count is refused before the capacity check |
| Lobbies.LobbyManager.constructor | frontend/src/modules/lobby-manager.js:3-9 | no lobbies, no simulation timers, nothing pending, and a fresh session manager |
| Lobbies.LobbyManager.OpenLobbies | frontend/src/modules/lobby-manager.js:11-32 | the outcome is `Admit`; a refusal changes nothing; otherwise the list grows by the new ids and keeps its prefix, every new id has a webview setup pending, and the new ids whose controller connected (`Chosen`) have a simulation start pending, in order; no other state changes |
| Lobbies.LobbyManager.AddLobby | frontend/src/modules/lobby-manager.js:23-26 | one round of the open loop: the id is appended, its setup is pending, and its simulation start is pending iff its connect succeeded |
| Lobbies.ChosenCount | frontend/src/modules/lobby-manager.js:22-27 | the timers a loop schedules for the ids that pass a test: each such id as often as it occurs, and no other id |
| Lobbies.LobbyManager.CreateLobbyInstance | frontend/src/modules/lobby-manager.js:34-66 | schedules the lobby's webview setup and changes nothing else |
| Lobbies.LobbyManager.SetupLobbyWebview | frontend/src/modules/lobby-manager.js:143-161 | the setup timer fires: without a webview nothing but the timer goes; with one, the lobby gets a new session and its monitor timer; the list is not consulted |
| Lobbies.SimulationAction | frontend/src/modules/lobby-manager.js:433-449 | below 0.3 a left-stick move in [-1, 1); below 0.6 a press of button 0-3 for 100-300 ms; otherwise nothing |
| Lobbies.SimulationPeriod | frontend/src/modules/lobby-manager.js:450 | the period lies in [2000, 5000) ms |
| Lobbies.SimulatedPressIsFaceButton | frontend/src/modules/lobby-manager.js:443-448 | a simulated press leaves exactly one face button pressed and releases after its drawn duration |
| Lobbies.LobbyManager.StartGamepadSimulation | frontend/src/modules/lobby-manager.js:432-457 | records the timer under the lobby; a timer already there is overwritten without being cleared and is returned as leaked |
| Lobbies.LobbyManager.ConnectControllerForLobby | frontend/src/modules/lobby-manager.js:409-430 | connected iff the reply says success; only then is a simulation start scheduled, and no interval is recorded yet |
| Lobbies.LobbyManager.SimulationStartFires | frontend/src/modules/lobby-manager.js:417-419 | the start timer fires and records the interval under the lobby whether or not it is still listed; a timer already there is returned as leaked |
| Lobbies.LobbyManager.CloseLobby | frontend/src/modules/lobby-manager.js:459-473 | the list loses the first occurrence; the simulation timer, session and monitor of that id are removed; the timers pending for it are left to fire |
| Lobbies.LobbyManager.CloseAllLobbies | frontend/src/modules/lobby-manager.js:495-501 | returns the old count and leaves no lobby; timers and sessions of every listed id are removed |
| Lobbies.LobbyManager.RefreshLobby | frontend/src/modules/lobby-manager.js:503-515 | with a webview, the session and its monitor are destroyed and a re-initialisation is scheduled; without one, nothing changes; the list is never touched |
| Lobbies.LobbyManager.SessionReinitFires | frontend/src/modules/lobby-manager.js:511-513 | the re-initialisation timer fires: the lobby gets a new session and monitor timer, whether or not it is still listed |
| Lobbies.LobbyManager.RefreshAllLobbies | frontend/src/modules/lobby-manager.js:517-522 | returns the list's length; exactly the listed lobbies with a webview lose their session and monitor and have a re-initialisation pending, in list order; every other entry of both maps is kept, and so is the auto-play flag |
| Lobbies.EarlyCloseLeaksSimulation | frontend/src/modules/lobby-manager.js:417-419 | opening one lobby, closing it, then letting its start timer fire leaves no lobby but an interval for `lobby1` |
| Lobbies.CloseAfterRefreshRevivesSession | frontend/src/modules/lobby-manager.js:503-513 | opening one lobby, refreshing it, closing it, then letting the re-initialisation fire leaves no lobby but a session and monitor for `lobby1` |
| Lobbies.SpoofAsWritten | frontend/src/modules/lobby-manager.js:164-217 | the fallback runs at most once: for a synchronous failure of any step, but not when the override command's promise rejects |
| Lobbies.RejectedCommandNotSpoofed | frontend/src/modules/lobby-manager.js:195-212 | with an attached debugger whose command rejects, neither the override nor the fallback takes effect |
| Lobbies.SpoofAwaited | frontend/src/modules/lobby-manager.js:164-217 | with the command awaited, the fallback runs exactly once iff some step fails, and the page always ends up spoofed |
| Lobbies.SpoofAgreesWithoutRejection | frontend/src/modules/lobby-manager.js:164-217 | the written and the awaited rule agree whenever the command fails synchronously or not at all |
| Controllers.Merge | frontend/src/modules/controller-manager.js:18-21 | each field of the spread object replaces the entry's; the others stay |
| Controllers.MergeIdempotent | frontend/src/modules/controller-manager.js:18-21 | spreading the same object twice equals spreading it once |
| Controllers.SetFlag | frontend/src/modules/controller-manager.js:57 | sets the movement or anti-AFK flag of one entry and nothing else |
| Controllers.ConnectedIds | frontend/src/modules/controller-manager.js:165-170 | exactly the keys whose entry exists and is connected |
| Controllers.ControllerManager.Connected | frontend/src/modules/controller-manager.js:165-170 | exactly the keys whose entry exists and is connected |
| Controllers.Succeeded | frontend/src/modules/controller-manager.js:55-60 | exactly the ids whose call answered success |
| Controllers.SucceededSnoc | frontend/src/modules/controller-manager.js:55-60 | the successful ids grow one answer at a time |
| Controllers.Drop | frontend/src/modules/controller-manager.js:234 | exactly the other keys |
| Controllers.DropKeepsDistinct | frontend/src/modules/controller-manager.js:234 | deleting a key keeps the remaining keys distinct |
| Controllers.Toggled | frontend/src/modules/controller-manager.js:55-60 | same keys; an entry takes the new state iff its call answered success |
| Controllers.ToggledSnoc | frontend/src/modules/controller-manager.js:55-60 | the toggled table grows one answer at a time |
| Controllers.ControllerManager.constructor | frontend/src/modules/controller-manager.js:3-9 | an empty table with both global flags off |
| Controllers.ControllerManager.AddController | frontend/src/modules/controller-manager.js:223-231 | the entry is the defaults (connected, flags off) overridden by the data; it is connected unless the data says otherwise |
| Controllers.ControllerManager.RemoveController | frontend/src/modules/controller-manager.js:233-236 | only that key is deleted |
| Controllers.ControllerManager.UpdateControllerStatus | frontend/src/modules/controller-manager.js:11-31 | fetched fields are merged only into lobbies already present; no entry is added; a failed request changes nothing |
| Controllers.AllAnswered | frontend/src/modules/controller-manager.js:52 | true iff no call threw |
| Controllers.AnswerStep | frontend/src/modules/controller-manager.js:55-60 | one more answer changes the table only at that controller, and only if it answered success; the success count grows by exactly that answer |
| Controllers.ControllerManager.ApplyAnswers | frontend/src/modules/controller-manager.js:53-60 | the table becomes `Toggled`; the count is the number of successful answers |
| Controllers.ControllerManager.Toggle | frontend/src/modules/controller-manager.js:33-77 | nothing connected or a call that throws changes nothing; otherwise the state sent is the negated global flag, exactly the successful controllers take it, the global flag flips iff at least one succeeded, and successCount ≤ totalCount |
| Controllers.ControllerManager.ToggleMovement | frontend/src/modules/controller-manager.js:33-77 | answered iff some controller is connected and no call throws, otherwise nothing changes; when answered, exactly the controllers that reported success take the negated global movement flag, the global flag flips iff at least one did, and anti-AFK flags are untouched |
| Controllers.ControllerManager.ToggleAntiAfk | frontend/src/modules/controller-manager.js:79-123 | answered iff some controller is connected and no call throws, otherwise nothing changes; when answered, exactly the controllers that reported success take the negated global anti-AFK flag, the global flag flips iff at least one did, and movement flags are untouched |
| Controllers.CountSucceeded | frontend/src/modules/controller-manager.js:144-150 | counts exactly the successful answers |
| Controllers.ControllerManager.SelectClass | frontend/src/modules/controller-manager.js:125-163 | changes no state; reports how many of the connected controllers answered success |
| Settings.ReplaceAll | frontend/src/modules/settings-manager.js:131 | every occurrence of the character is replaced and nothing else changes |
| Settings.ReplaceOccurrence | frontend/src/modules/settings-manager.js:131 | an occurrence of a word maps to an occurrence of its rewritten form |
| Settings.KeyForSlider | frontend/src/modules/settings-manager.js:131 | the key has the id's length and no `-` |
| Settings.SliderForKey | frontend/src/modules/settings-manager.js:99 | the slider id has the key's length and no `_` |
| Settings.SliderKeyRoundTrip | frontend/src/modules/settings-manager.js:99-131 | id → key → id is the identity for ids without `_` |
| Settings.KeySliderRoundTrip | frontend/src/modules/settings-manager.js:99-131 | key → id → key is the identity for keys without `-` |
| Settings.SectionForSlider | frontend/src/modules/settings-manager.js:126-129 | `AntiAFK` iff the id contains `antiafk`, `bumper` or `delay-between`; `Movement` otherwise |
| Settings.BumperAndDelaySlidersAreAntiAfk | frontend/src/modules/settings-manager.js:126-131 | the sliders named after the bumper and delay keys write into `AntiAFK` |
| Settings.IntervalSliderIsMovement | frontend/src/modules/settings-manager.js:126-131 | a slider named after the anti-AFK `interval` key writes into `Movement` |
| Settings.SettingsManager.constructor | frontend/src/modules/settings-manager.js:3-6 | empty settings, not dirty |
| Settings.SettingsManager.HasUnsavedChanges | frontend/src/modules/settings-manager.js:159-161 | returns the dirty flag |
| Settings.SettingsManager.UpdateParameterFromUI | frontend/src/modules/settings-manager.js:65-71 | creates the section if missing, sets only that key, marks dirty; other sections and keys are unchanged |
| Settings.SettingsManager.OnSliderInput | frontend/src/modules/settings-manager.js:109-132 | writes the slider's value under its derived section and key, creating the section if missing; every other key of that section and every other section stay as they were; the settings become dirty |
| Settings.SettingsManager.LoadSettings | frontend/src/modules/settings-manager.js:8-25 | replaces the settings only on success; the dirty flag is untouched |
| Settings.SettingsManager.SaveAllSettings | frontend/src/modules/settings-manager.js:27-44 | sends the current settings; clears the dirty flag only on success |
| Settings.SettingsManager.ResetToDefault | frontend/src/modules/settings-manager.js:46-63 | succeeds iff the reset call does; reloads only then; the dirty flag is untouched |
| Server.PyStr | backend/server.py:187 | `str` keeps text as is and writes a non-negative int in decimal |
| Server.Render | backend/server.py:141-147 | the same sections and keys, each value through `str` |
| Server.RenderLift | backend/server.py:164-171 | saving all-string data stores exactly those strings |
| Server.SectionOfDistinct | backend/server.py:105-135 | options with distinct names make a section of that many options, each with its value |
| Server.MovementNamesDistinct | backend/server.py:107-127 | the 19 default `Movement` names are distinct |
| Server.AntiAfkNamesDistinct | backend/server.py:129-134 | the 4 default `AntiAFK` names are distinct |
| Server.DefaultGamepadConfig | backend/server.py:105-135 | two sections, `Movement` with 19 options and `AntiAFK` with 4, each option with its listed value |
| Server.Upsert | backend/server.py:364-370 | the section exists afterwards and the key maps to the value; other keys and sections are unchanged |
| Server.RemoveOption | backend/server.py:239-244 | the key goes; the section goes iff it became empty; other sections are unchanged |
| Server.RemoveUndoesAdd | backend/server.py:177-256 | deleting an option just added restores the configuration iff it was not added to an existing empty section |
| Server.RemoveUndoesAddToSection | backend/server.py:230-256 | deleting an option added to a non-empty section restores it |
| Server.RemoveUndoesAddNewSection | backend/server.py:177-199 | deleting an option that created its section removes the section again |
| Server.UpsertRestores | backend/server.py:201-226 | modifying an option back to its old value restores the configuration |
| Server.StatusFor | backend/server.py:510 | 200 iff the result carries success, 400 otherwise |
| Server.LobbyIds | backend/server.py:446-447 | contains `lobby1` … `lobby<n>` |
| Server.LobbyIdsCount | backend/server.py:446-447 | `lobby1` … `lobby<n>` are n different ids |
| Server.ConnectedAmong | backend/server.py:470 | exactly the listed lobbies reported as connected |
| Server.BuildStatus | backend/server.py:446-466 | the loop builds one entry for each of `lobby1` … `lobby20` |
| Server.CountConnected | backend/server.py:470 | the count of connected entries |
| Server.StatusAll | backend/server.py:440-471 | exactly 20 entries with `controller_id` = i; all connected with the controller's flags, or all disconnected; `connected_count` is the number of connected entries, hence 20 or 0 |
| Server.FindGame | backend/server.py:599-607 | the position of the first game with the id, or none exactly when no game has it |
| Server.GetGame | backend/server.py:596-602 | the first game in the list with the id, or none (the 404 answer) exactly when no game has it |
| Server.LaunchGame | backend/server.py:604-621 | not found (404) iff no game has the id; otherwise the first game with the id decides: a launch redirecting to its path when it is marked installed, not installed (400) when it is not |
| Server.LaunchStatus | backend/server.py:604-616 | the launch route answers 404 exactly when no game has the id, 200 exactly when the first game with the id is marked installed, and 400 otherwise |
| Server.NizuaServer.constructor | backend/server.py:28-36 | the loaded configuration and game list |
| Server.NizuaServer.SaveGamepadConfig | backend/server.py:137-162 | on a successful write, the configuration becomes exactly the given data through `str`; on a failed write it stays as it was |
| Server.NizuaServer.ResetGamepadConfigToDefault | backend/server.py:164-175 | a save of the default: the configuration becomes the default iff the write succeeds |
| Server.NizuaServer.AddGamepadParameter | backend/server.py:177-199 | an existing option is refused with no change; otherwise the upsert happens (creating the section), and it stays even when the write then fails |
| Server.NizuaServer.ModifyGamepadParameter | backend/server.py:201-228 | a missing section or option is refused with no change; otherwise only that option changes and the old and new values are reported |
| Server.NizuaServer.DeleteGamepadParameter | backend/server.py:230-256 | a missing section or option is refused with no change; otherwise the option goes, the section goes iff it became empty, and the deleted value is reported |
| Server.NizuaServer.UpdateGamepadSetting | backend/server.py:364-382 | an upsert of `str(value)` |
| Server.NizuaServer.SaveRoute | backend/server.py:501-513 | a missing or empty configuration gets 400 with no change; otherwise 200 iff the save succeeded |
| Server.NizuaServer.ResetRoute | backend/server.py:515-520 | 200 and the default configuration iff the write succeeds |
| Server.NizuaServer.AddRoute | backend/server.py:522-535 | a missing section or key, or a null value, gets 400 before any change; an existing option gets 400 with no change; otherwise the option is upserted, and the answer is 200 when the write succeeds and 400 when it fails, the in-memory upsert staying either way |
| Server.NizuaServer.ModifyRoute | backend/server.py:537-550 | a missing field, a missing section or a missing option gets 400 before any change; an existing option is rewritten, and the answer is 200 with the old and new values when the write succeeds and 400 when it fails, the rewrite staying either way |
| Server.NizuaServer.DeleteRoute | backend/server.py:552-564 | a missing section or key field, a missing section or a missing option gets 400 before any change; an existing option is removed (with its section once empty), and the answer is 200 with the removed value when the write succeeds and 400 when it fails, the removal staying either way |
| Server.NizuaServer.UpdateSettingRoute | backend/server.py:580-593 | a missing field gets 400 before any change; otherwise the upsert, with 200 iff the write succeeded |

## Left out

- The DOM and the UI are left out: HTML templates, the elements `createLobbyInstance` builds, `expandWebview`, slider display formatting, button states and notifications. They are presentation only; where a DOM lookup decides a branch, its result is an input (`webviewPresent`, `Dom`).
- Electron plumbing is left out: `executeJavaScript`, `webview.reload`, the debugger calls and `MutationObserver`. Their outcomes are inputs (`sendThrows`, `DebuggerProbe`) and their triggers are method calls.
- `setupAlternativeResolution` is left out. The CSS it injects is presentation; the model counts only how often it is called.
- `triggerAutoPlay` (host side, lobby and session managers), `testGamepadForLobby` and `testAllGamepadFeatures` are left out. They only schedule calls of the modelled operations.
- `injectGamepadAPI` is left out. It only installs the script whose state `InjectedGamepad` models.
- The lengths of the delays (500 ms, 2 s) are left out. Each pending timer may fire at any later point, and timers are not forced to fire in the order their delays imply.
- `setupLobbyWebview`'s calls of `injectGamepadAPI`, of the resolution spoofing (2 s after each page load) and of `setupLobbyInteractions` are left out of `Lobbies.LobbyManager.SetupLobbyWebview`; the spoofing rule itself is `Lobbies.SpoofAsWritten`.
- Sessions.AutoPlayScript: models one copy of the page script. Each `initializeWebviewSession` adds another `dom-ready` and `did-finish-load` listener to the same webview (session-manager.js:106 and 286) and nothing removes them, so after k refreshes every page load injects k + 1 isolation scripts and k + 1 auto-play scripts, each with its own click counter and timers. Listener accumulation on the webview element is not modelled.
- The simulation interval's own ticks are not a method. Each tick's choice is `SimulationAction`, and the input it sends is the modelled input script.
- `Gamepad.RunContinuousMovement` does not model the 500 ms spacing, only the order of sends and when the interval stops.
- Floating-point arithmetic is exact real arithmetic. `parseFloat`, `toFixed` and Python's float formatting are left out: a float's text is carried by `Server.Float`, and slider values arrive already parsed.
- `get_gamepad_config_formatted` and `get_gamepad_settings` are left out. They parse numbers from strings.
- `configparser` quirks are left out: option names are not lower-cased, there is no `DEFAULT` section and no interpolation.
- JSON and INI file I/O is left out. Each write is a `writeOk` input, and the reads at start-up are the constructor's arguments.
- The foreign `GamepadController` is left out. The server routes that only forward to it (connect, disconnect, the toggles, select class, status) are not modelled; `status-all` takes its attached state and flags as inputs.
- `api-client.js` is left out. Its answers are inputs (`Response`, `Option` replies, `respond` functions).
- `Sessions.SessionManager.MonitorTick` does not model the page-side probe's own errors. A probe that throws is only logged by the source.
- `Controllers.ControllerManager.Toggle` treats a call that throws as rejecting the whole `Promise.all`. The source then throws out of the toggle after re-enabling the button; the model returns `CallFailed` with no state change.
- The `forEach` over toggle answers builds the new controller table in a local map and stores it once (`Controllers.ControllerManager.ApplyAnswers`). The source writes each entry in place, but no other code runs in between, so the final table is the same.
- The default options are kept as a list of names and a list of values, because the model's configuration is a map and carries no option order.
- `Server.PyStr` gives a float the text the request carried. Python's own float-to-string conversion is not modelled.
- Route bodies that are not JSON objects and field values that are truthy but not strings are not modelled. Section and key are strings or missing.
- Common.Lower and Common.Trim: only ASCII letters are lower-cased and only ASCII white space is trimmed. JavaScript also lower-cases other letters (the Kelvin sign U+212A becomes `k`) and trims Unicode spaces such as U+00A0; Unicode case and space tables are not modelled.
- Lobbies.Admit: takes an integer count. The count comes from `parseInt`, which can give `NaN`; every comparison with `NaN` is false, so `openLobbies` then opens nothing, throws nothing and returns `NaN`. That case is not modelled.
- Sessions.Lookup: stored values are strings. The wrapper stores raw values, and `this.data[k] || null` also reads back null for a stored `0`, `false` or `NaN`; only the empty string is modelled.
- Settings.SettingsManager.SaveAllSettings: treats the save as one step. The source clears `isDirty` only after the reply arrives, so a slider edit made while a save is in flight is marked clean although it was never sent. Interleaving with the event loop is not modelled.

## Findings

| source | as written | input that shows it | evidently intended | confidence | as-written member | corrected member |
|---|---|---|---|---|---|---|
| frontend/src/modules/lobby-manager.js:195-212 | `debugger.sendCommand` returns a promise that is not awaited, so the `catch` sees only synchronous throws | a debugger that is already attached, whose `Emulation.setDeviceMetricsOverride` promise rejects: neither the override nor the fallback takes effect | any failure of the override, however reported, falls back to the CSS method once | medium, not executed | Lobbies.SpoofAsWritten (shown by Lobbies.RejectedCommandNotSpoofed) | Lobbies.SpoofAwaited |
