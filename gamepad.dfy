/**
 * The virtual gamepad of frontend/src/gamepad_injector.js.
 *
 * The host side (`GamepadInjector`) records one pad per webview and turns
 * high-level inputs (a button press, a stick position, a scripted movement
 * cycle) into calls of `window.updateVirtualGamepad`. The page side
 * (`InjectedGamepad`) is the state the injected script keeps in its closure:
 * the pad that `navigator.getGamepads` reports and that every update
 * overwrites in place.
 */
module Gamepad {
  import opened Common

  const ButtonCount: nat := 17
  const AxisCount: nat := 4
  /** Length of the array `navigator.getGamepads` returns. */
  const SlotCount: nat := 4

  datatype Button = Button(pressed: bool, touched: bool, value: real)

  const Released := Button(false, false, 0.0)

  /**
   * The host-side pad record built by `createVirtualGamepad`
   * (vibrationActuator is always null and is not kept).
   */
  datatype PadRecord = PadRecord(
    id: string, index: nat, connected: bool, mapping: string,
    buttons: seq<Button>, axes: seq<real>, timestamp: real)

  /** One element of `updates.buttons`; each field may be missing. */
  datatype ButtonInput = ButtonInput(pressed: Option<bool>, value: Option<real>)

  /**
   * The argument of `updateVirtualGamepad`. Every field may be missing; a
   * button slot may be a hole of a sparse array (`forEach` skips holes).
   */
  datatype Update = Update(
    buttons: Option<seq<Option<ButtonInput>>>,
    axes: Option<seq<real>>,
    connected: Option<bool>)

  datatype GamepadEvent = GamepadConnected | GamepadDisconnected

  /** A fresh pad: 17 released buttons, 4 centred axes, connected. */
  function NewPad(id: string, index: nat, now: real): (p: PadRecord)
    ensures |p.buttons| == ButtonCount && |p.axes| == AxisCount
    ensures forall i :: 0 <= i < |p.buttons| ==> !p.buttons[i].pressed && !p.buttons[i].touched && p.buttons[i].value == 0.0
    ensures forall i :: 0 <= i < |p.axes| ==> p.axes[i] == 0.0
    ensures p.connected && p.index == index && p.id == id && p.timestamp == now && p.mapping == "standard"
  {
    PadRecord(id, index, true, "standard", seq(ButtonCount, _ => Released), [0.0, 0.0, 0.0, 0.0], now)
  }

  // ---------------------------------------------------------------------------
  // The merge rule of updateVirtualGamepad, as functions on values
  // ---------------------------------------------------------------------------

  /** `button.pressed || false`. */
  function PressedOf(b: ButtonInput): bool {
    b.pressed == Some(true)
  }

  /** `button.value || 0.0` (a present 0 and a missing value both give 0). */
  function ValueOf(b: ButtonInput): real {
    if b.value.Some? then b.value.value else 0.0
  }

  /**
   * Buttons after an update: an input at index i overwrites `pressed` and
   * `value` of button i when that button exists; `touched` and every other
   * button stay as they were.
   */
  function MergeButtons(cur: seq<Button>, upd: seq<Option<ButtonInput>>): (r: seq<Button>)
    ensures |r| == |cur|
    ensures forall i :: 0 <= i < |cur| ==> r[i].touched == cur[i].touched
    ensures forall i :: 0 <= i < |cur| && (i >= |upd| || upd[i].None?) ==> r[i] == cur[i]
    ensures forall i :: 0 <= i < |cur| && i < |upd| && upd[i].Some? ==>
              r[i].pressed == PressedOf(upd[i].value) && r[i].value == ValueOf(upd[i].value)
  {
    seq(|cur|, i requires 0 <= i < |cur| =>
      if i < |upd| && upd[i].Some? then cur[i].(pressed := PressedOf(upd[i].value), value := ValueOf(upd[i].value))
      else cur[i])
  }

  /** Axes after an update: positions beyond the existing axes are dropped. */
  function MergeAxes(cur: seq<real>, upd: seq<real>): (r: seq<real>)
    ensures |r| == |cur|
    ensures forall i :: 0 <= i < |cur| ==> r[i] == if i < |upd| then upd[i] else cur[i]
  {
    seq(|cur|, i requires 0 <= i < |cur| => if i < |upd| then upd[i] else cur[i])
  }

  /** The event `updateVirtualGamepad` dispatches, if any. */
  function EventFor(connected: Option<bool>): (e: Option<GamepadEvent>)
    ensures e.Some? <==> connected.Some?
    ensures connected == Some(true) ==> e == Some(GamepadConnected)
    ensures connected == Some(false) ==> e == Some(GamepadDisconnected)
  {
    match connected
    case None => None
    case Some(c) => Some(if c then GamepadConnected else GamepadDisconnected)
  }

  /** Button and axis counts survive any sequence of updates. */
  lemma {:induction false} ShapeSurvivesUpdates(buttons: seq<Button>, axes: seq<real>, updates: seq<Update>)
    requires |buttons| == ButtonCount && |axes| == AxisCount
    ensures |ButtonsAfter(buttons, updates)| == ButtonCount
    ensures |AxesAfter(axes, updates)| == AxisCount
    decreases |updates|
  {
    if updates != [] {
      var u := updates[0];
      var b := if u.buttons.Some? then MergeButtons(buttons, u.buttons.value) else buttons;
      var a := if u.axes.Some? then MergeAxes(axes, u.axes.value) else axes;
      ShapeSurvivesUpdates(b, a, updates[1..]);
    }
  }

  /** Buttons after applying `updates` in order. */
  function ButtonsAfter(buttons: seq<Button>, updates: seq<Update>): seq<Button>
    decreases |updates|
  {
    if updates == [] then buttons
    else
      var u := updates[0];
      ButtonsAfter(if u.buttons.Some? then MergeButtons(buttons, u.buttons.value) else buttons, updates[1..])
  }

  /** Axes after applying `updates` in order. */
  function AxesAfter(axes: seq<real>, updates: seq<Update>): seq<real>
    decreases |updates|
  {
    if updates == [] then axes
    else
      var u := updates[0];
      AxesAfter(if u.axes.Some? then MergeAxes(axes, u.axes.value) else axes, updates[1..])
  }

  // ---------------------------------------------------------------------------
  // The page side: the injected script's closure
  // ---------------------------------------------------------------------------

  /**
   * The pad the injected script creates (always index 0) and mutates; the
   * script's `if (!virtualGamepad) return;` guard never fires because the pad
   * is created before `updateVirtualGamepad` is installed.
   */
  class InjectedGamepad {
    const id: string
    const index: nat
    const mapping: string
    var connected: bool
    var buttons: seq<Button>
    var axes: seq<real>
    var timestamp: real

    ghost predicate Valid()
      reads this
    {
      |buttons| == ButtonCount && |axes| == AxisCount
    }

    function Snapshot(): (p: PadRecord)
      reads this
    {
      PadRecord(id, index, connected, mapping, buttons, axes, timestamp)
    }

    /** The injected `createVirtualGamepad`, run when the script starts. */
    constructor (webviewId: string, now: real)
      ensures Valid()
      ensures Snapshot() == NewPad("Virtual Xbox Controller (" + webviewId + ")", 0, now)
    {
      var p := NewPad("Virtual Xbox Controller (" + webviewId + ")", 0, now);
      id, index, mapping := p.id, p.index, p.mapping;
      connected, buttons, axes, timestamp := p.connected, p.buttons, p.axes, p.timestamp;
    }

    /** The replaced `navigator.getGamepads`: slot 0 is the pad, slots 1-3 are null. */
    function GetGamepads(): (slots: seq<Option<PadRecord>>)
      reads this
      ensures |slots| == SlotCount
      ensures slots[0] == Some(Snapshot())
      ensures forall i :: 1 <= i < |slots| ==> slots[i].None?
    {
      [Some(Snapshot()), None, None, None]
    }

    /**
     * `window.updateVirtualGamepad(updates)`, with `now` the reading of
     * `performance.now()`. Returns the event it dispatches.
     */
    method UpdateVirtualGamepad(updates: Update, now: real) returns (event: Option<GamepadEvent>)
      requires Valid()
      modifies this
      ensures Valid()
      ensures buttons == if updates.buttons.Some? then MergeButtons(old(buttons), updates.buttons.value) else old(buttons)
      ensures axes == if updates.axes.Some? then MergeAxes(old(axes), updates.axes.value) else old(axes)
      ensures timestamp == now
      ensures connected == old(connected)
      ensures event == EventFor(updates.connected)
    {
      if updates.buttons.Some? {
        var input := updates.buttons.value;
        var i := 0;
        while i < |input|
          invariant 0 <= i <= |input|
          invariant |buttons| == |old(buttons)| && axes == old(axes) && connected == old(connected)
          invariant forall j :: 0 <= j < |buttons| ==>
                      buttons[j] == if j < i && input[j].Some?
                                    then old(buttons)[j].(pressed := PressedOf(input[j].value), value := ValueOf(input[j].value))
                                    else old(buttons)[j]
        {
          if i < |buttons| && input[i].Some? {
            var b := input[i].value;
            buttons := buttons[i := buttons[i].(pressed := PressedOf(b), value := ValueOf(b))];
          }
          i := i + 1;
        }
      }
      ghost var mergedButtons := buttons;
      if updates.axes.Some? {
        var values := updates.axes.value;
        var i := 0;
        while i < |values|
          invariant 0 <= i <= |values|
          invariant |axes| == |old(axes)| && buttons == mergedButtons && connected == old(connected)
          invariant forall j :: 0 <= j < |axes| ==> axes[j] == if j < i then values[j] else old(axes)[j]
        {
          if i < |axes| {
            axes := axes[i := values[i]];
          }
          i := i + 1;
        }
      }
      timestamp := now;
      event := EventFor(updates.connected);
    }

    /**
     * One tick of the 1-second ambient jitter; `sample` is the reading of
     * `Math.random()`. Both left-stick axes get the same offset in [-0.05, 0.05).
     */
    method AmbientTick(sample: real, now: real)
      requires Valid() && 0.0 <= sample < 1.0
      modifies this
      ensures Valid()
      ensures old(connected) ==> axes == [Jitter(sample), Jitter(sample), old(axes)[2], old(axes)[3]] && timestamp == now
      ensures !old(connected) ==> axes == old(axes) && timestamp == old(timestamp)
      ensures buttons == old(buttons) && connected == old(connected)
    {
      if connected {
        var movement := Jitter(sample);
        axes := axes[0 := movement];
        axes := axes[1 := movement];
        timestamp := now;
      }
    }
  }

  /** `(Math.random() - 0.5) * 0.1`. */
  function Jitter(sample: real): (j: real)
    requires 0.0 <= sample < 1.0
    ensures -0.05 <= j < 0.05
  {
    (sample - 0.5) * 0.1
  }

  // ---------------------------------------------------------------------------
  // The host side: GamepadInjector
  // ---------------------------------------------------------------------------

  datatype Stick = Stick(x: real, y: real)

  /** The `data` argument of `simulateGamepadInput`, one variant per input type. */
  datatype Input =
    | ButtonPress(buttonIndex: nat, duration: Option<real>)
    | StickMovement(leftStick: Option<Stick>, rightStick: Option<Stick>)
    | ContinuousMovement

  /** What a `button_press` script does: press, wait `releaseDelay` ms, release. */
  datatype PressScript = PressScript(press: Update, release: Update, releaseDelay: real)

  /** `{ pressed: false, value: 0.0 }` and `{ pressed: true, value: 1.0 }`. */
  const ReleasedInput := ButtonInput(Some(false), Some(0.0))
  const PressedInput := ButtonInput(Some(true), Some(1.0))

  /**
   * The 17-slot array of released inputs with `buttons[buttonIndex] = entry`;
   * an index past the end extends the array, leaving holes in between.
   */
  function ButtonArray(buttonIndex: nat, entry: ButtonInput): (a: seq<Option<ButtonInput>>)
    ensures |a| == if buttonIndex < ButtonCount then ButtonCount else buttonIndex + 1
    ensures a[buttonIndex] == Some(entry)
    ensures forall i :: 0 <= i < ButtonCount && i != buttonIndex ==> a[i] == Some(ReleasedInput)
    ensures forall i :: ButtonCount <= i < |a| && i != buttonIndex ==> a[i].None?
  {
    var base := seq(ButtonCount, _ => Some(ReleasedInput));
    if buttonIndex < ButtonCount then base[buttonIndex := Some(entry)]
    else base + seq(buttonIndex - ButtonCount, _ => None) + [Some(entry)]
  }

  /** The `button_press` script; the delay is `data.duration || 100`. */
  function ButtonPressScript(buttonIndex: nat, duration: Option<real>): (s: PressScript)
    ensures s.press.buttons == Some(ButtonArray(buttonIndex, PressedInput))
    ensures s.release.buttons == Some(ButtonArray(buttonIndex, ReleasedInput))
    ensures s.press.axes.None? && s.press.connected.None? && s.release.axes.None? && s.release.connected.None?
    ensures s.releaseDelay == if duration.Some? && duration.value != 0.0 then duration.value else 100.0
  {
    var delay := if duration.Some? && duration.value != 0.0 then duration.value else 100.0;
    PressScript(
      Update(Some(ButtonArray(buttonIndex, PressedInput)), None, None),
      Update(Some(ButtonArray(buttonIndex, ReleasedInput)), None, None),
      delay)
  }

  /**
   * On a pad, a press leaves exactly button `buttonIndex` pressed with value
   * 1 (every other button is reset to released), and the release that follows
   * leaves every button released with value 0; `touched` is never changed.
   */
  lemma PressThenRelease(cur: seq<Button>, buttonIndex: nat, duration: Option<real>)
    requires |cur| == ButtonCount
    ensures var s := ButtonPressScript(buttonIndex, duration);
            var pressed := MergeButtons(cur, s.press.buttons.value);
            var released := MergeButtons(pressed, s.release.buttons.value);
            && (forall i :: 0 <= i < ButtonCount ==>
                  pressed[i] == Button(i == buttonIndex, cur[i].touched, if i == buttonIndex then 1.0 else 0.0))
            && (forall i :: 0 <= i < ButtonCount ==> released[i] == Button(false, cur[i].touched, 0.0))
  {
  }

  /** The `stick_movement` script: axes start at 0 and each given stick sets its pair. */
  function StickUpdate(leftStick: Option<Stick>, rightStick: Option<Stick>): (u: Update)
    ensures u.buttons.None? && u.connected.None? && u.axes.Some? && |u.axes.value| == AxisCount
    ensures u.axes.value[0] == (if leftStick.Some? then leftStick.value.x else 0.0)
    ensures u.axes.value[1] == (if leftStick.Some? then leftStick.value.y else 0.0)
    ensures u.axes.value[2] == (if rightStick.Some? then rightStick.value.x else 0.0)
    ensures u.axes.value[3] == (if rightStick.Some? then rightStick.value.y else 0.0)
  {
    var axes := [0.0, 0.0, 0.0, 0.0];
    var axes := if leftStick.Some? then axes[0 := leftStick.value.x][1 := leftStick.value.y] else axes;
    var axes := if rightStick.Some? then axes[2 := rightStick.value.x][3 := rightStick.value.y] else axes;
    Update(None, Some(axes), None)
  }

  /** Right, down, left, up, centre. */
  const Movements: seq<Stick> := [Stick(0.5, 0.0), Stick(0.0, 0.5), Stick(-0.5, 0.0), Stick(0.0, -0.5), Stick(0.0, 0.0)]
  /** `movements.length * 3`: three cycles. */
  const MovementSteps: nat := 15

  /** The update sent on tick `k` of `continuous_movement`. */
  function MovementUpdate(k: nat): (u: Update)
    ensures u.buttons.None? && u.connected.None?
    ensures u.axes == Some([Movements[k % 5].x, Movements[k % 5].y, 0.0, 0.0])
  {
    var m := Movements[k % |Movements|];
    Update(None, Some([m.x, m.y, 0.0, 0.0]), None)
  }

  /**
   * The `continuous_movement` interval: each tick sends the next movement;
   * a send that throws clears the interval, and so does the 15th tick.
   * `sendThrows(k)` says whether `executeJavaScript` throws on tick k.
   * Returns the updates sent, in order.
   */
  method RunContinuousMovement(sendThrows: nat -> bool) returns (sent: seq<Update>)
    ensures 1 <= |sent| <= MovementSteps
    ensures forall k :: 0 <= k < |sent| ==> sent[k] == MovementUpdate(k)
    ensures forall k :: 0 <= k < |sent| - 1 ==> !sendThrows(k)
    ensures |sent| < MovementSteps ==> sendThrows(|sent| - 1)
    ensures (forall k :: 0 <= k < MovementSteps ==> !sendThrows(k)) ==> |sent| == MovementSteps
    ensures forall k :: 0 <= k && k + 5 < |sent| ==> sent[k + 5] == sent[k]
    ensures |sent| == MovementSteps ==> sent[MovementSteps - 1].axes == Some([0.0, 0.0, 0.0, 0.0])
  {
    var currentMovement := 0;
    var cleared := false;
    sent := [];
    while !cleared
      invariant 0 <= currentMovement <= MovementSteps
      invariant |sent| == currentMovement
      invariant forall k :: 0 <= k < |sent| ==> sent[k] == MovementUpdate(k)
      invariant forall k :: 0 <= k < |sent| - 1 ==> !sendThrows(k)
      invariant !cleared ==> currentMovement < MovementSteps && (currentMovement > 0 ==> !sendThrows(currentMovement - 1))
      invariant cleared ==> 1 <= |sent| && (|sent| < MovementSteps ==> sendThrows(|sent| - 1))
      decreases MovementSteps - currentMovement, if cleared then 0 else 1
    {
      sent := sent + [MovementUpdate(currentMovement)];
      if sendThrows(currentMovement) {
        cleared := true;
      }
      currentMovement := currentMovement + 1;
      if currentMovement >= MovementSteps {
        cleared := true;
      }
    }
  }

  /** The host-side registry of pad records, one per webview. */
  class GamepadInjector {
    var virtualGamepads: map<string, PadRecord>
    var isInjecting: bool

    constructor ()
      ensures virtualGamepads == map[] && !isInjecting
    {
      virtualGamepads := map[];
      isInjecting := false;
    }

    /** `createVirtualGamepad(webviewId, gamepadIndex = 0)`. */
    method CreateVirtualGamepad(webviewId: string, gamepadIndex: Option<nat>, now: real) returns (pad: PadRecord)
      modifies this
      ensures pad == NewPad("Virtual Controller (" + webviewId + ")", if gamepadIndex.Some? then gamepadIndex.value else 0, now)
      ensures virtualGamepads == old(virtualGamepads)[webviewId := pad]
      ensures isInjecting == old(isInjecting)
    {
      var index := if gamepadIndex.Some? then gamepadIndex.value else 0;
      pad := NewPad("Virtual Controller (" + webviewId + ")", index, now);
      virtualGamepads := virtualGamepads[webviewId := pad];
    }
  }
}
