/** The active-input switch of src/config/controls.rs: the game follows
    whichever device was used last, mouse and keyboard or gamepad. */
module Controls {

  import opened Wrappers

  datatype ActiveInput = MouseKeyboard | Gamepad

  /** The state the engine starts in (the `#[default]` variant). */
  const Initial: ActiveInput := MouseKeyboard

  /** The kinds of gamepad event the engine reports. */
  datatype GamepadEvent = Connection | Button | Axis

  /** A button press or stick movement, as opposed to a (dis)connection. */
  predicate IsUse(e: GamepadEvent)
  {
    e.Button? || e.Axis?
  }

  /** `activate_gamepad`: the first button or axis event switches to the
      gamepad and ends the system; connection events are skipped. */
  function ActivateGamepad(events: seq<GamepadEvent>, pending: Option<ActiveInput>): (r: Option<ActiveInput>)
    ensures (exists i :: 0 <= i < |events| && IsUse(events[i])) ==> r == Some(Gamepad)
    ensures (forall i :: 0 <= i < |events| ==> !IsUse(events[i])) ==> r == pending
    decreases |events|
  {
    if events == [] then pending
    else if IsUse(events[0]) then Some(Gamepad)
    else
      var r := ActivateGamepad(events[1..], pending);
      assert forall i :: 1 <= i < |events| ==> events[i] == events[1..][i - 1];
      r
  }

  /** `activate_mkb`: any keyboard event switches to mouse and keyboard. */
  function ActivateMkb(keyboardEvents: nat, pending: Option<ActiveInput>): (r: Option<ActiveInput>)
    ensures keyboardEvents == 0 ==> r == pending
    ensures keyboardEvents > 0 ==> r == Some(MouseKeyboard)
    decreases keyboardEvents
  {
    if keyboardEvents == 0 then pending else ActivateMkb(keyboardEvents - 1, Some(MouseKeyboard))
  }

  /** One frame: only the detector for the other device runs, then the
      pending state is committed. */
  function Step(current: ActiveInput, gamepad: seq<GamepadEvent>, keyboardEvents: nat): (next: ActiveInput)
    ensures current == MouseKeyboard ==>
              (next == Gamepad <==> exists i :: 0 <= i < |gamepad| && IsUse(gamepad[i]))
    ensures current == Gamepad ==> (next == MouseKeyboard <==> keyboardEvents > 0)
  {
    var pending :=
      match current
      case MouseKeyboard => ActivateGamepad(gamepad, Option.None)
      case Gamepad => ActivateMkb(keyboardEvents, Option.None);
    if pending.Some? then pending.value else current
  }

  /** Within one frame's reads, the device either stays or switches to the
      other one, and the events of the device already active are ignored:
      typing while on mouse and keyboard, or pressing buttons while on the
      gamepad, changes nothing in that frame. Those events can still act one
      frame later, see `Tick`. */
  lemma OnlyTheOtherDeviceSwitches(current: ActiveInput, gamepad: seq<GamepadEvent>, keyboardEvents: nat)
    ensures current == MouseKeyboard ==> Step(current, gamepad, keyboardEvents) == Step(current, gamepad, 0)
    ensures current == Gamepad ==> Step(current, gamepad, keyboardEvents) == Step(current, [], keyboardEvents)
    ensures Step(current, gamepad, keyboardEvents) == current ||
            Step(current, gamepad, keyboardEvents) == (if current == MouseKeyboard then Gamepad else MouseKeyboard)
  {
  }

  /** The input events of one frame. */
  datatype Input = Input(gamepad: seq<GamepadEvent>, keyboardEvents: nat)

  const NoInput: Input := Input([], 0)

  /** The device committed at the start of a frame, and the events of the
      previous frame the detector that runs now has not read. Events live
      for the frame they are sent in and the next one, and a detector gated
      off by its `run_if` keeps its reader where it was; so after a switch
      the newly running detector also reads the switching frame's events.
      A detector that ran in the previous frame without switching has read
      all of that frame's events. */
  datatype Detectors = Detectors(device: ActiveInput, unread: Input)

  const Start: Detectors := Detectors(Initial, NoInput)

  /** One frame over the events the running detector can still read: the
      unread ones of the previous frame, then the current frame's. */
  function Tick(d: Detectors, cur: Input): (r: Detectors)
    ensures var gamepad := d.unread.gamepad + cur.gamepad;
            d.device == MouseKeyboard ==>
              (r.device == Gamepad <==> exists i :: 0 <= i < |gamepad| && IsUse(gamepad[i]))
    ensures d.device == Gamepad ==>
              (r.device == MouseKeyboard <==> d.unread.keyboardEvents + cur.keyboardEvents > 0)
    ensures r.device != d.device ==> r.unread == cur
    ensures r.device == d.device ==> r.unread == NoInput
  {
    var next := Step(d.device, d.unread.gamepad + cur.gamepad, d.unread.keyboardEvents + cur.keyboardEvents);
    Detectors(next, if next != d.device then cur else NoInput)
  }

  /** Without carried events a frame is exactly one `Step` over its own
      events. */
  lemma TickWithoutCarry(device: ActiveInput, cur: Input)
    ensures Tick(Detectors(device, NoInput), cur).device == Step(device, cur.gamepad, cur.keyboardEvents)
  {
    assert [] + cur.gamepad == cur.gamepad;
  }

  /** A frame with a gamepad button or axis event and keyboard events, on
      mouse and keyboard: the gamepad detector switches, and in the next
      frame the keyboard detector reads the same frame's keyboard events
      and switches straight back, whatever the next frame brings. */
  lemma CarriedKeysSwitchBack(unread: Input, gamepad: seq<GamepadEvent>, keys: nat, next: Input, i: nat)
    requires i < |gamepad| && IsUse(gamepad[i]) && keys > 0
    ensures Tick(Detectors(MouseKeyboard, unread), Input(gamepad, keys)).device == Gamepad
    ensures Tick(Tick(Detectors(MouseKeyboard, unread), Input(gamepad, keys)), next).device == MouseKeyboard
  {
    var g := unread.gamepad + gamepad;
    assert g[|unread.gamepad| + i] == gamepad[i];
  }

  /** The same on the gamepad: keyboard events switch to mouse and keyboard,
      and the gamepad detector then reads the same frame's button or axis
      event and switches straight back. */
  lemma CarriedUseSwitchBack(unread: Input, gamepad: seq<GamepadEvent>, keys: nat, next: Input, i: nat)
    requires i < |gamepad| && IsUse(gamepad[i]) && keys > 0
    ensures Tick(Detectors(Gamepad, unread), Input(gamepad, keys)).device == MouseKeyboard
    ensures Tick(Tick(Detectors(Gamepad, unread), Input(gamepad, keys)), next).device == Gamepad
  {
    var t := Tick(Detectors(Gamepad, unread), Input(gamepad, keys));
    assert t.unread == Input(gamepad, keys);
    var g := t.unread.gamepad + next.gamepad;
    assert g[i] == gamepad[i];
  }

  /** A switch with no event of the newly active device in the switching
      frame or the next one holds through that next frame. */
  lemma QuietSwitchHolds(unread: Input, cur: Input, next: Input)
    requires cur.keyboardEvents == 0 && next.keyboardEvents == 0
    requires Tick(Detectors(MouseKeyboard, unread), cur).device == Gamepad
    ensures Tick(Tick(Detectors(MouseKeyboard, unread), cur), next).device == Gamepad
  {
  }

  /** Connecting or disconnecting a gamepad alone never switches to it. */
  lemma ConnectionsDoNotSwitch(n: nat)
    ensures Step(Initial, seq(n, _ => Connection), 0) == Initial
  {
  }
}
