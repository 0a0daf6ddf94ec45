/** The input manager's button state (InputManager.cpp): keyboard, mouse and
    gamepad states for this frame and the last one, kept in fixed-size arrays,
    and the window messages that update them. Cursor position, screen size,
    stick and trigger values are floating-point window queries and are not
    part of this model. */
module InputManager {
  import opened Text

  const NUM_KEYS: int := 256
  /** `MaxMouseButtons`: left, right, middle, X1 and X2. */
  const MAX_MOUSE_BUTTONS: int := 5
  const LEFT_BUTTON: int := 0
  const RIGHT_BUTTON: int := 1
  const MIDDLE_BUTTON: int := 2
  const X_BUTTON_1: int := 3
  const X_BUTTON_2: int := 4
  /** `MaxControllers`. */
  const MAX_CONTROLLERS: int := 4
  /** `WHEEL_DELTA`: one wheel notch. */
  const WHEEL_DELTA: int := 120

  /** `FGamepadState` without its analogue axes: the connection flag and the
      16-bit button mask. */
  datatype GamepadState = GamepadState(Connected: bool, Buttons: bv16)

  /** The window messages the manager reacts to. The X-button messages carry
      the raw `GET_XBUTTON_WPARAM` value (1 or 2 for the two buttons), the wheel
      message the signed wheel delta. */
  datatype Message =
    | KeyDown(KeyCode: int)
    | KeyUp(KeyCode: int)
    | LButtonDown | LButtonUp
    | RButtonDown | RButtonUp
    | MButtonDown | MButtonUp
    | XButtonDown(XButton: int) | XButtonUp(XButton: int)
    | MouseWheel(WheelDelta: int)
    | KillFocus
    | OtherMessage

  /** The key array after `UpdateKeyState`: the slot of an in-range code is
      set, anything else leaves the array as it was. */
  function SetSlot(states: seq<bool>, index: int, pressed: bool): (r: seq<bool>)
    ensures |r| == |states|
    ensures forall k :: 0 <= k < |r| ==> r[k] == (if k == index then pressed else states[k])
  {
    if 0 <= index < |states| then states[index := pressed] else states
  }

  /** The mouse button a message presses or releases, if any. */
  function ButtonOf(msg: Message): (r: Option<(int, bool)>)
    ensures r.Some? ==> 0 <= r.value.0 < MAX_MOUSE_BUTTONS
  {
    match msg
    case LButtonDown => Some((LEFT_BUTTON, true))
    case LButtonUp => Some((LEFT_BUTTON, false))
    case RButtonDown => Some((RIGHT_BUTTON, true))
    case RButtonUp => Some((RIGHT_BUTTON, false))
    case MButtonDown => Some((MIDDLE_BUTTON, true))
    case MButtonUp => Some((MIDDLE_BUTTON, false))
    case XButtonDown(x) =>
      if x == 1 then Some((X_BUTTON_1, true)) else if x == 2 then Some((X_BUTTON_2, true)) else None
    case XButtonUp(x) =>
      if x == 1 then Some((X_BUTTON_1, false)) else if x == 2 then Some((X_BUTTON_2, false)) else None
    case _ => None
  }

  /** The key states after a message, given whether the UI hovers and whether
      it captures the keyboard: a key-down counts only when neither holds, a
      key-up whenever the keyboard is not captured, and losing focus releases
      every key. */
  function KeysAfter(msg: Message, uiHover: bool, keyboardCapture: bool, keys: seq<bool>): seq<bool>
  {
    match msg
    case KeyDown(code) => if !keyboardCapture && !uiHover then SetSlot(keys, code, true) else keys
    case KeyUp(code) => if !keyboardCapture then SetSlot(keys, code, false) else keys
    case KillFocus => seq(|keys|, _ => false)
    case _ => keys
  }

  /** The mouse button states after a message: button messages count only
      while the UI does not hover. */
  function ButtonsAfter(msg: Message, uiHover: bool, buttons: seq<bool>): seq<bool>
  {
    if !uiHover && ButtonOf(msg).Some? then SetSlot(buttons, ButtonOf(msg).value.0, ButtonOf(msg).value.1)
    else buttons
  }

  /** The wheel delta after a message, in notches. */
  function WheelAfter(msg: Message, uiHover: bool, wheel: real): real
  {
    if msg.MouseWheel? && !uiHover then msg.WheelDelta as real / WHEEL_DELTA as real else wheel
  }

  /** A key-down message while the UI hovers or captures the keyboard changes
      nothing; a key-up reaches the keys even while the UI hovers. */
  lemma KeyGating(code: int, uiHover: bool, keyboardCapture: bool, keys: seq<bool>)
    requires 0 <= code < |keys|
    ensures uiHover || keyboardCapture ==> KeysAfter(KeyDown(code), uiHover, keyboardCapture, keys) == keys
    ensures !uiHover && !keyboardCapture ==> KeysAfter(KeyDown(code), uiHover, keyboardCapture, keys)[code]
    ensures !keyboardCapture ==> !KeysAfter(KeyUp(code), uiHover, keyboardCapture, keys)[code]
    ensures keyboardCapture ==> KeysAfter(KeyUp(code), uiHover, keyboardCapture, keys) == keys
  {
  }

  /** A message changes at most one key, except losing focus, which releases
      them all. */
  lemma KeysAfterChangesOneSlot(msg: Message, uiHover: bool, keyboardCapture: bool, keys: seq<bool>)
    requires !msg.KillFocus?
    ensures |KeysAfter(msg, uiHover, keyboardCapture, keys)| == |keys|
    ensures forall j, k :: 0 <= j < k < |keys| && KeysAfter(msg, uiHover, keyboardCapture, keys)[j] != keys[j] ==>
      KeysAfter(msg, uiHover, keyboardCapture, keys)[k] == keys[k]
  {
  }

  class UInputManager {
    var KeyStates: array<bool>
    var PreviousKeyStates: array<bool>
    var MouseButtons: array<bool>
    var PreviousMouseButtons: array<bool>
    var GamepadStates: array<GamepadState>
    var PreviousGamepadStates: array<GamepadState>
    var MouseWheelDelta: real

    ghost predicate Valid()
      reads this
    {
      KeyStates.Length == NUM_KEYS && PreviousKeyStates.Length == NUM_KEYS &&
      MouseButtons.Length == MAX_MOUSE_BUTTONS && PreviousMouseButtons.Length == MAX_MOUSE_BUTTONS &&
      GamepadStates.Length == MAX_CONTROLLERS && PreviousGamepadStates.Length == MAX_CONTROLLERS &&
      KeyStates != PreviousKeyStates && MouseButtons != PreviousMouseButtons &&
      GamepadStates != PreviousGamepadStates
    }

    /** Every state starts released, no gamepad is connected and the wheel is
        still. */
    constructor()
      ensures Valid() && fresh(KeyStates) && fresh(PreviousKeyStates)
      ensures fresh(MouseButtons) && fresh(PreviousMouseButtons)
      ensures fresh(GamepadStates) && fresh(PreviousGamepadStates)
      ensures forall k :: 0 <= k < NUM_KEYS ==> !KeyStates[k] && !PreviousKeyStates[k]
      ensures forall b :: 0 <= b < MAX_MOUSE_BUTTONS ==> !MouseButtons[b] && !PreviousMouseButtons[b]
      ensures forall i :: 0 <= i < MAX_CONTROLLERS ==>
        GamepadStates[i] == GamepadState(false, 0) && PreviousGamepadStates[i] == GamepadState(false, 0)
      ensures MouseWheelDelta == 0.0
    {
      KeyStates := new bool[NUM_KEYS](_ => false);
      PreviousKeyStates := new bool[NUM_KEYS](_ => false);
      MouseButtons := new bool[MAX_MOUSE_BUTTONS](_ => false);
      PreviousMouseButtons := new bool[MAX_MOUSE_BUTTONS](_ => false);
      GamepadStates := new GamepadState[MAX_CONTROLLERS](_ => GamepadState(false, 0));
      PreviousGamepadStates := new GamepadState[MAX_CONTROLLERS](_ => GamepadState(false, 0));
      MouseWheelDelta := 0.0;
    }

    /** `IsKeyDown`: false for a code outside [0, 256). */
    function IsKeyDown(code: int): (r: bool)
      requires Valid()
      reads this, KeyStates
      ensures r ==> 0 <= code < NUM_KEYS
    {
      0 <= code < NUM_KEYS && KeyStates[code]
    }

    /** `IsKeyReleased`: up now, down in the last frame. */
    function IsKeyReleased(code: int): (r: bool)
      requires Valid()
      reads this, KeyStates, PreviousKeyStates
      ensures r ==> 0 <= code < NUM_KEYS && !IsKeyDown(code)
    {
      0 <= code < NUM_KEYS && !KeyStates[code] && PreviousKeyStates[code]
    }

    /** `IsKeyPressed`: down now, up in the last frame; never at the same time
        as released. */
    function IsKeyPressed(code: int): (r: bool)
      requires Valid()
      reads this, KeyStates, PreviousKeyStates
      ensures r ==> IsKeyDown(code) && !IsKeyReleased(code)
    {
      0 <= code < NUM_KEYS && KeyStates[code] && !PreviousKeyStates[code]
    }

    /** `IsMouseButtonDown`: false for a button at or beyond `MaxMouseButtons`. */
    function IsMouseButtonDown(button: nat): (r: bool)
      requires Valid()
      reads this, MouseButtons
      ensures r ==> button < MAX_MOUSE_BUTTONS
    {
      button < MAX_MOUSE_BUTTONS && MouseButtons[button]
    }

    function IsMouseButtonReleased(button: nat): (r: bool)
      requires Valid()
      reads this, MouseButtons, PreviousMouseButtons
      ensures r ==> button < MAX_MOUSE_BUTTONS && !IsMouseButtonDown(button)
    {
      button < MAX_MOUSE_BUTTONS && !MouseButtons[button] && PreviousMouseButtons[button]
    }

    function IsMouseButtonPressed(button: nat): (r: bool)
      requires Valid()
      reads this, MouseButtons, PreviousMouseButtons
      ensures r ==> IsMouseButtonDown(button) && !IsMouseButtonReleased(button)
    {
      button < MAX_MOUSE_BUTTONS && MouseButtons[button] && !PreviousMouseButtons[button]
    }

    /** `IsGamepadConnected`: false for an index outside [0, 4). */
    function IsGamepadConnected(index: int): (r: bool)
      requires Valid()
      reads this, GamepadStates
      ensures r ==> 0 <= index < MAX_CONTROLLERS
    {
      0 <= index < MAX_CONTROLLERS && GamepadStates[index].Connected
    }

    /** `IsGamepadButtonDown`: the controller is connected and one of the
        button's bits is set. */
    function IsGamepadButtonDown(button: bv16, index: int): (r: bool)
      requires Valid()
      reads this, GamepadStates
      ensures r ==> IsGamepadConnected(index) && button != 0
    {
      IsGamepadConnected(index) && GamepadStates[index].Buttons & button != 0
    }

    function IsGamepadButtonReleased(button: bv16, index: int): (r: bool)
      requires Valid()
      reads this, GamepadStates, PreviousGamepadStates
      ensures r ==> IsGamepadConnected(index) && !IsGamepadButtonDown(button, index)
    {
      IsGamepadConnected(index) && GamepadStates[index].Buttons & button == 0 &&
      PreviousGamepadStates[index].Buttons & button != 0
    }

    function IsGamepadButtonPressed(button: bv16, index: int): (r: bool)
      requires Valid()
      reads this, GamepadStates, PreviousGamepadStates
      ensures r ==> IsGamepadButtonDown(button, index) && !IsGamepadButtonReleased(button, index)
    {
      IsGamepadConnected(index) && GamepadStates[index].Buttons & button != 0 &&
      PreviousGamepadStates[index].Buttons & button == 0
    }

    /** `UpdateKeyState`: writes an in-range slot; anything else is ignored. */
    method UpdateKeyState(code: int, pressed: bool)
      requires Valid()
      modifies KeyStates
      ensures KeyStates[..] == SetSlot(old(KeyStates[..]), code, pressed)
    {
      if 0 <= code < NUM_KEYS {
        KeyStates[code] := pressed;
      }
    }

    /** `UpdateMouseButton`: writes a slot below `MaxMouseButtons`. */
    method UpdateMouseButton(button: nat, pressed: bool)
      requires Valid()
      modifies MouseButtons
      ensures MouseButtons[..] == SetSlot(old(MouseButtons[..]), button, pressed)
    {
      if button < MAX_MOUSE_BUTTONS {
        MouseButtons[button] := pressed;
      }
    }

    /** `ResetAllKeyStates`: releases every key; the last frame's states stay,
        so a key held before shows as released. */
    method ResetAllKeyStates()
      requires Valid()
      modifies KeyStates
      ensures forall k :: 0 <= k < NUM_KEYS ==> !KeyStates[k]
      ensures forall k :: 0 <= k < NUM_KEYS ==> (IsKeyReleased(k) <==> PreviousKeyStates[k])
    {
      var i := 0;
      while i < NUM_KEYS
        invariant 0 <= i <= NUM_KEYS
        invariant forall k :: 0 <= k < i ==> !KeyStates[k]
      {
        KeyStates[i] := false;
        i := i + 1;
      }
    }

    /** `ProcessMessage` on the button state: the change each message makes,
        given whether the UI hovers and whether it captures the keyboard. */
    method ProcessMessage(msg: Message, uiHover: bool, keyboardCapture: bool)
      requires Valid()
      modifies this, KeyStates, MouseButtons
      ensures Valid()
      ensures KeyStates == old(KeyStates) && MouseButtons == old(MouseButtons)
      ensures PreviousKeyStates == old(PreviousKeyStates) && PreviousMouseButtons == old(PreviousMouseButtons)
      ensures GamepadStates == old(GamepadStates) && PreviousGamepadStates == old(PreviousGamepadStates)
      ensures KeyStates[..] == KeysAfter(msg, uiHover, keyboardCapture, old(KeyStates[..]))
      ensures MouseButtons[..] == ButtonsAfter(msg, uiHover, old(MouseButtons[..]))
      ensures MouseWheelDelta == WheelAfter(msg, uiHover, old(MouseWheelDelta))
    {
      match msg {
        case KeyDown(code) =>
          if !keyboardCapture && !uiHover {
            UpdateKeyState(code, true);
          }
        case KeyUp(code) =>
          if !keyboardCapture {
            UpdateKeyState(code, false);
          }
        case MouseWheel(delta) =>
          if !uiHover {
            MouseWheelDelta := delta as real / WHEEL_DELTA as real;
          }
        case KillFocus =>
          ResetAllKeyStates();
          assert KeyStates[..] == seq(NUM_KEYS, _ => false);
        case OtherMessage =>
        case _ =>
          if !uiHover && ButtonOf(msg).Some? {
            UpdateMouseButton(ButtonOf(msg).value.0, ButtonOf(msg).value.1);
          }
      }
    }

    /** `Update` on the button state: the wheel delta is cleared, the current
        key and button states become the last frame's, and each gamepad's last
        state is its current one before it is overwritten by this frame's
        poll (`None` for a controller that did not answer). Afterwards nothing
        is pressed or released. */
    method Update(polled: seq<Option<bv16>>)
      requires Valid() && |polled| == MAX_CONTROLLERS
      modifies this, PreviousKeyStates, PreviousMouseButtons, GamepadStates, PreviousGamepadStates
      ensures Valid()
      ensures KeyStates == old(KeyStates) && PreviousKeyStates == old(PreviousKeyStates)
      ensures MouseButtons == old(MouseButtons) && PreviousMouseButtons == old(PreviousMouseButtons)
      ensures GamepadStates == old(GamepadStates) && PreviousGamepadStates == old(PreviousGamepadStates)
      ensures MouseWheelDelta == 0.0
      ensures PreviousKeyStates[..] == KeyStates[..] == old(KeyStates[..])
      ensures PreviousMouseButtons[..] == MouseButtons[..] == old(MouseButtons[..])
      ensures PreviousGamepadStates[..] == old(GamepadStates[..])
      ensures forall i :: 0 <= i < MAX_CONTROLLERS ==>
        GamepadStates[i] == (if polled[i].Some? then GamepadState(true, polled[i].value) else GamepadState(false, 0))
      ensures forall k :: !IsKeyPressed(k) && !IsKeyReleased(k)
      ensures forall b: nat :: !IsMouseButtonPressed(b) && !IsMouseButtonReleased(b)
    {
      MouseWheelDelta := 0.0;
      UpdateGamepadStates(polled);
      forall b | 0 <= b < MAX_MOUSE_BUTTONS {
        PreviousMouseButtons[b] := MouseButtons[b];
      }
      forall k | 0 <= k < NUM_KEYS {
        PreviousKeyStates[k] := KeyStates[k];
      }
    }

    /** `UpdateGamepadStates`: for each controller, keeps its state as the last
        one and stores this frame's poll. */
    method UpdateGamepadStates(polled: seq<Option<bv16>>)
      requires Valid() && |polled| == MAX_CONTROLLERS
      modifies GamepadStates, PreviousGamepadStates
      ensures PreviousGamepadStates[..] == old(GamepadStates[..])
      ensures forall i :: 0 <= i < MAX_CONTROLLERS ==>
        GamepadStates[i] == (if polled[i].Some? then GamepadState(true, polled[i].value) else GamepadState(false, 0))
    {
      var i := 0;
      while i < MAX_CONTROLLERS
        invariant 0 <= i <= MAX_CONTROLLERS
        invariant forall j :: 0 <= j < i ==> PreviousGamepadStates[j] == old(GamepadStates[j])
        invariant forall j :: i <= j < MAX_CONTROLLERS ==> GamepadStates[j] == old(GamepadStates[j])
        invariant forall j :: 0 <= j < i ==>
          GamepadStates[j] == (if polled[j].Some? then GamepadState(true, polled[j].value) else GamepadState(false, 0))
      {
        PreviousGamepadStates[i] := GamepadStates[i];
        GamepadStates[i] := if polled[i].Some? then GamepadState(true, polled[i].value) else GamepadState(false, 0);
        i := i + 1;
      }
    }
  }
}
