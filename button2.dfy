/** The gesture logic of `DuolingoButton2`: `DuolingoButtonState` and
    `handleMotionEvent`. The shadow offset is kept in whole dp. */
module DuolingoButton2 {

  /** `DuolingoButtonDefaults.shadowSize` (4.dp). */
  const SHADOW_SIZE: int := 4

  /** The `MotionEvent` action codes the handler tests. */
  const ACTION_DOWN: int := 0
  const ACTION_UP: int := 1
  const ACTION_MOVE: int := 2
  const ACTION_CANCEL: int := 3

  /** A touch event: its action code and its coordinates relative to the button. */
  datatype MotionEvent = MotionEvent(action: int, x: real, y: real)

  datatype IntSize = IntSize(width: int, height: int)

  /** Kotlin `Float.toInt()`: rounds toward zero. */
  function ToInt(x: real): (n: int)
    ensures 0.0 <= x ==> n as real <= x < n as real + 1.0
    ensures x < 0.0 ==> n as real - 1.0 < x <= n as real
  {
    if x >= 0.0 then x.Floor else -((-x).Floor)
  }

  /** `event.x.toInt() in 0..width && event.y.toInt() in 0..height`. */
  predicate IsInBounds(event: MotionEvent, size: IntSize)
  {
    0 <= ToInt(event.x) <= size.width && 0 <= ToInt(event.y) <= size.height
  }

  /** Because of the truncation, the area that counts as "in bounds" reaches
      just under one pixel beyond each edge of the button. */
  lemma InBoundsArea(event: MotionEvent, size: IntSize)
    requires 0 <= size.width && 0 <= size.height
    ensures IsInBounds(event, size) <==>
      && -1.0 < event.x < size.width as real + 1.0
      && -1.0 < event.y < size.height as real + 1.0
  {
  }

  /** `DuolingoButtonState`: the pressed flag, the measured size and the
      target of the press-down offset animation. */
  class DuolingoButtonState {
    var isPressed: bool
    var btnSize: IntSize
    var animatedY: int

    /** The offset is the shadow size exactly when the button is pressed. */
    ghost predicate Valid()
      reads this
    {
      animatedY == if isPressed then SHADOW_SIZE else 0
    }

    constructor ()
      ensures Valid()
      ensures !isPressed && animatedY == 0 && btnSize == IntSize(0, 0)
    {
      isPressed := false;
      btnSize := IntSize(0, 0);
      animatedY := 0;
    }
  }

  /** `onGloballyPositioned { buttonState.btnSize = it.size }`. */
  method OnGloballyPositioned(buttonState: DuolingoButtonState, size: IntSize)
    requires buttonState.Valid()
    modifies buttonState`btnSize
    ensures buttonState.Valid() && buttonState.btnSize == size
  {
    buttonState.btnSize := size;
  }

  /** `handleMotionEvent`: DOWN presses, UP and CANCEL release, MOVE presses
      or releases so that the button is pressed exactly while the pointer is
      in bounds, and any other action changes nothing. Only an UP in bounds
      clicks, and every event is consumed. */
  method HandleMotionEvent(event: MotionEvent, buttonState: DuolingoButtonState)
      returns (consumed: bool, clicked: bool)
    requires buttonState.Valid()
    modifies buttonState`isPressed, buttonState`animatedY
    ensures buttonState.Valid() && consumed
    ensures clicked <==> event.action == ACTION_UP && IsInBounds(event, buttonState.btnSize)
    ensures event.action == ACTION_DOWN ==> buttonState.isPressed
    ensures event.action == ACTION_UP || event.action == ACTION_CANCEL ==> !buttonState.isPressed
    ensures event.action == ACTION_MOVE ==> buttonState.isPressed == IsInBounds(event, buttonState.btnSize)
    ensures event.action !in {ACTION_DOWN, ACTION_UP, ACTION_MOVE, ACTION_CANCEL} ==>
      buttonState.isPressed == old(buttonState.isPressed)
  {
    var isInBounds := IsInBounds(event, buttonState.btnSize);
    clicked := false;
    if event.action == ACTION_DOWN {
      buttonState.isPressed := true;
      buttonState.animatedY := SHADOW_SIZE;
    } else if event.action == ACTION_UP {
      buttonState.isPressed := false;
      buttonState.animatedY := 0;
      if isInBounds {
        clicked := true;
      }
    } else if event.action == ACTION_CANCEL {
      buttonState.isPressed := false;
      buttonState.animatedY := 0;
    } else if event.action == ACTION_MOVE {
      if !isInBounds && buttonState.isPressed {
        buttonState.isPressed := false;
        buttonState.animatedY := 0;
      } else if isInBounds && !buttonState.isPressed {
        buttonState.isPressed := true;
        buttonState.animatedY := SHADOW_SIZE;
      }
    }
    consumed := true;
  }
}
