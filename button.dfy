/** The press tracking of `DuolingoButton`: the `isPressed` state, the
    `awaitPointerEvent` loop that drives it, and the elevation it selects. */
module DuolingoButton {

  /** The pointer event types; only `Press`, `Release` and `Exit` are handled. */
  datatype PointerEventType = Press | Release | Move | Enter | Exit | Scroll | Unknown

  /** One pass of the `when (event.type)`: the pressed flag afterwards and
      whether `onClick` was invoked. */
  function Step(pressed: bool, eventType: PointerEventType): (r: (bool, bool))
    ensures r.1 ==> pressed && !r.0
    ensures r.0 && !pressed ==> eventType == Press
    ensures eventType == Press ==> r.0 && !r.1
    ensures eventType == Release ==> !r.0 && r.1 == pressed
    ensures eventType == Exit ==> !r.0 && !r.1
    ensures eventType !in {Press, Release, Exit} ==> r == (pressed, false)
  {
    match eventType
    case Press => (true, false)
    case Release => if pressed then (false, true) else (pressed, false)
    case Exit => (false, false)
    case _ => (pressed, false)
  }

  /** The pressed flag after `events`, starting from `pressed`, and how many
      clicks they produced. */
  function Run(pressed: bool, events: seq<PointerEventType>): (bool, nat)
  {
    if events == [] then (pressed, 0)
    else
      var (before, clicks) := Run(pressed, events[..|events| - 1]);
      var (after, clicked) := Step(before, events[|events| - 1]);
      (after, if clicked then clicks + 1 else clicks)
  }

  /** How many of `events` are `Press` events. */
  function CountPresses(events: seq<PointerEventType>): nat
  {
    if events == [] then 0
    else CountPresses(events[..|events| - 1]) + (if events[|events| - 1] == Press then 1 else 0)
  }

  function Ord(b: bool): nat { if b then 1 else 0 }

  /** Every click uses up one press, either one of the events or the pressed
      state the run started in, and a button still pressed at the end holds
      one more. */
  lemma {:induction false} ClicksAtMostPresses(pressed: bool, events: seq<PointerEventType>)
    ensures Run(pressed, events).1 + Ord(Run(pressed, events).0) <= CountPresses(events) + Ord(pressed)
  {
    if events != [] {
      ClicksAtMostPresses(pressed, events[..|events| - 1]);
    }
  }

  /** From the initial, unpressed state no event sequence yields more clicks
      than it has `Press` events. */
  lemma ClicksNeverExceedPresses(events: seq<PointerEventType>)
    ensures Run(false, events).1 <= CountPresses(events)
  {
    ClicksAtMostPresses(false, events);
  }

  /** `isPressed = remember { mutableStateOf(false) }`. */
  class PressedState {
    var value: bool

    constructor ()
      ensures !value
    {
      value := false;
    }
  }

  /** The body of the event loop for one event. */
  method HandlePointerEvent(isPressed: PressedState, eventType: PointerEventType) returns (clicked: bool)
    modifies isPressed
    ensures (isPressed.value, clicked) == Step(old(isPressed.value), eventType)
  {
    clicked := false;
    match eventType {
      case Press =>
        isPressed.value := true;
      case Release =>
        if isPressed.value {
          isPressed.value := false;
          clicked := true;
        }
      case Exit =>
        isPressed.value := false;
      case _ =>
    }
  }

  /** The `while (true)` loop over the events that arrive, counting the
      `onClick` invocations. */
  method AwaitPointerEvents(isPressed: PressedState, events: seq<PointerEventType>) returns (clicks: nat)
    modifies isPressed
    ensures (isPressed.value, clicks) == Run(old(isPressed.value), events)
    ensures !old(isPressed.value) ==> clicks <= CountPresses(events)
  {
    clicks := 0;
    var i := 0;
    while i < |events|
      invariant 0 <= i <= |events|
      invariant (isPressed.value, clicks) == Run(old(isPressed.value), events[..i])
    {
      var clicked := HandlePointerEvent(isPressed, events[i]);
      if clicked {
        clicks := clicks + 1;
      }
      assert events[..i + 1][..i] == events[..i];
      i := i + 1;
    }
    assert events[..i] == events;
    ClicksAtMostPresses(old(isPressed.value), events);
  }

  /** `targetValue = if (isPressed.value) shadowSize else 0.dp`. */
  function ElevationTarget(pressed: bool, shadowSize: int): (r: int)
    ensures r == shadowSize || r == 0
    ensures r == shadowSize <==> pressed || shadowSize == 0
  {
    if pressed then shadowSize else 0
  }

  /** After a `Press` the button is lowered by the shadow size, after a
      `Release` or `Exit` it is back at 0, and any other event keeps its
      height. */
  lemma ElevationAfterEvent(pressed: bool, eventType: PointerEventType, shadowSize: int)
    ensures eventType == Press ==> ElevationTarget(Step(pressed, eventType).0, shadowSize) == shadowSize
    ensures eventType in {Release, Exit} ==> ElevationTarget(Step(pressed, eventType).0, shadowSize) == 0
    ensures eventType !in {Press, Release, Exit} ==>
      ElevationTarget(Step(pressed, eventType).0, shadowSize) == ElevationTarget(pressed, shadowSize)
  {
  }
}
