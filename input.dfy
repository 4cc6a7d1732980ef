/** Keyboard and mouse state tracked from window events, with edge detection
    between the current frame and the previous one (engine/src/input.rs). */
module Input {
  import opened Wrappers

  /** A keyboard key as reported by the windowing layer. */
  datatype KeyCode = KeyCode(code: nat)

  /** A key is either a known key code or a platform scan code without one. */
  datatype PhysicalKey = Code(key: KeyCode) | Unidentified(native: nat)

  datatype MouseButton = Left | Right | Middle | Back | Forward | Other(id: nat)

  datatype ElementState = Pressed | Released

  /** Cursor positions and window sizes are `f64` pairs; no arithmetic is done on them here. */
  type Position = (real, real)

  /** The window events the input state reacts to; everything else is `OtherEvent`. */
  datatype WindowEvent =
    | KeyboardInput(state: ElementState, physicalKey: PhysicalKey)
    | MouseInput(state: ElementState, button: MouseButton)
    | CursorMoved(x: real, y: real)
    | OtherEvent

  /** What one press or release does to a set of held items. */
  function Apply<T(==,!new)>(held: set<T>, state: ElementState, item: T): (r: set<T>)
    ensures item in r <==> state == Pressed
    ensures forall other :: other != item ==> (other in r <==> other in held)
  {
    if state == Pressed then held + {item} else held - {item}
  }

  /** An optional change: `None` leaves the set alone. */
  function Step<T(==,!new)>(held: set<T>, change: Option<(ElementState, T)>): set<T> {
    match change
    case None => held
    case Some((state, item)) => Apply(held, state, item)
  }

  /** The key change a window event carries: only keyboard events with a known key code. */
  function KeyChange(event: WindowEvent): (r: Option<(ElementState, KeyCode)>)
    ensures r.Some? <==> event.KeyboardInput? && event.physicalKey.Code?
    ensures r.Some? ==> r.value == (event.state, event.physicalKey.key)
  {
    match event
    case KeyboardInput(state, Code(key)) => Some((state, key))
    case _ => None
  }

  /** The mouse-button change a window event carries. */
  function MouseChange(event: WindowEvent): (r: Option<(ElementState, MouseButton)>)
    ensures r.Some? <==> event.MouseInput?
    ensures r.Some? ==> r.value == (event.state, event.button)
  {
    match event
    case MouseInput(state, button) => Some((state, button))
    case _ => None
  }

  /** What a window event does to the remembered cursor position. */
  function CursorStep(position: Option<Position>, event: WindowEvent): (r: Option<Position>)
    ensures event.CursorMoved? ==> r == Some((event.x, event.y))
    ensures !event.CursorMoved? ==> r == position
  {
    match event
    case CursorMoved(x, y) => Some((x, y))
    case _ => position
  }

  /** A change that concerns `item`. */
  predicate Touches<T(==,!new)>(change: Option<(ElementState, T)>, item: T) {
    change.Some? && change.value.1 == item
  }

  /** The set after a sequence of changes, applied in order. */
  function Replay<T(==,!new)>(held: set<T>, changes: seq<Option<(ElementState, T)>>): set<T> {
    if changes == [] then held
    else Step(Replay(held, changes[..|changes| - 1]), changes[|changes| - 1])
  }

  function KeyChanges(events: seq<WindowEvent>): (r: seq<Option<(ElementState, KeyCode)>>)
    ensures |r| == |events| && forall i :: 0 <= i < |events| ==> r[i] == KeyChange(events[i])
  {
    seq(|events|, i requires 0 <= i < |events| => KeyChange(events[i]))
  }

  function MouseChanges(events: seq<WindowEvent>): (r: seq<Option<(ElementState, MouseButton)>>)
    ensures |r| == |events| && forall i :: 0 <= i < |events| ==> r[i] == MouseChange(events[i])
  {
    seq(|events|, i requires 0 <= i < |events| => MouseChange(events[i]))
  }

  /** The remembered cursor position after a sequence of events. */
  function CursorAfter(position: Option<Position>, events: seq<WindowEvent>): Option<Position> {
    if events == [] then position
    else CursorStep(CursorAfter(position, events[..|events| - 1]), events[|events| - 1])
  }

  /** Pressing or releasing the same item twice in a row is the same as doing it once. */
  lemma ApplyIdempotent<T(!new)>(held: set<T>, state: ElementState, item: T)
    ensures Apply(Apply(held, state, item), state, item) == Apply(held, state, item)
  {
  }

  /** An item no change concerns keeps the membership it had before. */
  lemma {:induction false} ReplayUntouched<T(!new)>(held: set<T>, changes: seq<Option<(ElementState, T)>>, item: T)
    requires forall i :: 0 <= i < |changes| ==> !Touches(changes[i], item)
    ensures item in Replay(held, changes) <==> item in held
  {
    if changes != [] {
      var front := changes[..|changes| - 1];
      assert forall i :: 0 <= i < |front| ==> front[i] == changes[i];
      ReplayUntouched(held, front, item);
    }
  }

  /** Otherwise the item is held exactly when the last change concerning it is a press. */
  lemma {:induction false} ReplayLastChange<T(!new)>(held: set<T>, changes: seq<Option<(ElementState, T)>>, item: T, i: nat)
    requires i < |changes| && Touches(changes[i], item)
    requires forall j :: i < j < |changes| ==> !Touches(changes[j], item)
    ensures item in Replay(held, changes) <==> changes[i].value.0 == Pressed
  {
    var front := changes[..|changes| - 1];
    if i < |changes| - 1 {
      assert forall j :: i < j < |front| ==> front[j] == changes[j];
      ReplayLastChange(held, front, item, i);
    }
  }

  /** With no `CursorMoved` event the remembered position stays as it was. */
  lemma {:induction false} CursorAfterNoMove(position: Option<Position>, events: seq<WindowEvent>)
    requires forall i :: 0 <= i < |events| ==> !events[i].CursorMoved?
    ensures CursorAfter(position, events) == position
  {
    if events != [] {
      var front := events[..|events| - 1];
      assert forall i :: 0 <= i < |front| ==> front[i] == events[i];
      CursorAfterNoMove(position, front);
    }
  }

  /** Otherwise the remembered position is that of the last `CursorMoved` event. */
  lemma {:induction false} CursorAfterLastMove(position: Option<Position>, events: seq<WindowEvent>, i: nat)
    requires i < |events| && events[i].CursorMoved?
    requires forall j :: i < j < |events| ==> !events[j].CursorMoved?
    ensures CursorAfter(position, events) == Some((events[i].x, events[i].y))
  {
    var front := events[..|events| - 1];
    if i == |events| - 1 {
    } else {
      assert forall j :: i < j < |front| ==> front[j] == events[j];
      CursorAfterLastMove(position, front, i);
    }
  }

  /** The input state the event loop keeps for the application. */
  class Input {
    var keysPressed: set<KeyCode>
    var prevKeysPressed: set<KeyCode>
    var mousePressed: set<MouseButton>
    var prevMousePressed: set<MouseButton>
    var mousePosition: Option<Position>
    var windowSize: (real, real)
    var virtualSize: (real, real)

    /** Nothing held, no cursor seen, and the virtual size fixed to the initial window size. */
    constructor (windowSize: (real, real))
      ensures keysPressed == {} && prevKeysPressed == {}
      ensures mousePressed == {} && prevMousePressed == {}
      ensures mousePosition == None
      ensures this.windowSize == windowSize && virtualSize == windowSize
    {
      keysPressed := {};
      prevKeysPressed := {};
      mousePressed := {};
      prevMousePressed := {};
      mousePosition := None;
      this.windowSize := windowSize;
      virtualSize := windowSize;
    }

    /** Records one window event: key and button presses and releases, and cursor moves. */
    method UpdateInputs(event: WindowEvent)
      modifies this
      ensures keysPressed == Step(old(keysPressed), KeyChange(event))
      ensures mousePressed == Step(old(mousePressed), MouseChange(event))
      ensures mousePosition == CursorStep(old(mousePosition), event)
      ensures prevKeysPressed == old(prevKeysPressed) && prevMousePressed == old(prevMousePressed)
      ensures windowSize == old(windowSize) && virtualSize == old(virtualSize)
    {
      if event.KeyboardInput? && event.physicalKey.Code? {
        var key := event.physicalKey.key;
        match event.state
        case Pressed => keysPressed := keysPressed + {key};
        case Released => keysPressed := keysPressed - {key};
      }
      if event.MouseInput? {
        match event.state
        case Pressed => mousePressed := mousePressed + {event.button};
        case Released => mousePressed := mousePressed - {event.button};
      }
      if event.CursorMoved? {
        mousePosition := Some((event.x, event.y));
      }
    }

    /** End of frame: the current sets become the previous ones, so no edge is pending. */
    method PrevUpdate()
      modifies this`prevKeysPressed, this`prevMousePressed
      ensures prevKeysPressed == keysPressed && prevMousePressed == mousePressed
      ensures forall key :: !IsKeyPressed(key)
      ensures forall button :: !IsMousePressed(button)
    {
      prevKeysPressed := keysPressed;
      prevMousePressed := mousePressed;
    }

    /** A window resize changes the live window size only. */
    method UpdateScreen(size: (real, real))
      modifies this`windowSize
      ensures windowSize == size
    {
      windowSize := size;
    }

    /** Held now: pressed and not released since. */
    predicate IsKeyHold(key: KeyCode)
      reads this
      ensures IsKeyHold(key) <==> key in keysPressed
    {
      key in keysPressed
    }

    /** Held now and not held at the end of the previous frame. */
    predicate IsKeyPressed(key: KeyCode)
      reads this
      ensures IsKeyPressed(key) ==> IsKeyHold(key)
      ensures IsKeyPressed(key) <==> IsKeyHold(key) && key !in prevKeysPressed
    {
      key in keysPressed && key !in prevKeysPressed
    }

    predicate IsMouseHold(button: MouseButton)
      reads this
      ensures IsMouseHold(button) <==> button in mousePressed
    {
      button in mousePressed
    }

    predicate IsMousePressed(button: MouseButton)
      reads this
      ensures IsMousePressed(button) ==> IsMouseHold(button)
      ensures IsMousePressed(button) <==> IsMouseHold(button) && button !in prevMousePressed
    {
      button in mousePressed && button !in prevMousePressed
    }

    /** The last cursor position seen, or the origin before any. */
    function ActualMousePosition(): (r: Position)
      reads this
      ensures mousePosition.None? ==> r == (0.0, 0.0)
      ensures mousePosition.Some? ==> r == mousePosition.value
    {
      mousePosition.GetOr((0.0, 0.0))
    }
  }
}
