/** `ButtonControl`: a push or toggle button driven by the mouse. */
module ButtonControls {
  import opened Options
  import opened Geometry
  import opened Controls

  /** An action object: the do-nothing default or one supplied by the user. */
  datatype Action = NoAction | UserAction(id: nat)

  /** The three callback slots of a button. */
  datatype Callback = OnClick | WhileHeld | OnRelease

  /** A mouse position. */
  datatype Vector2 = Vector2(x: int, y: int)

  /** Which style the button paints with. */
  datatype PainterKey = Default | Hovered | Held

  /** What a button does to the outside world: run the action stored in a
      callback slot, or play its click sound. */
  datatype ButtonEvent = Run(slot: Callback, action: Action) | PlaySound(sound: nat)

  /** No run of the held action in `es` does anything. */
  predicate HeldIdle(es: seq<ButtonEvent>)
  {
    forall e :: e in es && e.Run? && e.slot == WhileHeld ==> e.action == NoAction
  }

  /** `GLFW_MOUSE_BUTTON_LEFT`. */
  const LeftButton := 0

  /** The press started on the button: a press position exists and lies in
      the area with all four edges included. */
  predicate PressOnButton(pressPose: Option<Vector2>, area: Rect)
  {
    pressPose.Some? && WithinInclusive(area, pressPose.value.x, pressPose.value.y)
  }

  /** The state machine of `interact`: from whether the button is a toggle,
      whether it was held, whether it is captured, the mouse flags and
      whether the press started on it, the new held flag and the callbacks
      fired, in order. */
  function Step(toggleable: bool, held: bool, captured: bool, clicked: bool, mouseHeld: bool,
                pressOn: bool): (r: (bool, seq<Callback>))
  {
    if toggleable then
      var held' := if captured && clicked then !held else held;
      var first := if captured && clicked then [if held' && pressOn then OnClick else OnRelease] else [];
      (held', first + (if held' then [WhileHeld] else []))
    else if captured then
      if mouseHeld then
        if !held && pressOn then (true, [OnClick, WhileHeld]) else (held, [WhileHeld])
      else (false, [OnRelease])
    else if held then (false, [OnRelease])
    else (false, [])
  }

  /** The cases of the state machine. Toggle: the held flag flips exactly
      on a captured click, the flip fires `OnClick` only when it turns the
      button on and the press started on it (`OnRelease` otherwise), and
      `WhileHeld` fires last on every frame that ends held, captured or not.
      Push button: a captured held mouse fires `OnClick` once when the
      button turns held from a press on it, and `WhileHeld` on every such
      frame; a captured released mouse releases on every frame; losing the
      capture releases once. */
  lemma StepCases(toggleable: bool, held: bool, captured: bool, clicked: bool, mouseHeld: bool, pressOn: bool)
    ensures var (held', fired) := Step(toggleable, held, captured, clicked, mouseHeld, pressOn);
            toggleable ==>
              (held' <==> (if captured && clicked then !held else held)) &&
              (WhileHeld in fired <==> held') &&
              (held' ==> fired[|fired| - 1] == WhileHeld) &&
              (captured && clicked ==> fired[0] == (if held' && pressOn then OnClick else OnRelease)) &&
              (!(captured && clicked) ==> OnClick !in fired && OnRelease !in fired)
    ensures var (held', fired) := Step(toggleable, held, captured, clicked, mouseHeld, pressOn);
            !toggleable ==>
              (captured && mouseHeld ==>
                 held' == (held || pressOn) && fired == (if !held && pressOn then [OnClick] else []) + [WhileHeld]) &&
              (captured && !mouseHeld ==> !held' && fired == [OnRelease]) &&
              (!captured ==> !held' && fired == (if held then [OnRelease] else []))
  {
  }

  /** `painterKey`: held wins over hovered. */
  function KeyFor(held: bool, captured: bool): (k: PainterKey)
    ensures k == Held <==> held
    ensures k == Hovered <==> !held && captured
  {
    if held then Held else if captured then Hovered else Default
  }

  /** The held flag after a run of frames; each frame is (captured, clicked,
      mouseHeld, pressOn). */
  function HeldAfter(toggleable: bool, held: bool, frames: seq<(bool, bool, bool, bool)>): bool
    decreases |frames|
  {
    if frames == [] then held
    else
      var (captured, clicked, mouseHeld, pressOn) := frames[0];
      HeldAfter(toggleable, Step(toggleable, held, captured, clicked, mouseHeld, pressOn).0, frames[1..])
  }

  /** The callbacks fired over a run of frames. */
  function Fired(toggleable: bool, held: bool, frames: seq<(bool, bool, bool, bool)>): seq<Callback>
    decreases |frames|
  {
    if frames == [] then []
    else
      var (captured, clicked, mouseHeld, pressOn) := frames[0];
      var (held', fired) := Step(toggleable, held, captured, clicked, mouseHeld, pressOn);
      fired + Fired(toggleable, held', frames[1..])
  }

  /** The number of frames that are captured clicks. */
  function CapturedClicks(frames: seq<(bool, bool, bool, bool)>): nat
    decreases |frames|
  {
    if frames == [] then 0 else (if frames[0].0 && frames[0].1 then 1 else 0) + CapturedClicks(frames[1..])
  }

  /** The number of `OnClick` callbacks in a sequence. */
  function Clicks(cs: seq<Callback>): nat
    decreases |cs|
  {
    if cs == [] then 0 else (if cs[0] == OnClick then 1 else 0) + Clicks(cs[1..])
  }

  lemma {:induction false} ClicksAppend(a: seq<Callback>, b: seq<Callback>)
    ensures Clicks(a + b) == Clicks(a) + Clicks(b)
    decreases |a|
  {
    if a == [] {
      assert a + b == b;
    } else {
      assert (a + b)[1..] == a[1..] + b;
      ClicksAppend(a[1..], b);
    }
  }

  /** A toggle button's state after any run of frames is its initial state
      flipped once per captured click. */
  lemma {:induction false} ToggleParity(held: bool, frames: seq<(bool, bool, bool, bool)>)
    ensures HeldAfter(true, held, frames) == (if CapturedClicks(frames) % 2 == 0 then held else !held)
    decreases |frames|
  {
    if frames != [] {
      var (captured, clicked, mouseHeld, pressOn) := frames[0];
      ToggleParity(Step(true, held, captured, clicked, mouseHeld, pressOn).0, frames[1..]);
    }
  }

  /** Holding a push button on it, frame after frame, fires exactly one
      `OnClick` (none if it was already held) and keeps it held. */
  lemma {:induction false} HoldFiresClickOnce(held: bool, frames: seq<(bool, bool, bool, bool)>)
    requires |frames| > 0
    requires forall k :: 0 <= k < |frames| ==> frames[k] == (true, frames[k].1, true, true)
    ensures Clicks(Fired(false, held, frames)) == (if held then 0 else 1)
    ensures HeldAfter(false, held, frames)
    decreases |frames|
  {
    var (captured, clicked, mouseHeld, pressOn) := frames[0];
    var (held', fired) := Step(false, held, captured, clicked, mouseHeld, pressOn);
    assert held';
    ClicksAppend(fired, Fired(false, held', frames[1..]));
    assert Clicks(fired) == (if held then 0 else 1) by {
      assert fired == (if held then [WhileHeld] else [OnClick, WhileHeld]);
    }
    if |frames| > 1 {
      HoldFiresClickOnce(held', frames[1..]);
    }
  }

  /** `List.remove(Object)`: the first occurrence of `x` taken out, if any. */
  function RemoveFirst<T(==)>(s: seq<T>, x: T): (r: seq<T>)
    ensures x !in s ==> r == s
    ensures x in s ==> r == s[..IndexOf(s, x)] + s[IndexOf(s, x) + 1..]
    decreases |s|
  {
    if s == [] then []
    else if s[0] == x then s[1..]
    else
      var rest := RemoveFirst(s[1..], x);
      assert s == [s[0]] + s[1..];
      assert x in s <==> x in s[1..];
      assert x in s[1..] ==> IndexOf(s, x) == 1 + IndexOf(s[1..], x);
      assert x in s[1..] ==> [s[0]] + s[1..][..IndexOf(s[1..], x)] == s[..IndexOf(s, x)];
      assert x in s[1..] ==> s[1..][IndexOf(s[1..], x) + 1..] == s[IndexOf(s, x) + 1..];
      [s[0]] + rest
  }

  /** Removing takes exactly one copy of `x` out of the list, if there is one. */
  lemma {:induction false} RemoveFirstCount<T>(s: seq<T>, x: T)
    ensures multiset(RemoveFirst(s, x)) == multiset(s) - multiset{x}
    decreases |s|
  {
    if s != [] {
      assert s == [s[0]] + s[1..];
      if s[0] != x {
        RemoveFirstCount(s[1..], x);
      }
    }
  }

  /** The global listener list: every button registers itself when built. */
  class ClientListeners {
    var mouseButtonListeners: seq<ButtonControl>

    constructor ()
      ensures mouseButtonListeners == []
    {
      mouseButtonListeners := [];
    }
  }

  /** Registering a button and cleaning it up restores the list it was
      registered in. */
  lemma RegisterThenCleanup<T>(s: seq<T>, x: T)
    requires x !in s
    ensures RemoveFirst(s + [x], x) == s
  {
    var t := s + [x];
    assert t[|s|] == x;
    assert forall j :: 0 <= j < |s| ==> t[j] != x by {
      forall j | 0 <= j < |s| ensures t[j] != x {
        assert t[j] == s[j];
      }
    }
    assert IndexOf(t, x) == |s|;
    assert t[..|s|] == s;
  }

  class ButtonControl {
    const name: string
    var toggleable: bool
    var text: string
    var clickSound: nat
    var onClick: Action
    var whileHeld: Action
    var onRelease: Action
    var mouseClicked: bool
    var mouseHeld: bool
    var buttonHeld: bool
    var mousePose: Option<Vector2>
    var mousePressPose: Option<Vector2>
    var painterKey: PainterKey
    /** The button's true area, as the base control lays it out. */
    var trueArea: Rect
    /** Actions run, sounds played and base-class cleanups so far. */
    ghost var log: seq<ButtonEvent>
    ghost var cleanedUp: bool

    /** No public setter reaches `whileHeld`, so it keeps its do-nothing default. */
    predicate Valid()
      reads this`whileHeld
    {
      whileHeld == NoAction
    }

    /** A new push button with do-nothing actions, appended to the listeners. */
    constructor (listeners: ClientListeners, clickSoundId: nat)
      modifies listeners
      ensures listeners.mouseButtonListeners == old(listeners.mouseButtonListeners) + [this]
      ensures Valid() && name == "button" && !toggleable && text == "" && clickSound == clickSoundId
      ensures onClick == NoAction && onRelease == NoAction
      ensures !mouseClicked && !mouseHeld && !buttonHeld && mousePose == None && mousePressPose == None
      ensures painterKey == Default && log == [] && !cleanedUp
    {
      name := "button";
      toggleable := false;
      text := "";
      clickSound := clickSoundId;
      onClick, whileHeld, onRelease := NoAction, NoAction, NoAction;
      mouseClicked, mouseHeld, buttonHeld := false, false, false;
      mousePose, mousePressPose := None, None;
      painterKey := Default;
      trueArea := Rect(0, 0, 0, 0);
      log := [];
      cleanedUp := false;
      new;
      listeners.mouseButtonListeners := listeners.mouseButtonListeners + [this];
    }

    method SetToggleable(value: bool)
      modifies this`toggleable
      ensures toggleable == value
    {
      toggleable := value;
    }

    function IsToggleable(): (b: bool)
      reads this`toggleable
      ensures b == toggleable
    {
      toggleable
    }

    method SetText(value: string)
      modifies this`text
      ensures text == value
    {
      text := value;
    }

    function GetText(): (t: string)
      reads this`text
      ensures t == text
    {
      text
    }

    method SetClickSound(sound: nat)
      modifies this`clickSound
      ensures clickSound == sound
    {
      clickSound := sound;
    }

    function GetClickSound(): (s: nat)
      reads this`clickSound
      ensures s == clickSound
    {
      clickSound
    }

    method OnClickAction(action: Action)
      modifies this`onClick
      ensures onClick == action
    {
      onClick := action;
    }

    /** `whileHeld`: stores its action in the click slot, not the held slot. */
    method WhileHeldAction(action: Action)
      modifies this`onClick
      ensures onClick == action && whileHeld == old(whileHeld)
    {
      onClick := action;
    }

    method OnReleaseAction(action: Action)
      modifies this`onRelease
      ensures onRelease == action
    {
      onRelease := action;
    }

    /** The action stored in a callback slot. */
    function ActionIn(slot: Callback): Action
      reads this`onClick, this`whileHeld, this`onRelease
    {
      match slot
      case OnClick => onClick
      case WhileHeld => whileHeld
      case OnRelease => onRelease
    }

    /** The events of running the callbacks `cs`, in order. */
    ghost function Runs(cs: seq<Callback>): (es: seq<ButtonEvent>)
      reads this`onClick, this`whileHeld, this`onRelease
      decreases |cs|
    {
      if cs == [] then [] else [Run(cs[0], ActionIn(cs[0]))] + Runs(cs[1..])
    }

    /** While `whileHeld` keeps its default, every held-action run does nothing. */
    lemma {:induction false} HeldRunsAreIdle(cs: seq<Callback>)
      requires Valid()
      ensures HeldIdle(Runs(cs))
      decreases |cs|
    {
      if cs != [] {
        HeldRunsAreIdle(cs[1..]);
        assert Runs(cs) == [Run(cs[0], ActionIn(cs[0]))] + Runs(cs[1..]);
      }
    }

    /** The same, for the runs appended to a log. */
    lemma HeldRunsStayIdle(before: seq<ButtonEvent>, cs: seq<Callback>)
      ensures Valid() ==> HeldIdle((before + Runs(cs))[|before|..])
    {
      assert (before + Runs(cs))[|before|..] == Runs(cs);
      if Valid() {
        HeldRunsAreIdle(cs);
      }
    }

    lemma {:induction false} RunsSnoc(cs: seq<Callback>, c: Callback)
      ensures Runs(cs + [c]) == Runs(cs) + [Run(c, ActionIn(c))]
      decreases |cs|
    {
      if cs == [] {
        assert cs + [c] == [c];
      } else {
        assert (cs + [c])[1..] == cs[1..] + [c];
        RunsSnoc(cs[1..], c);
      }
    }

    /** The toggle branch of `interact`: a captured click flips the held
        flag and fires the click or release action; a held toggle then runs
        its held action. */
    method ToggleStep(captured: bool, pressOnButton: bool)
      modifies this`buttonHeld, this`log
      ensures buttonHeld == Step(true, old(buttonHeld), captured, mouseClicked, mouseHeld, pressOnButton).0
      ensures log == old(log) + Runs(Step(true, old(buttonHeld), captured, mouseClicked, mouseHeld, pressOnButton).1)
      ensures Valid() ==> HeldIdle(log[|old(log)|..])
    {
      HeldRunsStayIdle(log, Step(true, buttonHeld, captured, mouseClicked, mouseHeld, pressOnButton).1);
      ghost var fired: seq<Callback> := [];
      if captured {
        if mouseClicked {
          buttonHeld := !buttonHeld;
          if buttonHeld && pressOnButton {
            log := log + [Run(OnClick, onClick)];
            RunsSnoc(fired, OnClick);
            fired := fired + [OnClick];
          } else {
            log := log + [Run(OnRelease, onRelease)];
            RunsSnoc(fired, OnRelease);
            fired := fired + [OnRelease];
          }
        }
      }
      if buttonHeld {
        log := log + [Run(WhileHeld, whileHeld)];
        RunsSnoc(fired, WhileHeld);
        fired := fired + [WhileHeld];
      }
      assert fired == Step(true, old(buttonHeld), captured, mouseClicked, mouseHeld, pressOnButton).1;
    }

    /** The push-button branch of `interact`. */
    method PushStep(captured: bool, pressOnButton: bool)
      modifies this`buttonHeld, this`log
      ensures buttonHeld == Step(false, old(buttonHeld), captured, mouseClicked, mouseHeld, pressOnButton).0
      ensures log == old(log) + Runs(Step(false, old(buttonHeld), captured, mouseClicked, mouseHeld, pressOnButton).1)
      ensures Valid() ==> HeldIdle(log[|old(log)|..])
    {
      HeldRunsStayIdle(log, Step(false, buttonHeld, captured, mouseClicked, mouseHeld, pressOnButton).1);
      if captured {
        if mouseHeld {
          if !buttonHeld && pressOnButton {
            buttonHeld := true;
            log := log + [Run(OnClick, onClick)];
            RunsSnoc([], OnClick);
            log := log + [Run(WhileHeld, whileHeld)];
            RunsSnoc([OnClick], WhileHeld);
            assert [OnClick] + [WhileHeld] == [OnClick, WhileHeld];
          } else {
            log := log + [Run(WhileHeld, whileHeld)];
            RunsSnoc([], WhileHeld);
          }
        } else {
          buttonHeld := false;
          log := log + [Run(OnRelease, onRelease)];
          RunsSnoc([], OnRelease);
        }
      } else if buttonHeld {
        buttonHeld := false;
        log := log + [Run(OnRelease, onRelease)];
        RunsSnoc([], OnRelease);
      }
    }

    /** The state-machine half of `interact`: the toggle or the push branch. */
    method StepAndFire(captured: bool, pressOnButton: bool)
      modifies this`buttonHeld, this`log
      ensures buttonHeld == Step(toggleable, old(buttonHeld), captured, mouseClicked, mouseHeld, pressOnButton).0
      ensures log == old(log) + Runs(Step(toggleable, old(buttonHeld), captured, mouseClicked, mouseHeld, pressOnButton).1)
      ensures Valid() ==> HeldIdle(log[|old(log)|..])
    {
      if toggleable {
        ToggleStep(captured, pressOnButton);
      } else {
        PushStep(captured, pressOnButton);
      }
    }

    /** `interact`: `superCaptured` is what the base control's `interact`
        returned. The mouse position is recorded, the state machine steps,
        its callbacks run, the painter key follows, and the captured flag is
        passed back unchanged. */
    method Interact(mouseX: int, mouseY: int, superCaptured: bool) returns (captured: bool)
      modifies this`mousePose, this`buttonHeld, this`painterKey, this`log
      ensures captured == superCaptured
      ensures mousePose == Some(Vector2(mouseX, mouseY))
      ensures buttonHeld == Step(toggleable, old(buttonHeld), captured, mouseClicked, mouseHeld,
                                 PressOnButton(mousePressPose, trueArea)).0
      ensures log == old(log) + Runs(Step(toggleable, old(buttonHeld), captured, mouseClicked, mouseHeld,
                                          PressOnButton(mousePressPose, trueArea)).1)
      ensures painterKey == KeyFor(buttonHeld, captured)
      ensures Valid() ==> HeldIdle(log[|old(log)|..])
    {
      captured := superCaptured;
      mousePose := Some(Vector2(mouseX, mouseY));
      var x, y := trueArea.x, trueArea.y;
      var width, height := trueArea.width, trueArea.height;
      var pressOnButton := false;
      if mousePressPose != None {
        pressOnButton := mousePressPose.value.x >= x && mousePressPose.value.x <= x + width
                         && mousePressPose.value.y >= y && mousePressPose.value.y <= y + height;
      }
      StepAndFire(captured, pressOnButton);
      if buttonHeld {
        painterKey := Held;
      } else if captured {
        painterKey := Hovered;
      } else {
        painterKey := Default;
      }
    }

    /** `onMouseButton`: only the left button counts. A fresh press records
        where it happened and plays the click sound; anything else forgets
        the press position. */
    method OnMouseButton(button: int, justPressed: bool, released: bool)
      modifies this`mouseClicked, this`mouseHeld, this`mousePressPose, this`log
      ensures button != LeftButton ==> mouseClicked == old(mouseClicked) && mouseHeld == old(mouseHeld)
                                       && mousePressPose == old(mousePressPose) && log == old(log)
      ensures button == LeftButton ==> mouseClicked == (justPressed && !released) && mouseHeld == !released
      ensures button == LeftButton ==> mousePressPose == (if mouseClicked then mousePose else None)
      ensures button == LeftButton ==> log == old(log) + (if mouseClicked then [PlaySound(clickSound)] else [])
    {
      if button == LeftButton {
        mouseClicked := justPressed && !released;
        mouseHeld := !released;
        if mouseClicked {
          mousePressPose := mousePose;
          log := log + [PlaySound(clickSound)];
        } else {
          mousePressPose := None;
        }
      }
    }

    /** `cleanup`: the base cleanup, then the button leaves the listeners. */
    method Cleanup(listeners: ClientListeners)
      modifies listeners, this`cleanedUp
      ensures cleanedUp
      ensures listeners.mouseButtonListeners == RemoveFirst(old(listeners.mouseButtonListeners), this)
    {
      cleanedUp := true;
      listeners.mouseButtonListeners := RemoveFirst(listeners.mouseButtonListeners, this);
    }
  }
}
