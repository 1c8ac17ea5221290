/** `ControlGui`: the per-frame driver of a control tree on a screen. It
    turns raw mouse state into held/just-clicked flags, decides which
    control the mouse is over, then lays out and draws the tree. */
module ControlGuis {
  import opened Options
  import opened Themes
  import opened InteractiveControls

  /** Edge detection for one mouse button: the new (clicked, held) flags
      from whether the button is down now and whether it was held. */
  function EdgeDetect(down: bool, wasHeld: bool): (r: (bool, bool))
    ensures r.1 == down
    ensures r.0 <==> down && !wasHeld
  {
    if down then (if wasHeld then (false, true) else (true, true)) else (false, false)
  }

  /** Frame `k` of `downs` is a press: the button is down on it and was
      not down on the frame before (`wasHeld` stands before frame 0). */
  predicate PressedAt(downs: seq<bool>, wasHeld: bool, k: nat)
    requires k < |downs|
  {
    downs[k] && !(if k == 0 then wasHeld else downs[k - 1])
  }

  /** The number of presses among the first `n` frames. */
  function PressesBefore(downs: seq<bool>, wasHeld: bool, n: nat): nat
    requires n <= |downs|
    decreases n
  {
    if n == 0 then 0 else PressesBefore(downs, wasHeld, n - 1) + (if PressedAt(downs, wasHeld, n - 1) then 1 else 0)
  }

  /** The number of frames on which the button went down. */
  function Presses(downs: seq<bool>, wasHeld: bool): nat
  {
    PressesBefore(downs, wasHeld, |downs|)
  }

  /** Counting presses from the second frame on, with the first frame as
      the one before it, misses only the first frame's own press. */
  lemma {:induction false} PressesAfterFirst(downs: seq<bool>, wasHeld: bool, n: nat)
    requires 1 <= n <= |downs|
    ensures PressesBefore(downs, wasHeld, n)
            == (if downs[0] && !wasHeld then 1 else 0) + PressesBefore(downs[1..], downs[0], n - 1)
    decreases n
  {
    if n > 1 {
      PressesAfterFirst(downs, wasHeld, n - 1);
      assert PressedAt(downs, wasHeld, n - 1) == PressedAt(downs[1..], downs[0], n - 2);
    }
  }

  /** The number of frames reported as just clicked. */
  function ReportedClicks(downs: seq<bool>, wasHeld: bool): nat
    decreases |downs|
  {
    if downs == [] then 0
    else
      var (clicked, held) := EdgeDetect(downs[0], wasHeld);
      (if clicked then 1 else 0) + ReportedClicks(downs[1..], held)
  }

  /** Over any run of frames, a click is reported exactly once per press:
      holding the button down reports it only on the first frame. */
  lemma {:induction false} OneClickPerPress(downs: seq<bool>, wasHeld: bool)
    ensures ReportedClicks(downs, wasHeld) == Presses(downs, wasHeld)
    decreases |downs|
  {
    if downs != [] {
      OneClickPerPress(downs[1..], downs[0]);
      PressesAfterFirst(downs, wasHeld, |downs|);
    }
  }

  /** A control of the z-ordered list, as the capture sweep sees it:
      whether its offset area contains the mouse, and its interactive part
      if it is an interactive control. */
  datatype Listed = Listed(hit: bool, interactive: Option<InteractiveControl>)

  /** What the GUI asks of the outside world during `draw` and `applyTheme`. */
  datatype GuiEvent =
    | SetWithin(target: InteractiveControl, value: bool)
    | RootPreDraw(width: int, height: int, mouseX: int, mouseY: int)
    | RootDraw(mouseX: int, mouseY: int)
    | SetSize(width: int, height: int)
    | RootSetup

  /** `Collections.reverse`. */
  function Reversed<T>(s: seq<T>): (r: seq<T>)
    ensures |r| == |s|
    ensures forall k :: 0 <= k < |s| ==> r[k] == s[|s| - 1 - k]
    decreases |s|
  {
    if s == [] then [] else Reversed(s[1..]) + [s[0]]
  }

  /** The index of the first hit control in the list, or its length. */
  function FirstHit(list: seq<Listed>): (i: nat)
    ensures i <= |list|
    ensures i < |list| ==> list[i].hit
    ensures forall k :: 0 <= k < i ==> !list[k].hit
    decreases |list|
  {
    if list == [] then 0 else if list[0].hit then 0 else 1 + FirstHit(list[1..])
  }

  /** The `setMouseWithin` calls of the sweep over `list`, given whether the
      mouse was captured by an earlier control: the first hit captures it,
      and every interactive control is told whether it was that one. */
  ghost function SweepCalls(list: seq<Listed>, captured: bool): seq<GuiEvent>
    decreases |list|
  {
    if list == [] then []
    else
      var takes := list[0].hit && !captured;
      (if list[0].interactive.Some? then [SetWithin(list[0].interactive.value, takes)] else [])
      + SweepCalls(list[1..], captured || takes)
  }

  /** The sweep calls each interactive control of the list exactly once,
      in list order, with `true` for at most one of them: the first hit,
      provided it is interactive. A non-interactive first hit still takes
      the capture, and then every interactive control gets `false`. */
  lemma {:induction false} SweepShape(list: seq<Listed>, captured: bool)
    ensures |SweepCalls(list, captured)| == |Interactives(list)|
    ensures forall k :: 0 <= k < |SweepCalls(list, captured)| ==>
              SweepCalls(list, captured)[k].SetWithin? &&
              SweepCalls(list, captured)[k].target == Interactives(list)[k]
    ensures forall j, k :: 0 <= j < k < |SweepCalls(list, captured)| && SweepCalls(list, captured)[j].value
              ==> !SweepCalls(list, captured)[k].value
    ensures captured ==> forall k :: 0 <= k < |SweepCalls(list, captured)| ==> !SweepCalls(list, captured)[k].value
    decreases |list|
  {
    if list != [] {
      var takes := list[0].hit && !captured;
      SweepShape(list[1..], captured || takes);
      var head := if list[0].interactive.Some? then [SetWithin(list[0].interactive.value, takes)] else [];
      var rest := SweepCalls(list[1..], captured || takes);
      assert SweepCalls(list, captured) == head + rest;
      assert Interactives(list)
             == (if list[0].interactive.Some? then [list[0].interactive.value] else []) + Interactives(list[1..]);
      assert takes ==> forall k :: 0 <= k < |rest| ==> !rest[k].value;
    }
  }

  /** The interactive controls of a list, in order. */
  function Interactives(list: seq<Listed>): seq<InteractiveControl>
    decreases |list|
  {
    if list == [] then []
    else (if list[0].interactive.Some? then [list[0].interactive.value] else []) + Interactives(list[1..])
  }

  /** The interactive objects the sweep may write to. */
  function Targets(list: seq<Listed>): set<InteractiveControl>
  {
    set k | 0 <= k < |list| && list[k].interactive.Some? :: list[k].interactive.value
  }

  /** No interactive control appears twice in the list. */
  predicate DistinctInteractives(list: seq<Listed>)
  {
    forall j, k :: 0 <= j < k < |list| && list[j].interactive.Some? && list[k].interactive.Some?
                   ==> list[j].interactive.value != list[k].interactive.value
  }

  /** Entry `k` names an interactive control that none of the entries from
      `k + 1` up to `n` names again. */
  predicate LastBefore(list: seq<Listed>, k: nat, n: nat)
    requires k < n <= |list|
  {
    list[k].interactive.Some? && forall j :: k < j < n ==> list[j].interactive != list[k].interactive
  }

  /** Entry `k` is the last mention of its interactive control: the call
      made for it is the last one that control receives. */
  predicate LastMention(list: seq<Listed>, k: nat)
    requires k < |list|
  {
    LastBefore(list, k, |list|)
  }

  /** Every control the sweep writes to has a last mention. */
  lemma {:induction false} EveryTargetHasLastMention(list: seq<Listed>, c: InteractiveControl)
    requires c in Targets(list)
    ensures exists k :: 0 <= k < |list| && LastMention(list, k) && list[k].interactive.value == c
  {
    var k :| 0 <= k < |list| && list[k].interactive.Some? && list[k].interactive.value == c;
    while !LastMention(list, k)
      invariant 0 <= k < |list| && list[k].interactive == Some(c)
      decreases |list| - k
    {
      var j :| k < j < |list| && list[j].interactive == list[k].interactive;
      k := j;
    }
  }

  /** In a list without repeated interactive controls, every interactive
      entry is its control's last mention. */
  lemma DistinctMeansLast(list: seq<Listed>, k: nat)
    requires DistinctInteractives(list) && k < |list| && list[k].interactive.Some?
    ensures LastMention(list, k)
  {
    forall j | k < j < |list| ensures list[j].interactive != list[k].interactive {
      if list[j].interactive.Some? {
        assert list[k].interactive.value != list[j].interactive.value;
      }
    }
  }

  /** A control listed twice and hit both times is first told it took the
      capture, then told it did not: its last call leaves it `false`. */
  lemma RepeatedControlEndsWithLastCall(c: InteractiveControl)
    ensures SweepCalls([Listed(true, Some(c)), Listed(true, Some(c))], false) == [SetWithin(c, true), SetWithin(c, false)]
  {
    var list := [Listed(true, Some(c)), Listed(true, Some(c))];
    assert list[1..] == [Listed(true, Some(c))] && list[1..][1..] == [];
    assert SweepCalls(list[1..], true) == [SetWithin(c, false)] + SweepCalls([], true);
  }

  /** Reversing the list keeps its interactive controls. */
  lemma ReversedKeepsTargets(list: seq<Listed>)
    ensures Targets(Reversed(list)) == Targets(list)
  {
    var r := Reversed(list);
    forall c | c in Targets(r) ensures c in Targets(list) {
      var k :| 0 <= k < |r| && r[k].interactive.Some? && r[k].interactive.value == c;
      assert r[k] == list[|list| - 1 - k];
    }
    forall c | c in Targets(list) ensures c in Targets(r) {
      var k :| 0 <= k < |list| && list[k].interactive.Some? && list[k].interactive.value == c;
      assert r[|list| - 1 - k] == list[k];
    }
  }

  class ControlGui {
    var leftMouseClicked: bool
    var leftMouseHeld: bool
    var rightMouseClicked: bool
    var rightMouseHeld: bool
    var lastChar: Option<char>
    var theme: Option<Theme>
    /** Calls made on the controls, the root and the screen. */
    ghost var log: seq<GuiEvent>

    /** A button is never reported just clicked without being held. */
    predicate Valid()
      reads this
    {
      (leftMouseClicked ==> leftMouseHeld) && (rightMouseClicked ==> rightMouseHeld)
    }

    constructor ()
      ensures Valid() && !leftMouseClicked && !leftMouseHeld && !rightMouseClicked && !rightMouseHeld
      ensures lastChar == None && theme == None && log == []
    {
      leftMouseClicked, leftMouseHeld := false, false;
      rightMouseClicked, rightMouseHeld := false, false;
      lastChar := None;
      theme := None;
      log := [];
    }

    /** The keyboard hook: remembers the last character typed. */
    method OnCharTyped(c: char)
      modifies this`lastChar
      ensures lastChar == Some(c)
    {
      lastChar := Some(c);
    }

    /** The mouse-flag half of `draw`: both buttons go through edge detection. */
    method UpdateMouseFlags(leftDown: bool, rightDown: bool)
      modifies this`leftMouseClicked, this`leftMouseHeld, this`rightMouseClicked, this`rightMouseHeld
      ensures (leftMouseClicked, leftMouseHeld) == EdgeDetect(leftDown, old(leftMouseHeld))
      ensures (rightMouseClicked, rightMouseHeld) == EdgeDetect(rightDown, old(rightMouseHeld))
    {
      if leftDown {
        if leftMouseHeld {
          leftMouseClicked := false;
        } else {
          leftMouseClicked := true;
          leftMouseHeld := true;
        }
      } else {
        leftMouseClicked := false;
        leftMouseHeld := false;
      }

      if rightDown {
        if rightMouseHeld {
          rightMouseClicked := false;
        } else {
          rightMouseClicked := true;
          rightMouseHeld := true;
        }
      } else {
        rightMouseClicked := false;
        rightMouseHeld := false;
      }
    }

    /** The capture sweep of `draw` over the reversed z list: the first hit
        takes the capture, and every interactive control is told whether it
        is that one. A control listed more than once keeps the answer of its
        last mention. */
    method CaptureSweep(controlList: seq<Listed>)
      modifies this`log, Targets(controlList)`isMouseWithin
      ensures forall k :: 0 <= k < |controlList| && LastMention(controlList, k) ==>
                controlList[k].interactive.value.isMouseWithin == (k == FirstHit(controlList))
      ensures log == old(log) + SweepCalls(controlList, false)
    {
      var mouseCaptured := false;
      var i := 0;
      while i < |controlList|
        invariant 0 <= i <= |controlList|
        invariant mouseCaptured <==> FirstHit(controlList) < i
        invariant forall k :: 0 <= k < i && LastBefore(controlList, k, i) ==>
                    controlList[k].interactive.value.isMouseWithin == (k == FirstHit(controlList))
        invariant old(log) + SweepCalls(controlList, false) == log + SweepCalls(controlList[i..], mouseCaptured)
      {
        mouseCaptured := SweepStep(controlList, i, mouseCaptured);
        i := i + 1;
      }
      assert controlList[i..] == [];
    }

    /** One step of the sweep, at entry `i`: the entry takes the capture if
        it is hit and nothing took it before, and its control, if
        interactive, is told so. Every earlier entry whose control is not
        mentioned again up to `i` keeps its answer. */
    method SweepStep(controlList: seq<Listed>, i: nat, captured: bool) returns (nowCaptured: bool)
      requires i < |controlList|
      requires captured <==> FirstHit(controlList) < i
      requires forall k :: 0 <= k < i && LastBefore(controlList, k, i) ==>
                 controlList[k].interactive.value.isMouseWithin == (k == FirstHit(controlList))
      modifies this`log, (if controlList[i].interactive.Some? then {controlList[i].interactive.value} else {})`isMouseWithin
      ensures nowCaptured <==> FirstHit(controlList) < i + 1
      ensures forall k :: 0 <= k < i + 1 && LastBefore(controlList, k, i + 1) ==>
                controlList[k].interactive.value.isMouseWithin == (k == FirstHit(controlList))
      ensures log + SweepCalls(controlList[i + 1..], nowCaptured) == old(log) + SweepCalls(controlList[i..], captured)
    {
      var control := controlList[i];
      assert controlList[i..][1..] == controlList[i + 1..];
      var takes := control.hit && !captured;
      nowCaptured := captured || takes;
      if control.interactive.Some? {
        control.interactive.value.SetMouseWithin(takes);
        log := log + [SetWithin(control.interactive.value, takes)];
      }
      forall k | 0 <= k < i + 1 && LastBefore(controlList, k, i + 1)
        ensures controlList[k].interactive.value.isMouseWithin == (k == FirstHit(controlList))
      {
        if k < i {
          assert controlList[i].interactive != controlList[k].interactive;
          assert LastBefore(controlList, k, i);
        }
      }
    }

    /** `draw`. `leftDown` and `rightDown` are the mouse's button states,
        `zList` the root's controls in z order with their hit results,
        `windowWidth`/`windowHeight` the scaled window size and
        `rootWidth`/`rootHeight` the root's size after drawing. The flags
        follow the buttons by edge detection, each interactive control learns
        whether it is the first hit in reverse z order (the top-most), the
        root is laid out and drawn, and the typed character is consumed. */
    method Draw(mouseX: int, mouseY: int, leftDown: bool, rightDown: bool, zList: seq<Listed>,
                windowWidth: int, windowHeight: int, rootWidth: int, rootHeight: int)
      modifies this, Targets(zList)`isMouseWithin
      ensures Valid()
      ensures (leftMouseClicked, leftMouseHeld) == EdgeDetect(leftDown, old(leftMouseHeld))
      ensures (rightMouseClicked, rightMouseHeld) == EdgeDetect(rightDown, old(rightMouseHeld))
      ensures var top := Reversed(zList);
              forall k :: 0 <= k < |top| && LastMention(top, k) ==>
                top[k].interactive.value.isMouseWithin == (k == FirstHit(top))
      ensures log == old(log) + SweepCalls(Reversed(zList), false)
                     + [RootPreDraw(windowWidth, windowHeight, mouseX, mouseY), RootDraw(mouseX, mouseY),
                        SetSize(rootWidth, rootHeight)]
      ensures lastChar == None && theme == old(theme)
    {
      UpdateMouseFlags(leftDown, rightDown);

      var controlList := Reversed(zList);
      ReversedKeepsTargets(zList);
      CaptureSweep(controlList);

      log := log + [RootPreDraw(windowWidth, windowHeight, mouseX, mouseY)];
      log := log + [RootDraw(mouseX, mouseY)];
      log := log + [SetSize(rootWidth, rootHeight)];
      lastChar := None;
    }

    /** `mouseButtonHeld`: the held flag of "left" or "right", false for any
        other name. */
    function MouseButtonHeld(button: string): (b: bool)
      reads this
      ensures button == "left" ==> b == leftMouseHeld
      ensures button == "right" ==> b == rightMouseHeld
      ensures button != "left" && button != "right" ==> !b
    {
      if button == "left" then leftMouseHeld else if button == "right" then rightMouseHeld else false
    }

    /** `mouseButtonJustClicked`: the clicked flag of "left" or "right",
        false for any other name. A click always comes with the hold. */
    function MouseButtonJustClicked(button: string): (b: bool)
      reads this
      requires Valid()
      ensures button == "left" ==> b == leftMouseClicked
      ensures button == "right" ==> b == rightMouseClicked
      ensures button != "left" && button != "right" ==> !b
      ensures b ==> MouseButtonHeld(button)
    {
      if button == "left" then leftMouseClicked else if button == "right" then rightMouseClicked else false
    }

    /** `getLastChar`: empty exactly when no character is pending. */
    function GetLastChar(): (c: Option<char>)
      reads this
      ensures c.None? <==> lastChar.None?
      ensures c.Some? ==> lastChar == Some(c.value)
    {
      if lastChar == None then None else Some(lastChar.value)
    }

    /** `applyTheme`: stores the theme, then sets the root up again. */
    method ApplyTheme(t: Theme)
      modifies this`theme, this`log
      ensures theme == Some(t) && log == old(log) + [RootSetup]
    {
      theme := Some(t);
      log := log + [RootSetup];
    }
  }
}
