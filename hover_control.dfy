/** `HoverControl`: an interactive control that latches the mouse entering
    and leaving it, fires enter/exit/hover callbacks and switches style. */
module HoverControls {
  import opened Options
  import opened Themes
  import opened InteractiveControls

  /** The callbacks a hover control fires, in the order it fires them. */
  datatype HoverEvent = MouseEnter | MouseExit | WhileHovered

  /** The callbacks of one `preDraw`, given the latch before it and the
      mouse flag: enter on a rising edge, exit on a falling edge, and the
      hover callback on every frame that ends latched. */
  function FrameEvents(latch: bool, within: bool): (es: seq<HoverEvent>)
    ensures MouseEnter in es <==> !latch && within
    ensures MouseExit in es <==> latch && !within
    ensures WhileHovered in es <==> within
    ensures |es| <= 2 && (|es| == 2 ==> es == [MouseEnter, WhileHovered])
  {
    (if !latch && within then [MouseEnter] else if latch && !within then [MouseExit] else [])
    + (if within then [WhileHovered] else [])
  }

  /** The callbacks of a run of frames, starting from `latch`, with the
      mouse flag of each frame in `withins`. */
  function Trace(latch: bool, withins: seq<bool>): seq<HoverEvent>
    decreases |withins|
  {
    if withins == [] then [] else FrameEvents(latch, withins[0]) + Trace(withins[0], withins[1..])
  }

  /** The enter and exit callbacks of a run, without the hover callbacks. */
  function Transitions(es: seq<HoverEvent>): seq<HoverEvent>
    decreases |es|
  {
    if es == [] then []
    else if es[0] == WhileHovered then Transitions(es[1..])
    else [es[0]] + Transitions(es[1..])
  }

  /** Enter and exit strictly alternate, beginning with the one that leaves
      the state `latch`. */
  predicate Alternating(ts: seq<HoverEvent>, latch: bool)
    decreases |ts|
  {
    ts == [] || (ts[0] == (if latch then MouseExit else MouseEnter) && Alternating(ts[1..], !latch))
  }

  /** The number of frames on which the mouse was over the control. */
  function CountTrue(withins: seq<bool>): nat
    decreases |withins|
  {
    if withins == [] then 0 else (if withins[0] then 1 else 0) + CountTrue(withins[1..])
  }

  /** The number of hover callbacks in `es`. */
  function CountHovered(es: seq<HoverEvent>): nat
    decreases |es|
  {
    if es == [] then 0 else (if es[0] == WhileHovered then 1 else 0) + CountHovered(es[1..])
  }

  lemma {:induction false} TransitionsAppend(a: seq<HoverEvent>, b: seq<HoverEvent>)
    ensures Transitions(a + b) == Transitions(a) + Transitions(b)
    ensures CountHovered(a + b) == CountHovered(a) + CountHovered(b)
    decreases |a|
  {
    if a != [] {
      assert (a + b)[1..] == a[1..] + b;
      TransitionsAppend(a[1..], b);
    } else {
      assert a + b == b;
    }
  }

  /** Over any run of frames, enter and exit callbacks alternate (the first
      one being an enter when the latch starts clear), and the hover
      callback fires exactly once per frame with the mouse over the control. */
  lemma {:induction false} EnterExitAlternate(latch: bool, withins: seq<bool>)
    ensures Alternating(Transitions(Trace(latch, withins)), latch)
    ensures CountHovered(Trace(latch, withins)) == CountTrue(withins)
    decreases |withins|
  {
    if withins != [] {
      var w := withins[0];
      EnterExitAlternate(w, withins[1..]);
      TransitionsAppend(FrameEvents(latch, w), Trace(w, withins[1..]));
      var rest := Transitions(Trace(w, withins[1..]));
      if w == latch {
        assert Transitions(FrameEvents(latch, w)) == [];
        assert Transitions(Trace(latch, withins)) == rest;
      } else {
        var edge := if latch then MouseExit else MouseEnter;
        assert Transitions(FrameEvents(latch, w)) == [edge];
        assert ([edge] + rest)[1..] == rest;
      }
    }
  }

  /** The style chosen by `preDraw`: the "hover" style while latched, the
      current one otherwise, either falling back to "base" when missing. */
  function NextStyle(latched: bool, current: Option<StyleRef>, hover: Option<StyleRef>,
                     base: Option<StyleRef>): (s: Option<StyleRef>)
    ensures latched && hover.Some? ==> s == hover
    ensures latched && hover.None? ==> s == base
    ensures !latched && current.Some? ==> s == current
    ensures !latched && current.None? ==> s == base
  {
    var chosen := if latched then hover else current;
    if chosen.None? then base else chosen
  }

  class HoverControl {
    const id: string
    const interactive: InteractiveControl
    var mouseCurrentlyWithin: bool
    var currentStyle: Option<StyleRef>
    var internalTheme: Theme
    /** The callbacks fired so far. */
    ghost var log: seq<HoverEvent>

    constructor (base: InteractiveControl)
      ensures id == "hover" && interactive == base && !mouseCurrentlyWithin
      ensures currentStyle == None && internalTheme == map[] && log == []
    {
      id := "hover";
      interactive := base;
      mouseCurrentlyWithin := false;
      currentStyle := None;
      internalTheme := map[];
      log := [];
    }

    /** `hoverStyle`: registers the style as this control's own "hover" style. */
    method HoverStyle(style: StyleRef)
      modifies this`internalTheme
      ensures internalTheme == Add(old(internalTheme), "self", "hover", style)
    {
      internalTheme := internalTheme[("self", "hover") := style];
    }

    /** `preDraw`: the latch follows the mouse flag, the callbacks of the
        frame are fired, and the style is chosen; `hover` and `base` are the
        theme's lookups of those two style names. */
    method PreDraw(hover: Option<StyleRef>, base: Option<StyleRef>)
      modifies this`mouseCurrentlyWithin, this`currentStyle, this`log
      ensures mouseCurrentlyWithin == interactive.isMouseWithin
      ensures log == old(log) + FrameEvents(old(mouseCurrentlyWithin), interactive.isMouseWithin)
      ensures currentStyle == NextStyle(mouseCurrentlyWithin, old(currentStyle), hover, base)
    {
      var within := interactive.isMouseWithin;
      if !mouseCurrentlyWithin && within {
        mouseCurrentlyWithin := true;
        log := log + [MouseEnter];
      } else if mouseCurrentlyWithin && !within {
        mouseCurrentlyWithin := false;
        log := log + [MouseExit];
      }
      if mouseCurrentlyWithin {
        log := log + [WhileHovered];
      }
      if mouseCurrentlyWithin {
        currentStyle := hover;
      }
      if currentStyle == None {
        currentStyle := base;
      }
    }
  }
}
