/** `RootPanelControl`: the root of a control tree. It keeps a flat list of
    the tree's controls, rebuilt when the tree changes, and runs each frame
    as four passes over it: interaction from the top down, then preparation,
    drawing and tooltips from the bottom up. */
module RootPanels {
  import opened Controls
  import opened Themes

  /** A theme object of the painter API, with its styles. */
  class PainterTheme {
    var styles: Theme

    constructor (initial: Theme)
      ensures styles == initial
    {
      styles := initial;
    }

    /** `Theme.copy`: a new theme object with the same styles. */
    method Copy() returns (t: PainterTheme)
      ensures fresh(t) && t.styles == styles
    {
      t := new PainterTheme(styles);
    }
  }

  /** What the root asks of the controls in its list. */
  datatype RootEvent =
    | UpdateTree                                  // the list is rebuilt from the tree
    | Interact(control: ControlRef, captured: bool)
    | Prepare(control: ControlRef)
    | Draw(control: ControlRef, theme: PainterTheme)
    | Tooltip(control: ControlRef)
    | Cleanup                                     // the base panel's cleanup

  /** Some control above index `i` (a later one in the list) took the
      capture: it answered `true` when asked with `captured == false`. */
  predicate CapturedAbove(cs: seq<ControlRef>, interact: (ControlRef, bool) -> bool, i: int)
  {
    exists j :: 0 <= j < |cs| && i < j && interact(cs[j], false)
  }

  /** The interaction pass: controls from the last to the first, each told
      whether a control above it has taken the capture. */
  function InteractPass(cs: seq<ControlRef>, interact: (ControlRef, bool) -> bool): (es: seq<RootEvent>)
    ensures |es| == |cs|
    ensures forall k :: 0 <= k < |cs| ==>
              es[k] == Interact(cs[|cs| - 1 - k], CapturedAbove(cs, interact, |cs| - 1 - k))
  {
    seq(|cs|, k requires 0 <= k < |cs| => Interact(cs[|cs| - 1 - k], CapturedAbove(cs, interact, |cs| - 1 - k)))
  }

  /** The prepare pass: the events of preparing `cs` one after the other,
      built up one control at a time. Control `k` is prepared `k`-th. */
  function PreparePass(cs: seq<ControlRef>): (es: seq<RootEvent>)
    ensures |es| == |cs| && forall k :: 0 <= k < |cs| ==> es[k] == Prepare(cs[k])
    decreases |cs|
  {
    if cs == [] then [] else PreparePass(cs[..|cs| - 1]) + [Prepare(cs[|cs| - 1])]
  }

  /** The draw pass, in list order, every control with the same theme. */
  function DrawPass(cs: seq<ControlRef>, theme: PainterTheme): (es: seq<RootEvent>)
    ensures |es| == |cs| && forall k :: 0 <= k < |cs| ==> es[k] == Draw(cs[k], theme)
    decreases |cs|
  {
    if cs == [] then [] else DrawPass(cs[..|cs| - 1], theme) + [Draw(cs[|cs| - 1], theme)]
  }

  /** The tooltip pass, in list order. */
  function TooltipPass(cs: seq<ControlRef>): (es: seq<RootEvent>)
    ensures |es| == |cs| && forall k :: 0 <= k < |cs| ==> es[k] == Tooltip(cs[k])
    decreases |cs|
  {
    if cs == [] then [] else TooltipPass(cs[..|cs| - 1]) + [Tooltip(cs[|cs| - 1])]
  }

  /** Once one control is told the capture is taken, every control asked
      after it is told so too. */
  lemma CaptureIsSticky(cs: seq<ControlRef>, interact: (ControlRef, bool) -> bool, k: int, k': int)
    requires 0 <= k <= k' < |cs|
    requires InteractPass(cs, interact)[k].captured
    ensures InteractPass(cs, interact)[k'].captured
  {
    var j :| 0 <= j < |cs| && |cs| - 1 - k < j && interact(cs[j], false);
    assert |cs| - 1 - k' < j;
  }

  /** The interaction pass does not depend on what controls answer once
      the capture is taken: only their answers to `captured == false` matter. */
  lemma IgnoresAnswersAfterCapture(cs: seq<ControlRef>, f: (ControlRef, bool) -> bool, g: (ControlRef, bool) -> bool)
    requires forall c :: f(c, false) == g(c, false)
    ensures InteractPass(cs, f) == InteractPass(cs, g)
  {
    forall k | 0 <= k < |cs| ensures InteractPass(cs, f)[k] == InteractPass(cs, g)[k] {
      assert CapturedAbove(cs, f, |cs| - 1 - k) == CapturedAbove(cs, g, |cs| - 1 - k);
    }
  }

  class RootPanelControl {
    var theme: PainterTheme
    var dirty: bool
    var controls: seq<ControlRef>
    /** Calls made on the tree and its controls so far. */
    ghost var log: seq<RootEvent>

    /** `vanilla` is the default theme. The list starts empty and dirty. */
    constructor (vanilla: PainterTheme)
      ensures theme == vanilla && dirty && controls == [] && log == []
    {
      theme := vanilla;
      dirty := true;
      controls := [];
      log := [];
    }

    method SetTheme(t: PainterTheme)
      modifies this`theme
      ensures theme == t
    {
      theme := t;
    }

    /** `getTheme`: a copy, never the stored theme object itself. */
    method GetTheme() returns (t: PainterTheme)
      ensures fresh(t) && t != theme && t.styles == theme.styles
    {
      t := theme.Copy();
    }

    /** The interaction pass, as the source's downward loop with a `captured`
        flag that latches at the first `true`. */
    method InteractAll(interact: (ControlRef, bool) -> bool)
      modifies this`log
      ensures log == old(log) + InteractPass(controls, interact)
    {
      var captured := false;
      var i := |controls| - 1;
      ghost var done: seq<RootEvent> := [];
      while i >= 0
        invariant -1 <= i < |controls|
        invariant captured == CapturedAbove(controls, interact, i)
        invariant |done| == |controls| - 1 - i
        invariant done == InteractPass(controls, interact)[..|controls| - 1 - i]
        invariant log == old(log) + done
      {
        var control := controls[i];
        ghost var event := Interact(control, captured);
        if !captured {
          captured := interact(control, false);
        } else {
          var _ := interact(control, true);
        }
        log := log + [event];
        done := done + [event];
        i := i - 1;
      }
      assert done == InteractPass(controls, interact);
    }

    /** `render`. `tree` is the list the tree walk produces and `interact`
        how each control answers its `interact` call. A dirty list is rebuilt
        and marked clean; then every listed control gets one `interact` from
        the last to the first, then one `prepare`, one `draw` and one
        `drawTooltip` each, pass after pass. */
    method Render(tree: seq<ControlRef>, interact: (ControlRef, bool) -> bool)
      modifies this`controls, this`dirty, this`log
      ensures !dirty
      ensures controls == (if old(dirty) then tree else old(controls))
      ensures log == old(log) + (if old(dirty) then [UpdateTree] else [])
                     + InteractPass(controls, interact) + PreparePass(controls)
                     + DrawPass(controls, theme) + TooltipPass(controls)
    {
      if dirty {
        controls := [];
        controls := tree;
        log := log + [UpdateTree];
        dirty := false;
      }
      InteractAll(interact);
      PrepareAll();
      DrawAll();
      TooltipAll();
    }

    /** The prepare loop of `render`: every control, front to back. */
    method PrepareAll()
      modifies this`log
      ensures log == old(log) + PreparePass(controls)
    {
      var i := 0;
      while i < |controls|
        invariant 0 <= i <= |controls|
        invariant log == old(log) + PreparePass(controls[..i])
      {
        assert controls[..i + 1][..i] == controls[..i];
        log := log + [Prepare(controls[i])];
        i := i + 1;
      }
      assert controls[..i] == controls;
    }

    /** The draw loop of `render`: every control with the root's theme. */
    method DrawAll()
      modifies this`log
      ensures log == old(log) + DrawPass(controls, theme)
    {
      var i := 0;
      while i < |controls|
        invariant 0 <= i <= |controls|
        invariant log == old(log) + DrawPass(controls[..i], theme)
      {
        assert controls[..i + 1][..i] == controls[..i];
        log := log + [Draw(controls[i], theme)];
        i := i + 1;
      }
      assert controls[..i] == controls;
    }

    /** The tooltip loop of `render`: every control, front to back. */
    method TooltipAll()
      modifies this`log
      ensures log == old(log) + TooltipPass(controls)
    {
      var i := 0;
      while i < |controls|
        invariant 0 <= i <= |controls|
        invariant log == old(log) + TooltipPass(controls[..i])
      {
        assert controls[..i + 1][..i] == controls[..i];
        log := log + [Tooltip(controls[i])];
        i := i + 1;
      }
      assert controls[..i] == controls;
    }

    /** The root itself never takes the capture. */
    method InteractRoot(mouseX: int, mouseY: int, captured: bool) returns (r: bool)
      ensures !r
    {
      r := false;
    }

    /** `close`: exactly the base cleanup. */
    method Close()
      modifies this`log
      ensures log == old(log) + [Cleanup]
    {
      log := log + [Cleanup];
    }

    method MarkDirty()
      modifies this`dirty
      ensures dirty
    {
      dirty := true;
    }
  }
}
