/** `BoxNode`: a node with margins around at most one child. */
module BoxNodes {
  import opened Options
  import opened Geometry

  /** A reference to a node object. */
  datatype NodeRef = NodeRef(id: nat)

  /** The two layout passes a node takes part in. */
  datatype Phase = PreDrawPhase | DrawPhase

  /** What happens to a box in a pass: the call it receives (offset and
      container size) and the call it passes on to its child. */
  datatype NodeEvent =
    | Received(phase: Phase, container: Frame)
    | Delegated(phase: Phase, target: NodeRef, frame: Frame)

  /** `setMargin`: a margin that is not positive becomes 0. */
  function MarginOf(m: real): (r: real)
    ensures r >= 0.0
    ensures m > 0.0 ==> r == m
    ensures m <= 0.0 ==> r == 0.0
  {
    if m <= 0.0 then 0.0 else m
  }

  /** The child's frame: the box's frame moved by the offset and shrunk by
      the margins on each side, with no clamp. */
  function ChildFrame(box: Frame, top: real, bottom: real, left: real, right: real,
                      offsetX: real, offsetY: real): (f: Frame)
    ensures f.x - (box.x + offsetX) == left && f.y - (box.y + offsetY) == top
    ensures (box.x + offsetX + box.width) - (f.x + f.width) == right
    ensures (box.y + offsetY + box.height) - (f.y + f.height) == bottom
  {
    Frame(box.x + left + offsetX, box.y + top + offsetY, box.width - left - right, box.height - top - bottom)
  }

  /** With non-negative margins the child frame never sticks out of the
      (offset) box; it can still have negative size when the margins are
      wider than the box. */
  lemma ChildFrameInside(box: Frame, top: real, bottom: real, left: real, right: real,
                         offsetX: real, offsetY: real)
    requires top >= 0.0 && bottom >= 0.0 && left >= 0.0 && right >= 0.0
    ensures var f := ChildFrame(box, top, bottom, left, right, offsetX, offsetY);
            box.x + offsetX <= f.x && f.x + f.width <= box.x + offsetX + box.width &&
            box.y + offsetY <= f.y && f.y + f.height <= box.y + offsetY + box.height
    ensures box.width < left + right ==> ChildFrame(box, top, bottom, left, right, offsetX, offsetY).width < 0.0
  {
  }

  class BoxNode {
    /** The node's own frame, as the base node keeps it. */
    var x: real
    var y: real
    var width: real
    var height: real
    var expand: bool
    var topMargin: real
    var bottomMargin: real
    var leftMargin: real
    var rightMargin: real
    var child: Option<NodeRef>
    /** The calls this box has received and passed on. */
    ghost var log: seq<NodeEvent>

    /** A box with no margins and no child. */
    constructor ()
      ensures x == 0.0 && y == 0.0 && width == 0.0 && height == 0.0 && !expand
      ensures topMargin == 0.0 && bottomMargin == 0.0 && leftMargin == 0.0 && rightMargin == 0.0
      ensures child == None && log == []
    {
      x, y, width, height := 0.0, 0.0, 0.0, 0.0;
      expand := false;
      topMargin, bottomMargin, leftMargin, rightMargin := 0.0, 0.0, 0.0, 0.0;
      child := None;
      log := [];
    }

    /** `setMargin`: all four margins take the same, non-negative, value. */
    method SetMargin(margin: real)
      modifies this`topMargin, this`bottomMargin, this`leftMargin, this`rightMargin
      ensures topMargin == bottomMargin == leftMargin == rightMargin == MarginOf(margin)
    {
      var m := margin;
      if m <= 0.0 {
        m := 0.0;
      }
      topMargin := m;
      bottomMargin := m;
      leftMargin := m;
      rightMargin := m;
    }

    /** `addChild`: the new child replaces any previous one. */
    method AddChild(newChild: NodeRef)
      modifies this`child
      ensures child == Some(newChild)
    {
      child := Some(newChild);
    }

    /** What the box does with a pass: record it, then hand the child its
        frame, if there is a child. */
    ghost function Reaction(phase: Phase, offsetX: real, offsetY: real,
                            containerWidth: real, containerHeight: real): seq<NodeEvent>
      reads this`child, this`x, this`y, this`width, this`height
      reads this`topMargin, this`bottomMargin, this`leftMargin, this`rightMargin
    {
      [Received(phase, Frame(offsetX, offsetY, containerWidth, containerHeight))]
      + match child
        case None => []
        case Some(c) => [Delegated(phase, c, ChildFrame(Frame(x, y, width, height), topMargin, bottomMargin,
                                                        leftMargin, rightMargin, offsetX, offsetY))]
    }

    /** `preDraw`: the child, if any, is laid out in the shrunk frame. */
    method PreDraw(offsetX: real, offsetY: real, containerWidth: real, containerHeight: real)
      modifies this`log
      ensures log == old(log) + Reaction(PreDrawPhase, offsetX, offsetY, containerWidth, containerHeight)
    {
      log := log + [Received(PreDrawPhase, Frame(offsetX, offsetY, containerWidth, containerHeight))];
      var actualX := x + leftMargin + offsetX;
      var actualY := y + topMargin + offsetY;
      var actualWidth := width - leftMargin - rightMargin;
      var actualHeight := height - topMargin - bottomMargin;
      if child != None {
        log := log + [Delegated(PreDrawPhase, child.value, Frame(actualX, actualY, actualWidth, actualHeight))];
      }
    }

    /** `draw`: the child, if any, is drawn in the same shrunk frame. */
    method Draw(offsetX: real, offsetY: real, containerWidth: real, containerHeight: real)
      modifies this`log
      ensures log == old(log) + Reaction(DrawPhase, offsetX, offsetY, containerWidth, containerHeight)
    {
      log := log + [Received(DrawPhase, Frame(offsetX, offsetY, containerWidth, containerHeight))];
      var actualWidth := width - leftMargin - rightMargin;
      var actualHeight := height - topMargin - bottomMargin;
      var actualX := x + leftMargin + offsetX;
      var actualY := y + topMargin + offsetY;
      if child != None {
        log := log + [Delegated(DrawPhase, child.value, Frame(actualX, actualY, actualWidth, actualHeight))];
      }
    }

    /** Both passes hand the child the same frame for the same offset. */
    lemma PassesAgree(offsetX: real, offsetY: real, cw: real, ch: real, cw': real, ch': real)
      requires child.Some?
      ensures Reaction(PreDrawPhase, offsetX, offsetY, cw, ch)[1].frame
              == Reaction(DrawPhase, offsetX, offsetY, cw', ch')[1].frame
    {
    }
  }
}
