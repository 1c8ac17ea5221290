/** `SplitBoxNode`: two boxes side by side (or one above the other) that
    share the node's frame by a percentage. */
module SplitBoxNodes {
  import opened Options
  import opened Geometry
  import opened BoxNodes

  /** `setSplitPercent`: the percentage clamped to [0, 100]. */
  function ClampPercent(p: real): (r: real)
    ensures 0.0 <= r <= 100.0
    ensures 0.0 <= p <= 100.0 ==> r == p
    ensures p <= 0.0 ==> r == 0.0
    ensures p >= 100.0 ==> r == 100.0
  {
    if p <= 0.0 then 0.0 else if p >= 100.0 then 100.0 else p
  }

  /** Clamping twice is clamping once. */
  lemma ClampPercentIdempotent(p: real)
    ensures ClampPercent(ClampPercent(p)) == ClampPercent(p)
  {
  }

  /** The two frames a split produces from an origin and the node's size:
      the first takes `percent` percent of the split axis, the second the
      rest, starting where the first ends. */
  function Split(originX: real, originY: real, width: real, height: real, percent: real,
                 vertical: bool): (halves: (Frame, Frame))
    ensures var (a, b) := halves;
            a.x == originX && a.y == originY
    ensures !vertical ==> halves.0.width == percent / 100.0 * width
    ensures vertical ==> halves.0.height == percent / 100.0 * height
    ensures var (a, b) := halves;
            !vertical ==> a.height == height && b.height == height && b.y == originY
                          && b.x == originX + a.width && a.width + b.width == width
    ensures var (a, b) := halves;
            vertical ==> a.width == width && b.width == width && b.x == originX
                         && b.y == originY + a.height && a.height + b.height == height
  {
    if vertical then
      var leftHeight := percent / 100.0 * height;
      (Frame(originX, originY, width, leftHeight),
       Frame(originX, leftHeight + originY, width, height - leftHeight))
    else
      var leftWidth := percent / 100.0 * width;
      (Frame(originX, originY, leftWidth, height),
       Frame(leftWidth + originX, originY, width - leftWidth, height))
  }

  /** With the percentage in range and a non-negative size, both halves have
      non-negative size along the split axis. */
  lemma SplitSizesInRange(originX: real, originY: real, width: real, height: real, percent: real,
                          vertical: bool)
    requires 0.0 <= percent <= 100.0 && width >= 0.0 && height >= 0.0
    ensures var (a, b) := Split(originX, originY, width, height, percent, vertical);
            0.0 <= a.width <= width && 0.0 <= b.width && 0.0 <= a.height <= height && 0.0 <= b.height
  {
    var f := percent / 100.0;
    assert 0.0 <= f <= 1.0;
    var halves := Split(originX, originY, width, height, percent, vertical);
    if vertical {
      assert 0.0 <= f * height <= height;
      assert halves.0.height == f * height;
    } else {
      assert 0.0 <= f * width <= width;
      assert halves.0.width == f * width;
    }
  }

  class SplitBoxNode {
    const left: BoxNode
    const right: BoxNode
    /** Public in the source: direct writes bypass the clamp. */
    var splitPercent: real
    var vertical: bool
    /** The node's own frame and true position, as the base node keeps them. */
    var x: real
    var y: real
    var width: real
    var height: real
    var trueX: real
    var trueY: real

    predicate Valid()
      reads this
    {
      left != right
    }

    /** Two fresh expanding boxes, split down the middle, side by side. */
    constructor ()
      ensures Valid() && fresh(left) && fresh(right)
      ensures left.expand && right.expand && left.child.None? && right.child.None?
      ensures splitPercent == 50.0 && !vertical
    {
      left := new BoxNode();
      right := new BoxNode();
      new;
      left.expand := true;
      right.expand := true;
      splitPercent := 50.0;
      vertical := false;
    }

    method SetSplitPercent(percent: real)
      modifies this`splitPercent
      ensures splitPercent == ClampPercent(percent)
    {
      var p := percent;
      if p <= 0.0 {
        p := 0.0;
      } else if p >= 100.0 {
        p := 100.0;
      }
      splitPercent := p;
    }

    method SetVertical(value: bool)
      modifies this`vertical
      ensures vertical == value
    {
      vertical := value;
    }

    /** `addLeftChild`: the left box's child is replaced. */
    method AddLeftChild(child: NodeRef)
      modifies left`child
      ensures left.child == Some(child)
    {
      left.AddChild(child);
    }

    method AddRightChild(child: NodeRef)
      modifies right`child
      ensures right.child == Some(child)
    {
      right.AddChild(child);
    }

    method SetLeftMargin(value: real)
      modifies left`topMargin, left`bottomMargin, left`leftMargin, left`rightMargin
      ensures left.topMargin == left.bottomMargin == left.leftMargin == left.rightMargin == MarginOf(value)
    {
      left.SetMargin(value);
    }

    method SetRightMargin(value: real)
      modifies right`topMargin, right`bottomMargin, right`leftMargin, right`rightMargin
      ensures right.topMargin == right.bottomMargin == right.leftMargin == right.rightMargin == MarginOf(value)
    {
      right.SetMargin(value);
    }

    /** `preDraw`: both boxes are laid out, in the halves of the node's own
        size placed at its position plus the offset. */
    method PreDraw(offsetX: real, offsetY: real)
      requires Valid()
      modifies left`log, right`log
      ensures var (a, b) := Split(x + offsetX, y + offsetY, width, height, splitPercent, vertical);
              left.log == old(left.log) + left.Reaction(PreDrawPhase, a.x, a.y, a.width, a.height) &&
              right.log == old(right.log) + right.Reaction(PreDrawPhase, b.x, b.y, b.width, b.height)
    {
      var actualX := x + offsetX;
      var actualY := y + offsetY;
      if vertical {
        var leftHeight := splitPercent / 100.0 * height;
        var rightHeight := height - leftHeight;
        var rightY := leftHeight + actualY;
        ghost var halves := Split(x + offsetX, y + offsetY, width, height, splitPercent, vertical);
        assert halves.0 == Frame(actualX, actualY, width, leftHeight);
        assert halves.1 == Frame(actualX, rightY, width, rightHeight);
        left.PreDraw(actualX, actualY, width, leftHeight);
        right.PreDraw(actualX, rightY, width, rightHeight);
      } else {
        var leftWidth := splitPercent / 100.0 * width;
        var rightWidth := width - leftWidth;
        var rightX := leftWidth + actualX;
        ghost var halves := Split(x + offsetX, y + offsetY, width, height, splitPercent, vertical);
        assert halves.0 == Frame(actualX, actualY, leftWidth, height);
        assert halves.1 == Frame(rightX, actualY, rightWidth, height);
        left.PreDraw(actualX, actualY, leftWidth, height);
        right.PreDraw(rightX, actualY, rightWidth, height);
      }
    }

    /** `draw`: both boxes are drawn, in the halves of the node's own size
        placed at its true position. */
    method Draw()
      requires Valid()
      modifies left`log, right`log
      ensures var (a, b) := Split(trueX, trueY, width, height, splitPercent, vertical);
              left.log == old(left.log) + left.Reaction(DrawPhase, a.x, a.y, a.width, a.height) &&
              right.log == old(right.log) + right.Reaction(DrawPhase, b.x, b.y, b.width, b.height)
    {
      if vertical {
        var leftHeight := splitPercent / 100.0 * height;
        var rightHeight := height - leftHeight;
        var rightY := leftHeight + trueY;
        ghost var halves := Split(trueX, trueY, width, height, splitPercent, vertical);
        assert halves.0 == Frame(trueX, trueY, width, leftHeight);
        assert halves.1 == Frame(trueX, rightY, width, rightHeight);
        left.Draw(trueX, trueY, width, leftHeight);
        right.Draw(trueX, rightY, width, rightHeight);
      } else {
        var leftWidth := splitPercent / 100.0 * width;
        var rightWidth := width - leftWidth;
        var rightX := leftWidth + trueX;
        ghost var halves := Split(trueX, trueY, width, height, splitPercent, vertical);
        assert halves.0 == Frame(trueX, trueY, leftWidth, height);
        assert halves.1 == Frame(rightX, trueY, rightWidth, height);
        left.Draw(trueX, trueY, leftWidth, height);
        right.Draw(rightX, trueY, rightWidth, height);
      }
    }
  }
}
