/** `InteractiveControl`: a control that knows whether the mouse is over it. */
module InteractiveControls {
  import opened Geometry

  /** A screen-space vector in whole pixels. */
  datatype ScreenVec = ScreenVec(x: int, y: int)

  /** The inclusive hit test: the point lies on or inside the control's area
      placed at its true position. */
  predicate HitTest(trueX: int, trueY: int, width: int, height: int, mouseX: int, mouseY: int)
  {
    mouseX >= trueX && mouseX <= width + trueX && mouseY >= trueY && mouseY <= height + trueY
  }

  /** The hit test includes all four edges: the far corner of a control
      with a non-negative size is a hit, one pixel beyond either far edge is
      not. */
  lemma HitTestIsInclusiveRect(trueX: int, trueY: int, width: int, height: int, mouseX: int, mouseY: int)
    ensures width >= 0 && height >= 0 ==> HitTest(trueX, trueY, width, height, trueX + width, trueY + height)
    ensures !HitTest(trueX, trueY, width, height, trueX + width + 1, mouseY)
    ensures !HitTest(trueX, trueY, width, height, mouseX, trueY + height + 1)
  {
  }

  class InteractiveControl {
    /** Set by the base control's layout, which is not part of this model. */
    var visible: bool
    var trueX: int
    var trueY: int
    var areaWidth: int
    var areaHeight: int
    var isMouseWithin: bool

    /** A fresh control: the mouse flag starts false. */
    constructor (width: int, height: int)
      ensures visible && !isMouseWithin && trueX == 0 && trueY == 0
      ensures areaWidth == width && areaHeight == height
    {
      visible := true;
      trueX, trueY := 0, 0;
      areaWidth, areaHeight := width, height;
      isMouseWithin := false;
    }

    /** `preDraw`: an invisible control is left as it is; a visible one takes
        the true position the base layout computed (`layoutX`, `layoutY`) and
        sets the mouse flag by the inclusive hit test at that position. */
    method PreDraw(mouseX: int, mouseY: int, layoutX: int, layoutY: int)
      modifies this`trueX, this`trueY, this`isMouseWithin
      ensures !visible ==> trueX == old(trueX) && trueY == old(trueY) && isMouseWithin == old(isMouseWithin)
      ensures visible ==> trueX == layoutX && trueY == layoutY
      ensures visible ==> (isMouseWithin <==> WithinInclusive(Rect(trueX, trueY, areaWidth, areaHeight), mouseX, mouseY))
    {
      if !visible {
        return;
      }
      trueX, trueY := layoutX, layoutY;
      isMouseWithin := HitTest(trueX, trueY, areaWidth, areaHeight, mouseX, mouseY);
    }

    /** `relativeMousePosition`: the mouse position relative to the control;
        adding the true position back gives the mouse position again. */
    function RelativeMousePosition(mouseX: int, mouseY: int): (v: ScreenVec)
      reads this
      ensures v.x + trueX == mouseX && v.y + trueY == mouseY
    {
      ScreenVec(mouseX - trueX, mouseY - trueY)
    }

    /** `setMouseWithin`: stores the flag and nothing else. */
    method SetMouseWithin(value: bool)
      modifies this`isMouseWithin
      ensures isMouseWithin == value
    {
      isMouseWithin := value;
    }
  }
}
