/** `SliderControl`: a track with a draggable thumb whose position is a
    percentage of the track. */
module SliderControls {
  import opened Options
  import opened JavaNumerics
  import opened Geometry
  import opened Themes
  import opened InteractiveControls

  /** `Math.max(0, Math.min(v, 100))` on finite values. */
  function Clamp100(v: real): (r: real)
    ensures 0.0 <= r <= 100.0
    ensures 0.0 <= v <= 100.0 ==> r == v
    ensures v < 0.0 ==> r == 0.0
    ensures v > 100.0 ==> r == 100.0
  {
    if v <= 100.0 then (if v >= 0.0 then v else 0.0) else 100.0
  }

  /** The percentage a drag sets: the cursor's offset along the axis over
      the travel (track length minus thumb length), times 100, clamped.
      With no travel the float division gives an infinity, which the clamp
      turns into 100 or 0, or NaN for a zero offset, which passes through
      `Math.min` and `Math.max` unchanged. */
  function DragPercent(offset: int, travel: int): (p: Float)
    ensures p == NaN <==> offset == 0 && travel == 0
    ensures p.Num? ==> 0.0 <= p.v <= 100.0
    ensures travel != 0 ==> p == Num(Clamp100(offset as real / travel as real * 100.0))
    ensures travel == 0 && offset > 0 ==> p == Num(100.0)
    ensures travel == 0 && offset < 0 ==> p == Num(0.0)
  {
    if travel == 0 then
      (if offset > 0 then Num(100.0) else if offset < 0 then Num(0.0) else NaN)
    else
      Num(Clamp100(offset as real / travel as real * 100.0))
  }

  /** With positive travel, dragging further along the axis never lowers
      the percentage. */
  lemma DragMonotone(offset1: int, offset2: int, travel: int)
    requires travel > 0 && offset1 <= offset2
    ensures DragPercent(offset1, travel).v <= DragPercent(offset2, travel).v
  {
    var t := travel as real;
    assert offset1 as real / t <= offset2 as real / t by {
      assert offset2 as real / t - offset1 as real / t == (offset2 - offset1) as real / t;
    }
  }

  /** The two ends of the travel map to 0 and 100. */
  lemma DragEnds(travel: int)
    requires travel > 0
    ensures DragPercent(0, travel) == Num(0.0)
    ensures DragPercent(travel, travel) == Num(100.0)
  {
    assert travel as real / travel as real == 1.0;
  }

  /** A thumb 10 long on a track 110 long: local offset 55 gives 55 percent,
      and offsets before and after the track clamp to 0 and 100. */
  lemma DragExample()
    ensures DragPercent(55, 110 - 10) == Num(55.0)
    ensures DragPercent(-20, 110 - 10) == Num(0.0)
    ensures DragPercent(500, 110 - 10) == Num(100.0)
  {
  }

  /** The thumb's offset along the axis: the percentage of the travel,
      truncated by the `(int)` cast; a NaN percentage gives 0. */
  function ThumbOffset(percent: Float, travel: int): int
  {
    FloatToInt(match percent
               case Num(p) => Num(p / 100.0 * travel as real)
               case NaN => NaN)
  }

  /** The thumb rectangle: `barLength` long along the axis at the thumb
      offset, the full size of the track across it. */
  function Thumb(track: Rect, horizontal: bool, percent: Float, barLength: int): (r: Rect)
    ensures horizontal ==> r.y == track.y && r.height == track.height && r.width == barLength
                           && r.x == track.x + ThumbOffset(percent, track.width - barLength)
    ensures !horizontal ==> r.x == track.x && r.width == track.width && r.height == barLength
                            && r.y == track.y + ThumbOffset(percent, track.height - barLength)
  {
    if horizontal then
      Rect(track.x + ThumbOffset(percent, track.width - barLength), track.y, barLength, track.height)
    else
      Rect(track.x, track.y + ThumbOffset(percent, track.height - barLength), track.width, barLength)
  }

  /** The offset lies within the travel when the percentage is in range. */
  lemma ThumbOffsetInRange(percent: Float, travel: int)
    requires travel >= 0
    requires percent.Num? ==> 0.0 <= percent.v <= 100.0
    ensures 0 <= ThumbOffset(percent, travel) <= travel
  {
    if percent.Num? {
      var x := percent.v / 100.0 * travel as real;
      assert 0.0 <= x <= travel as real by {
        assert percent.v / 100.0 <= 1.0;
      }
    }
  }

  /** The thumb lies inside the track whenever the percentage is in range
      (or NaN) and the track is at least as long as the thumb. */
  lemma ThumbInsideTrack(track: Rect, horizontal: bool, percent: Float, barLength: int)
    requires horizontal ==> track.width >= barLength
    requires !horizontal ==> track.height >= barLength
    requires percent.Num? ==> 0.0 <= percent.v <= 100.0
    ensures Covers(track, Thumb(track, horizontal, percent, barLength))
  {
    if horizontal {
      ThumbOffsetInRange(percent, track.width - barLength);
    } else {
      ThumbOffsetInRange(percent, track.height - barLength);
    }
  }

  class SliderControl {
    const id: string
    const interactive: InteractiveControl
    var sliderStyle: Option<StyleRef>
    var defaultStyle: Option<StyleRef>
    var scrollPercent: Float
    var horizontal: bool
    var barLength: int
    /** The percentage handed to each `onSlide` call so far. */
    ghost var slides: seq<Float>

    /** Defaults: no thumb style, 0 percent, vertical, thumb length 1. */
    constructor (base: InteractiveControl)
      ensures id == "slider" && interactive == base
      ensures sliderStyle == None && defaultStyle == None && scrollPercent == Num(0.0)
      ensures !horizontal && barLength == 1 && slides == []
    {
      id := "slider";
      interactive := base;
      sliderStyle, defaultStyle := None, None;
      scrollPercent := Num(0.0);
      horizontal := false;
      barLength := 1;
      slides := [];
    }

    method SliderStyle(style: Option<StyleRef>)
      modifies this`sliderStyle
      ensures sliderStyle == style
    {
      sliderStyle := style;
    }

    /** Stores the percentage as given: no clamp. */
    method ScrollPercent(value: Float)
      modifies this`scrollPercent
      ensures scrollPercent == value
    {
      scrollPercent := value;
    }

    method Horizontal(value: bool)
      modifies this`horizontal
      ensures horizontal == value
    {
      horizontal := value;
    }

    method BarLength(value: int)
      modifies this`barLength
      ensures barLength == value
    {
      barLength := value;
    }

    /** `preDraw`: only while the mouse is over the slider and the left
        button is held (`leftHeld`, the GUI's `mouseButtonHeld("left")`)
        does the percentage follow the cursor, followed by one `onSlide`. */
    method PreDraw(leftHeld: bool, mouseX: int, mouseY: int)
      modifies this`scrollPercent, this`slides
      ensures !(interactive.isMouseWithin && leftHeld) ==> scrollPercent == old(scrollPercent) && slides == old(slides)
      ensures interactive.isMouseWithin && leftHeld && horizontal ==>
                scrollPercent == DragPercent(mouseX - interactive.trueX, interactive.areaWidth - barLength)
      ensures interactive.isMouseWithin && leftHeld && !horizontal ==>
                scrollPercent == DragPercent(mouseY - interactive.trueY, interactive.areaHeight - barLength)
      ensures interactive.isMouseWithin && leftHeld ==> slides == old(slides) + [scrollPercent]
    {
      if interactive.isMouseWithin && leftHeld {
        if horizontal {
          scrollPercent := DragPercent(mouseX - interactive.trueX, interactive.areaWidth - barLength);
        } else {
          scrollPercent := DragPercent(mouseY - interactive.trueY, interactive.areaHeight - barLength);
        }
        slides := slides + [scrollPercent];
      }
    }

    /** `draw`: the thumb rectangle handed to the slider style, or nothing
        without a style. After a drag the thumb stays inside the track. */
    method Draw() returns (thumb: Option<Rect>)
      ensures sliderStyle == None ==> thumb == None
      ensures sliderStyle != None ==>
                thumb == Some(Thumb(Rect(interactive.trueX, interactive.trueY, interactive.areaWidth,
                                         interactive.areaHeight), horizontal, scrollPercent, barLength))
    {
      var track := Rect(interactive.trueX, interactive.trueY, interactive.areaWidth, interactive.areaHeight);
      var sliderX, sliderY := track.x, track.y;
      var sliderWidth, sliderHeight := track.width, track.height;
      if horizontal {
        sliderX := sliderX + ThumbOffset(scrollPercent, track.width - barLength);
        sliderWidth := barLength;
      } else {
        sliderY := sliderY + ThumbOffset(scrollPercent, track.height - barLength);
        sliderHeight := barLength;
      }
      if sliderStyle == None {
        thumb := None;
      } else {
        thumb := Some(Rect(sliderX, sliderY, sliderWidth, sliderHeight));
      }
    }

    /** `applyTheme`: the "default" and "slider" styles of the theme. */
    method ApplyTheme(default: Option<StyleRef>, slider: Option<StyleRef>)
      modifies this`defaultStyle, this`sliderStyle
      ensures defaultStyle == default && sliderStyle == slider
    {
      defaultStyle := default;
      sliderStyle := slider;
    }
  }
}
