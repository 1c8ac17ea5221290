/** `PagePanelControl`: a panel that shows one child, the current page. */
module PagePanels {
  import opened Options
  import opened Controls

  /** `page(p)`: below 0 gives 0, at or past the end gives the last index,
      anything else is kept. */
  function ClampPage(p: int, size: nat): (r: int)
    ensures p < 0 ==> r == 0
    ensures 0 <= p < size ==> r == p
    ensures p >= 0 && p >= size ==> r == size - 1
  {
    if p < 0 then 0 else if p >= size then size - 1 else p
  }

  /** With at least one child the page is a valid index. */
  lemma ClampInRange(p: int, size: nat)
    requires size > 0
    ensures 0 <= ClampPage(p, size) < size
  {
  }

  /** With at least one child, clamping a clamped page changes nothing. */
  lemma ClampIdempotent(p: int, size: nat)
    requires size > 0
    ensures ClampPage(ClampPage(p, size), size) == ClampPage(p, size)
  {
  }

  /** Without children the clamp is not idempotent: any `p >= 0` gives -1,
      which is then clamped to 0, which gives -1 again. */
  lemma EmptyPanelOscillates(p: int)
    requires p >= 0
    ensures ClampPage(p, 0) == -1
    ensures ClampPage(ClampPage(p, 0), 0) == 0
    ensures ClampPage(ClampPage(ClampPage(p, 0), 0), 0) == -1
  {
  }

  /** Paging saturates: next on the last page and previous on the first
      page stay put. */
  lemma PagingSaturates(size: nat)
    requires size > 0
    ensures ClampPage((size - 1) + 1, size) == size - 1
    ensures ClampPage(0 - 1, size) == 0
  {
  }

  /** What `arrangeChildren` does with the current page. */
  datatype Arranged =
    | PreDrawn(child: ControlRef)   // the current child receives `preDraw`
    | NullChild                     // the slot holds null: nothing happens
    | IndexOutOfBounds              // `children.get(page)` throws

  class PagePanelControl {
    const id: string
    /** The panel's children, as the base panel keeps them; a slot may be null. */
    var children: seq<Option<ControlRef>>
    var page: int

    constructor (initial: seq<Option<ControlRef>>)
      ensures id == "page_panel_control" && children == initial && page == 0
    {
      id := "page_panel_control";
      children := initial;
      page := 0;
    }

    method Page(p: int)
      modifies this`page
      ensures page == ClampPage(p, |children|)
    {
      if p < 0 {
        page := 0;
      } else if p >= |children| {
        page := |children| - 1;
      } else {
        page := p;
      }
    }

    method NextPage()
      modifies this`page
      ensures page == ClampPage(old(page) + 1, |children|)
    {
      Page(page + 1);
    }

    method PreviousPage()
      modifies this`page
      ensures page == ClampPage(old(page) - 1, |children|)
    {
      Page(page - 1);
    }

    method FlipPages(count: int)
      modifies this`page
      ensures page == ClampPage(old(page) + count, |children|)
    {
      Page(page + count);
    }

    /** `arrangeChildren`: only the child at the current page is laid out. */
    method ArrangeChildren() returns (result: Arranged)
      ensures result == IndexOutOfBounds <==> !(0 <= page < |children|)
      ensures result == NullChild <==> 0 <= page < |children| && children[page] == None
      ensures forall c :: result == PreDrawn(c) <==> 0 <= page < |children| && children[page] == Some(c)
    {
      if page < 0 || page >= |children| {
        return IndexOutOfBounds;
      }
      var child := children[page];
      if child == None {
        result := NullChild;
      } else {
        result := PreDrawn(child.value);
      }
    }

    /** `shouldDraw`: the child's first position among the children is the
        page. So a child is drawn exactly when the current page holds it and
        no earlier page does, or when the page is -1 (where an empty panel
        leaves it) and the child is not among the children at all, since
        `indexOf` answers -1 for a missing element. */
    predicate ShouldDraw(child: ControlRef): (drawn: bool)
      reads this
      ensures drawn <==> (0 <= page < |children| && children[page] == Some(child)
                          && forall j :: 0 <= j < page ==> children[j] != Some(child))
                         || (page == -1 && Some(child) !in children)
    {
      assert 0 <= page < |children| ==> children[page] in children;
      IndexOf(children, Some(child)) == page
    }

    /** Among children that appear once, exactly the one at the current page
        is drawn. */
    lemma OnlyCurrentPageDrawn(i: int)
      requires 0 <= i < |children| && children[i].Some?
      requires forall j :: 0 <= j < |children| && j != i ==> children[j] != children[i]
      ensures ShouldDraw(children[i].value) <==> i == page
    {
      var k := IndexOf(children, children[i]);
      assert k == i;
    }

    /** A child listed twice is drawn only when the page is its first
        position: the page at its second position draws nothing. */
    lemma DuplicateChildHidden(c: ControlRef)
      requires children == [Some(c), Some(c)] && page == 1
      ensures !ShouldDraw(c)
    {
    }
  }
}
