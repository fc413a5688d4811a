/** The depth sorter (cDepthSort.go; component.go carries an identical
    copy): an object's draw depth, which a y-sorting component keeps at
    the vertical centre of the object's body. */
module DepthSort {
  import opened Prelude
  import opened Bodies

  class DepthSortComponent {
    var depth: real
    const ySort: bool

    /** `NewDepthSortComponent`: depth 0, y-sorting as asked. */
    constructor (autoYSort: bool)
      ensures depth == 0.0 && ySort == autoYSort
    {
      depth := 0.0;
      ySort := autoYSort;
    }

    /** One tick: a y-sorting component on an object with a body takes the
        body's vertical centre as its depth, so that an object lower on
        the screen is drawn later; otherwise the depth is kept. */
    method Update(body: BodyComponent?)
      modifies this
      ensures ySort && body != null ==> depth == body.Center().y
      ensures ySort && body != null && body.h >= 0.0 ==> body.y <= depth <= body.y + body.h
      ensures !(ySort && body != null) ==> depth == old(depth)
    {
      if ySort && body != null {
        depth := body.Center().y;
      }
    }
  }

  /** Of two y-sorted bodies of the same height, the one whose top is
      higher on the screen gets the smaller depth and is drawn first. */
  lemma LowerDrawnLater(a: BodyComponent, b: BodyComponent)
    requires a.h == b.h && a.y < b.y
    ensures a.Center().y < b.Center().y
  {
  }
}
