/**
 * The full-screen viewer: navigation between items, the swipe gesture that
 * drives it, the zoom tracking that disables the swipe, and the choice between
 * the optimised and the original image.
 */
module Lightbox {
  import opened Wrappers
  import opened Types
  import opened ImageOptimizer

  /** Above this scale the viewer counts as zoomed in, and swipes are ignored. */
  const SwipeScaleLimit: real := 1.05
  /** Above this scale the zoomed flag is raised. */
  const ZoomedScale: real := 1.01
  /** The share of the finger's travel kept when dragging past the first or the last item. */
  const EdgeResistance: real := 0.3
  /** The share of the window width a drag must exceed to change item. */
  const SwipeShare: real := 0.2

  function Abs(x: real): real {
    if x < 0.0 then -x else x
  }

  /** An on-screen touch point. */
  datatype Point = Point(x: real, y: real)

  /** How a finished drag moves the index: +1, -1 or 0. */
  function SwipeStep(offset: real, innerWidth: real, index: int, count: nat): (step: int)
    ensures step == 1 <==> offset < -innerWidth * SwipeShare && index < count - 1
    ensures innerWidth >= 0.0 ==> (step == -1 <==> offset > innerWidth * SwipeShare && index > 0)
    ensures step == 1 ==> index < count - 1
    ensures step == -1 ==> index > 0
    ensures -1 <= step <= 1
  {
    var threshold := innerWidth * SwipeShare;
    if offset < -threshold && index < count - 1 then 1
    else if offset > threshold && index > 0 then -1
    else 0
  }

  /** A drag is only taken when it exceeds the threshold in one direction. */
  lemma SmallDragStays(offset: real, innerWidth: real, index: int, count: nat)
    requires Abs(offset) <= innerWidth * SwipeShare
    ensures SwipeStep(offset, innerWidth, index, count) == 0
  {
  }

  /** The drag offset for a horizontal travel `dx`, damped at the ends of the list. */
  function DragOffset(dx: real, index: int, count: nat): (offset: real)
    ensures (index == 0 && dx > 0.0) || (index == count - 1 && dx < 0.0) ==> offset == dx * EdgeResistance
    ensures !((index == 0 && dx > 0.0) || (index == count - 1 && dx < 0.0)) ==> offset == dx
    ensures Abs(offset) <= Abs(dx)
    ensures (offset < 0.0 <==> dx < 0.0) && (offset > 0.0 <==> dx > 0.0)
  {
    if (index == 0 && dx > 0.0) || (index == count - 1 && dx < 0.0) then dx * EdgeResistance else dx
  }

  /** Dragging away from the first item, or past the last one, is damped. */
  lemma EdgesResist(dx: real, count: nat)
    requires count > 0
    ensures dx > 0.0 ==> DragOffset(dx, 0, count) == dx * EdgeResistance
    ensures dx < 0.0 ==> DragOffset(dx, count - 1, count) == dx * EdgeResistance
  {
  }

  class LightboxView {
    const items: seq<MediaItem>
    var currentIndex: int
    var isImgLoading: bool
    var showShareMenu: bool
    var dragOffset: real
    var isDragging: bool
    var isZoomed: bool
    var scale: real
    var startX: Option<real>
    var startY: Option<real>
    var loadOriginal: bool

    /** The index points at an item. */
    predicate InRange()
      reads this
    {
      0 <= currentIndex < |items|
    }

    constructor (items: seq<MediaItem>, initialIndex: int)
      ensures this.items == items && currentIndex == initialIndex
      ensures isImgLoading && !showShareMenu && dragOffset == 0.0 && !isDragging
      ensures !isZoomed && scale == 1.0 && startX.None? && startY.None? && !loadOriginal
    {
      this.items := items;
      currentIndex := initialIndex;
      isImgLoading := true;
      showShareMenu := false;
      dragOffset := 0.0;
      isDragging := false;
      isZoomed := false;
      scale := 1.0;
      startX := None;
      startY := None;
      loadOriginal := false;
    }

    /** The view just moved to another item: loader on, optimised image, no menu, no zoom, no offset. */
    predicate FreshView()
      reads this
    {
      isImgLoading && !loadOriginal && !showShareMenu && scale == 1.0 && !isZoomed && dragOffset == 0.0
    }

    /** handleNext: the next item, unless this is the last one. */
    method HandleNext()
      modifies this
      ensures old(currentIndex) < |items| - 1 ==> currentIndex == old(currentIndex) + 1 && FreshView()
      ensures old(currentIndex) < |items| - 1 ==>
        isDragging == old(isDragging) && startX == old(startX) && startY == old(startY)
      ensures old(currentIndex) >= |items| - 1 ==> unchanged(this)
      ensures old(InRange()) ==> InRange()
    {
      if currentIndex < |items| - 1 {
        currentIndex := currentIndex + 1;
        ResetView();
      }
    }

    /** handlePrev: the previous item, unless this is the first one. */
    method HandlePrev()
      modifies this
      ensures old(currentIndex) > 0 ==> currentIndex == old(currentIndex) - 1 && FreshView()
      ensures old(currentIndex) > 0 ==>
        isDragging == old(isDragging) && startX == old(startX) && startY == old(startY)
      ensures old(currentIndex) <= 0 ==> unchanged(this)
      ensures old(InRange()) ==> InRange()
    {
      if currentIndex > 0 {
        currentIndex := currentIndex - 1;
        ResetView();
      }
    }

    method ResetView()
      modifies this
      ensures FreshView()
      ensures currentIndex == old(currentIndex) && isDragging == old(isDragging)
      ensures startX == old(startX) && startY == old(startY)
    {
      isImgLoading := true;
      loadOriginal := false;
      showShareMenu := false;
      scale := 1.0;
      isZoomed := false;
      dragOffset := 0.0;
    }

    /** handleTouchStart: a single finger on an unzoomed image starts a drag. */
    method HandleTouchStart(touches: seq<Point>)
      requires |touches| > 0
      modifies this
      ensures scale > SwipeScaleLimit || |touches| > 1 ==> unchanged(this)
      ensures !(scale > SwipeScaleLimit || |touches| > 1) ==>
        && startX == Some(touches[0].x) && startY == Some(touches[0].y) && isDragging
        && currentIndex == old(currentIndex) && dragOffset == old(dragOffset) && scale == old(scale)
        && isImgLoading == old(isImgLoading) && showShareMenu == old(showShareMenu)
        && isZoomed == old(isZoomed) && loadOriginal == old(loadOriginal)
    {
      if scale > SwipeScaleLimit || |touches| > 1 {
        return;
      }
      startX := Some(touches[0].x);
      startY := Some(touches[0].y);
      isDragging := true;
    }

    /** Whether a touch move is taken into account at all. */
    predicate Tracking()
      reads this
    {
      isDragging && startX.Some? && startY.Some? && scale <= SwipeScaleLimit
    }

    /**
     * handleTouchMove: a mostly vertical move cancels the drag; otherwise the
     * image follows the finger, damped at the ends of the list.
     */
    method HandleTouchMove(touch: Point)
      modifies this
      ensures !old(Tracking()) ==> unchanged(this)
      ensures old(Tracking()) ==>
        var dx, dy := touch.x - old(startX).value, touch.y - old(startY).value;
        && currentIndex == old(currentIndex) && startX == old(startX) && startY == old(startY)
        && scale == old(scale) && isZoomed == old(isZoomed) && isImgLoading == old(isImgLoading)
        && loadOriginal == old(loadOriginal) && showShareMenu == old(showShareMenu)
        && (Abs(dy) > Abs(dx) ==> !isDragging && dragOffset == 0.0)
        && (Abs(dy) <= Abs(dx) ==> isDragging && dragOffset == DragOffset(dx, currentIndex, |items|))
    {
      if !isDragging || startX.None? || startY.None? || scale > SwipeScaleLimit {
        return;
      }
      var diffX := touch.x - startX.value;
      var diffY := touch.y - startY.value;
      if Abs(diffY) > Abs(diffX) {
        isDragging := false;
        dragOffset := 0.0;
        return;
      }
      var isFirst := currentIndex == 0;
      var isLast := currentIndex == |items| - 1;
      if (isFirst && diffX > 0.0) || (isLast && diffX < 0.0) {
        dragOffset := diffX * EdgeResistance;
      } else {
        dragOffset := diffX;
      }
    }

    /**
     * handleTouchEnd: a drag past a fifth of the window width changes item when
     * there is one in that direction; the drag state is cleared in any case.
     */
    method HandleTouchEnd(innerWidth: real)
      modifies this
      ensures !old(isDragging) || old(startX).None? ==> unchanged(this)
      ensures old(isDragging) && old(startX).Some? ==>
        && currentIndex == old(currentIndex) + SwipeStep(old(dragOffset), innerWidth, old(currentIndex), |items|)
        && dragOffset == 0.0 && !isDragging && startX.None? && startY.None?
        && (SwipeStep(old(dragOffset), innerWidth, old(currentIndex), |items|) != 0 ==> FreshView())
        && (SwipeStep(old(dragOffset), innerWidth, old(currentIndex), |items|) == 0 ==>
              && scale == old(scale) && isZoomed == old(isZoomed) && isImgLoading == old(isImgLoading)
              && loadOriginal == old(loadOriginal) && showShareMenu == old(showShareMenu))
      ensures old(InRange()) ==> InRange()
    {
      if !isDragging || startX.None? {
        return;
      }
      var threshold := innerWidth * SwipeShare;
      if dragOffset < -threshold && currentIndex < |items| - 1 {
        HandleNext();
      } else if dragOffset > threshold && currentIndex > 0 {
        HandlePrev();
      }
      dragOffset := 0.0;
      isDragging := false;
      startX := None;
      startY := None;
    }

    /** onTransformed: the zoom library reports its scale; the zoomed flag follows it. */
    method HandleTransformed(newScale: real)
      modifies this
      ensures scale == newScale && isZoomed == (newScale > ZoomedScale)
      ensures currentIndex == old(currentIndex) && dragOffset == old(dragOffset) && isDragging == old(isDragging)
      ensures loadOriginal == old(loadOriginal) && isImgLoading == old(isImgLoading)
      ensures showShareMenu == old(showShareMenu) && startX == old(startX) && startY == old(startY)
    {
      scale := newScale;
      if newScale > ZoomedScale && !isZoomed {
        isZoomed := true;
      }
      if newScale <= ZoomedScale && isZoomed {
        isZoomed := false;
      }
    }

    /** getDisplayUrl: a video, or an image whose optimised version failed, is shown from its own URL. */
    function DisplayUrl(item: MediaItem, enc: string -> string): (r: string)
      reads this
      ensures item.kind == Video || loadOriginal ==> r == item.url
      ensures item.kind != Video && !loadOriginal ==> r == FullScreenUrl(item.url, enc) && Optimized(r)
    {
      if item.kind == Video then item.url
      else if loadOriginal then item.url
      else FullScreenUrl(item.url, enc)
    }

    /** handleError: fall back to the original image; a second failure changes nothing. */
    method HandleError()
      modifies this
      ensures loadOriginal
      ensures old(loadOriginal) ==> unchanged(this)
      ensures currentIndex == old(currentIndex) && isImgLoading == old(isImgLoading) && dragOffset == old(dragOffset)
      ensures showShareMenu == old(showShareMenu) && isZoomed == old(isZoomed) && scale == old(scale)
      ensures isDragging == old(isDragging) && startX == old(startX) && startY == old(startY)
    {
      if !loadOriginal {
        loadOriginal := true;
      }
    }
  }

  /** After a failure, every item is displayed from its own URL. */
  lemma OriginalAfterError(v: LightboxView, item: MediaItem, enc: string -> string)
    requires v.loadOriginal
    ensures v.DisplayUrl(item, enc) == item.url
  {
  }

  /** Without a failure, an image's display URL is already optimised, so the rewrite is not repeated. */
  lemma DisplayUrlStable(v: LightboxView, item: MediaItem, enc: string -> string)
    requires !v.loadOriginal && item.kind != Video
    ensures FullScreenUrl(v.DisplayUrl(item, enc), enc) == v.DisplayUrl(item, enc)
  {
    FullScreenIdempotent(item.url, enc);
  }
}
