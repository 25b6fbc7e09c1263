/**
 * The masonry gallery: the column count chosen from the window width, the
 * infinite-scroll page size, the round-robin distribution of the visible items
 * into columns, and the thumbnail fallback of one gallery tile.
 */
module Gallery {
  import opened Text
  import opened Types
  import opened ImageOptimizer

  const ItemsPerPage := 48

  /** useColumnCount: the Tailwind breakpoints 2xl, xl, lg and md. */
  function ColumnCount(width: int): (n: int)
    ensures 2 <= n <= 6
  {
    if width >= 1536 then 6
    else if width >= 1280 then 5
    else if width >= 1024 then 4
    else if width >= 768 then 3
    else 2
  }

  /** A wider window never has fewer columns. */
  lemma ColumnCountMonotone(w1: int, w2: int)
    requires w1 <= w2
    ensures ColumnCount(w1) <= ColumnCount(w2)
  {
  }

  function Min(a: int, b: int): int {
    if a <= b then a else b
  }

  // ---------------------------------------------------------------------------
  // Round-robin distribution

  /** A visible item with its position in the visible list. */
  datatype Placed = Placed(item: MediaItem, originalIndex: nat)

  /** Column `c` after the first `k` visible items have been dealt out over `n` columns. */
  function Column(visible: seq<MediaItem>, n: nat, c: nat, k: nat): seq<Placed>
    requires n > 0 && k <= |visible|
  {
    if k == 0 then []
    else Column(visible, n, c, k - 1) + (if (k - 1) % n == c then [Placed(visible[k - 1], k - 1)] else [])
  }

  /**
   * Column `c` holds the items whose index is `c` modulo `n`, each with its
   * own index, in strictly increasing index order, and every such item is there.
   */
  lemma {:induction false} ColumnFacts(visible: seq<MediaItem>, n: nat, c: nat, k: nat)
    requires n > 0 && k <= |visible|
    ensures var col := Column(visible, n, c, k);
      && (forall p :: 0 <= p < |col| ==>
            col[p].originalIndex < k && col[p].originalIndex % n == c
            && col[p].item == visible[col[p].originalIndex])
      && (forall p, q :: 0 <= p < q < |col| ==> col[p].originalIndex < col[q].originalIndex)
      && (forall j :: 0 <= j < k && j % n == c ==> exists p :: 0 <= p < |col| && col[p].originalIndex == j)
  {
    if k > 0 {
      ColumnFacts(visible, n, c, k - 1);
      var prev := Column(visible, n, c, k - 1);
      var col := Column(visible, n, c, k);
      if (k - 1) % n == c {
        assert col == prev + [Placed(visible[k - 1], k - 1)];
        assert col[|prev|].originalIndex == k - 1;
        forall j | 0 <= j < k && j % n == c ensures exists p :: 0 <= p < |col| && col[p].originalIndex == j {
          if j < k - 1 {
            var p :| 0 <= p < |prev| && prev[p].originalIndex == j;
            assert col[p] == prev[p];
          }
        }
      } else {
        assert col == prev;
      }
    }
  }

  /** The `columns` memo: visible item `i` is pushed onto column `i % n`. */
  method Distribute(visible: seq<MediaItem>, n: nat) returns (cols: seq<seq<Placed>>)
    requires n > 0
    ensures |cols| == n
    ensures forall c :: 0 <= c < n ==> cols[c] == Column(visible, n, c, |visible|)
  {
    cols := seq(n, c => []);
    var index := 0;
    while index < |visible|
      invariant index <= |visible| && |cols| == n
      invariant forall c :: 0 <= c < n ==> cols[c] == Column(visible, n, c, index)
    {
      var c := index % n;
      cols := cols[c := cols[c] + [Placed(visible[index], index)]];
      index := index + 1;
    }
  }

  // ---------------------------------------------------------------------------
  // Paging

  /** The infinite-scroll step: one more page, never past the end of the list. */
  function NextCount(visibleCount: int, length: nat): int {
    Min(visibleCount + ItemsPerPage, length)
  }

  function LoadMoreTimes(visibleCount: int, length: nat, k: nat): int
    decreases k
  {
    if k == 0 then visibleCount else LoadMoreTimes(NextCount(visibleCount, length), length, k - 1)
  }

  /** Enough page loads show the whole list: `k` pages of 48 cover it. */
  lemma {:induction false} LoadMoreReachesEnd(visibleCount: nat, length: nat, k: nat)
    requires k > 0 && visibleCount + k * ItemsPerPage >= length
    ensures LoadMoreTimes(visibleCount, length, k) == length
    decreases k
  {
    var next: nat := NextCount(visibleCount, length);
    if k > 1 {
      if next == length {
        StaysAtEnd(length, k - 1);
      } else {
        LoadMoreReachesEnd(next, length, k - 1);
      }
    }
  }

  lemma {:induction false} StaysAtEnd(length: nat, k: nat)
    ensures LoadMoreTimes(length, length, k) == length
  {
    if k > 0 {
      StaysAtEnd(length, k - 1);
    }
  }

  /** The gallery's own state: the items to show and how many of them are rendered. */
  class GalleryView {
    var items: seq<MediaItem>
    var visibleCount: nat

    constructor (items: seq<MediaItem>)
      ensures this.items == items && visibleCount == ItemsPerPage
    {
      this.items := items;
      visibleCount := ItemsPerPage;
    }

    /** A new list resets the rendered count to one page. */
    method SetItems(newItems: seq<MediaItem>)
      modifies this
      ensures items == newItems && visibleCount == ItemsPerPage
    {
      items := newItems;
      visibleCount := ItemsPerPage;
    }

    /** The loader came into view: one more page. */
    method LoadMore()
      modifies this
      ensures items == old(items)
      ensures visibleCount == NextCount(old(visibleCount), |items|)
      ensures visibleCount <= |items|
      ensures old(visibleCount) < |items| ==> old(visibleCount) < visibleCount
    {
      visibleCount := Min(visibleCount + ItemsPerPage, |items|);
    }

    /**
     * scrollToItem: an item beyond the rendered ones makes the gallery render
     * up to 50 items past it; afterwards any existing item asked for is rendered.
     */
    method ScrollToItem(index: int)
      modifies this
      ensures items == old(items)
      ensures old(visibleCount) <= index ==> visibleCount == Min(index + 50, |items|)
      ensures index < old(visibleCount) ==> visibleCount == old(visibleCount)
      ensures 0 <= index < |items| ==> index < visibleCount
    {
      if index >= visibleCount {
        visibleCount := Min(index + 50, |items|);
      }
    }

    /** `items.slice(0, visibleCount)`. */
    function VisibleItems(): (r: seq<MediaItem>)
      reads this
      ensures |r| == Min(visibleCount, |items|)
      ensures r == items[..|r|]
    {
      items[..Min(visibleCount, |items|)]
    }

    /** The loader is rendered, and more pages can come, exactly while some items are not rendered. */
    predicate LoaderShown()
      reads this
    {
      visibleCount < |items|
    }

    /** An empty list renders nothing. */
    predicate Renders()
      reads this
    {
      |items| > 0
    }

    /** The columns of the current layout. */
    method Columns(columnCount: nat) returns (cols: seq<seq<Placed>>)
      requires columnCount > 0
      ensures |cols| == columnCount
      ensures forall c :: 0 <= c < columnCount ==> cols[c] == Column(VisibleItems(), columnCount, c, |VisibleItems()|)
    {
      cols := Distribute(VisibleItems(), columnCount);
    }
  }

  /** Once the loader is gone every item is rendered. */
  lemma AllRenderedWithoutLoader(g: GalleryView)
    requires !g.LoaderShown()
    ensures g.VisibleItems() == g.items
  {
  }

  // ---------------------------------------------------------------------------
  // One gallery tile

  /** The image source and the error flag of a tile. */
  datatype TileState = TileState(src: string, hasError: bool)

  /** The initial source: an image shows its thumbnail, anything else its own URL. */
  function InitialTile(item: MediaItem, enc: string -> string): (t: TileState)
    ensures !t.hasError
    ensures item.kind == Image ==> t.src == ThumbnailUrl(item.url, enc)
    ensures item.kind != Image ==> t.src == item.url
  {
    TileState(if item.kind == Image then ThumbnailUrl(item.url, enc) else item.url, false)
  }

  /** handleError as written: a `wsrv.nl` source falls back to the item's URL, anything else is an error. */
  function OnErrorAsWritten(t: TileState, url: string): TileState {
    if Contains(t.src, "wsrv.nl") then TileState(url, t.hasError) else TileState(t.src, true)
  }

  /** handleError with the fallback taken only when it changes the source. */
  function OnError(t: TileState, url: string): TileState {
    if Contains(t.src, "wsrv.nl") && t.src != url then TileState(url, t.hasError) else TileState(t.src, true)
  }

  function ErrorsAsWritten(t: TileState, url: string, k: nat): TileState
    decreases k
  {
    if k == 0 then t else ErrorsAsWritten(OnErrorAsWritten(t, url), url, k - 1)
  }

  function Errors(t: TileState, url: string, k: nat): TileState
    decreases k
  {
    if k == 0 then t else Errors(OnError(t, url), url, k - 1)
  }

  /**
   * As written, an image whose own URL names `wsrv.nl` never reaches the error
   * state: its thumbnail is its URL, and every failure "falls back" to it again.
   */
  lemma {:induction false} ProxiedImageNeverFails(item: MediaItem, enc: string -> string, k: nat)
    requires item.kind == Image && Contains(item.url, "wsrv.nl")
    ensures ErrorsAsWritten(InitialTile(item, enc), item.url, k) == TileState(item.url, false)
  {
    if k > 0 {
      ProxiedImageNeverFails(item, enc, k - 1);
      FallbackFixpoint(item.url, k - 1);
    }
  }

  lemma {:induction false} FallbackFixpoint(url: string, k: nat)
    requires Contains(url, "wsrv.nl")
    ensures ErrorsAsWritten(TileState(url, false), url, k) == TileState(url, false)
  {
    if k > 0 {
      FallbackFixpoint(url, k - 1);
    }
  }

  /** With the correction, a tile makes at most one fallback: two failures always show the error. */
  lemma AtMostOneFallback(item: MediaItem, enc: string -> string)
    ensures Errors(InitialTile(item, enc), item.url, 2).hasError
  {
  }

  /** The first failure of a rewritten thumbnail falls back to the original, without an error. */
  lemma ThumbnailFallsBack(item: MediaItem, enc: string -> string)
    requires item.kind == Image && !Optimized(item.url)
    ensures Errors(InitialTile(item, enc), item.url, 1) == TileState(item.url, false)
  {
    var e := enc(item.url);
    ProxyRequestOptimized(e, ThumbnailParams);
    assert ThumbnailUrl(item.url, enc) == ProxyEndpoint + e + ThumbnailParams;
    ThumbnailNotOriginal(item.url, e);
  }

  /** A rewritten thumbnail names the proxy, so it is never the original URL it was made from. */
  lemma ThumbnailNotOriginal(url: string, e: string)
    requires !Optimized(url)
    ensures ProxyEndpoint + e + ThumbnailParams != url
  {
    ProxyRequestOptimized(e, ThumbnailParams);
  }

  /** The correction changes nothing for a tile whose own URL does not name the proxy. */
  lemma {:induction false} CorrectionAgrees(t: TileState, url: string)
    requires !Contains(url, "wsrv.nl")
    ensures OnError(t, url) == OnErrorAsWritten(t, url)
  {
  }

  /** A mounted tile: its source, its error flag and whether it has loaded. */
  class GalleryItem {
    const item: MediaItem
    var imgSrc: string
    var hasError: bool
    var isLoaded: bool

    constructor (item: MediaItem, enc: string -> string)
      ensures this.item == item && TileState(imgSrc, hasError) == InitialTile(item, enc) && !isLoaded
    {
      this.item := item;
      imgSrc := if item.kind == Image then ThumbnailUrl(item.url, enc) else item.url;
      hasError := false;
      isLoaded := false;
    }

    /** The image failed to load. */
    method HandleError()
      modifies this
      ensures TileState(imgSrc, hasError) == OnError(old(TileState(imgSrc, hasError)), item.url)
      ensures isLoaded == old(isLoaded)
    {
      if Contains(imgSrc, "wsrv.nl") && imgSrc != item.url {
        imgSrc := item.url;
      } else {
        hasError := true;
      }
    }

    /** The image loaded. */
    method HandleLoad()
      modifies this
      ensures isLoaded && imgSrc == old(imgSrc) && hasError == old(hasError)
    {
      isLoaded := true;
    }
  }
}
