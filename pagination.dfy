/** `get_playlist_tracks`: follow the provider's `next` cursors and gather
    every page's items. The pages the provider would return, in the order it
    would return them, are given as a sequence: `pages[0]` answers the first
    request and `pages[k + 1]` answers `sp.next` on `pages[k]`. */
module Pagination {
  import opened Wrappers

  datatype Page<T> = Page(items: seq<T>, next: Option<string>)

  /** `while results['next']`: Python truth, so both None and "" stop the loop. */
  predicate HasNext<T>(p: Page<T>)
  {
    p.next.Some? && p.next.value != ""
  }

  /** The provider eventually answers with a page that has no next cursor. */
  predicate Ends<T>(pages: seq<Page<T>>)
  {
    exists j :: 0 <= j < |pages| && !HasNext(pages[j])
  }

  /** The position of the first page without a next cursor: the last page requested. */
  function LastRequested<T>(pages: seq<Page<T>>): (r: nat)
    requires Ends(pages)
    ensures r < |pages| && !HasNext(pages[r])
    ensures forall j :: 0 <= j < r ==> HasNext(pages[j])
  {
    if !HasNext(pages[0]) then 0
    else
      assert Ends(pages[1..]) by {
        var j :| 0 <= j < |pages| && !HasNext(pages[j]);
        assert pages[1..][j - 1] == pages[j];
      }
      1 + LastRequested(pages[1..])
  }

  /** The items of `pages`, page after page. */
  function ItemsOf<T>(pages: seq<Page<T>>): seq<T>
  {
    if pages == [] then [] else ItemsOf(pages[..|pages| - 1]) + pages[|pages| - 1].items
  }

  /** Gathering distributes over runs of pages. */
  lemma {:induction false} ItemsOfAppend<T>(a: seq<Page<T>>, b: seq<Page<T>>)
    ensures ItemsOf(a + b) == ItemsOf(a) + ItemsOf(b)
  {
    if b == [] {
      assert a + b == a;
    } else {
      ItemsOfAppend(a, b[..|b| - 1]);
      assert (a + b)[..|a + b| - 1] == a + b[..|b| - 1];
    }
  }

  /** The first page's items come first, then each later page's items. */
  lemma ItemsOfFirstPage<T>(p: Page<T>, rest: seq<Page<T>>)
    ensures ItemsOf([p] + rest) == p.items + ItemsOf(rest)
  {
    ItemsOfAppend([p], rest);
    assert ItemsOf([p]) == ItemsOf([]) + p.items;
  }

  /** Every item is gathered exactly once: the total is the sum of the page sizes. */
  lemma {:induction false} ItemsOfLength<T>(pages: seq<Page<T>>)
    ensures |ItemsOf(pages)| == TotalItems(pages)
  {
    if pages != [] {
      ItemsOfLength(pages[1..]);
      ItemsOfFirstPage(pages[0], pages[1..]);
      assert pages == [pages[0]] + pages[1..];
    }
  }

  function TotalItems<T>(pages: seq<Page<T>>): nat
  {
    if pages == [] then 0 else |pages[0].items| + TotalItems(pages[1..])
  }

  /** The loop of `get_playlist_tracks`. It requests the pages up to and
      including the first one without a next cursor (`requested` of them)
      and returns their items in order; later pages are never requested. */
  method GetPlaylistTracks<T>(pages: seq<Page<T>>) returns (tracks: seq<T>, requested: nat)
    requires Ends(pages)
    ensures requested == LastRequested(pages) + 1
    ensures tracks == ItemsOf(pages[..requested])
  {
    var results := pages[0];
    requested := 1;
    tracks := results.items;
    assert pages[..1] == [pages[0]];
    assert ItemsOf(pages[..1]) == ItemsOf([]) + pages[0].items;
    while HasNext(results)
      invariant 1 <= requested <= LastRequested(pages) + 1
      invariant results == pages[requested - 1]
      invariant tracks == ItemsOf(pages[..requested])
      decreases |pages| - requested
    {
      results := pages[requested];
      assert pages[..requested + 1][..requested] == pages[..requested];
      requested := requested + 1;
      tracks := tracks + results.items;
    }
  }
}
