/**
 * The two paginated listings: `getAllPlaylistTracks` (all items of every page)
 * and `findPlaylistByName` (first playlist with a given name). Responses are
 * scripted: page k answers the k-th request, made at offset `k * limit`.
 */
module Pagination {
  import opened Wrappers

  /** Page size used when searching the user's playlists. */
  const PlaylistPageLimit: nat := 50
  /** Page size used when reading a playlist's tracks. */
  const TrackPageLimit: nat := 100

  /** A page response: None when the response is null or carries no `items` list. */
  type Page<T> = Option<seq<T>>

  /** The page ends the listing: it is absent, or shorter than the page size. */
  predicate Stops<T>(page: Page<T>, limit: nat) {
    page.None? || |page.value| < limit
  }

  /** The scripted server eventually ends the listing (otherwise the script loops forever). */
  ghost predicate EventuallyStops<T>(pages: seq<Page<T>>, limit: nat) {
    exists j :: 0 <= j < |pages| && Stops(pages[j], limit)
  }

  /** Index of the first page that ends the listing. */
  function FirstStop<T>(pages: seq<Page<T>>, limit: nat): (n: nat)
    requires EventuallyStops(pages, limit)
    ensures n < |pages| && Stops(pages[n], limit)
    ensures forall j :: 0 <= j < n ==> !Stops(pages[j], limit)
    decreases |pages|
  {
    if Stops(pages[0], limit) then 0
    else
      var j :| 0 <= j < |pages| && Stops(pages[j], limit);
      assert pages[1..][j - 1] == pages[j];
      1 + FirstStop(pages[1..], limit)
  }

  /** The items of a list of pages, in order; an absent page contributes nothing. */
  function PageItems<T>(pages: seq<Page<T>>): seq<T>
    decreases |pages|
  {
    if |pages| == 0 then [] else pages[0].GetOr([]) + PageItems(pages[1..])
  }

  /** What a listing collected, and the offsets it requested, in request order. */
  datatype Listing<T> = Listing(items: seq<T>, offsets: seq<nat>)

  /**
   * The accumulate-all loop from the request at `offset` on: one request per
   * page up to and including the first page that stops the listing.
   */
  function ListFrom<T>(pages: seq<Page<T>>, limit: nat, offset: nat): (r: Listing<T>)
    requires EventuallyStops(pages, limit)
    ensures |r.offsets| == FirstStop(pages, limit) + 1
    ensures r.offsets[0] == offset
    ensures forall k :: 0 < k < |r.offsets| ==> r.offsets[k] == r.offsets[k - 1] + limit
    ensures r.items == PageItems(pages[..FirstStop(pages, limit) + 1])
    decreases |pages|
  {
    match pages[0]
    case None =>
      assert pages[..1] == [pages[0]];
      Listing([], [offset])
    case Some(items) =>
      if |items| < limit then
        assert pages[..1] == [pages[0]];
        Listing(items, [offset])
      else
        var j :| 0 <= j < |pages| && Stops(pages[j], limit);
        assert pages[1..][j - 1] == pages[j];
        var rest := ListFrom(pages[1..], limit, offset + limit);
        assert pages[..FirstStop(pages, limit) + 1][1..] == pages[1..][..FirstStop(pages[1..], limit) + 1];
        Listing(items + rest.items, [offset] + rest.offsets)
  }

  /** `getAllPlaylistTracks`: every item of every page, starting at offset 0. */
  function GetAllPlaylistTracks<T>(pages: seq<Page<T>>): Listing<T>
    requires EventuallyStops(pages, TrackPageLimit)
  {
    ListFrom(pages, TrackPageLimit, 0)
  }

  /** The offsets requested from 0 are 0, limit, 2·limit, ... */
  lemma {:induction false} OffsetsAreMultiples<T>(pages: seq<Page<T>>, limit: nat)
    requires EventuallyStops(pages, limit)
    ensures forall k :: 0 <= k < |ListFrom(pages, limit, 0).offsets| ==>
      ListFrom(pages, limit, 0).offsets[k] == k * limit
  {
    var offs := ListFrom(pages, limit, 0).offsets;
    forall k | 0 <= k < |offs|
      ensures offs[k] == k * limit
    {
      OffsetAt(offs, limit, k);
    }
  }

  lemma {:induction false} OffsetAt(offs: seq<nat>, limit: nat, k: nat)
    requires 0 < |offs| && offs[0] == 0
    requires forall i :: 0 < i < |offs| ==> offs[i] == offs[i - 1] + limit
    requires k < |offs|
    ensures offs[k] == k * limit
    decreases k
  {
    if k > 0 {
      OffsetAt(offs, limit, k - 1);
      assert k * limit == (k - 1) * limit + limit;
    }
  }

  /**
   * The pages a well-behaved server returns for a listing of `all`: full pages
   * of `limit` items, then one shorter page (empty when `limit` divides |all|).
   */
  function ServerPages<T>(all: seq<T>, limit: nat): (pages: seq<Page<T>>)
    requires limit > 0
    decreases |all|
  {
    if |all| < limit then [Some(all)]
    else [Some(all[..limit])] + ServerPages(all[limit..], limit)
  }

  /**
   * Against a well-behaved server the listing returns every item, in order,
   * with floor(N/P) + 1 requests for N items and page size P: ⌈N/P⌉ requests,
   * plus one empty trailing request when P divides N.
   */
  lemma {:induction false} ListingOfWellBehavedServer<T>(all: seq<T>, limit: nat, offset: nat)
    requires limit > 0
    ensures EventuallyStops(ServerPages(all, limit), limit)
    ensures ListFrom(ServerPages(all, limit), limit, offset).items == all
    ensures var requests := |ListFrom(ServerPages(all, limit), limit, offset).offsets|;
      (requests - 1) * limit <= |all| < requests * limit
    decreases |all|
  {
    if |all| < limit {
      assert Stops(ServerPages(all, limit)[0], limit);
    } else {
      assert all == all[..limit] + all[limit..];
      ListingOfWellBehavedServer(all[limit..], limit, offset + limit);
      var tail := ListFrom(ServerPages(all[limit..], limit), limit, offset + limit);
      ServerPagesStep(all, limit, offset);
      RequestCountStep(|tail.offsets|, limit, |all[limit..]|);
    }
  }

  /** A well-behaved server's first full page is followed by the listing of the rest. */
  lemma ServerPagesStep<T>(all: seq<T>, limit: nat, offset: nat)
    requires limit > 0 && |all| >= limit
    requires EventuallyStops(ServerPages(all[limit..], limit), limit)
    ensures EventuallyStops(ServerPages(all, limit), limit)
    ensures ListFrom(ServerPages(all, limit), limit, offset) ==
      var tail := ListFrom(ServerPages(all[limit..], limit), limit, offset + limit);
      Listing(all[..limit] + tail.items, [offset] + tail.offsets)
  {
    var pages := ServerPages(all, limit);
    assert pages[1..] == ServerPages(all[limit..], limit);
    ListFromFullPage(pages, limit, offset);
  }

  /** A full first page is followed by the listing of the remaining pages. */
  lemma ListFromFullPage<T>(pages: seq<Page<T>>, limit: nat, offset: nat)
    requires |pages| > 0 && pages[0].Some? && |pages[0].value| >= limit
    requires EventuallyStops(pages[1..], limit)
    ensures EventuallyStops(pages, limit)
    ensures ListFrom(pages, limit, offset) ==
      var rest := ListFrom(pages[1..], limit, offset + limit);
      Listing(pages[0].value + rest.items, [offset] + rest.offsets)
  {
    var j :| 0 <= j < |pages[1..]| && Stops(pages[1..][j], limit);
    assert pages[j + 1] == pages[1..][j];
  }

  lemma RequestCountStep(n: int, limit: nat, m: nat)
    requires (n - 1) * limit <= m < n * limit
    ensures n * limit <= m + limit < (n + 1) * limit
  {
    assert (n + 1) * limit == n * limit + limit;
    assert n * limit == (n - 1) * limit + limit;
  }

  /** A playlist of the user's: its identifier and its name. */
  datatype Playlist = Playlist(id: string, name: string)

  /** A non-null playlist entry with the given name. */
  predicate Named(p: Option<Playlist>, name: string) {
    p.Some? && p.value.name == name
  }

  /** The first non-null entry named `name`, if any (the inner `for` of `findPlaylistByName`). */
  function FirstNamed(items: seq<Option<Playlist>>, name: string): (r: Option<Playlist>)
    ensures r.None? <==> forall k :: 0 <= k < |items| ==> !Named(items[k], name)
    ensures r.Some? ==> exists k :: 0 <= k < |items| && items[k] == r && Named(r, name) &&
                          forall j :: 0 <= j < k ==> !Named(items[j], name)
    decreases |items|
  {
    if |items| == 0 then None
    else if Named(items[0], name) then items[0]
    else
      var r := FirstNamed(items[1..], name);
      assert forall k :: 1 <= k < |items| ==> items[k] == items[1..][k - 1];
      r
  }

  /** Searching a concatenation: the first list is searched first. */
  lemma {:induction false} FirstNamedAppend(a: seq<Option<Playlist>>, b: seq<Option<Playlist>>, name: string)
    ensures FirstNamed(a + b, name) ==
      if FirstNamed(a, name).Some? then FirstNamed(a, name) else FirstNamed(b, name)
    decreases |a|
  {
    if |a| == 0 {
      assert a + b == b;
    } else {
      assert (a + b)[1..] == a[1..] + b;
      FirstNamedAppend(a[1..], b, name);
    }
  }

  /** The search ends at this page: it stops the listing, or holds a match. */
  predicate Ends(page: Page<Option<Playlist>>, limit: nat, name: string) {
    Stops(page, limit) || (page.Some? && FirstNamed(page.value, name).Some?)
  }

  /** Some page up to which the search must go. */
  ghost predicate SearchEnds(pages: seq<Page<Option<Playlist>>>, limit: nat, name: string) {
    exists j :: 0 <= j < |pages| && Ends(pages[j], limit, name)
  }

  /** Index of the page where the search ends: the first that stops the listing or holds a match. */
  function FirstEnd(pages: seq<Page<Option<Playlist>>>, limit: nat, name: string): (n: nat)
    requires SearchEnds(pages, limit, name)
    ensures n < |pages| && Ends(pages[n], limit, name)
    ensures forall j :: 0 <= j < n ==> !Ends(pages[j], limit, name)
    decreases |pages|
  {
    if Ends(pages[0], limit, name) then 0
    else
      var j :| 0 <= j < |pages| && Ends(pages[j], limit, name);
      assert pages[1..][j - 1] == pages[j];
      1 + FirstEnd(pages[1..], limit, name)
  }

  /**
   * `findPlaylistByName`: scans the pages in order and returns the first
   * match, or None once a page stops the listing. The result is the first
   * match among the items up to the page where the search ends.
   */
  function FindFrom(pages: seq<Page<Option<Playlist>>>, limit: nat, name: string): (r: Option<Playlist>)
    requires SearchEnds(pages, limit, name)
    ensures r.Some? ==> r.value.name == name
    ensures r == FirstNamed(PageItems(pages[..FirstEnd(pages, limit, name) + 1]), name)
    decreases |pages|
  {
    if Ends(pages[0], limit, name) then
      FindEndsHere(pages, limit, name);
      FirstNamed(pages[0].GetOr([]), name)
    else
      FindSkipsPageEnd(pages, limit, name);
      FindFrom(pages[1..], limit, name)
  }

  /**
   * When the listing stops, the search returns the first match among all
   * items the full listing would collect.
   */
  lemma {:induction false} FindAgreesWithListing(pages: seq<Page<Option<Playlist>>>, limit: nat, name: string)
    requires SearchEnds(pages, limit, name) && EventuallyStops(pages, limit)
    ensures FindFrom(pages, limit, name) == FirstNamed(PageItems(pages[..FirstStop(pages, limit) + 1]), name)
    decreases |pages|
  {
    if Ends(pages[0], limit, name) {
      FindEndsHere(pages, limit, name);
    } else {
      FindSkipsPageEnd(pages, limit, name);
      assert FindFrom(pages, limit, name) == FindFrom(pages[1..], limit, name);
      FindSkipsPage(pages, limit, name);
      FindAgreesWithListing(pages[1..], limit, name);
    }
  }

  /**
   * The search ends at the first page: its answer is the first match on that
   * page, if any, which is also the first match of the full listing.
   */
  lemma FindEndsHere(pages: seq<Page<Option<Playlist>>>, limit: nat, name: string)
    requires |pages| > 0 && Ends(pages[0], limit, name)
    ensures SearchEnds(pages, limit, name) && FirstEnd(pages, limit, name) == 0
    ensures FirstNamed(PageItems(pages[..1]), name) == FirstNamed(pages[0].GetOr([]), name)
    ensures EventuallyStops(pages, limit) ==>
      FirstNamed(PageItems(pages[..FirstStop(pages, limit) + 1]), name) == FirstNamed(pages[0].GetOr([]), name)
  {
    assert SearchEnds(pages, limit, name);
    OnePageItems(pages);
    if EventuallyStops(pages, limit) {
      FindEndsHereStops(pages, limit, name);
    }
  }

  lemma FindEndsHereStops(pages: seq<Page<Option<Playlist>>>, limit: nat, name: string)
    requires |pages| > 0 && Ends(pages[0], limit, name) && EventuallyStops(pages, limit)
    ensures FirstNamed(PageItems(pages[..FirstStop(pages, limit) + 1]), name) == FirstNamed(pages[0].GetOr([]), name)
  {
    if Stops(pages[0], limit) {
      assert FirstStop(pages, limit) == 0;
      OnePageItems(pages);
    } else {
      FindFoundFirst(pages, limit, name);
    }
  }

  /** The items up to and including the first page are that page's items. */
  lemma OnePageItems<T>(pages: seq<Page<T>>)
    requires |pages| > 0
    ensures PageItems(pages[..1]) == pages[0].GetOr([])
  {
    assert pages[..1] == [pages[0]];
    assert [pages[0]][1..] == [];
  }

  lemma FindFoundFirst(pages: seq<Page<Option<Playlist>>>, limit: nat, name: string)
    requires |pages| > 0 && pages[0].Some? && FirstNamed(pages[0].value, name).Some?
    ensures EventuallyStops(pages, limit) ==>
      FirstNamed(pages[0].value, name) == FirstNamed(PageItems(pages[..FirstStop(pages, limit) + 1]), name)
  {
    if EventuallyStops(pages, limit) {
      var p := pages[..FirstStop(pages, limit) + 1];
      assert p[1..] == pages[1..FirstStop(pages, limit) + 1];
      assert PageItems(p) == pages[0].value + PageItems(p[1..]);
      FirstNamedAppend(pages[0].value, PageItems(p[1..]), name);
    }
  }

  lemma FindSkipsPage(pages: seq<Page<Option<Playlist>>>, limit: nat, name: string)
    requires |pages| > 0 && pages[0].Some? && FirstNamed(pages[0].value, name).None?
    requires |pages[0].value| >= limit
    ensures EventuallyStops(pages, limit) ==> EventuallyStops(pages[1..], limit)
    ensures EventuallyStops(pages, limit) ==>
      FirstNamed(PageItems(pages[..FirstStop(pages, limit) + 1]), name)
      == FirstNamed(PageItems(pages[1..][..FirstStop(pages[1..], limit) + 1]), name)
  {
    if EventuallyStops(pages, limit) {
      var j :| 0 <= j < |pages| && Stops(pages[j], limit);
      assert pages[1..][j - 1] == pages[j];
      var p := pages[..FirstStop(pages, limit) + 1];
      assert p[1..] == pages[1..][..FirstStop(pages[1..], limit) + 1];
      assert PageItems(p) == pages[0].value + PageItems(p[1..]);
      FirstNamedAppend(pages[0].value, PageItems(p[1..]), name);
    }
  }

  /** A page without a match that does not stop the listing passes the search on to the next page. */
  lemma FindSkipsPageEnd(pages: seq<Page<Option<Playlist>>>, limit: nat, name: string)
    requires SearchEnds(pages, limit, name)
    requires pages[0].Some? && FirstNamed(pages[0].value, name).None?
    requires |pages[0].value| >= limit
    ensures SearchEnds(pages[1..], limit, name)
    ensures FirstNamed(PageItems(pages[..FirstEnd(pages, limit, name) + 1]), name)
      == FirstNamed(PageItems(pages[1..][..FirstEnd(pages[1..], limit, name) + 1]), name)
  {
    var j :| 0 <= j < |pages| && Ends(pages[j], limit, name);
    assert pages[1..][j - 1] == pages[j];
    var p := pages[..FirstEnd(pages, limit, name) + 1];
    assert p[1..] == pages[1..][..FirstEnd(pages[1..], limit, name) + 1];
    assert PageItems(p) == pages[0].value + PageItems(p[1..]);
    FirstNamedAppend(pages[0].value, PageItems(p[1..]), name);
  }

  /** A match on a full page ends the search there, with the first entry of that name. */
  lemma FirstMatchOnFullPage()
    ensures var pages := [Some([Some(Playlist("1", "x")), Some(Playlist("2", "x"))])];
      SearchEnds(pages, 2, "x") && FindFrom(pages, 2, "x") == Some(Playlist("1", "x"))
  {
    var pages := [Some([Some(Playlist("1", "x")), Some(Playlist("2", "x"))])];
    assert Ends(pages[0], 2, "x");
  }

  /** `findPlaylistByName` with the playlist page size. */
  function FindPlaylistByName(pages: seq<Page<Option<Playlist>>>, name: string): Option<Playlist>
    requires SearchEnds(pages, PlaylistPageLimit, name)
  {
    FindFrom(pages, PlaylistPageLimit, name)
  }
}
