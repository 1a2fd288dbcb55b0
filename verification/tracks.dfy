/**
 * Track normalisation and artist collection: raw playlist items are reduced
 * to `{uri, id, name, artistIds}` records, and the artist identifiers they
 * reference are collected once each, in first-seen order.
 */
module Tracks {
  import opened Wrappers
  import opened Sequences

  /** An artist entry of a raw track; its `id` may be missing or empty. */
  datatype RawArtist = RawArtist(id: Option<string>)

  /** The `track` object of a playlist item; each field may be missing. */
  datatype RawTrack = RawTrack(
    uri: Option<string>,
    id: Option<string>,
    name: Option<string>,
    artists: Option<seq<RawArtist>>)

  /** A playlist item: the item itself may be null, and so may its `track`. */
  type RawItem = Option<Option<RawTrack>>

  /** A track kept for grouping. */
  datatype Track = Track(uri: string, id: Option<string>, name: Option<string>, artistIds: seq<string>)

  /** JavaScript truthiness of an optional string: present and non-empty. */
  predicate Truthy(s: Option<string>) {
    s.Some? && s.value != ""
  }

  /** The truthy artist identifiers of a track, in order (`map(a => a.id).filter(Boolean)`). */
  function ArtistIds(artists: seq<RawArtist>): (ids: seq<string>)
    ensures forall x :: x in ids <==> exists i :: 0 <= i < |artists| && artists[i].id == Some(x) && x != ""
    ensures |ids| <= |artists|
    decreases |artists|
  {
    if |artists| == 0 then []
    else
      var rest := ArtistIds(artists[1..]);
      assert forall i :: 1 <= i < |artists| ==> artists[i] == artists[1..][i - 1];
      if Truthy(artists[0].id) then [artists[0].id.value] + rest else rest
  }

  /** Artist identifiers of consecutive artist lists concatenate. */
  lemma {:induction false} ArtistIdsAppend(a: seq<RawArtist>, b: seq<RawArtist>)
    ensures ArtistIds(a + b) == ArtistIds(a) + ArtistIds(b)
    decreases |a|
  {
    if |a| == 0 {
      assert a + b == b;
    } else {
      assert (a + b)[1..] == a[1..] + b;
      ArtistIdsAppend(a[1..], b);
    }
  }

  /** The item survives the filter: it and its track are present, the URI is non-empty, the artist list present. */
  predicate Kept(item: RawItem) {
    item.Some? && item.value.Some? && Truthy(item.value.value.uri) && item.value.value.artists.Some?
  }

  /** The record a kept item becomes. */
  function ToTrack(item: RawItem): Track
    requires Kept(item)
  {
    var t := item.value.value;
    Track(t.uri.value, t.id, t.name, ArtistIds(t.artists.value))
  }

  /** Every track has a non-empty URI and only non-empty artist identifiers. */
  predicate WellFormed(t: Track) {
    t.uri != "" && forall a :: a in t.artistIds ==> a != ""
  }

  /** The filter loop over raw items: kept items become tracks, in item order. */
  function Normalize(items: seq<RawItem>): (tracks: seq<Track>)
    ensures |tracks| <= |items|
    ensures forall t :: t in tracks ==> WellFormed(t)
    ensures forall t :: t in tracks <==> exists i :: 0 <= i < |items| && Kept(items[i]) && ToTrack(items[i]) == t
    decreases |items|
  {
    if |items| == 0 then []
    else
      var rest := Normalize(items[1..]);
      assert forall i :: 1 <= i < |items| ==> items[i] == items[1..][i - 1];
      if Kept(items[0]) then [ToTrack(items[0])] + rest else rest
  }

  /** Normalisation works item by item: it maps concatenation to concatenation, so item order is kept. */
  lemma {:induction false} NormalizeAppend(a: seq<RawItem>, b: seq<RawItem>)
    ensures Normalize(a + b) == Normalize(a) + Normalize(b)
    decreases |a|
  {
    if |a| == 0 {
      assert a + b == b;
    } else {
      assert (a + b)[1..] == a[1..] + b;
      NormalizeAppend(a[1..], b);
    }
  }

  /** A single item yields its track when kept and nothing otherwise. */
  lemma NormalizeSingle(item: RawItem)
    ensures Normalize([item]) == if Kept(item) then [ToTrack(item)] else []
  {
    assert [item][1..] == [];
  }

  /** The loop as written, pushing each kept item's record. */
  method NormalizeLoop(items: seq<RawItem>) returns (tracks: seq<Track>)
    ensures tracks == Normalize(items)
  {
    tracks := [];
    var k := 0;
    while k < |items|
      invariant 0 <= k <= |items|
      invariant tracks == Normalize(items[..k])
    {
      assert items[..k + 1] == items[..k] + [items[k]];
      NormalizeAppend(items[..k], [items[k]]);
      NormalizeSingle(items[k]);
      if Kept(items[k]) {
        tracks := tracks + [ToTrack(items[k])];
      }
      k := k + 1;
    }
    assert items[..k] == items;
  }

  /** All artist identifiers referenced by the tracks, in track order, with repetitions. */
  function ReferencedArtists(tracks: seq<Track>): (ids: seq<string>)
    ensures forall a :: a in ids <==> exists i :: 0 <= i < |tracks| && a in tracks[i].artistIds
    decreases |tracks|
  {
    if |tracks| == 0 then []
    else
      var rest := ReferencedArtists(tracks[1..]);
      assert forall i :: 1 <= i < |tracks| ==> tracks[i] == tracks[1..][i - 1];
      tracks[0].artistIds + rest
  }

  /** The ids are collected track by track: the list distributes over concatenation. */
  lemma {:induction false} ReferencedArtistsAppend(a: seq<Track>, b: seq<Track>)
    ensures ReferencedArtists(a + b) == ReferencedArtists(a) + ReferencedArtists(b)
    decreases |a|
  {
    if |a| == 0 {
      assert a + b == b;
    } else {
      assert (a + b)[0] == a[0];
      assert (a + b)[1..] == a[1..] + b;
      ReferencedArtistsAppend(a[1..], b);
    }
  }

  /** Within one track its artist ids are taken in their own order. */
  lemma ReferencedArtistsSingle(t: Track)
    ensures ReferencedArtists([t]) == t.artistIds
  {
    assert [t][1..] == [];
  }

  /**
   * `Array.from(artistIdSet).filter(Boolean)`: each referenced artist once,
   * in the order first seen, without empty identifiers.
   */
  function DistinctArtistIds(tracks: seq<Track>): (ids: seq<string>)
    ensures forall a :: a in ids <==> a != "" && exists i :: 0 <= i < |tracks| && a in tracks[i].artistIds
    ensures Distinct(ids)
  {
    NonEmptyKeepsDistinct(Dedup(ReferencedArtists(tracks)));
    NonEmpty(Dedup(ReferencedArtists(tracks)))
  }

  /**
   * For well-formed tracks (all normalised tracks are) the empty-identifier
   * filter drops nothing, and the distinct identifiers follow first-seen order
   * over the tracks' artist lists.
   */
  lemma DistinctArtistIdsFirstSeen(tracks: seq<Track>)
    requires forall t :: t in tracks ==> WellFormed(t)
    ensures DistinctArtistIds(tracks) == Dedup(ReferencedArtists(tracks))
    ensures forall i, j :: 0 <= i < j < |DistinctArtistIds(tracks)| ==>
      FirstIndex(ReferencedArtists(tracks), DistinctArtistIds(tracks)[i])
      < FirstIndex(ReferencedArtists(tracks), DistinctArtistIds(tracks)[j])
  {
    var all := ReferencedArtists(tracks);
    var d := Dedup(all);
    forall i | 0 <= i < |d|
      ensures d[i] != ""
    {
      assert d[i] in all;
      var k :| 0 <= k < |tracks| && d[i] in tracks[k].artistIds;
      assert WellFormed(tracks[k]);
    }
    NonEmptyIdentity(d);
    DedupFirstSeenOrder(all);
  }
}
