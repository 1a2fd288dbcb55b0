/**
 * The whole split, from raw playlist items to the playlists written: the
 * stages run strictly one after another, each consuming the previous one's
 * full output. Artist lookups and playlist creation are oracles.
 */
module Splitter {
  import opened Wrappers
  import opened Sequences
  import opened Tracks
  import opened Genres
  import opened Writer

  /** Most artist identifiers per lookup request. */
  const ArtistBatchSize: nat := 50

  /** The artist lookups requested: the distinct artists, in batches of at most 50. */
  function ArtistBatches(tracks: seq<Track>): seq<seq<string>> {
    Chunk(DistinctArtistIds(tracks), ArtistBatchSize)
  }

  /** One lookup per batch, in batch order, folded into the genre map. */
  function ResolveGenres(tracks: seq<Track>, lookup: seq<string> -> ArtistsResponse): GenreMap {
    var batches := ArtistBatches(tracks);
    BuildGenreMap(seq(|batches|, i requires 0 <= i < |batches| => lookup(batches[i])))
  }

  /** The genre buckets of a playlist's raw items. */
  function Split(items: seq<RawItem>, lookup: seq<string> -> ArtistsResponse): seq<Bucket> {
    var tracks := Normalize(items);
    GroupTracks(tracks, ResolveGenres(tracks, lookup))
  }

  /** The playlists written for a playlist's raw items, named after `base`. */
  function SplitAndWrite(items: seq<RawItem>, lookup: seq<string> -> ArtistsResponse,
                         base: string, created: string -> bool): seq<Write> {
    PlanWrites(Split(items, lookup), base, created)
  }

  /** The URIs of the tracks, in order. */
  function Uris(tracks: seq<Track>): (us: seq<string>)
    ensures |us| == |tracks| && forall k :: 0 <= k < |tracks| ==> us[k] == tracks[k].uri
  {
    seq(|tracks|, k requires 0 <= k < |tracks| => tracks[k].uri)
  }

  /**
   * Each lookup asks for between 1 and 50 artists, and together the lookups
   * ask for every referenced artist exactly once.
   */
  lemma ArtistBatchesCover(tracks: seq<Track>)
    ensures forall b :: b in ArtistBatches(tracks) ==> 0 < |b| <= ArtistBatchSize
    ensures Distinct(Flatten(ArtistBatches(tracks)))
    ensures forall a :: a in Flatten(ArtistBatches(tracks)) <==>
      a != "" && exists k :: 0 <= k < |tracks| && a in tracks[k].artistIds
  {
    var bs := ArtistBatches(tracks);
    forall b | b in bs
      ensures 0 < |b| <= ArtistBatchSize
    {
      var k :| 0 <= k < |bs| && bs[k] == b;
    }
  }

  /** Every kept track lands in exactly one bucket: the bucket sizes add up to the kept tracks. */
  lemma SplitIsPartition(items: seq<RawItem>, lookup: seq<string> -> ArtistsResponse)
    ensures Size(Split(items, lookup)) == |Normalize(items)| <= |items|
  {
    var tracks := Normalize(items);
    GroupSize(Labelled(tracks, ResolveGenres(tracks, lookup)));
  }

  /** With no response carrying an `artists` list, the genre map stays empty. */
  lemma {:induction false} MalformedResponsesRecordNothing(responses: seq<ArtistsResponse>)
    requires forall b :: 0 <= b < |responses| ==> responses[b].None?
    ensures BuildGenreMap(responses) == map[]
    decreases |responses|
  {
    if |responses| != 0 {
      MalformedResponsesRecordNothing(responses[..|responses| - 1]);
    }
  }

  lemma {:induction false} DedupConstant(xs: seq<string>, g: string)
    requires |xs| > 0 && forall k :: 0 <= k < |xs| ==> xs[k] == g
    ensures Dedup(xs) == [g]
    decreases |xs|
  {
    if |xs| > 1 {
      DedupConstant(xs[..|xs| - 1], g);
    }
  }

  lemma {:induction false} SelectAll(ps: seq<(string, string)>, g: string)
    requires forall k :: 0 <= k < |ps| ==> ps[k].0 == g
    ensures Select(ps, g) == seq(|ps|, k requires 0 <= k < |ps| => ps[k].1)
    decreases |ps|
  {
    if |ps| != 0 {
      SelectAll(ps[..|ps| - 1], g);
    }
  }

  /**
   * When every artist lookup comes back without an `artists` list, all
   * tracks fall into one "Unknown" bucket, in track order; with no valid
   * tracks there are no buckets.
   */
  lemma AllLookupsMalformed(items: seq<RawItem>, lookup: seq<string> -> ArtistsResponse)
    requires forall ids :: lookup(ids).None?
    ensures Split(items, lookup) ==
      if |Normalize(items)| == 0 then [] else [Bucket(Unknown, Uris(Normalize(items)))]
  {
    var tracks := Normalize(items);
    if |tracks| == 0 {
      return;
    }
    var batches := ArtistBatches(tracks);
    var m := ResolveGenres(tracks, lookup);
    MalformedResponsesRecordNothing(seq(|batches|, i requires 0 <= i < |batches| => lookup(batches[i])));
    var ps := Labelled(tracks, m);
    forall k | 0 <= k < |ps|
      ensures ps[k].0 == Unknown
    {
      NoGenreIsUnknown(tracks[k], m);
    }
    DedupConstant(Labels(ps), Unknown);
    SelectAll(ps, Unknown);
    var r := Group(ps);
    assert Keys(r) == [Unknown];
    assert r[0].uris == Uris(tracks);
  }
}
