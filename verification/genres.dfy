/**
 * Genre resolution and grouping: the artist-to-genres map built from batched
 * lookups, the per-track genre choice, and the insertion-ordered grouping of
 * track URIs by genre (a JavaScript `Map` from genre to URI list).
 */
module Genres {
  import opened Wrappers
  import opened Sequences
  import opened Tracks

  /** The genre of a track none of whose artists has a genre. */
  const Unknown: string := "Unknown"

  /** An artist returned by a lookup; `genres` may be missing. */
  datatype ArtistInfo = ArtistInfo(id: string, genres: Option<seq<string>>)

  /** A lookup response: None when the response is null or carries no `artists` list. */
  type ArtistsResponse = Option<seq<ArtistInfo>>

  /** Artist identifier to its genre list. */
  type GenreMap = map<string, seq<string>>

  /** The genres recorded for an artist: its list, or empty when missing. */
  function GenresOf(a: ArtistInfo): seq<string> {
    a.genres.GetOr([])
  }

  /** Entry `i` is the last one in `es` for its artist. */
  predicate LastWithId(es: seq<ArtistInfo>, i: int)
    requires 0 <= i < |es|
  {
    forall j :: i < j < |es| ==> es[j].id != es[i].id
  }

  /** The artist identifiers of some entries. */
  function IdSet(es: seq<ArtistInfo>): set<string> {
    set a | a in es :: a.id
  }

  /**
   * `forEach(a => artistGenres[a.id] = a.genres || [])`: every entry is
   * recorded, a later entry for the same artist overwriting an earlier one.
   */
  function Record(m: GenreMap, es: seq<ArtistInfo>): (r: GenreMap)
    ensures r.Keys == m.Keys + IdSet(es)
    ensures forall i :: 0 <= i < |es| && LastWithId(es, i) ==> r[es[i].id] == GenresOf(es[i])
    ensures forall k :: k in m && k !in IdSet(es) ==> r[k] == m[k]
    decreases |es|
  {
    if |es| == 0 then m
    else
      var init := es[..|es| - 1];
      var last := es[|es| - 1];
      assert es == init + [last];
      assert IdSet(es) == IdSet(init) + {last.id};
      var prev := Record(m, init);
      assert forall i :: 0 <= i < |es| - 1 && LastWithId(es, i) ==> LastWithId(init, i) && es[i].id != last.id;
      prev[last.id := GenresOf(last)]
  }

  lemma {:induction false} RecordAppend(m: GenreMap, a: seq<ArtistInfo>, b: seq<ArtistInfo>)
    ensures Record(m, a + b) == Record(Record(m, a), b)
    decreases |b|
  {
    if |b| == 0 {
      assert a + b == a;
    } else {
      assert (a + b)[..|a + b| - 1] == a + b[..|b| - 1];
      RecordAppend(m, a, b[..|b| - 1]);
    }
  }

  /** The artists of all responses that carried an `artists` list, in response order. */
  function Entries(responses: seq<ArtistsResponse>): seq<ArtistInfo>
    decreases |responses|
  {
    if |responses| == 0 then []
    else Entries(responses[..|responses| - 1]) + responses[|responses| - 1].GetOr([])
  }

  /** The batch loop's fold: a response without an `artists` list records nothing. */
  function BuildGenreMap(responses: seq<ArtistsResponse>): GenreMap
    decreases |responses|
  {
    if |responses| == 0 then map[]
    else
      var m := BuildGenreMap(responses[..|responses| - 1]);
      match responses[|responses| - 1]
      case None => m
      case Some(artists) => Record(m, artists)
  }

  /** The fold over batches records exactly the artists of the well-formed responses, in order. */
  lemma {:induction false} BuildGenreMapRecordsEntries(responses: seq<ArtistsResponse>)
    ensures BuildGenreMap(responses) == Record(map[], Entries(responses))
    decreases |responses|
  {
    if |responses| != 0 {
      var init := responses[..|responses| - 1];
      BuildGenreMapRecordsEntries(init);
      RecordAppend(map[], Entries(init), responses[|responses| - 1].GetOr([]));
    }
  }

  /** An artist among the entries comes from a response that carried an `artists` list, and vice versa. */
  lemma {:induction false} EntriesFromPresentResponses(responses: seq<ArtistsResponse>, id: string)
    ensures id in IdSet(Entries(responses)) <==>
      exists b :: 0 <= b < |responses| && responses[b].Some? && id in IdSet(responses[b].value)
    decreases |responses|
  {
    if |responses| != 0 {
      var n := |responses| - 1;
      var init := responses[..n];
      var tail := responses[n].GetOr([]);
      EntriesFromPresentResponses(init, id);
      assert IdSet(Entries(responses)) == IdSet(Entries(init)) + IdSet(tail) by {
        assert Entries(responses) == Entries(init) + tail;
      }
      if id in IdSet(Entries(init)) {
        var b :| 0 <= b < |init| && init[b].Some? && id in IdSet(init[b].value);
        assert responses[b] == init[b];
      }
      if exists b :: 0 <= b < |responses| && responses[b].Some? && id in IdSet(responses[b].value) {
        var b :| 0 <= b < |responses| && responses[b].Some? && id in IdSet(responses[b].value);
        if b < n {
          assert init[b] == responses[b];
        }
      }
    }
  }

  /**
   * The genre map holds exactly the artists returned in responses that carried
   * an `artists` list: the artists of a malformed batch stay unset unless
   * another batch returned them.
   */
  lemma GenreMapKeys(responses: seq<ArtistsResponse>, id: string)
    ensures id in BuildGenreMap(responses) <==>
      exists b :: 0 <= b < |responses| && responses[b].Some? && id in IdSet(responses[b].value)
  {
    BuildGenreMapRecordsEntries(responses);
    EntriesFromPresentResponses(responses, id);
  }

  /** The artist has a non-empty genre list in the map. */
  predicate HasGenre(m: GenreMap, artist: string) {
    artist in m && |m[artist]| > 0
  }

  /** Artist `i` is the first, in the track's order, with a non-empty genre list. */
  predicate FirstWithGenre(artistIds: seq<string>, m: GenreMap, i: int) {
    0 <= i < |artistIds| && HasGenre(m, artistIds[i]) &&
    forall j :: 0 <= j < i ==> !HasGenre(m, artistIds[j])
  }

  /**
   * `pickGenreForTrack`: the first genre of the first artist, in the track's
   * artist order, whose genre list is present and non-empty; "Unknown" when
   * there is none.
   */
  function PickGenre(artistIds: seq<string>, m: GenreMap): (g: string)
    ensures (forall i :: 0 <= i < |artistIds| ==> !HasGenre(m, artistIds[i])) ==> g == Unknown
    ensures forall i :: FirstWithGenre(artistIds, m, i) ==> g == m[artistIds[i]][0]
    decreases |artistIds|
  {
    if |artistIds| == 0 then Unknown
    else if HasGenre(m, artistIds[0]) then m[artistIds[0]][0]
    else
      assert forall i :: 1 <= i < |artistIds| ==> artistIds[i] == artistIds[1..][i - 1];
      assert forall i :: FirstWithGenre(artistIds, m, i) ==> FirstWithGenre(artistIds[1..], m, i - 1);
      PickGenre(artistIds[1..], m)
  }

  /** `pickGenreForTrack(t) || 'Unknown'`: an empty genre name also becomes "Unknown". */
  function TrackGenre(t: Track, m: GenreMap): (g: string)
    ensures g != ""
    ensures (forall i :: 0 <= i < |t.artistIds| ==> !HasGenre(m, t.artistIds[i])) ==> g == Unknown
    ensures forall i :: FirstWithGenre(t.artistIds, m, i) ==>
      g == if m[t.artistIds[i]][0] == "" then Unknown else m[t.artistIds[i]][0]
  {
    var g := PickGenre(t.artistIds, m);
    if g == "" then Unknown else g
  }

  /** A track all of whose artists are absent from the map (or have no genres) is "Unknown". */
  lemma NoGenreIsUnknown(t: Track, m: GenreMap)
    requires forall a :: a in t.artistIds ==> a !in m || m[a] == []
    ensures TrackGenre(t, m) == Unknown
  {
  }

  /** A genre bucket: its genre and the URIs placed in it, in placement order. */
  datatype Bucket = Bucket(genre: string, uris: seq<string>)

  /** The genres of the buckets, in bucket order (`grouped.keys()`). */
  function Keys(bs: seq<Bucket>): (ks: seq<string>)
    ensures |ks| == |bs| && forall i :: 0 <= i < |bs| ==> ks[i] == bs[i].genre
  {
    seq(|bs|, i requires 0 <= i < |bs| => bs[i].genre)
  }

  /**
   * One grouping step: append `uri` to the bucket of `genre`, creating that
   * bucket at the end when it does not exist yet.
   */
  function Place(bs: seq<Bucket>, genre: string, uri: string): (r: seq<Bucket>)
    requires Distinct(Keys(bs))
    ensures |r| == if genre in Keys(bs) then |bs| else |bs| + 1
    ensures forall i :: 0 <= i < |bs| ==>
      r[i].genre == bs[i].genre && r[i].uris == bs[i].uris + (if bs[i].genre == genre then [uri] else [])
    ensures genre !in Keys(bs) ==> r[|bs|] == Bucket(genre, [uri])
    decreases |bs|
  {
    if |bs| == 0 then [Bucket(genre, [uri])]
    else if bs[0].genre == genre then
      assert forall i :: 1 <= i < |bs| ==> bs[i].genre != genre by {
        assert Keys(bs)[0] == genre;
      }
      [Bucket(genre, bs[0].uris + [uri])] + bs[1..]
    else
      assert Keys(bs[1..]) == Keys(bs)[1..];
      [bs[0]] + Place(bs[1..], genre, uri)
  }

  /** The genres of labelled URIs, in order. */
  function Labels(ps: seq<(string, string)>): (ls: seq<string>)
    ensures |ls| == |ps| && forall i :: 0 <= i < |ps| ==> ls[i] == ps[i].0
  {
    seq(|ps|, i requires 0 <= i < |ps| => ps[i].0)
  }

  /** The URIs labelled `genre`, in order: the reference definition of a bucket's contents. */
  function Select(ps: seq<(string, string)>, genre: string): seq<string>
    decreases |ps|
  {
    if |ps| == 0 then []
    else Select(ps[..|ps| - 1], genre) + (if ps[|ps| - 1].0 == genre then [ps[|ps| - 1].1] else [])
  }

  lemma {:induction false} SelectAbsent(ps: seq<(string, string)>, genre: string)
    requires genre !in Labels(ps)
    ensures Select(ps, genre) == []
    decreases |ps|
  {
    if |ps| != 0 {
      assert Labels(ps[..|ps| - 1]) == Labels(ps)[..|ps| - 1];
      SelectAbsent(ps[..|ps| - 1], genre);
    }
  }

  /**
   * The grouping loop over (genre, uri) pairs. Bucket keys are the labels
   * deduplicated in first-encounter order, and each bucket holds exactly the
   * URIs labelled with its genre, in order.
   */
  function Group(ps: seq<(string, string)>): (r: seq<Bucket>)
    ensures Keys(r) == Dedup(Labels(ps))
    ensures forall i :: 0 <= i < |r| ==> r[i].uris == Select(ps, r[i].genre)
    decreases |ps|
  {
    if |ps| == 0 then []
    else
      var init := ps[..|ps| - 1];
      var last := ps[|ps| - 1];
      assert ps == init + [last];
      var bs := Group(init);
      GroupStep(init, last, bs);
      Place(bs, last.0, last.1)
  }

  /** Placing one more pair keeps both grouping invariants. */
  lemma GroupStep(init: seq<(string, string)>, last: (string, string), bs: seq<Bucket>)
    requires Keys(bs) == Dedup(Labels(init))
    requires forall i :: 0 <= i < |bs| ==> bs[i].uris == Select(init, bs[i].genre)
    ensures Keys(Place(bs, last.0, last.1)) == Dedup(Labels(init + [last]))
    ensures var r := Place(bs, last.0, last.1);
      forall i :: 0 <= i < |r| ==> r[i].uris == Select(init + [last], r[i].genre)
  {
    GroupStepKeys(init, last, bs);
    GroupStepUris(init, last, bs);
  }

  lemma GroupStepKeys(init: seq<(string, string)>, last: (string, string), bs: seq<Bucket>)
    requires Keys(bs) == Dedup(Labels(init))
    ensures Keys(Place(bs, last.0, last.1)) == Dedup(Labels(init + [last]))
  {
    assert Labels(init + [last]) == Labels(init) + [last.0];
    DedupSnoc(Labels(init), last.0);
    PlaceKeys(bs, last.0, last.1);
  }

  /** Placing a URI adds its genre to the keys exactly when it is new. */
  lemma PlaceKeys(bs: seq<Bucket>, genre: string, uri: string)
    requires Distinct(Keys(bs))
    ensures Keys(Place(bs, genre, uri)) == if genre in Keys(bs) then Keys(bs) else Keys(bs) + [genre]
  {
    var r := Place(bs, genre, uri);
    var ks := if genre in Keys(bs) then Keys(bs) else Keys(bs) + [genre];
    assert |Keys(r)| == |ks|;
    forall i | 0 <= i < |ks|
      ensures Keys(r)[i] == ks[i]
    {
      if i < |bs| {
        assert Keys(r)[i] == r[i].genre == bs[i].genre;
      }
    }
  }

  lemma GroupStepUris(init: seq<(string, string)>, last: (string, string), bs: seq<Bucket>)
    requires Keys(bs) == Dedup(Labels(init))
    requires forall i :: 0 <= i < |bs| ==> bs[i].uris == Select(init, bs[i].genre)
    ensures var r := Place(bs, last.0, last.1);
      forall i :: 0 <= i < |r| ==> r[i].uris == Select(init + [last], r[i].genre)
  {
    var ps := init + [last];
    assert ps[..|ps| - 1] == init;
    var r := Place(bs, last.0, last.1);
    if last.0 !in Keys(bs) {
      SelectAbsent(init, last.0);
    }
    forall i | 0 <= i < |r|
      ensures r[i].uris == Select(ps, r[i].genre)
    {
      assert Select(ps, r[i].genre) == Select(init, r[i].genre) + (if last.0 == r[i].genre then [last.1] else []);
    }
  }

  /** Number of URIs over all buckets. */
  function Size(bs: seq<Bucket>): nat
    decreases |bs|
  {
    if |bs| == 0 then 0 else |bs[0].uris| + Size(bs[1..])
  }

  lemma {:induction false} PlaceAddsOne(bs: seq<Bucket>, genre: string, uri: string)
    requires Distinct(Keys(bs))
    ensures Size(Place(bs, genre, uri)) == Size(bs) + 1
    decreases |bs|
  {
    if |bs| != 0 && bs[0].genre != genre {
      assert Keys(bs[1..]) == Keys(bs)[1..];
      PlaceAddsOne(bs[1..], genre, uri);
      assert Place(bs, genre, uri)[1..] == Place(bs[1..], genre, uri);
    } else if |bs| != 0 {
      assert Place(bs, genre, uri)[1..] == bs[1..];
    }
  }

  /** Grouping is a partition by count: the bucket sizes add up to the number of pairs. */
  lemma {:induction false} GroupSize(ps: seq<(string, string)>)
    ensures Size(Group(ps)) == |ps|
    decreases |ps|
  {
    if |ps| != 0 {
      var init := ps[..|ps| - 1];
      GroupSize(init);
      PlaceAddsOne(Group(init), ps[|ps| - 1].0, ps[|ps| - 1].1);
    }
  }

  /** Each track's (genre, uri) label: the pairs the grouping loop consumes. */
  function Labelled(tracks: seq<Track>, m: GenreMap): (ps: seq<(string, string)>)
    ensures |ps| == |tracks|
    ensures forall k :: 0 <= k < |tracks| ==> ps[k] == (TrackGenre(tracks[k], m), tracks[k].uri)
  {
    seq(|tracks|, k requires 0 <= k < |tracks| => (TrackGenre(tracks[k], m), tracks[k].uri))
  }

  /** `grouped`: the tracks' URIs grouped by their genre. */
  function GroupTracks(tracks: seq<Track>, m: GenreMap): seq<Bucket> {
    Group(Labelled(tracks, m))
  }

  /**
   * Every track's URI lies in the bucket keyed by its genre, and that bucket is
   * the only one with that key.
   */
  lemma TrackInOwnBucket(tracks: seq<Track>, m: GenreMap, k: nat)
    requires k < |tracks|
    ensures var bs := GroupTracks(tracks, m);
      exists i :: 0 <= i < |bs| && bs[i].genre == TrackGenre(tracks[k], m) && tracks[k].uri in bs[i].uris
    ensures var bs := GroupTracks(tracks, m);
      forall i, j :: 0 <= i < |bs| && 0 <= j < |bs| && bs[i].genre == bs[j].genre ==> i == j
  {
    var ps := Labelled(tracks, m);
    var bs := Group(ps);
    assert bs == GroupTracks(tracks, m);
    var g := TrackGenre(tracks[k], m);
    assert Labels(ps)[k] == g;
    assert g in Dedup(Labels(ps));
    assert g in Keys(bs);
    var i :| 0 <= i < |bs| && Keys(bs)[i] == g;
    SelectContains(ps, k);
    assert ps[k].1 == tracks[k].uri;
    assert tracks[k].uri in bs[i].uris;
    assert Distinct(Keys(bs));
  }

  lemma {:induction false} SelectContains(ps: seq<(string, string)>, k: nat)
    requires k < |ps|
    ensures ps[k].1 in Select(ps, ps[k].0)
    decreases |ps|
  {
    if k < |ps| - 1 {
      SelectContains(ps[..|ps| - 1], k);
    }
  }

  /** Every bucket is non-empty and holds only URIs labelled with its genre. */
  lemma GroupBucketContents(ps: seq<(string, string)>)
    ensures forall b :: b in Group(ps) ==>
      |b.uris| > 0 && forall u :: u in b.uris ==> exists k :: 0 <= k < |ps| && ps[k] == (b.genre, u)
  {
    var bs := Group(ps);
    forall b | b in bs
      ensures |b.uris| > 0
      ensures forall u :: u in b.uris ==> exists k :: 0 <= k < |ps| && ps[k] == (b.genre, u)
    {
      var i :| 0 <= i < |bs| && bs[i] == b;
      assert Keys(bs)[i] == b.genre;
      assert b.genre in Dedup(Labels(ps));
      var k :| 0 <= k < |ps| && Labels(ps)[k] == b.genre;
      SelectContains(ps, k);
      forall u | u in b.uris
        ensures exists k :: 0 <= k < |ps| && ps[k] == (b.genre, u)
      {
        SelectMember(ps, b.genre, u);
      }
    }
  }

  /** Every bucket is non-empty and holds only URIs of tracks with its genre. */
  lemma BucketContents(tracks: seq<Track>, m: GenreMap)
    ensures forall b :: b in GroupTracks(tracks, m) ==>
      |b.uris| > 0 &&
      forall u :: u in b.uris ==> exists k :: 0 <= k < |tracks| && tracks[k].uri == u && TrackGenre(tracks[k], m) == b.genre
  {
    var ps := Labelled(tracks, m);
    GroupBucketContents(ps);
    forall b, u | b in Group(ps) && u in b.uris
      ensures exists k :: 0 <= k < |tracks| && tracks[k].uri == u && TrackGenre(tracks[k], m) == b.genre
    {
      var k :| 0 <= k < |ps| && ps[k] == (b.genre, u);
      assert tracks[k].uri == u && TrackGenre(tracks[k], m) == b.genre;
    }
  }

  lemma {:induction false} SelectMember(ps: seq<(string, string)>, genre: string, u: string)
    requires u in Select(ps, genre)
    ensures exists k :: 0 <= k < |ps| && ps[k] == (genre, u)
    decreases |ps|
  {
    var init := ps[..|ps| - 1];
    if u in Select(init, genre) {
      SelectMember(init, genre, u);
      var k :| 0 <= k < |init| && init[k] == (genre, u);
      assert ps[k] == init[k];
    }
  }
}
