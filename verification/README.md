# Playlist genre splitter — Dafny model

`script.js` is a browser-console script for the Spotify Web API. It reads
every track of one of the user's playlists and looks up the genres of the
tracks' artists. It then creates one new playlist per genre and fills each
one with the URIs of the tracks filed under that genre.

This project models the parts of that script that decide something. Each
part is a pure function over scripted inputs, and the verifier proves the
properties the script relies on.

- **Retry** (`retry.dfy`): the `fetchApi` retry policy.
  - The HTTP replies are a scripted sequence, one reply per attempt.
  - The result is the outcome plus the waits slept between attempts.
  - A 429 reply always retries, after waiting `(Retry-After + 1) * 1000` ms.
  - A 5xx reply retries after `500 * (attempt + 1)` ms, but only before the fifth attempt.
  - Any other reply is returned.
  - Once five attempts are used up, the call throws.
- **Pagination** (`pagination.dfy`): the two paginated loops.
  - `getAllPlaylistTracks` uses page size 100. `findPlaylistByName` uses page size 50.
  - Page *k* answers the request made at offset `k * limit`.
  - A null page, or one without `items`, ends the loop. So does a page shorter than the page size.
- **Tracks** (`tracks.dfy`): turning raw playlist items into tracks.
  - Items that are null, lack a `track`, or whose track lacks `uri` or `artists` are dropped.
  - Falsy artist ids are dropped.
  - The distinct artist ids are collected in first-seen order, as a JavaScript `Set` iterates.
- **Genres** (`genres.dfy`): the artist → genres map, the genre pick and the grouping.
  - The `artistGenres` object is a `map`, filled batch by batch. Later entries overwrite earlier ones.
  - `pickGenreForTrack` returns the first genre of the first artist with a non-empty genre list, else `"Unknown"`.
  - The `grouped` `Map` is a sequence of buckets in insertion order.
- **Writer** (`writer.dfy`): the per-genre creation loop.
  - The playlist name is `${PLAYLIST_NAME} — ${genre}` cut to 100 characters.
  - Whether creating a playlist succeeds is an oracle, `created: string -> bool`.
  - A genre whose creation fails is skipped.
  - URIs are added in batches of at most 100.
- **Splitter** (`splitter.dfy`): the whole pipeline from raw items to buckets and planned writes.
  - Artist ids are looked up in batches of 50.
  - Each lookup's response is an oracle, `lookup: seq<string> -> ArtistsResponse`.
- **Sequences** (`sequences.dfy`): the shared sequence vocabulary.
  - `Flatten`, `Distinct`, `FirstIndex`, order-preserving `Dedup`, the `filter(Boolean)` filter `NonEmpty`.
  - The `slice(i, i + n)` loop, as the function `Chunk` and the method `Batches`.
- **Scenarios** (`scenarios.dfy`): one worked run. A three-track playlist has one artist each:
  - one artist is rock, one is jazz, one has no genres;
  - the lemmas compute every intermediate value and the final writes;
  - a second lemma does the same with creation failing for the jazz playlist.

## Model

| member | source | states |
|---|---|---|
| Retry.RetryFrom | script.js:27-44 | At most five attempts. Every wait answers a reply that was retried: any 429, or a 5xx before the fifth attempt. Each wait is `(Retry-After or 1, plus 1) * 1000` ms for 429 and `500 * (attempt + 1)` ms for 5xx. The run returns the first reply that is not retried. It throws exactly when all five attempts were retried, and fails on the network when replies run out first. |
| Retry.AttemptBound | script.js:27 | A call makes at most five attempts and returns a reply from one of them. |
| Retry.FailedOnlyAfterFinal429 | script.js:27-44 | A call throws iff five replies all asked for a retry. The fifth of them is then a 429, because a 5xx on the last attempt is returned. |
| Retry.FirstSettledReplyReturned | script.js:29-42 | Suppose replies 0..k-1 all ask for a retry and reply k does not. Then reply k is returned after exactly k waits. |
| Retry.RateLimitedThenServed | script.js:29-33 | A 429 with `Retry-After: 2` followed by a 200 returns the 200 after one 3000 ms wait. |
| Pagination.FirstStop | script.js:60-64 | Index of the first page that ends a listing: a null page, a page without items, or a short page. |
| Pagination.ListFrom | script.js:75-86 | One request per page up to and including the first stopping page. The first request is at the start offset and each later one is one page size further on. The items are those pages' items in order; a null page adds none. |
| Pagination.OffsetsAreMultiples | script.js:77-83 | The k-th request of a listing is made at offset k * limit. |
| Pagination.ListingOfWellBehavedServer | script.js:78-84 | Suppose a server returns a listing in full pages followed by one short page. Then the loop collects exactly the whole listing, in order, and makes ⌊N/P⌋ + 1 requests. That includes one empty trailing request when P divides N. |
| Pagination.FirstNamed | script.js:61-63 | Within one page: None iff no non-null entry has the name; otherwise the first entry with the name. |
| Pagination.FirstNamedAppend | script.js:58-63 | Searching a concatenation finds a match in the first part before looking at the second. |
| Pagination.FirstEnd | script.js:60-65 | Index of the page where the search ends: the first page that is null, lacks items, is short, or holds a playlist with the name. |
| Pagination.FindFrom | script.js:56-68 | The result is the first playlist with the requested name among the items of the pages up to and including the page where the search ends, or null when there is none. Any playlist found has the requested name. |
| Pagination.FindAgreesWithListing | script.js:56-68 | When the listing stops, the search returns the first playlist with the name among all items the full listing would collect, or null when there is none. |
| Pagination.FirstMatchOnFullPage | script.js:61-62 | A full page holding two playlists named `x` returns the first of them, although no page stops the listing. |
| Sequences.Dedup | script.js:101-102 | The same elements as the input, with no repeats. |
| Sequences.DedupFirstSeenOrder | script.js:101-103 | Distinct elements keep the order of their first occurrence, as a `Set` built by `add` iterates. |
| Sequences.NonEmpty | script.js:103 | Keeps exactly the non-empty strings. |
| Sequences.NonEmptyKeepsDistinct | script.js:103 | Filtering keeps the identifiers distinct. |
| Sequences.NonEmptyAppend | script.js:103 | `filter(Boolean)` goes element by element: it distributes over concatenation, keeping order and repeats. |
| Sequences.NonEmptySingle | script.js:103 | One string is kept iff it is non-empty. |
| Sequences.NonEmptyIdentity | script.js:103 | The filter is the identity when no string is empty. |
| Sequences.Chunk | script.js:112-113 | Every batch has 1..n elements and all but the last have exactly n. The batches concatenate back to the input. |
| Sequences.Batches | script.js:151-152 | The `for (i = 0; i < len; i += n) slice(i, i + n)` loop yields exactly `Chunk`. |
| Sequences.FlattenAppend | script.js:113 | Concatenating batch lists concatenates their contents. |
| Tracks.ArtistIds | script.js:96 | An id is kept iff some artist of the track carries it and it is non-empty. There are at most as many ids as artists. |
| Tracks.ArtistIdsAppend | script.js:96 | `map(a => a.id).filter(Boolean)` distributes over concatenation. |
| Tracks.Normalize | script.js:91-98 | At most one track per item. Every track is well formed. A track appears iff some kept item produces it: non-null, with a track that has a uri and an artists list. |
| Tracks.NormalizeAppend | script.js:92 | Normalisation goes item by item: it distributes over concatenation. |
| Tracks.NormalizeLoop | script.js:91-98 | The imperative `for … of` loop with `continue` computes exactly `Normalize`. |
| Tracks.ReferencedArtists | script.js:102 | The artist ids of all tracks, with an id listed iff some track references it. |
| Tracks.ReferencedArtistsAppend | script.js:102 | Ids are gathered track by track, in track order: the list distributes over concatenation of tracks. |
| Tracks.ReferencedArtistsSingle | script.js:102 | Within one track its artist ids are taken in their own order. |
| Tracks.DistinctArtistIds | script.js:101-103 | An id is listed iff it is non-empty and some track references it, and no id repeats. |
| Tracks.DistinctArtistIdsFirstSeen | script.js:101-103 | For normalised tracks, the final `filter(Boolean)` removes nothing, and the ids follow first-seen order. |
| Genres.Record | script.js:116 | The map's keys grow by exactly the response's ids. Each id maps to the genres of its last entry, or `[]` when `genres` is missing. Other keys keep their value. |
| Genres.RecordAppend | script.js:112-117 | Recording batch after batch equals recording their concatenation. |
| Genres.BuildGenreMapRecordsEntries | script.js:111-120 | The batch loop equals recording the entries of every usable response, in order. A null response, or one without `artists`, is skipped. |
| Genres.EntriesFromPresentResponses | script.js:115-116 | An id is recorded iff some usable response lists it. |
| Genres.GenreMapKeys | script.js:111-120 | An artist has a map entry iff a usable batch response listed it. |
| Genres.PickGenre | script.js:122-128 | When no artist has a non-empty genre list the result is `"Unknown"`. Otherwise it is the first genre of the first such artist. |
| Genres.TrackGenre | script.js:132 | Never empty. An empty first genre becomes `"Unknown"` through the script's `'Unknown'` fallback. Otherwise it agrees with `PickGenre`. |
| Genres.NoGenreIsUnknown | script.js:127 | A track whose artists have no known genres is filed under `"Unknown"`. |
| Genres.Place | script.js:133-134 | Adding one URI: an existing bucket of that genre gets it appended and the other buckets are unchanged; otherwise a new bucket is created at the end. |
| Genres.PlaceKeys | script.js:133 | The genre keys grow by the genre only when it is new, as `Map.set` keeps insertion order. |
| Genres.Group | script.js:130-135 | Bucket genres are the distinct labels in first-seen order. Each bucket holds exactly the URIs labelled with its genre, in order. |
| Genres.GroupStep | script.js:131-135 | One loop step keeps both grouping invariants. |
| Genres.SelectAbsent | script.js:133 | A genre not yet seen has no URIs. |
| Genres.PlaceAddsOne | script.js:134 | Each step files exactly one URI. |
| Genres.GroupSize | script.js:130-135 | The buckets hold as many URIs as there were tracks: nothing is lost or duplicated. |
| Genres.TrackInOwnBucket | script.js:131-134 | Every track's URI is in the bucket of its genre. |
| Genres.BucketContents | script.js:131-134 | Every URI in a bucket comes from a track of that bucket's genre. |
| Genres.GroupBucketContents | script.js:133-134 | No bucket is empty, and every URI in it was labelled with its genre. |
| Genres.SelectContains | script.js:134 | A labelled URI is among the URIs selected for its label. |
| Writer.SafeName | script.js:141 | The name is the prefix of `base — genre` of length min(full length, 100). |
| Writer.SafeNameWhole | script.js:141 | A name within 100 characters is kept whole. |
| Writer.WriteFor | script.js:140-158 | The write carries the bucket's genre and the safe name. Its add batches hold 1..100 URIs each and concatenate to the bucket's URIs. |
| Writer.PlanWrites | script.js:161-173 | There is at most one write per bucket. Every write is for a genre whose playlist was created, uses the safe name, and batches within 100. |
| Writer.WritesComeFromBuckets | script.js:162-168 | Every write sends exactly the URIs of one bucket of the same genre. |
| Writer.CreatedBucketsWritten | script.js:162-168 | Every bucket whose playlist is created gets a write that sends exactly its URIs. |
| Writer.PlanWritesAppend | script.js:162 | Genres are processed in bucket order. |
| Writer.SkippedGenreNotWritten | script.js:165 | A genre whose creation fails gets no writes. |
| Splitter.ArtistBatchesCover | script.js:101-113 | The lookup batches hold 1..50 ids each. Across all batches every referenced non-empty artist id appears exactly once. |
| Splitter.SplitIsPartition | script.js:92-135 | The buckets hold one URI per valid track, never more than the playlist's items. |
| Splitter.MalformedResponsesRecordNothing | script.js:115 | When no artist response is usable the genre map stays empty. |
| Splitter.DedupConstant | script.js:133 | Labels that are all the same genre produce one key. |
| Splitter.SelectAll | script.js:133-134 | When every label is the same genre, that genre's selection is all URIs. |
| Splitter.AllLookupsMalformed | script.js:111-135 | With every lookup unusable there is a single `"Unknown"` bucket holding every valid track's URI, in order. With no valid tracks there are no buckets. |
| Scenarios.MixNormalized | script.js:92-98 | The three raw items normalise to three tracks. |
| Scenarios.MixDistinct | script.js:101-103 | Their distinct artists are A, B, C, in order. |
| Scenarios.MixLookups | script.js:112-113 | One lookup batch, holding A, B and C. |
| Scenarios.MixGenres | script.js:111-120 | The genre map of the worked run. |
| Scenarios.MixGrouping | script.js:130-135 | The worked labels group into rock, jazz and Unknown buckets. |
| Scenarios.MixGroups | script.js:92-135 | The whole split of the worked playlist. |
| Scenarios.MixWrites | script.js:140-173 | With every creation succeeding, three playlists are written with their names and URIs. |
| Scenarios.MixJazzCreationFails | script.js:162-168 | When the jazz playlist cannot be created, only rock and Unknown are written. |

## Left out

- HTTP itself is not modelled. This covers `fetch`, headers, the bearer token, URL and `encodeURIComponent` templates, JSON bodies, and the `JSON.parse`-or-text fallback (script.js:14-25, 41-42). A reply is reduced to its status and its `Retry-After` value.
- `setTimeout` sleeps are not executed. Retry waits are recorded as durations. The fixed 200 ms and 250 ms pauses between batches (script.js:119, 156) are left out, since they change no value.
- Retry.RetryFrom: `Retry-After` is an optional natural number defaulting to 1. A header that `parseInt` turns into `NaN` is not modelled: the wait would be `NaN` and the script would sleep 0 ms.
- A `fetch` that rejects is not retried by the script. It is modelled as the outcome `NetworkError(k)`, which happens when the scripted replies run out at attempt k.
- Pagination.ListFrom requires a page that ends the listing, and Pagination.FindFrom a page that ends the listing or holds a match. Without one the script loops forever.
- The `/v1/me` profile step and its early return (script.js:47-52) are left out. So are the early return when the playlist is not found (script.js:70-71).
- Console logging, `console.table` and the final summary (script.js:137-138, 175-179) are left out. So is the playlist description string (script.js:142).
- Tracks.ArtistIds: an artist entry is taken as always present. A `null` entry in `artists` makes `a.id` throw in the script, which aborts the whole run. That path is not modelled.
- Genres.Record: an artist entry in a batch response is taken to carry its id. A missing id would become the key `"undefined"` in the script's plain object; that is not modelled. Inherited prototype keys of `{}` are not modelled either. A `null` entry in a response's `artists` list makes `a.id` throw (script.js:116) and aborts the run; that path is not modelled, since an artist entry is never null here.
- Splitter.ResolveGenres: every lookup answers. A lookup whose `fetchApi` call throws (script.js:114) — five retried replies, or `fetch` rejecting — is outside any `try` and aborts the whole run; that abort is not modelled. The same holds for the page requests of the two listings (script.js:59, 79), which Pagination models only as answered pages.
- Writer.PlanWrites: creation success is an oracle and every add request is assumed to be sent. An exception in the middle of `addTracksToPlaylist` is caught per genre (script.js:163-172). It would cut that genre's batches short, and that is not modelled.
- Writer.SafeName: strings are sequences of characters. JavaScript's `slice` counts UTF-16 code units, so a name with characters outside the Basic Multilingual Plane would be cut at a different point.
- The `createdPlaylists` record (script.js:161, 166) only feeds the final summary. It is left out.

Three behaviours of script.js worth knowing, all modelled:

- A 5xx reply on the fifth attempt is returned to the caller, not thrown, because the retry guard is `attempt < 4` (script.js:35).
- `pickGenreForTrack(t) || 'Unknown'` also files a track under `"Unknown"` when the first genre found is the empty string (script.js:132).
- When the number of items is a multiple of the page size, the last full page does not end the loop, so the script makes one more request and gets an empty page (script.js:82).
