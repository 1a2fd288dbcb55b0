/**
 * Playlist creation and population: one new playlist per genre bucket, in
 * bucket order, named after the source playlist and the genre, filled in
 * batches of at most 100 URIs. Whether creating a playlist succeeds is an
 * oracle; a genre whose playlist is not created is skipped.
 */
module Writer {
  import opened Sequences
  import opened Genres

  /** Longest playlist name sent. */
  const NameLimit: nat := 100
  /** Most URIs added per request. */
  const UriBatchSize: nat := 100
  /** Between the source playlist's name and the genre: space, em dash, space. */
  const Separator: string := " \U{2014} "

  /** `${PLAYLIST_NAME} — ${genre}` cut to its first 100 characters. */
  function SafeName(base: string, genre: string): (name: string)
    ensures |name| == Min(|base + Separator + genre|, NameLimit)
    ensures name == (base + Separator + genre)[..|name|]
  {
    var full := base + Separator + genre;
    if |full| <= NameLimit then full else full[..NameLimit]
  }

  /** A name short enough is kept whole. */
  lemma SafeNameWhole(base: string, genre: string)
    requires |base| + |genre| + 3 <= NameLimit
    ensures SafeName(base, genre) == base + Separator + genre
  {
  }

  /** A playlist created for a genre and the add requests sent to it, in order. */
  datatype Write = Write(genre: string, name: string, batches: seq<seq<string>>)

  /** Every batch is non-empty and holds at most `n` URIs. */
  predicate BatchedWithin(batches: seq<seq<string>>, n: nat) {
    forall b :: b in batches ==> 0 < |b| <= n
  }

  /** `createPlaylistForGenre` then `addTracksToPlaylist` for one bucket, when creation succeeds. */
  function WriteFor(base: string, b: Bucket): (w: Write)
    ensures w.genre == b.genre && w.name == SafeName(base, b.genre)
    ensures Flatten(w.batches) == b.uris && BatchedWithin(w.batches, UriBatchSize)
  {
    var batches := Chunk(b.uris, UriBatchSize);
    assert BatchedWithin(batches, UriBatchSize) by {
      forall x | x in batches
        ensures 0 < |x| <= UriBatchSize
      {
        var k :| 0 <= k < |batches| && batches[k] == x;
      }
    }
    Write(b.genre, SafeName(base, b.genre), batches)
  }

  /**
   * The per-genre loop: for each bucket, in bucket order, create the playlist;
   * when creation fails skip the genre, otherwise add its URIs in batches.
   */
  function PlanWrites(buckets: seq<Bucket>, base: string, created: string -> bool): (ws: seq<Write>)
    ensures |ws| <= |buckets|
    ensures forall k :: 0 <= k < |ws| ==>
      created(ws[k].genre) && ws[k].name == SafeName(base, ws[k].genre) && BatchedWithin(ws[k].batches, UriBatchSize)
    decreases |buckets|
  {
    if |buckets| == 0 then []
    else
      var b := buckets[0];
      var rest := PlanWrites(buckets[1..], base, created);
      var ws := if created(b.genre) then [WriteFor(base, b)] + rest else rest;
      assert forall k :: 1 <= k < |ws| && created(b.genre) ==> ws[k] == rest[k - 1];
      ws
  }

  /** The write carries the bucket's genre and sends exactly its URIs. */
  predicate Realises(w: Write, b: Bucket) {
    w.genre == b.genre && Flatten(w.batches) == b.uris
  }

  /** Every write sends the URIs of some bucket with its genre. */
  lemma {:induction false} WritesComeFromBuckets(buckets: seq<Bucket>, base: string, created: string -> bool, k: nat)
    requires k < |PlanWrites(buckets, base, created)|
    ensures exists i :: 0 <= i < |buckets| && Realises(PlanWrites(buckets, base, created)[k], buckets[i])
    decreases |buckets|
  {
    var rest := PlanWrites(buckets[1..], base, created);
    var ws := PlanWrites(buckets, base, created);
    var d := if created(buckets[0].genre) then 1 else 0;
    if k < d {
      assert Realises(ws[0], buckets[0]) by {
        assert ws[0] == WriteFor(base, buckets[0]);
      }
    } else {
      assert ws[k] == rest[k - d];
      WritesComeFromBuckets(buckets[1..], base, created, k - d);
      var i :| 0 <= i < |buckets| - 1 && Realises(rest[k - d], buckets[1..][i]);
      assert Realises(ws[k], buckets[i + 1]);
    }
  }

  /** Every bucket whose playlist is created gets a write sending exactly its URIs. */
  lemma {:induction false} CreatedBucketsWritten(buckets: seq<Bucket>, base: string, created: string -> bool, i: nat)
    requires i < |buckets| && created(buckets[i].genre)
    ensures exists k ::
      0 <= k < |PlanWrites(buckets, base, created)| && Realises(PlanWrites(buckets, base, created)[k], buckets[i])
    decreases |buckets|
  {
    var rest := PlanWrites(buckets[1..], base, created);
    var ws := PlanWrites(buckets, base, created);
    var d := if created(buckets[0].genre) then 1 else 0;
    if i == 0 {
      assert Realises(ws[0], buckets[0]);
    } else {
      assert buckets[1..][i - 1] == buckets[i];
      CreatedBucketsWritten(buckets[1..], base, created, i - 1);
      var k :| 0 <= k < |rest| && Realises(rest[k], buckets[1..][i - 1]);
      assert ws[k + d] == rest[k];
    }
  }

  /** Genres are processed in bucket order: the plan of consecutive bucket lists concatenates. */
  lemma {:induction false} PlanWritesAppend(a: seq<Bucket>, b: seq<Bucket>, base: string, created: string -> bool)
    ensures PlanWrites(a + b, base, created) == PlanWrites(a, base, created) + PlanWrites(b, base, created)
    decreases |a|
  {
    if |a| == 0 {
      assert a + b == b;
    } else {
      assert (a + b)[1..] == a[1..] + b;
      PlanWritesAppend(a[1..], b, base, created);
    }
  }

  /** A genre whose playlist could not be created gets no writes. */
  lemma SkippedGenreNotWritten(buckets: seq<Bucket>, base: string, created: string -> bool, genre: string)
    requires !created(genre)
    ensures forall k :: 0 <= k < |PlanWrites(buckets, base, created)| ==>
      PlanWrites(buckets, base, created)[k].genre != genre
  {
  }
}
