/**
 * The worked example of a three-track playlist "MIX" whose artists A, B and C
 * have the genres rock, jazz and none: the buckets, the playlists written,
 * and what happens when the "jazz" playlist cannot be created.
 */
module Scenarios {
  import opened Wrappers
  import opened Sequences
  import opened Tracks
  import opened Genres
  import opened Writer
  import opened Splitter

  function MixItem(uri: string, artist: string): RawItem {
    Some(Some(RawTrack(Some(uri), None, None, Some([RawArtist(Some(artist))]))))
  }
  function MixArtist(id: string): ArtistInfo {
    if id == "A" then ArtistInfo(id, Some(["rock"]))
    else if id == "B" then ArtistInfo(id, Some(["jazz"]))
    else ArtistInfo(id, None)
  }
  function MixLookup(ids: seq<string>): ArtistsResponse {
    Some(seq(|ids|, i requires 0 <= i < |ids| => MixArtist(ids[i])))
  }
  function MixItems(): seq<RawItem> {
    [MixItem("uA", "A"), MixItem("uB", "B"), MixItem("uC", "C")]
  }
  function MixTracks(): seq<Track> {
    [Track("uA", None, None, ["A"]), Track("uB", None, None, ["B"]), Track("uC", None, None, ["C"])]
  }

  lemma MixNormalized()
    ensures Normalize(MixItems()) == MixTracks()
  {
    var items := MixItems();
    forall a | a in ["A", "B", "C"]
      ensures ArtistIds([RawArtist(Some(a))]) == [a]
    {
      assert [RawArtist(Some(a))][1..] == [];
    }
    NormalizeSingle(items[0]);
    NormalizeSingle(items[1]);
    NormalizeSingle(items[2]);
    NormalizeAppend([items[0]], [items[1]]);
    NormalizeAppend([items[0], items[1]], [items[2]]);
    assert items == [items[0], items[1]] + [items[2]];
  }

  lemma MixReferenced()
    ensures ReferencedArtists(MixTracks()) == ["A", "B", "C"]
  {
    var tracks := MixTracks();
    assert tracks[1..][1..] == [tracks[2]] && [tracks[2]][1..] == [];
  }

  lemma MixDedup()
    ensures Dedup(["A", "B", "C"]) == ["A", "B", "C"]
  {
    assert Dedup([]) == [];
    DedupSnoc([], "A");
    assert [] + ["A"] == ["A"];
    assert Dedup(["A"]) == ["A"];
    DedupSnoc(["A"], "B");
    assert ["A"] + ["B"] == ["A", "B"];
    assert Dedup(["A", "B"]) == ["A", "B"];
    DedupSnoc(["A", "B"], "C");
    assert ["A", "B"] + ["C"] == ["A", "B", "C"];
  }

  lemma MixDistinct()
    ensures DistinctArtistIds(MixTracks()) == ["A", "B", "C"]
  {
    var tracks := MixTracks();
    assert DistinctArtistIds(tracks) == Dedup(ReferencedArtists(tracks)) by {
      assert forall t :: t in tracks ==> WellFormed(t) by {
        MixNormalized();
      }
      DistinctArtistIdsFirstSeen(tracks);
    }
    MixReferenced();
    MixDedup();
  }

  lemma MixLookups()
    ensures ArtistBatches(MixTracks()) == [["A", "B", "C"]]
  {
    MixDistinct();
  }

  function MixEntries(): seq<ArtistInfo> {
    [ArtistInfo("A", Some(["rock"])), ArtistInfo("B", Some(["jazz"])), ArtistInfo("C", None)]
  }

  lemma MixResponse()
    ensures MixLookup(["A", "B", "C"]) == Some(MixEntries())
  {
    var ids := ["A", "B", "C"];
    var r := seq(|ids|, i requires 0 <= i < |ids| => MixArtist(ids[i]));
    assert r[0] == MixEntries()[0] && r[1] == MixEntries()[1] && r[2] == MixEntries()[2];
    assert r == MixEntries();
  }

  lemma MixRecord()
    ensures var m := Record(map[], MixEntries());
      m.Keys == {"A", "B", "C"} && m["A"] == ["rock"] && m["B"] == ["jazz"] && m["C"] == []
  {
    var es := MixEntries();
    assert IdSet(es) == {"A", "B", "C"} by {
      assert es[0].id == "A" && es[1].id == "B" && es[2].id == "C";
      assert forall a :: a in es ==> a == es[0] || a == es[1] || a == es[2];
    }
    assert LastWithId(es, 0) && LastWithId(es, 1) && LastWithId(es, 2);
  }

  lemma MixGenres()
    ensures var m := ResolveGenres(MixTracks(), MixLookup);
      m.Keys == {"A", "B", "C"} && m["A"] == ["rock"] && m["B"] == ["jazz"] && m["C"] == []
  {
    MixLookups();
    MixResponse();
    MixRecord();
    var rs := [Some(MixEntries())];
    assert rs[..0] == [];
    assert BuildGenreMap(rs) == Record(map[], MixEntries());
    var batches := ArtistBatches(MixTracks());
    assert seq(|batches|, i requires 0 <= i < |batches| => MixLookup(batches[i])) == rs;
  }

  lemma MixLabels()
    ensures Labelled(MixTracks(), ResolveGenres(MixTracks(), MixLookup))
      == [("rock", "uA"), ("jazz", "uB"), (Unknown, "uC")]
  {
    MixGenres();
    var tracks := MixTracks();
    var m := ResolveGenres(tracks, MixLookup);
    assert FirstWithGenre(tracks[0].artistIds, m, 0);
    assert FirstWithGenre(tracks[1].artistIds, m, 0);
    assert !HasGenre(m, tracks[2].artistIds[0]);
  }

  lemma MixGrouping()
    ensures Group([("rock", "uA"), ("jazz", "uB"), (Unknown, "uC")])
      == [Bucket("rock", ["uA"]), Bucket("jazz", ["uB"]), Bucket("Unknown", ["uC"])]
  {
    var ps := [("rock", "uA"), ("jazz", "uB"), (Unknown, "uC")];
    assert ps[..2] == [("rock", "uA"), ("jazz", "uB")];
    assert ps[..2][..1] == [("rock", "uA")];
    assert ps[..2][..1][..0] == [];
    assert Group(ps[..2][..1]) == [Bucket("rock", ["uA"])];
    assert Group(ps[..2]) == [Bucket("rock", ["uA"]), Bucket("jazz", ["uB"])];
    var bs := [Bucket("rock", ["uA"]), Bucket("jazz", ["uB"])];
    assert Keys(bs) == ["rock", "jazz"];
    assert Keys(bs[1..]) == ["jazz"];
    assert Place(bs[1..][1..], Unknown, "uC") == [Bucket(Unknown, ["uC"])];
    assert Place(bs[1..], Unknown, "uC") == [Bucket("jazz", ["uB"]), Bucket(Unknown, ["uC"])];
    assert Place(bs, Unknown, "uC") == [Bucket("rock", ["uA"]), Bucket("jazz", ["uB"]), Bucket(Unknown, ["uC"])];
  }

  lemma MixGroups()
    ensures Split(MixItems(), MixLookup) == MixBuckets()
  {
    MixNormalized();
    MixLabels();
    MixGrouping();
  }

  function MixBuckets(): seq<Bucket> {
    [Bucket("rock", ["uA"]), Bucket("jazz", ["uB"]), Bucket("Unknown", ["uC"])]
  }

  function AllCreated(genre: string): bool {
    true
  }

  function AllButJazzCreated(genre: string): bool {
    genre != "jazz"
  }

  lemma WriteOfSingleTrack(g: string, u: string)
    requires |g| <= 10
    ensures WriteFor("MIX", Bucket(g, [u])) == Write(g, "MIX" + Separator + g, [[u]])
  {
  }

  lemma MixSplitThenWrite(created: string -> bool)
    ensures SplitAndWrite(MixItems(), MixLookup, "MIX", created) == PlanWrites(MixBuckets(), "MIX", created)
  {
    MixGroups();
  }

  lemma MixPlanTail(created: string -> bool)
    requires created("Unknown")
    ensures PlanWrites(MixBuckets()[2..], "MIX", created) == [WriteFor("MIX", MixBuckets()[2])]
  {
    assert MixBuckets()[2..][1..] == [];
  }

  lemma MixPlanAll()
    ensures PlanWrites(MixBuckets(), "MIX", AllCreated) ==
      [WriteFor("MIX", MixBuckets()[0]), WriteFor("MIX", MixBuckets()[1]), WriteFor("MIX", MixBuckets()[2])]
  {
    var bs := MixBuckets();
    MixPlanTail(AllCreated);
    assert bs[1..][1..] == bs[2..];
  }

  lemma MixPlanNoJazz()
    ensures PlanWrites(MixBuckets(), "MIX", AllButJazzCreated) ==
      [WriteFor("MIX", MixBuckets()[0]), WriteFor("MIX", MixBuckets()[2])]
  {
    var bs := MixBuckets();
    MixPlanTail(AllButJazzCreated);
    assert bs[1..][1..] == bs[2..];
  }

  lemma MixWriteValues()
    ensures WriteFor("MIX", MixBuckets()[0]) == Write("rock", "MIX" + Separator + "rock", [["uA"]])
    ensures WriteFor("MIX", MixBuckets()[1]) == Write("jazz", "MIX" + Separator + "jazz", [["uB"]])
    ensures WriteFor("MIX", MixBuckets()[2]) == Write("Unknown", "MIX" + Separator + "Unknown", [["uC"]])
  {
    WriteOfSingleTrack("rock", "uA");
    WriteOfSingleTrack("jazz", "uB");
    WriteOfSingleTrack("Unknown", "uC");
  }

  /** With every creation succeeding, three playlists are written, named "MIX — <genre>". */
  lemma MixWrites()
    ensures SplitAndWrite(MixItems(), MixLookup, "MIX", AllCreated) == [
      Write("rock", "MIX" + Separator + "rock", [["uA"]]),
      Write("jazz", "MIX" + Separator + "jazz", [["uB"]]),
      Write("Unknown", "MIX" + Separator + "Unknown", [["uC"]])]
  {
    MixSplitThenWrite(AllCreated);
    MixPlanAll();
    MixWriteValues();
  }

  /** When the "jazz" playlist cannot be created, that genre is skipped and the others still written. */
  lemma MixJazzCreationFails()
    ensures SplitAndWrite(MixItems(), MixLookup, "MIX", AllButJazzCreated) == [
      Write("rock", "MIX" + Separator + "rock", [["uA"]]),
      Write("Unknown", "MIX" + Separator + "Unknown", [["uC"]])]
  {
    MixSplitThenWrite(AllButJazzCreated);
    MixPlanNoJazz();
    MixWriteValues();
  }
}
