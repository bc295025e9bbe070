/** `main`: choose the playlist or the album path by looking for "playlist"
    in the URL, build the pending search strings, and download them. The
    two prompts become the parameters `url` and `entries` (the listing of
    the destination folder); the provider's answers become `playlistPages`
    and `albumTracks`. */
module App {
  import opened Wrappers
  import opened Seqs
  import opened Queries
  import opened Folder
  import opened Reformat
  import opened Pagination
  import opened Downloads

  /** `"playlist" in spotify_url`. */
  predicate IsPlaylistUrl(url: string)
  {
    HasSubstring(url, "playlist")
  }

  /** The search strings the playlist path downloads. */
  function PlaylistPending(pages: seq<Page<PlaylistItem>>, entries: seq<Entry>, safe: string -> string): seq<string>
    requires Ends(pages)
  {
    Pending(PlaylistQueries(ItemsOf(pages[..LastRequested(pages) + 1])), entries, safe)
  }

  /** One run of the program. On the album path a track without artists
      stops the run before any download, reported as Failure(position);
      otherwise the result is the log of every download attempt. */
  method Run(url: string, playlistPages: seq<Page<PlaylistItem>>, albumTracks: seq<Track>,
             entries: seq<Entry>, safe: string -> string, succeeds: (nat, nat) -> bool)
    returns (r: Result<seq<Attempt>, nat>)
    requires IsPlaylistUrl(url) ==> Ends(playlistPages)
    ensures IsPlaylistUrl(url) ==>
              r == Success(Schedule(PlaylistPending(playlistPages, entries, safe), succeeds))
    ensures !IsPlaylistUrl(url) ==>
              r == match AlbumQueries(albumTracks)
                   case Failure(k) => Failure(k)
                   case Success(qs) => Success(Schedule(Pending(qs, entries, safe), succeeds))
  {
    if IsPlaylistUrl(url) {
      var items, _ := GetPlaylistTracks(playlistPages);
      var tracks := ReformatPlaylistTracksData(items, entries, safe);
      var log, _ := DownloadListOfTracks(tracks, succeeds);
      r := Success(log);
    } else {
      var tracks := ReformatAlbumData(albumTracks, entries, safe);
      match tracks {
        case Failure(k) =>
          r := Failure(k);
        case Success(ts) =>
          var log, _ := DownloadListOfTracks(ts, succeeds);
          r := Success(log);
      }
    }
  }

  /** A two-track playlist whose first track is already in the folder as
      "Song A By Artist X.m4a": only "Song B By Artist Y" is left, and when
      its first attempt succeeds it is the only attempt of the run. */
  lemma PlaylistScenario(safe: string -> string, succeeds: (nat, nat) -> bool)
    requires safe("Song A By Artist X") == "Song A By Artist X"
    requires safe("Song B By Artist Y") == "Song B By Artist Y"
    ensures Ends(ScenarioPages())
    ensures PlaylistPending(ScenarioPages(), ScenarioFolder(), safe) == ["Song B By Artist Y"]
    ensures succeeds(1, 1) ==>
              Schedule(PlaylistPending(ScenarioPages(), ScenarioFolder(), safe), succeeds) ==
              [Attempt("Song B By Artist Y", 1, 1, true)]
  {
    ScenarioItems();
    ScenarioQueries();
    ScenarioFilter(safe);
    var only := ["Song B By Artist Y"];
    assert only[..0] == [];
  }

  lemma ScenarioItems()
    ensures Ends(ScenarioPages())
    ensures ItemsOf(ScenarioPages()[..LastRequested(ScenarioPages()) + 1]) == ScenarioPages()[0].items
  {
    var pages := ScenarioPages();
    assert !HasNext(pages[0]);
    assert pages[..LastRequested(pages) + 1] == pages;
    assert ItemsOf(pages) == ItemsOf([]) + pages[0].items;
  }

  lemma ScenarioFilter(safe: string -> string)
    requires safe("Song A By Artist X") == "Song A By Artist X"
    requires safe("Song B By Artist Y") == "Song B By Artist Y"
    ensures Pending(["Song A By Artist X", "Song B By Artist Y"], ScenarioFolder(), safe) == ["Song B By Artist Y"]
  {
    var qs := ["Song A By Artist X", "Song B By Artist Y"];
    var entries := ScenarioFolder();
    ScenarioStems();
    PendingIsFilterOnStems(qs, entries, safe);
    ScenarioKeep(safe, FilesInFolder(entries));
  }

  lemma ScenarioKeep(safe: string -> string, stems: seq<string>)
    requires safe("Song A By Artist X") == "Song A By Artist X"
    requires safe("Song B By Artist Y") == "Song B By Artist Y"
    requires stems == ["Song A By Artist X"]
    ensures Filter(["Song A By Artist X", "Song B By Artist Y"], (t: string) => safe(t) !in stems) == ["Song B By Artist Y"]
  {
    var qs := ["Song A By Artist X", "Song B By Artist Y"];
    var keep := (t: string) => safe(t) !in stems;
    assert !keep(qs[0]);
    assert "Song B By Artist Y" != "Song A By Artist X" by {
      assert "Song B By Artist Y"[5] != "Song A By Artist X"[5];
    }
    assert keep(qs[1]);
    var first := qs[..1];
    assert first[..0] == [];
    assert Filter(first, keep) == [];
    assert Filter(qs, keep) == Filter(first, keep) + [qs[1]];
  }

  function ScenarioPages(): seq<Page<PlaylistItem>>
  {
    [Page([PlaylistItem(Track("Song A", [Artist("Artist X")])),
           PlaylistItem(Track("Song B", [Artist("Artist Y")]))], None)]
  }

  function ScenarioFolder(): seq<Entry>
  {
    [Entry("Song A By Artist X.m4a", true)]
  }

  lemma ScenarioQueries()
    ensures PlaylistQueries(ScenarioPages()[0].items) == ["Song A By Artist X", "Song B By Artist Y"]
  {
    var items := ScenarioPages()[0].items;
    PlaylistQuerySingleArtist("Song A", Artist("Artist X"));
    PlaylistQuerySingleArtist("Song B", Artist("Artist Y"));
    assert "Song A" + " By " + "Artist X" == "Song A By Artist X";
    assert "Song B" + " By " + "Artist Y" == "Song B By Artist Y";
    PlaylistQueriesSpec(items);
  }

  lemma ScenarioStems()
    ensures FilesInFolder(ScenarioFolder()) == ["Song A By Artist X"]
  {
    var entries := ScenarioFolder();
    StemExamples("");
    assert IsFile(entries[0]);
    FilterAllOrNone(entries, IsFile);
  }
}
