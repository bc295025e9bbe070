/** `reformat_album_data` and `reformat_playlist_tracks_data`: build the search
    strings with a loop that appends, then drop those already in the folder. */
module Reformat {
  import opened Wrappers
  import opened Queries
  import opened Folder

  /** Album tracks: `"<name> By <first artist>"` for each track, then the
      skip filter. A track without artists raises at its position k,
      modelled as Failure(k), before any filtering. */
  method ReformatAlbumData(tracks: seq<Track>, entries: seq<Entry>, safe: string -> string)
    returns (r: Result<seq<string>, nat>)
    ensures AlbumQueries(tracks).Failure? ==> r == Failure(AlbumQueries(tracks).error)
    ensures AlbumQueries(tracks).Success? ==> r == Success(Pending(AlbumQueries(tracks).value, entries, safe))
  {
    var reformatted: seq<string> := [];
    for k := 0 to |tracks|
      invariant AlbumQueries(tracks[..k]) == Success(reformatted)
    {
      assert tracks[..k + 1][..k] == tracks[..k];
      var track := tracks[k];
      if track.artists == [] {
        PrefixFailurePersists(tracks, k + 1);
        return Failure(k);
      }
      var artist := track.artists[0].name;
      reformatted := reformatted + [track.name + By + artist];
    }
    assert tracks[..|tracks|] == tracks;
    r := Success(Pending(reformatted, entries, safe));
  }

  /** Once a prefix of the tracks fails, the whole list fails the same way. */
  lemma {:induction false} PrefixFailurePersists(tracks: seq<Track>, n: nat)
    requires n <= |tracks| && AlbumQueries(tracks[..n]).Failure?
    ensures AlbumQueries(tracks) == AlbumQueries(tracks[..n])
    decreases |tracks| - n
  {
    if n < |tracks| {
      assert tracks[..n + 1][..n] == tracks[..n];
      PrefixFailurePersists(tracks, n + 1);
    } else {
      assert tracks[..n] == tracks;
    }
  }

  /** Playlist items: `"<name> By <a1> And <a2> ..."` for each item, then the
      skip filter. */
  method ReformatPlaylistTracksData(items: seq<PlaylistItem>, entries: seq<Entry>, safe: string -> string)
    returns (r: seq<string>)
    ensures r == Pending(PlaylistQueries(items), entries, safe)
  {
    var reformatted: seq<string> := [];
    for k := 0 to |items|
      invariant reformatted == PlaylistQueries(items[..k])
    {
      assert items[..k + 1][..k] == items[..k];
      var artists := Seqs.Join(And, Names(items[k].track.artists));
      var songName := items[k].track.name;
      reformatted := reformatted + [songName + By + artists];
    }
    assert items[..|items|] == items;
    r := Pending(reformatted, entries, safe);
  }
}
