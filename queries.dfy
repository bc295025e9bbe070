/** The search strings built from the metadata provider's track records:
    `"<name> By <artists>"`. */
module Queries {
  import opened Wrappers
  import opened Seqs

  datatype Artist = Artist(name: string)

  /** A track record: its name and its artists in the provider's order. */
  datatype Track = Track(name: string, artists: seq<Artist>)

  /** A playlist item wraps its track under the key `track`. */
  datatype PlaylistItem = PlaylistItem(track: Track)

  const By: string := " By "
  const And: string := " And "

  function Names(artists: seq<Artist>): (r: seq<string>)
    ensures |r| == |artists|
  {
    seq(|artists|, k requires 0 <= k < |artists| => artists[k].name)
  }

  /** The search string for an album track. Only the first artist is used;
      a track with no artist makes `artists[0]` raise, modelled as None. */
  function AlbumQuery(t: Track): (r: Option<string>)
    ensures r.Some? <==> t.artists != []
  {
    if t.artists == [] then None else Some(t.name + By + t.artists[0].name)
  }

  /** The search string for a playlist track: every artist, joined by " And ". */
  function PlaylistQuery(t: Track): string
  {
    t.name + By + Join(And, Names(t.artists))
  }

  /** An album query is the playlist query of the same track cut down to its
      first artist. */
  lemma AlbumQueryIsFirstArtistPlaylistQuery(t: Track)
    requires t.artists != []
    ensures AlbumQuery(t) == Some(PlaylistQuery(Track(t.name, t.artists[..1])))
  {
    assert Names(t.artists[..1]) == [t.artists[0].name];
  }

  /** Artists after the first never change an album query. */
  lemma AlbumQueryIgnoresLaterArtists(t: Track, later: seq<Artist>)
    ensures AlbumQuery(Track(t.name, t.artists + later)) ==
            if t.artists == [] then AlbumQuery(Track(t.name, later)) else AlbumQuery(t)
  {
  }

  /** With no artist, a playlist query ends in " By ". */
  lemma PlaylistQueryNoArtists(name: string)
    ensures PlaylistQuery(Track(name, [])) == name + " By "
  {
  }

  /** With one artist, album and playlist queries agree. */
  lemma PlaylistQuerySingleArtist(name: string, a: Artist)
    ensures PlaylistQuery(Track(name, [a])) == name + " By " + a.name
    ensures AlbumQuery(Track(name, [a])) == Some(PlaylistQuery(Track(name, [a])))
  {
    assert Names([a]) == [a.name];
  }

  /** Adding one more artist at the end appends " And " and that artist's
      name, so the names appear in the provider's order. */
  lemma PlaylistQueryAddArtist(name: string, artists: seq<Artist>, a: Artist)
    requires artists != []
    ensures PlaylistQuery(Track(name, artists + [a])) == PlaylistQuery(Track(name, artists)) + " And " + a.name
  {
    var ns := Names(artists + [a]);
    assert ns[..|ns| - 1] == Names(artists);
    assert ns[|ns| - 1] == a.name;
  }

  /** Read from the front: the first artist follows " By ", and the others
      follow it, joined by " And ". */
  lemma PlaylistQueryFirstArtist(name: string, a: Artist, rest: seq<Artist>)
    requires rest != []
    ensures PlaylistQuery(Track(name, [a] + rest)) == name + " By " + a.name + " And " + Join(And, Names(rest))
  {
    assert Names([a] + rest) == [a.name] + Names(rest);
    JoinCons(And, a.name, Names(rest));
  }

  /** The album loop, run over all of `tracks`: the queries in order, or the
      position of the first track with no artist, where the loop raises. */
  function AlbumQueries(tracks: seq<Track>): Result<seq<string>, nat>
  {
    if tracks == [] then Success([])
    else
      match AlbumQueries(tracks[..|tracks| - 1])
      case Failure(k) => Failure(k)
      case Success(qs) =>
        match AlbumQuery(tracks[|tracks| - 1])
        case None => Failure(|tracks| - 1)
        case Some(q) => Success(qs + [q])
  }

  /** The album loop fails exactly when some track has no artist, and then it
      names the first such track; otherwise it gives one query per track, in
      order. */
  lemma {:induction false} AlbumQueriesSpec(tracks: seq<Track>)
    ensures AlbumQueries(tracks).Failure? <==> exists k :: 0 <= k < |tracks| && tracks[k].artists == []
    ensures AlbumQueries(tracks).Failure? ==>
              AlbumQueries(tracks).error < |tracks| && tracks[AlbumQueries(tracks).error].artists == [] &&
              forall k :: 0 <= k < AlbumQueries(tracks).error ==> tracks[k].artists != []
    ensures AlbumQueries(tracks).Success? ==>
              |AlbumQueries(tracks).value| == |tracks| &&
              forall k :: 0 <= k < |tracks| ==>
                AlbumQuery(tracks[k]).Some? && AlbumQueries(tracks).value[k] == AlbumQuery(tracks[k]).value
  {
    if tracks != [] {
      var init := tracks[..|tracks| - 1];
      AlbumQueriesSpec(init);
      assert forall k :: 0 <= k < |init| ==> init[k] == tracks[k];
    }
  }

  /** The playlist loop, run over all of `items`. */
  function PlaylistQueries(items: seq<PlaylistItem>): seq<string>
  {
    if items == [] then []
    else PlaylistQueries(items[..|items| - 1]) + [PlaylistQuery(items[|items| - 1].track)]
  }

  /** The playlist loop gives one query per item, in order. */
  lemma {:induction false} PlaylistQueriesSpec(items: seq<PlaylistItem>)
    ensures |PlaylistQueries(items)| == |items|
    ensures forall k :: 0 <= k < |items| ==> PlaylistQueries(items)[k] == PlaylistQuery(items[k].track)
  {
    if items != [] {
      var init := items[..|items| - 1];
      PlaylistQueriesSpec(init);
      assert forall k :: 0 <= k < |init| ==> init[k] == items[k];
    }
  }
}
