# SpotifyDownload, modelled in Dafny

SpotifyDownload reads the track list of a Spotify playlist or album. It turns
each track into a search string `"<name> By <artists>"` and skips the tracks
whose file is already in the destination folder. It then searches YouTube for
each remaining string and downloads the audio, retrying a failed download.
This project models the program's own logic in `main.py`:

- building the search strings (`Queries`, and the two reformat loops in `Reformat`);
- the skip-already-downloaded filter over the folder listing (`Folder`);
- following the playlist's `next` cursors (`Pagination`);
- the retry-then-skip download loop (`Downloads`);
- the playlist/album dispatch of `main` (`App`).

Everything outside the program becomes an input:

- the folder listing is a sequence of `Entry(name, isFile)`;
- the provider's answers are a sequence of pages, or a sequence of album tracks;
- `pytube.helpers.safe_filename` is a function parameter `safe`, about which nothing is assumed;
- each call of `search_and_download` is an oracle `succeeds(track_number, i)` that says whether that attempt raised.

Where the code and its intended behaviour differ, the model follows the code:

- A failing track is attempted **twice**, not three times. The counter `i` starts at 1 and the loop runs while `i < 3`. The message `"Trying again... i/3"` suggests three attempts. `Downloads.TriesPerTrack` states the cap that the code actually has.
- A file's stem is the text before its **first** `.`, not its last. So `"Mr. X.m4a"` has the stem `"Mr"`. A track whose safe name contains a `.` is therefore never recognised as already downloaded (`Folder.DottedNameNeverSkipped`).

Modules: `Wrappers` (Option, Result); `Seqs` (the list comprehension with an
`if`, `str.join` and the substring test `in`); `Queries`; `Folder`;
`Reformat`; `Pagination`; `Downloads`; `App`.

## Model

| member | source | states |
|---|---|---|
| Queries.AlbumQuery | main.py:42-44 | an album track gets a search string exactly when it has at least one artist; with none, `artists[0]` raises |
| Queries.AlbumQueryIsFirstArtistPlaylistQuery | main.py:42-44 | an album string is the track name, then " By ", then the first artist's name: the playlist format applied to the first artist alone |
| Queries.AlbumQueryIgnoresLaterArtists | main.py:42 | appending artists after the first never changes an album string |
| Queries.PlaylistQueryNoArtists | main.py:74-76 | a playlist track with no artists gives "<name> By " |
| Queries.PlaylistQuerySingleArtist | main.py:74-76 | with one artist the playlist string is "<name> By <artist>" and equals the album string |
| Queries.PlaylistQueryAddArtist | main.py:74-76 | one more artist at the end appends " And <artist>", so the artists appear in the provider's order |
| Queries.PlaylistQueryFirstArtist | main.py:74-76 | read from the front, the first artist follows " By " and the remaining artists follow it, joined by " And " |
| Seqs.JoinCons | main.py:74 | `sep.join` seen from the front: the first element, then `sep`, then the join of the rest |
| Seqs.JoinLength | main.py:74 | a join holds every element once and `sep` once for each gap between neighbours |
| Queries.AlbumQueriesSpec | main.py:41-44 | the album loop fails exactly when some track has no artist, reports the first such position, and otherwise yields one string per track, in order |
| Queries.PlaylistQueriesSpec | main.py:73-76 | the playlist loop yields one string per item, in order |
| Reformat.ReformatAlbumData | main.py:34-48 | the append loop computes the album strings, or stops at the first track with no artist; the skip filter is then applied to those strings |
| Reformat.PrefixFailurePersists | main.py:41-42 | once the loop has raised on a prefix of the album, the whole album gives that same error |
| Reformat.ReformatPlaylistTracksData | main.py:66-79 | the append loop computes the playlist strings, and the skip filter is then applied to them |
| Folder.Stem | main.py:86 | the stem is a prefix of the file name, contains no '.', and is followed by '.' whenever it is shorter than the name |
| Folder.StemUnique | main.py:86 | the stem is the only string with those three properties, i.e. the text before the first '.' |
| Folder.StemExamples | main.py:86 | a name without '.' is its own stem; "Mr. X.m4a" has the stem "Mr" |
| Folder.FilesInFolderMembership | main.py:84-86 | a string is in the folder list exactly when some regular file in the listing has it as its stem |
| Folder.TracksDownloadedMembership | main.py:88-91 | `list_of_tracks_downloaded` holds exactly the safe names of the tracks that occur among the folder stems |
| Folder.PendingIsFilterOnStems | main.py:46-48 | testing against `set(list_of_tracks_downloaded(...))` gives the same list as testing each track's safe name against the folder stems directly |
| Folder.PendingMembership | main.py:77-79 | a track is kept if and only if it is in the input and its safe name is not a folder stem |
| Folder.PendingKeepsOrderAndDuplicates | main.py:47-48 | the kept tracks are the input read at strictly increasing positions, exactly those whose safe name is not a stem; each kept track keeps all of its copies |
| Folder.DottedNameNeverSkipped | main.py:86-91 | a track whose safe name contains '.' is always kept, because no stem contains '.' |
| Seqs.HasSubstringIff | main.py:132 | the `"playlist" in url` test holds exactly when "playlist" occurs at some position of the URL |
| Pagination.LastRequested | main.py:60-62 | the last page requested is the first page whose `next` is falsy; every earlier page has a next cursor |
| Pagination.ItemsOfFirstPage | main.py:59-62 | the gathered items are the first page's items, followed by the items of the later pages |
| Pagination.ItemsOfAppend | main.py:62 | gathering a run of pages is gathering each part and concatenating the results |
| Pagination.ItemsOfLength | main.py:59-62 | every item of every requested page is gathered exactly once |
| Pagination.GetPlaylistTracks | main.py:53-63 | the loop requests the pages up to the first one without a next cursor and returns their items, in page order |
| Downloads.TriesFrom | main.py:113-120 | from counter i, the inner loop makes the attempts i, i+1, ... with the oracle's outcomes; all but the last fail; the last succeeds or is made with counter 2 |
| Downloads.TriesPerTrack | main.py:110-120 | each track is attempted once or twice, as attempts 1 then 2, stopping right after the first success; a track that always fails gets exactly 2 attempts |
| Downloads.TrackDownloadedIff | main.py:113-120 | a track ends up downloaded exactly when attempt 1 or attempt 2 succeeds |
| Downloads.TriesAreForTrack | main.py:113-115 | every attempt for a track carries that track and its track number |
| Downloads.ScheduleOfTrack | main.py:109-121 | the attempts logged for the k-th track are exactly its own tries, whatever happened to the tracks before it |
| Downloads.ScheduleNumbers | main.py:107-121 | attempts come in list order: track numbers never decrease, each lies in 1..len, and each attempt is for the track at that number |
| Downloads.ScheduleLength | main.py:109-120 | a run makes between len(list) and 2*len(list) attempts |
| Downloads.DownloadListOfTracks | main.py:103-121 | the nested loops make exactly the attempts of the schedule, in order, and `track_number` ends at len(list)+1 |
| App.Run | main.py:126-140 | a URL containing "playlist" takes the paginated playlist path; any other URL takes the album path, which stops on a track with no artist; both download the pending strings |
| App.PlaylistScenario | main.py:132-135 | with "Song A By Artist X.m4a" in the folder, a playlist of Song A and Song B leaves only "Song B By Artist Y", and that track's successful first attempt is the run's only attempt |

## Left out

- Reading `config.cfg` and building the Spotify client (main.py:19-24). This is file I/O and credentials.
- `sp.album_tracks`, `sp.playlist_tracks` and `sp.next` (main.py:31, 58, 61) are network calls. Their answers are given as an album track sequence or a page sequence.
- `GetPlaylistTracks` requires some page to have a falsy `next`. A provider that never ends would make the original loop run forever.
- `search_and_download` (main.py:93-100) is a YouTube search, a stream choice and a file write. It is replaced by the oracle `succeeds`, so the model does not capture the contents or names of the downloaded files.
- The destination folder is read once. The model does not capture that files written during the run could change later listings; `list_of_tracks_downloaded` re-lists the folder for every track, but nothing writes between those listings.
- `os.listdir` and `os.path.isfile` (main.py:86) are filesystem reads, given as the `Entry` sequence.
- The body of `pytube.helpers.safe_filename` is not part of this model. It is an arbitrary function, so its idempotence and which characters it removes are not stated.
- Console I/O: `print` and `input` (main.py:112, 118-119, 130-131, 136, 140). `num_of_tracks` is used only for printing.
- Playlist items whose `track` is null, and malformed provider records. Both would raise in the original; items are modelled as always holding a track.
- The in-place extension of the first page's item list by `extend` (main.py:59-62) is modelled as a fresh sequence. Nothing reads that page afterwards.
- The exception messages of failed attempts. An attempt is modelled only as success or failure.
