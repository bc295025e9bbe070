/** The skip-already-downloaded filter: which search strings already have a
    file in the destination folder. */
module Folder {
  import opened Seqs

  /** One name from the folder listing, and whether it is a regular file. */
  datatype Entry = Entry(name: string, isFile: bool)

  /** `f.split('.')[0]`: the text before the first '.', or all of `f` when it
      has no '.'. The three ensures pin the result down completely
      (see StemUnique). */
  function Stem(f: string): (r: string)
    ensures r <= f
    ensures '.' !in r
    ensures |r| < |f| ==> f[|r|] == '.'
  {
    if f == [] || f[0] == '.' then [] else [f[0]] + Stem(f[1..])
  }

  /** Any prefix without '.' that is followed by '.' or the end is the stem. */
  lemma {:induction false} StemUnique(f: string, r: string)
    requires r <= f && '.' !in r && (|r| < |f| ==> f[|r|] == '.')
    ensures r == Stem(f)
  {
    if f != [] && f[0] != '.' {
      assert r != [] && r[0] == f[0];
      StemUnique(f[1..], r[1..]);
      assert r == [r[0]] + r[1..];
    }
  }

  /** A name with no '.' is its own stem; a name is cut at its first '.',
      so "Mr. X.m4a" has the stem "Mr". */
  lemma StemExamples(f: string)
    ensures '.' !in f ==> Stem(f) == f
    ensures Stem("Mr. X.m4a") == "Mr"
    ensures Stem("Song A By Artist X.m4a") == "Song A By Artist X"
  {
    if '.' !in f {
      StemUnique(f, f);
    }
    StemUnique("Mr. X.m4a", "Mr");
    StemUnique("Song A By Artist X.m4a", "Song A By Artist X");
  }

  predicate IsFile(e: Entry) { e.isFile }

  /** `list_of_files_in_folder`: the stems of the regular files, in listing order. */
  function FilesInFolder(entries: seq<Entry>): (r: seq<string>)
  {
    var files := Filter(entries, IsFile);
    seq(|files|, k requires 0 <= k < |files| => Stem(files[k].name))
  }

  /** A name is among the folder's stems exactly when some regular file has it
      as its stem. */
  lemma FilesInFolderMembership(entries: seq<Entry>, x: string)
    ensures x in FilesInFolder(entries) <==> exists e :: e in entries && e.isFile && Stem(e.name) == x
  {
    var files := Filter(entries, IsFile);
    forall e ensures e in files <==> e in entries && e.isFile {
      FilterMembership(entries, IsFile, e);
    }
    if x in FilesInFolder(entries) {
      var k :| 0 <= k < |files| && FilesInFolder(entries)[k] == x;
      assert files[k] in files;
    }
    if e :| e in entries && e.isFile && Stem(e.name) == x {
      var k :| 0 <= k < |files| && files[k] == e;
      assert FilesInFolder(entries)[k] == x;
    }
  }

  function SafeNames(tracks: seq<string>, safe: string -> string): (r: seq<string>)
    ensures |r| == |tracks|
  {
    seq(|tracks|, k requires 0 <= k < |tracks| => safe(tracks[k]))
  }

  /** `list_of_tracks_downloaded`: the safe names of `tracks` that are folder stems. */
  function TracksDownloaded(tracks: seq<string>, entries: seq<Entry>, safe: string -> string): seq<string>
  {
    Filter(SafeNames(tracks, safe), n => n in FilesInFolder(entries))
  }

  /** The returned names are exactly the safe names of the tracks that occur
      among the folder's stems. */
  lemma TracksDownloadedMembership(tracks: seq<string>, entries: seq<Entry>, safe: string -> string, n: string)
    ensures n in TracksDownloaded(tracks, entries, safe) <==>
            (exists t :: t in tracks && safe(t) == n) && n in FilesInFolder(entries)
  {
    var names := SafeNames(tracks, safe);
    FilterMembership(names, n => n in FilesInFolder(entries), n);
    if n in names {
      var k :| 0 <= k < |names| && names[k] == n;
      assert tracks[k] in tracks;
    }
    if t :| t in tracks && safe(t) == n {
      var k :| 0 <= k < |tracks| && tracks[k] == t;
      assert names[k] == n;
    }
  }

  /** The final comprehension of both reformat functions: keep a track unless
      its safe name is in `set(list_of_tracks_downloaded(...))`. */
  function Pending(tracks: seq<string>, entries: seq<Entry>, safe: string -> string): seq<string>
  {
    var downloaded := set n | n in TracksDownloaded(tracks, entries, safe);
    Filter(tracks, t => safe(t) !in downloaded)
  }

  /** The filter amounts to testing each track's safe name against the folder
      stems directly. */
  lemma PendingIsFilterOnStems(tracks: seq<string>, entries: seq<Entry>, safe: string -> string)
    ensures Pending(tracks, entries, safe) == Filter(tracks, t => safe(t) !in FilesInFolder(entries))
  {
    var downloaded := set n | n in TracksDownloaded(tracks, entries, safe);
    forall t | t in tracks ensures (safe(t) !in downloaded) == (safe(t) !in FilesInFolder(entries)) {
      TracksDownloadedMembership(tracks, entries, safe, safe(t));
    }
    FilterCongruent(tracks, t => safe(t) !in downloaded, t => safe(t) !in FilesInFolder(entries));
  }

  /** A track is kept exactly when its safe name is not a folder stem. */
  lemma PendingMembership(tracks: seq<string>, entries: seq<Entry>, safe: string -> string, t: string)
    ensures t in Pending(tracks, entries, safe) <==> t in tracks && safe(t) !in FilesInFolder(entries)
  {
    PendingIsFilterOnStems(tracks, entries, safe);
    FilterMembership(tracks, t => safe(t) !in FilesInFolder(entries), t);
  }

  /** The kept tracks are the input read at increasing positions, exactly the
      positions whose safe name is not a folder stem, and a kept track keeps
      all of its duplicates. */
  lemma PendingKeepsOrderAndDuplicates(tracks: seq<string>, entries: seq<Entry>, safe: string -> string, t: string)
    ensures var keep := (t: string) => safe(t) !in FilesInFolder(entries);
            var idx := KeptIndices(tracks, keep);
            var r := Pending(tracks, entries, safe);
            && |idx| == |r|
            && (forall j :: 0 <= j < |idx| ==> idx[j] < |tracks| && r[j] == tracks[idx[j]])
            && (forall j, j' :: 0 <= j < j' < |idx| ==> idx[j] < idx[j'])
            && (forall i :: 0 <= i < |tracks| ==> (i in idx <==> safe(tracks[i]) !in FilesInFolder(entries)))
    ensures multiset(Pending(tracks, entries, safe))[t] ==
            if safe(t) in FilesInFolder(entries) then 0 else multiset(tracks)[t]
  {
    var keep := (t: string) => safe(t) !in FilesInFolder(entries);
    PendingIsFilterOnStems(tracks, entries, safe);
    FilterSelects(tracks, keep);
    FilterMultiplicity(tracks, keep, t);
  }

  /** A track whose name has a '.' is never recognised as downloaded when
      the sanitiser keeps that name: its file's stem stops at the '.'. */
  lemma DottedNameNeverSkipped(tracks: seq<string>, entries: seq<Entry>, safe: string -> string, t: string)
    requires t in tracks && '.' in safe(t)
    ensures t in Pending(tracks, entries, safe)
  {
    PendingMembership(tracks, entries, safe, t);
    FilesInFolderMembership(entries, safe(t));
  }
}
