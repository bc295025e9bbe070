/** `download_list_of_tracks`: try each search string in turn, retrying a
    failed download while the counter `i` is below 3. Whether the attempt
    made for track number `n` with counter value `i` succeeds is given by
    the oracle `succeeds(n, i)`. */
module Downloads {
  import opened Seqs

  /** One call of `search_and_download`: which track, its `track_number`,
      the counter `i` at the call, and whether it returned without raising. */
  datatype Attempt = Attempt(track: string, trackNumber: nat, counter: nat, succeeded: bool)

  /** `i = 1` before the first attempt of each track. */
  const FirstCounter: nat := 1
  /** `while i < 3 and not downloaded`. */
  const CounterLimit: nat := 3

  /** The attempts the inner loop makes for one track, from counter `i` on. */
  function Tries(track: string, n: nat, i: nat, succeeds: (nat, nat) -> bool): seq<Attempt>
    decreases CounterLimit - i
  {
    if i >= CounterLimit then []
    else if succeeds(n, i) then [Attempt(track, n, i, true)]
    else [Attempt(track, n, i, false)] + Tries(track, n, i + 1, succeeds)
  }

  /** The attempts of the whole outer loop: each track's tries, in list order,
      the k-th track (from 0) having track number k + 1. */
  function Schedule(tracks: seq<string>, succeeds: (nat, nat) -> bool): seq<Attempt>
  {
    if tracks == [] then []
    else Schedule(tracks[..|tracks| - 1], succeeds) + Tries(tracks[|tracks| - 1], |tracks|, FirstCounter, succeeds)
  }

  /** From counter `i` the inner loop makes the attempts `i`, `i + 1`, ...,
      each with the oracle's outcome, every one but the last failing, and
      the last either succeeding or made with counter 2. */
  lemma {:induction false} TriesFrom(track: string, n: nat, i: nat, succeeds: (nat, nat) -> bool)
    requires 1 <= i < CounterLimit
    ensures 1 <= |Tries(track, n, i, succeeds)| <= CounterLimit - i
    ensures forall j :: 0 <= j < |Tries(track, n, i, succeeds)| ==>
              Tries(track, n, i, succeeds)[j] == Attempt(track, n, i + j, succeeds(n, i + j))
    ensures forall j :: 0 <= j < |Tries(track, n, i, succeeds)| - 1 ==> !Tries(track, n, i, succeeds)[j].succeeded
    ensures var t := Tries(track, n, i, succeeds);
            t[|t| - 1].succeeded || t[|t| - 1].counter == CounterLimit - 1
    decreases CounterLimit - i
  {
    if !succeeds(n, i) && i + 1 < CounterLimit {
      TriesFrom(track, n, i + 1, succeeds);
    }
  }

  /** Each track is attempted at least once and at most twice; the attempts
      are numbered 1 and 2 and report the oracle's outcomes; they stop right
      after the first success. So a track that always fails gets exactly 2
      attempts, not 3. */
  lemma TriesPerTrack(track: string, n: nat, succeeds: (nat, nat) -> bool)
    ensures var t := Tries(track, n, FirstCounter, succeeds);
            && 1 <= |t| <= 2
            && (forall j :: 0 <= j < |t| ==> t[j] == Attempt(track, n, j + 1, succeeds(n, j + 1)))
            && (forall j :: 0 <= j < |t| - 1 ==> !t[j].succeeded)
            && (|t| == 1 <==> succeeds(n, 1))
    ensures (forall i :: !succeeds(n, i)) ==> |Tries(track, n, FirstCounter, succeeds)| == 2
  {
    TriesFrom(track, n, FirstCounter, succeeds);
  }

  /** A track ends up downloaded exactly when attempt 1 or attempt 2 succeeds;
      what a third attempt would have done never matters. */
  lemma TrackDownloadedIff(track: string, n: nat, succeeds: (nat, nat) -> bool)
    ensures (exists a :: a in Tries(track, n, FirstCounter, succeeds) && a.succeeded) <==>
            succeeds(n, 1) || succeeds(n, 2)
  {
    TriesFrom(track, n, FirstCounter, succeeds);
    var t := Tries(track, n, FirstCounter, succeeds);
    if succeeds(n, 1) {
      assert t[0] in t;
    } else if succeeds(n, 2) {
      assert t[1] in t;
    }
  }

  /** Every attempt in a track's tries carries that track and its number. */
  lemma {:induction false} TriesAreForTrack(track: string, n: nat, i: nat, succeeds: (nat, nat) -> bool)
    ensures forall a :: a in Tries(track, n, i, succeeds) ==> a.track == track && a.trackNumber == n
    decreases CounterLimit - i
  {
    if i < CounterLimit && !succeeds(n, i) {
      TriesAreForTrack(track, n, i + 1, succeeds);
    }
  }

  /** The test "this attempt has track number n". */
  function IsFor(n: nat): Attempt -> bool
  {
    (a: Attempt) => a.trackNumber == n
  }

  /** Selecting by track number keeps all of a track's tries or none of them. */
  lemma TriesSelected(track: string, n: nat, m: nat, succeeds: (nat, nat) -> bool)
    ensures Filter(Tries(track, n, FirstCounter, succeeds), IsFor(m)) ==
            if m == n then Tries(track, n, FirstCounter, succeeds) else []
  {
    TriesAreForTrack(track, n, FirstCounter, succeeds);
    FilterAllOrNone(Tries(track, n, FirstCounter, succeeds), IsFor(m));
  }

  /** No attempt of the earlier tracks carries a later track's number. */
  lemma EarlierNotSelected(tracks: seq<string>, succeeds: (nat, nat) -> bool)
    ensures Filter(Schedule(tracks, succeeds), IsFor(|tracks| + 1)) == []
  {
    var log := Schedule(tracks, succeeds);
    ScheduleNumbers(tracks, succeeds);
    forall a | a in log ensures !IsFor(|tracks| + 1)(a) {
      var j :| 0 <= j < |log| && log[j] == a;
    }
    FilterAllOrNone(log, IsFor(|tracks| + 1));
  }

  /** The attempts for the k-th track are exactly its own tries: tracks
      before it, failed or not, neither remove nor add any. */
  lemma {:induction false} ScheduleOfTrack(tracks: seq<string>, succeeds: (nat, nat) -> bool, k: nat)
    requires k < |tracks|
    ensures Filter(Schedule(tracks, succeeds), IsFor(k + 1)) == Tries(tracks[k], k + 1, FirstCounter, succeeds)
  {
    var n := |tracks|;
    var init := tracks[..n - 1];
    var earlier := Schedule(init, succeeds);
    var last := Tries(tracks[n - 1], n, FirstCounter, succeeds);
    assert Schedule(tracks, succeeds) == earlier + last;
    FilterAppend(earlier, last, IsFor(k + 1));
    TriesSelected(tracks[n - 1], n, k + 1, succeeds);
    if k < n - 1 {
      ScheduleOfTrack(init, succeeds, k);
      assert init[k] == tracks[k];
    } else {
      EarlierNotSelected(init, succeeds);
    }
  }

  /** Each attempt in `log` is for the track at its number, a number in 1..|tracks|. */
  predicate NumberedBy(log: seq<Attempt>, tracks: seq<string>)
  {
    forall j :: 0 <= j < |log| ==>
      1 <= log[j].trackNumber <= |tracks| && log[j].track == tracks[log[j].trackNumber - 1]
  }

  /** Track numbers never decrease along `log`. */
  predicate InTrackOrder(log: seq<Attempt>)
  {
    forall j, j' :: 0 <= j < j' < |log| ==> log[j].trackNumber <= log[j'].trackNumber
  }

  /** Attempts come in list order: track numbers never decrease along the
      log, each lies in 1..|tracks|, and each attempt is for the track at
      that number. */
  lemma {:induction false} ScheduleNumbers(tracks: seq<string>, succeeds: (nat, nat) -> bool)
    ensures NumberedBy(Schedule(tracks, succeeds), tracks)
    ensures InTrackOrder(Schedule(tracks, succeeds))
  {
    if tracks != [] {
      var n := |tracks|;
      var init := tracks[..n - 1];
      var earlier := Schedule(init, succeeds);
      var last := Tries(tracks[n - 1], n, FirstCounter, succeeds);
      var log := earlier + last;
      assert Schedule(tracks, succeeds) == log;
      ScheduleNumbers(init, succeeds);
      TriesAreForTrack(tracks[n - 1], n, FirstCounter, succeeds);
      forall j | 0 <= j < |log|
        ensures 1 <= log[j].trackNumber <= n && log[j].track == tracks[log[j].trackNumber - 1]
      {
        if j < |earlier| {
          assert log[j] == earlier[j];
          assert init[earlier[j].trackNumber - 1] == tracks[earlier[j].trackNumber - 1];
        } else {
          assert log[j] == last[j - |earlier|];
          assert last[j - |earlier|] in last;
        }
      }
      forall j, j' | 0 <= j < j' < |log| ensures log[j].trackNumber <= log[j'].trackNumber {
        if j' < |earlier| {
          assert log[j] == earlier[j] && log[j'] == earlier[j'];
        } else if j < |earlier| {
          assert log[j] == earlier[j];
          assert log[j'] == last[j' - |earlier|];
          assert last[j' - |earlier|] in last;
        } else {
          assert log[j] == last[j - |earlier|] && log[j'] == last[j' - |earlier|];
          assert last[j - |earlier|] in last;
          assert last[j' - |earlier|] in last;
        }
      }
    }
  }

  /** Between one and two attempts per track, whatever the oracle says. */
  lemma {:induction false} ScheduleLength(tracks: seq<string>, succeeds: (nat, nat) -> bool)
    ensures |tracks| <= |Schedule(tracks, succeeds)| <= 2 * |tracks|
  {
    if tracks != [] {
      ScheduleLength(tracks[..|tracks| - 1], succeeds);
      TriesFrom(tracks[|tracks| - 1], |tracks|, FirstCounter, succeeds);
    }
  }

  /** The nested loops of `download_list_of_tracks`. `log` records every
      attempt in the order it is made; `trackNumber` is the counter's final value. */
  method DownloadListOfTracks(tracks: seq<string>, succeeds: (nat, nat) -> bool)
    returns (log: seq<Attempt>, trackNumber: nat)
    ensures log == Schedule(tracks, succeeds)
    ensures trackNumber == |tracks| + 1
  {
    trackNumber := 1;
    log := [];
    for k := 0 to |tracks|
      invariant trackNumber == k + 1
      invariant log == Schedule(tracks[..k], succeeds)
    {
      var track := tracks[k];
      var i := FirstCounter;
      var downloaded := false;
      ghost var before := log;
      while i < CounterLimit && !downloaded
        invariant FirstCounter <= i <= CounterLimit
        invariant downloaded ==> log == before + Tries(track, trackNumber, FirstCounter, succeeds)
        invariant !downloaded ==>
                    log + Tries(track, trackNumber, i, succeeds) == before + Tries(track, trackNumber, FirstCounter, succeeds)
      {
        var ok := succeeds(trackNumber, i);
        if ok {
          downloaded := true;
        }
        log := log + [Attempt(track, trackNumber, i, ok)];
        i := i + 1;
      }
      assert tracks[..k + 1][..k] == tracks[..k];
      trackNumber := trackNumber + 1;
    }
    assert tracks[..|tracks|] == tracks;
  }
}
