// The audio tracks of a prompt: indexing the files of a step, then padding or trimming the tracks to a common end.
module Endsync {
  import opened Options

  const TRACKS := 4
  const FRAME := 20000

  // A frame is its duration; a track that was never used has no list.
  type Track = Option<seq<nat>>

  function Frames(t: Track): seq<nat> {
    if t.Some? then t.value else []
  }

  function Sum(fs: seq<nat>): nat {
    if fs == [] then 0 else fs[0] + Sum(fs[1..])
  }

  // The frames of several files
  function Concat(files: seq<seq<nat>>): seq<nat> {
    if files == [] then [] else files[0] + Concat(files[1..])
  }

  function Silence(n: nat): seq<nat> {
    seq(n, _ => FRAME)
  }

  lemma {:induction false} SumSplit(a: seq<nat>, b: seq<nat>)
    ensures Sum(a + b) == Sum(a) + Sum(b)
  {
    if a == [] {
      assert a + b == b;
    } else {
      assert (a + b)[1..] == a[1..] + b;
      SumSplit(a[1..], b);
    }
  }

  lemma {:induction false} SumSilence(fs: seq<nat>)
    requires forall k | 0 <= k < |fs| :: fs[k] == FRAME
    ensures Sum(fs) == FRAME * |fs|
  {
    if fs != [] { SumSilence(fs[1..]); }
  }

  datatype Desk = Desk(lists: seq<Track>, durations: seq<nat>, longest: nat, shortest: nat)
  {
    predicate Valid() { |lists| == TRACKS && |durations| == TRACKS }
  }

  function Begin(lists: seq<Track>): Desk {
    Desk(lists, [0, 0, 0, 0], 0, 0)
  }

  function Max(a: nat, b: nat): nat { if a < b then b else a }

  // Zero stands for nothing yet.
  function Least(s: nat, d: nat): nat { if s == 0 || s > d then d else s }

  // A file is indexed: its frames go behind the others, and the bounds are brought up to date.
  function Index(d: Desk, i: nat, file: seq<nat>): (r: Desk)
    requires d.Valid() && i < TRACKS
    ensures r.Valid()
  {
    var total := d.durations[i] + Sum(file);
    Desk(d.lists[i := Some(Frames(d.lists[i]) + file)], d.durations[i := total],
         Max(d.longest, total), Least(d.shortest, total))
  }

  function IndexAll(d: Desk, i: nat, files: seq<seq<nat>>): (r: Desk)
    requires d.Valid() && i < TRACKS
    ensures r.Valid()
    decreases |files|
  {
    if files == [] then d else IndexAll(Index(d, i, files[0]), i, files[1..])
  }

  // The files of a step, track by track
  type Work = w: seq<seq<seq<nat>>> | |w| == TRACKS witness [[], [], [], []]

  function IndexFrom(d: Desk, work: Work, i: nat): (r: Desk)
    requires d.Valid() && i <= TRACKS
    ensures r.Valid()
    decreases TRACKS - i
  {
    if i == TRACKS then d else IndexFrom(IndexAll(d, i, work[i]), work, i + 1)
  }

  // Every file lasts for some time.
  ghost predicate Lasting(files: seq<seq<nat>>) {
    forall k | 0 <= k < |files| :: Sum(files[k]) > 0
  }

  ghost predicate AllLasting(work: Work) {
    forall i | 0 <= i < TRACKS :: Lasting(work[i])
  }

  function Total(files: seq<seq<nat>>): nat { Sum(Concat(files)) }

  lemma LeastStays(s: nat, d: nat, e: nat)
    requires 0 < d <= e
    ensures Least(Least(s, d), e) == Least(s, d)
  {
  }

  // A desk with frames added to a track, all at once
  function Bulk(d: Desk, i: nat, frames: seq<nat>, total: nat, first: nat): Desk
    requires d.Valid() && i < TRACKS
  {
    Desk(d.lists[i := Some(Frames(d.lists[i]) + frames)], d.durations[i := d.durations[i] + total],
         Max(d.longest, d.durations[i] + total), Least(d.shortest, d.durations[i] + first))
  }

  lemma BulkMore(d: Desk, i: nat, file: seq<nat>, frames: seq<nat>, total: nat, first: nat)
    requires d.Valid() && i < TRACKS && Sum(file) > 0 && first > 0
    ensures Bulk(Index(d, i, file), i, frames, total, first) == Bulk(d, i, file + frames, Sum(file) + total, Sum(file))
  {
    var d1, before := Index(d, i, file), Frames(d.lists[i]);
    assert before + file + frames == before + (file + frames);
    assert d1.lists[i := Some(before + file + frames)] == d.lists[i := Some(before + file + frames)];
    assert d1.durations[i := d1.durations[i] + total] == d.durations[i := d1.durations[i] + total];
    LeastStays(d.shortest, d.durations[i] + Sum(file), d.durations[i] + Sum(file) + first);
  }

  // Indexing a track. The shortest bound sees its first file only.
  lemma {:induction false} IndexAllIs(d: Desk, i: nat, files: seq<seq<nat>>)
    requires d.Valid() && i < TRACKS && Lasting(files)
    ensures IndexAll(d, i, files) == if files == [] then d else Bulk(d, i, Concat(files), Total(files), Sum(files[0]))
    decreases |files|
  {
    if files != [] {
      var file, more := files[0], files[1..];
      assert Sum(file) > 0;
      SumSplit(file, Concat(more));
      IndexAllIs(Index(d, i, file), i, more);
      if more == [] {
        assert Concat(files) == file;
      } else {
        assert Sum(more[0]) > 0;
        BulkMore(d, i, file, Concat(more), Total(more), Sum(more[0]));
      }
    }
  }

  // What is known once the first n tracks are indexed
  ghost predicate Measured(lists: seq<Track>, work: Work, n: nat, d: Desk)
    requires |lists| == TRACKS && n <= TRACKS
  {
    d.Valid() && Filled(lists, work, n, d) && LongestOf(work, n, d) && ShortestOf(work, n, d)
  }

  ghost predicate Filled(lists: seq<Track>, work: Work, n: nat, d: Desk)
    requires |lists| == TRACKS && n <= TRACKS && d.Valid()
  {
    && (forall i | 0 <= i < n :: d.durations[i] == Total(work[i])
          && d.lists[i] == if work[i] == [] then lists[i] else Some(Frames(lists[i]) + Concat(work[i])))
    && (forall i | n <= i < TRACKS :: d.durations[i] == 0 && d.lists[i] == lists[i])
  }

  ghost predicate LongestOf(work: Work, n: nat, d: Desk)
    requires n <= TRACKS
  {
    && (forall i | 0 <= i < n :: Total(work[i]) <= d.longest)
    && (d.longest == 0 || exists i :: 0 <= i < n && d.longest == Total(work[i]))
  }

  ghost predicate ShortestOf(work: Work, n: nat, d: Desk)
    requires n <= TRACKS
  {
    && (forall i | 0 <= i < n && work[i] != [] :: 0 < d.shortest <= Sum(work[i][0]))
    && (d.shortest == 0 || exists i :: 0 <= i < n && work[i] != [] && d.shortest == Sum(work[i][0]))
  }

  lemma LongestMore(work: Work, n: nat, d: Desk, r: Desk)
    requires n < TRACKS && LongestOf(work, n, d) && r.longest == Max(d.longest, Total(work[n]))
    ensures LongestOf(work, n + 1, r)
  {
  }

  lemma ShortestMore(work: Work, n: nat, d: Desk, r: Desk)
    requires n < TRACKS && Lasting(work[n]) && ShortestOf(work, n, d)
    requires r.shortest == if work[n] == [] then d.shortest else Least(d.shortest, Sum(work[n][0]))
    ensures ShortestOf(work, n + 1, r)
  {
    if work[n] != [] { assert Sum(work[n][0]) > 0; }
  }

  lemma MeasuredMore(lists: seq<Track>, work: Work, n: nat, d: Desk)
    requires |lists| == TRACKS && n < TRACKS && Lasting(work[n]) && Measured(lists, work, n, d)
    ensures Measured(lists, work, n + 1, IndexAll(d, n, work[n]))
  {
    IndexAllIs(d, n, work[n]);
    var r := IndexAll(d, n, work[n]);
    assert Filled(lists, work, n + 1, r);
    LongestMore(work, n, d, r);
    ShortestMore(work, n, d, r);
  }

  function Indexed(lists: seq<Track>, work: Work): (d: Desk)
    requires |lists| == TRACKS
    ensures d.Valid()
  {
    IndexFrom(Begin(lists), work, 0)
  }

  lemma IndexedMeasures(lists: seq<Track>, work: Work)
    requires |lists| == TRACKS && AllLasting(work)
    ensures Measured(lists, work, TRACKS, Indexed(lists, work))
  {
    var d0 := Begin(lists);
    var d1 := IndexAll(d0, 0, work[0]);
    var d2 := IndexAll(d1, 1, work[1]);
    var d3 := IndexAll(d2, 2, work[2]);
    MeasuredMore(lists, work, 0, d0);
    MeasuredMore(lists, work, 1, d1);
    MeasuredMore(lists, work, 2, d2);
    MeasuredMore(lists, work, 3, d3);
    assert IndexFrom(d2, work, 2) == IndexFrom(d3, work, 3) == IndexAll(d3, 3, work[3]);
  }

  // What the trimming takes for the shortest track is the shortest one if and only if some track has one
  // file only, and that is no longer than the first file of any other track.
  lemma ShortestIff(lists: seq<Track>, work: Work)
    requires |lists| == TRACKS && AllLasting(work)
    requires exists i :: 0 <= i < TRACKS && work[i] != []
    ensures var s := Indexed(lists, work).shortest;
            (exists i :: 0 <= i < TRACKS && work[i] != [] && Total(work[i]) == s)
            <==> exists i :: 0 <= i < TRACKS && |work[i]| == 1
                             && forall j | 0 <= j < TRACKS && work[j] != [] :: Sum(work[i][0]) <= Sum(work[j][0])
    ensures forall i | 0 <= i < TRACKS && work[i] != [] :: Indexed(lists, work).shortest <= Total(work[i])
  {
    IndexedMeasures(lists, work);
    ShortestAre(work, Indexed(lists, work).shortest);
  }

  lemma ShortestAre(work: Work, s: nat)
    requires AllLasting(work)
    requires forall i | 0 <= i < TRACKS && work[i] != [] :: s <= Sum(work[i][0])
    requires exists i :: 0 <= i < TRACKS && work[i] != [] && Sum(work[i][0]) == s
    ensures (exists i :: 0 <= i < TRACKS && work[i] != [] && Total(work[i]) == s)
            <==> exists i :: 0 <= i < TRACKS && |work[i]| == 1
                             && forall j | 0 <= j < TRACKS && work[j] != [] :: Sum(work[i][0]) <= Sum(work[j][0])
    ensures forall i | 0 <= i < TRACKS && work[i] != [] :: s <= Total(work[i])
  {
    forall i | 0 <= i < TRACKS && work[i] != []
      ensures s <= Total(work[i]) && (Total(work[i]) == s <==> |work[i]| == 1 && Sum(work[i][0]) == s)
    {
      TotalFirst(work[i]);
    }
    var k :| 0 <= k < TRACKS && work[k] != [] && Sum(work[k][0]) == s;
    forall i | 0 <= i < TRACKS && |work[i]| == 1
      ensures Sum(work[i][0]) == s
              <==> forall j | 0 <= j < TRACKS && work[j] != [] :: Sum(work[i][0]) <= Sum(work[j][0])
    {
    }
  }

  lemma TotalFirst(files: seq<seq<nat>>)
    requires files != [] && Lasting(files)
    ensures Total(files) >= Sum(files[0]) && (Total(files) == Sum(files[0]) <==> |files| == 1)
  {
    SumSplit(files[0], Concat(files[1..]));
    if |files| > 1 {
      assert Sum(files[1..][0]) > 0;
      SumSplit(files[1..][0], Concat(files[1..][1..]));
    }
  }

  lemma OneFile(f: seq<nat>)
    ensures Concat([f]) == f
  {
    assert [f][1..] == [] && f + [] == f;
  }

  lemma TwoFrames()
    ensures Sum([20000]) == 20000 && Sum([20000, 20000]) == 40000
  {
    assert [20000, 20000][1..] == [20000] && [20000][1..] == [];
  }

  // A track of two files is cut down to its first, though no other track is shorter.
  lemma OwnFirstFileCuts()
    ensures var lists, work := [None, None, None, None], [[[20000], [20000]], [], [], []];
            Indexed(lists, work).shortest == 20000 && Total(work[0]) == 40000
            && Synced(Indexed(lists, work), 0, true) == Some(Some([20000]))
  {
    var lists: seq<Track>, work: Work := [None, None, None, None], [[[20000], [20000]], [], [], []];
    var files: seq<seq<nat>> := [[20000], [20000]];
    OneFile([20000]);
    assert files[1..] == [[20000]] && Concat(files) == [20000] + [20000] == [20000, 20000];
    TwoFrames();
    IndexAllIs(Begin(lists), 0, files);
    var d := IndexAll(Begin(lists), 0, files);
    assert IndexFrom(d, work, 1) == IndexFrom(d, work, 2) == IndexFrom(d, work, 3) == IndexFrom(d, work, 4) == d;
    assert Frames(None) + [20000, 20000] == [20000, 20000];
    assert [20000, 20000][..1] == [20000];
  }

  // How many frames make up for a difference, to the nearest
  function Steps(diff: nat): nat { (diff + 10000) / FRAME }

  lemma StepsNear(diff: nat)
    ensures -10000 <= diff - FRAME * Steps(diff) < 10000
  {
  }

  lemma StepsAre(difference: nat, diff: nat, pad: nat)
    requires difference == diff + FRAME * pad
    ensures Steps(difference) == pad + if diff < 10000 then 0 else Steps(diff)
    ensures 10000 <= diff < FRAME ==> Steps(difference) == pad + 1
  {
  }

  // What becomes of one track, or None if it runs out of frames to drop
  function Synced(d: Desk, i: nat, first: bool): Option<Track>
    requires d.Valid() && i < TRACKS
  {
    var fs := Frames(d.lists[i]);
    if d.lists[i].None? then Some(None)
    else if first && d.durations[i] > d.shortest then
      var n := Steps(d.durations[i] - d.shortest);
      if n > |fs| then None else Some(Some(fs[..|fs| - n]))
    else if first && d.durations[i] == 0 then Some(Some(fs + Silence(Steps(d.shortest))))
    else if !first && d.durations[i] < d.longest then Some(Some(fs + Silence(Steps(d.longest - d.durations[i]))))
    else Some(Some(fs))
  }

  // Syncing leaves the front of a track alone: it drops frames at the end or adds silence there.
  lemma SyncedKeepsFront(d: Desk, i: nat, first: bool)
    requires d.Valid() && i < TRACKS && Synced(d, i, first).Some?
    ensures var before, after := Frames(d.lists[i]), Frames(Synced(d, i, first).value);
            || after <= before
            || (before <= after && forall k | |before| <= k < |after| :: after[k] == FRAME)
  {
  }

  // How much longer a track is than before the step
  function Gain(before: Track, after: Track): int {
    Sum(Frames(after)) - Sum(Frames(before))
  }

  lemma PadGain(fs: seq<nat>, n: nat)
    ensures Sum(fs + Silence(n)) == Sum(fs) + FRAME * n
  {
    SumSplit(fs, Silence(n));
    SumSilence(Silence(n));
  }

  ghost predicate Near(a: int, b: int) { -10000 <= a - b <= 10000 }

  lemma IndexedGain(lists: seq<Track>, work: Work, i: nat)
    requires |lists| == TRACKS && i < TRACKS && AllLasting(work)
    ensures var d := Indexed(lists, work);
            && d.durations[i] == Total(work[i]) <= d.longest
            && Gain(lists[i], d.lists[i]) == d.durations[i]
            && (d.lists[i].None? <==> lists[i].None? && work[i] == [])
  {
    IndexedMeasures(lists, work);
    SumSplit(Frames(lists[i]), Concat(work[i]));
  }

  // Padding: a track keeps pace with the longest if and only if it has a list, old or new, or the step
  // is shorter than half a frame.
  lemma KeepsPaceIff(lists: seq<Track>, work: Work, i: nat)
    requires |lists| == TRACKS && i < TRACKS && AllLasting(work)
    ensures var d := Indexed(lists, work);
            && Synced(d, i, false).Some?
            && (Near(Gain(lists[i], Synced(d, i, false).value), d.longest)
                <==> lists[i].Some? || work[i] != [] || d.longest <= 10000)
  {
    var d := Indexed(lists, work);
    IndexedGain(lists, work, i);
    if d.lists[i].Some? && d.durations[i] < d.longest {
      var diff := d.longest - d.durations[i];
      PadGain(Frames(d.lists[i]), Steps(diff));
      StepsNear(diff);
    }
  }

  // Two padded tracks end less than a frame apart.
  lemma PaddedTogether(lists: seq<Track>, work: Work, i: nat, j: nat)
    requires |lists| == TRACKS && i < TRACKS && j < TRACKS && AllLasting(work)
    requires lists[i].Some? || work[i] != []
    requires lists[j].Some? || work[j] != []
    ensures var d := Indexed(lists, work);
            -FRAME < Gain(lists[i], Synced(d, i, false).value) - Gain(lists[j], Synced(d, j, false).value) < FRAME
  {
    PaddedBound(lists, work, i);
    PaddedBound(lists, work, j);
  }

  lemma PaddedBound(lists: seq<Track>, work: Work, i: nat)
    requires |lists| == TRACKS && i < TRACKS && AllLasting(work)
    requires lists[i].Some? || work[i] != []
    ensures var d := Indexed(lists, work);
            -10000 <= d.longest - Gain(lists[i], Synced(d, i, false).value) < 10000
  {
    var d := Indexed(lists, work);
    IndexedGain(lists, work, i);
    if d.durations[i] < d.longest {
      var diff := d.longest - d.durations[i];
      PadGain(Frames(d.lists[i]), Steps(diff));
      StepsNear(diff);
    }
  }

  ghost predicate Regular(files: seq<seq<nat>>) {
    forall k, n | 0 <= k < |files| && 0 <= n < |files[k]| :: files[k][n] == FRAME
  }

  lemma {:induction false} RegularConcat(files: seq<seq<nat>>)
    requires Regular(files)
    ensures forall k | 0 <= k < |Concat(files)| :: Concat(files)[k] == FRAME
  {
    if files != [] {
      forall k, n | 0 <= k < |files[1..]| && 0 <= n < |files[1..][k]| ensures files[1..][k][n] == FRAME {
        assert files[1..][k] == files[k + 1];
      }
      RegularConcat(files[1..]);
      forall n | 0 <= n < |files[0]| ensures files[0][n] == FRAME {}
    }
  }

  // Dropping from the end of a step of regular frames never reaches the frames of earlier steps.
  lemma DropGain(before: seq<nat>, added: seq<nat>, shortest: nat)
    requires forall k | 0 <= k < |added| :: added[k] == FRAME
    requires Sum(added) > shortest
    ensures var n := Steps(Sum(added) - shortest);
            && n <= |added|
            && (shortest > 10000 ==> n < |added|)
            && Sum((before + added)[..|before + added| - n]) == Sum(before) + Sum(added) - FRAME * n
  {
    SumSilence(added);
    var n := Steps(Sum(added) - shortest);
    assert n <= |added|;
    assert (before + added)[..|before + added| - n] == before + added[..|added| - n];
    SumSplit(before, added[..|added| - n]);
    SumSilence(added[..|added| - n]);
  }

  lemma TrimmedLonger(before: Track, d: Desk, i: nat, added: seq<nat>)
    requires d.Valid() && i < TRACKS && d.lists[i] == Some(Frames(before) + added)
    requires forall k | 0 <= k < |added| :: added[k] == FRAME
    requires d.durations[i] == Sum(added) > d.shortest
    ensures Synced(d, i, true).Some?
    ensures -10000 <= d.shortest - Gain(before, Synced(d, i, true).value) <= 10000
  {
    var diff, fs := d.durations[i] - d.shortest, Frames(before) + added;
    DropGain(Frames(before), added, d.shortest);
    assert Synced(d, i, true) == Some(Some(fs[..|fs| - Steps(diff)]));
    StepsNear(diff);
  }

  lemma TrimmedUnused(before: Track, d: Desk, i: nat)
    requires d.Valid() && i < TRACKS && d.lists[i].Some? && Frames(d.lists[i]) == Frames(before) && d.durations[i] == 0
    ensures Synced(d, i, true).Some?
    ensures -10000 <= d.shortest - Gain(before, Synced(d, i, true).value) <= 10000
  {
    PadGain(Frames(before), Steps(d.shortest));
    StepsNear(d.shortest);
  }

  // Trimming, with regular frames: no track runs out, and every track with a list ends near the bound.
  lemma TrimmedBound(lists: seq<Track>, work: Work, i: nat)
    requires |lists| == TRACKS && i < TRACKS && AllLasting(work)
    requires Regular(work[i]) && (lists[i].Some? || work[i] != [])
    ensures var d := Indexed(lists, work);
            Synced(d, i, true).Some?
            && -10000 <= d.shortest - Gain(lists[i], Synced(d, i, true).value) <= 10000
  {
    var d := Indexed(lists, work);
    IndexedGain(lists, work, i);
    IndexedMeasures(lists, work);
    if work[i] == [] {
      TrimmedUnused(lists[i], d, i);
    } else {
      RegularConcat(work[i]);
      TotalFirst(work[i]);
      if d.durations[i] > d.shortest {
        TrimmedLonger(lists[i], d, i, Concat(work[i]));
      }
    }
  }

  // All tracks of a step under one way to end
  function SyncedAll(d: Desk, first: bool): Option<seq<Track>>
    requires d.Valid()
  {
    if forall i | 0 <= i < TRACKS :: Synced(d, i, first).Some?
    then Some(seq(TRACKS, i requires 0 <= i < TRACKS => Synced(d, i, first).value))
    else None
  }

  // How many frames a track is left to trim from, those of earlier steps included
  function Supply(lists: seq<Track>, work: Work, i: nat): nat
    requires |lists| == TRACKS && i < TRACKS
  {
    |Frames(lists[i])| + |Concat(work[i])|
  }

  // A track is so much longer than the first file of another, or of its own, that trimming it to that takes
  // more frames than there are.
  ghost predicate Outlasts(lists: seq<Track>, work: Work, i: nat, j: nat)
    requires |lists| == TRACKS && i < TRACKS && j < TRACKS
  {
    work[j] != [] && FRAME * (Supply(lists, work, i) + 1) <= Total(work[i]) - Sum(work[j][0]) + 10000
  }

  lemma TrackRunsOutIff(lists: seq<Track>, work: Work, i: nat)
    requires |lists| == TRACKS && i < TRACKS && AllLasting(work)
    ensures Synced(Indexed(lists, work), i, true).None? <==> exists j: nat :: j < TRACKS && Outlasts(lists, work, i, j)
  {
    var d := Indexed(lists, work);
    IndexedMeasures(lists, work);
    assert d.lists[i].Some? ==> |Frames(d.lists[i])| == Supply(lists, work, i);
    RunsShortIff(d, i);
    if j: nat :| j < TRACKS && Outlasts(lists, work, i, j) {
      assert 0 < d.shortest <= Sum(work[j][0]);
    }
    if d.shortest > 0 {
      var j :| 0 <= j < TRACKS && work[j] != [] && d.shortest == Sum(work[j][0]);
      assert Outlasts(lists, work, i, j)
             <==> FRAME * (Supply(lists, work, i) + 1) <= Total(work[i]) - d.shortest + 10000;
    }
  }

  lemma RunsShortIff(d: Desk, i: nat)
    requires d.Valid() && i < TRACKS
    ensures Synced(d, i, true).None? <==>
            d.lists[i].Some? && FRAME * (|Frames(d.lists[i])| + 1) <= d.durations[i] - d.shortest + 10000
  {
  }

  // The trimming of a step pops from an empty list if and only if some track outlasts some first file.
  lemma RunsOutIff(lists: seq<Track>, work: Work)
    requires |lists| == TRACKS && AllLasting(work)
    ensures SyncedAll(Indexed(lists, work), true).None?
       <==> exists i: nat, j: nat :: i < TRACKS && j < TRACKS && Outlasts(lists, work, i, j)
  {
    var d := Indexed(lists, work);
    forall i: nat | i < TRACKS
      ensures Synced(d, i, true).None? <==> exists j: nat :: j < TRACKS && Outlasts(lists, work, i, j)
    {
      TrackRunsOutIff(lists, work, i);
    }
    if SyncedAll(d, true).None? {
      var i: nat :| i < TRACKS && Synced(d, i, true).None?;
      var j: nat :| j < TRACKS && Outlasts(lists, work, i, j);
    }
    if i: nat, j: nat :| i < TRACKS && j < TRACKS && Outlasts(lists, work, i, j) {
      assert Synced(d, i, true).None?;
    }
  }

  // One track with two files of a single frame of 60 ms: three frames are popped, and there are two.
  lemma LongFramesRunOut()
    ensures var lists, work := [None, None, None, None], [[[60000], [60000]], [], [], []];
            AllLasting(work) && SyncedAll(Indexed(lists, work), true).None?
  {
    var lists: seq<Track>, work: Work := [None, None, None, None], [[[60000], [60000]], [], [], []];
    var files: seq<seq<nat>> := [[60000], [60000]];
    assert [60000][1..] == [] && [60000, 60000][1..] == [60000];
    assert Sum([60000]) == 60000 && Sum([60000, 60000]) == 120000;
    OneFile([60000]);
    assert files[1..] == [[60000]] && Concat(files) == [60000] + [60000] == [60000, 60000];
    assert work[0] == files;
    assert Outlasts(lists, work, 0, 0);
    RunsOutIff(lists, work);
  }

  // The tracks after a step that waits for the last one
  function Padded(lists: seq<Track>, work: Work): (r: seq<Track>)
    requires |lists| == TRACKS
    ensures |r| == TRACKS
  {
    var d := Indexed(lists, work);
    seq(TRACKS, i requires 0 <= i < TRACKS => Synced(d, i, false).value)
  }

  // A step of the prompt: its files, and whether it ends with its first or its last track
  datatype Step = Step(work: Work, first: bool)

  // The tracks after some steps, or None if one of them runs out of frames
  function RunSteps(lists: seq<Track>, steps: seq<Step>): (r: Option<seq<Track>>)
    requires |lists| == TRACKS
    ensures r.Some? ==> |r.value| == TRACKS
    decreases |steps|
  {
    if steps == [] then Some(lists)
    else
      match SyncedAll(Indexed(lists, steps[0].work), steps[0].first)
      case None => None
      case Some(next) => RunSteps(next, steps[1..])
  }

  // Trimming needs regular frames.
  ghost predicate Orderly(s: Step) {
    AllLasting(s.work) && (s.first ==> forall i | 0 <= i < TRACKS :: Regular(s.work[i]))
  }

  // No track runs out in one orderly step, and two that have a list gain the same to within a frame.
  lemma StepDrift(lists: seq<Track>, s: Step, i: nat, j: nat)
    requires |lists| == TRACKS && i < TRACKS && j < TRACKS && lists[i].Some? && lists[j].Some? && Orderly(s)
    ensures var next := SyncedAll(Indexed(lists, s.work), s.first);
            && next.Some? && next.value[i].Some? && next.value[j].Some?
            && -FRAME <= Gain(lists[i], next.value[i]) - Gain(lists[j], next.value[j]) <= FRAME
  {
    StepRuns(lists, s);
    StepTogether(lists, s, i, j);
  }

  lemma StepRuns(lists: seq<Track>, s: Step)
    requires |lists| == TRACKS && Orderly(s)
    ensures forall k | 0 <= k < TRACKS :: Synced(Indexed(lists, s.work), k, s.first).Some?
  {
    if s.first {
      forall k | 0 <= k < TRACKS ensures Synced(Indexed(lists, s.work), k, true).Some? {
        NeverRunsOut(lists, s.work, k);
      }
    }
  }

  lemma StepTogether(lists: seq<Track>, s: Step, i: nat, j: nat)
    requires |lists| == TRACKS && i < TRACKS && j < TRACKS && lists[i].Some? && lists[j].Some? && Orderly(s)
    ensures var d := Indexed(lists, s.work); var t, u := Synced(d, i, s.first), Synced(d, j, s.first);
            && t.Some? && t.value.Some? && u.Some? && u.value.Some?
            && -FRAME <= Gain(lists[i], t.value) - Gain(lists[j], u.value) <= FRAME
  {
    IndexedGain(lists, s.work, i);
    IndexedGain(lists, s.work, j);
    if s.first {
      TrimmedBound(lists, s.work, i);
      TrimmedBound(lists, s.work, j);
    } else {
      PaddedTogether(lists, s.work, i, j);
    }
  }

  lemma NeverRunsOut(lists: seq<Track>, work: Work, i: nat)
    requires |lists| == TRACKS && i < TRACKS && AllLasting(work) && Regular(work[i])
    ensures Synced(Indexed(lists, work), i, true).Some?
  {
    IndexedGain(lists, work, i);
    if lists[i].Some? || work[i] != [] { TrimmedBound(lists, work, i); }
  }

  // Over any run of steps, trimmed or padded, the ends of two tracks that both have a list drift apart by at
  // most a frame a step.
  lemma {:induction false} RunDrift(lists: seq<Track>, steps: seq<Step>, i: nat, j: nat)
    requires |lists| == TRACKS && i < TRACKS && j < TRACKS && lists[i].Some? && lists[j].Some?
    requires forall k | 0 <= k < |steps| :: Orderly(steps[k])
    ensures var after := RunSteps(lists, steps);
            after.Some? && after.value[i].Some? && after.value[j].Some?
            && var drift := Gain(lists[i], after.value[i]) - Gain(lists[j], after.value[j]);
            -FRAME * |steps| <= drift <= FRAME * |steps|
    decreases |steps|
  {
    if steps != [] {
      StepDrift(lists, steps[0], i, j);
      var next := SyncedAll(Indexed(lists, steps[0].work), steps[0].first).value;
      RunDrift(next, steps[1..], i, j);
    }
  }

  lemma PaddedStep(lists: seq<Track>, work: Work)
    requires |lists| == TRACKS
    ensures SyncedAll(Indexed(lists, work), false) == Some(Padded(lists, work))
  {
  }

  lemma OneTrackStep(f: seq<nat>)
    requires Sum(f) > 0
    ensures Padded([None, None, None, None], [[f], [], [], []]) == [Some(f), None, None, None]
  {
    var lists: seq<Track>, work: Work := [None, None, None, None], [[f], [], [], []];
    OneFile(f);
    IndexAllIs(Begin(lists), 0, [f]);
    var d := Indexed(lists, work);
    assert Frames(None) + f == f;
    assert d.lists == [Some(f), None, None, None] && d.durations == [Sum(f), 0, 0, 0] && d.longest == Sum(f);
  }

  lemma TwoTrackStep(f: seq<nat>, g: seq<nat>)
    requires Sum(g) > 0
    ensures Padded([Some(f), None, None, None], [[g], [g], [], []]) == [Some(f + g), Some(g), None, None]
  {
    var lists: seq<Track>, work: Work := [Some(f), None, None, None], [[g], [g], [], []];
    OneFile(g);
    IndexAllIs(Begin(lists), 0, [g]);
    IndexAllIs(IndexAll(Begin(lists), 0, [g]), 1, [g]);
    var d := Indexed(lists, work);
    assert Frames(None) + g == g;
    assert d.lists == [Some(f + g), Some(g), None, None] && d.durations == [Sum(g), Sum(g), 0, 0]
           && d.longest == Sum(g);
  }

  // A track that enters late is behind by everything that came before.
  lemma LateTrackStartsEarly()
    ensures var steps: seq<Step> := [Step([[[20000, 20000]], [], [], []], false),
                                     Step([[[20000]], [[20000]], [], []], false)];
            RunSteps([None, None, None, None], steps)
            == Some([Some([20000, 20000] + [20000]), Some([20000]), None, None])
  {
    TwoFrames();
    OneTrackStep([20000, 20000]);
    TwoTrackStep([20000, 20000], [20000]);
    var w0: Work, w1: Work := [[[20000, 20000]], [], [], []], [[[20000]], [[20000]], [], []];
    var l0: seq<Track> := [None, None, None, None];
    var l1, l2 := Padded(l0, w0), Padded([Some([20000, 20000]), None, None, None], w1);
    PaddedStep(l0, w0);
    PaddedStep(l1, w1);
    assert [Step(w0, false), Step(w1, false)][1..] == [Step(w1, false)] && [Step(w1, false)][1..] == [];
    assert RunSteps(l0, [Step(w0, false), Step(w1, false)]) == RunSteps(l1, [Step(w1, false)]) == RunSteps(l2, []);
  }

  // The dialog while it prepares its prompt
  class IvrDialog {
    const audioAnnouncements: array<Track>
    const audioDuration: array<nat>

    ghost predicate Valid() reads this {
      audioAnnouncements.Length == TRACKS && audioDuration.Length == TRACKS
    }

    constructor ()
      ensures Valid() && fresh(audioAnnouncements) && fresh(audioDuration)
      ensures audioAnnouncements[..] == [None, None, None, None]
    {
      audioAnnouncements := new Track[TRACKS](_ => None);
      audioDuration := new nat[TRACKS](_ => 0);
    }

    ghost function State(longest: nat, shortest: nat): Desk reads this, audioAnnouncements, audioDuration {
      Desk(audioAnnouncements[..], audioDuration[..], longest, shortest)
    }

    // Indexes one file, frame by frame.
    method IndexFile(i: nat, file: seq<nat>, audioDurations: nat, audioShortestDuration: nat)
      returns (longest: nat, shortest: nat)
      requires Valid() && i < TRACKS
      modifies audioAnnouncements, audioDuration
      ensures State(longest, shortest) == Index(old(State(audioDurations, audioShortestDuration)), i, file)
    {
      if audioAnnouncements[i].None? {
        audioAnnouncements[i] := Some([]);
      }
      ghost var frames, before := audioAnnouncements[i].value, audioDuration[i];
      assert frames + file[..0] == frames;
      for j := 0 to |file|
        invariant audioAnnouncements[i] == Some(frames + file[..j])
        invariant audioDuration[i] == before + Sum(file[..j])
        invariant forall k | 0 <= k < TRACKS && k != i ::
          audioAnnouncements[k] == old(audioAnnouncements[k]) && audioDuration[k] == old(audioDuration[k])
      {
        assert file[..j + 1] == file[..j] + [file[j]];
        assert frames + file[..j + 1] == frames + file[..j] + [file[j]];
        SumSplit(file[..j], [file[j]]);
        audioDuration[i] := audioDuration[i] + file[j];
        audioAnnouncements[i] := Some(audioAnnouncements[i].value + [file[j]]);
      }
      assert file[..|file|] == file;
      longest, shortest := audioDurations, audioShortestDuration;
      if longest < audioDuration[i] {
        longest := audioDuration[i];
      }
      if shortest == 0 || shortest > audioDuration[i] {
        shortest := audioDuration[i];
      }
      ghost var was := old(State(audioDurations, audioShortestDuration));
      assert audioAnnouncements[..] == was.lists[i := Some(Frames(was.lists[i]) + file)];
      assert audioDuration[..] == was.durations[i := was.durations[i] + Sum(file)];
    }

    // Indexes all files of a step.
    method IndexStep(work: Work) returns (longest: nat, shortest: nat)
      requires Valid()
      modifies audioAnnouncements, audioDuration
      ensures State(longest, shortest) == Indexed(old(audioAnnouncements[..]), work)
    {
      for i := 0 to TRACKS
        invariant audioAnnouncements[..] == old(audioAnnouncements[..])
        invariant forall j | 0 <= j < i :: audioDuration[j] == 0
      {
        audioDuration[i] := 0;
      }
      longest, shortest := 0, 0;
      assert State(longest, shortest) == Begin(old(audioAnnouncements[..]));
      for step := 0 to TRACKS
        invariant IndexFrom(State(longest, shortest), work, step) == Indexed(old(audioAnnouncements[..]), work)
      {
        ghost var all := IndexAll(State(longest, shortest), step, work[step]);
        var k := 0;
        while k < |work[step]|
          invariant k <= |work[step]|
          invariant IndexAll(State(longest, shortest), step, work[step][k..]) == all
        {
          assert work[step][k..][1..] == work[step][k + 1..];
          longest, shortest := IndexFile(step, work[step][k], longest, shortest);
          k := k + 1;
        }
      }
    }

    // Pushes silence to make up for a difference.
    method Pad(i: nat, difference: nat)
      requires Valid() && i < TRACKS && audioAnnouncements[i].Some?
      modifies audioAnnouncements
      ensures audioAnnouncements[..] == old(audioAnnouncements[..])[
        i := Some(old(audioAnnouncements[i]).value + Silence(Steps(difference)))]
    {
      var diff: nat, pad: nat := difference, 0;
      ghost var frames := audioAnnouncements[i].value;
      assert frames + Silence(0) == frames;
      while diff >= 10000
        invariant diff + FRAME * pad == difference
        invariant audioAnnouncements[..] == old(audioAnnouncements[..])[i := Some(frames + Silence(pad))]
        decreases diff
      {
        assert frames + Silence(pad + 1) == frames + Silence(pad) + [FRAME];
        pad := pad + 1;
        audioAnnouncements[i] := Some(audioAnnouncements[i].value + [FRAME]);
        if diff < FRAME {
          StepsAre(difference, diff, pad - 1);
          return;
        }
        diff := diff - FRAME;
      }
      StepsAre(difference, diff, pad);
    }

    // Pops frames to make up for a difference. Without a frame to pop, the track has run out.
    method Trim(i: nat, difference: nat) returns (ok: bool)
      requires Valid() && i < TRACKS && audioAnnouncements[i].Some?
      modifies audioAnnouncements
      ensures ok <==> Steps(difference) <= |old(audioAnnouncements[i]).value|
      ensures ok ==> var frames := old(audioAnnouncements[i]).value;
                     audioAnnouncements[..]
                       == old(audioAnnouncements[..])[i := Some(frames[..|frames| - Steps(difference)])]
    {
      var diff: nat, pad: nat := difference, 0;
      ghost var frames := audioAnnouncements[i].value;
      assert frames[..|frames|] == frames;
      while diff >= 10000
        invariant diff + FRAME * pad == difference && pad <= |frames|
        invariant audioAnnouncements[..] == old(audioAnnouncements[..])[i := Some(frames[..|frames| - pad])]
        decreases diff
      {
        pad := pad + 1;
        var list := audioAnnouncements[i].value;
        if list == [] {
          StepsAre(difference, diff, pad - 1);
          return false;
        }
        assert list[..|list| - 1] == frames[..|frames| - pad];
        audioAnnouncements[i] := Some(list[..|list| - 1]);
        if diff < FRAME {
          StepsAre(difference, diff, pad - 1);
          return true;
        }
        diff := diff - FRAME;
      }
      StepsAre(difference, diff, pad);
      return true;
    }

    // Brings one track to the common end.
    method SyncTrack(i: nat, first: bool, longest: nat, shortest: nat) returns (ok: bool)
      requires Valid() && i < TRACKS
      modifies audioAnnouncements
      ensures ok <==> Synced(old(State(longest, shortest)), i, first).Some?
      ensures ok ==>
                audioAnnouncements[..]
                == old(audioAnnouncements[..])[i := Synced(old(State(longest, shortest)), i, first).value]
    {
      ok := true;
      if audioAnnouncements[i].None? {
        return;
      }
      if first {
        if audioDuration[i] > shortest {
          ok := Trim(i, audioDuration[i] - shortest);
        } else if audioDuration[i] == 0 {
          Pad(i, shortest);
        }
      } else {
        if audioDuration[i] < longest {
          Pad(i, longest - audioDuration[i]);
        }
      }
    }

    // Brings all tracks to the common end.
    method SyncTracks(first: bool, longest: nat, shortest: nat) returns (ok: bool)
      requires Valid()
      modifies audioAnnouncements, audioDuration
      ensures var all := SyncedAll(old(State(longest, shortest)), first);
              (ok <==> all.Some?) && (ok ==> audioAnnouncements[..] == all.value)
    {
      ghost var d := State(longest, shortest);
      for i := 0 to TRACKS
        invariant forall j | 0 <= j < i :: Synced(d, j, first) == Some(audioAnnouncements[j])
        invariant forall j | i <= j < TRACKS ::
                    audioAnnouncements[j] == d.lists[j] && audioDuration[j] == d.durations[j]
      {
        SameTrack(State(longest, shortest), d, i, first);
        ok := SyncTrack(i, first, longest, shortest);
        if !ok {
          return;
        }
        audioDuration[i] := if first then shortest else longest;
      }
      ok := true;
      assert audioAnnouncements[..] == SyncedAll(d, first).value;
    }

    // Indexes a step and syncs its tracks.
    method PrepareStep(work: Work, first: bool) returns (ok: bool)
      requires Valid()
      modifies audioAnnouncements, audioDuration
      ensures var all := SyncedAll(Indexed(old(audioAnnouncements[..]), work), first);
              (ok <==> all.Some?) && (ok ==> audioAnnouncements[..] == all.value)
    {
      var longest, shortest := IndexStep(work);
      ok := SyncTracks(first, longest, shortest);
    }
  }

  // What becomes of a track depends on that track alone.
  lemma SameTrack(d: Desk, e: Desk, i: nat, first: bool)
    requires d.Valid() && e.Valid() && i < TRACKS
    requires d.lists[i] == e.lists[i] && d.durations[i] == e.durations[i]
    requires d.longest == e.longest && d.shortest == e.shortest
    ensures Synced(d, i, first) == Synced(e, i, first)
  {
  }
}
