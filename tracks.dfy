/** A music track and the pure functions the queue is specified with: loading
    a track, restarting it, the play sequence built from the tracks that have
    not ended, and the searches by path and by base name. */
module Tracks {
  import Paths
  import opened Options

  /** The sample rate the speaker is initialised with; every playable view
      is resampled to it. */
  const TargetRate: nat := 44100

  /** An abstract resampler: linear interpolation from one rate to another. */
  datatype Resampling = Resampling(from: nat, to: nat)

  /** A loaded track. The decoder handle is abstracted to its sample rate,
      its read position and its length; `view` is the resampled streamer
      that the composite stream plays. */
  datatype Track = Track(
    path: string,
    sampleRate: nat,
    position: nat,
    length: nat,
    view: Resampling,
    ended: bool)

  /** The view the player needs: from the decoder's rate to the speaker's. */
  function ToTarget(sampleRate: nat): Resampling {
    Resampling(sampleRate, TargetRate)
  }

  /** A decoder position never passes its length, and the view converts the
      track's own rate to the speaker's rate. */
  predicate WellFormed(t: Track) {
    t.position <= t.length && t.view == ToTarget(t.sampleRate)
  }

  /** The track has been read to the end by the speaker. */
  predicate AtEnd(t: Track) {
    t.position == t.length
  }

  // ---------------------------------------------------------------- loading

  datatype LoadError = FormatUnsupported | FileIsNotTrack | IoFailure

  /** What opening, inspecting and decoding the file yields; the file system
      and the decoder are not modelled beyond this outcome. */
  datatype FileProbe =
    | OpenFailed
    | StatFailed
    | Directory
    | DecodeFailed
    | Decoded(sampleRate: nat, length: nat)

  datatype LoadResult = Loaded(track: Track) | Failed(error: LoadError)

  /** Loads a track: the extension gate comes first, then the file checks. */
  function LoadTrack(path: string, probe: FileProbe): (r: LoadResult)
    ensures r == Failed(FormatUnsupported) <==> !Paths.IsSupported(path)
    ensures r == Failed(FileIsNotTrack) <==> Paths.IsSupported(path) && probe == Directory
    ensures r.Loaded? <==> Paths.IsSupported(path) && probe.Decoded?
    ensures r.Loaded? ==>
      WellFormed(r.track) && r.track.path == path && !r.track.ended &&
      r.track.position == 0 && r.track.sampleRate == probe.sampleRate &&
      r.track.length == probe.length
  {
    if !Paths.IsSupported(path) then Failed(FormatUnsupported)
    else match probe
      case OpenFailed => Failed(IoFailure)
      case StatFailed => Failed(IoFailure)
      case Directory => Failed(FileIsNotTrack)
      case DecodeFailed => Failed(IoFailure)
      case Decoded(rate, len) => Loaded(Track(path, rate, 0, len, ToTarget(rate), false))
  }

  // ------------------------------------------------------------- restarting

  /** The track after a restart: seeked to the start and no longer ended; a
      track that had been read to the end gets a new view, because the old
      resampler's state is not valid after the seek. */
  function Restarted(t: Track): (r: Track)
    ensures WellFormed(t) ==> WellFormed(r)
    ensures !r.ended && r.position == 0
    ensures r.path == t.path && r.sampleRate == t.sampleRate && r.length == t.length
    ensures !AtEnd(t) ==> r.view == t.view
  {
    var view := if AtEnd(t) then ToTarget(t.sampleRate) else t.view;
    t.(ended := false, position := 0, view := view)
  }

  /** The restart as the source writes it: the new view converts from the
      speaker's rate to the track's rate, the opposite of the view built
      when the track was loaded. */
  function RestartedAsWritten(t: Track): (r: Track)
    ensures !r.ended && r.position == 0 && r.path == t.path
    ensures AtEnd(t) ==> r.view.from == TargetRate && r.view.to == t.sampleRate
  {
    var view := if AtEnd(t) then Resampling(TargetRate, t.sampleRate) else t.view;
    t.(ended := false, position := 0, view := view)
  }

  /** A finished 48 kHz track restarted as written is no longer resampled to
      the speaker's rate, so it would play at the wrong speed. */
  lemma {:induction false} RestartAsWrittenBreaksView()
    ensures exists t :: WellFormed(t) && AtEnd(t) && !WellFormed(RestartedAsWritten(t))
  {
    var t := Track("song.mp3", 48000, 100, 100, ToTarget(48000), true);
    assert RestartedAsWritten(t).view == Resampling(TargetRate, 48000);
    assert WellFormed(t) && AtEnd(t) && !WellFormed(RestartedAsWritten(t));
  }

  /** Every track of a queue is well formed. */
  predicate AllWellFormed(q: seq<Track>) {
    forall i :: 0 <= i < |q| ==> WellFormed(q[i])
  }

  // ------------------------------------------------------ the play sequence

  /** The paths of the tracks that have not ended, in queue order: what the
      composite stream plays. */
  function Playable(q: seq<Track>): (r: seq<string>)
    ensures |r| <= |q|
  {
    if q == [] then []
    else Playable(q[..|q| - 1]) + (if q[|q| - 1].ended then [] else [q[|q| - 1].path])
  }

  function PathsOf(q: seq<Track>): (r: seq<string>)
    ensures |r| == |q|
    ensures forall i :: 0 <= i < |q| ==> r[i] == q[i].path
  {
    if q == [] then [] else PathsOf(q[..|q| - 1]) + [q[|q| - 1].path]
  }

  /** The play sequence of a concatenation is the concatenation of the play
      sequences. */
  lemma {:induction false} PlayableAppend(a: seq<Track>, b: seq<Track>)
    ensures Playable(a + b) == Playable(a) + Playable(b)
    decreases |b|
  {
    if b != [] {
      var n := |b| - 1;
      assert (a + b)[..|a + b| - 1] == a + b[..n];
      PlayableAppend(a, b[..n]);
    } else {
      assert a + b == a;
    }
  }

  /** The play sequence seen around one position: the tracks before it, the
      track itself when it has not ended, the tracks after it. */
  lemma {:induction false} PlayableSplit(q: seq<Track>, i: nat)
    requires i < |q|
    ensures Playable(q) ==
      Playable(q[..i]) + (if q[i].ended then [] else [q[i].path]) + Playable(q[i + 1..])
  {
    var left, right := q[..i] + [q[i]], q[i + 1..];
    assert q == left + right;
    PlayableAppend(left, right);
    PlayableAppend(q[..i], [q[i]]);
    PlayableSingle(q[i]);
  }

  lemma {:induction false} PlayableSingle(t: Track)
    ensures Playable([t]) == if t.ended then [] else [t.path]
  {
  }

  /** A path is in the play sequence exactly when a track with that path has
      not ended. */
  lemma {:induction false} PlayableMember(q: seq<Track>, p: string)
    ensures p in Playable(q) <==> exists i :: 0 <= i < |q| && q[i].path == p && !q[i].ended
  {
    if q != [] {
      var n := |q| - 1;
      PlayableMember(q[..n], p);
      if p in Playable(q) && p !in Playable(q[..n]) {
        assert q[n].path == p && !q[n].ended;
      }
      if exists i :: 0 <= i < |q| && q[i].path == p && !q[i].ended {
        var i :| 0 <= i < |q| && q[i].path == p && !q[i].ended;
        if i < n {
          assert q[..n][i] == q[i];
        }
      }
    }
  }

  /** When no track has ended the play sequence holds every track. */
  lemma {:induction false} PlayableAllFresh(q: seq<Track>)
    requires forall i :: 0 <= i < |q| ==> !q[i].ended
    ensures Playable(q) == PathsOf(q)
  {
    if q != [] {
      PlayableAllFresh(q[..|q| - 1]);
    }
  }

  /** After every track is restarted the play sequence holds the whole
      queue. */
  lemma {:induction false} RestartedQueuePlaysAll(q: seq<Track>, r: seq<Track>)
    requires |r| == |q| && forall i :: 0 <= i < |q| ==> r[i] == Restarted(q[i])
    ensures Playable(r) == PathsOf(q)
  {
    PlayableAllFresh(r);
    assert PathsOf(r) == PathsOf(q);
  }

  /** Marking a track ended removes it, and only it, from the play sequence. */
  lemma {:induction false} MarkEndedDropsTrack(q: seq<Track>, i: nat)
    requires i < |q| && !q[i].ended
    ensures var q' := q[i := q[i].(ended := true)];
      Playable(q') == Playable(q[..i]) + Playable(q[i + 1..]) &&
      Playable(q) == Playable(q[..i]) + [q[i].path] + Playable(q[i + 1..])
  {
    var q' := q[i := q[i].(ended := true)];
    PlayableSplit(q, i);
    PlayableSplit(q', i);
    assert q'[..i] == q[..i] && q'[i + 1..] == q[i + 1..];
  }

  // -------------------------------------------------------------- searches

  /** Some track of `q` has exactly this path. */
  function HasPath(q: seq<Track>, path: string): (r: bool)
    ensures r <==> exists i :: 0 <= i < |q| && q[i].path == path
  {
    if q == [] then false
    else q[|q| - 1].path == path || HasPath(q[..|q| - 1], path)
  }

  /** No two tracks share a path. */
  predicate DistinctPaths(q: seq<Track>) {
    forall i, j :: 0 <= i < j < |q| ==> q[i].path != q[j].path
  }

  /** After appending a track its path is present, and appending a track
      whose path was absent keeps the paths distinct. */
  lemma {:induction false} AppendKeepsDistinct(q: seq<Track>, t: Track)
    ensures HasPath(q + [t], t.path)
    ensures DistinctPaths(q) && !HasPath(q, t.path) ==> DistinctPaths(q + [t])
  {
  }

  /** The index of the first track whose base name is `name`. */
  function FirstWithBase(q: seq<Track>, name: string): (r: Option<nat>)
    ensures r.None? <==> forall i :: 0 <= i < |q| ==> Paths.Base(q[i].path) != name
    ensures r.Some? ==>
      r.value < |q| && Paths.Base(q[r.value].path) == name &&
      forall j :: 0 <= j < r.value ==> Paths.Base(q[j].path) != name
  {
    if q == [] then None
    else if Paths.Base(q[0].path) == name then Some(0)
    else match FirstWithBase(q[1..], name)
      case None => None
      case Some(k) => Some(k + 1)
  }

  /** Deleting one track keeps the other tracks well formed and their
      paths distinct. */
  lemma {:induction false} DeleteKeepsInvariants(q: seq<Track>, k: nat)
    requires k < |q|
    ensures AllWellFormed(q) ==> AllWellFormed(q[..k] + q[k + 1..])
    ensures DistinctPaths(q) ==> DistinctPaths(q[..k] + q[k + 1..])
  {
  }
}
