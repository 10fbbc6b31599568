/** The playback queue: the ordered tracks, the index of the current one,
    the volume deviation with its mute flag, the pause flag, the composite
    stream installed in the speaker, and logs of the speaker calls and of the
    decoder handles closed. */
module Playback {
  import opened Options
  import opened Tracks
  import Volume
  import Paths

  /** What the speaker plays: nothing, or the concatenation of the listed
      tracks, each followed by the end-of-track notification. */
  datatype Stream = NoStream | Composite(paths: seq<string>)

  /** Calls made on the speaker outside its lock. */
  datatype SpeakerCall = SpeakerClear | SpeakerPlay

  /** The speaker calls made by restarting, in order, the tracks of `q`: a
      track read to its end is replayed (clear, then play). */
  function RestartCalls(q: seq<Track>): (r: seq<SpeakerCall>)
    ensures |r| <= 2 * |q|
  {
    if q == [] then []
    else
      var n := |q| - 1;
      RestartCalls(q[..n]) + (if AtEnd(q[n]) then [SpeakerClear, SpeakerPlay] else [])
  }

  lemma {:induction false} RestartCallsStep(q: seq<Track>, i: nat)
    requires i < |q|
    ensures RestartCalls(q[..i + 1]) ==
      RestartCalls(q[..i]) + (if AtEnd(q[i]) then [SpeakerClear, SpeakerPlay] else [])
  {
    assert q[..i + 1][..i] == q[..i];
  }

  /** Restarting a queue in which no track was read to its end makes no
      speaker call, and one that holds such a track replays it. */
  lemma {:induction false} RestartCallsEmpty(q: seq<Track>)
    ensures RestartCalls(q) == [] <==> forall i :: 0 <= i < |q| ==> !AtEnd(q[i])
  {
    if q != [] {
      var n := |q| - 1;
      RestartCallsEmpty(q[..n]);
      assert forall i :: 0 <= i < n ==> q[..n][i] == q[i];
    }
  }

  class TracksQueue {
    var queue: seq<Track>
    var currentTrack: int
    var volumeChange: int
    var silent: bool
    var paused: bool
    var stream: Stream
    var calls: seq<SpeakerCall>
    var closed: seq<string>

    /** The current index is 0 on an empty queue and on a track otherwise;
        the volume never goes below mute, and mute is flagged. */
    ghost predicate Valid()
      reads this
    {
      (|queue| == 0 ==> currentTrack == 0) &&
      (|queue| > 0 ==> 0 <= currentTrack < |queue|) &&
      volumeChange >= Volume.Mute &&
      silent == (volumeChange == Volume.Mute) &&
      AllWellFormed(queue)
    }

    constructor ()
      ensures Valid()
      ensures queue == [] && currentTrack == 0 && volumeChange == 0
      ensures !silent && !paused && stream == NoStream && calls == [] && closed == []
    {
      queue := [];
      currentTrack := 0;
      volumeChange := 0;
      silent := false;
      paused := false;
      stream := NoStream;
      calls := [];
      closed := [];
    }

    /** Whether some track has this path; callers use it to keep paths
        distinct. */
    function HasTrack(path: string): (r: bool)
      reads this
      ensures r <==> exists i :: 0 <= i < |queue| && queue[i].path == path
    {
      HasPath(queue, path)
    }

    /** The current track, or nothing on an empty queue. */
    function CurrentTrack(): (r: Option<Track>)
      reads this
      requires Valid()
      ensures r.None? <==> |queue| == 0
      ensures r.Some? ==> r.value in queue && r.value == queue[currentTrack]
    {
      if |queue| == 0 then None else Some(queue[currentTrack])
    }

    /** Appends a track and reinstalls the stream. Duplicates are not
        rejected here: the caller checks HasTrack first (see AppendKeepsDistinct). */
    method AddTrack(t: Track)
      requires Valid() && WellFormed(t)
      modifies this`queue, this`stream
      ensures Valid()
      ensures queue == old(queue) + [t]
      ensures stream == Composite(Playable(old(queue)) + (if t.ended then [] else [t.path]))
    {
      queue := queue + [t];
      assert queue[..|queue| - 1] == old(queue);
      assert queue[|queue| - 1] == t;
      RebuildStreamer();
    }

    /** Installs the stream built from the tracks that have not ended. */
    method RebuildStreamer()
      modifies this`stream
      ensures stream == Composite(Playable(queue))
    {
      var streamers: seq<string> := [];
      var i := 0;
      while i < |queue|
        invariant 0 <= i <= |queue|
        invariant streamers == Playable(queue[..i])
      {
        assert queue[..i + 1][..i] == queue[..i];
        if !queue[i].ended {
          streamers := streamers + [queue[i].path];
        }
        i := i + 1;
      }
      assert queue[..i] == queue;
      stream := Composite(streamers);
    }

    /** Marks the current track ended and, unless it is the last one, moves
        to the next track and plays from there. */
    method NextTrack()
      requires Valid()
      modifies this`queue, this`currentTrack, this`stream, this`calls
      ensures Valid()
      ensures |queue| == |old(queue)|
      ensures |queue| != 0 ==> queue == old(queue)[old(currentTrack) := old(queue)[old(currentTrack)].(ended := true)]
      ensures |queue| == 0 ==> queue == old(queue)
      ensures old(currentTrack) + 1 >= |queue| ==>
        currentTrack == old(currentTrack) && stream == old(stream) && calls == old(calls)
      ensures old(currentTrack) + 1 < |queue| ==>
        currentTrack == old(currentTrack) + 1 && stream == Composite(Playable(queue)) &&
        calls == old(calls) + [SpeakerClear, SpeakerClear, SpeakerPlay]
    {
      if |queue| != 0 {
        queue := queue[currentTrack := queue[currentTrack].(ended := true)];
      }
      if currentTrack + 1 >= |queue| {
        return;
      }
      currentTrack := currentTrack + 1;
      RebuildStreamer();
      calls := calls + [SpeakerClear];
      Play();
    }

    /** Moves back one track, makes it playable again and plays from there;
        the track being left keeps its flag. */
    method PrevTrack()
      requires Valid()
      modifies this`queue, this`currentTrack, this`stream, this`calls
      ensures Valid()
      ensures old(currentTrack) == 0 ==>
        queue == old(queue) && currentTrack == 0 && stream == old(stream) && calls == old(calls)
      ensures old(currentTrack) > 0 ==>
        currentTrack == old(currentTrack) - 1 &&
        queue == old(queue)[currentTrack := old(queue)[currentTrack].(ended := false)] &&
        stream == Composite(Playable(queue)) &&
        calls == old(calls) + [SpeakerClear, SpeakerClear, SpeakerPlay]
    {
      if currentTrack - 1 < 0 {
        return;
      }
      currentTrack := currentTrack - 1;
      queue := queue[currentTrack := queue[currentTrack].(ended := false)];
      RebuildStreamer();
      calls := calls + [SpeakerClear];
      Play();
    }

    /** Restarts the current track, if there is one. */
    method RestartCurrentTrack()
      requires Valid()
      modifies this`queue, this`stream, this`calls
      ensures Valid()
      ensures old(|queue|) == 0 ==>
        queue == old(queue) && stream == old(stream) && calls == old(calls)
      ensures old(|queue|) != 0 ==>
        queue == old(queue[currentTrack := Restarted(queue[currentTrack])])
      ensures old(|queue| != 0 && AtEnd(queue[currentTrack])) ==>
        stream == Composite(Playable(queue)) && calls == old(calls) + [SpeakerClear, SpeakerPlay]
      ensures old(|queue| != 0 && !AtEnd(queue[currentTrack])) ==>
        stream == old(stream) && calls == old(calls)
    {
      if |queue| == 0 {
        return;
      }
      RestartTrack(currentTrack);
    }

    /** Seeks a track back to its start and clears its ended flag; only a
        track that had been read to its end is resampled anew, put back in
        the stream and played. */
    method RestartTrack(index: nat)
      requires Valid() && index < |queue|
      modifies this`queue, this`stream, this`calls
      ensures Valid()
      ensures queue == old(queue)[index := Restarted(old(queue)[index])]
      ensures AtEnd(old(queue)[index]) ==>
        stream == Composite(Playable(queue)) && calls == old(calls) + [SpeakerClear, SpeakerPlay]
      ensures !AtEnd(old(queue)[index]) ==> stream == old(stream) && calls == old(calls)
    {
      var song := queue[index];
      song := song.(ended := false);
      var ended := song.position == song.length;
      song := song.(position := 0);
      if ended {
        song := song.(view := ToTarget(song.sampleRate));
      }
      queue := queue[index := song];
      if ended {
        RebuildStreamer();
        Play();
      }
    }

    /** Restarts every track in order, returns to the first track and
        installs a stream holding the whole queue. */
    method RestartQueue()
      requires Valid()
      modifies this`queue, this`stream, this`calls, this`currentTrack
      ensures Valid()
      ensures |queue| == |old(queue)|
      ensures forall i :: 0 <= i < |queue| ==> queue[i] == Restarted(old(queue)[i])
      ensures forall i :: 0 <= i < |queue| ==> !queue[i].ended && queue[i].position == 0
      ensures currentTrack == 0
      ensures stream == Composite(PathsOf(old(queue)))
      ensures calls == old(calls) + RestartCalls(old(queue))
    {
      ghost var q0 := queue;
      var i := 0;
      while i < |queue|
        invariant Valid() && currentTrack == old(currentTrack)
        invariant 0 <= i <= |queue| == |q0|
        invariant forall j :: 0 <= j < i ==> queue[j] == Restarted(q0[j])
        invariant forall j :: i <= j < |queue| ==> queue[j] == q0[j]
        invariant calls == old(calls) + RestartCalls(q0[..i])
      {
        ghost var replay := if AtEnd(q0[i]) then [SpeakerClear, SpeakerPlay] else [];
        RestartTrack(i);
        assert calls == old(calls) + RestartCalls(q0[..i]) + replay;
        RestartCallsStep(q0, i);
        i := i + 1;
      }
      assert q0[..i] == q0;
      currentTrack := 0;
      RebuildStreamer();
      RestartedQueuePlaysAll(q0, queue);
    }

    /** Clears the speaker and, when there is something queued, starts it. */
    method Play()
      modifies this`calls
      ensures calls == old(calls) + [SpeakerClear] + (if |queue| != 0 then [SpeakerPlay] else [])
    {
      calls := calls + [SpeakerClear];
      if |queue| != 0 {
        calls := calls + [SpeakerPlay];
      }
    }

    /** Moves the volume deviation by `percents` unless that would go below
        mute; an accepted change flags mute exactly at the mute level and
        restarts the speaker so the change is heard at once. */
    method ChangeVolume(percents: int)
      requires Valid()
      modifies this`volumeChange, this`silent, this`calls
      ensures Valid()
      ensures Volume.NextVolume(old(volumeChange), percents).None? ==>
        volumeChange == old(volumeChange) && silent == old(silent) && calls == old(calls)
      ensures Volume.NextVolume(old(volumeChange), percents).Some? ==>
        volumeChange == old(volumeChange) + percents &&
        silent == (volumeChange == Volume.Mute) &&
        calls == old(calls) + [SpeakerClear, SpeakerPlay]
    {
      if volumeChange + percents < Volume.Mute {
        return;
      }
      volumeChange := volumeChange + percents;
      if volumeChange == Volume.Mute {
        silent := true;
      } else {
        silent := false;
      }
      calls := calls + [SpeakerClear, SpeakerPlay];
    }

    method Unpause()
      modifies this`paused
      ensures !paused
    {
      paused := false;
    }

    method Pause()
      modifies this`paused
      ensures paused
    {
      paused := true;
    }

    function Paused(): bool
      reads this
    {
      paused
    }

    /** Deletes the first track whose base name is `name` and moves the
        current index to the track before it (or to 0); the stream is not
        rebuilt and the track's decoder handle is not closed. */
    method RemoveTrack(name: string)
      requires Valid()
      modifies this`queue, this`currentTrack
      ensures Valid()
      ensures FirstWithBase(old(queue), name).None? ==>
        queue == old(queue) && currentTrack == old(currentTrack)
      ensures FirstWithBase(old(queue), name).Some? ==>
        var k := FirstWithBase(old(queue), name).value;
        queue == old(queue)[..k] + old(queue)[k + 1..] &&
        currentTrack == (if k == 0 then 0 else k - 1)
      ensures old(DistinctPaths(queue)) ==> DistinctPaths(queue)
    {
      var trackIndex := -1;
      var prev := 0;
      var i := 0;
      while i < |queue|
        invariant queue == old(queue) && currentTrack == old(currentTrack)
        invariant 0 <= i <= |queue|
        invariant trackIndex == -1
        invariant forall j :: 0 <= j < i ==> Paths.Base(queue[j].path) != name
        invariant prev == if i == 0 then 0 else i - 1
      {
        if Paths.Base(queue[i].path) == name {
          trackIndex := i;
          break;
        }
        prev := i;
        i := i + 1;
      }
      if trackIndex == -1 {
        assert FirstWithBase(queue, name).None?;
        return;
      }
      assert FirstWithBase(queue, name) == Some(trackIndex);
      DeleteKeepsInvariants(queue, trackIndex);
      currentTrack := prev;
      queue := queue[..trackIndex] + queue[trackIndex + 1..];
    }

    /** Closes every track's decoder handle, uninstalls the stream and
        empties the queue. */
    method Clear()
      requires Valid()
      modifies this`queue, this`currentTrack, this`stream, this`closed
      ensures Valid()
      ensures queue == [] && currentTrack == 0 && stream == NoStream
      ensures closed == old(closed) + PathsOf(old(queue))
    {
      var i := 0;
      while i < |queue|
        invariant queue == old(queue)
        invariant 0 <= i <= |queue|
        invariant closed == old(closed) + PathsOf(queue[..i])
      {
        assert queue[..i + 1][..i] == queue[..i];
        closed := closed + [queue[i].path];
        i := i + 1;
      }
      assert queue[..i] == queue;
      stream := NoStream;
      currentTrack := 0;
      queue := [];
    }
  }
}
