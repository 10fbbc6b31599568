/** Short runs of the queue, written as clients that only rely on the
    contracts of TracksQueue. */
module Scenarios {
  import opened Tracks
  import opened Playback

  /** Three fresh tracks, "next" twice: the first two are ended, the third
      is current and the stream holds only the third. */
  method NextTwice(a: Track, b: Track, c: Track) returns (current: int, ended: seq<bool>, s: Stream)
    requires WellFormed(a) && WellFormed(b) && WellFormed(c)
    requires !a.ended && !b.ended && !c.ended
    ensures current == 2
    ensures ended == [true, true, false]
    ensures s == Composite([c.path])
  {
    var q := new TracksQueue();
    q.AddTrack(a);
    q.AddTrack(b);
    q.AddTrack(c);
    assert q.queue == [a, b, c] && q.currentTrack == 0;
    q.NextTrack();
    assert q.queue == [a.(ended := true), b, c] && q.currentTrack == 1;
    q.NextTrack();
    var done := [a.(ended := true), b.(ended := true), c];
    assert q.queue == done && q.currentTrack == 2;
    assert done[..2][..1] == [done[0]] && done[..2] == [done[0], done[1]];
    assert Playable([done[0]]) == [] by { assert [done[0]][..0] == []; }
    assert Playable(done) == [c.path];
    current, ended, s := q.currentTrack, [q.queue[0].ended, q.queue[1].ended, q.queue[2].ended], q.stream;
  }

  /** "next" then "previous" from the first of two tracks: back on the
      first track, which is playable again, while the second keeps its flag. */
  method NextThenPrevious(a: Track, b: Track) returns (current: int, ended: seq<bool>, s: Stream)
    requires WellFormed(a) && WellFormed(b)
    requires !a.ended
    ensures current == 0
    ensures ended == [false, b.ended]
    ensures s == Composite([a.path] + (if b.ended then [] else [b.path]))
  {
    var q := new TracksQueue();
    q.AddTrack(a);
    q.AddTrack(b);
    assert q.queue == [a, b] && q.currentTrack == 0;
    q.NextTrack();
    assert q.queue == [a.(ended := true), b] && q.currentTrack == 1;
    q.PrevTrack();
    assert q.queue == [a, b];
    assert q.queue[..1] == [a];
    assert Playable([a]) == [a.path] by { assert [a][..0] == []; }
    current, ended, s := q.currentTrack, [q.queue[0].ended, q.queue[1].ended], q.stream;
  }

  /** From unity gain, a step of -110 is rejected and a step of -100 mutes. */
  method MuteFromUnity() returns (afterReject: int, afterMute: int, silent: bool)
    ensures afterReject == 0
    ensures afterMute == -100 && silent
  {
    var q := new TracksQueue();
    q.ChangeVolume(-110);
    afterReject := q.volumeChange;
    q.ChangeVolume(-100);
    afterMute, silent := q.volumeChange, q.silent;
  }
}
