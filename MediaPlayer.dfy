// The media player controller (MediaPlayer/MediaPlayer.cpp): a playlist of
// videos with the index of the current one, the list of marked (start, end)
// ranges with the marking flag, and the Player it drives. Switching videos
// wraps around the playlist and keeps playing only what was playing.

module MediaPlayers {
  import opened Types
  import VTime
  import Players
  import Media

  /**
   * Outside marking mode every range has start < end; in marking mode the
   * last range is the pending one, so the list is not empty and every range
   * before it has start < end.
   */
  predicate WellMarked(seqs: seq<Sequence>, marking: bool) {
    (marking ==> seqs != []) &&
    forall i :: 0 <= i < |seqs| - (if marking then 1 else 0) ==> VTime.Lt(seqs[i].start, seqs[i].end)
  }

  /**
   * One call of mark() on the ranges and the flag, at player position pos.
   * The first call opens the range (pos, 0); the second closes the pending
   * range at pos, keeping it only when it is not empty or backward.
   */
  function MarkStep(seqs: seq<Sequence>, marking: bool, pos: int): (r: (seq<Sequence>, bool))
    requires marking ==> seqs != []
    ensures r.1 == !marking
    ensures !marking ==> r.0 == seqs + [Sequence(VTime.VTime(pos), VTime.VTime(0))]
    ensures marking ==> seqs[..|seqs| - 1] <= r.0 && |r.0| <= |seqs|
    ensures marking ==> (|r.0| == |seqs| <==> seqs[|seqs| - 1].start.ms < pos)
  {
    if marking then
      var start := seqs[|seqs| - 1].start;
      if VTime.Lt(start, VTime.VTime(pos)) then
        (seqs[..|seqs| - 1] + [Sequence(start, VTime.VTime(pos))], false)
      else
        (seqs[..|seqs| - 1], false)
    else
      (seqs + [Sequence(VTime.VTime(pos), VTime.VTime(0))], true)
  }

  /** mark() keeps the ranges well marked. */
  lemma MarkStepKeepsWellMarked(seqs: seq<Sequence>, marking: bool, pos: int)
    requires WellMarked(seqs, marking)
    ensures WellMarked(MarkStep(seqs, marking, pos).0, MarkStep(seqs, marking, pos).1)
  {
    var r := MarkStep(seqs, marking, pos);
    if marking {
      forall i | 0 <= i < |r.0|
        ensures VTime.Lt(r.0[i].start, r.0[i].end)
      {
        if i < |seqs| - 1 {
          assert r.0[i] == seqs[i];
        }
      }
    } else {
      forall i | 0 <= i < |r.0| - 1
        ensures VTime.Lt(r.0[i].start, r.0[i].end)
      {
        assert r.0[i] == seqs[i];
      }
    }
  }

  /**
   * Two marks at positions p1 then p2 add the range (p1, p2) when p1 < p2;
   * otherwise they leave the list as it was before the first mark. Either way
   * the player is out of marking mode again.
   */
  lemma MarkTwice(seqs: seq<Sequence>, p1: int, p2: int)
    ensures var first := MarkStep(seqs, false, p1);
            var second := MarkStep(first.0, first.1, p2);
            !second.1 &&
            (p1 < p2 ==> second.0 == seqs + [Sequence(VTime.VTime(p1), VTime.VTime(p2))]) &&
            (p2 <= p1 ==> second.0 == seqs)
  {
    var first := MarkStep(seqs, false, p1);
    assert first.0[..|first.0| - 1] == seqs;
  }

  /** cancelMark right after the first mark restores the list and leaves marking mode. */
  lemma CancelAfterMarkRestores(seqs: seq<Sequence>, p: int)
    ensures var first := MarkStep(seqs, false, p);
            first.0[..|first.0| - 1] == seqs
  {
  }

  /** cancelMark keeps the ranges well marked (it leaves marking mode and drops the last range). */
  lemma CancelKeepsWellMarked(seqs: seq<Sequence>, marking: bool)
    requires seqs != [] && WellMarked(seqs, marking)
    ensures WellMarked(seqs[..|seqs| - 1], false)
  {
  }

  class MediaPlayer {
    /** mPlaylist */
    var playlist: seq<string>
    /** mCurrentVideo */
    var currentVideo: nat
    /** mSequences */
    var sequences: seq<Sequence>
    /** mIsMarking */
    var isMarking: bool
    /** mPlayer */
    const player: Players.Player

    predicate Valid()
      reads this, player
    {
      WellMarked(sequences, isMarking) && player.Valid()
    }

    /** MediaPlayer::MediaPlayer: an empty playlist, no ranges, a fresh player. */
    constructor ()
      ensures Valid()
      ensures playlist == [] && currentVideo == 0 && sequences == [] && !isMarking
      ensures fresh(player) && player.state == Media.Stopped && !player.isVideoLoaded
    {
      playlist := [];
      currentVideo := 0;
      sequences := [];
      isMarking := false;
      player := new Players.Player();
    }

    /** MediaPlayer::isPlaying */
    function IsPlaying(): (b: bool)
      reads this, player
      ensures b <==> player.state == Media.Playing
    {
      player.IsPlaying()
    }

    /** MediaPlayer::play / pause / stop pass the call on to the player. */
    method Play()
      requires Valid()
      modifies player
      ensures Valid()
      ensures player.state == Media.Playing
      ensures player.position == old(player.position) && player.source == old(player.source)
      ensures player.duration == old(player.duration) && player.isVideoLoaded == old(player.isVideoLoaded) && player.signals == old(player.signals)
    {
      player.Play();
    }

    method Pause()
      requires Valid()
      modifies player
      ensures Valid()
      ensures player.state == Media.Paused
      ensures player.position == old(player.position) && player.source == old(player.source)
      ensures player.duration == old(player.duration) && player.isVideoLoaded == old(player.isVideoLoaded) && player.signals == old(player.signals)
    {
      player.Pause();
    }

    method Stop()
      requires Valid()
      modifies player
      ensures Valid()
      ensures player.state == Media.Stopped && player.position == 0
      ensures player.source == old(player.source)
      ensures player.duration == old(player.duration) && player.isVideoLoaded == old(player.isVideoLoaded) && player.signals == old(player.signals)
    {
      player.Stop();
    }

    /** MediaPlayer::startStop: pause when playing, play otherwise. */
    method StartStop()
      requires Valid()
      modifies player
      ensures Valid()
      ensures old(player.state) == Media.Playing ==> player.state == Media.Paused
      ensures old(player.state) != Media.Playing ==> player.state == Media.Playing
      ensures player.position == old(player.position) && player.source == old(player.source)
      ensures player.duration == old(player.duration) && player.isVideoLoaded == old(player.isVideoLoaded) && player.signals == old(player.signals)
    {
      if IsPlaying() {
        Pause();
      } else {
        Play();
      }
    }

    /** MediaPlayer::setPlaylist: the first video becomes the current one and is handed to the player. */
    method SetPlaylist(videos: seq<string>)
      requires Valid() && videos != []
      modifies this, player
      ensures Valid()
      ensures playlist == videos && currentVideo == 0 && player.source == videos[0]
      ensures sequences == old(sequences) && isMarking == old(isMarking)
      ensures player.state == old(player.state) && player.position == old(player.position)
      ensures player.duration == old(player.duration) && player.isVideoLoaded == old(player.isVideoLoaded) && player.signals == old(player.signals)
    {
      playlist := videos;
      currentVideo := 0;
      player.SetVideo(playlist[currentVideo]);
    }

    /**
     * MediaPlayer::next: one video forward, wrapping from the last to the
     * first; the player is stopped, given the new video, and plays again
     * exactly when it was playing.
     */
    method Next()
      requires Valid() && currentVideo < |playlist|
      modifies this, player
      ensures Valid()
      ensures playlist == old(playlist) && currentVideo == (old(currentVideo) + 1) % |playlist|
      ensures player.source == playlist[currentVideo] && player.position == 0
      ensures player.state == if old(player.state) == Media.Playing then Media.Playing else Media.Stopped
      ensures sequences == old(sequences) && isMarking == old(isMarking)
      ensures player.duration == old(player.duration) && player.isVideoLoaded == old(player.isVideoLoaded) && player.signals == old(player.signals)
    {
      if currentVideo == |playlist| - 1 {
        currentVideo := 0;
      } else {
        currentVideo := currentVideo + 1;
      }
      StepForward(old(currentVideo), |playlist|);
      SwitchVideo();
    }

    /** MediaPlayer::previous: one video back, wrapping from the first to the last, as next does. */
    method Previous()
      requires Valid() && currentVideo < |playlist|
      modifies this, player
      ensures Valid()
      ensures playlist == old(playlist) && currentVideo == (old(currentVideo) + |playlist| - 1) % |playlist|
      ensures player.source == playlist[currentVideo] && player.position == 0
      ensures player.state == if old(player.state) == Media.Playing then Media.Playing else Media.Stopped
      ensures sequences == old(sequences) && isMarking == old(isMarking)
      ensures player.duration == old(player.duration) && player.isVideoLoaded == old(player.isVideoLoaded) && player.signals == old(player.signals)
    {
      if currentVideo == 0 {
        currentVideo := |playlist| - 1;
      } else {
        currentVideo := currentVideo - 1;
      }
      StepBackward(old(currentVideo), |playlist|);
      SwitchVideo();
    }

    /** The common tail of next and previous: stop, load the current video, resume if it was playing. */
    method SwitchVideo()
      requires Valid() && currentVideo < |playlist|
      modifies player
      ensures Valid()
      ensures player.source == playlist[currentVideo] && player.position == 0
      ensures player.state == if old(player.state) == Media.Playing then Media.Playing else Media.Stopped
      ensures player.duration == old(player.duration) && player.isVideoLoaded == old(player.isVideoLoaded) && player.signals == old(player.signals)
    {
      var wasPlaying := player.IsPlaying();
      Stop();
      player.SetVideo(playlist[currentVideo]);
      if wasPlaying {
        Play();
      }
    }

    /** MediaPlayer::mark at the player's current position. */
    method Mark()
      requires Valid()
      modifies this
      ensures Valid()
      ensures (sequences, isMarking) == MarkStep(old(sequences), old(isMarking), player.position)
      ensures playlist == old(playlist) && currentVideo == old(currentVideo)
    {
      MarkStepKeepsWellMarked(sequences, isMarking, player.position);
      if isMarking {
        isMarking := false;
        var last := sequences[|sequences| - 1];
        sequences := sequences[..|sequences| - 1] + [Sequence(last.start, VTime.VTime(player.position))];
        if VTime.Lt(sequences[|sequences| - 1].start, sequences[|sequences| - 1].end) {
        } else {
          sequences := sequences[..|sequences| - 1];
        }
        return;
      }
      isMarking := true;
      sequences := sequences + [Sequence(VTime.VTime(player.position), VTime.VTime(0))];
    }

    /** MediaPlayer::cancelMark: leaves marking mode and drops the last range, whether pending or not. */
    method CancelMark()
      requires Valid() && sequences != []
      modifies this
      ensures Valid()
      ensures !isMarking && sequences == old(sequences)[..|old(sequences)| - 1]
      ensures playlist == old(playlist) && currentVideo == old(currentVideo)
    {
      CancelKeepsWellMarked(sequences, isMarking);
      isMarking := false;
      sequences := sequences[..|sequences| - 1];
    }
  }

  lemma StepForward(i: nat, n: nat)
    requires i < n
    ensures (i + 1) % n == if i == n - 1 then 0 else i + 1
  {
  }

  lemma StepBackward(i: nat, n: nat)
    requires i < n
    ensures (i + n - 1) % n == if i == 0 then n - 1 else i - 1
  {
    if 0 < i {
      assert (i + n - 1) == (i - 1) + n;
    }
  }

  /** On a non-empty playlist, next undoes previous and previous undoes next. */
  lemma NextPreviousInverse(i: nat, n: nat)
    requires i < n
    ensures (((i + 1) % n) + n - 1) % n == i
    ensures (((i + n - 1) % n) + 1) % n == i
  {
    StepForward(i, n);
    StepBackward(i, n);
    StepBackward((i + 1) % n, n);
    StepForward((i + n - 1) % n, n);
  }
}
