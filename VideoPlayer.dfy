// The video player wrapper (MediaPlayer/VideoPlayer.cpp). Like Player it
// lets videoLoaded through once, but setVideo stops playback and clears the
// flag, so the signal is emitted at most once per loaded video; it also
// handles the end of the media by pausing at the very end and emitting
// videoEnded.

module VideoPlayers {
  import opened Media
  import VTime

  class VideoPlayer {
    /** The QMediaPlayer's state. */
    var state: PlaybackState
    var position: int
    var duration: int
    var source: string
    /** mIsVideoLoaded */
    var isVideoLoaded: bool
    /** Every signal of the wrapper's own, in order. */
    var signals: seq<Signal>
    /** Where the signal log stood at the last setVideo. */
    ghost var sinceSetVideo: nat

    /** Since the last setVideo, videoLoaded has been emitted once if the flag is set, and never otherwise. */
    ghost predicate Valid()
      reads this
    {
      sinceSetVideo <= |signals| &&
      LoadedCount(signals[sinceSetVideo..]) == if isVideoLoaded then 1 else 0
    }

    /** VideoPlayer::VideoPlayer: nothing loaded, nothing emitted. */
    constructor ()
      ensures Valid()
      ensures state == Stopped && position == 0 && duration == 0 && source == ""
      ensures !isVideoLoaded && signals == []
    {
      state := Stopped;
      position := 0;
      duration := 0;
      source := "";
      isVideoLoaded := false;
      signals := [];
      sinceSetVideo := 0;
    }

    /** VideoPlayer::isPlaying */
    function IsPlaying(): (b: bool)
      reads this
      ensures b <==> state == Playing
    {
      state == Playing
    }

    /** VideoPlayer::getPosition / getDuration */
    function GetPosition(): (t: VTime.VTime)
      reads this
      ensures t.ms == position
    {
      VTime.VTime(position)
    }

    function GetDuration(): (t: VTime.VTime)
      reads this
      ensures t.ms == duration
    {
      VTime.VTime(duration)
    }

    /** VideoPlayer::setVideo: stops a playing video, clears the flag, then sets the source. */
    method SetVideo(url: string)
      requires Valid()
      modifies this
      ensures Valid()
      ensures source == url && !isVideoLoaded && signals == old(signals)
      ensures old(state) == Playing ==> state == Stopped && position == 0
      ensures old(state) != Playing ==> state == old(state) && position == old(position)
      ensures duration == old(duration)
    {
      if IsPlaying() {
        state := Stopped;
        position := 0;
      }
      isVideoLoaded := false;
      sinceSetVideo := |signals|;
      source := url;
    }

    /** VideoPlayer::play / pause / stop: QMediaPlayer::stop also rewinds to the beginning. */
    method Play()
      modifies this
      ensures state == Playing
      ensures position == old(position) && duration == old(duration) && source == old(source)
      ensures isVideoLoaded == old(isVideoLoaded) && signals == old(signals) && sinceSetVideo == old(sinceSetVideo)
    {
      state := Playing;
    }

    method Pause()
      modifies this
      ensures state == Paused
      ensures position == old(position) && duration == old(duration) && source == old(source)
      ensures isVideoLoaded == old(isVideoLoaded) && signals == old(signals) && sinceSetVideo == old(sinceSetVideo)
    {
      state := Paused;
    }

    method Stop()
      modifies this
      ensures state == Stopped && position == 0
      ensures duration == old(duration) && source == old(source)
      ensures isVideoLoaded == old(isVideoLoaded) && signals == old(signals) && sinceSetVideo == old(sinceSetVideo)
    {
      state := Stopped;
      position := 0;
    }

    /** VideoPlayer::setPosition: the millisecond count is passed on unchanged. */
    method SetPosition(t: VTime.VTime)
      modifies this
      ensures position == t.ms
      ensures state == old(state) && duration == old(duration) && source == old(source)
      ensures isVideoLoaded == old(isVideoLoaded) && signals == old(signals) && sinceSetVideo == old(sinceSetVideo)
    {
      position := t.ms;
    }

    /** VideoPlayer::seekBackward: never before 0. */
    method SeekBackward(size: VTime.VTime)
      modifies this
      ensures position == SeekBackwardTarget(old(position), size.ms)
      ensures state == old(state) && duration == old(duration) && source == old(source)
      ensures isVideoLoaded == old(isVideoLoaded) && signals == old(signals) && sinceSetVideo == old(sinceSetVideo)
    {
      if position <= size.ms {
        position := 0;
        return;
      }
      position := position - size.ms;
    }

    /** VideoPlayer::seekForward: never past the duration. */
    method SeekForward(size: VTime.VTime)
      modifies this
      ensures position == SeekForwardTarget(old(position), size.ms, duration)
      ensures state == old(state) && duration == old(duration) && source == old(source)
      ensures isVideoLoaded == old(isVideoLoaded) && signals == old(signals) && sinceSetVideo == old(sinceSetVideo)
    {
      if position + size.ms >= duration {
        position := duration;
        return;
      }
      position := position + size.ms;
    }

    /**
     * The mediaStatusChanged handler. The first LoadedMedia since setVideo
     * sets the flag and emits videoLoaded; a later one is ignored.
     * EndOfMedia pauses, moves to the duration and emits videoEnded. Every
     * other status changes nothing.
     */
    method OnMediaStatusChanged(status: MediaStatus)
      requires Valid()
      modifies this
      ensures Valid()
      ensures sinceSetVideo == old(sinceSetVideo) && source == old(source) && duration == old(duration)
      ensures status == LoadedMedia && !old(isVideoLoaded) ==>
        isVideoLoaded && signals == old(signals) + [VideoLoaded] &&
        state == old(state) && position == old(position)
      ensures status == EndOfMedia ==>
        state == Paused && position == duration && signals == old(signals) + [VideoEnded] &&
        isVideoLoaded == old(isVideoLoaded)
      ensures (status == LoadedMedia && old(isVideoLoaded)) || (status != LoadedMedia && status != EndOfMedia) ==>
        isVideoLoaded == old(isVideoLoaded) && signals == old(signals) &&
        state == old(state) && position == old(position)
    {
      if status == LoadedMedia {
        if isVideoLoaded {
          return;
        }
        LoadedCountAppend(signals[sinceSetVideo..], VideoLoaded);
        assert (signals + [VideoLoaded])[sinceSetVideo..] == signals[sinceSetVideo..] + [VideoLoaded];
        isVideoLoaded := true;
        signals := signals + [VideoLoaded];
      } else if status == EndOfMedia {
        state := Paused;
        position := duration;
        LoadedCountAppend(signals[sinceSetVideo..], VideoEnded);
        assert (signals + [VideoEnded])[sinceSetVideo..] == signals[sinceSetVideo..] + [VideoEnded];
        signals := signals + [VideoEnded];
      }
    }
  }

  /** Since the last setVideo, a valid player has emitted videoLoaded at most once. */
  lemma LoadedAtMostOncePerVideo(p: VideoPlayer)
    requires p.Valid()
    ensures LoadedCount(p.signals[p.sinceSetVideo..]) <= 1
    ensures LoadedCount(p.signals[p.sinceSetVideo..]) == 1 <==> p.isVideoLoaded
  {
  }
}
