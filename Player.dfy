// The player wrapper the media player drives (MediaPlayer/Player.cpp). The
// QMediaPlayer it owns is reduced to its playback state, position, duration
// and source; the wrapper adds the clamped seeks and a flag that lets
// videoLoaded through once. setVideo never clears that flag, so the signal is
// emitted at most once over the wrapper's whole lifetime.

module Players {
  import opened Media

  class Player {
    /** The QMediaPlayer's state. */
    var state: PlaybackState
    var position: int
    var duration: int
    var source: string
    /** mIsVideoLoaded */
    var isVideoLoaded: bool
    /** Every signal of the wrapper's own, in order. */
    var signals: seq<Signal>

    /** videoLoaded has been emitted once if the flag is set, and never otherwise. */
    predicate Valid()
      reads this
    {
      LoadedCount(signals) == if isVideoLoaded then 1 else 0
    }

    /** Player::Player: nothing loaded, nothing emitted. */
    constructor ()
      ensures Valid()
      ensures state == Stopped && position == 0 && duration == 0 && source == ""
      ensures !isVideoLoaded && signals == []
    {
      state := Stopped;
      position := 0;
      duration := 0;
      source := "";
      isVideoLoaded := false;
      signals := [];
    }

    /** Player::setVideo: only the source changes; playback goes on and the flag stays. */
    method SetVideo(url: string)
      modifies this
      ensures source == url
      ensures state == old(state) && position == old(position) && duration == old(duration)
      ensures isVideoLoaded == old(isVideoLoaded) && signals == old(signals)
    {
      source := url;
    }

    /** Player::isPlaying */
    function IsPlaying(): (b: bool)
      reads this
      ensures b <==> state == Playing
    {
      state == Playing
    }

    /** Player::play */
    method Play()
      modifies this
      ensures state == Playing
      ensures position == old(position) && duration == old(duration) && source == old(source)
      ensures isVideoLoaded == old(isVideoLoaded) && signals == old(signals)
    {
      state := Playing;
    }

    /** Player::pause */
    method Pause()
      modifies this
      ensures state == Paused
      ensures position == old(position) && duration == old(duration) && source == old(source)
      ensures isVideoLoaded == old(isVideoLoaded) && signals == old(signals)
    {
      state := Paused;
    }

    /** Player::stop: QMediaPlayer::stop also rewinds to the beginning. */
    method Stop()
      modifies this
      ensures state == Stopped && position == 0
      ensures duration == old(duration) && source == old(source)
      ensures isVideoLoaded == old(isVideoLoaded) && signals == old(signals)
    {
      state := Stopped;
      position := 0;
    }

    /** Player::setPosition: the value is passed on unchanged. */
    method SetPosition(p: int)
      modifies this
      ensures position == p
      ensures state == old(state) && duration == old(duration) && source == old(source)
      ensures isVideoLoaded == old(isVideoLoaded) && signals == old(signals)
    {
      position := p;
    }

    /** Player::seekBackward: never before 0. */
    method SeekBackward(size: int)
      modifies this
      ensures position == SeekBackwardTarget(old(position), size)
      ensures state == old(state) && duration == old(duration) && source == old(source)
      ensures isVideoLoaded == old(isVideoLoaded) && signals == old(signals)
    {
      if position <= size {
        SetPosition(0);
        return;
      }
      SetPosition(position - size);
    }

    /** Player::seekForward: never past the duration. */
    method SeekForward(size: int)
      modifies this
      ensures position == SeekForwardTarget(old(position), size, duration)
      ensures state == old(state) && duration == old(duration) && source == old(source)
      ensures isVideoLoaded == old(isVideoLoaded) && signals == old(signals)
    {
      if position + size >= duration {
        SetPosition(duration);
        return;
      }
      SetPosition(position + size);
    }

    /**
     * The mediaStatusChanged handler: the first LoadedMedia sets the flag
     * and emits videoLoaded; every other status, and every later
     * LoadedMedia, changes nothing.
     */
    method OnMediaStatusChanged(status: MediaStatus)
      requires Valid()
      modifies this
      ensures Valid()
      ensures status == LoadedMedia && !old(isVideoLoaded) ==> isVideoLoaded && signals == old(signals) + [VideoLoaded]
      ensures status != LoadedMedia || old(isVideoLoaded) ==> isVideoLoaded == old(isVideoLoaded) && signals == old(signals)
      ensures state == old(state) && position == old(position) && duration == old(duration) && source == old(source)
    {
      if status == LoadedMedia {
        if isVideoLoaded {
          return;
        }
        LoadedCountAppend(signals, VideoLoaded);
        isVideoLoaded := true;
        signals := signals + [VideoLoaded];
      }
    }
  }

  /** Whatever has happened, a valid player has emitted videoLoaded at most once. */
  lemma LoadedAtMostOnce(p: Player)
    requires p.Valid()
    ensures LoadedCount(p.signals) <= 1
    ensures LoadedCount(p.signals) == 1 <==> p.isVideoLoaded
  {
  }
}
