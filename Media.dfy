// What the two player wrappers (MediaPlayer/VideoPlayer.cpp,
// MediaPlayer/Player.cpp) share: the QMediaPlayer states and statuses they
// react to, the signals they emit, and the clamped seek arithmetic both of
// them implement the same way.

module Media {

  /** QMediaPlayer::PlaybackState */
  datatype PlaybackState = Stopped | Playing | Paused

  /** QMediaPlayer::MediaStatus */
  datatype MediaStatus =
    | NoMedia | LoadingMedia | LoadedMedia | StalledMedia
    | BufferingMedia | BufferedMedia | EndOfMedia | InvalidMedia

  /** The wrappers' own signals. */
  datatype Signal = VideoLoaded | VideoEnded

  /** How many videoLoaded signals a signal log holds. */
  function LoadedCount(s: seq<Signal>): nat {
    if s == [] then 0 else LoadedCount(s[..|s| - 1]) + (if s[|s| - 1] == VideoLoaded then 1 else 0)
  }

  /** Appending one signal adds one to the count exactly when it is videoLoaded. */
  lemma LoadedCountAppend(s: seq<Signal>, x: Signal)
    ensures LoadedCount(s + [x]) == LoadedCount(s) + (if x == VideoLoaded then 1 else 0)
  {
    assert (s + [x])[..|s|] == s;
  }

  /** seekBackward's target: back by size, but never before 0. */
  function SeekBackwardTarget(position: int, size: int): (r: int)
    ensures 0 <= r
    ensures r == 0 <==> position <= size
    ensures r != 0 ==> r == position - size
  {
    if position <= size then 0 else position - size
  }

  /** seekForward's target: ahead by size, but never past the duration. */
  function SeekForwardTarget(position: int, size: int, duration: int): (r: int)
    ensures r <= duration
    ensures r == duration || r == position + size
    ensures position + size < duration ==> r == position + size
  {
    if position + size >= duration then duration else position + size
  }

  /** From a position at least size into the video, seeking back then forward by size returns to it. */
  lemma BackThenForward(position: int, size: int, duration: int)
    requires size <= position <= duration
    ensures SeekForwardTarget(SeekBackwardTarget(position, size), size, duration) == position
  {
  }

  /** From a position at least size before the end, seeking forward then back by size returns to it. */
  lemma ForwardThenBack(position: int, size: int, duration: int)
    requires 0 <= position && 0 <= size && position + size <= duration
    ensures SeekBackwardTarget(SeekForwardTarget(position, size, duration), size) == position
  {
  }
}
