// The re-encoding cut stage (MediaPlayer/PreciseCutter.cpp). It seeks like
// the stream-copy cutter but re-encodes video with libx264 and audio with aac
// instead of copying the streams.

module PreciseCutter {
  import VTime
  import opened Runnables
  import FastCutter

  /** The re-encoding options and the output, shared by both shapes. */
  function Tail(cutFilePath: string): seq<string> {
    ["-c:v", "libx264", "-c:a", "aac", cutFilePath, "-y"]
  }

  /** The argument list the constructor builds. */
  function Arguments(videoPath: string, cutFilePath: string, start: VTime.VTime, end: VTime.VTime): seq<string>
    requires 0 <= start.ms <= end.ms
  {
    var duration := VTime.Minus(end, start);
    if VTime.Ge(start, FastCutter.PreloadThreshold) then
      ["-ss", VTime.Text(VTime.Minus(start, FastCutter.OneSecond)), "-i", videoPath,
       "-ss", VTime.Text(FastCutter.OneSecond), "-t", VTime.Text(duration)] + Tail(cutFilePath)
    else
      ["-i", videoPath, "-ss", VTime.Text(start), "-t", VTime.Text(duration)] + Tail(cutFilePath)
  }

  /** PreciseCutter::PreciseCutter / PreciseCutter::create */
  method Build(videoPath: string, cutFilePath: string, start: VTime.VTime, end: VTime.VTime) returns (r: Runnable)
    requires 0 <= start.ms <= end.ms
    ensures r.kind == PreciseCutterKind && r.name == "Cutter" && r.command == FfmpegPath
    ensures r.arguments == Arguments(videoPath, cutFilePath, start, end)
  {
    var arguments: seq<string> := [];
    var preloadTime := FastCutter.PreloadThreshold;
    if VTime.Ge(start, preloadTime) {
      var preloadLength := FastCutter.OneSecond;
      var preSeek := VTime.Minus(start, preloadLength);
      var duration := VTime.Minus(end, start);
      arguments := arguments + ["-ss", VTime.Text(preSeek), "-i", videoPath, "-ss", VTime.Text(preloadLength),
        "-t", VTime.Text(duration), "-c:v", "libx264", "-c:a", "aac", cutFilePath, "-y"];
    } else {
      var duration := VTime.Minus(end, start);
      arguments := arguments + ["-i", videoPath, "-ss", VTime.Text(start), "-t", VTime.Text(duration),
        "-c:v", "libx264", "-c:a", "aac", cutFilePath, "-y"];
    }
    r := Runnable(PreciseCutterKind, "Cutter", FfmpegPath, arguments);
  }

  /**
   * The re-encoding cut seeks exactly as the stream-copy cut does: the two
   * lists agree up to and including the "-t" length and differ only in the
   * codec options that follow; both end with the output path and "-y".
   */
  lemma SameSeeksAsFastCutter(videoPath: string, cutFilePath: string, start: VTime.VTime, end: VTime.VTime)
    requires 0 <= start.ms <= end.ms
    ensures var p := Arguments(videoPath, cutFilePath, start, end);
      var f := FastCutter.Arguments(videoPath, cutFilePath, start, end);
      |p| + 4 == |f| && p[..|p| - 6] == f[..|f| - 10] &&
      p[|p| - 6..] == Tail(cutFilePath) && f[|f| - 10..] == FastCutter.Tail(cutFilePath)
  {
    var p := Arguments(videoPath, cutFilePath, start, end);
    var f := FastCutter.Arguments(videoPath, cutFilePath, start, end);
    FastCutter.ArgumentsShape(videoPath, cutFilePath, start, end, f);
    if VTime.Ge(start, FastCutter.PreloadThreshold) {
      assert p[..8] == f[..8];
    } else {
      assert p[..6] == f[..6];
    }
  }
}
