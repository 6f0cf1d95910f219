// The cut stage used by the editor (MediaPlayer/Cutter.h). Its constructor
// builds the same re-encoding argument list as the precise cutter; only its
// onStarted hook differs.

module Cutter {
  import VTime
  import opened Runnables
  import FastCutter
  import PreciseCutter

  /** Cutter::Cutter / Cutter::create */
  method Build(videoPath: string, cutFilePath: string, start: VTime.VTime, end: VTime.VTime) returns (r: Runnable)
    requires 0 <= start.ms <= end.ms
    ensures r.kind == CutterKind && r.name == "Cutter" && r.command == FfmpegPath
    ensures r.arguments == PreciseCutter.Arguments(videoPath, cutFilePath, start, end)
  {
    var arguments: seq<string> := [];
    var preloadTime := FastCutter.PreloadThreshold;
    if VTime.Ge(start, preloadTime) {
      var preloadLength := FastCutter.OneSecond;
      var preSeek := VTime.Minus(start, preloadLength);
      var duration := VTime.Minus(end, start);
      arguments := arguments + ["-ss", VTime.Text(preSeek), "-i", videoPath, "-ss", VTime.Text(preloadLength),
        "-t", VTime.Text(duration), "-c:v", "libx264", "-c:a", "aac", cutFilePath, "-y"];
    } else {
      var duration := VTime.Minus(end, start);
      arguments := arguments + ["-i", videoPath, "-ss", VTime.Text(start), "-t", VTime.Text(duration),
        "-c:v", "libx264", "-c:a", "aac", cutFilePath, "-y"];
    }
    r := Runnable(CutterKind, "Cutter", FfmpegPath, arguments);
  }
}
