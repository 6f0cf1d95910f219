// The stream-copy cut stage (MediaPlayer/FastCutter.cpp). Its constructor
// appends ffmpeg arguments to the (initially empty) argument list in one of
// two shapes: with a pre-seek of start - 1 s on the input followed by a 1 s
// seek on the output when the start is at least 1000 ms, and with a single
// output seek otherwise.

module FastCutter {
  import VTime
  import opened Runnables

  const OneSecond: VTime.VTime := VTime.FromHms(0, 0, 1, 0)
  const PreloadThreshold: VTime.VTime := VTime.VTime(1000)

  /** The stream-copy options and the output, shared by both shapes. */
  function Tail(cutFilePath: string): seq<string> {
    ["-async", "1", "-vcodec", "copy", "-acodec", "copy", "-avoid_negative_ts", "1", cutFilePath, "-y"]
  }

  /** The argument list the constructor builds. */
  function Arguments(videoPath: string, cutFilePath: string, start: VTime.VTime, end: VTime.VTime): seq<string>
    requires 0 <= start.ms <= end.ms
  {
    var duration := VTime.Minus(end, start);
    if VTime.Ge(start, PreloadThreshold) then
      ["-ss", VTime.Text(VTime.Minus(start, OneSecond)), "-i", videoPath, "-ss", VTime.Text(OneSecond),
       "-t", VTime.Text(duration)] + Tail(cutFilePath)
    else
      ["-i", videoPath, "-ss", VTime.Text(start), "-t", VTime.Text(duration)] + Tail(cutFilePath)
  }

  /**
   * Both shapes: 18 arguments with the pre-seek, 16 without; "-t" with the
   * duration, then the stream-copy options, the output path and "-y" last.
   */
  lemma ArgumentsShape(videoPath: string, cutFilePath: string, start: VTime.VTime, end: VTime.VTime, r: seq<string>)
    requires 0 <= start.ms <= end.ms
    requires r == Arguments(videoPath, cutFilePath, start, end)
    ensures |r| == if VTime.Ge(start, PreloadThreshold) then 18 else 16
    ensures r[|r| - 12] == "-t" && r[|r| - 11] == VTime.Text(VTime.Minus(end, start))
    ensures r[|r| - 10..] == Tail(cutFilePath)
    ensures r[|r| - 2] == cutFilePath && r[|r| - 1] == "-y"
    ensures VTime.Ge(start, PreloadThreshold) ==>
      r[..6] == ["-ss", VTime.Text(VTime.Minus(start, OneSecond)), "-i", videoPath, "-ss", VTime.Text(OneSecond)]
    ensures !VTime.Ge(start, PreloadThreshold) ==>
      r[..4] == ["-i", videoPath, "-ss", VTime.Text(start)]
  {
  }

  /** FastCutter::FastCutter / FastCutter::create */
  method Build(videoPath: string, cutFilePath: string, start: VTime.VTime, end: VTime.VTime) returns (r: Runnable)
    requires 0 <= start.ms <= end.ms
    ensures r.kind == FastCutterKind && r.name == "Cutter" && r.command == FfmpegPath
    ensures r.arguments == Arguments(videoPath, cutFilePath, start, end)
  {
    var arguments: seq<string> := [];
    var preloadTime := PreloadThreshold;
    var duration := VTime.Minus(end, start);
    if VTime.Ge(start, preloadTime) {
      var preloadLength := OneSecond;
      var preSeek := VTime.Minus(start, preloadLength);
      LiteralShapes(videoPath, cutFilePath, VTime.Text(preSeek), VTime.Text(preloadLength), VTime.Text(duration));
      arguments := arguments + ["-ss", VTime.Text(preSeek), "-i", videoPath, "-ss", VTime.Text(preloadLength),
        "-t", VTime.Text(duration), "-async", "1", "-vcodec", "copy", "-acodec", "copy",
        "-avoid_negative_ts", "1", cutFilePath, "-y"];
    } else {
      LiteralShapes(videoPath, cutFilePath, VTime.Text(start), VTime.Text(duration), "");
      arguments := arguments + ["-i", videoPath, "-ss", VTime.Text(start), "-t", VTime.Text(duration),
        "-async", "1", "-vcodec", "copy", "-acodec", "copy", "-avoid_negative_ts", "1", cutFilePath, "-y"];
    }
    r := Runnable(FastCutterKind, "Cutter", FfmpegPath, arguments);
  }

  /** The literal lists Build appends are the shapes Arguments names, for any texts in the time slots. */
  lemma LiteralShapes(videoPath: string, cutFilePath: string, x: string, y: string, z: string)
    ensures [] + ["-ss", x, "-i", videoPath, "-ss", y, "-t", z, "-async", "1", "-vcodec", "copy", "-acodec", "copy",
      "-avoid_negative_ts", "1", cutFilePath, "-y"] == ["-ss", x, "-i", videoPath, "-ss", y, "-t", z] + Tail(cutFilePath)
    ensures [] + ["-i", videoPath, "-ss", x, "-t", y, "-async", "1", "-vcodec", "copy", "-acodec", "copy",
      "-avoid_negative_ts", "1", cutFilePath, "-y"] == ["-i", videoPath, "-ss", x, "-t", y] + Tail(cutFilePath)
  {
  }

  /** The "-t" argument decodes to the length end - start. */
  lemma DurationIsLength(videoPath: string, cutFilePath: string, start: VTime.VTime, end: VTime.VTime)
    requires 0 <= start.ms <= end.ms
    ensures var r := Arguments(videoPath, cutFilePath, start, end);
      VTime.IsTimeText(r[|r| - 11]) && VTime.TextValue(r[|r| - 11]) == end.ms - start.ms
  {
    var r := Arguments(videoPath, cutFilePath, start, end);
    ArgumentsShape(videoPath, cutFilePath, start, end, r);
    VTime.TextDecodes(VTime.Minus(end, start));
  }

  /**
   * With the pre-seek, the input seek and the output seek add up to the
   * requested start.
   */
  lemma PreSeekAddsUpToStart(videoPath: string, cutFilePath: string, start: VTime.VTime, end: VTime.VTime)
    requires 1000 <= start.ms <= end.ms
    ensures var r := Arguments(videoPath, cutFilePath, start, end);
      VTime.IsTimeText(r[1]) && VTime.IsTimeText(r[5]) &&
      VTime.TextValue(r[1]) + VTime.TextValue(r[5]) == start.ms
  {
    var r := Arguments(videoPath, cutFilePath, start, end);
    ArgumentsShape(videoPath, cutFilePath, start, end, r);
    assert r[1] == r[..6][1] && r[5] == r[..6][5];
    VTime.TextDecodes(VTime.Minus(start, OneSecond));
    VTime.TextDecodes(OneSecond);
  }

  /** Without the pre-seek, the single output seek is the requested start. */
  lemma DirectSeekIsStart(videoPath: string, cutFilePath: string, start: VTime.VTime, end: VTime.VTime)
    requires 0 <= start.ms < 1000 && start.ms <= end.ms
    ensures var r := Arguments(videoPath, cutFilePath, start, end);
      VTime.IsTimeText(r[3]) && VTime.TextValue(r[3]) == start.ms
  {
    var r := Arguments(videoPath, cutFilePath, start, end);
    ArgumentsShape(videoPath, cutFilePath, start, end, r);
    assert r[3] == r[..4][3];
    VTime.TextDecodes(start);
  }
}
