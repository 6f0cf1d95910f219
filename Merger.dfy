// The merging stage (MediaPlayer/Merger.h): it writes an ffmpeg concat list
// naming the forward clip and the reversed clip loopCount times each, then
// builds an ffmpeg call that concatenates the listed files by stream copy.
// The list file is returned as its sequence of lines (without the trailing
// newline each one is written with); the fresh-name helper that picks the
// list file's path is a parameter.

module Merger {
  import opened Runnables

  /** The base name the concat list path is derived from. */
  const ConcatBase: string := "e:/concat.txt"

  /** The lines written for n loops: forward clip, reversed clip, n times. */
  function ConcatLines(videoFilePath: string, reversedVideoFilePath: string, n: nat): seq<string> {
    if n == 0 then
      []
    else
      ConcatLines(videoFilePath, reversedVideoFilePath, n - 1) + ["file " + videoFilePath, "file " + reversedVideoFilePath]
  }

  /** The argument list the constructor builds. */
  function Arguments(concatFilePath: string, mergedFilePath: string): seq<string> {
    ["-f", "concat", "-safe", "0", "-i", concatFilePath, "-c", "copy", mergedFilePath, "-y"]
  }

  /**
   * The concat list has two lines per loop; even lines name the forward clip
   * and odd lines the reversed one, so it starts with the forward clip.
   */
  lemma {:induction false} ConcatLinesAlternate(videoFilePath: string, reversedVideoFilePath: string, n: nat)
    ensures var l := ConcatLines(videoFilePath, reversedVideoFilePath, n);
      |l| == 2 * n &&
      (forall i :: 0 <= i < |l| && i % 2 == 0 ==> l[i] == "file " + videoFilePath) &&
      (forall i :: 0 <= i < |l| && i % 2 == 1 ==> l[i] == "file " + reversedVideoFilePath)
  {
    if n > 0 {
      ConcatLinesAlternate(videoFilePath, reversedVideoFilePath, n - 1);
    }
  }

  /** Merger::Merger / Merger::create */
  method Build(videoFilePath: string, reversedVideoFilePath: string, mergedFilePath: string,
               loopCount: nat, newFileName: string -> string)
    returns (r: Runnable, concatFilePath: string, lines: seq<string>)
    ensures concatFilePath == newFileName(ConcatBase)
    ensures lines == ConcatLines(videoFilePath, reversedVideoFilePath, loopCount)
    ensures r.kind == MergerKind && r.name == "Merger" && r.command == FfmpegPath
    ensures r.arguments == Arguments(concatFilePath, mergedFilePath)
  {
    concatFilePath := newFileName(ConcatBase);
    lines := [];
    var n := 0;
    while n < loopCount
      invariant n <= loopCount
      invariant lines == ConcatLines(videoFilePath, reversedVideoFilePath, n)
    {
      lines := lines + ["file " + videoFilePath];
      lines := lines + ["file " + reversedVideoFilePath];
      n := n + 1;
    }
    var arguments: seq<string> := [];
    arguments := arguments + ["-f", "concat", "-safe", "0", "-i", concatFilePath, "-c", "copy", mergedFilePath, "-y"];
    r := Runnable(MergerKind, "Merger", FfmpegPath, arguments);
  }

  /**
   * The ten arguments read the list file as concat input and copy the
   * streams to the merged path; onFinished logs nothing, so no list or clip
   * file is removed by this stage.
   */
  lemma ArgumentsShape(concatFilePath: string, mergedFilePath: string)
    ensures var a := Arguments(concatFilePath, mergedFilePath);
      |a| == 10 && a[4] == "-i" && a[5] == concatFilePath &&
      a[|a| - 2] == mergedFilePath && a[|a| - 1] == "-y"
    ensures FinishedMessages(Runnable(MergerKind, "Merger", FfmpegPath, Arguments(concatFilePath, mergedFilePath))) == []
  {
  }
}
