// The reversing stage (MediaPlayer/Reverser.h, MediaPlayer/Reverser.cpp): one
// ffmpeg call that plays the video stream backwards into a new file. The
// header and the .cpp define the same constructor with the same arguments.

module Reverser {
  import opened Runnables

  /** The argument list the constructor builds. */
  function Arguments(originalFilePath: string, reversedFilePath: string): seq<string> {
    ["-i", originalFilePath, "-vf", "reverse", reversedFilePath, "-y"]
  }

  /** Reverser::Reverser / Reverser::create */
  method Build(originalFilePath: string, reversedFilePath: string) returns (r: Runnable)
    ensures r.kind == ReverserKind && r.name == "Reverser" && r.command == FfmpegPath
    ensures r.arguments == Arguments(originalFilePath, reversedFilePath)
  {
    var arguments: seq<string> := [];
    arguments := arguments + ["-i", originalFilePath, "-vf", "reverse", reversedFilePath, "-y"];
    r := Runnable(ReverserKind, "Reverser", FfmpegPath, arguments);
  }

  /**
   * Six arguments: the input comes first, the output is second to last and
   * "-y" last, and the only filter is the video filter "reverse"; no audio
   * filter option appears among the options.
   */
  lemma ArgumentsShape(originalFilePath: string, reversedFilePath: string)
    ensures var a := Arguments(originalFilePath, reversedFilePath);
      |a| == 6 && a[0] == "-i" && a[1] == originalFilePath &&
      a[|a| - 2] == reversedFilePath && a[|a| - 1] == "-y" &&
      a[2] == "-vf" && a[3] == "reverse" &&
      forall i :: 0 <= i < |a| && i != 1 && i != 4 ==> a[i] != "-af" && a[i] != "-filter:a"
  {
  }

  /** Two builds from the same paths give the same runnable; different paths give different lists. */
  lemma ArgumentsDeterminePaths(o1: string, r1: string, o2: string, r2: string)
    ensures Arguments(o1, r1) == Arguments(o2, r2) <==> o1 == o2 && r1 == r2
  {
    if Arguments(o1, r1) == Arguments(o2, r2) {
      assert Arguments(o1, r1)[1] == o1 && Arguments(o2, r2)[1] == o2;
      assert Arguments(o1, r1)[4] == r1 && Arguments(o2, r2)[4] == r2;
    }
  }
}
