// A Runnable (MediaPlayer/Runnable.h, MediaPlayer/Runnable.cpp) names an
// external program invocation: a display name, the program to run and its
// argument list. The three are fixed when the object is built and only read
// afterwards. The subclasses differ only in the arguments they build and in
// the log messages their onStarted/onFinished hooks emit, so the subclass is
// recorded as a Kind.

module Runnables {

  /** The ffmpeg executable every encoder stage runs. */
  const FfmpegPath: string := "d:/Tools/ffmpeg/ffmpeg.exe"

  /** Which class built the object; it selects the hook overrides. */
  datatype Kind = Plain | FastCutterKind | PreciseCutterKind | CutterKind | ReverserKind | MergerKind | CleanupKind

  datatype Runnable = Runnable(kind: Kind, name: string, command: string, arguments: seq<string>)

  /** Runnable::create / the Runnable constructor: stores the three values unchanged. */
  function Create(name: string, command: string, arguments: seq<string>): (r: Runnable)
    ensures r.kind == Plain
    ensures r.name == name && r.command == command && r.arguments == arguments
  {
    Runnable(Plain, name, command, arguments)
  }

  /** The logMessage texts onStarted emits; the base class emits none. */
  function StartedMessages(r: Runnable): (msgs: seq<string>)
    ensures r.kind == Plain ==> msgs == []
    ensures |msgs| <= 1
  {
    match r.kind
    case FastCutterKind => ["end"]
    case CutterKind => ["end"]
    case PreciseCutterKind => ["Precise cutter started"]
    case _ => []
  }

  /** The logMessage texts onFinished emits; the base class emits none. */
  function FinishedMessages(r: Runnable): (msgs: seq<string>)
    ensures r.kind == Plain ==> msgs == []
    ensures |msgs| <= 1
  {
    match r.kind
    case PreciseCutterKind => ["Precise cutter finished"]
    case _ => []
  }

  /** The accessors give back exactly what the object was built from. */
  lemma AccessorsReturnConstructorValues(name: string, command: string, arguments: seq<string>)
    ensures Create(name, command, arguments).name == name
    ensures Create(name, command, arguments).command == command
    ensures Create(name, command, arguments).arguments == arguments
    ensures StartedMessages(Create(name, command, arguments)) == []
    ensures FinishedMessages(Create(name, command, arguments)) == []
  {
  }
}
