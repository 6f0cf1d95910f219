# MediaPlayer core, modelled in Dafny

This project models the core of the MediaPlayer video player: its time
values, the external encoder jobs it builds (cut, reverse, merge, clean up),
the tree of processes that runs those jobs one stage after another, the
playlist cursor, the player wrappers, the controller's marking of cut ranges,
the folder cache, and the start-up helpers that read a playlist file.

One Dafny module stands for each source component:

- `Decimal`: the decimal text of numbers that `QString::arg` produces, with zero padding and its decoding.
- `VTime`: a millisecond count, its comparisons, arithmetic, `seconds()` and its `hh:mm:ss.mmm` text.
- `Types`: the cut range `Sequence`, `SequenceState`, and the ordering of a `SequenceMap`.
- `Utils`: `prettifyFileName` and `uniqueFileName`; the file system is a set of existing names.
- `Runnables`: the `Runnable` value and its hooks' log messages. `FastCutter`, `PreciseCutter`, `Cutter`, `Reverser`, `Merger` and `Cleanup` build the ffmpeg argument lists.
- `ProcessTrees`: a class holding every node of one process tree, with the QProcess state of each node and a log of everything observable.
- `Playlists`: the `Playlist` class and its `size_t` cursor.
- `Media`, `Players`, `VideoPlayers`: the two player wrappers over an abstract QMediaPlayer (state, position, duration, source).
- `MediaPlayers`: the controller, its playlist index, and marking.
- `CacheData`: the folder cache map and `readFromFile`.
- `PlaylistFiles`: `isMediaPlayerPlaylistFile` and `readFilePaths` from `main.cpp`.

Where the code builds a value step by step or keeps state, the model is imperative.
The argument builders append to a list, the process tree, playlist, players and
cache are classes, and `uniqueFileName`, the child-start loop, the Merger concat
loop, `readFromFile` and `readFilePaths` are loops with invariants. Each is
proved against a specification function whose properties are lemmas.

Dafny integers are unbounded: `qint64` and `size_t` arithmetic is exact here
except where the model writes the wrap-around out (the playlist cursor).

## Model

| member | source | states |
|---|---|---|
| Decimal.Digits | MediaPlayer/VTime.cpp:126-129 | the decimal text of a number is non-empty, all digits, and one character long exactly below 10 |
| Decimal.Padded | MediaPlayer/VTime.cpp:126-129 | `arg(n, width, 10, '0')` is all digits and exactly max(width, length of the digits) long |
| Decimal.IntTextSign | MediaPlayer/ProcessTree.cpp:59-60 | `arg(int)` text is never empty and is all digits exactly when the number is not negative |
| Decimal.ValueOfDigits | MediaPlayer/VTime.cpp:126-129 | the decimal text decodes back to the number |
| Decimal.ValueOfPadded | MediaPlayer/VTime.cpp:126-129 | zero padding does not change the number the text denotes |
| Decimal.DigitsInjective | MediaPlayer/VTime.cpp:126-129 | distinct numbers have distinct texts |
| VTime.Seconds | MediaPlayer/VTime.cpp:114-117 | `seconds()` is the count of whole seconds, truncated toward zero for negative counts too |
| VTime.ComponentsSplitCount | MediaPlayer/VTime.cpp:121-124 | toString's fields are in range (minutes and seconds below 60, milliseconds below 1000), recombine to the count, and equal the fields as computed by repeated subtraction |
| VTime.ComponentsOfGetMilliseconds | MediaPlayer/VTime.cpp:133-136 | getMilliseconds followed by the toString split gives the in-range fields back |
| VTime.ToString | MediaPlayer/VTime.cpp:119-131 | the text is at least 12 characters, with sep 10 and 7 places from the end and '.' 4 places from the end, so minutes, seconds and milliseconds have fixed widths 2, 2 and 3 after hours of at least 2 |
| VTime.ToStringLayout | MediaPlayer/VTime.cpp:119-131 | toString is at least two hour digits, sep, two minute digits, sep, two second digits, '.', three millisecond digits |
| VTime.TextDecodes | MediaPlayer/VTime.cpp:119-131 | the text form of a non-negative time decodes back to its millisecond count |
| VTime.ToStringInjective | MediaPlayer/VTime.cpp:119-131 | two non-negative times with the same text are equal |
| VTime.ComparisonsAgree | MediaPlayer/VTime.cpp:46-74 | the six comparison operators are those of the counts: `==` is equality, `!=` its negation, and the order is total and strict |
| VTime.PlusMinusInverse | MediaPlayer/VTime.cpp:76-84 | subtracting what was added, or adding what was subtracted, gives back the original time |
| VTime.TimeVar.Assign | MediaPlayer/VTime.cpp:37-44 | assignment copies the other time's count |
| VTime.TimeVar.AddAssign | MediaPlayer/VTime.cpp:91-95 | `+=` adds the other count to the stored one |
| VTime.TimeVar.SubAssign | MediaPlayer/VTime.cpp:97-101 | `-=` subtracts the other count from the stored one |
| Types.DefaultSequenceState | MediaPlayer/Types.h:21-27 | a default SequenceState is Ready, not selected, not being edited, with an empty file path |
| Types.OperationStatesAreFour | MediaPlayer/Types.h:13-19 | an OperationState is one of exactly four distinct values |
| Types.SequenceEquality | MediaPlayer/Types.h:11 | two ranges are equal exactly when their starts and their ends are equal |
| Types.SequenceLessIsStrictTotalOrder | MediaPlayer/Types.h:11 | pair ordering of ranges is lexicographic on (start, end), irreflexive, transitive and total |
| Types.IterationOrder | MediaPlayer/Types.h:29 | iterating a SequenceMap visits each key once, in strictly ascending order |
| Utils.DotNonLetters | MediaPlayer/Utils.h:16 | every character that is not an ASCII letter becomes a dot; letters stay in place |
| Utils.CollapseDots | MediaPlayer/Utils.h:17 | the result has no two consecutive dots, is no longer than the input and starts as the input does |
| Utils.CollapseDotRun | MediaPlayer/Utils.h:17 | a run of one or more dots leaves exactly one dot |
| Utils.CollapseSplitsAtNonDot | MediaPlayer/Utils.h:17 | a character other than a dot stays in place, and the dot runs on either side of it shrink independently; with CollapseDotRun this fixes the result for every input |
| Utils.PrettifyFileName | MediaPlayer/Utils.h:14-19 | a pretty name holds only lower-case letters and dots, never two dots in a row |
| Utils.PrettifyNonLetters | MediaPlayer/Utils.h:14-19 | a non-empty stretch with no ASCII letter becomes a single dot |
| Utils.PrettifySplitsAtLetter | MediaPlayer/Utils.h:14-19 | a letter is kept, lower-cased, at its place, and the text on either side is prettified independently |
| Utils.LettersSeparatedByOneDot | MediaPlayer/Utils.h:14-19 | two letters with one or more other characters between them come out lower-cased with exactly one dot between them ("a b" becomes "a.b") |
| Utils.PrettifyKeepsLetters | MediaPlayer/Utils.h:14-19 | the letters of the pretty name are the input's ASCII letters, lower-cased, in their order |
| Utils.PrettifyIdempotent | MediaPlayer/Utils.h:14-19 | prettifying a pretty name changes nothing |
| Utils.CandidateInjective | MediaPlayer/Utils.h:27 | the names tried (name, name.1, name.2, ...) are pairwise distinct |
| Utils.UniqueFileName | MediaPlayer/Utils.h:21-31 | the result does not exist; it is the name itself when that is free, and otherwise the first name.k that is free |
| Runnables.Create | MediaPlayer/Runnable.h:21-32 | a Runnable stores its name, command and arguments unchanged |
| Runnables.StartedMessages | MediaPlayer/Runnable.h:34 | the base onStarted emits nothing; each override emits at most one message |
| Runnables.FinishedMessages | MediaPlayer/Runnable.h:35 | the base onFinished emits nothing; each override emits at most one message |
| Runnables.AccessorsReturnConstructorValues | MediaPlayer/Runnable.cpp:11-44 | name(), command() and arguments() give back what the object was created with, and the base hooks are silent |
| FastCutter.Build | MediaPlayer/FastCutter.cpp:12-51 | the fast cutter runs ffmpeg under the name "Cutter" with exactly the argument list of the specification function |
| FastCutter.ArgumentsShape | MediaPlayer/FastCutter.cpp:18-50 | 18 arguments when the start is at least one second, 16 otherwise; the duration and the stream-copy tail sit at fixed places from the end |
| FastCutter.DurationIsLength | MediaPlayer/FastCutter.cpp:20 | the `-t` argument decodes to end − start |
| FastCutter.PreSeekAddsUpToStart | MediaPlayer/FastCutter.cpp:21-30 | from one second on, the input seek and the output seek add up to the start time |
| FastCutter.DirectSeekIsStart | MediaPlayer/FastCutter.cpp:39-42 | below one second, the single seek decodes to the start time |
| PreciseCutter.Build | MediaPlayer/PreciseCutter.cpp:12-44 | the precise cutter runs ffmpeg under the name "Cutter" with the re-encoding argument list |
| PreciseCutter.SameSeeksAsFastCutter | MediaPlayer/PreciseCutter.cpp:15-43 | the precise cutter's arguments have the fast cutter's seeks and duration, with the libx264/aac tail instead of the stream-copy one |
| Cutter.Build | MediaPlayer/Cutter.h:19-52 | Cutter builds the same arguments as PreciseCutter |
| Reverser.Build | MediaPlayer/Reverser.h:15-19 | the reverser runs ffmpeg under the name "Reverser" with `-i orig -vf reverse rev -y` |
| Reverser.ArgumentsShape | MediaPlayer/Reverser.cpp:10-14 | six arguments: input after `-i`, the single video filter `reverse`, output second to last, `-y` last, and no audio filter option |
| Reverser.ArgumentsDeterminePaths | MediaPlayer/Reverser.cpp:10-14 | two reversers have the same arguments exactly when they have the same input and output paths |
| Cleanup.Build | MediaPlayer/Cleanup.h:15-17 | a cleanup runs `rm` on exactly the one file path |
| Cleanup.SameAsPlainRunnable | MediaPlayer/Cleanup.h:15-17 | a cleanup is a plain Runnable named "Cleanup" with silent hooks |
| Merger.Build | MediaPlayer/Merger.h:19-39 | the concat file is the fresh name for e:/concat.txt, holds loopCount pairs of lines, and ffmpeg concatenates it into the merged file |
| Merger.ConcatLinesAlternate | MediaPlayer/Merger.h:29-33 | the concat list has 2·loopCount lines, alternating "file video" and "file reversed" |
| Merger.ArgumentsShape | MediaPlayer/Merger.h:38 | the merge command has ten arguments, reads the concat file as input, writes the merged file with -y, and the merger's onFinished emits nothing |
| ProcessTrees.Logs | MediaPlayer/ProcessTree.cpp:42 | a hook's messages become one log event each, in order |
| ProcessTrees.StartEach | MediaPlayer/ProcessTree.cpp:63-67 | starting the children in turn keeps one state per node |
| ProcessTrees.StartEachStartsEveryKidOnce | MediaPlayer/ProcessTree.cpp:63-67 | starting distinct children launches exactly the ones that were idle, once each and in order; those become Starting and every other state is as it was |
| ProcessTrees.IdleLaunchesAreKids | MediaPlayer/ProcessTree.cpp:63-67 | every launch of the child loop is a launch of one of the children |
| ProcessTrees.AddNodeKeepsShape | MediaPlayer/ProcessTree.cpp:34-38 | adding a child to a node keeps the tree shape: each child after its parent, listed once |
| ProcessTrees.ProcessTree.constructor | MediaPlayer/ProcessTree.cpp:8-16 | a new tree is one idle node with its runnable and callbacks and nothing logged |
| ProcessTrees.ProcessTree.AddChild | MediaPlayer/ProcessTree.cpp:34-38 | the new idle node is appended last to the parent's children and returned |
| ProcessTrees.ProcessTree.Start | MediaPlayer/ProcessTree.cpp:29-32 | start launches the node's command with its arguments when its process is idle and is ignored otherwise |
| ProcessTrees.ProcessTree.StartProcess | MediaPlayer/ProcessTree.cpp:29-32 | `QProcess::start` on the node: an idle process becomes Starting and its command and arguments are launched; a process already started is left as it is; every other field is unchanged |
| ProcessTrees.ProcessTree.OnProcessStarted | MediaPlayer/ProcessTree.cpp:40-51 | the runnable's onStarted messages are logged first, then "started name" goes to the start callback when one is set |
| ProcessTrees.ProcessTree.OnProcessFinished | MediaPlayer/ProcessTree.cpp:53-68 | onFinished's messages, then "finished name with exit code and status: c, s" to the finish callback when set, then every child is started in order |
| ProcessTrees.ProcessTree.StartChildren | MediaPlayer/ProcessTree.cpp:63-67 | the loop's new states and launches are those of starting each child in insertion order |
| ProcessTrees.ChildrenStartAfterParentFinishes | MediaPlayer/ProcessTree.cpp:53-68 | when only the root is started from outside, every launch of another node comes after its parent's process finished |
| Playlists.ClampIndex | MediaPlayer/Playlist.cpp:50-59 | setCurrentIndex gives 0 on an empty list, keeps an index in range, and sends any other to the last item |
| Playlists.StepsAreModular | MediaPlayer/Playlist.cpp:70-104 | on a valid cursor next is +1 and previous is −1 modulo the size |
| Playlists.NextPreviousRoundTrip | MediaPlayer/Playlist.cpp:70-104 | next then previous, and previous then next, return to the same valid cursor |
| Playlists.NextFromNpos | MediaPlayer/Playlist.cpp:79-82 | next on the initial npos cursor wraps as a size_t to the first item |
| Playlists.Playlist.constructor | MediaPlayer/Playlist.cpp:5-11 | a playlist keeps the given urls and starts its cursor at npos |
| Playlists.Playlist.Size | MediaPlayer/Playlist.cpp:13-16 | size() is the number of urls |
| Playlists.Playlist.Empty | MediaPlayer/Playlist.cpp:18-21 | empty() holds exactly when the size is 0 |
| Playlists.Playlist.PushBack | MediaPlayer/Playlist.cpp:23-31 | push_back appends at the end and leaves the cursor and the earlier items alone |
| Playlists.Playlist.Clear | MediaPlayer/Playlist.cpp:33-37 | clear empties the list and resets the cursor to 0 |
| Playlists.Playlist.SetCurrentIndex | MediaPlayer/Playlist.cpp:50-59 | the cursor becomes the clamped index and is valid afterwards |
| Playlists.Playlist.Current | MediaPlayer/Playlist.cpp:61-68 | current() is the empty url on an empty list and the item under the cursor otherwise |
| Playlists.Playlist.Next | MediaPlayer/Playlist.cpp:70-86 | next reports a move exactly when there are two items or more, then steps forward and wraps from the last to the first |
| Playlists.Playlist.Previous | MediaPlayer/Playlist.cpp:88-104 | previous reports a move exactly when there are two items or more, then steps back and wraps from the first to the last |
| Media.SeekBackwardTarget | MediaPlayer/VideoPlayer.cpp:91-99 | the backward seek target is never negative; it is 0 exactly when the position is at most the step, and position − step otherwise |
| Media.SeekForwardTarget | MediaPlayer/VideoPlayer.cpp:101-109 | the forward seek target never passes the duration; it is position + step whenever that is before the end |
| Media.BackThenForward | MediaPlayer/Player.cpp:65-83 | from a position at least a step into the video, seeking back then forward by that step returns to that same position |
| Media.ForwardThenBack | MediaPlayer/Player.cpp:65-83 | from a position at least a step before the end, seeking forward then back by that step returns to that same position |
| Players.Player.constructor | MediaPlayer/Player.cpp:8-15 | a new player is stopped at position 0 with duration 0, no source, the loaded flag clear and nothing emitted |
| Players.Player.SetVideo | MediaPlayer/Player.cpp:30-33 | setVideo changes only the source: playback and the loaded flag stay |
| Players.Player.IsPlaying | MediaPlayer/Player.cpp:45-48 | isPlaying holds exactly in the playing state |
| Players.Player.Play | MediaPlayer/Player.cpp:50-53 | play puts the player in the playing state and changes nothing else |
| Players.Player.Pause | MediaPlayer/Player.cpp:55-58 | pause puts the player in the paused state and changes nothing else |
| Players.Player.Stop | MediaPlayer/Player.cpp:60-63 | stop leaves the player stopped at position 0 |
| Players.Player.SetPosition | MediaPlayer/Player.cpp:85-88 | setPosition passes the position on unchanged |
| Players.Player.SeekBackward | MediaPlayer/Player.cpp:65-73 | the new position is the clamped backward target and nothing else changes |
| Players.Player.SeekForward | MediaPlayer/Player.cpp:75-83 | the new position is the clamped forward target and nothing else changes |
| Players.Player.OnMediaStatusChanged | MediaPlayer/Player.cpp:16-27 | the first LoadedMedia sets the flag and emits videoLoaded once; later statuses change nothing |
| Players.LoadedAtMostOnce | MediaPlayer/Player.cpp:16-33 | because setVideo never clears the flag, videoLoaded is emitted at most once over the wrapper's life |
| VideoPlayers.VideoPlayer.constructor | MediaPlayer/VideoPlayer.cpp:12-21 | a new video player is stopped at position 0 with duration 0, no source, the loaded flag clear and nothing emitted |
| VideoPlayers.VideoPlayer.IsPlaying | MediaPlayer/VideoPlayer.cpp:71-74 | isPlaying holds exactly in the playing state |
| VideoPlayers.VideoPlayer.GetPosition | MediaPlayer/VideoPlayer.cpp:66-69 | getPosition is the media position as a VTime |
| VideoPlayers.VideoPlayer.GetDuration | MediaPlayer/VideoPlayer.cpp:61-64 | getDuration is the media duration as a VTime |
| VideoPlayers.VideoPlayer.SetVideo | MediaPlayer/VideoPlayer.cpp:51-59 | setVideo stops a playing video (rewinding it), clears the loaded flag and sets the source |
| VideoPlayers.VideoPlayer.Play | MediaPlayer/VideoPlayer.cpp:76-79 | play puts the player in the playing state and changes nothing else |
| VideoPlayers.VideoPlayer.Pause | MediaPlayer/VideoPlayer.cpp:81-84 | pause puts the player in the paused state and changes nothing else |
| VideoPlayers.VideoPlayer.Stop | MediaPlayer/VideoPlayer.cpp:86-89 | stop leaves the player stopped at position 0 |
| VideoPlayers.VideoPlayer.SetPosition | MediaPlayer/VideoPlayer.cpp:123-126 | setPosition passes the millisecond count on unchanged |
| VideoPlayers.VideoPlayer.SeekBackward | MediaPlayer/VideoPlayer.cpp:91-99 | the new position is the clamped backward target and nothing else changes |
| VideoPlayers.VideoPlayer.SeekForward | MediaPlayer/VideoPlayer.cpp:101-109 | the new position is the clamped forward target and nothing else changes |
| VideoPlayers.VideoPlayer.OnMediaStatusChanged | MediaPlayer/VideoPlayer.cpp:23-48 | the first LoadedMedia since setVideo emits videoLoaded; EndOfMedia pauses at the duration and emits videoEnded; other statuses change nothing |
| VideoPlayers.LoadedAtMostOncePerVideo | MediaPlayer/VideoPlayer.cpp:23-59 | since the last setVideo, videoLoaded was emitted at most once, and exactly once when the flag is set |
| MediaPlayers.MarkStep | MediaPlayer/MediaPlayer.cpp:142-161 | the first mark appends (position, 0) and enters marking mode; the second leaves it and keeps the pending range exactly when its start is before the position |
| MediaPlayers.MarkStepKeepsWellMarked | MediaPlayer/MediaPlayer.cpp:142-161 | outside marking mode every range has start < end, and mark keeps it so |
| MediaPlayers.MarkTwice | MediaPlayer/MediaPlayer.cpp:142-161 | two marks at p1 then p2 add (p1, p2) when p1 < p2 and otherwise restore the list as it was before |
| MediaPlayers.CancelAfterMarkRestores | MediaPlayer/MediaPlayer.cpp:159-167 | cancelMark right after the first mark gives back the list as it was |
| MediaPlayers.CancelKeepsWellMarked | MediaPlayer/MediaPlayer.cpp:163-167 | cancelMark leaves marking mode with only complete ranges left |
| MediaPlayers.MediaPlayer.constructor | MediaPlayer/MediaPlayer.cpp:10-25 | a new controller has an empty playlist at index 0, no ranges, is not marking, and owns a fresh stopped player with nothing loaded |
| MediaPlayers.MediaPlayer.Mark | MediaPlayer/MediaPlayer.cpp:142-161 | mark at the player's position changes the ranges and the flag as MarkStep says and keeps them well marked |
| MediaPlayers.MediaPlayer.CancelMark | MediaPlayer/MediaPlayer.cpp:163-167 | cancelMark leaves marking mode and removes the last range, pending or not |
| MediaPlayers.MediaPlayer.IsPlaying | MediaPlayer/MediaPlayer.cpp:52-55 | isPlaying is the player's playing state |
| MediaPlayers.MediaPlayer.Play | MediaPlayer/MediaPlayer.cpp:57-61 | play makes the player play and keeps its position, source, duration, loaded flag and signal log |
| MediaPlayers.MediaPlayer.Pause | MediaPlayer/MediaPlayer.cpp:63-67 | pause makes the player pause and keeps its position, source, duration, loaded flag and signal log |
| MediaPlayers.MediaPlayer.Stop | MediaPlayer/MediaPlayer.cpp:69-73 | stop leaves the player stopped at position 0 and keeps its source, duration, loaded flag and signal log |
| MediaPlayers.MediaPlayer.StartStop | MediaPlayer/MediaPlayer.cpp:130-140 | startStop pauses a playing player and plays one that is not playing; position, source, duration, loaded flag and signal log stay |
| MediaPlayers.MediaPlayer.SetPlaylist | MediaPlayer/MediaPlayer.cpp:30-35 | setPlaylist makes the first video current and hands it to the player; the ranges, the marking flag and the player's state, position, duration, loaded flag and signal log stay |
| MediaPlayers.MediaPlayer.Next | MediaPlayer/MediaPlayer.cpp:75-93 | next moves to (i + 1) mod size, loads that video at position 0, and plays exactly when the player was playing; the ranges, the marking flag, the duration, the loaded flag and the signal log stay |
| MediaPlayers.MediaPlayer.Previous | MediaPlayer/MediaPlayer.cpp:95-113 | previous moves to (i + size − 1) mod size, loads that video at position 0, and plays exactly when the player was playing; the ranges, the marking flag, the duration, the loaded flag and the signal log stay |
| MediaPlayers.MediaPlayer.SwitchVideo | MediaPlayer/MediaPlayer.cpp:86-92 | the shared tail of next and previous: the player ends at position 0 on the current video, playing exactly when it was playing and stopped otherwise; duration, loaded flag and signal log stay |
| MediaPlayers.NextPreviousInverse | MediaPlayer/MediaPlayer.cpp:77-104 | next then previous, and previous then next, return to the same video |
| CacheData.Lookup | MediaPlayer/CacheData.cpp:11-16 | get finds an entry exactly for a folder in the map, and it is that folder's entry |
| CacheData.SetThenGet | MediaPlayer/CacheData.cpp:7-16 | after set(k, t, f), get(k) is {t, f}, and every other folder reads as before |
| CacheData.MapOf | MediaPlayer/CacheData.cpp:30-40 | the map built from a cache file has exactly the folders its members name |
| CacheData.MapOfLastWins | MediaPlayer/CacheData.cpp:32-40 | each folder's entry is built from the last member naming it |
| CacheData.Cache.constructor | MediaPlayer/CacheData.h:34 | a new cache holds no folders |
| CacheData.Cache.Set | MediaPlayer/CacheData.cpp:7-9 | set inserts or replaces the folder's entry and leaves every other folder alone |
| CacheData.Cache.Get | MediaPlayer/CacheData.cpp:11-16 | get returns the folder's entry when present and null otherwise |
| CacheData.Cache.ReadFromFile | MediaPlayer/CacheData.cpp:18-42 | false with the map untouched when the file cannot be opened or is not a JSON object; otherwise true and the map is replaced by the members' map |
| PlaylistFiles.IsPlaylistFileIff | MediaPlayer/main.cpp:92-95 | a path is a playlist file exactly when it ends with '.' and three characters reading "mpl" in any case |
| PlaylistFiles.UnquoteCases | MediaPlayer/main.cpp:105-107 | a line quoted at both ends loses exactly those quotes, a line quoted at one end only is kept, a lone '"' becomes empty |
| PlaylistFiles.EntriesOfLines | MediaPlayer/main.cpp:103-110 | one entry per non-empty line, each the unquoted form of such a line |
| PlaylistFiles.EntryOfEachLine | MediaPlayer/main.cpp:103-110 | each non-empty line gives its own entry, at the position equal to the number of non-empty lines before it, so entries and non-empty lines correspond one to one and in order |
| PlaylistFiles.Shuffle | MediaPlayer/main.cpp:114-116 | the shuffle is a permutation of the list |
| PlaylistFiles.ReadFilePaths | MediaPlayer/main.cpp:97-119 | the playlist is a permutation of the entries of the non-empty lines |

## Left out

- VTime: `qint64` overflow is not modelled; counts are unbounded integers.
- VTime.ToString: only non-negative times have a text form here, because C++ truncating `/` differs from Dafny's on negative counts.
- VTime `operator*` and `*=` scale by a `double`; floating point is not modelled.
- The `VTime(QString)` constructor is not modelled. It reads `parts[3]` after checking that there are exactly three parts, with a no-op where it means to bail out, so it always reads out of range.
- `utils::Random` and `utils::lerp` are not modelled: they use randomness and floating point.
- Utils.UniqueFileName: the file system is the `existing` set passed in, so `QFile::exists` is a set membership test.
- Utils.PrettifyFileName: `toLower` is applied to ASCII letters and dots only, which is all the earlier replacements leave.
- PlaylistFiles.IsPlaylistFileIff: `toLower` is modelled on A to Z only. No other character lower-cases to 'm', 'p' or 'l', so the comparison with "mpl" is unaffected.
- PlaylistFiles.FileName: the file name is what follows the last '/'. Windows back-slash separators are not modelled.
- PlaylistFiles.Shuffle: `std::shuffle`'s draws are a parameter, so only the permutation is proved, not the distribution.
- `readFilePaths` reads through `std::ifstream`. Its lines are a parameter, and a file that cannot be opened gives no lines.
- CacheData.Cache.ReadFromFile: opening the file, JSON parsing and `QDateTime::fromString` are parameters (`Document`, `parseIsoDate`). Members whose values are not objects or arrays arrive already coerced to empty values.
- `CacheData::writeToFile` is not modelled: it is JSON encoding and file output.
- Runnables.Create: the `unique_ptr` allocation of `create` is not modelled; a Runnable is a value.
- Runnable's `logMessage` signal is a log event of the node that runs the Runnable.
- `FastCutter::onFinished` is declared in FastCutter.h but has no body anywhere. The model gives the FastCutter the base class's silent onFinished.
- PreciseCutter.h declares no `onStarted` or `onFinished` override, yet PreciseCutter.cpp:46-54 defines both, so the class does not compile as written. Runnables.StartedMessages and Runnables.FinishedMessages follow the .cpp and give the precise cutter its "Precise cutter started" and "Precise cutter finished" messages.
- Reverser.h and Reverser.cpp both define the Reverser constructor and `create`. The two definitions are identical, so one model serves both.
- Merger.Build: `getNewFileName` is a parameter, since its definition is not part of this model. The `std::ofstream` write of the concat file is returned as its lines.
- The Merger's disabled audio-replacing branch (`if (true) ... else`) is dead code and is not modelled.
- ProcessTrees: QProcess is reduced to a per-node state. `started` and `finished` are delivered as method calls, and concurrency is not modelled. A crash is modelled only as the exit status passed to the finish handler. A process that fails to start emits no `finished`, so its node stays `Starting` and its children are never started; the model has no failed-start event.
- ProcessTrees: the destructor's `kill` and `waitForFinished` are not modelled.
- ProcessTrees: the `qDebug` output of onProcessStarted is not modelled.
- ProcessTrees: the callbacks are recorded as log events, not called as functions.
- ProcessTrees.ChildrenStartAfterParentFinishes: the claim covers trees whose only externally started node is the root. Starting an inner node by hand is allowed but falls outside the claim.
- Playlists.Playlist.Current: a valid cursor is required, because a fresh non-empty playlist's npos cursor indexes out of range.
- Playlist.h declares `next` and `previous` with a `randomize` parameter that the Playlist.cpp bodies lack. The bodies are modelled.
- Playlists: the `GetVideos` and `currentIndex` accessors are plain field reads.
- Media: the QMediaPlayer back end is abstracted. setPosition stores the value without clamping, stop rewinds to 0, and setSource changes only the source.
- Media: the media status only changes when the handler is called.
- Media: the position and duration signals forwarded to the View, the audio output, volume, mute and playback rate are not modelled.
- MediaPlayers.MediaPlayer: the View calls (button texts, info line, added sequence) and `onMediaLoaded`, which reads metadata and settings, are not modelled.
- MediaPlayers.MediaPlayer.Next and MediaPlayers.MediaPlayer.Previous: `mCurrentVideo` is a `size_t`. The playlist must be non-empty with a valid index, because otherwise the source indexes the playlist out of range. On an empty playlist, previous sets the index to `size() - 1`, which wraps to the largest `size_t`.
- MediaPlayers.MediaPlayer: MediaPlayer.h:54 declares `mPlayer` as a `VideoPlayer`, but the constructor at MediaPlayer.cpp:13 builds a `Player`. The model follows the constructor and drives a `Players.Player`.
- MediaPlayers.MediaPlayer.CancelMark: the list must be non-empty, because `pop_back` on an empty vector is undefined.
- MediaPlayers.MediaPlayer.SetPlaylist: the playlist must be non-empty, because the source reads `mPlaylist[0]`.
- MediaPlayers.MediaPlayer.Mark: uses `Player::position()`; `quint64` is modelled as an unbounded integer.
- OperationState values are declared but no code changes them.
- Reverser passes only `-vf reverse`; the audio is not reversed.
- ProcessTrees.Text: runnable names are taken to hold no `%0`–`%99` markers. `QString::arg` in ProcessTree.cpp:59-60 would substitute the exit code or status into such a marker in the name, while the model inserts the name verbatim.
- The UI (View, MainWindow, Slider, VideoWidget, CursorHider) is not modelled, nor are the FFmpeg and Filter classes, which hold no behaviour, nor `main`'s argument and settings handling.
