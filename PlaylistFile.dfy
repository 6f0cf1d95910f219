// The start-up helpers of MediaPlayer/main.cpp: recognising a playlist file
// by its ".mpl" suffix, and turning the lines of such a file into the list
// of videos (empty lines skipped, one pair of surrounding quotes stripped),
// which is then shuffled.

module PlaylistFiles {

  /** The index of the last c in s, or -1 when there is none. */
  function LastIndex(s: string, c: char): (r: int)
    ensures -1 <= r < |s|
    ensures r >= 0 ==> s[r] == c
    ensures forall j :: r < j < |s| ==> s[j] != c
  {
    if s == [] then -1
    else if s[|s| - 1] == c then |s| - 1
    else LastIndex(s[..|s| - 1], c)
  }

  /** QFileInfo::fileName: what follows the last '/'. */
  function FileName(path: string): (r: string)
    ensures '/' !in r
    ensures |r| <= |path| && path[|path| - |r|..] == r
  {
    path[LastIndex(path, '/') + 1..]
  }

  /** QFileInfo::suffix: what follows the last '.' of the file name, or "" when it has none. */
  function Suffix(name: string): (r: string)
    ensures '.' !in r
  {
    var k := LastIndex(name, '.');
    if k < 0 then "" else name[k + 1..]
  }

  function LowerChar(c: char): char {
    if 'A' <= c <= 'Z' then (c as int + 32) as char else c
  }

  /** QString::toLower, on the letters A to Z. */
  function Lower(s: string): (r: string)
    ensures |r| == |s|
  {
    seq(|s|, i requires 0 <= i < |s| => LowerChar(s[i]))
  }

  /** isMediaPlayerPlaylistFile */
  function IsPlaylistFile(path: string): bool {
    Lower(Suffix(FileName(path))) == "mpl"
  }

  /**
   * A path names a playlist file exactly when it ends with '.' and three
   * characters that read "mpl" in any letter case.
   */
  lemma IsPlaylistFileIff(path: string)
    ensures IsPlaylistFile(path) <==>
      |path| >= 4 && path[|path| - 4] == '.' && Lower(path[|path| - 3..]) == "mpl"
  {
    var name := FileName(path);
    if IsPlaylistFile(path) {
      var k := LastIndex(name, '.');
      assert Lower(Suffix(name))[0] == 'm';
      assert 0 <= k && name[k + 1..] == Suffix(name);
      assert |name| == k + 4;
      assert path[|path| - 4] == name[k];
      assert path[|path| - 3..] == name[k + 1..];
    }
    if |path| >= 4 && path[|path| - 4] == '.' && Lower(path[|path| - 3..]) == "mpl" {
      var tail := path[|path| - 3..];
      forall k | 0 <= k < 3
        ensures tail[k] != '/' && tail[k] != '.'
      {
        assert LowerChar(tail[k]) == "mpl"[k];
      }
      var s := LastIndex(path, '/');
      assert s < |path| - 4;
      assert name == path[s + 1..];
      assert name[|name| - 4] == '.';
      var k := LastIndex(name, '.');
      assert k == |name| - 4;
      assert Suffix(name) == tail;
    }
  }

  /** The quote-stripping of one non-empty line: a line that starts and ends with '"' loses those two characters. */
  function Unquote(line: string): (r: string)
    requires line != []
  {
    if line[0] == '"' && line[|line| - 1] == '"' then
      (if |line| == 1 then "" else line[1..|line| - 1])
    else line
  }

  /** Inner quotes are kept, a quote at only one end keeps the line as it is, and a lone '"' becomes the empty path. */
  lemma UnquoteCases(line: string)
    requires line != []
    ensures |line| >= 2 && line[0] == '"' && line[|line| - 1] == '"' ==>
      Unquote(line) == line[1..|line| - 1] && |Unquote(line)| == |line| - 2
    ensures !(line[0] == '"' && line[|line| - 1] == '"') ==> Unquote(line) == line
    ensures line == "\"" ==> Unquote(line) == ""
    ensures line[0] == '"' && line[|line| - 1] == '"' ==> "\"" + Unquote(line) + "\"" == line || line == "\""
  {
  }

  /** The entries the non-empty lines give, in file order. */
  function Entries(lines: seq<string>): seq<string> {
    if lines == [] then []
    else
      var line := lines[|lines| - 1];
      Entries(lines[..|lines| - 1]) + (if line == [] then [] else [Unquote(line)])
  }

  /** One entry per non-empty line, each the unquoted form of such a line. */
  lemma {:induction false} EntriesOfLines(lines: seq<string>)
    ensures forall e :: e in Entries(lines) ==> exists line :: line in lines && line != [] && Unquote(line) == e
    ensures |Entries(lines)| == |lines| - |set i | 0 <= i < |lines| && lines[i] == []|
  {
    if lines != [] {
      var init := lines[..|lines| - 1];
      EntriesOfLines(init);
      var last := lines[|lines| - 1];
      assert forall line :: line in init ==> line in lines;
      var empties := set i | 0 <= i < |lines| && lines[i] == [];
      var initEmpties := set i | 0 <= i < |init| && init[i] == [];
      if last == [] {
        assert empties == initEmpties + {|lines| - 1};
      } else {
        assert empties == initEmpties;
      }
    }
  }

  /** How many of the lines are not empty. */
  function NonEmptyCount(lines: seq<string>): nat {
    if lines == [] then 0
    else NonEmptyCount(lines[..|lines| - 1]) + (if lines[|lines| - 1] == [] then 0 else 1)
  }

  /**
   * Every non-empty line gives its own entry: the one at the position equal
   * to the number of non-empty lines before it. With one entry per non-empty
   * line in all, entries and non-empty lines correspond one to one, in order.
   */
  lemma {:induction false} EntryOfEachLine(lines: seq<string>)
    ensures |Entries(lines)| == NonEmptyCount(lines)
    ensures forall i :: 0 <= i < |lines| && lines[i] != [] ==>
      NonEmptyCount(lines[..i]) < |Entries(lines)| && Entries(lines)[NonEmptyCount(lines[..i])] == Unquote(lines[i])
  {
    if lines != [] {
      var n := |lines| - 1;
      var init := lines[..n];
      EntryOfEachLine(init);
      forall i | 0 <= i < |lines| && lines[i] != []
        ensures NonEmptyCount(lines[..i]) < |Entries(lines)| && Entries(lines)[NonEmptyCount(lines[..i])] == Unquote(lines[i])
      {
        if i < n {
          assert lines[..i] == init[..i] && lines[i] == init[i];
        } else {
          assert lines[..i] == init;
        }
      }
    }
  }

  /** Exchange of two positions, as std::swap inside std::shuffle. */
  function Swap(s: seq<string>, i: nat, j: nat): (r: seq<string>)
    requires i < |s| && j < |s|
    ensures |r| == |s| && multiset(r) == multiset(s)
  {
    s[i := s[j]][j := s[i]]
  }

  /**
   * std::shuffle with the generator's draws as a parameter: position i, from
   * the last down to 1, is exchanged with one of the positions 0..i.
   */
  method Shuffle(s: seq<string>, draws: seq<nat>) returns (r: seq<string>)
    ensures |r| == |s| && multiset(r) == multiset(s)
  {
    r := s;
    var i := |r|;
    while i > 1
      invariant 0 <= i <= |r|
      invariant |r| == |s| && multiset(r) == multiset(s)
    {
      i := i - 1;
      var j := if i < |draws| then draws[i] % (i + 1) else i;
      r := Swap(r, i, j);
    }
  }

  /**
   * readFilePaths over the lines the file gives (none when it cannot be
   * opened): every non-empty line, unquoted, then shuffled.
   */
  method ReadFilePaths(lines: seq<string>, draws: seq<nat>) returns (playlist: seq<string>)
    ensures multiset(playlist) == multiset(Entries(lines))
  {
    var collected: seq<string> := [];
    var n := 0;
    while n < |lines|
      invariant 0 <= n <= |lines|
      invariant collected == Entries(lines[..n])
    {
      assert lines[..n + 1][..n] == lines[..n];
      var line := lines[n];
      if line != [] {
        if line[0] == '"' && line[|line| - 1] == '"' {
          line := if |line| == 1 then "" else line[1..|line| - 1];
        }
        collected := collected + [line];
      }
      n := n + 1;
    }
    assert lines[..n] == lines;
    playlist := Shuffle(collected, draws);
  }
}
