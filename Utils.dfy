// File-name helpers (MediaPlayer/Utils.h): prettifyFileName rewrites a name to
// lower-case ASCII letters separated by single dots; uniqueFileName finds the
// first name, the given one or the given one with a ".k" suffix, that no file
// has yet. File existence is the finite set `existing`.

module Utils {
  import Decimal

  predicate IsAsciiLetter(c: char) {
    'A' <= c <= 'Z' || 'a' <= c <= 'z'
  }

  predicate IsLowerOrDot(c: char) {
    'a' <= c <= 'z' || c == '.'
  }

  /** No two consecutive dots. */
  predicate NoDoubleDot(s: string) {
    forall i :: 0 <= i < |s| - 1 ==> !(s[i] == '.' && s[i + 1] == '.')
  }

  function LowerChar(c: char): char {
    if 'A' <= c <= 'Z' then (c as int - 'A' as int + 'a' as int) as char else c
  }

  /** The ASCII letters of s, in order. */
  function Letters(s: string): string
    decreases |s|
  {
    if s == [] then []
    else (if IsAsciiLetter(s[0]) then [s[0]] else []) + Letters(s[1..])
  }

  /** replace(QRegularExpression("[^A-Za-z]"), "."): every other character becomes a dot. */
  function DotNonLetters(s: string): (r: string)
    ensures |r| == |s|
    ensures forall i :: 0 <= i < |s| ==> r[i] == if IsAsciiLetter(s[i]) then s[i] else '.'
  {
    seq(|s|, i requires 0 <= i < |s| => if IsAsciiLetter(s[i]) then s[i] else '.')
  }

  /** replace(QRegularExpression("\\.{2,}"), "."): every run of dots shrinks to one dot. */
  function CollapseDots(s: string): (r: string)
    ensures |r| <= |s|
    ensures s != [] ==> r != [] && r[0] == s[0]
    ensures NoDoubleDot(r)
    ensures forall i :: 0 <= i < |r| ==> r[i] in s
    decreases |s|
  {
    if |s| < 2 then s
    else if s[0] == '.' && s[1] == '.' then CollapseDots(s[1..])
    else
      var rest := CollapseDots(s[1..]);
      var r := [s[0]] + rest;
      assert forall i :: 1 <= i < |r| ==> r[i] == rest[i - 1];
      r
  }

  /** toLower(), on the letters and dots that are left by then. */
  function ToLower(s: string): (r: string)
    ensures |r| == |s|
    ensures forall i :: 0 <= i < |s| ==> r[i] == LowerChar(s[i])
  {
    seq(|s|, i requires 0 <= i < |s| => LowerChar(s[i]))
  }

  /** prettifyFileName */
  function PrettifyFileName(fileName: string): (r: string)
    ensures forall i :: 0 <= i < |r| ==> IsLowerOrDot(r[i])
    ensures NoDoubleDot(r)
  {
    var dotted := DotNonLetters(fileName);
    var collapsed := CollapseDots(dotted);
    assert forall i :: 0 <= i < |collapsed| ==> IsAsciiLetter(collapsed[i]) || collapsed[i] == '.';
    ToLower(collapsed)
  }

  lemma {:induction false} LettersOfDotted(s: string)
    ensures Letters(DotNonLetters(s)) == Letters(s)
    decreases |s|
  {
    if s != [] {
      assert DotNonLetters(s)[1..] == DotNonLetters(s[1..]);
      LettersOfDotted(s[1..]);
    }
  }

  lemma {:induction false} LettersOfCollapsed(s: string)
    ensures Letters(CollapseDots(s)) == Letters(s)
    decreases |s|
  {
    if |s| >= 2 {
      LettersOfCollapsed(s[1..]);
      if !(s[0] == '.' && s[1] == '.') {
        assert ([s[0]] + CollapseDots(s[1..]))[1..] == CollapseDots(s[1..]);
      }
    }
  }

  lemma {:induction false} LettersOfLowered(s: string)
    ensures Letters(ToLower(s)) == ToLower(Letters(s))
    decreases |s|
  {
    if s != [] {
      assert ToLower(s)[1..] == ToLower(s[1..]);
      LettersOfLowered(s[1..]);
      assert ToLower(Letters(s)) == ToLower(if IsAsciiLetter(s[0]) then [s[0]] else []) + ToLower(Letters(s[1..]));
    }
  }

  /** The letters of the pretty name are the input's ASCII letters, lower-cased, in order. */
  lemma PrettifyKeepsLetters(fileName: string)
    ensures Letters(PrettifyFileName(fileName)) == ToLower(Letters(fileName))
  {
    var dotted := DotNonLetters(fileName);
    LettersOfDotted(fileName);
    LettersOfCollapsed(dotted);
    LettersOfLowered(CollapseDots(dotted));
  }

  lemma {:induction false} CollapseWithoutDoubleDot(s: string)
    requires NoDoubleDot(s)
    ensures CollapseDots(s) == s
    decreases |s|
  {
    if |s| >= 2 {
      assert NoDoubleDot(s[1..]);
      CollapseWithoutDoubleDot(s[1..]);
    }
  }

  /** Prettifying a pretty name changes nothing. */
  lemma PrettifyIdempotent(fileName: string)
    ensures PrettifyFileName(PrettifyFileName(fileName)) == PrettifyFileName(fileName)
  {
    var p := PrettifyFileName(fileName);
    assert DotNonLetters(p) == p;
    CollapseWithoutDoubleDot(p);
    assert ToLower(p) == p;
  }

  /** A run of n dots. */
  function Dots(n: nat): (r: string)
    ensures |r| == n && forall i :: 0 <= i < n ==> r[i] == '.'
  {
    seq(n, _ => '.')
  }

  /** A run of one or more dots leaves exactly one dot. */
  lemma {:induction false} CollapseDotRun(n: nat)
    requires n >= 1
    ensures CollapseDots(Dots(n)) == "."
  {
    if n >= 2 {
      assert Dots(n)[1..] == Dots(n - 1);
      CollapseDotRun(n - 1);
    }
  }

  lemma Regroup<T>(x: T, left: seq<T>, c: T, right: seq<T>)
    ensures [x] + (left + [c] + right) == ([x] + left) + [c] + right
  {
  }

  /** One step of the collapse on a character put in front of a non-empty text. */
  lemma CollapseCons(x: char, t: string)
    requires t != []
    ensures CollapseDots([x] + t) == if x == '.' && t[0] == '.' then CollapseDots(t) else [x] + CollapseDots(t)
  {
    assert ([x] + t)[1..] == t;
  }

  /**
   * A character other than a dot is kept in place and splits the work:
   * the dot runs on either side of it shrink independently.
   */
  lemma {:induction false} CollapseSplitsAtNonDot(a: string, c: char, b: string)
    requires c != '.'
    ensures CollapseDots(a + [c] + b) == CollapseDots(a) + [c] + CollapseDots(b)
    decreases |a|
  {
    if a == [] {
      assert a + [c] + b == [c] + b;
      if b != [] {
        CollapseCons(c, b);
      }
    } else {
      var t := a[1..] + [c] + b;
      assert a + [c] + b == [a[0]] + t;
      CollapseSplitsAtNonDot(a[1..], c, b);
      CollapseCons(a[0], t);
      var left, right := CollapseDots(a[1..]), CollapseDots(b);
      assert CollapseDots(t) == left + [c] + right;
      if |a| == 1 {
        assert a[1..] == [] && t[0] == c && left == [];
        Regroup(a[0], left, c, right);
      } else {
        assert a == [a[0]] + a[1..] && t[0] == a[1];
        CollapseCons(a[0], a[1..]);
        if !(a[0] == '.' && a[1] == '.') {
          Regroup(a[0], left, c, right);
        }
      }
    }
  }

  /** The letter-free stretches of a name: each becomes the dot that separates its neighbours. */
  predicate NoLetters(w: string) {
    forall i :: 0 <= i < |w| ==> !IsAsciiLetter(w[i])
  }

  /** A non-empty stretch without letters becomes a single dot. */
  lemma PrettifyNonLetters(w: string)
    requires w != [] && NoLetters(w)
    ensures PrettifyFileName(w) == "."
  {
    assert DotNonLetters(w) == Dots(|w|);
    CollapseDotRun(|w|);
  }

  /** A letter is kept, lower-cased, in place, and the parts of the name on either side are prettified independently. */
  lemma PrettifySplitsAtLetter(a: string, x: char, b: string)
    requires IsAsciiLetter(x)
    ensures PrettifyFileName(a + [x] + b) == PrettifyFileName(a) + [LowerChar(x)] + PrettifyFileName(b)
  {
    assert DotNonLetters(a + [x] + b) == DotNonLetters(a) + [x] + DotNonLetters(b);
    CollapseSplitsAtNonDot(DotNonLetters(a), x, DotNonLetters(b));
    var ca, cb := CollapseDots(DotNonLetters(a)), CollapseDots(DotNonLetters(b));
    assert ToLower(ca + [x] + cb) == ToLower(ca) + [LowerChar(x)] + ToLower(cb);
  }

  /**
   * Two letters with one or more other characters between them come out
   * lower-cased with exactly one dot between them; so "a b" becomes "a.b".
   */
  lemma LettersSeparatedByOneDot(a: string, x: char, w: string, y: char, b: string)
    requires IsAsciiLetter(x) && IsAsciiLetter(y)
    requires w != [] && NoLetters(w)
    ensures PrettifyFileName(a + [x] + w + [y] + b) ==
      PrettifyFileName(a) + [LowerChar(x), '.', LowerChar(y)] + PrettifyFileName(b)
  {
    assert a + [x] + w + [y] + b == a + [x] + (w + [y] + b);
    PrettifySplitsAtLetter(a, x, w + [y] + b);
    PrettifySplitsAtLetter(w, y, b);
    PrettifyNonLetters(w);
  }

  /** The name tried after k collisions: the original, then name.1, name.2, ... */
  function Candidate(fileName: string, k: nat): string {
    if k == 0 then fileName else fileName + "." + Decimal.Digits(k)
  }

  lemma CandidateInjective(fileName: string, j: nat, k: nat)
    requires Candidate(fileName, j) == Candidate(fileName, k)
    ensures j == k
  {
    if j != 0 && k != 0 {
      var n := |fileName| + 1;
      assert Candidate(fileName, j)[n..] == Decimal.Digits(j);
      assert Candidate(fileName, k)[n..] == Decimal.Digits(k);
      Decimal.DigitsInjective(j, k);
    }
  }

  /** The names tried before the k-th one. */
  ghost function Tried(fileName: string, k: nat): set<string> {
    if k == 0 then {} else Tried(fileName, k - 1) + {Candidate(fileName, k - 1)}
  }

  lemma {:induction false} NotYetTried(fileName: string, n: nat, k: nat)
    requires n <= k
    ensures Candidate(fileName, k) !in Tried(fileName, n)
  {
    if n > 0 {
      NotYetTried(fileName, n - 1, k);
      if Candidate(fileName, k) == Candidate(fileName, n - 1) {
        CandidateInjective(fileName, k, n - 1);
      }
    }
  }

  /** uniqueFileName */
  method UniqueFileName(fileName: string, existing: set<string>) returns (r: string)
    ensures r !in existing
    ensures fileName !in existing ==> r == fileName
    ensures fileName in existing ==>
      exists k :: 1 <= k && r == fileName + "." + Decimal.Digits(k) &&
        forall j :: 1 <= j < k ==> Candidate(fileName, j) in existing
  {
    var idx: nat := 0;
    r := fileName;
    while r in existing
      invariant r == Candidate(fileName, idx)
      invariant forall j :: 0 <= j < idx ==> Candidate(fileName, j) in existing
      invariant Tried(fileName, idx) <= existing
      decreases |existing - Tried(fileName, idx)|
    {
      NotYetTried(fileName, idx, idx);
      assert existing - Tried(fileName, idx + 1) == (existing - Tried(fileName, idx)) - {r};
      idx := idx + 1;
      r := fileName + "." + Decimal.Digits(idx);
    }
    if fileName in existing {
      assert idx != 0;
      assert r == fileName + "." + Decimal.Digits(idx);
    }
  }
}
