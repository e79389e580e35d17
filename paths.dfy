/** The string side of the file helpers the core calls: Apache commons-io
    `FilenameUtils.getBaseName` (used by `RackNode.getName`) and Java's
    `String.replace(CharSequence, CharSequence)` (used by `TrackSong.getFileName`). */
module Paths {

  /** Both separators `FilenameUtils` accepts, Unix and Windows. */
  const Separators: set<char> := {'/', '\\'}

  /** The index of the last character of `s` that is in `cs`, or -1 if there is none
      (`String.lastIndexOf`). */
  function LastIndexIn(s: string, cs: set<char>): (r: int)
    ensures -1 <= r < |s|
    ensures r >= 0 ==> s[r] in cs
    ensures forall j :: r < j < |s| ==> s[j] !in cs
    decreases |s|
  {
    if s == [] then -1
    else if s[|s| - 1] in cs then |s| - 1
    else LastIndexIn(s[..|s| - 1], cs)
  }

  /** `FilenameUtils.getName`: what follows the last separator. */
  function FileName(path: string): (r: string)
    ensures |r| <= |path| && r == path[|path| - |r|..]
    ensures forall j :: 0 <= j < |r| ==> r[j] !in Separators
    ensures |r| < |path| ==> path[|path| - |r| - 1] in Separators
  {
    path[LastIndexIn(path, Separators) + 1..]
  }

  /** `FilenameUtils.removeExtension`: a name cut at its last dot, if the dot comes
      after the last separator. */
  function RemoveExtension(name: string): (r: string)
    ensures |r| <= |name| && r == name[..|r|]
    ensures |r| < |name| ==> name[|r|] == '.' && forall j :: |r| < j < |name| ==> name[j] != '.' && name[j] !in Separators
    ensures |r| < |name| <==> exists j :: 0 <= j < |name| && name[j] == '.' && forall k :: j < k < |name| ==> name[k] !in Separators
  {
    LastDotAfterSeparators(name);
    var dot := LastIndexIn(name, {'.'});
    if dot == -1 || LastIndexIn(name, Separators) > dot then name else name[..dot]
  }

  /** A name has a dot with no separator after it exactly when its last dot comes after
      its last separator. */
  lemma LastDotAfterSeparators(name: string)
    ensures (exists j :: 0 <= j < |name| && name[j] == '.' && forall k :: j < k < |name| ==> name[k] !in Separators) <==>
      LastIndexIn(name, {'.'}) != -1 && LastIndexIn(name, Separators) < LastIndexIn(name, {'.'})
  {
    var dot, sep := LastIndexIn(name, {'.'}), LastIndexIn(name, Separators);
    if exists j :: 0 <= j < |name| && name[j] == '.' && forall k :: j < k < |name| ==> name[k] !in Separators {
      var j :| 0 <= j < |name| && name[j] == '.' && forall k :: j < k < |name| ==> name[k] !in Separators;
      assert name[j] in {'.'};
      assert j <= dot;
      assert name[dot] == '.';
    }
    if dot != -1 && sep < dot {
      assert name[dot] in {'.'};
    }
  }

  /** `FilenameUtils.getBaseName`. */
  function BaseName(path: string): (r: string)
    ensures forall j :: 0 <= j < |r| ==> r[j] !in Separators
    ensures |r| <= |FileName(path)| && r == FileName(path)[..|r|]
  {
    RemoveExtension(FileName(path))
  }

  /** The last index is the largest one: past a suffix free of `cs` it is the last
      index of the prefix, and inside a suffix holding a member of `cs` it is shifted
      by the prefix length. */
  lemma {:induction false} LastIndexInAppend(a: string, b: string, cs: set<char>)
    ensures (forall j :: 0 <= j < |b| ==> b[j] !in cs) ==> LastIndexIn(a + b, cs) == LastIndexIn(a, cs)
    ensures (exists j :: 0 <= j < |b| && b[j] in cs) ==> LastIndexIn(a + b, cs) == |a| + LastIndexIn(b, cs)
    decreases |b|
  {
    if b != [] {
      var ab := a + b;
      assert ab[..|ab| - 1] == a + b[..|b| - 1];
      LastIndexInAppend(a, b[..|b| - 1], cs);
      if b[|b| - 1] !in cs {
        assert forall j :: 0 <= j < |b| - 1 ==> b[..|b| - 1][j] == b[j];
        if exists j :: 0 <= j < |b| && b[j] in cs {
          var j :| 0 <= j < |b| && b[j] in cs;
          assert b[..|b| - 1][j] in cs;
        }
      }
    } else {
      assert a + b == a;
    }
  }

  /** The name of a song file is recovered from its full path: the directory and the
      extension are cut off. */
  lemma BaseNameOfPath(dir: string, base: string, ext: string)
    requires forall j :: 0 <= j < |base| ==> base[j] !in Separators && base[j] != '.'
    requires forall j :: 0 <= j < |ext| ==> ext[j] !in Separators && ext[j] != '.'
    ensures BaseName(dir + "/" + base + "." + ext) == base
  {
    var tail := base + "." + ext;
    assert forall j :: 0 <= j < |tail| ==> tail[j] !in Separators by {
      forall j | 0 <= j < |tail| ensures tail[j] !in Separators {
        if j < |base| { assert tail[j] == base[j]; }
        else if j > |base| { assert tail[j] == ext[j - |base| - 1]; }
      }
    }
    FileNameAfterSeparator(dir, tail);
    ExtensionCut(base, ext);
    assert dir + "/" + base + "." + ext == dir + "/" + tail;
  }

  /** What follows a separator and holds none is the file name. */
  lemma FileNameAfterSeparator(dir: string, tail: string)
    requires forall j :: 0 <= j < |tail| ==> tail[j] !in Separators
    ensures FileName(dir + "/" + tail) == tail
  {
    var path := dir + "/" + tail;
    LastIndexInAppend(dir + "/", tail, Separators);
    LastIndexInAppend(dir, "/", Separators);
    assert ("/")[0] in Separators;
    assert LastIndexIn(path, Separators) == |dir|;
    assert path[|dir| + 1..] == tail;
  }

  /** A name without separators and dots, a dot and an extension without them lose
      the dot and the extension. */
  lemma ExtensionCut(base: string, ext: string)
    requires forall j :: 0 <= j < |base| ==> base[j] !in Separators && base[j] != '.'
    requires forall j :: 0 <= j < |ext| ==> ext[j] !in Separators && ext[j] != '.'
    ensures RemoveExtension(base + "." + ext) == base
  {
    var tail := base + "." + ext;
    assert forall j :: 0 <= j < |tail| ==> tail[j] !in Separators by {
      forall j | 0 <= j < |tail| ensures tail[j] !in Separators {
        if j < |base| { assert tail[j] == base[j]; }
        else if j > |base| { assert tail[j] == ext[j - |base| - 1]; }
      }
    }
    LastIndexInAppend(base + ".", ext, {'.'});
    LastIndexInAppend(base, ".", {'.'});
    assert (".")[0] in {'.'};
    assert LastIndexIn(tail, {'.'}) == |base|;
    assert LastIndexIn(tail, Separators) == -1;
    assert tail[..|base|] == base;
  }

  //----------------------------------
  // String.replace(CharSequence, CharSequence)
  //----------------------------------

  /** Java's `String.replace` with a non-empty target: scans left to right and replaces
      every non-overlapping occurrence of `target`. */
  function ReplaceAll(s: string, target: string, replacement: string): (r: string)
    requires target != []
    ensures replacement == target ==> r == s
    decreases |s|
  {
    if |s| < |target| then s
    else if s[..|target|] == target then replacement + ReplaceAll(s[|target|..], target, replacement)
    else [s[0]] + ReplaceAll(s[1..], target, replacement)
  }

  /** `target` occurs in `s` at index `i`. */
  predicate MatchAt(s: string, target: string, i: int) {
    0 <= i && i + |target| <= |s| && s[i..i + |target|] == target
  }

  /** `target` occurs nowhere in `s`. */
  predicate FreeOf(s: string, target: string) {
    forall i :: 0 <= i <= |s| - |target| ==> !MatchAt(s, target, i)
  }

  const SongExtension: string := ".ctks"

  /** A non-empty prefix shorter than ".ctks" followed by ".ctks" does not start with
      ".ctks": the extension has no proper border. */
  lemma ShortPrefixNoMatch(base: string)
    requires 0 < |base| < |SongExtension|
    ensures (base + SongExtension)[..|SongExtension|] != SongExtension
  {
    var s := base + SongExtension;
    assert s[|base|] == '.';
  }

  /** Stripping ".ctks" from `base + ".ctks"` gives back `base` when `base` itself holds
      no ".ctks". */
  lemma {:induction false} StripSongExtension(base: string)
    requires FreeOf(base, SongExtension)
    ensures ReplaceAll(base + SongExtension, SongExtension, "") == base
    decreases |base|
  {
    var s := base + SongExtension;
    if base == [] {
      assert s == SongExtension;
      assert s[|SongExtension|..] == [];
    } else {
      if |base| < |SongExtension| {
        ShortPrefixNoMatch(base);
      } else {
        assert s[..|SongExtension|] == base[0..0 + |SongExtension|];
        assert !MatchAt(base, SongExtension, 0);
      }
      assert s[1..] == base[1..] + SongExtension;
      forall i ensures !MatchAt(base[1..], SongExtension, i) {
        if 0 <= i && i + |SongExtension| <= |base[1..]| {
          assert base[1..][i..i + |SongExtension|] == base[i + 1..i + 1 + |SongExtension|];
          assert !MatchAt(base, SongExtension, i + 1);
        }
      }
      StripSongExtension(base[1..]);
      assert s[0] == base[0];
      assert base == [base[0]] + base[1..];
    }
  }
}
