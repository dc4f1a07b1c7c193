/** File names and paths as the library handles them: the extension test of
    the directory scan, the separator normalisation of catalog keys, and the
    joining of the music directory with a catalog key. */
module Paths {

  /** The audio formats the scan recognises (`music_exts`). */
  const MusicExts: set<string> := {".mp3", ".wav", ".flac", ".ogg", ".m4a", ".aac", ".wma"}

  /** `str.lower` on one character, for the Latin letters A to Z. */
  function LowerChar(c: char): char {
    if 'A' <= c <= 'Z' then (c as int + 32) as char else c
  }

  function Lower(s: string): string {
    seq(|s|, i requires 0 <= i < |s| => LowerChar(s[i]))
  }

  /** Every character of `s` is a dot. */
  predicate AllDots(s: string) {
    s == [] || (s[0] == '.' && AllDots(s[1..]))
  }

  lemma {:induction false} AllDotsSpec(s: string)
    ensures AllDots(s) <==> forall i :: 0 <= i < |s| ==> s[i] == '.'
  {
    if s != [] {
      AllDotsSpec(s[1..]);
      if !AllDots(s) && s[0] == '.' {
        var i :| 0 <= i < |s[1..]| && s[1..][i] != '.';
        assert s[i + 1] != '.';
      }
    }
  }

  /** Position of the last '.' in `s`, or -1 when there is none. */
  function LastDot(s: string): (r: int)
    ensures -1 <= r < |s|
    ensures r >= 0 ==> s[r] == '.'
    ensures forall i :: r < i < |s| ==> s[i] != '.'
  {
    if s == [] then -1
    else if s[|s| - 1] == '.' then |s| - 1
    else LastDot(s[..|s| - 1])
  }

  /** The second half of `os.path.splitext(name)` for a bare file name (the
      names a directory walk produces hold no separator): everything from the
      last dot on, unless only dots precede that dot, so that a hidden file
      such as ".mp3" has no extension. */
  function Extension(name: string): string {
    var d := LastDot(name);
    if d > 0 && !AllDots(name[..d]) then name[d..] else []
  }

  /** An extension is a suffix of the name that starts with its only dot. */
  lemma ExtensionShape(name: string)
    ensures |Extension(name)| <= |name| && Extension(name) == name[|name| - |Extension(name)|..]
    ensures Extension(name) != [] ==> Extension(name)[0] == '.' && '.' !in Extension(name)[1..]
  {
    var d := LastDot(name);
    assert forall i :: d < i < |name| ==> name[i] != '.';
  }

  /** A name has an extension exactly when it has a last dot that some
      character other than a dot precedes. */
  lemma ExtensionSpec(name: string)
    ensures Extension(name) != [] <==>
      exists d :: 0 < d < |name| && name[d] == '.' && '.' !in name[d + 1..] &&
        exists i :: 0 <= i < d && name[i] != '.'
  {
    var d := LastDot(name);
    assert forall e :: d < e < |name| ==> name[e] != '.';
    if d >= 0 {
      AllDotsSpec(name[..d]);
    }
  }

  /** The last dot is the one with no dot after it. */
  lemma {:induction false} LastDotAt(s: string, d: nat)
    requires d < |s| && s[d] == '.'
    requires forall i :: d < i < |s| ==> s[i] != '.'
    ensures LastDot(s) == d
  {
    if d < |s| - 1 {
      LastDotAt(s[..|s| - 1], d);
    }
  }

  /** The scan keeps a file when its lower-cased extension is one of the
      audio formats `exts`. */
  predicate IsMusicFile(name: string, exts: set<string>) {
    Lower(Extension(name)) in exts
  }

  /** The scan keeps "test.mp3" and "Song.MP3" (the test is on the
      lower-cased extension), and skips "cover.jpg" and the hidden file
      ".mp3", which has no extension. */
  lemma MusicFileExamples()
    ensures Extension("test.mp3") == ".mp3" && IsMusicFile("test.mp3", MusicExts)
    ensures Extension("Song.MP3") == ".MP3" && IsMusicFile("Song.MP3", MusicExts)
    ensures !IsMusicFile("cover.jpg", MusicExts)
    ensures Extension(".mp3") == "" && !IsMusicFile(".mp3", MusicExts)
  {
    LastDotAt("test.mp3", 4);
    LastDotAt("Song.MP3", 4);
    LastDotAt("cover.jpg", 5);
    LastDotAt(".mp3", 0);
    assert !AllDots("test") && !AllDots("Song") && !AllDots("cover");
    assert Lower(".mp3") == ".mp3" && Lower(".MP3") == ".mp3" && Lower(".jpg") == ".jpg";
  }

  /** `p.replace("\\", "/")`: the form of a relative path used as a catalog key. */
  function Normalize(p: string): string {
    seq(|p|, i requires 0 <= i < |p| => if p[i] == '\\' then '/' else p[i])
  }

  /** A normalised path holds no backslash, otherwise agrees with the path
      character by character, and normalising again changes nothing. */
  lemma NormalizeSpec(p: string)
    ensures |Normalize(p)| == |p| && '\\' !in Normalize(p)
    ensures forall i :: 0 <= i < |p| && p[i] != '\\' ==> Normalize(p)[i] == p[i]
    ensures Normalize(Normalize(p)) == Normalize(p)
    ensures '\\' !in p ==> Normalize(p) == p
  {
  }

  /** `os.path.join(dir, p)` with POSIX separators: an absolute `p` replaces
      `dir`; otherwise `p` is appended, with a '/' in between unless `dir` is
      empty or already ends in one. */
  function Join(dir: string, p: string): (r: string)
    ensures |p| <= |r| && r[|r| - |p|..] == p
    ensures |p| > 0 && p[0] == '/' ==> r == p
    ensures (|p| == 0 || p[0] != '/') ==> dir <= r
  {
    if |p| > 0 && p[0] == '/' then p
    else if dir == [] || dir[|dir| - 1] == '/' then dir + p
    else dir + "/" + p
  }
}
