/**
 * Cross-platform helpers of the test base: classifying the operating system
 * from its `os.name`, rewriting path separators, and locating the ffmpeg
 * executable. The JVM's system properties, the PATH variable and the file
 * system's "exists and is executable" test are parameters.
 */
module TestBase {
  import opened Common

  /** "windows" if the lower-cased name contains "win", else "macos" if it contains "mac", else "linux". */
  function GetOperatingSystem(osName: string): (r: string)
    ensures r == "windows" <==> Contains(ToLower(osName), "win")
    ensures r == "macos" <==> !Contains(ToLower(osName), "win") && Contains(ToLower(osName), "mac")
    ensures r == "linux" <==> !Contains(ToLower(osName), "win") && !Contains(ToLower(osName), "mac")
  {
    var os := ToLower(osName);
    if Contains(os, "win") then "windows"
    else if Contains(os, "mac") then "macos"
    else "linux"
  }

  predicate IsWindows(osName: string)
  {
    GetOperatingSystem(osName) == "windows"
  }

  /** Every separator of the other platform replaced by this platform's one. */
  function ToPlatformSeparators(path: string, windows: bool): string
  {
    if windows then ReplaceChar(path, '/', '\\') else ReplaceChar(path, '\\', '/')
  }

  /** normalizePath: null stays null; otherwise the separators are made the platform's. */
  function NormalizePath(path: Option<string>, osName: string): (r: Option<string>)
    ensures path.None? <==> r.None?
    ensures r.Some? ==> |r.value| == |path.value|
    ensures r.Some? && IsWindows(osName) ==> '/' !in r.value
    ensures r.Some? && !IsWindows(osName) ==> '\\' !in r.value
    ensures r.Some? ==> forall i :: 0 <= i < |r.value| && path.value[i] != '/' && path.value[i] != '\\' ==> r.value[i] == path.value[i]
    ensures r.Some? ==> forall i :: 0 <= i < |r.value| && (path.value[i] == '/' || path.value[i] == '\\') ==>
                          r.value[i] == (if IsWindows(osName) then '\\' else '/')
  {
    match path
    case None => None
    case Some(p) => Some(ToPlatformSeparators(p, IsWindows(osName)))
  }

  /** Normalising twice is normalising once. */
  lemma NormalizePathIdempotent(path: Option<string>, osName: string)
    ensures NormalizePath(NormalizePath(path, osName), osName) == NormalizePath(path, osName)
  {
    if path.Some? {
      var w := IsWindows(osName);
      var once := ToPlatformSeparators(path.value, w);
      var twice := ToPlatformSeparators(once, w);
      assert |twice| == |once|;
      assert forall i :: 0 <= i < |once| ==> twice[i] == once[i];
      assert twice == once;
    }
  }

  // ---------------------------------------------------------------------
  // Locating ffmpeg
  // ---------------------------------------------------------------------

  /** The fixed installation locations tried first, in order, per platform. */
  function FFmpegCandidates(osName: string): (r: seq<string>)
    ensures |r| == 4
  {
    var os := GetOperatingSystem(osName);
    if os == "windows" then
      ["C:\\Program Files\\ffmpeg\\bin\\ffmpeg.exe",
       "C:\\Program Files (x86)\\ffmpeg\\bin\\ffmpeg.exe",
       "C:\\ffmpeg\\bin\\ffmpeg.exe",
       "ffmpeg.exe"]
    else if os == "macos" then
      ["/opt/homebrew/bin/ffmpeg", "/usr/local/bin/ffmpeg", "/usr/bin/ffmpeg", "ffmpeg"]
    else
      ["/usr/bin/ffmpeg", "/usr/local/bin/ffmpeg", "/snap/bin/ffmpeg", "ffmpeg"]
  }

  /** The characters of s other than c, in order. */
  function Without(s: string, c: char): string
  {
    if s == [] then [] else (if s[0] == c then [] else [s[0]]) + Without(s[1..], c)
  }

  /** Positions i and i + 1 both hold the separator. */
  predicate RunAt(s: string, sep: char, i: nat)
    requires i + 1 < |s|
  {
    s[i] == sep && s[i + 1] == sep
  }

  /** No two separators are adjacent. */
  predicate NoRuns(s: string, sep: char)
  {
    forall i: nat :: i + 1 < |s| ==> !RunAt(s, sep, i)
  }

  /** A character in front of a string without runs starts no run unless it meets a separator. */
  lemma ConsNoRuns(c: char, rest: string, sep: char)
    requires NoRuns(rest, sep) && !(c == sep && |rest| > 0 && rest[0] == sep)
    ensures NoRuns([c] + rest, sep)
  {
    var s := [c] + rest;
    forall i: nat | i + 1 < |s|
      ensures !RunAt(s, sep, i)
    {
      if i > 0 {
        assert s[i] == rest[i - 1] && s[i + 1] == rest[i];
        assert !RunAt(rest, sep, i - 1);
      }
    }
  }

  /** Dropping the first character keeps a string free of runs. */
  lemma TailNoRuns(s: string, sep: char)
    requires NoRuns(s, sep) && |s| > 0
    ensures NoRuns(s[1..], sep)
  {
    var t := s[1..];
    forall i: nat | i + 1 < |t|
      ensures !RunAt(t, sep, i)
    {
      assert !RunAt(s, sep, i + 1);
    }
  }

  /**
   * Path normalisation's removal of redundant separators: every run of
   * separators becomes one, and nothing else changes.
   */
  function CollapseSeparators(s: string, sep: char): (r: string)
    ensures |r| <= |s|
    ensures |s| > 0 ==> |r| > 0 && r[0] == s[0]
    ensures NoRuns(r, sep)
    decreases |s|
  {
    if |s| < 2 then s
    else if s[0] == sep && s[1] == sep then
      CollapseSeparators(s[1..], sep)
    else
      var rest := CollapseSeparators(s[1..], sep);
      assert ([s[0]] + rest)[1..] == rest;
      ConsNoRuns(s[0], rest, sep);
      [s[0]] + rest
  }

  /**
   * Paths.get(dir, name).toString(): the directory and the file name joined
   * by the platform separator, then normalised: on Windows every '/' becomes
   * '\', and runs of separators collapse to one.
   */
  function JoinPath(dir: string, name: string, windows: bool): (r: string)
    ensures NoRuns(r, if windows then '\\' else '/')
    ensures windows ==> forall i :: 0 <= i < |r| ==> r[i] != '/'
  {
    var sep := if windows then '\\' else '/';
    var joined := if dir == [] then name else dir + [sep] + name;
    var unified := if windows then ReplaceChar(joined, '/', '\\') else joined;
    var r := CollapseSeparators(unified, sep);
    if windows then NoSlashSurvives(unified, sep); r else r
  }

  /** Collapsing separator runs brings in no '/' that was not there. */
  lemma {:induction false} NoSlashSurvives(s: string, sep: char)
    requires forall i :: 0 <= i < |s| ==> s[i] != '/'
    ensures forall i :: 0 <= i < |CollapseSeparators(s, sep)| ==> CollapseSeparators(s, sep)[i] != '/'
    decreases |s|
  {
    if |s| >= 2 {
      NoSlashSurvives(s[1..], sep);
    }
  }

  /** Collapsing removes separators only: every other character stays, in order. */
  lemma {:induction false} CollapseKeepsOtherCharacters(s: string, sep: char)
    ensures Without(CollapseSeparators(s, sep), sep) == Without(s, sep)
    decreases |s|
  {
    if |s| >= 2 {
      CollapseKeepsOtherCharacters(s[1..], sep);
      if !(s[0] == sep && s[1] == sep) {
        assert ([s[0]] + CollapseSeparators(s[1..], sep))[1..] == CollapseSeparators(s[1..], sep);
      }
    }
  }

  /** A path without separator runs is already normalised. */
  lemma {:induction false} CollapseKeeps(s: string, sep: char)
    requires NoRuns(s, sep)
    ensures CollapseSeparators(s, sep) == s
    decreases |s|
  {
    if |s| >= 2 {
      assert !RunAt(s, sep, 0);
      TailNoRuns(s, sep);
      CollapseKeeps(s[1..], sep);
      assert [s[0]] + s[1..] == s;
    }
  }

  /** A prefix without runs that does not end in a run with what follows is kept as it is. */
  lemma {:induction false} CollapseAppend(p: string, t: string, sep: char)
    requires NoRuns(p, sep) && |t| > 0
    requires !(|p| > 0 && p[|p| - 1] == sep && t[0] == sep)
    ensures CollapseSeparators(p + t, sep) == p + CollapseSeparators(t, sep)
    decreases |p|
  {
    if |p| > 0 {
      var s := p + t;
      assert s[1..] == p[1..] + t;
      assert s[0] == p[0] && s[1] == (if |p| > 1 then p[1] else t[0]);
      if |p| > 1 {
        assert !RunAt(p, sep, 0);
      }
      assert !(s[0] == sep && s[1] == sep);
      assert CollapseSeparators(s, sep) == [p[0]] + CollapseSeparators(p[1..] + t, sep);
      TailNoRuns(p, sep);
      CollapseAppend(p[1..], t, sep);
      assert [p[0]] + (p[1..] + CollapseSeparators(t, sep)) == p + CollapseSeparators(t, sep);
    } else {
      assert p + t == t;
    }
  }

  /** Two strings without runs that do not meet in a run make a string without runs. */
  lemma NoRunsConcat(a: string, b: string, sep: char)
    requires NoRuns(a, sep) && NoRuns(b, sep)
    requires !(|a| > 0 && |b| > 0 && a[|a| - 1] == sep && b[0] == sep)
    ensures NoRuns(a + b, sep)
  {
    var s := a + b;
    forall i: nat | i + 1 < |s|
      ensures !RunAt(s, sep, i)
    {
      if i + 1 < |a| {
        assert !RunAt(a, sep, i);
      } else if i >= |a| {
        assert !RunAt(b, sep, i - |a|);
      }
    }
  }

  /** A file name holding no separator has no run of separators. */
  lemma NoSeparatorNoRuns(s: string, sep: char)
    requires forall i :: 0 <= i < |s| ==> s[i] != sep
    ensures NoRuns(s, sep)
  {
    forall i: nat | i + 1 < |s|
      ensures !RunAt(s, sep, i)
    {
    }
  }

  /**
   * On Unix a PATH entry ending in '/' does not double the separator:
   * "/usr/bin/" and "ffmpeg" give "/usr/bin/ffmpeg", as Paths.get does.
   */
  lemma TrailingSeparatorNormalised(dir: string, name: string)
    requires |dir| > 0 && dir[|dir| - 1] == '/' && NoRuns(dir, '/')
    requires |name| > 0 && forall i :: 0 <= i < |name| ==> name[i] != '/'
    ensures JoinPath(dir, name, false) == dir + name
  {
    var p := dir[..|dir| - 1];
    assert dir + ['/'] + name == p + (['/', '/'] + name);
    assert JoinPath(dir, name, false) == CollapseSeparators(p + (['/', '/'] + name), '/');
    forall i: nat | i + 1 < |p|
      ensures !RunAt(p, '/', i)
    {
      assert !RunAt(dir, '/', i);
    }
    if |p| > 0 {
      assert !RunAt(dir, '/', |dir| - 2);
    }
    CollapseAppend(p, ['/', '/'] + name, '/');
    assert (['/', '/'] + name)[1..] == ['/'] + name;
    NoSeparatorNoRuns(name, '/');
    ConsNoRuns('/', name, '/');
    CollapseKeeps(['/'] + name, '/');
    assert p + (['/'] + name) == dir + name;
  }

  /** On Windows the joined path is converted and collapsed. */
  lemma JoinPathOnWindows(dir: string, name: string)
    requires |dir| > 0
    ensures JoinPath(dir, name, true)
            == CollapseSeparators(ReplaceChar(dir, '/', '\\') + ReplaceChar(['\\'] + name, '/', '\\'), '\\')
  {
    assert dir + ['\\'] + name == dir + (['\\'] + name);
    ReplaceCharConcat(dir, ['\\'] + name, '/', '\\');
  }

  /**
   * On Windows a PATH entry written with '/' comes out with '\\':
   * "C:/ffmpeg/bin" and "ffmpeg.exe" give "C:\\ffmpeg\\bin\\ffmpeg.exe", as Paths.get does.
   */
  lemma ForwardSlashesNormalisedOnWindows(dir: string, name: string)
    requires |dir| > 0 && dir[|dir| - 1] != '/' && dir[|dir| - 1] != '\\'
    requires NoRuns(ReplaceChar(dir, '/', '\\'), '\\')
    requires forall i :: 0 <= i < |name| ==> name[i] != '/' && name[i] != '\\'
    ensures JoinPath(dir, name, true) == ReplaceChar(dir, '/', '\\') + (['\\'] + name)
  {
    var converted := ReplaceChar(dir, '/', '\\');
    var tail := ['\\'] + name;
    calc {
      JoinPath(dir, name, true);
    == { JoinPathOnWindows(dir, name); }
      CollapseSeparators(converted + ReplaceChar(tail, '/', '\\'), '\\');
    == { ReplaceCharAbsent(tail, '/', '\\'); }
      CollapseSeparators(converted + tail, '\\');
    == { assert converted[|converted| - 1] == dir[|dir| - 1];
         PlainJoinKept(converted, name, '\\'); }
      converted + tail;
    }
  }

  /** Joining a path without runs and a plain name by one separator needs no collapsing. */
  lemma PlainJoinKept(dir: string, name: string, sep: char)
    requires NoRuns(dir, sep) && (|dir| > 0 ==> dir[|dir| - 1] != sep)
    requires forall i :: 0 <= i < |name| ==> name[i] != sep
    ensures CollapseSeparators(dir + ([sep] + name), sep) == dir + ([sep] + name)
  {
    SeparatedNoRuns(dir, name, sep);
    CollapseKeeps(dir + ([sep] + name), sep);
  }

  /** A directory without runs, not ending in the separator, then the separator and a plain name: no runs. */
  lemma SeparatedNoRuns(dir: string, name: string, sep: char)
    requires NoRuns(dir, sep) && (|dir| > 0 ==> dir[|dir| - 1] != sep)
    requires forall i :: 0 <= i < |name| ==> name[i] != sep
    ensures NoRuns(dir + ([sep] + name), sep)
  {
    NoSeparatorNoRuns(name, sep);
    ConsNoRuns(sep, name, sep);
    NoRunsConcat(dir, [sep] + name, sep);
  }

  /** The candidate file in each PATH directory, in PATH order. */
  function PathCandidates(dirs: seq<string>, osName: string): (r: seq<string>)
    ensures |r| == |dirs|
    ensures forall i :: 0 <= i < |dirs| ==>
      r[i] == JoinPath(dirs[i], if IsWindows(osName) then "ffmpeg.exe" else "ffmpeg", IsWindows(osName))
  {
    if dirs == [] then []
    else [JoinPath(dirs[0], if IsWindows(osName) then "ffmpeg.exe" else "ffmpeg", IsWindows(osName))]
         + PathCandidates(dirs[1..], osName)
  }

  /** The first path, in order, that the file system reports as an executable file. */
  function FirstExecutable(paths: seq<string>, isExecutable: string -> bool): (r: Option<nat>)
    ensures r.Some? ==> r.value < |paths| && isExecutable(paths[r.value])
    ensures r.Some? ==> forall j :: 0 <= j < r.value ==> !isExecutable(paths[j])
    ensures r.None? ==> forall j :: 0 <= j < |paths| ==> !isExecutable(paths[j])
    decreases |paths|
  {
    if paths == [] then None
    else if isExecutable(paths[0]) then Some(0)
    else
      match FirstExecutable(paths[1..], isExecutable)
      case None => None
      case Some(k) => Some(k + 1)
  }

  /**
   * getFFmpegPath: the first executable fixed candidate; otherwise, when PATH
   * is set, the first PATH directory holding an executable ffmpeg;
   * otherwise the RuntimeException "FFmpeg not found".
   */
  function GetFFmpegPath(osName: string, pathEnv: Option<seq<string>>, isExecutable: string -> bool): (r: Result<string>)
  {
    var fixed := FFmpegCandidates(osName);
    match FirstExecutable(fixed, isExecutable)
    case Some(i) => Ok(fixed[i])
    case None =>
      var onPath := SearchedPath(pathEnv, osName);
      match FirstExecutable(onPath, isExecutable)
      case Some(j) => Ok(onPath[j])
      case None => Err("FFmpeg not found. Please install FFmpeg and ensure it's in your PATH.")
  }

  /** The PATH entries searched by getFFmpegPath (none when PATH is unset). */
  function SearchedPath(pathEnv: Option<seq<string>>, osName: string): seq<string>
  {
    if pathEnv.Some? then PathCandidates(pathEnv.value, osName) else []
  }

  /** The first executable fixed candidate is the answer, whatever PATH holds. */
  lemma FFmpegPrefersFixedCandidate(osName: string, pathEnv: Option<seq<string>>, isExecutable: string -> bool, i: nat)
    requires i < |FFmpegCandidates(osName)| && isExecutable(FFmpegCandidates(osName)[i])
    requires forall j :: 0 <= j < i ==> !isExecutable(FFmpegCandidates(osName)[j])
    ensures GetFFmpegPath(osName, pathEnv, isExecutable) == Ok(FFmpegCandidates(osName)[i])
  {
    var k := FirstExecutable(FFmpegCandidates(osName), isExecutable);
    assert k.Some?;
    assert !(k.value < i) && !(i < k.value);
  }

  /** With no fixed candidate executable, the first PATH directory holding an executable ffmpeg wins. */
  lemma FFmpegFallsBackToPath(osName: string, pathEnv: Option<seq<string>>, isExecutable: string -> bool, j: nat)
    requires forall i :: 0 <= i < |FFmpegCandidates(osName)| ==> !isExecutable(FFmpegCandidates(osName)[i])
    requires j < |SearchedPath(pathEnv, osName)| && isExecutable(SearchedPath(pathEnv, osName)[j])
    requires forall k :: 0 <= k < j ==> !isExecutable(SearchedPath(pathEnv, osName)[k])
    ensures GetFFmpegPath(osName, pathEnv, isExecutable) == Ok(SearchedPath(pathEnv, osName)[j])
  {
    assert FirstExecutable(FFmpegCandidates(osName), isExecutable).None?;
    var k := FirstExecutable(SearchedPath(pathEnv, osName), isExecutable);
    assert k.Some?;
    assert !(k.value < j) && !(j < k.value);
  }

  /** The search fails exactly when no fixed candidate and no PATH entry is executable. */
  lemma FFmpegNotFound(osName: string, pathEnv: Option<seq<string>>, isExecutable: string -> bool)
    ensures GetFFmpegPath(osName, pathEnv, isExecutable).Err? <==>
              (forall i :: 0 <= i < |FFmpegCandidates(osName)| ==> !isExecutable(FFmpegCandidates(osName)[i]))
              && (forall j :: 0 <= j < |SearchedPath(pathEnv, osName)| ==> !isExecutable(SearchedPath(pathEnv, osName)[j]))
  {
    var fixed := FFmpegCandidates(osName);
    var onPath := SearchedPath(pathEnv, osName);
    var a := FirstExecutable(fixed, isExecutable);
    var b := FirstExecutable(onPath, isExecutable);
    if a.Some? {
      assert isExecutable(fixed[a.value]);
    } else if b.Some? {
      assert isExecutable(onPath[b.value]);
    }
  }

  /**
   * checkDependencies: true when ffmpeg is found and the Java version is
   * known; a missing ffmpeg gives false instead of an exception.
   */
  function CheckDependencies(osName: string, pathEnv: Option<seq<string>>, isExecutable: string -> bool,
                             javaVersion: Option<string>): (ok: bool)
    ensures ok <==> GetFFmpegPath(osName, pathEnv, isExecutable).Ok? && javaVersion.Some?
  {
    match GetFFmpegPath(osName, pathEnv, isExecutable)
    case Err(_) => false
    case Ok(_) => javaVersion.Some?
  }
}
