/** File discovery: `iter_audio_files` walks the tree and keeps regular files
    whose name does not start with `._` and whose lower-cased suffix is one of
    the recognised audio and video extensions. */
module Discovery {
  import opened DateTimes

  /** One path yielded by `root.rglob("*")`, with what pathlib and `stat` say
      about it: `name`, `stem` and `suffix` as pathlib splits them, whether it
      is a regular file, and its modification time as
      `datetime.fromtimestamp(st_mtime)` gives it. */
  datatype PathInfo = PathInfo(path: string, name: string, stem: string, suffix: string,
                               isFile: bool, mtime: DateTime)

  /** `AUDIO_EXTS`. */
  const AudioExts: set<string> :=
    {".m4a", ".mp3", ".wav", ".aac", ".flac", ".ogg", ".mp4", ".webm", ".mkv", ".caf"}

  /** `str.lower` on one character, as far as it can decide membership in
      `AudioExts`: ASCII capitals map to small letters, and KELVIN SIGN
      (U+212A) lower-cases to the ASCII letter `k`. Every other character
      either is unchanged by `lower` or lower-cases to non-ASCII text, which no
      extension contains; it is kept as it is. */
  function LowerChar(c: char): (l: char)
    ensures 'a' <= l <= 'z' ==> l == c || 'A' <= c <= 'Z' || c == 'K'
    ensures 'A' <= c <= 'Z' ==> l as int == c as int + 32
  {
    if 'A' <= c <= 'Z' then (c as int + 32) as char
    else if c == 'K' then 'k'
    else c
  }

  function Lower(s: string): (r: string)
    ensures |r| == |s| && forall i | 0 <= i < |s| :: r[i] == LowerChar(s[i])
  {
    seq(|s|, i requires 0 <= i < |s| => LowerChar(s[i]))
  }

  /** ASCII `str.upper`, used to state that the extension test ignores case. */
  function Upper(s: string): (r: string)
    ensures |r| == |s|
  {
    seq(|s|, i requires 0 <= i < |s| => if 'a' <= s[i] <= 'z' then (s[i] as int - 32) as char else s[i])
  }

  predicate StartsWith(s: string, prefix: string) {
    |prefix| <= |s| && s[..|prefix|] == prefix
  }

  /** The three tests of the loop body, in the order it makes them. */
  predicate IsAudioFile(p: PathInfo) {
    p.isFile && !StartsWith(p.name, "._") && Lower(p.suffix) in AudioExts
  }

  /** The files `iter_audio_files` yields from the walk `entries`, in walk order. */
  function AudioFilesOf(entries: seq<PathInfo>): (r: seq<PathInfo>)
    ensures |r| <= |entries|
    ensures forall i | 0 <= i < |r| :: IsAudioFile(r[i])
  {
    if entries == [] then []
    else
      var last := entries[|entries| - 1];
      AudioFilesOf(entries[..|entries| - 1]) + (if IsAudioFile(last) then [last] else [])
  }

  /** `list(iter_audio_files(root))`, the walk given as `entries`. */
  method IterAudioFiles(entries: seq<PathInfo>) returns (files: seq<PathInfo>)
    ensures files == AudioFilesOf(entries)
  {
    files := [];
    var i := 0;
    while i < |entries|
      invariant 0 <= i <= |entries|
      invariant files == AudioFilesOf(entries[..i])
    {
      var p := entries[i];
      assert entries[..i + 1][..i] == entries[..i];
      i := i + 1;
      if !p.isFile {
        continue;
      }
      if StartsWith(p.name, "._") {
        continue;
      }
      if Lower(p.suffix) in AudioExts {
        files := files + [p];
      }
    }
    assert entries[..i] == entries;
  }

  /** A path is discovered exactly when it is walked, is a regular file, does
      not have a name starting with `._`, and has a suffix that lower-cases to
      one of the ten extensions. */
  lemma {:induction false} DiscoveredIff(entries: seq<PathInfo>, p: PathInfo)
    ensures p in AudioFilesOf(entries) <==>
      && p in entries
      && p.isFile
      && !(|p.name| >= 2 && p.name[0] == '.' && p.name[1] == '_')
      && Lower(p.suffix) in AudioExts
  {
    if entries != [] {
      var init := entries[..|entries| - 1];
      DiscoveredIff(init, p);
      assert entries == init + [entries[|entries| - 1]];
    }
    assert StartsWith(p.name, "._") <==> |p.name| >= 2 && p.name[0] == '.' && p.name[1] == '_' by {
      if |p.name| >= 2 && p.name[0] == '.' && p.name[1] == '_' {
        assert p.name[..2] == "._";
      }
    }
  }

  /** Discovery keeps the walk order: the files found in two consecutive parts
      of the walk are those of the first part followed by those of the second. */
  lemma {:induction false} DiscoveryKeepsWalkOrder(a: seq<PathInfo>, b: seq<PathInfo>)
    ensures AudioFilesOf(a + b) == AudioFilesOf(a) + AudioFilesOf(b)
  {
    if b != [] {
      var init := b[..|b| - 1];
      DiscoveryKeepsWalkOrder(a, init);
      assert (a + b)[..|a + b| - 1] == a + init;
    } else {
      assert a + b == a;
    }
  }

  /** Lower-casing forgets case: a suffix and its upper-case form lower-case
      alike. */
  lemma {:induction false} LowerOfUpper(s: string)
    ensures Lower(Upper(s)) == Lower(s)
  {
    forall i | 0 <= i < |s| ensures Lower(Upper(s))[i] == Lower(s)[i] {
      assert Upper(s)[i] == if 'a' <= s[i] <= 'z' then (s[i] as int - 32) as char else s[i];
    }
  }

  /** The extension test is case-insensitive: `.WAV`, `.Wav` and `.wav` are
      all accepted, and a suffix is accepted exactly when its upper-case form is. */
  lemma SuffixCaseIgnored(p: PathInfo)
    ensures IsAudioFile(p) <==> IsAudioFile(p.(suffix := Upper(p.suffix)))
    ensures IsAudioFile(p.(suffix := ".WAV")) == IsAudioFile(p.(suffix := ".wav"))
  {
    LowerOfUpper(p.suffix);
    assert Lower(".WAV") == ".wav" == Lower(".wav");
  }
}
