/** The loop of `main` over the sorted files: the header timestamp choice and
    the text appended to the combined transcript for each file. */
module Transcript {
  import opened Common
  import opened DateTimes
  import opened StemParser
  import opened Discovery
  import opened Ordering

  /** What the speech-to-text engine gives back for one file: the joined and
      stripped segment text, and the detected language code. */
  datatype Transcription = Transcription(text: string, language: string)

  /** The header's datetime: the stem's timestamp if it parses, else the
      modification time; strptime's ValueError propagates. */
  function HeaderTime(p: PathInfo): (r: Result<DateTime>)
    ensures r.Err? <==> ParseStem(p.stem).Rejected?
    ensures ParseStem(p.stem).Stamp? ==> r == Ok(ParseStem(p.stem).dt)
    ensures ParseStem(p.stem).NoMatch? ==> r == Ok(p.mtime)
  {
    match ParseStem(p.stem)
    case Stamp(dt) => Ok(dt)
    case NoMatch => Ok(p.mtime)
    case Rejected => Err(StrptimeValueError(p.stem))
  }

  /** The header line written before a file's text. */
  function Header(dt: DateTime, name: string, language: string): (h: string)
    ensures |h| == 44 + |name| + |language|
  {
    "\n===== " + Format(dt) + " | " + name + " | lang=" + language + " =====\n"
  }

  /** The header is `===== YYYY-MM-DD HH:MM:SS | <name> | lang=<code> =====` on
      a line of its own: its pieces sit at fixed offsets around the name and the
      language code. */
  lemma HeaderLayout(dt: DateTime, name: string, language: string)
    ensures var h := Header(dt, name, language);
      && |h| == 44 + |name| + |language|
      && h[..7] == "\n===== " && h[7..26] == Format(dt)
      && h[26..29] == " | " && h[29..29 + |name|] == name
      && h[29 + |name|..37 + |name|] == " | lang="
      && h[37 + |name|..37 + |name| + |language|] == language
      && h[37 + |name| + |language|..] == " =====\n"
  {
  }

  /** What one iteration writes to the combined transcript. */
  function Entry(p: PathInfo, dt: DateTime, t: Transcription): string {
    Header(dt, p.name, t.language) + t.text + "\n"
  }

  /** The combined transcript written for `files`, in that order, or the first
      error the header timestamp raises. */
  function CombinedOf(files: seq<PathInfo>, transcribe: PathInfo -> Transcription): Result<string> {
    if files == [] then Ok("")
    else match HeaderTime(files[0])
      case Err(e) => Err(e)
      case Ok(dt) =>
        match CombinedOf(files[1..], transcribe)
        case Err(e) => Err(e)
        case Ok(rest) => Ok(Entry(files[0], dt, transcribe(files[0])) + rest)
  }

  /** `text` followed by what `r` holds, or `r`'s error. */
  function Prepend(text: string, r: Result<string>): Result<string> {
    match r
    case Ok(rest) => Ok(text + rest)
    case Err(e) => Err(e)
  }

  /** The body of `main` after sorting: for each file, in the given order, pick
      the header datetime and append the header and the text. */
  method WriteCombined(files: seq<PathInfo>, transcribe: PathInfo -> Transcription)
    returns (r: Result<string>)
    ensures r == CombinedOf(files, transcribe)
  {
    var out := "";
    var i := 0;
    CombinedFromStart(files, transcribe);
    while i < |files|
      invariant 0 <= i <= |files|
      invariant CombinedOf(files, transcribe) == Prepend(out, CombinedOf(files[i..], transcribe))
    {
      var p := files[i];
      var parsed := ParseStem(p.stem);
      if parsed.Rejected? {
        CombinedFailsAt(files, i, out, transcribe);
        return Err(StrptimeValueError(p.stem));
      }
      var dt := if parsed.Stamp? then parsed.dt else p.mtime;
      var entry := Entry(p, dt, transcribe(p));
      CombinedAt(files, i, out, dt, transcribe);
      out := out + entry;
      i := i + 1;
    }
    CombinedAtEnd(files, out, transcribe);
    return Ok(out);
  }

  lemma CombinedFromStart(files: seq<PathInfo>, transcribe: PathInfo -> Transcription)
    ensures CombinedOf(files, transcribe) == Prepend("", CombinedOf(files[0..], transcribe))
  {
    assert files[0..] == files;
    var r := CombinedOf(files, transcribe);
    if r.Ok? {
      assert "" + r.value == r.value;
    }
  }

  lemma CombinedAtEnd(files: seq<PathInfo>, out: string, transcribe: PathInfo -> Transcription)
    ensures Prepend(out, CombinedOf(files[|files|..], transcribe)) == Ok(out)
  {
    assert files[|files|..] == [];
    assert out + "" == out;
  }

  /** The rest of the combined transcript, from `files[i]` on, when the header
      of `files[i]` raises: the error, whatever was written before. */
  lemma CombinedFailsAt(files: seq<PathInfo>, i: nat, out: string, transcribe: PathInfo -> Transcription)
    requires i < |files| && ParseStem(files[i].stem).Rejected?
    ensures Prepend(out, CombinedOf(files[i..], transcribe)) == Err(StrptimeValueError(files[i].stem))
  {
    assert files[i..][0] == files[i];
  }

  /** One step of the loop: the entry of `files[i]`, with header datetime
      `dt`, moves from the rest to what has been written. */
  lemma CombinedAt(files: seq<PathInfo>, i: nat, out: string, dt: DateTime, transcribe: PathInfo -> Transcription)
    requires i < |files|
    requires var parsed := ParseStem(files[i].stem);
      !parsed.Rejected? && dt == (if parsed.Stamp? then parsed.dt else files[i].mtime)
    ensures Prepend(out, CombinedOf(files[i..], transcribe))
      == Prepend(out + Entry(files[i], dt, transcribe(files[i])), CombinedOf(files[i + 1..], transcribe))
  {
    assert files[i..][0] == files[i];
    assert files[i..][1..] == files[i + 1..];
    assert HeaderTime(files[i]) == Ok(dt);
    PrependTwice(out, Entry(files[i], dt, transcribe(files[i])), CombinedOf(files[i + 1..], transcribe));
  }

  lemma PrependTwice(a: string, b: string, r: Result<string>)
    ensures Prepend(a, Prepend(b, r)) == Prepend(a + b, r)
  {
    if r.Ok? {
      assert a + (b + r.value) == (a + b) + r.value;
    }
  }

  /** The header shows the very datetime the file was sorted by. For a file
      dated only by its modification time this rests on the model reading one
      `mtime` for both: the program stats the file once for the key and again
      in the loop, so the two agree only if the file is not touched between. */
  lemma HeaderTimeIsSortKeyTime(p: PathInfo)
    ensures HeaderTime(p).Ok? <==> SortKey(p).Ok?
    ensures HeaderTime(p).Ok? ==> HeaderTime(p).value == SortKey(p).value.dt
  {
  }

  /** For a filename-dated file the header's date and time are the stem's
      fourteen digits re-punctuated as `YYYY-MM-DD HH:MM:SS`. */
  lemma DatedHeaderShowsStemDigits(p: PathInfo, language: string)
    requires ParseStem(p.stem).Stamp?
    ensures HeaderTime(p).Ok?
    ensures Header(HeaderTime(p).value, p.name, language)
      == "\n===== " + Repunctuated(p.stem) + " | " + p.name + " | lang=" + language + " =====\n"
  {
    StampMatchesStemDigits(p.stem);
  }

  /** The text the loop writes for files that all have a sort key: the entry
      of each file, in list order, with its sort-key datetime in the header. */
  function EntriesOf(files: seq<PathInfo>, transcribe: PathInfo -> Transcription): string
    requires forall i | 0 <= i < |files| :: SortKey(files[i]).Ok?
  {
    if files == [] then ""
    else
      assert forall i | 0 <= i < |files| - 1 :: files[1..][i] == files[i + 1];
      Entry(files[0], SortKey(files[0]).value.dt, transcribe(files[0])) + EntriesOf(files[1..], transcribe)
  }

  /** Once every file has a sort key, no header can raise: the combined
      transcript is each file's entry, in list order, with the datetime the
      file was sorted by. */
  lemma {:induction false} CombinedIsEntries(files: seq<PathInfo>, transcribe: PathInfo -> Transcription)
    requires forall i | 0 <= i < |files| :: SortKey(files[i]).Ok?
    ensures CombinedOf(files, transcribe) == Ok(EntriesOf(files, transcribe))
  {
    if files != [] {
      assert forall i | 0 <= i < |files| - 1 :: files[1..][i] == files[i + 1];
      HeaderTimeIsSortKeyTime(files[0]);
      CombinedIsEntries(files[1..], transcribe);
    }
  }

  /** After a successful sort, the combined transcript exists and is the
      entries of the files in sorted order, one after the other, each header
      showing the datetime its file was sorted by. */
  lemma CombinedOfSorted(files: seq<PathInfo>, transcribe: PathInfo -> Transcription)
    requires SortFiles(files).Ok?
    ensures var out := SortFiles(files).value;
      && (forall i | 0 <= i < |out| :: SortKey(out[i]).Ok?)
      && CombinedOf(out, transcribe) == Ok(EntriesOf(out, transcribe))
  {
    SortedByKey(files);
    CombinedIsEntries(SortFiles(files).value, transcribe);
  }
}
