/** The order of the combined transcript: `sort_key` and
    `sorted(list(iter_audio_files(in_root)), key=sort_key)`. */
module Ordering {
  import opened Common
  import opened StemParser
  import opened Discovery
  import opened Keys
  import opened StableSort

  /** `sort_key(p)`: the filename timestamp with priority 0 when the stem
      parses, otherwise the modification time with priority 1; strptime's
      ValueError propagates. */
  function SortKey(p: PathInfo): (r: Result<Key>)
    ensures r.Err? <==> ParseStem(p.stem).Rejected?
    ensures r.Ok? ==> r.value.name == p.name
    ensures r.Ok? ==> (r.value.priority == 0 <==> ParseStem(p.stem).Stamp?)
    ensures r.Ok? ==> (r.value.priority == 1 <==> ParseStem(p.stem).NoMatch?)
    ensures r.Ok? && r.value.priority == 0 ==> r.value.dt == ParseStem(p.stem).dt
    ensures r.Ok? && r.value.priority == 1 ==> r.value.dt == p.mtime
  {
    match ParseStem(p.stem)
    case Stamp(dt) => Ok(Key(0, dt, p.name))
    case NoMatch => Ok(Key(1, p.mtime, p.name))
    case Rejected => Err(StrptimeValueError(p.stem))
  }

  /** The key of a file whose stem does not make strptime raise; it agrees with
      `sort_key` on every such file, and is only used once every file's key
      has been computed without error. */
  function KeyOf(p: PathInfo): (k: Key)
    ensures SortKey(p).Ok? ==> SortKey(p).value == k
  {
    match ParseStem(p.stem)
    case Stamp(dt) => Key(0, dt, p.name)
    case _ => Key(1, p.mtime, p.name)
  }

  /** The error of the first file, in list order, whose key computation
      raises: the one `sorted` propagates. */
  function FirstKeyError(files: seq<PathInfo>): (e: Option<Error>)
    ensures e.None? <==> forall i | 0 <= i < |files| :: SortKey(files[i]).Ok?
    ensures e.Some? ==> exists i | 0 <= i < |files| ::
      SortKey(files[i]) == Err(e.value) && forall j | 0 <= j < i :: SortKey(files[j]).Ok?
  {
    if files == [] then None
    else match SortKey(files[0])
      case Err(err) => Some(err)
      case Ok(_) =>
        var e := FirstKeyError(files[1..]);
        if e.Some? then FirstKeyErrorShifts(files, e.value); e else e
  }

  /** A file raising after the first, with none raising before it, is one
      raising in the whole list with none raising before it. */
  lemma FirstKeyErrorShifts(files: seq<PathInfo>, err: Error)
    requires files != [] && SortKey(files[0]).Ok?
    requires exists i | 0 <= i < |files| - 1 ::
      SortKey(files[1..][i]) == Err(err) && forall j | 0 <= j < i :: SortKey(files[1..][j]).Ok?
    ensures exists i | 0 <= i < |files| ::
      SortKey(files[i]) == Err(err) && forall j | 0 <= j < i :: SortKey(files[j]).Ok?
  {
    var i :| 0 <= i < |files| - 1 && SortKey(files[1..][i]) == Err(err)
      && forall j | 0 <= j < i :: SortKey(files[1..][j]).Ok?;
    assert SortKey(files[i + 1]) == Err(err);
    forall j | 0 <= j < i + 1 ensures SortKey(files[j]).Ok? {
      if j > 0 { assert files[j] == files[1..][j - 1]; }
    }
  }

  // ---------------------------------------------------------------------------
  // sorted(files, key=sort_key)
  // ---------------------------------------------------------------------------

  /** `sorted(files, key=sort_key)`: every key is computed first, in list
      order, and the first ValueError escapes; otherwise the stable sort. */
  function SortFiles(files: seq<PathInfo>): (r: Result<seq<PathInfo>>)
    ensures r.Err? <==> exists i | 0 <= i < |files| :: ParseStem(files[i].stem).Rejected?
    ensures r.Ok? ==> multiset(r.value) == multiset(files)
  {
    match FirstKeyError(files)
    case Some(e) => Err(e)
    case None => Ok(SortByKey(files, KeyOf))
  }

  /** The sorted list is non-decreasing under `sort_key`, whose values all exist. */
  lemma SortedByKey(files: seq<PathInfo>)
    requires SortFiles(files).Ok?
    ensures var out := SortFiles(files).value;
      && (forall i | 0 <= i < |out| :: SortKey(out[i]).Ok?)
      && forall i, j | 0 <= i < j < |out| :: KeyLe(SortKey(out[i]).value, SortKey(out[j]).value)
  {
    var out := SortFiles(files).value;
    forall i | 0 <= i < |out| ensures SortKey(out[i]).Ok? {
      assert out[i] in multiset(files);
    }
  }

  /** Every filename-dated file precedes every file dated only by its
      modification time, whatever the two datetimes are. */
  lemma DatedBeforeUndated(files: seq<PathInfo>, i: nat, j: nat)
    requires SortFiles(files).Ok?
    requires i < |SortFiles(files).value| && j < |SortFiles(files).value|
    requires ParseStem(SortFiles(files).value[i].stem).Stamp?
    requires ParseStem(SortFiles(files).value[j].stem).NoMatch?
    ensures i < j
  {
    var out := SortFiles(files).value;
    assert Ordered(out, KeyOf);
  }

  /** Files with equal priority and datetime appear in order of their names. */
  lemma TiesOrderedByName(files: seq<PathInfo>, i: nat, j: nat)
    requires SortFiles(files).Ok?
    requires i < j < |SortFiles(files).value|
    requires KeyOf(SortFiles(files).value[i]).priority == KeyOf(SortFiles(files).value[j]).priority
    requires KeyOf(SortFiles(files).value[i]).dt == KeyOf(SortFiles(files).value[j]).dt
    ensures !StrLess(SortFiles(files).value[j].name, SortFiles(files).value[i].name)
  {
    var out := SortFiles(files).value;
    assert KeyLe(KeyOf(out[i]), KeyOf(out[j]));
  }

  /** Python's `sorted` is stable: files with identical keys (equal names in
      different folders, equal datetimes) stay in discovery order. */
  lemma SortFilesIsStable(files: seq<PathInfo>, k: Key)
    requires SortFiles(files).Ok?
    ensures WithKey(SortFiles(files).value, KeyOf, k) == WithKey(files, KeyOf, k)
  {
    SortByKeyIsStable(files, KeyOf, k);
  }

  /** Any ordered permutation that keeps equal keys in discovery order is the
      list `sorted` returns. */
  lemma SortFilesIsTheStableSort(files: seq<PathInfo>, out: seq<PathInfo>)
    requires SortFiles(files).Ok?
    requires Ordered(out, KeyOf)
    requires forall k :: WithKey(out, KeyOf, k) == WithKey(files, KeyOf, k)
    ensures out == SortFiles(files).value
  {
    forall k ensures WithKey(out, KeyOf, k) == WithKey(SortByKey(files, KeyOf), KeyOf, k) {
      SortByKeyIsStable(files, KeyOf, k);
    }
    StableOrderIsUnique(out, SortByKey(files, KeyOf), KeyOf);
  }
}
