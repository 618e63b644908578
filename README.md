# Ordering core of `transcribe_all.py`, modelled in Dafny

`src/transcribe_all.py` transcribes every recording under a folder and writes one
combined transcript. Before any transcription, it fixes two things:

- the order in which the recordings appear in the combined transcript;
- the timestamp shown in each recording's header line.

This project models that ordering core and proves what it promises:

- **Filename timestamps.** `DT_RE = ^(\d{8}) (\d{6})` and `parse_dt_from_stem`.
  A stem that starts with `YYYYMMDD HHMMSS` gives a naive datetime. Any other stem
  gives `None`.
- **Discovery.** `iter_audio_files` keeps regular files whose name does not start
  with `._` and whose lower-cased suffix is one of the ten `AUDIO_EXTS`.
- **Sort key and sort.** `sort_key` returns `(0, filename_dt, name)` when the stem
  parses, otherwise `(1, mtime_dt, name)`. `sorted(..., key=sort_key)` orders the
  discovered files by that key, comparing tuples lexicographically, and is stable.
- **Header.** In `main`'s loop, each header takes the parsed stem datetime,
  otherwise the modification time. It is rendered as
  `===== YYYY-MM-DD HH:MM:SS | <name> | lang=<code> =====`.

Modules, one file each:

- `DateTimes` (`datetimes.dfy`): naive datetimes. Covers the field ranges `datetime`
  enforces, the order it compares by, and `strftime('%Y-%m-%d %H:%M:%S')`.
- `StemParser` (`stem_parser.dfy`): the pattern and `strptime`.
- `Discovery` (`discovery.dfy`): the filter, with the loop as a method.
- `Keys` (`keys.dfy`): the key tuple and Python's `<` on it.
- `StableSort` (`stable_sort.dfy`): `sorted` with a key, generic in the element type.
- `Ordering` (`ordering.dfy`): `sort_key` and the sort of the discovered files.
- `Transcript` (`transcript.dfy`): the header choice and the text `main` appends
  per file.
- `Common` (`common.dfy`): the error and result types.

Behaviour of the code kept as written:

- **An invalid date in a matching stem stops the run.** Example: a stem starting
  `20260230 120000`. `DT_RE` matches it, but `strptime` raises `ValueError` and
  nothing catches it. The error escapes `sort_key`, so `sorted` and the whole run
  stop. The file does not fall back to its modification time.
  - The model keeps this: `ParseStem` returns `Rejected`, `SortKey` and `SortFiles`
    return `Err`.
  - A per-file ValueError is not absorbed: one bad stem stops the whole run.
- **When `strptime` accepts the digits.** On exactly fourteen ASCII digits, it
  accepts only these two-digit groups:
  - month 01-12;
  - day 01-31;
  - hour 00-23;
  - minute 00-59;
  - second 00-61.

  `datetime` then rejects year 0, a day past the end of its month, and second 60
  or 61. So a matching stem parses exactly when its groups form a valid
  `datetime`. This is what `ParseStem` models.
- **Only two timestamp sources.** There is no media-metadata probe, no
  sequence-number grouping and no `:n` collision suffix in this code. The
  priorities are 0 (filename) and 1 (modification time).

## Model

| member | source | states |
|---|---|---|
| `StemParser.ParseStem` | src/transcribe_all.py:11-17 | the result is `None` (NoMatch) exactly unless the stem starts with 8 ASCII digits, a space and 6 ASCII digits; a parsed datetime has no sub-second part |
| `StemParser.StampMatchesStemDigits` | src/transcribe_all.py:11-17 | a parsed stem's year, month, day, hour, minute and second are the digit groups YYYY, MM, DD, HH, MM, SS; rendered, they are the stem's first 15 characters re-punctuated |
| `StemParser.ParseStampText` | src/transcribe_all.py:13-17 | inverse direction: a stem starting with the 15 characters that spell a whole-second datetime parses back to that datetime, whatever text follows |
| `StemParser.ParseStemIgnoresTail` | src/transcribe_all.py:11-14 | no end anchor: appending any text to a stem of 15 or more characters leaves the result unchanged; only the first 15 characters matter |
| `Discovery.IterAudioFiles` | src/transcribe_all.py:19-26 | the loop yields exactly the walked paths that pass the three tests, in walk order |
| `Discovery.AudioFilesOf` | src/transcribe_all.py:19-26 | the generator yields at most as many files as were walked, and every file it yields passes the three tests |
| `Discovery.DiscoveredIff` | src/transcribe_all.py:19-26 | a path is discovered iff it was walked, is a regular file, its name does not begin with `._`, and its lower-cased suffix is in `AUDIO_EXTS` |
| `Discovery.DiscoveryKeepsWalkOrder` | src/transcribe_all.py:20-26 | discovery preserves walk order: the files found in a walk split in two parts are those of the first part followed by those of the second |
| `Discovery.SuffixCaseIgnored` | src/transcribe_all.py:9-25 | the extension test is case-insensitive: a suffix is accepted iff its upper-case form is (e.g. `.WAV` and `.wav`) |
| `DateTimes.BeforeIsStrictTotalOrder` | src/transcribe_all.py:31-33 | `<` on naive datetimes (field by field, year first) is irreflexive, transitive and total on distinct datetimes |
| `Keys.StrLessIsStrictTotalOrder` | src/transcribe_all.py:31-33 | `<` on `str` (code point by code point, a proper prefix first) is irreflexive, transitive and total on distinct strings |
| `Keys.KeyLessIsStrictTotalOrder` | src/transcribe_all.py:28-33 | Python's `<` on the `(priority, datetime, name)` tuples is irreflexive, transitive and total on distinct keys |
| `Keys.KeyLeIsTotalOrder` | src/transcribe_all.py:51 | "not greater than" on keys, the order `sorted` arranges by, is reflexive, transitive, antisymmetric and total |
| `Ordering.SortKey` | src/transcribe_all.py:28-33 | priority is 0 exactly when the stem parses, and the key then carries the parsed stem datetime; priority 1 exactly when the stem does not match, with the mtime; the name is the file's name; of the failures modelled, strptime's ValueError is the only one |
| `Ordering.FirstKeyError` | src/transcribe_all.py:51 | no error exactly when every file has a key; otherwise the error is that of a file whose key raises while every file before it has one, i.e. the first failing file in list order, whose ValueError `sorted` propagates |
| `StableSort.SortByKey` | src/transcribe_all.py:51 | the sort returns a permutation of its input that is non-decreasing under the key |
| `StableSort.SortByKeyIsStable` | src/transcribe_all.py:51 | stability: for every key, the elements carrying it appear in the result in their input order |
| `StableSort.StableOrderIsUnique` | src/transcribe_all.py:51 | two key-ordered lists that hold, for every key, the same elements in the same order are equal, so every stable sort, Timsort included, gives the same list |
| `Ordering.SortFiles` | src/transcribe_all.py:51 | `sorted` fails iff some discovered file's stem makes strptime raise; otherwise it returns a permutation of the discovered files |
| `Ordering.SortedByKey` | src/transcribe_all.py:51 | every sorted file has a key, and the sorted list is non-decreasing under `sort_key` |
| `Ordering.DatedBeforeUndated` | src/transcribe_all.py:29-33 | after sorting, every filename-dated file precedes every mtime-only file, whatever the datetimes |
| `Ordering.TiesOrderedByName` | src/transcribe_all.py:31-33 | sorted files with equal priority and equal datetime are in non-decreasing order of their full names |
| `Ordering.SortFilesIsStable` | src/transcribe_all.py:51 | files with identical keys (same name in different folders, same datetime) stay in discovery order |
| `Ordering.SortFilesIsTheStableSort` | src/transcribe_all.py:51 | any key-ordered list that keeps equal-key files in discovery order is exactly the list `sorted` returns |
| `DateTimes.Format` | src/transcribe_all.py:72 | `strftime('%Y-%m-%d %H:%M:%S')`: 19 characters, with a zero-padded date part, a space and a zero-padded time part |
| `DateTimes.FormatDate` | src/transcribe_all.py:72 | `%Y-%m-%d` is 4+2+2 digits with `-` separators, and the digits spell the year, month and day |
| `DateTimes.FormatTime` | src/transcribe_all.py:72 | `%H:%M:%S` is 2+2+2 digits with `:` separators, and the digits spell the hour, minute and second |
| `DateTimes.FormatDeterminesSeconds` | src/transcribe_all.py:72 | two datetimes render alike iff they agree down to the second; microseconds are dropped |
| `Transcript.HeaderTime` | src/transcribe_all.py:67-70 | the header datetime is the parsed stem datetime when the stem parses, the mtime when the pattern does not match, and strptime's ValueError when the pattern matches but the date is invalid |
| `Transcript.Header` | src/transcribe_all.py:72 | the header line is 44 characters longer than the file name and the language code together |
| `Transcript.HeaderLayout` | src/transcribe_all.py:72 | the header is a newline and `===== `, the 19-character timestamp, a bar separator, the file name, a bar separator with `lang=`, the language code, then ` =====` and a newline, each at a fixed offset |
| `Transcript.HeaderTimeIsSortKeyTime` | src/transcribe_all.py:67-70 | the header datetime exists exactly when the sort key does, and is the datetime in the file's sort key: the parsed stem if available, else mtime |
| `Transcript.DatedHeaderShowsStemDigits` | src/transcribe_all.py:67-72 | for a filename-dated file, the header's date and time are the stem's 14 digits re-punctuated |
| `Transcript.WriteCombined` | src/transcribe_all.py:59-73 | the loop over the files appends, in list order, each file's header and text, or stops with the header's ValueError |
| `Transcript.CombinedIsEntries` | src/transcribe_all.py:59-73 | once every file has a sort key, no header can raise: the combined transcript is every file's header and text, in list order, each header showing that file's sort-key datetime |
| `Transcript.CombinedOfSorted` | src/transcribe_all.py:51-73 | after a successful sort, the combined transcript exists and is the entries of all sorted files in sorted order, each header showing the datetime its file was sorted by |

## Left out

- Speech-to-text (lines 7, 54-55, 61-62). The `WhisperModel` construction, `transcribe`, segment joining and `strip` belong to a foreign library. Each file's stripped text and detected language are a given function `transcribe` from file to `Transcription`.
- Output I/O (lines 47-49, 57-58, 64-65, 73, 75-77). Directory creation, the per-file transcript writes, opening the combined file and the final prints are left out. The combined transcript is modelled as the string the loop writes.
- Command-line handling (lines 36-45). The `sys.argv` checks, path resolution, the input-existence check and `sys.exit` are left out.
- Filesystem traversal and stat (lines 20-21, 33, 70). The `rglob` walk is an input sequence, in its order. `is_file` and the modification time are fields of each path. `datetime.fromtimestamp` involves floats and the host time zone, so the modification time is given as an already-converted naive datetime, microseconds included.
- Two reads of the modification time (lines 33 and 70). The program stats an undated file once in `sort_key` and again in the loop, after every earlier file has been transcribed. The model reads one `mtime` field for both, so `Transcript.HeaderTimeIsSortKeyTime` holds for such a file only if it is not modified in between. Failures of those calls are not modelled either: `FileNotFoundError` or `OSError` from `stat`, and `OverflowError` or `OSError` from `fromtimestamp`. strptime's ValueError is the only failure the model has.
- File names that are not valid UTF-8. On POSIX, Python decodes such bytes to lone surrogates U+DC80 to U+DCFF. A Dafny `char` cannot hold a surrogate, so such names and stems have no value in `PathInfo`, and `StrLess` and `Lower` never see them.
- pathlib (line 25 and others). `name`, `stem` and `suffix` are given strings. The rule that splits a name into stem and suffix is not modelled.
- `\d` on non-ASCII digits (line 11). Python's `\d` matches every Unicode decimal digit. The model accepts ASCII `0`-`9` only, so stems written with other digits give NoMatch here.
- `str.lower` (line 25) is modelled only as far as it decides membership in `AUDIO_EXTS`. ASCII capitals and KELVIN SIGN (which lower-cases to `k`) are mapped. Every other character is kept as it is.
- `%Y` for years below 1000 (line 72). The model zero-pads to four digits. glibc's `strftime` prints such years without padding, so on Linux a filename dated `0999...` would show `999-...` in its header.
- Timsort (line 51). `sorted` is modelled by a stable insertion sort. `StableSort.StableOrderIsUnique` shows that any stable sort gives the same list, so the algorithm itself is not modelled.
- WriteCombined: when a header raises, Python has already written the earlier entries to the combined file. The model returns only the error, without the text written before it. After a successful sort this case cannot occur (`Transcript.CombinedIsEntries`).
- The environment variable `WHISPER_MODEL` (line 54) only selects the speech model. It is not modelled.
