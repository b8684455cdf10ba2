# Data-pipeline summaries and folder provisioning, in Dafny

This project models the part of the `datafun-03-analytics` repository whose behaviour
depends on the shape of the data, and proves properties of that model.

- **Word-frequency summary** (`process_txt_file`). The text is lower-cased. It is cut into
  the maximal runs of word characters that `re.findall(r'\w+', ...)` finds. The runs are
  counted with a `Counter`, and one `word: count` line is written per distinct word, in
  order of first occurrence.
- **CSV summary** (`process_csv_file`). The first record is the header. The summary is
  `Number of rows: k` and then `Columns: <header as Python prints a list>`. A file without
  records raises `StopIteration`, which the function does not catch.
- **JSON summary** (`process_json_file`). It reports
  `Number of records: len(data.get('people', []))`. A top level that is not an object
  raises `AttributeError`. A `people` value without a length raises `TypeError`. Neither
  error is caught.
- **Persist/process boundary**. The file system is a map from path to content, held by
  the class `Analytics.FileStore`, with the set of paths that cannot be opened for
  writing. The writers store the payload unchanged, or raise `OSError`. Every processor
  re-reads its input and replaces its whole output file with the summary; an output that
  cannot be opened is a logged `IOError` that writes nothing.
- **Folder provisioning** (`huntsman_project_setup.py`). The directory tree is a set of
  paths, held by the class `ProjectSetup.ProjectTree`. Each helper builds folder names in a
  loop and adds them with an idempotent `mkdir(exist_ok=True)`.

Modules:
- `Outcomes`: result and error kinds.
- `Ascii`: `\w`, `lower()` and character-class spans.
- `Decimal`: `str(int)` and a reader that inverts it.
- `WordCount`: tokens, counter, rendering and the reader of a summary.
- `PyRepr`: `repr` of a string and of a list of strings, and a reader that inverts it.
- `CsvSummary` and `JsonSummary`: the two summaries and their readers.
- `Analytics`: the file store, its write and process methods, and lemmas about the
  pipeline stages.
- `ProjectSetup`: folder names, the directory tree and its helpers.

Every summary has a reader that is proved to invert it. This is how the contracts say
that the output holds exactly the intended information, and not just some string.

The model follows the code in these cases, which the functions' docstrings do not describe:
- An empty CSV file raises an uncaught `StopIteration`. It is not reported as an I/O
  error.
- A JSON top level that is not an object raises an uncaught `AttributeError`. It is not
  reported as a decode error.
- A writer whose target cannot be opened raises `OSError` to its caller. The writers have
  no handler of their own, so the failure is not logged.

## Model

| member | source | states |
|---|---|---|
| `Ascii.Lower` | huntsman_analytics.py:63 | `text.lower()` on ASCII: same length, no upper-case letter left, every other character unchanged |
| `Ascii.SpanOfPrefix` | huntsman_analytics.py:63 | a run of class characters followed by the end or by a character outside the class is exactly one span long (the greedy `+` of `\w+`) |
| `Ascii.SpanBounds` | huntsman_analytics.py:63 | a run taken by the scanner is as long as possible: every character in it is in the class and the one after it is not |
| `Decimal.NatToString` | huntsman_analytics.py:66 | the f-string rendering of a count is a non-empty digit string without a leading zero |
| `Decimal.IntToString` | huntsman_project_setup.py:28 | `str(year)` is a non-empty string of digits and minus signs; `ParseIntToString` proves it reads back as the year |
| `Decimal.ParseIntToString` | huntsman_project_setup.py:28 | reading back `str(year)` gives the year, negative years included |
| `Decimal.IntToStringInjective` | huntsman_project_setup.py:28 | distinct years give distinct folder names |
| `WordCount.WordSummary` | huntsman_analytics.py:62-66 | the text written by `process_txt_file`: the rendered counter of the lower-cased tokens; `WordSummaryReadsBack` proves what it holds |
| `WordCount.CountWords` | huntsman_analytics.py:63 | the `Counter` of the tokens as a list of entries; `CountWordsCounts` pins it down uniquely |
| `WordCount.Line` | huntsman_analytics.py:66 | one `word: count` line; `ParseLineOf` proves it reads back as its entry |
| `WordCount.Render` | huntsman_analytics.py:65-66 | the lines of a counter one after another; `RenderAppend` ties it to the write loop and `ParseRender` proves it reads back |
| `WordCount.Tokens` | huntsman_analytics.py:63 | every token that `re.findall(r'\w+', ...)` returns is non-empty and made only of word characters |
| `WordCount.TokensAreNonEmptyPieces` | huntsman_analytics.py:63 | the left-to-right scanner finds exactly the non-empty pieces left when the text is cut at every non-word character |
| `WordCount.NoTokensIffNoWordChar` | huntsman_analytics.py:63 | a text has no token if and only if it has no word character |
| `WordCount.TokensOfLowerText` | huntsman_analytics.py:63 | tokens of a lower-cased text contain no upper-case letter |
| `WordCount.FirstIndex` | huntsman_analytics.py:63 | the index of a word's first occurrence: the word is there and nowhere before it |
| `WordCount.Occurrences` | huntsman_analytics.py:63 | a word's count is positive exactly when the word occurs |
| `WordCount.CountWordsCounts` | huntsman_analytics.py:63 | the `Counter` of the tokens lists each distinct token once, in order of first occurrence, with its number of occurrences, and the counts add up to the number of tokens |
| `WordCount.RenderAppend` | huntsman_analytics.py:65-66 | writing the lines one after another yields the rendering of the whole counter |
| `WordCount.ParseRender` | huntsman_analytics.py:65-66 | the `word: count` lines read back as exactly the counter they were written from |
| `WordCount.WordSummaryReadsBack` | huntsman_analytics.py:63-66 | the word summary reads back as the counter of the lower-cased tokens: one line per distinct token, lower-case word characters only, true counts, first-occurrence order |
| `WordCount.EmptySummaryIffNoWords` | huntsman_analytics.py:63-66 | the summary is empty, and not an error, exactly when the text has no word character (empty text included) |
| `WordCount.SummaryIgnoresCase` | huntsman_analytics.py:63 | a text and its lower-case form have the same summary |
| `WordCount.Example` | huntsman_analytics.py:63-66 | "The cat sat. The dog sat." gives `the: 2`, `cat: 1`, `sat: 2`, `dog: 1` in that order |
| `PyRepr.QuoteFor` | huntsman_analytics.py:100 | `repr` quotes with `"` exactly when the text holds a `'` and no `"`, and with `'` otherwise, so the chosen quote is absent from the text unless it holds both kinds |
| `PyRepr.EscapeChar` | huntsman_analytics.py:100 | the non-empty `repr` form of one character; `ReadBodyStep` proves each form reads back as its character |
| `PyRepr.StrRepr` | huntsman_analytics.py:100 | the `repr` of a header field: quote, escaped body, quote; `ReadLiteralOfRepr` proves it reads back |
| `PyRepr.ListRepr` | huntsman_analytics.py:100 | the `repr` of the header list: the field reprs joined by `, ` in brackets; `ReadListOfRepr` proves it reads back |
| `PyRepr.ReadLiteralOfRepr` | huntsman_analytics.py:100 | the `repr` of a header field, escapes included, reads back as the field |
| `PyRepr.ReadListOfRepr` | huntsman_analytics.py:100 | the printed header list reads back as the header |
| `PyRepr.ListReprExample` | huntsman_analytics.py:100 | the header `a,b,c` prints as `['a', 'b', 'c']` |
| `CsvSummary.Summarize` | huntsman_analytics.py:96-100 | the summary fails with `StopIteration` exactly when there is no record; otherwise it is produced |
| `CsvSummary.ReadSummaryOf` | huntsman_analytics.py:97-100 | for a header and k further records, the summary reads back as exactly k and that header |
| `CsvSummary.Example` | huntsman_analytics.py:97-100 | header `a,b,c` with three data rows gives `Number of rows: 3` and `Columns: ['a', 'b', 'c']` |
| `JsonSummary.Length` | huntsman_analytics.py:167 | `len` succeeds exactly on lists, objects and strings, and raises `TypeError` otherwise |
| `JsonSummary.RecordCount` | huntsman_analytics.py:167 | a top level that is not an object raises `AttributeError`; a missing `people` counts 0; otherwise the count is the length of the `people` value |
| `JsonSummary.Summarize` | huntsman_analytics.py:166-167 | the JSON summary line, or the error `len(data.get(...))` raises; `SummarizeMeaning` states both |
| `JsonSummary.SummarizeMeaning` | huntsman_analytics.py:166-169 | the summary fails exactly for a non-object top level or an unsized `people` value; otherwise it reads back as the record count, 0 when `people` is absent |
| `JsonSummary.ExampleTwoPeople` | huntsman_analytics.py:167 | `{"people": [{"name": "x"}, {"name": "y"}]}` gives `Number of records: 2` |
| `JsonSummary.ExampleEmptyObject` | huntsman_analytics.py:167 | `{}` gives `Number of records: 0`, not an error |
| `JsonSummary.ExampleTopLevelList` | huntsman_analytics.py:167 | a top-level list raises `AttributeError` |
| `Analytics.PathJoin` | huntsman_analytics.py:52 | `pathlib.Path(folder) / filename` as string concatenation; see "Left out" |
| `Analytics.Written` | huntsman_analytics.py:50-55 | a writer's effect: an unopenable target raises `OSError` with every file unchanged; otherwise the target holds the payload and nothing else changes (the same for lines 84-89) |
| `Analytics.TxtProcessed` | huntsman_analytics.py:57-69 | a missing input or an unopenable output is a logged `IOError` that changes nothing; otherwise the output holds exactly the word summary of the input |
| `Analytics.CsvProcessed` | huntsman_analytics.py:91-105 | a missing input is a logged `IOError`; no record raises `StopIteration`; then an unopenable output is a logged `IOError`; the last two change nothing; otherwise the output holds exactly the CSV summary |
| `Analytics.JsonProcessed` | huntsman_analytics.py:161-174 | a missing input, a decode error or an unopenable output is logged; an uncaught error from the summary escapes; none of these changes a file; otherwise the output holds exactly the JSON summary |
| `Analytics.FileStore.constructor` | huntsman_analytics.py:52 | the store starts with the given files and the given unopenable paths |
| `Analytics.FileStore.OpenForWrite` | huntsman_analytics.py:53 | opening in `'w'` mode succeeds exactly for an openable path, and then empties the file or creates it; a failed open changes nothing |
| `Analytics.FileStore.Append` | huntsman_analytics.py:54 | a write appends to the open file and touches nothing else |
| `Analytics.FileStore.WriteTxtFile` | huntsman_analytics.py:50-55 | the call has the effect `Written`: `folder/filename` holds the payload unchanged and no other file changes, or `OSError` escapes and nothing changes |
| `Analytics.FileStore.WriteCsvFile` | huntsman_analytics.py:84-89 | the call has the effect `Written`: `folder/filename` holds the payload unchanged and no other file changes, or `OSError` escapes and nothing changes |
| `Analytics.FileStore.ProcessTxtFile` | huntsman_analytics.py:57-69 | the call has the effect `TxtProcessed`; the summary is written line by line by the loop |
| `Analytics.FileStore.ProcessCsvFile` | huntsman_analytics.py:91-105 | the call has the effect `CsvProcessed` |
| `Analytics.FileStore.ProcessJsonFile` | huntsman_analytics.py:161-174 | the call has the effect `JsonProcessed` |
| `Analytics.WriteThenProcessTxt` | huntsman_analytics.py:52-66 | writing text and then processing that file: an unopenable target raises `OSError`; an unopenable output is logged; otherwise the run completes, keeps the payload, and writes the summary of the payload, which reads back as its word counter |
| `Analytics.WriteThenProcessCsv` | huntsman_analytics.py:86-102 | writing CSV text and then processing it: an unopenable target raises `OSError`; no record raises `StopIteration` and an unopenable output is logged, both with nothing written; otherwise the summary reads back as the payload's row count and header |
| `Analytics.ProcessorsOverwriteOnlyOutput` | huntsman_analytics.py:64-66 | a completed processor (text, CSV or JSON) replaces the whole output file and no other path; one that does not complete changes nothing |
| `Analytics.ProcessTxtTwice` | huntsman_analytics.py:57-69 | running the text processor a second time on the same input changes nothing, when the output and input path strings differ |
| `Analytics.ProcessCsvJsonTwice` | huntsman_analytics.py:91-174 | running the CSV or JSON processor a second time on the same input changes nothing, when the output and input path strings differ |
| `ProjectSetup.Child` | huntsman_project_setup.py:43 | `data_path / name` as string concatenation; `ChildInjective` and `ChildUnderData` state its properties |
| `ProjectSetup.ChildUnderData` | huntsman_project_setup.py:15 | `data_path / name` lies directly under `data` when the name is non-empty and has no separator |
| `ProjectSetup.ChildInjective` | huntsman_project_setup.py:15 | distinct names give distinct paths under `data` |
| `ProjectSetup.ReplaceSpaces` | huntsman_project_setup.py:42 | `replace(" ", "_")` keeps the length and leaves no space |
| `ProjectSetup.ProjectTree.constructor` | huntsman_project_setup.py:15-18 | loading the module adds `data` to the existing directories |
| `ProjectSetup.ProjectTree.Mkdir` | huntsman_project_setup.py:29 | `mkdir(exist_ok=True)` adds the directory, and an existing one is no error |
| `ProjectSetup.YearFolder` | huntsman_project_setup.py:28 | the folder of one year; `YearFolderInjective` proves distinct years give distinct folders |
| `ProjectSetup.RangeFolders` | huntsman_project_setup.py:27-29 | the folders of the range helper; `RangeFoldersMembers`, `RangeFoldersCount` and `RangeFoldersUnderData` state which, how many and where |
| `ProjectSetup.ProjectTree.CreateFoldersForRange` | huntsman_project_setup.py:26-30 | the new tree is the old one plus the year folders of the range |
| `ProjectSetup.RangeFoldersMembers` | huntsman_project_setup.py:27-29 | the range helper makes `data/str(y)` exactly for the years s ≤ y ≤ e |
| `ProjectSetup.RangeFoldersCount` | huntsman_project_setup.py:27-29 | the range helper makes e − s + 1 distinct folders, none when s > e |
| `ProjectSetup.RangeFoldersUnderData` | huntsman_project_setup.py:27-29 | every folder the range helper makes is directly under `data` |
| `ProjectSetup.ProjectTree.CreateFoldersFromList` | huntsman_project_setup.py:37-45 | the new tree is the old one plus one folder per list item, named by the two flags |
| `ProjectSetup.FolderName` | huntsman_project_setup.py:38-42 | the name one list item gets; `FolderNameRules` states it character by character |
| `ProjectSetup.ListFolders` | huntsman_project_setup.py:38-44 | the folders of the list helper, one per item; `ListFoldersCount` counts them |
| `ProjectSetup.FolderNameRules` | huntsman_project_setup.py:38-43 | with `remove_spaces` no space is left; with `to_lowercase` no upper-case letter is left; with neither flag the name is the item; each character is lowered, then a space becomes `_`, as the flags ask |
| `ProjectSetup.LowerThenReplaceCommute` | huntsman_project_setup.py:39-42 | lower-casing before replacing spaces gives the same name as the other order |
| `ProjectSetup.ListFoldersCount` | huntsman_project_setup.py:38-44 | when the items' folder names are pairwise distinct, the list helper makes exactly one folder per item |
| `ProjectSetup.ProjectTree.CreatePrefixedFolders` | huntsman_project_setup.py:53-58 | the new tree is the old one plus `data/<prefix>-<name>` for each list item |
| `ProjectSetup.PrefixedName` | huntsman_project_setup.py:56 | `f"{prefix}-{folder_name}"`; `PrefixedNameExample` and `PrefixedFolderInjective` state its properties |
| `ProjectSetup.PrefixedFolders` | huntsman_project_setup.py:54-57 | the folders of the prefix helper, one per item; `PrefixedFoldersCount` counts them |
| `ProjectSetup.PrefixedNameExample` | huntsman_project_setup.py:56 | prefix `data-` and name `csv` give the folder `data/data--csv` |
| `ProjectSetup.PrefixedFolderInjective` | huntsman_project_setup.py:56 | distinct list items give distinct prefixed folders |
| `ProjectSetup.PrefixedFoldersCount` | huntsman_project_setup.py:54-57 | pairwise distinct items give exactly one prefixed folder each |
| `ProjectSetup.PeriodicFolder` | huntsman_project_setup.py:67 | the folder `data/folder_<i>`; `PeriodicFolderInjective` proves distinct indices give distinct folders |
| `ProjectSetup.PeriodicFolders` | huntsman_project_setup.py:66-68 | the folders of the periodic helper; `PeriodicFoldersMembers`, `PeriodicFoldersCount` and `PeriodicFoldersUnderData` state which, how many and where |
| `ProjectSetup.SleepError` | huntsman_project_setup.py:70 | `time.sleep` of an integer raises `OverflowError` exactly when the duration's nanoseconds do not fit in a signed 64 bits (beyond ±9223372036 seconds), `ValueError` exactly for the other negative durations, and nothing otherwise |
| `ProjectSetup.ProjectTree.CreateFoldersPeriodically` | huntsman_project_setup.py:65-70 | with a duration from 0 to 9223372036 seconds the new tree is the old one plus all periodic folders; with any other duration `time.sleep` raises its `SleepError` right after `data/folder_0` is made, so only that folder is added (none when the count is not positive, and then no error) |
| `ProjectSetup.PeriodicFoldersMembers` | huntsman_project_setup.py:66-68 | the periodic helper makes exactly `data/folder_0` … `data/folder_{n-1}`, none when n ≤ 0 |
| `ProjectSetup.PeriodicFoldersCount` | huntsman_project_setup.py:66-68 | the periodic helper makes n distinct folders when n > 0 |
| `ProjectSetup.PeriodicFoldersUnderData` | huntsman_project_setup.py:66-68 | every folder the periodic helper makes is directly under `data` |
| `ProjectSetup.AllUnderData` | huntsman_project_setup.py:43-56 | every folder of the list and prefix helpers has the path prefix `data/` |
| `ProjectSetup.RerunAddsNothing` | huntsman_project_setup.py:26-70 | calling each helper twice leaves the tree as one call does: the old tree plus the generated folders, with no existing folder lost |

## Left out

- Fetching (`fetch_and_write_txt_data`, `fetch_and_write_csv_data`, `fetch_and_write_excel_data`, `fetch_and_write_json_data`): network I/O through `requests`.
- `process_excel_file` and `write_excel_file`: pandas `read_excel` and `describe()`, which are library calls with floating-point statistics.
- `write_json_file`: the `json.dump(indent=4)` formatting belongs to the `json` library.
- `json.load` and `csv.reader`: the processors take them as function parameters (`load`, `reader`). A `csv.Error` raised by the reader is not modelled.
- `utils_huntsman.py`: a fixed byline string, built from floating-point statistics.
- `main()` of both modules: fixed constants and a fixed call order. Its prefixed folders (`data/data--txt`, …) are not the folders the pipelines write to (`data-txt`, …, in the working directory).
- Logging, `print`, and the pause of `time.sleep`. Only the errors `time.sleep` raises for its integer argument (`OverflowError`, `ValueError`) are modelled.
- `\w` and `lower()` are restricted to ASCII. Python's Unicode letters and case mappings are not modelled.
- Newline translation of text-mode files is not modelled. It does not change any token, and the CSV text reaches the model through `reader`.
- JSON numbers keep their literal text. They only matter as values that have no `len`.
- `PyRepr.EscapeChar`: treats every non-ASCII character as printable. Python escapes the non-printable ones (for example U+00A0).
- `Analytics.FileStore.WriteTxtFile`: every failure to open the target (`FileNotFoundError`, `IsADirectoryError`, `PermissionError`) is one `OSError`. Why a path cannot be opened is not modelled; it is a given set of paths.
- `Analytics.FileStore.WriteCsvFile`: every failure to open the target is one `OSError`, as for `WriteTxtFile`.
- `Analytics.FileStore.ProcessTxtFile`: any unreadable input is modelled as a missing path. File contents are decoded text, so the `UnicodeDecodeError` that `file.read()` raises on undecodable bytes, which `except IOError` does not catch, is not modelled.
- `Analytics.FileStore.ProcessCsvFile`: file contents are decoded text, so the uncaught `UnicodeDecodeError` that `next(reader)` raises on undecodable bytes is not modelled.
- `Analytics.FileStore.ProcessJsonFile`: `load` returns either a value or a `JSONDecodeError`, so the uncaught `UnicodeDecodeError` that `json.load` raises on undecodable bytes is not modelled.
- `Analytics.PathJoin`: paths are joined and compared as strings. `pathlib` drops a trailing `/` of the folder, collapses `.` components and repeated `/`, and lets an absolute filename replace the folder, and the file system lets distinct strings name one file (`data-txt/x` and `./data-txt/x`). The model treats such strings as different files, so `ProcessTxtTwice` and `ProcessCsvJsonTwice` hold only when the output and the input are different files, not just different strings.
- `ProjectSetup.ProjectTree.Mkdir`: does not model the `FileExistsError` for a path held by a regular file, or the `FileNotFoundError` for a missing parent.
- `ProjectSetup.Child`: path joining is string concatenation. What `pathlib` normalises is not modelled: an empty name, `.` components, repeated or trailing `/`, and absolute names. `pathlib` keeps `..`, but the file system then treats `data/..` as the project directory itself, which the model does not know either.
