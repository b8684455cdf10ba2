/** The persist and process stages of the text, CSV and JSON pipelines. The file system is
    a map from path to file content, together with the set of paths that `open(path, 'w')`
    cannot open (a missing parent directory, a directory, no permission); every writer
    opens its target in `'w'` mode, so the old content is dropped before the new one is
    written. */
module Analytics {
  import opened Outcomes
  import opened Ascii
  import opened WordCount
  import CsvSummary
  import JsonSummary

  /** `pathlib.Path(folder) / filename`. */
  function PathJoin(folder: string, filename: string): string
  {
    folder + "/" + filename
  }

  /** The files after one call, and how the call ended. */
  datatype Effect = Effect(files: map<string, string>, outcome: Outcome)

  /** `write_txt_file` and `write_csv_file`: a target that cannot be opened raises an
      `OSError` that no handler catches; otherwise the target holds exactly the payload. */
  function Written(files: map<string, string>, unwritable: set<string>, path: string, data: string): Effect
  {
    if path in unwritable then Effect(files, Raised(OSError))
    else Effect(files[path := data], Completed)
  }

  /** `process_txt_file`: a missing input or an output that cannot be opened is an
      `IOError`, caught and logged; otherwise the output file holds exactly the word
      summary of the input. */
  function TxtProcessed(files: map<string, string>, unwritable: set<string>, folderName: string, filename: string,
                        outputFilename: string): Effect
  {
    var path := PathJoin(folderName, filename);
    if path !in files || outputFilename in unwritable then Effect(files, Logged(IOError))
    else Effect(files[outputFilename := WordSummary(files[path])], Completed)
  }

  /** `process_csv_file`, with `reader` standing for `csv.reader` on the file's text. The
      header is taken before the output is opened, so `StopIteration` comes first. */
  function CsvProcessed(files: map<string, string>, unwritable: set<string>, folderName: string, filename: string,
                        outputFilename: string, reader: string -> seq<CsvSummary.Record>): Effect
  {
    var path := PathJoin(folderName, filename);
    if path !in files then Effect(files, Logged(IOError))
    else
      match CsvSummary.Summarize(reader(files[path]))
      case Err(e) => Effect(files, Raised(e))
      case Ok(summary) =>
        if outputFilename in unwritable then Effect(files, Logged(IOError))
        else Effect(files[outputFilename := summary], Completed)
  }

  /** `process_json_file`, with `load` standing for `json.load` on the file's text (`None`
      for a `JSONDecodeError`, which is caught and logged). */
  function JsonProcessed(files: map<string, string>, unwritable: set<string>, folderName: string, filename: string,
                         outputFilename: string, load: string -> Option<JsonSummary.Json>): Effect
  {
    var path := PathJoin(folderName, filename);
    if path !in files then Effect(files, Logged(IOError))
    else
      match load(files[path])
      case None => Effect(files, Logged(JsonDecodeError))
      case Some(data) =>
        match JsonSummary.Summarize(data)
        case Err(e) => Effect(files, Raised(e))
        case Ok(summary) =>
          if outputFilename in unwritable then Effect(files, Logged(IOError))
          else Effect(files[outputFilename := summary], Completed)
  }

  class FileStore {
    var files: map<string, string>
    /** The paths that cannot be opened for writing. */
    const unwritable: set<string>

    constructor (initial: map<string, string>, blocked: set<string>)
      ensures files == initial && unwritable == blocked
    {
      files := initial;
      unwritable := blocked;
    }

    /** `open(path, 'w')`: creates the file or empties it, unless the path cannot be
        opened, in which case nothing changes. */
    method OpenForWrite(path: string) returns (isOpen: bool)
      modifies this
      ensures isOpen <==> path !in unwritable
      ensures files == if isOpen then old(files)[path := ""] else old(files)
    {
      if path in unwritable {
        return false;
      }
      files := files[path := ""];
      isOpen := true;
    }

    /** `file.write(text)` on a file opened for writing. */
    method Append(path: string, text: string)
      requires path in files
      modifies this
      ensures files == old(files)[path := old(files)[path] + text]
    {
      files := files[path := files[path] + text];
    }

    /** `write_txt_file`: stores the payload unchanged, or raises `OSError`. */
    method WriteTxtFile(folderName: string, filename: string, data: string) returns (outcome: Outcome)
      modifies this
      ensures Effect(files, outcome) == Written(old(files), unwritable, PathJoin(folderName, filename), data)
    {
      var path := PathJoin(folderName, filename);
      var isOpen := OpenForWrite(path);
      if !isOpen {
        return Raised(OSError);
      }
      Append(path, data);
      assert "" + data == data;
      outcome := Completed;
    }

    /** `write_csv_file`: stores the payload unchanged (`newline=''` keeps line endings), or
        raises `OSError`. */
    method WriteCsvFile(folderName: string, filename: string, data: string) returns (outcome: Outcome)
      modifies this
      ensures Effect(files, outcome) == Written(old(files), unwritable, PathJoin(folderName, filename), data)
    {
      var path := PathJoin(folderName, filename);
      var isOpen := OpenForWrite(path);
      if !isOpen {
        return Raised(OSError);
      }
      Append(path, data);
      assert "" + data == data;
      outcome := Completed;
    }

    /** `process_txt_file`: reads the input, then writes the counter one line at a time. */
    method ProcessTxtFile(folderName: string, filename: string, outputFilename: string) returns (outcome: Outcome)
      modifies this
      ensures Effect(files, outcome) == TxtProcessed(old(files), unwritable, folderName, filename, outputFilename)
    {
      var path := PathJoin(folderName, filename);
      if path !in files {
        return Logged(IOError);
      }
      var text := files[path];
      var wordCount := CountWords(Tokens(Lower(text)));
      var isOpen := OpenForWrite(outputFilename);
      if !isOpen {
        return Logged(IOError);
      }
      var i := 0;
      while i < |wordCount|
        invariant 0 <= i <= |wordCount|
        invariant files == old(files)[outputFilename := Render(wordCount[..i])]
      {
        Append(outputFilename, Line(wordCount[i]));
        RenderAppend(wordCount[..i], wordCount[i]);
        assert wordCount[..i + 1] == wordCount[..i] + [wordCount[i]];
        i := i + 1;
      }
      assert wordCount[..|wordCount|] == wordCount;
      outcome := Completed;
    }

    /** `process_csv_file`: the summary is built before the output is opened, so a
        `StopIteration` leaves every file as it was, and so does an output that cannot
        be opened. */
    method ProcessCsvFile(folderName: string, filename: string, outputFilename: string,
                          reader: string -> seq<CsvSummary.Record>) returns (outcome: Outcome)
      modifies this
      ensures Effect(files, outcome) == CsvProcessed(old(files), unwritable, folderName, filename, outputFilename, reader)
    {
      var path := PathJoin(folderName, filename);
      if path !in files {
        return Logged(IOError);
      }
      var records := reader(files[path]);
      if records == [] {
        return Raised(StopIteration);
      }
      var summary := CsvSummary.Summarize(records).value;
      var isOpen := OpenForWrite(outputFilename);
      if !isOpen {
        return Logged(IOError);
      }
      Append(outputFilename, summary);
      assert "" + summary == summary;
      outcome := Completed;
    }

    /** `process_json_file`: decoding and counting come before the output is opened, and an
        output that cannot be opened is logged with every file left as it was. */
    method ProcessJsonFile(folderName: string, filename: string, outputFilename: string,
                           load: string -> Option<JsonSummary.Json>) returns (outcome: Outcome)
      modifies this
      ensures Effect(files, outcome) == JsonProcessed(old(files), unwritable, folderName, filename, outputFilename, load)
    {
      var path := PathJoin(folderName, filename);
      if path !in files {
        return Logged(IOError);
      }
      var loaded := load(files[path]);
      if loaded.None? {
        return Logged(JsonDecodeError);
      }
      var summary := JsonSummary.Summarize(loaded.value);
      if summary.Err? {
        return Raised(summary.error);
      }
      var isOpen := OpenForWrite(outputFilename);
      if !isOpen {
        return Logged(IOError);
      }
      Append(outputFilename, summary.value);
      assert "" + summary.value == summary.value;
      outcome := Completed;
    }
  }

  // ---------------------------------------------------------------------------
  // The persist/process boundary.

  /** Writing a text payload and then processing that file writes the word summary of
      the payload itself: the output reads back as the counter of its lower-cased
      tokens, the payload stays in place, and no other file changes. A target that
      cannot be opened stops the writer with `OSError`, and an output that cannot be
      opened is logged with the files left as the writer left them. */
  lemma WriteThenProcessTxt(files: map<string, string>, unwritable: set<string>, folderName: string, filename: string,
                            outputFilename: string, data: string)
    ensures var path := PathJoin(folderName, filename);
      var w := Written(files, unwritable, path, data);
      var e := TxtProcessed(w.files, unwritable, folderName, filename, outputFilename);
      && (path in unwritable ==> w == Effect(files, Raised(OSError)))
      && (path !in unwritable && outputFilename in unwritable ==> e == Effect(w.files, Logged(IOError)))
      && (path !in unwritable && outputFilename !in unwritable ==>
            && e.outcome == Completed
            && e.files == files[path := data][outputFilename := WordSummary(data)]
            && ParseWordSummary(e.files[outputFilename]) == Some(CountWords(Tokens(Lower(data)))))
  {
    WordSummaryReadsBack(data);
  }

  /** Writing CSV text and then processing it writes the CSV summary of the payload's
      records, which reads back as their row count and header. A payload without records
      raises `StopIteration` and leaves the output untouched, and so does an output that
      cannot be opened, with a logged `IOError`; a target that cannot be opened stops the
      writer with `OSError`. */
  lemma WriteThenProcessCsv(files: map<string, string>, unwritable: set<string>, folderName: string, filename: string,
                            outputFilename: string, data: string, reader: string -> seq<CsvSummary.Record>)
    ensures var path := PathJoin(folderName, filename);
      var w := Written(files, unwritable, path, data);
      var e := CsvProcessed(w.files, unwritable, folderName, filename, outputFilename, reader);
      && (path in unwritable ==> w == Effect(files, Raised(OSError)))
      && (path !in unwritable && reader(data) == [] ==> e == Effect(w.files, Raised(StopIteration)))
      && (path !in unwritable && reader(data) != [] && outputFilename in unwritable ==>
            e == Effect(w.files, Logged(IOError)))
      && (path !in unwritable && reader(data) != [] && outputFilename !in unwritable ==>
            && e.outcome == Completed
            && e.files == files[path := data][outputFilename := e.files[outputFilename]]
            && CsvSummary.ReadSummary(e.files[outputFilename]) == Some((|reader(data)| - 1, reader(data)[0])))
  {
    if reader(data) != [] {
      CsvSummary.ReadSummaryOf(reader(data));
    }
  }

  /** A completed run of a processor replaces the whole output file by the summary and
      touches no other path; a run that does not complete changes nothing. */
  lemma ProcessorsOverwriteOnlyOutput(files: map<string, string>, unwritable: set<string>, folderName: string,
                                      filename: string, outputFilename: string,
                                      reader: string -> seq<CsvSummary.Record>, load: string -> Option<JsonSummary.Json>)
    ensures var t := TxtProcessed(files, unwritable, folderName, filename, outputFilename);
      t.files == if t.outcome == Completed then files[outputFilename := t.files[outputFilename]] else files
    ensures var c := CsvProcessed(files, unwritable, folderName, filename, outputFilename, reader);
      c.files == if c.outcome == Completed then files[outputFilename := c.files[outputFilename]] else files
    ensures var j := JsonProcessed(files, unwritable, folderName, filename, outputFilename, load);
      j.files == if j.outcome == Completed then files[outputFilename := j.files[outputFilename]] else files
  {
  }

  /** Running the text pipeline's processor again, on the same input, writes the same
      content: a second run changes nothing. */
  lemma ProcessTxtTwice(files: map<string, string>, unwritable: set<string>, folderName: string, filename: string,
                        outputFilename: string)
    requires outputFilename != PathJoin(folderName, filename)
    ensures var once := TxtProcessed(files, unwritable, folderName, filename, outputFilename);
      TxtProcessed(once.files, unwritable, folderName, filename, outputFilename) == once
  {
  }

  /** The same holds for the CSV and JSON processors. */
  lemma ProcessCsvJsonTwice(files: map<string, string>, unwritable: set<string>, folderName: string, filename: string,
                            outputFilename: string, reader: string -> seq<CsvSummary.Record>,
                            load: string -> Option<JsonSummary.Json>)
    requires outputFilename != PathJoin(folderName, filename)
    ensures var once := CsvProcessed(files, unwritable, folderName, filename, outputFilename, reader);
      CsvProcessed(once.files, unwritable, folderName, filename, outputFilename, reader) == once
    ensures var once := JsonProcessed(files, unwritable, folderName, filename, outputFilename, load);
      JsonProcessed(once.files, unwritable, folderName, filename, outputFilename, load) == once
  {
  }
}
